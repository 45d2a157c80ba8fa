/** The bounded terminal output buffer of `src/acp_subagent.rs`. */
module AcpSubagent {
  import opened Text

  // ----- character boundaries -----

  /** The largest character boundary not above `index`. */
  method FloorCharBoundary(s: string, index: nat) returns (b: nat)
    ensures b <= index && CharsAt(s, b).Some?
    ensures forall j :: b < j <= index ==> CharsAt(s, j).None?
  {
    LastBoundary(s);
    if index >= ByteLen(s) {
      BeyondEnd(s);
      return ByteLen(s);
    }
    b := index;
    while b > 0 && CharsAt(s, b).None?
      invariant b <= index
      invariant forall j :: b < j <= index ==> CharsAt(s, j).None?
    {
      b := b - 1;
    }
  }

  // ----- what the buffer should hold -----

  /** The shortest tail of `all` that still has at least `limit` bytes, or all of it. */
  function ShortestTail(all: string, limit: nat): string {
    if all == "" || ByteLen(all[1..]) < limit then all else ShortestTail(all[1..], limit)
  }

  lemma {:induction false} ByteLenSuffix(t: string, s: string)
    requires EndsWith(s, t)
    ensures ByteLen(t) <= ByteLen(s) && (ByteLen(t) == ByteLen(s) ==> t == s)
  {
    var head := s[..|s| - |t|];
    assert s == head + t;
    ByteLenConcat(head, t);
  }

  lemma SuffixOfRest(t: string, all: string)
    requires |t| < |all|
    ensures EndsWith(all, t) <==> EndsWith(all[1..], t)
  {
    assert all[1..][|all| - 1 - |t|..] == all[|all| - |t|..];
  }

  /** A retained tail is a suffix, is within three bytes of the limit, and no shorter suffix reaches it. */
  lemma {:induction false} ShortestTailProperties(all: string, limit: nat)
    ensures EndsWith(all, ShortestTail(all, limit))
    ensures ByteLen(all) <= limit ==> ShortestTail(all, limit) == all
    ensures limit <= ByteLen(all) ==> limit <= ByteLen(ShortestTail(all, limit)) <= limit + 3
    ensures forall t :: EndsWith(all, t) && |t| < |ShortestTail(all, limit)| ==> ByteLen(t) < limit
  {
    if all != "" && ByteLen(all[1..]) >= limit {
      var r := ShortestTail(all[1..], limit);
      ShortestTailProperties(all[1..], limit);
      SuffixOfRest(r, all);
      forall t | EndsWith(all, t) && |t| < |r|
        ensures ByteLen(t) < limit
      {
        SuffixOfRest(t, all);
      }
    } else if all != "" {
      forall t | EndsWith(all, t) && |t| < |all|
        ensures ByteLen(t) < limit
      {
        SuffixOfRest(t, all);
        ByteLenSuffix(t, all[1..]);
      }
    }
  }

  /** Dropping the largest whole-character prefix within the overflow leaves the shortest tail. */
  lemma {:induction false} CutIsShortestTail(s: string, limit: nat, k: nat)
    requires limit <= ByteLen(s) && k <= |s|
    requires ByteLen(s[..k]) <= ByteLen(s) - limit
    requires k < |s| ==> ByteLen(s) - limit < ByteLen(s[..k + 1])
    ensures s[k..] == ShortestTail(s, limit)
  {
    if k == 0 {
      if s != "" {
        assert s[..1] == [s[0]] && s[..1][1..] == "";
      }
    } else {
      assert s[..k][1..] == s[1..][..k - 1];
      if k < |s| { assert s[..k + 1][1..] == s[1..][..k]; }
      CutIsShortestTail(s[1..], limit, k - 1);
    }
  }

  lemma FloorLeavesShortestTail(s: string, limit: nat, boundary: nat)
    requires limit < ByteLen(s) && boundary <= ByteLen(s) - limit && CharsAt(s, boundary).Some?
    requires forall j :: boundary < j <= ByteLen(s) - limit ==> CharsAt(s, j).None?
    ensures s[CharsAt(s, boundary).value..] == ShortestTail(s, limit)
  {
    var k := CharsAt(s, boundary).value;
    if k < |s| {
      BoundaryOfPrefix(s, k + 1);
      ByteLenConcat(s[..k], [s[k]]);
      assert s[..k + 1] == s[..k] + [s[k]];
      assert CharsAt(s, ByteLen(s[..k + 1])).Some?;
    }
    CutIsShortestTail(s, limit, k);
  }

  /** Cutting early and cutting late agree: what is retained does not depend on when it was cut. */
  lemma {:induction false} ShortestTailAppend(a: string, b: string, limit: nat)
    ensures ShortestTail(ShortestTail(a, limit) + b, limit) == ShortestTail(a + b, limit)
  {
    if a != "" && ByteLen(a[1..]) >= limit {
      ByteLenConcat(a[1..], b);
      assert (a + b)[1..] == a[1..] + b;
      ShortestTailAppend(a[1..], b, limit);
    }
  }

  // ----- the buffer -----

  class RetainedText {
    var text: string
    var truncated: bool
    ghost var appended: string  // everything ever pushed, by either pipe

    ghost predicate Valid(limit: nat)
      reads this
    {
      && text == ShortestTail(appended, limit)
      && (truncated <==> ByteLen(appended) > limit)
    }

    constructor ()
      ensures text == "" && !truncated && appended == ""
      ensures forall limit: nat :: Valid(limit)
    {
      text, truncated, appended := "", false, "";
    }

    method Truncate(limit: nat)
      modifies this
      ensures text == ShortestTail(old(text), limit)
      ensures truncated == (old(truncated) || ByteLen(old(text)) > limit)
      ensures appended == old(appended)
    {
      ShortestTailProperties(text, limit);
      if ByteLen(text) <= limit { return; }
      truncated := true;
      var overflow := ByteLen(text) - limit;
      var boundary := FloorCharBoundary(text, overflow);
      var k := CharsAt(text, boundary).value;
      FloorLeavesShortestTail(text, limit, boundary);
      text := text[k..];
    }

    /** One locked region of a pipe reader: push a chunk and truncate. */
    method Push(chunk: string, limit: nat)
      requires Valid(limit)
      modifies this
      ensures Valid(limit) && appended == old(appended) + chunk
    {
      ghost var before := appended;
      ShortestTailProperties(before, limit);
      ByteLenConcat(before, chunk);
      ByteLenConcat(text, chunk);
      text := text + chunk;
      appended := appended + chunk;
      Truncate(limit);
      ShortestTailAppend(before, chunk, limit);
    }
  }

  // ----- two pipes, one buffer -----

  /** What one `read` call on a pipe returns. */
  datatype Read = Data(chunk: string) | Eof | Failed

  type Pieces = seq<(bool, string)>

  /** What reaches the buffer, and from which pipe, when the scheduler picks pipe `schedule[i]` at step `i`.
      A pipe stops at its first end of file or error. */
  function Taken(out: seq<Read>, err: seq<Read>, schedule: seq<bool>): Pieces
    decreases |schedule|
  {
    if schedule == [] then []
    else
      var pipe := if schedule[0] then out else err;
      if pipe == [] || !pipe[0].Data? then Taken(out, err, schedule[1..])
      else if schedule[0] then [(true, pipe[0].chunk)] + Taken(out[1..], err, schedule[1..])
      else [(false, pipe[0].chunk)] + Taken(out, err[1..], schedule[1..])
  }

  function AllText(pieces: Pieces): string {
    if pieces == [] then "" else pieces[0].1 + AllText(pieces[1..])
  }

  function FromPipe(pieces: Pieces, pipe: bool): seq<string> {
    if pieces == [] then []
    else if pieces[0].0 == pipe then [pieces[0].1] + FromPipe(pieces[1..], pipe)
    else FromPipe(pieces[1..], pipe)
  }

  function ChunksBeforeEnd(pipe: seq<Read>): seq<string> {
    if pipe == [] || !pipe[0].Data? then [] else [pipe[0].chunk] + ChunksBeforeEnd(pipe[1..])
  }

  function Picks(schedule: seq<bool>, pipe: bool): nat {
    if schedule == [] then 0 else (if schedule[0] == pipe then 1 else 0) + Picks(schedule[1..], pipe)
  }

  /** Of each pipe the chunks before its end arrive in order and without a gap, one for each time it is picked. */
  lemma {:induction false} PipesArriveInOrder(out: seq<Read>, err: seq<Read>, schedule: seq<bool>, pipe: bool)
    ensures var chunks := ChunksBeforeEnd(if pipe then out else err);
            FromPipe(Taken(out, err, schedule), pipe)
            == if Picks(schedule, pipe) < |chunks| then chunks[..Picks(schedule, pipe)] else chunks
    decreases |schedule|
  {
    if schedule != [] {
      var picked := if schedule[0] then out else err;
      var out', err' := if schedule[0] && picked != [] && picked[0].Data? then out[1..] else out,
                        if !schedule[0] && picked != [] && picked[0].Data? then err[1..] else err;
      PipesArriveInOrder(out', err', schedule[1..], pipe);
      if picked != [] && picked[0].Data? {
        var rest := Taken(out', err', schedule[1..]);
        FromPipeCons((schedule[0], picked[0].chunk), rest, pipe);
      }
    }
  }

  lemma FromPipeCons(first: (bool, string), rest: Pieces, pipe: bool)
    ensures FromPipe([first] + rest, pipe) == (if first.0 == pipe then [first.1] else []) + FromPipe(rest, pipe)
  {
    assert ([first] + rest)[1..] == rest;
  }

  /** What is still to come, after `appended`, makes up the whole. */
  ghost predicate StillToCome(appended: string, out: seq<Read>, err: seq<Read>, schedule: seq<bool>, whole: string) {
    appended + AllText(Taken(out, err, schedule)) == whole
  }

  lemma TakeNext(appended: string, out: seq<Read>, err: seq<Read>, schedule: seq<bool>, whole: string)
    requires StillToCome(appended, out, err, schedule, whole) && schedule != []
    ensures var pipe := if schedule[0] then out else err;
            if pipe == [] || !pipe[0].Data? then StillToCome(appended, out, err, schedule[1..], whole)
            else StillToCome(appended + pipe[0].chunk, if schedule[0] then out[1..] else out,
                             if schedule[0] then err else err[1..], schedule[1..], whole)
  {
    var pipe := if schedule[0] then out else err;
    if pipe != [] && pipe[0].Data? {
      var rest := Taken(if schedule[0] then out[1..] else out, if schedule[0] then err else err[1..], schedule[1..]);
      assert ([(schedule[0], pipe[0].chunk)] + rest)[1..] == rest;
      ConcatAssoc(appended, pipe[0].chunk, AllText(rest));
    }
  }

  /** Both readers, interleaved by `schedule` at the lock. The buffer holds a suffix of everything appended:
      all of it when the flag is unset, between the limit and three bytes more when it is set. */
  method ReadPipesIntoOutput(out: seq<Read>, err: seq<Read>, schedule: seq<bool>, output: RetainedText, limit: nat)
    requires output.Valid(limit)
    modifies output
    ensures output.Valid(limit)
    ensures output.appended == old(output.appended) + AllText(Taken(out, err, schedule))
    ensures EndsWith(output.appended, output.text)
    ensures if output.truncated then limit <= ByteLen(output.text) <= limit + 3 else output.text == output.appended
  {
    var o, e := out, err;
    ghost var whole := output.appended + AllText(Taken(out, err, schedule));
    for i := 0 to |schedule|
      invariant output.Valid(limit)
      invariant StillToCome(output.appended, o, e, schedule[i..], whole)
    {
      assert schedule[i..][0] == schedule[i] && schedule[i..][1..] == schedule[i + 1..];
      TakeNext(output.appended, o, e, schedule[i..], whole);
      var pipe := if schedule[i] then o else e;
      if pipe != [] && pipe[0].Data? {
        output.Push(pipe[0].chunk, limit);
        if schedule[i] { o := o[1..]; } else { e := e[1..]; }
      }
    }
    assert output.appended + "" == output.appended;
    ShortestTailProperties(output.appended, limit);
  }
}
