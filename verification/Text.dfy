/** Rust string operations the models rely on: white space, trimming, joining,
    splitting, line iteration and UTF-8 byte lengths. */
module Text {
  import opened Wrappers

  /** The Unicode White_Space property, as `char::is_whitespace` decides it. */
  predicate IsWhitespace(c: char) {
    var u := c as int;
    || 0x9 <= u <= 0xD || u == 0x20 || u == 0x85 || u == 0xA0 || u == 0x1680
    || 0x2000 <= u <= 0x200A || u == 0x2028 || u == 0x2029 || u == 0x202F || u == 0x205F || u == 0x3000
  }

  /** The 25 characters with that property. */
  lemma {:induction false} WhitespaceMeans(c: char)
    ensures IsWhitespace(c) <==>
            c in {'\t', '\n', '\U{000B}', '\U{000C}', '\r', ' ', '\U{0085}', '\U{00A0}', '\U{1680}', '\U{2000}',
                '\U{2001}',
                  '\U{2002}', '\U{2003}', '\U{2004}', '\U{2005}', '\U{2006}', '\U{2007}', '\U{2008}', '\U{2009}',
                      '\U{200A}',
                  '\U{2028}', '\U{2029}', '\U{202F}', '\U{205F}', '\U{3000}'}
  {
  }

  predicate AllWhitespace(s: string) {
    forall i :: 0 <= i < |s| ==> IsWhitespace(s[i])
  }

  predicate NoWhitespace(s: string) {
    forall i :: 0 <= i < |s| ==> !IsWhitespace(s[i])
  }

  predicate EndsWith(s: string, suffix: string) {
    |suffix| <= |s| && s[|s| - |suffix|..] == suffix
  }

  // ----- trimming -----

  function TrimStart(s: string): (r: string)
    ensures |r| <= |s| && (r != "" ==> !IsWhitespace(r[0]))
  {
    if s != "" && IsWhitespace(s[0]) then TrimStart(s[1..]) else s
  }

  function TrimEnd(s: string): (r: string)
    ensures r <= s && (r != "" ==> !IsWhitespace(r[|r| - 1]))
  {
    if s != "" && IsWhitespace(s[|s| - 1]) then TrimEnd(s[..|s| - 1]) else s
  }

  /** A trimmed string: no white space at either end. */
  predicate Tight(s: string) {
    s != "" ==> !IsWhitespace(s[0]) && !IsWhitespace(s[|s| - 1])
  }

  function Trim(s: string): (r: string)
    ensures Tight(r)
    ensures Tight(s) ==> r == s
  {
    TrimEnd(TrimStart(s))
  }

  lemma AllWhitespaceConcat(a: string, b: string)
    ensures AllWhitespace(a + b) <==> AllWhitespace(a) && AllWhitespace(b)
  {
    var s := a + b;
    if AllWhitespace(s) {
      assert forall i :: 0 <= i < |a| ==> a[i] == s[i];
      assert forall i :: 0 <= i < |b| ==> b[i] == s[|a| + i];
    }
  }

  lemma {:induction false} TrimStartCut(s: string) returns (lead: string)
    ensures s == lead + TrimStart(s) && AllWhitespace(lead)
  {
    if s != "" && IsWhitespace(s[0]) {
      var more := TrimStartCut(s[1..]);
      lead := [s[0]] + more;
      AllWhitespaceConcat([s[0]], more);
      ConcatAssoc([s[0]], more, TrimStart(s));
      assert s == [s[0]] + s[1..];
    } else {
      lead := "";
    }
  }

  lemma {:induction false} TrimEndCut(s: string) returns (trail: string)
    ensures s == TrimEnd(s) + trail && AllWhitespace(trail)
  {
    if s != "" && IsWhitespace(s[|s| - 1]) {
      var more := TrimEndCut(s[..|s| - 1]);
      trail := more + [s[|s| - 1]];
      AllWhitespaceConcat(more, [s[|s| - 1]]);
      ConcatAssoc(TrimEnd(s), more, [s[|s| - 1]]);
      assert s == s[..|s| - 1] + [s[|s| - 1]];
    } else {
      trail := "";
    }
  }

  /** `Trim` cuts white space off both ends and nothing else. */
  lemma TrimProperties(s: string) returns (lead: string, trail: string)
    ensures s == lead + Trim(s) + trail
    ensures AllWhitespace(lead) && AllWhitespace(trail)
  {
    lead := TrimStartCut(s);
    trail := TrimEndCut(TrimStart(s));
    ConcatAssoc(lead, Trim(s), trail);
  }

  lemma TrimIsBlank(s: string)
    ensures Trim(s) == "" <==> AllWhitespace(s)
  {
    var lead, trail := TrimProperties(s);
    AllWhitespaceConcat(lead + Trim(s), trail);
    AllWhitespaceConcat(lead, Trim(s));
  }

  lemma {:induction false} TrimStartPast(lead: string, s: string)
    requires AllWhitespace(lead)
    ensures TrimStart(lead + s) == TrimStart(s)
  {
    if lead == "" {
      assert lead + s == s;
    } else {
      assert (lead + s)[1..] == lead[1..] + s;
      TrimStartPast(lead[1..], s);
    }
  }

  lemma {:induction false} TrimEndPast(s: string, trail: string)
    requires AllWhitespace(trail)
    ensures TrimEnd(s + trail) == TrimEnd(s)
  {
    if trail == "" {
      assert s + trail == s;
    } else {
      var before := trail[..|trail| - 1];
      assert (s + trail)[..|s + trail| - 1] == s + before;
      TrimEndPast(s, before);
    }
  }

  /** Trimming gives back whatever white space was put around. */
  lemma {:induction false} TrimPadded(lead: string, s: string, trail: string)
    requires AllWhitespace(lead) && AllWhitespace(trail) && Tight(s) && s != ""
    ensures Trim(lead + s + trail) == s
  {
    ConcatAssoc(lead, s, trail);
    TrimStartPast(lead, s + trail);
    assert TrimStart(s + trail) == s + trail by { assert (s + trail)[0] == s[0]; }
    TrimEndPast(s, trail);
  }

  // ----- joining -----

  function Join(parts: seq<string>, sep: string): string {
    if parts == [] then ""
    else if |parts| == 1 then parts[0]
    else parts[0] + sep + Join(parts[1..], sep)
  }

  lemma JoinCons(first: string, rest: seq<string>, sep: string)
    ensures Join([first] + rest, sep) == if rest == [] then first else first + sep + Join(rest, sep)
  {
    assert ([first] + rest)[1..] == rest;
  }

  lemma {:induction false} JoinConcat(a: seq<string>, b: seq<string>, sep: string)
    requires a != [] && b != []
    ensures Join(a + b, sep) == Join(a, sep) + sep + Join(b, sep)
  {
    var first, rest := a[0], a[1..];
    assert a == [first] + rest;
    ConcatAssoc([first], rest, b);
    JoinCons(first, rest, sep);
    JoinCons(first, rest + b, sep);
    if rest == [] {
      assert rest + b == b;
    } else {
      JoinConcat(rest, b, sep);
      ConcatAssoc(first + sep, Join(rest, sep), sep);
      ConcatAssoc(first + sep, Join(rest, sep) + sep, Join(b, sep));
    }
  }

  /** Replacing a run of neighbours by their join does not change the whole join. */
  lemma JoinFlatten(a: seq<string>, b: seq<string>, sep: string)
    requires b != []
    ensures Join(a + [Join(b, sep)], sep) == Join(a + b, sep)
  {
    if a == [] {
      assert a + [Join(b, sep)] == [Join(b, sep)] && a + b == b;
    } else {
      JoinConcat(a, b, sep);
      JoinConcat(a, [Join(b, sep)], sep);
    }
  }

  // ----- splitting -----

  predicate OccursAt(s: string, pat: string, i: nat) {
    i + |pat| <= |s| && s[i..i + |pat|] == pat
  }

  lemma ConcatAssoc<T>(a: seq<T>, b: seq<T>, c: seq<T>)
    ensures a + (b + c) == (a + b) + c
  {
  }

  lemma OccursInTail(s: string, pat: string, i: nat)
    requires s != "" && 0 < i
    ensures OccursAt(s, pat, i) == OccursAt(s[1..], pat, i - 1)
  {
    if i + |pat| <= |s| {
      assert s[1..][i - 1..i - 1 + |pat|] == s[i..i + |pat|];
    }
  }

  ghost predicate Contains(s: string, pat: string) {
    exists i: nat :: OccursAt(s, pat, i)
  }

  /** `str::find`: the leftmost occurrence. */
  function Find(s: string, pat: string): (r: Option<nat>)
    ensures r.Some? ==> OccursAt(s, pat, r.value) && forall j: nat :: j < r.value ==> !OccursAt(s, pat, j)
    ensures r.None? <==> !Contains(s, pat)
  {
    if pat <= s then
      Some(0)
    else if s == "" then
      None
    else
      var rest := Find(s[1..], pat);
      assert forall j: nat :: 0 < j ==> OccursAt(s, pat, j) == OccursAt(s[1..], pat, j - 1) by {
        forall j: nat | 0 < j
          ensures OccursAt(s, pat, j) == OccursAt(s[1..], pat, j - 1)
        {
          OccursInTail(s, pat, j);
        }
      }
      if rest.Some? then Some(rest.value + 1) else None
  }

  /** `str::split`: cut at every leftmost, non-overlapping separator. */
  function Split(s: string, sep: string): (parts: seq<string>)
    requires sep != ""
    ensures parts != []
    decreases |s|
  {
    match Find(s, sep)
    case None => [s]
    case Some(i) => [s[..i]] + Split(s[i + |sep|..], sep)
  }

  /** The two cases of `Split`: no separator, or a first piece and the pieces of the rest. */
  lemma SplitCases(s: string, sep: string) returns (first: string, rest: Option<string>)
    requires sep != ""
    ensures rest.None? ==> Split(s, sep) == [s] && first == s && !Contains(s, sep)
    ensures rest.Some? ==> s == first + sep + rest.value && Split(s, sep) == [first] + Split(rest.value, sep)
    ensures rest.Some? ==> Find(s, sep) == Some(|first|)
  {
    match Find(s, sep)
    case None =>
      first, rest := s, None;
    case Some(i) =>
      first, rest := s[..i], Some(s[i + |sep|..]);
      assert s == s[..i] + sep + s[i + |sep|..];
  }

  lemma {:induction false} JoinSplit(s: string, sep: string)
    requires sep != ""
    ensures Join(Split(s, sep), sep) == s
    decreases |s|
  {
    match Find(s, sep)
    case None =>
    case Some(i) =>
      JoinSplit(s[i + |sep|..], sep);
      assert s == s[..i] + sep + s[i + |sep|..];
  }

  // ----- UTF-8 lengths -----

  function CharBytes(c: char): (n: nat)
    ensures 1 <= n <= 4
  {
    var u := c as int;
    if u < 0x80 then 1 else if u < 0x800 then 2 else if u < 0x1_0000 then 3 else 4
  }

  /** How many code points `n` bytes have room for: seven bits in one byte, five more for each further byte and one. */
  function Room(n: nat): nat {
    if n == 0 then 0 else if n == 1 then 128 else if n == 2 then 2_048 else 32 * Room(n - 1)
  }

  /** A character takes as many bytes as it needs. */
  lemma {:induction false} CharBytesMean(c: char)
    ensures Room(CharBytes(c) - 1) <= c as int < Room(CharBytes(c))
  {
    assert Room(3) == 65_536 && Room(4) == 2_097_152 by { assert Room(2) == 2_048; }
  }

  /** `str::len`: the UTF-8 byte length. */
  function ByteLen(s: string): nat {
    if s == "" then 0 else CharBytes(s[0]) + ByteLen(s[1..])
  }

  lemma {:induction false} ByteLenConcat(a: string, b: string)
    ensures ByteLen(a + b) == ByteLen(a) + ByteLen(b)
  {
    if a == "" {
      assert a + b == b;
    } else {
      ByteLenConcat(a[1..], b);
      assert (a + b)[1..] == a[1..] + b;
    }
  }

  // ----- character boundaries in UTF-8 -----

  /** The number of characters in the first `b` bytes of `s`, when `b` falls between two characters. */
  function CharsAt(s: string, b: nat): (k: Option<nat>)
    ensures k.Some? ==> k.value <= |s| && ByteLen(s[..k.value]) == b
  {
    if b == 0 then Some(0)
    else if s == "" || b < CharBytes(s[0]) then None
    else
      var rest := CharsAt(s[1..], b - CharBytes(s[0]));
      if rest.None? then None
      else
        assert s[..rest.value + 1][1..] == s[1..][..rest.value];
        Some(rest.value + 1)
  }

  lemma {:induction false} BoundaryOfPrefix(s: string, k: nat)
    requires k <= |s|
    ensures CharsAt(s, ByteLen(s[..k])) == Some(k)
  {
    if k > 0 {
      assert s[..k][1..] == s[1..][..k - 1];
      BoundaryOfPrefix(s[1..], k - 1);
    }
  }

  lemma {:induction false} LastBoundary(s: string)
    ensures CharsAt(s, ByteLen(s)) == Some(|s|)
  {
    assert s[..|s|] == s;
    BoundaryOfPrefix(s, |s|);
  }

  lemma {:induction false} BeyondEnd(s: string)
    ensures forall j :: ByteLen(s) < j ==> CharsAt(s, j).None?
  {
    if s != "" { BeyondEnd(s[1..]); }
  }

  lemma {:induction false} CharsAtStep(c: char, s: string, b: nat)
    requires CharBytes(c) <= b
    ensures CharsAt([c] + s, b).None? <==> CharsAt(s, b - CharBytes(c)).None?
  {
    assert ([c] + s)[1..] == s;
  }

  lemma {:induction false} ByteLenStep(p: string)
    requires p != ""
    ensures ByteLen(p) == CharBytes(p[0]) + ByteLen(p[1..])
  {
  }

  lemma {:induction false} CharsAtBehind(p: string, s: string, b: nat)
    requires ByteLen(p) <= b
    ensures CharsAt(p + s, b).None? <==> CharsAt(s, b - ByteLen(p)).None?
    decreases |p|
  {
    if p == "" {
      assert p + s == s && b - ByteLen(p) == b;
    } else {
      var c, rest := p[0], p[1..];
      ByteLenStep(p);
      assert p + s == [c] + (rest + s);
      CharsAtBehind(rest, s, b - CharBytes(c));
      CharsAtStep(c, rest + s, b);
    }
  }

  // ----- ordering and case -----

  /** `str::cmp`: UTF-8 byte order is the order of the code points. */
  predicate LexLeq(a: string, b: string) {
    a == "" || (b != "" && (a[0] < b[0] || (a[0] == b[0] && LexLeq(a[1..], b[1..]))))
  }

  lemma {:induction false} LexTotal(a: string, b: string)
    ensures LexLeq(a, b) || LexLeq(b, a)
    ensures LexLeq(a, b) && LexLeq(b, a) ==> a == b
  {
    if a != "" && b != "" && a[0] == b[0] {
      LexTotal(a[1..], b[1..]);
      assert a == [a[0]] + a[1..] && b == [b[0]] + b[1..];
    }
  }

  lemma {:induction false} LexTransitive(a: string, b: string, c: string)
    requires LexLeq(a, b) && LexLeq(b, c)
    ensures LexLeq(a, c)
  {
    if a != "" && a[0] == b[0] == c[0] { LexTransitive(a[1..], b[1..], c[1..]); }
  }

  /** The first character that differs decides, and a prefix comes first. */
  lemma {:induction false} LexMeans(common: string, a: string, b: string)
    requires a != "" && b != "" ==> a[0] != b[0]
    ensures LexLeq(common + a, common + b) <==> a == "" || (b != "" && a[0] < b[0])
  {
    if common == "" {
      assert common + a == a && common + b == b;
    } else {
      LexMeans(common[1..], a, b);
      assert (common + a)[1..] == common[1..] + a && (common + b)[1..] == common[1..] + b;
    }
  }

  function LowerChar(c: char): char {
    if 'A' <= c <= 'Z' then (c as int + 32) as char else c
  }

  /** The 26 capital letters become the small ones, in the order of the alphabet; nothing else changes. */
  lemma {:induction false} LowerMeans(s: string, i: nat)
    requires i < |s|
    ensures !('A' <= Lower(s)[i] <= 'Z')
    ensures !('A' <= s[i] <= 'Z') ==> Lower(s)[i] == s[i]
    ensures 'A' <= s[i] <= 'Z' ==>
            'a' <= Lower(s)[i] <= 'z' && Lower(s)[i] as int - 'a' as int == s[i] as int - 'A' as int
  {
  }

  /** `str::to_ascii_lowercase`. */
  function Lower(s: string): (r: string)
    ensures |r| == |s|
  {
    seq(|s|, i requires 0 <= i < |s| => LowerChar(s[i]))
  }
}
