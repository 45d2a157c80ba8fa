/** The paragraph chunker and the embedding codec of `src/knowledge.rs`. */
module Knowledge {
  import opened Wrappers
  import opened Text
  import opened Picks

  const TARGET_TOKENS_PER_CHUNK: nat := 500
  const PAGE_BREAK := "\U{000C}"
  const BLANK_LINE := "\n\n"

  /** One token for every four bytes, rounded up. */
  function EstimateTokens(text: string): nat {
    (ByteLen(text) + 3) / 4
  }

  /** The paragraphs of `group` may share one chunk. */
  predicate Fits(group: seq<string>) {
    EstimateTokens(Join(group, BLANK_LINE)) <= TARGET_TOKENS_PER_CHUNK
  }

  // ----- the chunker -----

  /** Each piece trimmed, blank pieces dropped. */
  function TrimmedNonEmpty(pieces: seq<string>): seq<string> {
    if pieces == [] then []
    else
      var t := Trim(pieces[0]);
      (if t == "" then [] else [t]) + TrimmedNonEmpty(pieces[1..])
  }

  /** The paragraphs of a text, in order. */
  function Paragraphs(text: string): seq<string> {
    TrimmedNonEmpty(Split(text, BLANK_LINE))
  }

  /** The greedy packer: `open` is the group being filled, `rest` the paragraphs still to place. */
  function Pack(open: seq<string>, rest: seq<string>): seq<seq<string>>
    decreases |rest|
  {
    if rest == [] then (if open == [] then [] else [open])
    else if open == [] then Pack([rest[0]], rest[1..])
    else if Fits(open + [rest[0]]) then Pack(open + [rest[0]], rest[1..])
    else [open] + Pack([rest[0]], rest[1..])
  }

  /** Some groups closed, one open, the rest to come: the packing of `all` is decided this far. */
  ghost predicate Packing(closed: seq<seq<string>>, open: seq<string>, rest: seq<string>, all: seq<string>) {
    closed + Pack(open, rest) == Pack([], all)
  }

  lemma PackingStep(closed: seq<seq<string>>, open: seq<string>, p: string, rest: seq<string>, all: seq<string>)
    requires Packing(closed, open, [p] + rest, all)
    ensures if open == [] then Packing(closed, [p], rest, all)
            else if Fits(open + [p]) then Packing(closed, open + [p], rest, all)
            else Packing(closed + [open], [p], rest, all)
  {
    var todo := [p] + rest;
    assert todo != [] && todo[0] == p && todo[1..] == rest;
    ConcatAssoc(closed, [open], Pack([p], rest));
  }

  function JoinAll(groups: seq<seq<string>>): seq<string> {
    if groups == [] then [] else [Join(groups[0], BLANK_LINE)] + JoinAll(groups[1..])
  }

  lemma {:induction false} JoinAllAt(groups: seq<seq<string>>)
    ensures |JoinAll(groups)| == |groups|
    ensures forall i :: 0 <= i < |groups| ==> JoinAll(groups)[i] == Join(groups[i], BLANK_LINE)
  {
    if groups != [] { JoinAllAt(groups[1..]); }
  }

  lemma {:induction false} JoinAllAppend(groups: seq<seq<string>>, g: seq<string>)
    ensures JoinAll(groups + [g]) == JoinAll(groups) + [Join(g, BLANK_LINE)]
  {
    if groups != [] {
      JoinAllAppend(groups[1..], g);
      assert (groups + [g])[1..] == groups[1..] + [g];
    } else {
      assert groups + [g] == [g];
    }
  }

  function FormFeedPages(text: string): seq<string> {
    TrimmedNonEmpty(Split(text, PAGE_BREAK))
  }

  predicate UsesFormFeeds(text: string) {
    '\U{000C}' in text && FormFeedPages(text) != []
  }

  function Pages(text: string): seq<string> {
    if text == "" then []
    else if UsesFormFeeds(text) then FormFeedPages(text)
    else if Paragraphs(text) == [] then [""]
    else JoinAll(Pack([], Paragraphs(text)))
  }

  lemma SingleParagraph(text: string)
    requires Split(text, BLANK_LINE) == [text] && text != "" && !UsesFormFeeds(text)
    ensures Pages(text) == [Trim(text)]
  {
    var t := Trim(text);
    TrimmedNonEmptyStep([text], 0);
    assert [text][0..] == [text] && [text][1..] == [];
    if t != "" {
      assert Paragraphs(text) == [t] && [t][1..] == [];
      assert Pack([], [t]) == [[t]];
      JoinAllAt([[t]]);
    }
  }

  method SplitIntoPages(text: string) returns (pages: seq<string>)
    ensures pages == Pages(text)
  {
    if text == "" { return []; }
    if '\U{000C}' in text {
      var formFeedPages := FormFeedPages(text);
      if formFeedPages != [] { return formFeedPages; }
    }
    var paragraphs := Split(text, BLANK_LINE);
    if |paragraphs| <= 1 {
      JoinSplit(text, BLANK_LINE);
      assert paragraphs == [text];
      SingleParagraph(text);
      return [Trim(text)];
    }

    var chunks := MergeParagraphs(paragraphs);
    PagesAreChunks(text, chunks);
    if chunks == [] {
      return [Trim(text)];
    }
    return chunks;
  }

  lemma PagesAreChunks(text: string, chunks: seq<string>)
    requires text != "" && !UsesFormFeeds(text)
    requires chunks == JoinAll(Pack([], Paragraphs(text)))
    ensures Pages(text) == if chunks == [] then [Trim(text)] else chunks
  {
    BlankText(text);
    PackIsGrouping(Paragraphs(text));
  }

  /** The loop of `split_into_pages`: merge neighbouring small paragraphs. */
  method MergeParagraphs(paragraphs: seq<string>) returns (chunks: seq<string>)
    ensures chunks == JoinAll(Pack([], TrimmedNonEmpty(paragraphs)))
  {
    chunks := [];
    var current := "";
    ghost var closed: seq<seq<string>>, open: seq<string> := [], [];
    ghost var all := TrimmedNonEmpty(paragraphs);
    for i := 0 to |paragraphs|
      invariant chunks == JoinAll(closed) && current == Join(open, BLANK_LINE)
      invariant "" !in open
      invariant Packing(closed, open, TrimmedNonEmpty(paragraphs[i..]), all)
    {
      var trimmed := Trim(paragraphs[i]);
      TrimmedNonEmptyStep(paragraphs, i);
      if trimmed == "" { continue; }
      PackingStep(closed, open, trimmed, TrimmedNonEmpty(paragraphs[i + 1..]), all);
      JoinIsEmpty(open);
      if current == "" {
        current, open := trimmed, [trimmed];
      } else {
        var candidate := current + BLANK_LINE + trimmed;
        JoinConcat(open, [trimmed], BLANK_LINE);
        if EstimateTokens(candidate) <= TARGET_TOKENS_PER_CHUNK {
          current, open := candidate, open + [trimmed];
        } else {
          JoinAllAppend(closed, open);
          chunks, closed := chunks + [current], closed + [open];
          current, open := trimmed, [trimmed];
        }
      }
    }
    PackingDone(closed, open, all);
    JoinIsEmpty(open);
    if current != "" {
      JoinAllAppend(closed, open);
      chunks := chunks + [current];
    }
  }

  lemma TrimmedNonEmptyStep(pieces: seq<string>, i: nat)
    requires i < |pieces|
    ensures TrimmedNonEmpty(pieces[i..]) ==
            if Trim(pieces[i]) == "" then TrimmedNonEmpty(pieces[i + 1..])
            else [Trim(pieces[i])] + TrimmedNonEmpty(pieces[i + 1..])
  {
    assert pieces[i..][1..] == pieces[i + 1..];
  }

  lemma PackingDone(closed: seq<seq<string>>, open: seq<string>, all: seq<string>)
    requires Packing(closed, open, [], all)
    ensures Pack([], all) == if open == [] then closed else closed + [open]
  {
  }

  // ----- what packing keeps -----

  function Flatten(groups: seq<seq<string>>): seq<string> {
    if groups == [] then [] else groups[0] + Flatten(groups[1..])
  }

  /** A group a chunk may hold: one paragraph of any size, or several within the target. */
  predicate Admissible(group: seq<string>) {
    group != [] && (|group| == 1 || Fits(group))
  }

  /** An order-preserving way to spread `paragraphs` over chunks. */
  predicate Grouping(groups: seq<seq<string>>, paragraphs: seq<string>) {
    && Flatten(groups) == paragraphs
    && forall g :: g in groups ==> Admissible(g)
  }

  lemma {:induction false} JoinIsEmpty(parts: seq<string>)
    requires "" !in parts
    ensures Join(parts, BLANK_LINE) == "" <==> parts == []
  {
  }

  lemma {:induction false} PackFlattens(open: seq<string>, rest: seq<string>)
    ensures Flatten(Pack(open, rest)) == open + rest
    decreases |rest|
  {
    if rest == [] {
      if open != [] { assert [open][1..] == []; }
      assert open + rest == open;
    } else {
      var p, more := [rest[0]], rest[1..];
      assert rest == p + more;
      ConcatAssoc(open, p, more);
      if open == [] {
        PackFlattens(p, more);
      } else if Fits(open + p) {
        PackFlattens(open + p, more);
      } else {
        PackFlattens(p, more);
        assert ([open] + Pack(p, more))[1..] == Pack(p, more);
      }
    }
  }

  lemma {:induction false} PackIsAdmissible(open: seq<string>, rest: seq<string>)
    requires open == [] || Admissible(open)
    ensures forall g :: g in Pack(open, rest) ==> Admissible(g)
    decreases |rest|
  {
    if rest != [] {
      var p, more := [rest[0]], rest[1..];
      if open != [] && Fits(open + p) {
        PackIsAdmissible(open + p, more);
      } else {
        PackIsAdmissible(p, more);
      }
    }
  }

  /** Packing spreads exactly the given paragraphs, in order, over admissible groups. */
  lemma PackIsGrouping(paragraphs: seq<string>)
    ensures Grouping(Pack([], paragraphs), paragraphs)
  {
    PackFlattens([], paragraphs);
    PackIsAdmissible([], paragraphs);
    assert [] + paragraphs == paragraphs;
  }

  // ----- greedy packing is optimal -----

  lemma {:induction false} FitsSuffix(a: seq<string>, b: seq<string>)
    requires b != [] && Fits(a + b)
    ensures Fits(b)
  {
    if a == [] {
      assert a + b == b;
    } else {
      JoinConcat(a, b, BLANK_LINE);
      ByteLenConcat(Join(a, BLANK_LINE) + BLANK_LINE, Join(b, BLANK_LINE));
    }
  }

  lemma FitsPrefix(a: seq<string>, b: seq<string>)
    requires a != [] && Fits(a + b)
    ensures Fits(a)
  {
    if b == [] {
      assert a + b == a;
    } else {
      JoinConcat(a, b, BLANK_LINE);
      ByteLenConcat(Join(a, BLANK_LINE) + BLANK_LINE, Join(b, BLANK_LINE));
      ByteLenConcat(Join(a, BLANK_LINE), BLANK_LINE);
    }
  }

  /** A shorter open group never costs a chunk, and saves at most one. */
  lemma {:induction false} ShorterOpenGroup(extra: seq<string>, open: seq<string>, rest: seq<string>)
    requires open != []
    ensures |Pack(open, rest)| <= |Pack(extra + open, rest)| <= |Pack(open, rest)| + 1
    decreases |rest|
  {
    if rest != [] {
      var p := [rest[0]];
      assert extra + open + p == extra + (open + p);
      if Fits(extra + open + p) {
        FitsSuffix(extra, open + p);
        ShorterOpenGroup(extra, open + p, rest[1..]);
      } else if Fits(open + p) {
        ShorterOpenGroup(open, p, rest[1..]);
      }
    }
  }

  /** Packing swallows an admissible group whole before it looks further. */
  lemma {:induction false} PackFillsGroup(open: seq<string>, more: seq<string>, rest: seq<string>)
    requires open != [] && (more == [] || Fits(open + more))
    ensures Pack(open, more + rest) == Pack(open + more, rest)
    decreases |more|
  {
    if more == [] {
      assert more + rest == rest && open + more == open;
    } else {
      var p := [more[0]];
      assert open + more == (open + p) + more[1..];
      FitsPrefix(open + p, more[1..]);
      assert (more + rest)[1..] == more[1..] + rest;
      PackFillsGroup(open + p, more[1..], rest);
    }
  }

  /** No grouping of the same paragraphs uses fewer chunks. */
  lemma {:induction false} GreedyIsOptimal(groups: seq<seq<string>>, paragraphs: seq<string>)
    requires Grouping(groups, paragraphs)
    ensures |Pack([], paragraphs)| <= |groups|
    decreases |groups|
  {
    if groups != [] {
      var g, rest := groups[0], Flatten(groups[1..]);
      assert Admissible(g);
      assert g == [g[0]] + g[1..];
      assert paragraphs == [g[0]] + (g[1..] + rest);
      PackFillsGroup([g[0]], g[1..], rest);
      GreedyIsOptimal(groups[1..], rest);
      if rest != [] {
        ShorterOpenGroup(g, [rest[0]], rest[1..]);
      }
    }
  }

  // ----- splitting again gives the same pieces -----

  ghost predicate CleanParagraph(p: string) {
    p != "" && Tight(p) && !Contains(p, BLANK_LINE)
  }

  lemma PrefixHasNoEarlier(s: string, pat: string, i: nat)
    requires pat != "" && i <= |s| && forall j: nat :: j < i ==> !OccursAt(s, pat, j)
    ensures !Contains(s[..i], pat)
  {
    forall j: nat | OccursAt(s[..i], pat, j)
      ensures false
    {
      assert s[..i][j..j + |pat|] == s[j..j + |pat|];
      assert OccursAt(s, pat, j);
    }
  }

  lemma {:induction false} SplitPieces(s: string, sep: string)
    requires sep != ""
    ensures forall p :: p in Split(s, sep) ==> !Contains(p, sep)
    decreases |s|
  {
    var first, rest := SplitCases(s, sep);
    if rest.Some? {
      SplitPieces(rest.value, sep);
      assert s[..|first|] == first;
      PrefixHasNoEarlier(s, sep, |first|);
    }
  }

  lemma ContainsInMiddle(a: string, m: string, b: string, pat: string)
    requires Contains(m, pat)
    ensures Contains(a + m + b, pat)
  {
    var i: nat :| OccursAt(m, pat, i);
    var s, k := a + m + b, |a| + i;
    assert s[k..k + |pat|] == m[i..i + |pat|];
    assert OccursAt(s, pat, k);
  }

  lemma {:induction false} TrimmedPiecesAreClean(pieces: seq<string>)
    requires forall p :: p in pieces ==> !Contains(p, BLANK_LINE)
    ensures forall p :: p in TrimmedNonEmpty(pieces) ==> CleanParagraph(p)
  {
    if pieces != [] {
      TrimmedPiecesAreClean(pieces[1..]);
      if Contains(Trim(pieces[0]), BLANK_LINE) {
        var lead, trail := TrimProperties(pieces[0]);
        ContainsInMiddle(lead, Trim(pieces[0]), trail, BLANK_LINE);
      }
    }
  }

  lemma ParagraphsAreClean(text: string)
    ensures forall p :: p in Paragraphs(text) ==> CleanParagraph(p)
  {
    SplitPieces(text, BLANK_LINE);
    TrimmedPiecesAreClean(Split(text, BLANK_LINE));
  }

  lemma NoEarlierBlankLine(p: string, rest: string, i: nat)
    requires CleanParagraph(p) && i < |p|
    ensures !OccursAt(p + BLANK_LINE + rest, BLANK_LINE, i)
  {
    var s := p + BLANK_LINE + rest;
    if i + 2 <= |p| {
      assert s[i..i + 2] == p[i..i + 2];
      assert !OccursAt(p, BLANK_LINE, i);
    } else {
      assert s[i..i + 2][0] == p[|p| - 1];
    }
  }

  /** The first blank line of `p`, a blank line and `rest` is the one put between them. */
  lemma FindAfterParagraph(p: string, rest: string)
    requires CleanParagraph(p)
    ensures Find(p + BLANK_LINE + rest, BLANK_LINE) == Some(|p|)
  {
    assert OccursAt(p + BLANK_LINE + rest, BLANK_LINE, |p|);
    forall i: nat | i < |p|
      ensures !OccursAt(p + BLANK_LINE + rest, BLANK_LINE, i)
    {
      NoEarlierBlankLine(p, rest, i);
    }
  }

  lemma {:induction false} SplitOfJoin(ps: seq<string>)
    requires ps != [] && forall p :: p in ps ==> CleanParagraph(p)
    ensures Split(Join(ps, BLANK_LINE), BLANK_LINE) == ps
  {
    assert CleanParagraph(ps[0]);
    if |ps| > 1 {
      var rest := Join(ps[1..], BLANK_LINE);
      FindAfterParagraph(ps[0], rest);
      SplitOfJoin(ps[1..]);
      var s := ps[0] + BLANK_LINE + rest;
      assert s[..|ps[0]|] == ps[0] && s[|ps[0]| + 2..] == rest;
    }
  }

  lemma {:induction false} TrimmedNonEmptyIsIdle(ps: seq<string>)
    requires forall p :: p in ps ==> CleanParagraph(p)
    ensures TrimmedNonEmpty(ps) == ps
  {
    if ps != [] {
      assert CleanParagraph(ps[0]);
      TrimmedNonEmptyIsIdle(ps[1..]);
    }
  }

  lemma RepeatedSplit(ps: seq<string>)
    requires ps != [] && forall p :: p in ps ==> CleanParagraph(p)
    ensures Paragraphs(Join(ps, BLANK_LINE)) == ps && Join(ps, BLANK_LINE) != ""
  {
    SplitOfJoin(ps);
    TrimmedNonEmptyIsIdle(ps);
    assert "" !in ps;
    JoinIsEmpty(ps);
  }

  lemma {:induction false} BlankPieces(pieces: seq<string>, sep: string)
    requires AllWhitespace(sep)
    ensures TrimmedNonEmpty(pieces) == [] <==> AllWhitespace(Join(pieces, sep))
  {
    if pieces != [] {
      TrimIsBlank(pieces[0]);
      if |pieces| > 1 {
        BlankPieces(pieces[1..], sep);
        AllWhitespaceConcat(pieces[0] + sep, Join(pieces[1..], sep));
        AllWhitespaceConcat(pieces[0], sep);
      } else {
        assert pieces[1..] == [];
      }
    }
  }

  lemma BlankText(text: string)
    ensures Paragraphs(text) == [] <==> AllWhitespace(text)
    ensures Trim(text) == "" <==> AllWhitespace(text)
  {
    JoinSplit(text, BLANK_LINE);
    BlankPieces(Split(text, BLANK_LINE), BLANK_LINE);
    TrimIsBlank(text);
  }

  lemma {:induction false} SplitAddsNoChar(s: string, sep: string, c: char)
    requires sep != "" && c !in s
    ensures forall p :: p in Split(s, sep) ==> c !in p
    decreases |s|
  {
    var first, rest := SplitCases(s, sep);
    if rest.Some? { SplitAddsNoChar(rest.value, sep, c); }
  }

  lemma {:induction false} TrimmedJoinAddsNoChar(pieces: seq<string>, sep: string, c: char)
    requires c !in sep && forall p :: p in pieces ==> c !in p
    ensures c !in Join(TrimmedNonEmpty(pieces), sep)
  {
    if pieces != [] {
      TrimmedJoinAddsNoChar(pieces[1..], sep, c);
      assert c !in pieces[0];
      var lead, trail := TrimProperties(pieces[0]);
      assert c !in lead + Trim(pieces[0]) + trail;
      var rest := TrimmedNonEmpty(pieces[1..]);
      if Trim(pieces[0]) == "" {
        assert TrimmedNonEmpty(pieces) == rest;
      } else {
        assert TrimmedNonEmpty(pieces)[1..] == rest;
      }
    }
  }

  // ----- main results -----

  lemma {:induction false} JoinOfJoins(groups: seq<seq<string>>)
    requires forall g :: g in groups ==> g != []
    ensures Join(JoinAll(groups), BLANK_LINE) == Join(Flatten(groups), BLANK_LINE)
  {
    if groups != [] {
      var g, rest := groups[0], groups[1..];
      assert forall h :: h in rest ==> h in groups;
      JoinOfJoins(rest);
      assert JoinAll(groups) == [Join(g, BLANK_LINE)] + JoinAll(rest);
      if rest == [] {
        assert Flatten(groups) == g;
      } else {
        JoinConcat([Join(g, BLANK_LINE)], JoinAll(rest), BLANK_LINE);
        assert g in groups && rest[0] in groups;
        assert Flatten(rest)[0] == rest[0][0];
        JoinConcat(g, Flatten(rest), BLANK_LINE);
      }
    }
  }

  /** Chunking loses nothing: joined again, the chunks are the trimmed non-blank paragraphs
      joined. Every chunk that holds more than one paragraph is at most 2000 bytes long. */
  lemma PagesConserve(text: string)
    requires '\U{000C}' !in text
    ensures Join(Pages(text), BLANK_LINE) == Join(Paragraphs(text), BLANK_LINE)
    ensures forall c :: c in Pages(text) ==> ByteLen(c) <= 2000 || c in Paragraphs(text)
  {
    var ps := Paragraphs(text);
    BlankText(text);
    if ps != [] {
      PackIsGrouping(ps);
      var groups := Pack([], ps);
      JoinOfJoins(groups);
      JoinAllAt(groups);
      forall c | c in JoinAll(groups)
        ensures ByteLen(c) <= 2000 || c in ps
      {
        var i :| 0 <= i < |groups| && c == JoinAll(groups)[i];
        assert Admissible(groups[i]);
        if |groups[i]| == 1 {
          InFlatten(groups, i);
          assert groups[i][0] in ps;
        }
      }
    }
  }

  lemma {:induction false} InFlatten(groups: seq<seq<string>>, i: nat)
    requires i < |groups|
    ensures forall p :: p in groups[i] ==> p in Flatten(groups)
  {
    if i > 0 { InFlatten(groups[1..], i - 1); }
  }

  /** Chunking is optimal: no order-preserving grouping of the paragraphs into admissible
      chunks has fewer chunks. */
  lemma PagesAreOptimal(text: string, groups: seq<seq<string>>)
    requires '\U{000C}' !in text && !AllWhitespace(text)
    requires Grouping(groups, Paragraphs(text))
    ensures |Pages(text)| <= |groups|
  {
    BlankText(text);
    GreedyIsOptimal(groups, Paragraphs(text));
    JoinAllAt(Pack([], Paragraphs(text)));
  }

  /** Chunking the joined chunks gives the same chunks back, except for a blank text that is
      not empty: that one comes out as one empty chunk, whose join is the empty text. */
  lemma PagesFixpoint(text: string)
    requires '\U{000C}' !in text
    ensures Pages(Join(Pages(text), BLANK_LINE)) == Pages(text) <==> text == "" || !AllWhitespace(text)
  {
    BlankText(text);
    if Paragraphs(text) != [] {
      PagesOfJoinedParagraphs(text);
      PagesConserve(text);
    } else {
      assert Pages("") == [];
      assert Join(Pages(text), BLANK_LINE) == "";
    }
  }

  lemma SamePages(a: string, b: string)
    requires a != "" && b != "" && '\U{000C}' !in a && '\U{000C}' !in b
    requires Paragraphs(a) == Paragraphs(b)
    ensures Pages(a) == Pages(b)
  {
  }

  lemma NoPageBreakAdded(text: string)
    requires '\U{000C}' !in text
    ensures '\U{000C}' !in Join(Paragraphs(text), BLANK_LINE)
  {
    SplitAddsNoChar(text, BLANK_LINE, '\U{000C}');
    TrimmedJoinAddsNoChar(Split(text, BLANK_LINE), BLANK_LINE, '\U{000C}');
  }

  lemma PagesOfJoinedParagraphs(text: string)
    requires '\U{000C}' !in text && Paragraphs(text) != []
    ensures Pages(Join(Paragraphs(text), BLANK_LINE)) == Pages(text)
  {
    ParagraphsAreClean(text);
    RepeatedSplit(Paragraphs(text));
    NoPageBreakAdded(text);
    BlankText(text);
    SamePages(text, Join(Paragraphs(text), BLANK_LINE));
  }

  // ----- pieces -----

  function NotBlank(): string -> bool {
    (s: string) => !AllWhitespace(s)
  }

  function Trimmed(): string -> string {
    (s: string) => Trim(s)
  }

  lemma {:induction false} TrimmedFrom(pieces: seq<string>, i: nat)
    requires i <= |pieces|
    ensures TrimmedNonEmpty(pieces[i..]) == PickFrom(pieces, i, NotBlank(), Trimmed())
    decreases |pieces| - i
  {
    if i < |pieces| {
      assert pieces[i..][1..] == pieces[i + 1..];
      TrimIsBlank(pieces[i]);
      TrimmedFrom(pieces, i + 1);
    }
  }

  lemma {:induction false} TrimmedArePicked(pieces: seq<string>)
    ensures Picked(pieces, NotBlank(), Trimmed(), TrimmedNonEmpty(pieces))
  {
    TrimmedFrom(pieces, 0);
    assert pieces[0..] == pieces;
    PickIsPicked(pieces, NotBlank(), Trimmed());
  }

  /** The paragraphs are the trimmed pieces between blank lines that are not blank, all of them and in order. */
  lemma {:induction false} ParagraphsMean(text: string) returns (pieces: seq<string>)
    ensures Join(pieces, BLANK_LINE) == text && forall p :: p in pieces ==> !Contains(p, BLANK_LINE)
    ensures Picked(pieces, NotBlank(), Trimmed(), Paragraphs(text))
  {
    pieces := Split(text, BLANK_LINE);
    JoinSplit(text, BLANK_LINE);
    SplitPieces(text, BLANK_LINE);
    TrimmedArePicked(pieces);
  }

  /** A text with form feeds becomes its trimmed pages, all that are not blank and in order, unless it is blank. */
  lemma {:induction false} FormFeedPagesMean(text: string) returns (pieces: seq<string>)
    requires '\U{000C}' in text && !AllWhitespace(text)
    ensures Join(pieces, PAGE_BREAK) == text && forall p :: p in pieces ==> '\U{000C}' !in p
    ensures Picked(pieces, NotBlank(), Trimmed(), Pages(text))
  {
    pieces := Split(text, PAGE_BREAK);
    JoinSplit(text, PAGE_BREAK);
    SplitPieces(text, PAGE_BREAK);
    forall p | p in pieces
      ensures '\U{000C}' !in p
    {
      NotContained(p);
    }
    TrimmedArePicked(pieces);
    if FormFeedPages(text) == [] { OnlyBlankPieces(pieces); }
  }

  lemma {:induction false} NotContained(p: string)
    requires !Contains(p, PAGE_BREAK)
    ensures '\U{000C}' !in p
  {
    forall j: nat | j < |p|
      ensures p[j] != '\U{000C}'
    {
      assert !OccursAt(p, PAGE_BREAK, j) && p[j..j + 1] == [p[j]];
    }
  }

  lemma {:induction false} OnlyBlankPieces(pieces: seq<string>)
    requires TrimmedNonEmpty(pieces) == []
    ensures AllWhitespace(Join(pieces, PAGE_BREAK))
  {
    if pieces != [] {
      var first, rest := pieces[0], pieces[1..];
      assert pieces == [first] + rest;
      TrimIsBlank(first);
      OnlyBlankPieces(rest);
      JoinCons(first, rest, PAGE_BREAK);
      AllWhitespaceConcat(first, PAGE_BREAK);
      AllWhitespaceConcat(first + PAGE_BREAK, Join(rest, PAGE_BREAK));
    }
  }

  // ----- the embedding codec -----

  /** `f32::to_le_bytes` on the bit pattern of a float. */
  function ToLeBytes(f: bv32): seq<bv8> {
    [(f & 0xFF) as bv8, ((f >> 8) & 0xFF) as bv8, ((f >> 16) & 0xFF) as bv8, (f >> 24) as bv8]
  }

  /** `f32::from_le_bytes`. */
  function FromLeBytes(b: seq<bv8>): bv32
    requires |b| == 4
  {
    b[0] as bv32 | (b[1] as bv32 << 8) | (b[2] as bv32 << 16) | (b[3] as bv32 << 24)
  }

  function FloatsToBytes(floats: seq<bv32>): seq<bv8> {
    if floats == [] then [] else ToLeBytes(floats[0]) + FloatsToBytes(floats[1..])
  }

  /** Reads whole groups of four bytes; a shorter rest is ignored. */
  function BytesToFloats(bytes: seq<bv8>): seq<bv32> {
    if |bytes| < 4 then [] else [FromLeBytes(bytes[..4])] + BytesToFloats(bytes[4..])
  }

  lemma LeBytesRoundTrip(f: bv32, b: seq<bv8>)
    requires |b| == 4
    ensures FromLeBytes(ToLeBytes(f)) == f
    ensures ToLeBytes(FromLeBytes(b)) == b
  {
  }

  /** The bytes of a float are the digits of its bit pattern in base 256, the lowest first. */
  lemma {:induction false} LittleEndian(f: bv32)
    ensures |ToLeBytes(f)| == 4
    ensures var b := ToLeBytes(f);
            b[0] as bv32 + 256 * (b[1] as bv32) + 65_536 * (b[2] as bv32) + 16_777_216 * (b[3] as bv32) == f
  {
  }

  /** Decoding inverts encoding on every vector. */
  lemma {:induction false} DecodeEncode(floats: seq<bv32>)
    ensures BytesToFloats(FloatsToBytes(floats)) == floats
  {
    if floats != [] {
      var f, rest := floats[0], FloatsToBytes(floats[1..]);
      LeBytesRoundTrip(f, [0, 0, 0, 0]);
      DecodeEncode(floats[1..]);
      assert (ToLeBytes(f) + rest)[..4] == ToLeBytes(f);
      assert (ToLeBytes(f) + rest)[4..] == rest;
    }
  }

  /** Encoding inverts decoding on every byte string, up to the incomplete last group. */
  lemma {:induction false} EncodeDecode(bytes: seq<bv8>)
    ensures FloatsToBytes(BytesToFloats(bytes)) == bytes[..|bytes| / 4 * 4]
  {
    if |bytes| >= 4 {
      LeBytesRoundTrip(0, bytes[..4]);
      EncodeDecode(bytes[4..]);
      var f, fs := FromLeBytes(bytes[..4]), BytesToFloats(bytes[4..]);
      assert ([f] + fs)[1..] == fs;
      assert |bytes[4..]| / 4 * 4 + 4 == |bytes| / 4 * 4;
      assert bytes[..|bytes| / 4 * 4] == bytes[..4] + bytes[4..][..|bytes[4..]| / 4 * 4];
    }
  }
}
