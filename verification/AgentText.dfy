/** How `src/agent_engine.rs` writes user messages into a transcript and finds slash commands in one. */
module AgentText {
  import opened Wrappers
  import opened Text
  import opened Picks
  import opened Transcript

  const OPEN_TAG := "<user_message "
  const CLOSE_TAG := "</user_message>"

  function EscapeChar(c: char): string {
    if c == '&' then "&amp;"
    else if c == '<' then "&lt;"
    else if c == '>' then "&gt;"
    else if c == '"' then "&quot;"
    else [c]
  }

  function SanitizeXml(s: string): string {
    if s == "" then "" else EscapeChar(s[0]) + SanitizeXml(s[1..])
  }

  const OPENING := "<user_message sender=\""

  function Opening(sender: string): string {
    OPENING + SanitizeXml(sender) + "\">"
  }

  function FormatUserMessage(sender: string, content: string): string {
    Opening(sender) + SanitizeXml(content) + CLOSE_TAG
  }

  predicate IsSlashCommandText(text: string) {
    var t := TrimStart(text);
    t != "" && t[0] == '/'
  }

  predicate IsWrappedSlashCommandLine(line: string) {
    var trimmed := Trim(line);
    && OPEN_TAG <= trimmed && EndsWith(trimmed, CLOSE_TAG)
    && var start := Find(trimmed, ">");
       && start.Some?
       && var end := |trimmed| - |CLOSE_TAG|;
          start.value + 1 <= end && IsSlashCommandText(trimmed[start.value + 1..end])
  }

  // ----- the recogniser agrees with the printer -----

  lemma {:induction false} SanitizeHasNo(s: string, c: char)
    requires c == '<' || c == '>' || (c !in s && c != '&' && c !in "amp;ltgquo")
    ensures c !in SanitizeXml(s)
  {
    if s != "" {
      SanitizeHasNo(s[1..], c);
      EscapedHasNo(s[0], c);
    }
  }

  lemma EscapedHasNo(x: char, c: char)
    requires c == '<' || c == '>' || (c != x && c != '&' && c !in "amp;ltgquo")
    ensures c !in EscapeChar(x)
  {
  }

  lemma {:induction false} SanitizeKeepsSlash(s: string, rest: string)
    requires rest == "" || rest[0] == '<' || rest[0] == '"'
    ensures IsSlashCommandText(SanitizeXml(s) + rest) <==> IsSlashCommandText(s)
  {
    if s == "" {
      assert SanitizeXml(s) + rest == rest;
    } else {
      var e, more := EscapeChar(s[0]), SanitizeXml(s[1..]) + rest;
      assert SanitizeXml(s) + rest == e + more;
      assert (e + more)[0] == e[0];
      if IsWhitespace(s[0]) {
        SanitizeKeepsSlash(s[1..], rest);
        assert (e + more)[1..] == more;
      }
    }
  }

  lemma FindClosing(prefix: string, rest: string)
    requires '>' !in prefix
    ensures Find(prefix + ">" + rest, ">") == Some(|prefix|)
  {
    var s := prefix + ">" + rest;
    assert OccursAt(s, ">", |prefix|);
    forall j: nat | j < |prefix|
      ensures !OccursAt(s, ">", j)
    {
      assert s[j..j + 1] == [prefix[j]];
    }
  }

  /** For every sender and content, a formatted message is recognised as a slash command line exactly
      when its content is a slash command. */
  lemma RecogniserAgreesWithPrinter(sender: string, content: string)
    ensures IsWrappedSlashCommandLine(FormatUserMessage(sender, content)) <==> IsSlashCommandText(content)
  {
    var prefix := OPENING + SanitizeXml(sender) + "\"";
    FormattedIsTight(sender, content);
    FormattedShape(sender, content);
    OpeningHasNoClosing(sender);
    FindClosing(prefix, SanitizeXml(content) + CLOSE_TAG);
    SanitizeKeepsSlash(content, "");
    assert SanitizeXml(content) + "" == SanitizeXml(content);
  }

  lemma BetweenTags(prefix: string, body: string, close: string)
    ensures var line := prefix + ">" + (body + close);
            && prefix <= line && EndsWith(line, close)
            && |prefix| + 1 + |close| <= |line| && line[|prefix| + 1..|line| - |close|] == body
  {
    var line := prefix + ">" + (body + close);
    assert line == (prefix + ">") + body + close;
  }

  lemma OpenTagLeads(rest: string)
    ensures OPEN_TAG <= OPENING + rest
  {
    assert OPEN_TAG <= OPENING;
  }

  lemma Regrouped(open: string, body: string, close: string)
    ensures (open + "\">") + body + close == (open + "\"") + ">" + (body + close)
  {
    assert "\">" == "\"" + ">";
    ConcatAssoc(open, "\"", ">");
    ConcatAssoc(open + "\">", body, close);
  }

  lemma FormattedShape(sender: string, content: string)
    ensures var line, prefix := FormatUserMessage(sender, content), OPENING + SanitizeXml(sender) + "\"";
            && line == prefix + ">" + (SanitizeXml(content) + CLOSE_TAG)
            && OPEN_TAG <= line && EndsWith(line, CLOSE_TAG)
            && |prefix| + 1 <= |line| - |CLOSE_TAG|
            && line[|prefix| + 1..|line| - |CLOSE_TAG|] == SanitizeXml(content)
  {
    var body, open := SanitizeXml(content), OPENING + SanitizeXml(sender);
    Regrouped(open, body, CLOSE_TAG);
    BetweenTags(open + "\"", body, CLOSE_TAG);
    OpenTagLeads(SanitizeXml(sender));
    PrefixTransitively(OPEN_TAG, open, open + "\"", FormatUserMessage(sender, content));
  }

  lemma PrefixTransitively(a: string, b: string, c: string, d: string)
    requires a <= b <= c <= d
    ensures a <= d
  {
  }

  lemma OpeningHasNoClosing(sender: string)
    ensures '>' !in OPENING + SanitizeXml(sender) + "\""
  {
    SanitizeHasNo(sender, '>');
  }

  lemma FormattedIsTight(sender: string, content: string)
    ensures Tight(FormatUserMessage(sender, content)) && FormatUserMessage(sender, content) != ""
    ensures FormatUserMessage(sender, content)[0] == '<'
  {
    var line := FormatUserMessage(sender, content);
    assert line[0] == OPENING[0];
    assert line[|line| - 1] == CLOSE_TAG[|CLOSE_TAG| - 1];
  }

  // ----- stripping slash command lines -----

  function StripCr(line: string): string {
    if line != "" && line[|line| - 1] == '\r' then line[..|line| - 1] else line
  }

  /** `str::lines`. */
  function Lines(t: string): seq<string>
    decreases |t|
  {
    if t == "" then []
    else
      match Find(t, "\n")
      case None => [t]
      case Some(i) => [StripCr(t[..i])] + Lines(t[i + 1..])
  }

  predicate IsCommandLine(line: string) {
    var trimmed := Trim(line);
    IsSlashCommandText(trimmed) || IsWrappedSlashCommandLine(trimmed)
  }

  function KeptLines(lines: seq<string>): seq<string> {
    if lines == [] then []
    else if IsCommandLine(lines[0]) then KeptLines(lines[1..])
    else [lines[0]] + KeptLines(lines[1..])
  }

  /** One message without its command lines, or nothing when no line is left. */
  function StripMessage(m: Message): Option<Message> {
    if m.role != USER || m.content.Blocks? then Some(m)
    else
      var kept := KeptLines(Lines(m.content.text));
      if kept == [] then None else Some(m.(content := Plain(Join(kept, "\n"))))
  }

  function StripAll(ms: seq<Message>): seq<Message> {
    if ms == [] then []
    else
      var m := StripMessage(ms[0]);
      if m.None? then StripAll(ms[1..]) else [m.value] + StripAll(ms[1..])
  }

  ghost predicate StrippedSoFar(filtered: seq<Message>, rest: seq<Message>, all: seq<Message>) {
    filtered + StripAll(rest) == StripAll(all)
  }

  lemma StripStep(filtered: seq<Message>, rest: seq<Message>, all: seq<Message>)
    requires rest != [] && StrippedSoFar(filtered, rest, all)
    ensures var m := StripMessage(rest[0]);
            StrippedSoFar(if m.None? then filtered else filtered + [m.value], rest[1..], all)
  {
    var m := StripMessage(rest[0]);
    if m.Some? { ConcatAssoc(filtered, [m.value], StripAll(rest[1..])); }
  }

  method StripSlashCommandUserLines(messages: seq<Message>) returns (filtered: seq<Message>)
    ensures filtered == StripAll(messages)
  {
    filtered := [];
    for i := 0 to |messages|
      invariant StrippedSoFar(filtered, messages[i..], messages)
    {
      var msg := messages[i];
      StripStep(filtered, messages[i..], messages);
      assert messages[i..][1..] == messages[i + 1..];
      if msg.role != USER {
        filtered := filtered + [msg];
        continue;
      }
      match msg.content
      case Plain(t) =>
        var kept := KeptLines(Lines(t));
        if kept == [] { continue; }
        filtered := filtered + [msg.(content := Plain(Join(kept, "\n")))];
      case Blocks(_) =>
        filtered := filtered + [msg];
    }
  }

  /** Stripping never touches tool blocks, so it keeps the pairing. */
  lemma {:induction false} StripKeepsPairing(open: seq<string>, ms: seq<Message>, left: seq<string>)
    requires PairedFromTo(open, ms, left)
    ensures PairedFromTo(open, StripAll(ms), left)
    decreases |ms|
  {
    if ms != [] { StripKeepsPairing(Uses(ms[0]), ms[1..], left); }
  }

  // ----- what is a command, and what stripping leaves alone -----

  predicate SlashAfter(text: string, lead: string, rest: string) {
    AllWhitespace(lead) && text == lead + ("/" + rest)
  }

  lemma {:induction false} PartsOfSlash(text: string) returns (lead: string, rest: string)
    requires IsSlashCommandText(text)
    ensures SlashAfter(text, lead, rest)
  {
    var t := TrimStart(text);
    lead := TrimStartCut(text);
    rest := t[1..];
    assert t == "/" + rest;
  }

  lemma {:induction false} PartsAreSlash(text: string, lead: string, rest: string)
    requires SlashAfter(text, lead, rest)
    ensures IsSlashCommandText(text)
  {
    TrimStartPast(lead, "/" + rest);
  }

  /** A slash command is a text whose first character that is no white space is a slash. */
  lemma {:induction false} SlashMeans(text: string)
    ensures IsSlashCommandText(text) <==> exists lead, rest :: SlashAfter(text, lead, rest)
  {
    if IsSlashCommandText(text) { var lead, rest := PartsOfSlash(text); }
    forall lead, rest | SlashAfter(text, lead, rest)
      ensures IsSlashCommandText(text)
    {
      PartsAreSlash(text, lead, rest);
    }
  }

  /** A line is wrapped when, trimmed, it is an opening tag up to its first bracket, a body and the closing tag. */
  ghost predicate WrappedCommand(line: string, attributes: string, body: string) {
    line == OPEN_TAG + attributes + ">" + body + CLOSE_TAG && '>' !in attributes && IsSlashCommandText(body)
  }

  lemma {:induction false} WrappedMeans(line: string)
    ensures IsWrappedSlashCommandLine(line) <==> exists attributes, body :: WrappedCommand(Trim(line), attributes, body)
  {
    if IsWrappedSlashCommandLine(line) { var attributes, body := PartsOfWrapped(line); }
    forall attributes, body | WrappedCommand(Trim(line), attributes, body)
      ensures IsWrappedSlashCommandLine(line)
    {
      PartsAreWrapped(Trim(line), attributes, body);
    }
  }

  lemma {:induction false} PartsOfWrapped(line: string) returns (attributes: string, body: string)
    requires IsWrappedSlashCommandLine(line)
    ensures WrappedCommand(Trim(line), attributes, body)
  {
    var t := Trim(line);
    var start, end := Find(t, ">").value, |t| - |CLOSE_TAG|;
    OpenTagHasNoBracket(t, start);
    attributes, body := t[|OPEN_TAG|..start], t[start + 1..end];
    CutIntoParts(t, start, end);
    NoneBefore(t, '>', |OPEN_TAG|, start);
  }

  lemma {:induction false} NoneBefore(t: string, c: char, from: nat, to: nat)
    requires from <= to <= |t| && forall j: nat :: j < to ==> !OccursAt(t, [c], j)
    ensures c !in t[from..to]
  {
    forall k | from <= k < to
      ensures t[k] != c
    {
      assert !OccursAt(t, [c], k) && t[k..k + 1] == [t[k]];
    }
  }

  lemma {:induction false} OpenTagHasNoBracket(t: string, start: nat)
    requires OPEN_TAG <= t && OccursAt(t, ">", start)
    ensures start >= |OPEN_TAG|
  {
    assert t[start..start + 1][0] == t[start] == '>';
    assert '>' !in OPEN_TAG;
  }

  lemma {:induction false} CutIntoParts(t: string, start: nat, end: nat)
    requires OPEN_TAG <= t && |OPEN_TAG| <= start < end <= |t| && t[start..start + 1] == ">"
    requires t[end..] == CLOSE_TAG
    ensures t == OPEN_TAG + t[|OPEN_TAG|..start] + ">" + t[start + 1..end] + CLOSE_TAG
  {
    assert t == t[..start] + t[start..start + 1] + t[start + 1..end] + t[end..];
    assert t[..start] == OPEN_TAG + t[|OPEN_TAG|..start];
  }

  lemma {:induction false} PartsAreWrapped(t: string, attributes: string, body: string)
    requires WrappedCommand(t, attributes, body)
    ensures OPEN_TAG <= t && EndsWith(t, CLOSE_TAG)
    ensures Find(t, ">") == Some(|OPEN_TAG| + |attributes|)
    ensures |OPEN_TAG| + |attributes| + 1 <= |t| - |CLOSE_TAG|
    ensures t[|OPEN_TAG| + |attributes| + 1..|t| - |CLOSE_TAG|] == body
  {
    var prefix := OPEN_TAG + attributes;
    assert '>' !in OPEN_TAG;
    NotInConcat(OPEN_TAG, attributes, '>');
    ConcatAssoc(prefix + ">", body, CLOSE_TAG);
    FindClosing(prefix, body + CLOSE_TAG);
    BetweenTags(prefix, body, CLOSE_TAG);
    PrefixTransitively(OPEN_TAG, prefix, prefix, t);
  }

  function NoCommand(): string -> bool {
    (line: string) => !IsCommandLine(line)
  }

  function AsItIs(): string -> string {
    (line: string) => line
  }

  lemma {:induction false} KeptFrom(lines: seq<string>, i: nat)
    requires i <= |lines|
    ensures KeptLines(lines[i..]) == PickFrom(lines, i, NoCommand(), AsItIs())
    decreases |lines| - i
  {
    if i < |lines| {
      assert lines[i..][1..] == lines[i + 1..];
      KeptFrom(lines, i + 1);
    }
  }

  /** A stripped message: the assistant's and those with blocks as they are, the text of a user without the lines
      that are commands. */
  ghost predicate StrippedTo(m: Message, m': Message) {
    && (m.role != "user" || m.content.Blocks? ==> m' == m)
    && (m.role == "user" && m.content.Plain? ==>
          exists kept :: Picked(Lines(m.content.text), NoCommand(), AsItIs(), kept) && kept != []
                         && m' == Message("user", Plain(Join(kept, "\n"))))
  }

  lemma {:induction false} StrippedMeans(m: Message)
    ensures StripMessage(m).Some? ==> StrippedTo(m, StripMessage(m).value)
    ensures StripMessage(m).None? ==>
              m.role == "user" && m.content.Plain? && forall l :: l in Lines(m.content.text) ==> IsCommandLine(l)
  {
    if m.role == USER && m.content.Plain? {
      var lines := Lines(m.content.text);
      KeptFrom(lines, 0);
      assert lines[0..] == lines;
      PickIsPicked(lines, NoCommand(), AsItIs());
      NothingKept(lines);
      assert Picked(lines, NoCommand(), AsItIs(), KeptLines(lines));
    }
  }

  lemma {:induction false} NothingKept(lines: seq<string>)
    ensures KeptLines(lines) == [] <==> forall l :: l in lines ==> IsCommandLine(l)
  {
    if lines != [] {
      NothingKept(lines[1..]);
      assert lines == [lines[0]] + lines[1..];
    }
  }

  function Remains(): Message -> bool {
    (m: Message) => StripMessage(m).Some?
  }

  function WhatRemains(): Message -> Message {
    (m: Message) => if StripMessage(m).Some? then StripMessage(m).value else m
  }

  lemma {:induction false} StripFrom(ms: seq<Message>, i: nat)
    requires i <= |ms|
    ensures StripAll(ms[i..]) == PickFrom(ms, i, Remains(), WhatRemains())
    decreases |ms| - i
  {
    if i < |ms| {
      assert ms[i..][1..] == ms[i + 1..];
      StripFrom(ms, i + 1);
    }
  }

  /** The stripped transcript has every message that does not vanish, in order, stripped by itself. */
  lemma {:induction false} StripAllMeans(ms: seq<Message>)
    ensures Picked(ms, Remains(), WhatRemains(), StripAll(ms))
    ensures forall m :: m in ms && Remains()(m) ==> StrippedTo(m, WhatRemains()(m))
    ensures forall m :: m in ms && !Remains()(m) ==>
              m.role == "user" && m.content.Plain? && forall l :: l in Lines(m.content.text) ==> IsCommandLine(l)
  {
    StripFrom(ms, 0);
    assert ms[0..] == ms;
    PickIsPicked(ms, Remains(), WhatRemains());
    forall m | m in ms
      ensures Remains()(m) ==> StrippedTo(m, WhatRemains()(m))
      ensures !Remains()(m) ==>
                m.role == "user" && m.content.Plain? && forall l :: l in Lines(m.content.text) ==> IsCommandLine(l)
    {
      StrippedMeans(m);
    }
  }

  // ----- formatted messages can be told apart -----

  /** What an escape stands for, and how long it is. */
  function Unescaped(s: string): (char, nat)
    requires s != ""
  {
    if "&amp;" <= s then ('&', 5)
    else if "&lt;" <= s then ('<', 4)
    else if "&gt;" <= s then ('>', 4)
    else if "&quot;" <= s then ('"', 6)
    else (s[0], 1)
  }

  lemma {:induction false} UnescapedEscape(c: char, rest: string)
    ensures EscapeChar(c) != "" && Unescaped(EscapeChar(c) + rest) == (c, |EscapeChar(c)|)
  {
    var s := EscapeChar(c) + rest;
    assert s[..|EscapeChar(c)|] == EscapeChar(c);
    assert s[0] == EscapeChar(c)[0];
    if c == '&' || c == '<' || c == '>' || c == '"' { assert s[1] == EscapeChar(c)[1]; }
  }

  /** The escaping loses nothing: different texts are escaped differently. */
  lemma {:induction false} SanitizeIsInjective(a: string, b: string)
    requires SanitizeXml(a) == SanitizeXml(b)
    ensures a == b
  {
    if a != "" && b != "" {
      var x, y := SanitizeXml(a[1..]), SanitizeXml(b[1..]);
      UnescapedEscape(a[0], x);
      UnescapedEscape(b[0], y);
      assert (EscapeChar(a[0]) + x)[|EscapeChar(a[0])|..] == x && (EscapeChar(b[0]) + y)[|EscapeChar(b[0])|..] == y;
      SanitizeIsInjective(a[1..], b[1..]);
      assert a == [a[0]] + a[1..] && b == [b[0]] + b[1..];
    } else if a != "" {
      UnescapedEscape(a[0], SanitizeXml(a[1..]));
    } else if b != "" {
      UnescapedEscape(b[0], SanitizeXml(b[1..]));
    }
  }

  /** Sender and content can be read off a formatted message: different messages are formatted differently. */
  lemma {:induction false} FormatIsInjective(sender: string, content: string, sender': string, content': string)
    requires FormatUserMessage(sender, content) == FormatUserMessage(sender', content')
    ensures sender == sender' && content == content'
  {
    var p, p' := OPENING + SanitizeXml(sender) + "\"", OPENING + SanitizeXml(sender') + "\"";
    FormattedShape(sender, content);
    FormattedShape(sender', content');
    OpeningHasNoClosing(sender);
    OpeningHasNoClosing(sender');
    FindClosing(p, SanitizeXml(content) + CLOSE_TAG);
    FindClosing(p', SanitizeXml(content') + CLOSE_TAG);
    assert |p| == |p'|;
    SameMiddle(OPENING, SanitizeXml(sender), SanitizeXml(sender'), "\"", ">" + (SanitizeXml(content) + CLOSE_TAG),
               ">" + (SanitizeXml(content') + CLOSE_TAG));
    SanitizeIsInjective(sender, sender');
    SanitizeIsInjective(content, content');
  }

  lemma {:induction false} SameMiddle(a: string, b: string, b': string, c: string, d: string, d': string)
    requires a + b + c + d == a + b' + c + d' && |b| == |b'|
    ensures b == b'
  {
    assert (a + b + c + d)[|a|..|a| + |b|] == b && (a + b' + c + d')[|a|..|a| + |b|] == b';
  }

  // ----- what stripping does to the roles -----

  lemma {:induction false} StripKeepsRoles(ms: seq<Message>)
    requires UserAndAssistant(ms)
    ensures UserAndAssistant(StripAll(ms))
  {
    if ms != [] {
      assert ms[0] in ms;
      StripKeepsRoles(ms[1..]);
    }
  }

  /** All lines of a user message are slash commands. */
  predicate Vanishes(m: Message) {
    StripMessage(m).None?
  }

  predicate NoneVanishesInside(ms: seq<Message>) {
    forall i :: 0 < i < |ms| - 1 ==> !Vanishes(ms[i])
  }

  lemma AlternatesCons(a: Message, rest: seq<Message>)
    ensures Alternates([a] + rest) <==> Alternates(rest) && (rest != [] ==> rest[0].role != a.role)
  {
    var all := [a] + rest;
    if Alternates(all) {
      forall i | 0 < i < |rest|
        ensures rest[i].role != rest[i - 1].role
      {
        assert all[i + 1].role != all[i].role;
      }
      if rest != [] { assert all[1].role != all[0].role; }
    }
  }

  lemma NoneInsideCons(a: Message, rest: seq<Message>)
    requires rest != []
    ensures NoneVanishesInside([a] + rest) <==> NoneVanishesInside(rest) && (|rest| > 1 ==> !Vanishes(rest[0]))
  {
    var all := [a] + rest;
    if NoneVanishesInside(all) {
      forall i | 0 < i < |rest| - 1
        ensures !Vanishes(rest[i])
      {
        assert !Vanishes(all[i + 1]);
      }
      if |rest| > 1 { assert !Vanishes(all[1]); }
    }
  }

  lemma {:induction false} StripBehindFirst(ms: seq<Message>)
    requires ms != [] && Alternates(ms) && UserAndAssistant(ms) && !Vanishes(ms[0])
    ensures Alternates(StripAll(ms)) <==> NoneVanishesInside(ms)
    decreases |ms|
  {
    var a, rest := ms[0], ms[1..];
    assert ms == [a] + rest;
    AlternatesCons(a, rest);
    AlternatesCons(StripMessage(a).value, StripAll(rest));
    if rest != [] {
      NoneInsideCons(a, rest);
      assert ms[0] in ms && ms[1] in ms;
      if !Vanishes(rest[0]) {
        StripBehindFirst(rest);
      } else if |rest| > 1 {
        assert ms[2] in ms && rest[1] == ms[2] && rest[1].role != rest[0].role;
        assert StripAll(rest) == StripAll(rest[1..]);
        assert StripAll(rest[1..])[0].role == rest[1].role == a.role;
      }
    }
  }

  /** Stripping keeps alternating roles exactly when only the first and the last message may vanish. */
  lemma StripAlternates(ms: seq<Message>)
    requires Alternates(ms) && UserAndAssistant(ms)
    ensures Alternates(StripAll(ms)) <==> NoneVanishesInside(ms)
  {
    if ms != [] {
      if !Vanishes(ms[0]) {
        StripBehindFirst(ms);
      } else if |ms| > 1 {
        var rest := ms[1..];
        assert ms == [ms[0]] + rest && ms[0] in ms && ms[1] in ms;
        AlternatesCons(ms[0], rest);
        NoneInsideCons(ms[0], rest);
        StripBehindFirst(rest);
      }
    }
  }

  // ----- what stripping does to formatted messages -----

  predicate NoLineFeed(s: string) {
    '\n' !in s
  }

  predicate NoLineFeeds(lines: seq<string>) {
    forall l :: l in lines ==> NoLineFeed(l)
  }

  predicate EndsWithCr(s: string) {
    s != "" && s[|s| - 1] == '\r'
  }

  lemma SplitsOffLine(line: string, rest: string)
    requires '\n' !in line
    ensures Find(line + "\n" + rest, "\n") == Some(|line|)
    ensures Find(line, "\n") == None
  {
    var s := line + "\n" + rest;
    assert OccursAt(s, "\n", |line|);
    forall j: nat | j < |line|
      ensures !OccursAt(s, "\n", j)
    {
      assert s[j..j + 1] == [line[j]];
    }
    forall j: nat
      ensures !OccursAt(line, "\n", j)
    {
      if j + 1 <= |line| { assert line[j..j + 1] == [line[j]]; }
    }
  }

  lemma LinesStep(line: string, rest: string)
    requires NoLineFeed(line)
    ensures Lines(line + "\n" + rest) == [StripCr(line)] + Lines(rest)
  {
    var s := line + "\n" + rest;
    SplitsOffLine(line, rest);
    assert s[..|line|] == line && s[|line| + 1..] == rest;
  }

  function StripCrs(lines: seq<string>): (r: seq<string>)
    ensures |r| == |lines|
  {
    if lines == [] then [] else [StripCr(lines[0])] + StripCrs(lines[1..])
  }

  /** A last line that is there and has no carriage return at its end. */
  predicate LastLineStays(lines: seq<string>) {
    lines != [] && lines[|lines| - 1] != "" && !EndsWithCr(lines[|lines| - 1])
  }

  /** Lines put together come apart again, without a carriage return at their end. */
  lemma {:induction false} LinesOfJoin(lines: seq<string>)
    requires NoLineFeeds(lines) && LastLineStays(lines)
    ensures Lines(Join(lines, "\n")) == StripCrs(lines)
  {
    var l, rest := lines[0], lines[1..];
    assert NoLineFeed(l) by { assert l in lines; }
    if rest == [] {
      LastLine(l);
      assert StripCrs(rest) == [];
    } else {
      LinesOfJoin(rest);
      LinesStep(l, Join(rest, "\n"));
    }
  }

  lemma LastLine(l: string)
    requires NoLineFeed(l) && l != "" && !EndsWithCr(l)
    ensures Lines(l) == [l] && StripCr(l) == l
  {
    SplitsOffLine(l, "");
  }

  /** The lines that pieces between line feeds make: all but the last without a carriage return at their end; an empty
      last piece is no line. */
  function LinesOfPieces(pieces: seq<string>): seq<string>
    requires pieces != []
  {
    var n, last := |pieces| - 1, pieces[|pieces| - 1];
    StripCrs(pieces[..n]) + if last == "" then [] else [last]
  }

  lemma {:induction false} LinesOfMorePieces(first: string, later: seq<string>)
    requires later != []
    ensures LinesOfPieces([first] + later) == [StripCr(first)] + LinesOfPieces(later)
  {
    var pieces, most := [first] + later, later[..|later| - 1];
    assert pieces[..|pieces| - 1] == [first] + most;
    assert ([first] + most)[1..] == most;
    ConcatAssoc([StripCr(first)], StripCrs(most), if later[|later| - 1] == "" then [] else [later[|later| - 1]]);
  }

  lemma {:induction false} LinesOfOnePiece(s: string)
    requires Split(s, "\n") == [s]
    ensures Lines(s) == LinesOfPieces([s])
  {
    assert [s][..0] == [];
    var first, rest := SplitCases(s, "\n");
  }

  /** The lines of any text are those of its pieces. */
  lemma {:induction false} LinesMean(s: string)
    ensures Lines(s) == LinesOfPieces(Split(s, "\n"))
    decreases |s|
  {
    var first, rest := SplitCases(s, "\n");
    if rest.Some? {
      LinesMean(rest.value);
      SplitHasNoLineFeed(s);
      assert first in Split(s, "\n");
      LinesStep(first, rest.value);
      LinesOfMorePieces(first, Split(rest.value, "\n"));
    } else {
      LinesOfOnePiece(s);
    }
  }

  // ----- the lines of a formatted message -----

  datatype Entry = Entry(sender: string, content: string)

  function Format(e: Entry): string {
    FormatUserMessage(e.sender, e.content)
  }

  function FormatAll(entries: seq<Entry>): seq<string> {
    if entries == [] then [] else [Format(entries[0])] + FormatAll(entries[1..])
  }

  /** The lines of two texts put together: the last of the one and the first of the other become one. */
  function Glue(a: seq<string>, b: seq<string>): (r: seq<string>)
    requires a != [] && b != []
    ensures |r| == |a| + |b| - 1
  {
    a[..|a| - 1] + [a[|a| - 1] + b[0]] + b[1..]
  }

  lemma {:induction false} JoinGlue(a: seq<string>, b: seq<string>)
    requires a != [] && b != []
    ensures Join(Glue(a, b), "\n") == Join(a, "\n") + Join(b, "\n")
  {
    var all := Glue(a, b);
    if |a| > 1 {
      assert all[1..] == Glue(a[1..], b);
      JoinGlue(a[1..], b);
      ConcatAssoc(a[0] + "\n", Join(a[1..], "\n"), Join(b, "\n"));
    } else if |b| > 1 {
      assert all[1..] == b[1..];
      ConcatAssoc(a[0], b[0], "\n");
      ConcatAssoc(a[0], b[0] + "\n", Join(b[1..], "\n"));
    }
  }

  lemma GlueHasNoLineFeed(a: seq<string>, b: seq<string>)
    requires a != [] && b != [] && NoLineFeeds(a) && NoLineFeeds(b)
    ensures NoLineFeeds(Glue(a, b))
  {
    assert NoLineFeed(a[|a| - 1]) && NoLineFeed(b[0]);
    NotInConcat(a[|a| - 1], b[0], '\n');
  }

  lemma NotInConcat(a: string, b: string, c: char)
    requires c !in a && c !in b
    ensures c !in a + b
  {
  }

  function SanitizeAll(lines: seq<string>): (r: seq<string>)
    ensures |r| == |lines|
    ensures forall i :: 0 <= i < |lines| ==> r[i] == SanitizeXml(lines[i])
  {
    if lines == [] then [] else [SanitizeXml(lines[0])] + SanitizeAll(lines[1..])
  }

  lemma {:induction false} SanitizeConcat(a: string, b: string)
    ensures SanitizeXml(a + b) == SanitizeXml(a) + SanitizeXml(b)
  {
    if a == "" {
      assert a + b == b;
    } else {
      assert (a + b)[1..] == a[1..] + b;
      SanitizeConcat(a[1..], b);
      ConcatAssoc(EscapeChar(a[0]), SanitizeXml(a[1..]), SanitizeXml(b));
    }
  }

  lemma {:induction false} JoinSanitized(lines: seq<string>)
    ensures Join(SanitizeAll(lines), "\n") == SanitizeXml(Join(lines, "\n"))
  {
    if |lines| > 1 {
      JoinSanitized(lines[1..]);
      SanitizeConcat(lines[0] + "\n", Join(lines[1..], "\n"));
      SanitizeConcat(lines[0], "\n");
      assert SanitizeXml("\n") == "\n" by { assert "\n"[1..] == ""; }
    }
  }

  lemma {:induction false} SanitizedHaveNoLineFeed(lines: seq<string>)
    requires NoLineFeeds(lines)
    ensures NoLineFeeds(SanitizeAll(lines))
  {
    if lines != [] {
      assert NoLineFeed(lines[0]);
      SanitizeHasNo(lines[0], '\n');
      SanitizedHaveNoLineFeed(lines[1..]);
    }
  }

  lemma {:induction false} SplitHasNoLineFeed(s: string)
    ensures NoLineFeeds(Split(s, "\n"))
    decreases |s|
  {
    var first, rest := SplitCases(s, "\n");
    if rest.Some? { SplitHasNoLineFeed(rest.value); }
    forall j | 0 <= j < |first|
      ensures first[j] != '\n'
    {
      assert s[j..j + 1] == [first[j]];
      assert !OccursAt(s, "\n", j);
    }
  }

  function SenderLines(e: Entry): (r: seq<string>)
    ensures r != []
  {
    Split(e.sender, "\n")
  }

  function ContentLines(e: Entry): (r: seq<string>)
    ensures r != []
  {
    Split(e.content, "\n")
  }

  /** The lines up to the end of the opening tag. */
  function TagLines(e: Entry): (r: seq<string>)
    ensures |r| == |SenderLines(e)|
  {
    Glue(Glue([OPENING], SanitizeAll(SenderLines(e))), ["\">"])
  }

  function BodyLines(e: Entry): (r: seq<string>)
    ensures |r| == |ContentLines(e)|
  {
    Glue(SanitizeAll(ContentLines(e)), [CLOSE_TAG])
  }

  /** The lines of a formatted message. */
  function EntryLines(e: Entry): (r: seq<string>)
    ensures |r| == |SenderLines(e)| + |ContentLines(e)| - 1
  {
    Glue(TagLines(e), BodyLines(e))
  }

  lemma JoinEntryLines(e: Entry)
    ensures Join(EntryLines(e), "\n") == Format(e)
  {
    var s, c := SanitizeAll(SenderLines(e)), SanitizeAll(ContentLines(e));
    JoinSplit(e.sender, "\n");
    JoinSplit(e.content, "\n");
    JoinSanitized(SenderLines(e));
    JoinSanitized(ContentLines(e));
    JoinGlue([OPENING], s);
    JoinGlue(Glue([OPENING], s), ["\">"]);
    JoinGlue(c, [CLOSE_TAG]);
    JoinGlue(TagLines(e), BodyLines(e));
    ConcatAssoc(Opening(e.sender), SanitizeXml(e.content), CLOSE_TAG);
  }

  lemma {:induction false} FixedLinesHaveNoLineFeed()
    ensures NoLineFeeds([OPENING]) && NoLineFeeds(["\">"]) && NoLineFeeds([CLOSE_TAG])
  {
    assert NoLineFeed(OPENING) && NoLineFeed("\">") && NoLineFeed(CLOSE_TAG);
  }

  lemma {:induction false} TagLinesHaveNoLineFeed(e: Entry)
    ensures NoLineFeeds(TagLines(e))
  {
    var s := SanitizeAll(SenderLines(e));
    SplitHasNoLineFeed(e.sender);
    SanitizedHaveNoLineFeed(SenderLines(e));
    FixedLinesHaveNoLineFeed();
    GlueHasNoLineFeed([OPENING], s);
    GlueHasNoLineFeed(Glue([OPENING], s), ["\">"]);
  }

  lemma {:induction false} BodyLinesHaveNoLineFeed(e: Entry)
    ensures NoLineFeeds(BodyLines(e))
  {
    SplitHasNoLineFeed(e.content);
    SanitizedHaveNoLineFeed(ContentLines(e));
    FixedLinesHaveNoLineFeed();
    GlueHasNoLineFeed(SanitizeAll(ContentLines(e)), [CLOSE_TAG]);
  }

  lemma EntryLinesAreLines(e: Entry)
    ensures NoLineFeeds(EntryLines(e)) && LastLineStays(EntryLines(e))
  {
    TagLinesHaveNoLineFeed(e);
    BodyLinesHaveNoLineFeed(e);
    GlueHasNoLineFeed(TagLines(e), BodyLines(e));
    LastOfBody(e);
  }

  lemma LastOfBody(e: Entry)
    ensures var l := EntryLines(e)[|EntryLines(e)| - 1]; l != "" && l[|l| - 1] == '>'
  {
    var b := BodyLines(e);
    var l := b[|b| - 1];
    assert l[|l| - 1] == CLOSE_TAG[|CLOSE_TAG| - 1];
    assert EntryLines(e)[|EntryLines(e)| - 1] == if |b| == 1 then TagLines(e)[|TagLines(e)| - 1] + l else l;
  }

  // ----- which of them are commands -----

  /** Line `i` of a formatted message is taken out: the message is one line and a command, or a later line
      of its sender or content is one by itself. */
  predicate Dropped(e: Entry, i: nat)
    requires i < |EntryLines(e)|
  {
    if |EntryLines(e)| == 1 then IsSlashCommandText(e.content)
    else i > 0 && IsSlashCommandText(LaterLine(e, i))
  }

  /** The line of sender or content that line `i` starts with. */
  function LaterLine(e: Entry, i: nat): string
    requires i < |EntryLines(e)|
  {
    if i < |SenderLines(e)| then SenderLines(e)[i] else ContentLines(e)[i + 1 - |SenderLines(e)|]
  }

  lemma {:induction false} TrimStartBeforeCr(s: string)
    ensures TrimStart(s + "\r") == if TrimStart(s) == "" then "" else TrimStart(s) + "\r"
  {
    if s == "" {
      assert s + "\r" == "\r" && "\r"[1..] == "";
    } else if IsWhitespace(s[0]) {
      assert (s + "\r")[1..] == s[1..] + "\r";
      TrimStartBeforeCr(s[1..]);
    }
  }

  lemma CrMakesNoCommand(line: string)
    ensures IsCommandLine(StripCr(line)) <==> IsCommandLine(line)
  {
    if EndsWithCr(line) {
      var s := StripCr(line);
      TrimStartBeforeCr(s);
      assert line == s + "\r";
      var t := TrimStart(s);
      if t != "" { assert (t + "\r")[..|t|] == t; }
    }
  }

  /** The text starts with `<` after its white space only where it is closing tag and white space. */
  lemma {:induction false} FirstOfBody(s: string, rest: string)
    requires '<' !in s
    ensures var t := TrimStart(s + rest); t != "" && t[0] == '<' ==> t == TrimStart(rest)
  {
    if s == "" {
      assert s + rest == rest;
    } else if IsWhitespace(s[0]) {
      assert (s + rest)[1..] == s[1..] + rest;
      FirstOfBody(s[1..], rest);
    } else {
      assert TrimStart(s + rest) == s + rest && (s + rest)[0] == s[0];
    }
  }

  lemma {:induction false} TrimEndKeepsFirst(s: string)
    requires s != "" && !IsWhitespace(s[0])
    ensures TrimEnd(s) != "" && TrimEnd(s)[0] == s[0]
  {
    if IsWhitespace(s[|s| - 1]) { TrimEndKeepsFirst(s[..|s| - 1]); }
  }

  lemma TrimFirst(s: string)
    ensures TrimStart(s) == "" <==> Trim(s) == ""
    ensures TrimStart(s) != "" ==> Trim(s)[0] == TrimStart(s)[0]
    ensures IsSlashCommandText(Trim(s)) <==> IsSlashCommandText(s)
  {
    if TrimStart(s) != "" { TrimEndKeepsFirst(TrimStart(s)); }
  }

  lemma NotPrefix(p: string, t: string, i: nat)
    requires i < |p| && (i < |t| ==> t[i] != p[i])
    ensures !(p <= t)
  {
  }

  lemma NotSuffix(t: string, suffix: string, i: nat)
    requires i < |suffix| <= |t| && t[|t| - |suffix| + i] != suffix[i]
    ensures !EndsWith(t, suffix)
  {
    assert t[|t| - |suffix|..][i] == t[|t| - |suffix| + i];
  }

  lemma StartsNoMessage(t: string, trimmed: string)
    requires trimmed <= t && (t != "" && t[0] == '<' ==> t == CLOSE_TAG)
    ensures !(OPEN_TAG <= trimmed)
  {
    if t == CLOSE_TAG { NotPrefix(OPEN_TAG, trimmed, 1); } else { NotPrefix(OPEN_TAG, trimmed, 0); }
  }

  /** A line without an opening bracket before its closing tag is a command line exactly when it is a slash command. */
  lemma LaterLineIsCommand(s: string, rest: string)
    requires '<' !in s && (rest == "" || rest == CLOSE_TAG)
    ensures IsCommandLine(s + rest) <==> IsSlashCommandText(s + rest)
  {
    var line := s + rest;
    TrimFirst(line);
    FirstOfBody(s, rest);
    StartsNoMessage(TrimStart(line), Trim(line));
  }

  predicate OneBracket(s: string) {
    |s| > 1 && s[0] == '<' && s[1] == 'u' && forall k :: 0 < k < |s| ==> s[k] != '<'
  }

  lemma StillOneBracket(a: string, b: string)
    requires OneBracket(a) && '<' !in b
    ensures OneBracket(a + b)
  {
  }

  lemma NoClosingTag(line: string)
    requires OneBracket(line) || '<' !in line
    ensures !EndsWith(line, CLOSE_TAG)
  {
    if |CLOSE_TAG| == |line| && OneBracket(line) {
      NotSuffix(line, CLOSE_TAG, 1);
    } else if |CLOSE_TAG| <= |line| {
      NotSuffix(line, CLOSE_TAG, 0);
    }
  }

  lemma PrefixOfOneBracket(line: string, t: string)
    requires OneBracket(line) && t <= line
    ensures !EndsWith(t, CLOSE_TAG)
  {
    if |t| > 1 { NoClosingTag(t); }
  }

  lemma OpeningLineIsNoCommand(line: string)
    requires OneBracket(line)
    ensures !IsCommandLine(line)
  {
    TrimFirst(line);
    PrefixOfOneBracket(line, Trim(line));
  }

  /** What follows the line of sender or content on its line: the end of the opening tag with the first line
      of the content, and the closing tag. */
  function Ending(e: Entry, i: nat): string
    requires i < |EntryLines(e)|
  {
    if i + 1 == |SenderLines(e)| then "\">" + SanitizeXml(ContentLines(e)[0]) else ""
  }

  function Closing(e: Entry, i: nat): string
    requires i < |EntryLines(e)|
  {
    if i + 1 == |EntryLines(e)| then CLOSE_TAG else ""
  }

  lemma GlueAt(a: seq<string>, b: seq<string>, i: nat)
    requires a != [] && b != [] && i < |Glue(a, b)|
    ensures Glue(a, b)[i] == if i + 1 < |a| then a[i] else if i + 1 == |a| then a[i] + b[0] else b[i + 1 - |a|]
  {
  }

  lemma NothingAdded(s: string)
    ensures s + "" == s && "" + s == s
  {
  }

  lemma FrontLineAt(front: string, s: seq<string>, i: nat)
    requires i < |s|
    ensures Glue([front], s)[i] == (if i == 0 then front else "") + s[i]
  {
    GlueAt([front], s, i);
    NothingAdded(s[i]);
  }

  lemma BackLineAt(s: seq<string>, back: string, i: nat)
    requires i < |s|
    ensures Glue(s, [back])[i] == s[i] + (if i + 1 == |s| then back else "")
  {
    GlueAt(s, [back], i);
    NothingAdded(s[i]);
  }

  lemma TagLineAt(e: Entry, i: nat)
    requires i < |SenderLines(e)|
    ensures var open := if i == 0 then OPENING else "";
            TagLines(e)[i] == open + SanitizeXml(SenderLines(e)[i]) + (if i + 1 == |SenderLines(e)| then "\">" else "")
  {
    var s := SanitizeAll(SenderLines(e));
    FrontLineAt(OPENING, s, i);
    BackLineAt(Glue([OPENING], s), "\">", i);
  }

  lemma BodyLineAt(e: Entry, j: nat)
    requires j < |ContentLines(e)|
    ensures BodyLines(e)[j] == SanitizeXml(ContentLines(e)[j]) + (if j + 1 == |ContentLines(e)| then CLOSE_TAG else "")
  {
    BackLineAt(SanitizeAll(ContentLines(e)), CLOSE_TAG, j);
  }

  lemma FiveParts(a: string, b: string, c: string, d: string, e: string)
    ensures (a + b + c) + (d + e) == a + b + (c + d) + e
  {
    ConcatAssoc(a + b + c, d, e);
    ConcatAssoc(a + b, c, d);
  }

  /** A line of the opening tag before its last. */
  lemma SenderLineAt(e: Entry, i: nat)
    requires i + 1 < |SenderLines(e)|
    ensures EntryLines(e)[i] == (if i == 0 then OPENING else "") + SanitizeXml(SenderLines(e)[i])
  {
    GlueAt(TagLines(e), BodyLines(e), i);
    TagLineAt(e, i);
    NothingAdded((if i == 0 then OPENING else "") + SanitizeXml(SenderLines(e)[i]));
  }

  /** The line on which the content starts. */
  lemma SeamLineAt(e: Entry, i: nat)
    requires i + 1 == |SenderLines(e)|
    ensures EntryLines(e)[i] ==
            (if i == 0 then OPENING else "") + SanitizeXml(SenderLines(e)[i]) + Ending(e, i) + Closing(e, i)
  {
    GlueAt(TagLines(e), BodyLines(e), i);
    TagLineAt(e, i);
    BodyLineAt(e, 0);
    FiveParts(if i == 0 then OPENING else "", SanitizeXml(SenderLines(e)[i]),
              "\">", SanitizeXml(ContentLines(e)[0]), Closing(e, i));
  }

  lemma ContentLineAt(e: Entry, i: nat)
    requires |SenderLines(e)| <= i < |EntryLines(e)|
    ensures EntryLines(e)[i] == SanitizeXml(LaterLine(e, i)) + Closing(e, i)
  {
    GlueAt(TagLines(e), BodyLines(e), i);
    BodyLineAt(e, i + 1 - |SenderLines(e)|);
  }

  lemma EntryLineAt(e: Entry, i: nat)
    requires i < |EntryLines(e)|
    ensures EntryLines(e)[i] ==
            (if i == 0 then OPENING else "") + SanitizeXml(LaterLine(e, i)) + Ending(e, i) + Closing(e, i)
  {
    if i + 1 < |SenderLines(e)| {
      SenderLineAt(e, i);
      NothingAdded(EntryLines(e)[i]);
    } else if i + 1 == |SenderLines(e)| {
      SeamLineAt(e, i);
    } else {
      ContentLineAt(e, i);
      NothingAdded(SanitizeXml(LaterLine(e, i)));
    }
  }

  lemma EndingHasNoBracket(e: Entry, i: nat)
    requires i < |EntryLines(e)|
    ensures '<' !in SanitizeXml(LaterLine(e, i)) + Ending(e, i)
  {
    SanitizeHasNo(LaterLine(e, i), '<');
    SanitizeHasNo(ContentLines(e)[0], '<');
    NotInConcat("\">", SanitizeXml(ContentLines(e)[0]), '<');
    NotInConcat(SanitizeXml(LaterLine(e, i)), Ending(e, i), '<');
  }

  lemma LaterLineDropped(e: Entry, i: nat)
    requires 0 < i < |EntryLines(e)|
    ensures IsCommandLine(EntryLines(e)[i]) <==> IsSlashCommandText(LaterLine(e, i))
  {
    var s := SanitizeXml(LaterLine(e, i));
    EntryLineAt(e, i);
    assert "" + s == s;
    EndingHasNoBracket(e, i);
    LaterLineIsCommand(s + Ending(e, i), Closing(e, i));
    ConcatAssoc(s, Ending(e, i), Closing(e, i));
    SanitizeKeepsSlash(LaterLine(e, i), Ending(e, i) + Closing(e, i));
  }

  lemma OpeningHasOneBracket()
    ensures OneBracket(OPENING)
  {
  }

  lemma OpeningLine(e: Entry)
    requires |EntryLines(e)| > 1
    ensures OneBracket(EntryLines(e)[0])
  {
    var s, ending := SanitizeXml(LaterLine(e, 0)), Ending(e, 0);
    EntryLineAt(e, 0);
    EndingHasNoBracket(e, 0);
    OpeningHasOneBracket();
    StillOneBracket(OPENING, s + ending);
    ConcatAssoc(OPENING, s, ending);
    NothingAdded(OPENING + s + ending);
  }

  lemma FormattedCommandLine(sender: string, content: string)
    ensures IsCommandLine(FormatUserMessage(sender, content)) <==> IsSlashCommandText(content)
  {
    FormattedIsTight(sender, content);
    RecogniserAgreesWithPrinter(sender, content);
  }

  lemma EntryLineIsCommand(e: Entry, i: nat)
    requires i < |EntryLines(e)|
    ensures IsCommandLine(StripCr(EntryLines(e)[i])) <==> Dropped(e, i)
  {
    CrMakesNoCommand(EntryLines(e)[i]);
    if |EntryLines(e)| == 1 {
      JoinEntryLines(e);
      FormattedCommandLine(e.sender, e.content);
    } else if i > 0 {
      LaterLineDropped(e, i);
    } else {
      OpeningLine(e);
      OpeningLineIsNoCommand(EntryLines(e)[0]);
    }
  }

  // ----- what is left of formatted messages -----

  /** The lines that are not dropped, without carriage returns at their end. */
  function Remaining(lines: seq<string>, drops: seq<bool>): seq<string>
    requires |lines| == |drops|
  {
    if lines == [] then []
    else (if drops[0] then [] else [StripCr(lines[0])]) + Remaining(lines[1..], drops[1..])
  }

  function Drops(e: Entry): (r: seq<bool>)
    ensures |r| == |EntryLines(e)|
    ensures forall i :: 0 <= i < |r| ==> (r[i] <==> Dropped(e, i))
  {
    seq(|EntryLines(e)|, i requires 0 <= i < |EntryLines(e)| => Dropped(e, i))
  }

  /** What the strip leaves of one formatted message. */
  function Survivors(e: Entry): seq<string> {
    Remaining(EntryLines(e), Drops(e))
  }

  function AllSurvivors(entries: seq<Entry>): seq<string> {
    if entries == [] then [] else Survivors(entries[0]) + AllSurvivors(entries[1..])
  }

  function AllLines(entries: seq<Entry>): seq<string> {
    if entries == [] then [] else EntryLines(entries[0]) + AllLines(entries[1..])
  }

  lemma {:induction false} RemainingIsKept(lines: seq<string>, drops: seq<bool>)
    requires |lines| == |drops|
    requires forall i :: 0 <= i < |lines| ==> (drops[i] <==> IsCommandLine(StripCr(lines[i])))
    ensures KeptLines(StripCrs(lines)) == Remaining(lines, drops)
  {
    if lines != [] {
      RemainingIsKept(lines[1..], drops[1..]);
      KeptCons(lines[0], lines[1..]);
      assert lines == [lines[0]] + lines[1..];
    }
  }

  lemma {:induction false} RemainingCount(lines: seq<string>, drops: seq<bool>)
    requires |lines| == |drops|
    ensures |Remaining(lines, drops)| <= |lines|
    ensures |Remaining(lines, drops)| == |lines| <==> forall i :: 0 <= i < |drops| ==> !drops[i]
  {
    if lines != [] {
      RemainingCount(lines[1..], drops[1..]);
      assert drops == [drops[0]] + drops[1..];
    }
  }

  lemma {:induction false} RemainingMember(lines: seq<string>, drops: seq<bool>, l: string) returns (i: nat)
    requires |lines| == |drops| && l in Remaining(lines, drops)
    ensures i < |lines| && !drops[i] && l == StripCr(lines[i])
  {
    if !drops[0] && l == StripCr(lines[0]) { return 0; }
    var j := RemainingMember(lines[1..], drops[1..], l);
    return j + 1;
  }

  lemma SurvivorsAreKept(e: Entry)
    ensures KeptLines(StripCrs(EntryLines(e))) == Survivors(e)
  {
    forall i | 0 <= i < |EntryLines(e)|
      ensures Drops(e)[i] <==> IsCommandLine(StripCr(EntryLines(e)[i]))
    {
      EntryLineIsCommand(e, i);
    }
    RemainingIsKept(EntryLines(e), Drops(e));
  }

  lemma KeptCons(first: string, rest: seq<string>)
    ensures KeptLines(StripCrs([first] + rest)) ==
            (if IsCommandLine(StripCr(first)) then [] else [StripCr(first)]) + KeptLines(StripCrs(rest))
  {
    assert ([first] + rest)[1..] == rest;
    assert ([StripCr(first)] + StripCrs(rest))[1..] == StripCrs(rest);
    assert [] + KeptLines(StripCrs(rest)) == KeptLines(StripCrs(rest));
  }

  lemma {:induction false} KeptConcat(a: seq<string>, b: seq<string>)
    ensures KeptLines(StripCrs(a + b)) == KeptLines(StripCrs(a)) + KeptLines(StripCrs(b))
  {
    if a == [] {
      assert a + b == b;
    } else {
      var first, rest := a[0], a[1..];
      var kept := if IsCommandLine(StripCr(first)) then [] else [StripCr(first)];
      KeptConcat(rest, b);
      assert a == [first] + rest;
      ConcatAssoc([first], rest, b);
      KeptCons(first, rest + b);
      KeptCons(first, rest);
      ConcatAssoc(kept, KeptLines(StripCrs(rest)), KeptLines(StripCrs(b)));
    }
  }

  lemma {:induction false} AllSurvivorsAreKept(entries: seq<Entry>)
    ensures KeptLines(StripCrs(AllLines(entries))) == AllSurvivors(entries)
  {
    if entries != [] {
      var lines := EntryLines(entries[0]);
      AllSurvivorsAreKept(entries[1..]);
      KeptConcat(lines, AllLines(entries[1..]));
      SurvivorsAreKept(entries[0]);
    }
  }

  lemma LinesConcat(a: seq<string>, b: seq<string>)
    requires NoLineFeeds(a) && NoLineFeeds(b) && LastLineStays(b)
    ensures NoLineFeeds(a + b) && LastLineStays(a + b)
  {
    assert (a + b)[|a + b| - 1] == b[|b| - 1];
  }

  lemma {:induction false} AllLinesAreLines(entries: seq<Entry>)
    requires entries != []
    ensures NoLineFeeds(AllLines(entries)) && LastLineStays(AllLines(entries))
  {
    EntryLinesAreLines(entries[0]);
    if |entries| == 1 {
      assert AllLines(entries) == EntryLines(entries[0]) + [];
      assert EntryLines(entries[0]) + [] == EntryLines(entries[0]);
    } else {
      AllLinesAreLines(entries[1..]);
      LinesConcat(EntryLines(entries[0]), AllLines(entries[1..]));
    }
  }

  lemma {:induction false} JoinAllLines(entries: seq<Entry>)
    ensures Join(AllLines(entries), "\n") == Join(FormatAll(entries), "\n")
  {
    if entries != [] {
      var lines, more := EntryLines(entries[0]), AllLines(entries[1..]);
      JoinEntryLines(entries[0]);
      JoinAllLines(entries[1..]);
      if |entries| == 1 {
        assert entries[1..] == [] && lines + more == lines;
      } else {
        AllLinesAreLines(entries[1..]);
        JoinConcat(lines, more, "\n");
        assert FormatAll(entries)[1..] == FormatAll(entries[1..]);
      }
    }
  }

  /** Exactly what the strip leaves of a user message made of any formatted messages: every line but the
      commands, without carriage returns at the end of lines; nothing when no line is left. */
  lemma StripLeaves(entries: seq<Entry>)
    requires entries != []
    ensures var kept := AllSurvivors(entries);
            StripMessage(UserText(Join(FormatAll(entries), "\n"))) ==
            if kept == [] then None else Some(UserText(Join(kept, "\n")))
  {
    AllLinesAreLines(entries);
    JoinAllLines(entries);
    LinesOfJoin(AllLines(entries));
    AllSurvivorsAreKept(entries);
  }

  /** A last line that is a command takes the closing tag along: no line that is left closes the message. */
  lemma ClosingTagIsLost(e: Entry)
    requires |EntryLines(e)| > 1 && Dropped(e, |EntryLines(e)| - 1)
    ensures forall l :: l in Survivors(e) ==> !EndsWith(l, CLOSE_TAG)
  {
    forall l | l in Survivors(e)
      ensures !EndsWith(l, CLOSE_TAG)
    {
      SurvivorDoesNotClose(e, l);
    }
  }

  lemma SurvivorDoesNotClose(e: Entry, l: string)
    requires |EntryLines(e)| > 1 && Dropped(e, |EntryLines(e)| - 1) && l in Survivors(e)
    ensures !EndsWith(l, CLOSE_TAG)
  {
    var i := RemainingMember(EntryLines(e), Drops(e), l);
    assert i != |EntryLines(e)| - 1;
    EarlierLineDoesNotClose(e, i);
  }

  lemma EarlierLineDoesNotClose(e: Entry, i: nat)
    requires i + 1 < |EntryLines(e)|
    ensures !EndsWith(StripCr(EntryLines(e)[i]), CLOSE_TAG)
  {
    var line := EntryLines(e)[i];
    if i == 0 {
      OpeningLine(e);
      PrefixOfOneBracket(line, StripCr(line));
    } else {
      EntryLineAt(e, i);
      EndingHasNoBracket(e, i);
      var s := SanitizeXml(LaterLine(e, i));
      assert "" + s == s && s + Ending(e, i) + "" == s + Ending(e, i);
      NoClosingTag(StripCr(line));
    }
  }

  function WithoutCommands(entries: seq<Entry>): seq<Entry> {
    if entries == [] then []
    else if IsSlashCommandText(entries[0].content) then WithoutCommands(entries[1..])
    else [entries[0]] + WithoutCommands(entries[1..])
  }

  predicate OneLine(e: Entry) {
    '\n' !in e.sender && '\n' !in e.content
  }

  lemma OneLineSurvives(e: Entry)
    requires OneLine(e)
    ensures Survivors(e) == if IsSlashCommandText(e.content) then [] else [Format(e)]
  {
    SplitsOffLine(e.sender, "");
    SplitsOffLine(e.content, "");
    JoinEntryLines(e);
    LastOfBody(e);
    var lines, drops := EntryLines(e), Drops(e);
    assert |lines| == 1 && lines[1..] == [] && drops[1..] == [];
    assert Remaining(lines[1..], drops[1..]) == [];
  }

  lemma {:induction false} OneLinersSurvive(entries: seq<Entry>)
    requires forall e :: e in entries ==> OneLine(e)
    ensures AllSurvivors(entries) == FormatAll(WithoutCommands(entries))
  {
    if entries != [] {
      OneLineSurvives(entries[0]);
      OneLinersSurvive(entries[1..]);
      FormatCons(entries[0], WithoutCommands(entries[1..]));
    }
  }

  lemma FormatCons(e: Entry, rest: seq<Entry>)
    ensures FormatAll([e] + rest) == [Format(e)] + FormatAll(rest)
  {
    assert ([e] + rest)[1..] == rest;
  }

  /** A user message made of single-line entries keeps exactly the entries that are no slash commands, in
      order; it disappears when all are. */
  lemma StripKeepsOtherEntries(entries: seq<Entry>)
    requires entries != [] && forall e :: e in entries ==> OneLine(e)
    ensures var kept := WithoutCommands(entries);
            StripMessage(UserText(Join(FormatAll(entries), "\n"))) ==
            if kept == [] then None else Some(UserText(Join(FormatAll(kept), "\n")))
  {
    StripLeaves(entries);
    OneLinersSurvive(entries);
    assert FormatAll(WithoutCommands(entries)) == [] <==> WithoutCommands(entries) == [];
  }

  // ----- when nothing changes -----

  /** A carriage return stands before a line feed. */
  predicate HasCrLf(s: string) {
    |s| > 1 && ((s[0] == '\r' && s[1] == '\n') || HasCrLf(s[1..]))
  }

  lemma {:induction false} CrLfOfConcat(a: string, b: string)
    ensures HasCrLf(a + b) <==> HasCrLf(a) || HasCrLf(b) || (EndsWithCr(a) && b != "" && b[0] == '\n')
  {
    if a == "" {
      assert a + b == b;
    } else {
      CrLfOfConcat(a[1..], b);
      assert (a + b)[1..] == a[1..] + b;
      if |a| == 1 { assert a[1..] == ""; }
    }
  }

  lemma {:induction false} NoCrLfInLine(s: string)
    requires NoLineFeed(s)
    ensures !HasCrLf(s)
  {
    if |s| > 1 { NoCrLfInLine(s[1..]); }
  }

  lemma EscapedCrLf(c: char)
    ensures !HasCrLf(EscapeChar(c)) && EscapeChar(c) != ""
    ensures EndsWithCr(EscapeChar(c)) <==> c == '\r'
    ensures EscapeChar(c)[0] == '\n' <==> c == '\n'
  {
    if c != '\n' { NoCrLfInLine(EscapeChar(c)); }
  }

  lemma {:induction false} SanitizedCrLf(s: string)
    ensures HasCrLf(SanitizeXml(s)) <==> HasCrLf(s)
    ensures EndsWithCr(SanitizeXml(s)) <==> EndsWithCr(s)
    ensures SanitizeXml(s) != "" && SanitizeXml(s)[0] == '\n' <==> s != "" && s[0] == '\n'
  {
    if s != "" {
      var e, rest := EscapeChar(s[0]), SanitizeXml(s[1..]);
      SanitizedCrLf(s[1..]);
      EscapedCrLf(s[0]);
      CrLfOfConcat(e, rest);
      assert (e + rest)[0] == e[0];
      assert EndsWithCr(e + rest) <==> if rest == "" then EndsWithCr(e) else EndsWithCr(rest);
      if |s| == 1 { assert s[1..] == ""; }
    }
  }

  /** Text that neither starts nor ends a line break and has none inside. */
  predicate Firm(s: string) {
    s != "" && NoLineFeed(s) && s[|s| - 1] != '\r'
  }

  lemma CrLfBetween(a: string, s: string, b: string)
    requires !EndsWithCr(a) && Firm(b)
    ensures HasCrLf(a + s + b) <==> HasCrLf(a) || HasCrLf(s)
    ensures !EndsWithCr(a + s + b)
  {
    NoCrLfInLine(b);
    CrLfOfConcat(a, s);
    CrLfOfConcat(a + s, b);
    assert (a + s + b)[|a + s + b| - 1] == b[|b| - 1];
  }

  lemma CrLfInFrame(a: string, s: string, b: string, c: string, d: string)
    requires Firm(a) && Firm(b) && Firm(d)
    ensures HasCrLf(a + s + b + c + d) <==> HasCrLf(s) || HasCrLf(c)
  {
    NoCrLfInLine(a);
    CrLfBetween(a, s, b);
    CrLfBetween(a + s + b, c, d);
  }

  lemma TagsAreFirm()
    ensures Firm(OPENING) && Firm("\">") && Firm(CLOSE_TAG)
  {
  }

  lemma FormattedCrLf(e: Entry)
    ensures HasCrLf(Format(e)) <==> HasCrLf(e.sender) || HasCrLf(e.content)
  {
    TagsAreFirm();
    SanitizedCrLf(e.sender);
    SanitizedCrLf(e.content);
    CrLfInFrame(OPENING, SanitizeXml(e.sender), "\">", SanitizeXml(e.content), CLOSE_TAG);
  }

  predicate NoCrAtEnd(lines: seq<string>) {
    forall l :: l in lines ==> !EndsWithCr(l)
  }

  lemma {:induction false} CrLfOfJoin(lines: seq<string>)
    requires NoLineFeeds(lines) && LastLineStays(lines)
    ensures HasCrLf(Join(lines, "\n")) <==> !NoCrAtEnd(lines)
  {
    assert lines[0] in lines;
    NoCrLfInLine(lines[0]);
    if |lines| > 1 {
      var rest := Join(lines[1..], "\n");
      CrLfOfJoin(lines[1..]);
      CrLfOfConcat(lines[0], "\n");
      CrLfOfConcat(lines[0] + "\n", rest);
      assert !EndsWithCr(lines[0] + "\n");
      assert forall l :: l in lines <==> l == lines[0] || l in lines[1..];
    }
  }

  lemma {:induction false} StripCrsUnchanged(lines: seq<string>)
    ensures StripCrs(lines) == lines <==> NoCrAtEnd(lines)
  {
    if lines != [] {
      StripCrsUnchanged(lines[1..]);
      assert lines == [lines[0]] + lines[1..];
      assert StripCrs(lines)[0] == StripCr(lines[0]) && StripCrs(lines)[1..] == StripCrs(lines[1..]);
      assert EndsWithCr(lines[0]) <==> StripCr(lines[0]) != lines[0];
      assert lines[0] in lines;
    }
  }

  lemma {:induction false} KeptIsNoLonger(lines: seq<string>)
    ensures |KeptLines(lines)| <= |lines| && (|KeptLines(lines)| == |lines| ==> KeptLines(lines) == lines)
  {
    if lines != [] { KeptIsNoLonger(lines[1..]); }
  }

  /** Text is only ever lost: what is kept is shorter, or nothing was changed. */
  predicate Shorter(kept: seq<string>, lines: seq<string>) {
    kept != [] ==>
        |Join(kept, "\n")| <= |Join(lines, "\n")| && (|Join(kept, "\n")| == |Join(lines, "\n")| ==> kept == lines)
  }

  lemma DroppingShortens(first: string, rest: seq<string>, kept: seq<string>)
    requires Shorter(kept, rest) && (kept != [] ==> rest != [])
    ensures Shorter(kept, [first] + rest)
  {
    JoinCons(first, rest, "\n");
  }

  lemma KeepingShortens(first: string, rest: seq<string>, kept: seq<string>)
    requires Shorter(kept, rest) && (kept != [] ==> rest != [])
    ensures Shorter([StripCr(first)] + kept, [first] + rest)
  {
    JoinCons(first, rest, "\n");
    JoinCons(StripCr(first), kept, "\n");
  }

  lemma {:induction false} KeptIsShorter(lines: seq<string>)
    ensures Shorter(KeptLines(StripCrs(lines)), lines)
  {
    if lines != [] {
      var first, rest := lines[0], lines[1..];
      var kept := KeptLines(StripCrs(rest));
      KeptIsShorter(rest);
      assert lines == [first] + rest;
      KeptCons(first, rest);
      assert [] + kept == kept;
      KeptIsNoLonger(StripCrs(rest));
      DroppingShortens(first, rest, kept);
      KeepingShortens(first, rest, kept);
    }
  }

  /** Nothing in a formatted message is lost: no line is a command, no line ends with a carriage return. */
  predicate Untouched(e: Entry) {
    && !HasCrLf(e.sender) && !HasCrLf(e.content)
    && forall i :: 0 <= i < |EntryLines(e)| ==> !Dropped(e, i)
  }

  lemma EntrySurvives(e: Entry)
    ensures |Survivors(e)| <= |EntryLines(e)|
    ensures Survivors(e) == EntryLines(e) <==> Untouched(e)
  {
    var lines := EntryLines(e);
    RemainingCount(lines, Drops(e));
    SurvivorsAreKept(e);
    KeptIsNoLonger(StripCrs(lines));
    EntryLinesAreLines(e);
    JoinEntryLines(e);
    FormattedCrLf(e);
    CrLfOfJoin(lines);
    StripCrsUnchanged(lines);
  }

  lemma {:induction false} EntriesSurvive(entries: seq<Entry>)
    ensures |AllSurvivors(entries)| <= |AllLines(entries)|
    ensures AllSurvivors(entries) == AllLines(entries) <==> forall e :: e in entries ==> Untouched(e)
  {
    if entries != [] {
      EntrySurvives(entries[0]);
      EntriesSurvive(entries[1..]);
      SameParts(Survivors(entries[0]), EntryLines(entries[0]), AllSurvivors(entries[1..]), AllLines(entries[1..]));
      assert forall e :: e in entries <==> e == entries[0] || e in entries[1..];
    }
  }

  lemma SameParts(a: seq<string>, a': seq<string>, b: seq<string>, b': seq<string>)
    requires |a| <= |a'| && |b| <= |b'|
    ensures a + b == a' + b' <==> a == a' && b == b'
  {
    if a + b == a' + b' {
      assert |a| == |a'|;
      assert a == (a + b)[..|a|] && a' == (a' + b')[..|a|];
      assert b == (a + b)[|a|..] && b' == (a' + b')[|a|..];
    }
  }

  /** A user message made of any formatted messages comes through the strip unchanged exactly when none of
      them has a command line or a carriage return before a line feed. */
  lemma StripKeepsMultiLine(entries: seq<Entry>)
    requires entries != []
    ensures var m := UserText(Join(FormatAll(entries), "\n"));
            StripMessage(m) == Some(m) <==> forall e :: e in entries ==> Untouched(e)
  {
    StripLeaves(entries);
    AllLinesAreLines(entries);
    JoinAllLines(entries);
    AllSurvivorsAreKept(entries);
    KeptIsShorter(AllLines(entries));
    EntriesSurvive(entries);
  }

  lemma OneLineSplit(s: string)
    ensures '\n' !in s <==> |Split(s, "\n")| == 1
    ensures '\n' !in s ==> Split(s, "\n") == [s]
  {
    var first, rest := SplitCases(s, "\n");
    if rest.Some? {
      assert s[|first|] == '\n';
    } else if '\n' in s {
      var j :| 0 <= j < |s| && s[j] == '\n';
      assert OccursAt(s, "\n", j);
    }
  }

  /** For a sender of one line, the later lines are those of the content. */
  lemma LaterLinesOfContent(e: Entry, i: nat)
    requires '\n' !in e.sender && i < |EntryLines(e)|
    ensures |EntryLines(e)| == |ContentLines(e)|
    ensures Dropped(e, i) <==> IsSlashCommandText(ContentLines(e)[i]) && (i > 0 || '\n' !in e.content)
  {
    OneLineSplit(e.sender);
    OneLineSplit(e.content);
  }
}
