/** Turning stored chat history into a transcript: `history_to_claude_messages` of `src/agent_engine.rs`. */
module History {
  import opened Text
  import opened Picks
  import opened Transcript
  import opened AgentText

  datatype StoredMessage = StoredMessage(sender: string, content: string, fromBot: bool)

  predicate Skipped(m: StoredMessage) {
    !m.fromBot && IsSlashCommandText(m.content)
  }

  function Turn(m: StoredMessage): Message {
    if m.fromBot then AssistantText(m.content) else UserText(FormatUserMessage(m.sender, m.content))
  }

  /** The messages to convert, one by one. */
  function Turns(history: seq<StoredMessage>): seq<Message> {
    if history == [] then []
    else if Skipped(history[0]) then Turns(history[1..])
    else [Turn(history[0])] + Turns(history[1..])
  }

  function DropLeadingAssistants(ms: seq<Message>): seq<Message> {
    if ms != [] && ms[0].role == ASSISTANT then DropLeadingAssistants(ms[1..]) else ms
  }

  function Converted(history: seq<StoredMessage>): seq<Message> {
    DropLeadingAssistants(DropTrailingAssistant(Merged(Turns(history))))
  }

  method HistoryToClaudeMessages(history: seq<StoredMessage>) returns (messages: seq<Message>)
    ensures messages == Converted(history)
  {
    messages := [];
    for i := 0 to |history|
      invariant AllPlain(messages)
      invariant MergeFrom(messages, Turns(history[i..])) == Merged(Turns(history))
    {
      var msg := history[i];
      assert history[i..][0] == msg && history[i..][1..] == history[i + 1..];
      if !msg.fromBot && IsSlashCommandText(msg.content) { continue; }
      MergeStep(messages, msg, history[i + 1..]);
      var role := if msg.fromBot then ASSISTANT else USER;
      var content := if msg.fromBot then msg.content else FormatUserMessage(msg.sender, msg.content);
      if messages != [] {
        var last := messages[|messages| - 1];
        if last.role == role {
          if last.content.Plain? {
            messages := messages[..|messages| - 1] + [last.(content := Plain(last.content.text + "\n" + content))];
          }
          continue;
        }
      }
      messages := messages + [Message(role, Plain(content))];
    }
    assert history[|history|..] == [];
    if messages != [] && messages[|messages| - 1].role == ASSISTANT {
      messages := messages[..|messages| - 1];
    }
    ghost var trimmed := messages;
    while messages != [] && messages[0].role == ASSISTANT
      invariant DropLeadingAssistants(messages) == DropLeadingAssistants(trimmed)
      decreases |messages|
    {
      messages := messages[1..];
    }
  }

  predicate AllPlain(ms: seq<Message>) {
    forall m :: m in ms ==> m.content.Plain?
  }

  lemma MergeStep(acc: seq<Message>, msg: StoredMessage, rest: seq<StoredMessage>)
    requires !Skipped(msg)
    ensures MergeFrom(acc, Turns([msg] + rest))
            == MergeFrom(MergeOne(acc, Turn(msg)), Turns(rest))
  {
    assert ([msg] + rest)[1..] == rest;
    assert ([Turn(msg)] + Turns(rest))[1..] == Turns(rest);
  }

  // ----- which messages are converted -----

  /** All messages but the slash commands of users. */
  function IsConverted(): StoredMessage -> bool {
    (m: StoredMessage) => m.fromBot || !IsSlashCommandText(m.content)
  }

  /** The bot's text as it is, a user's with the sender. */
  function ConvertedTo(): StoredMessage -> Message {
    (m: StoredMessage) =>
      if m.fromBot then Message("assistant", Plain(m.content))
      else Message("user", Plain(FormatUserMessage(m.sender, m.content)))
  }

  lemma {:induction false} TurnsFrom(history: seq<StoredMessage>, i: nat)
    requires i <= |history|
    ensures Turns(history[i..]) == PickFrom(history, i, IsConverted(), ConvertedTo())
    decreases |history| - i
  {
    if i < |history| {
      assert history[i..][1..] == history[i + 1..];
      TurnsFrom(history, i + 1);
    }
  }

  lemma {:induction false} TurnsMean(history: seq<StoredMessage>)
    ensures Picked(history, IsConverted(), ConvertedTo(), Turns(history))
  {
    TurnsFrom(history, 0);
    assert history[0..] == history;
    PickIsPicked(history, IsConverted(), ConvertedTo());
  }

  // ----- what the conversion promises -----

  lemma {:induction false} TurnRoles(history: seq<StoredMessage>)
    ensures forall m :: m in Turns(history) ==> (m.role == USER || m.role == ASSISTANT) && m.content.Plain?
  {
    if history != [] { TurnRoles(history[1..]); }
  }

  /** The conversion drops at most one merged assistant message at either end. */
  lemma ConvertedSlice(history: seq<StoredMessage>) returns (merged: seq<Message>, lo: nat, hi: nat)
    ensures merged == Merged(Turns(history)) && Alternates(merged)
    ensures lo <= hi <= |merged| && Converted(history) == merged[lo..hi]
    ensures lo <= 1 && |merged| <= hi + 1
    ensures forall i :: 0 <= i < |merged| && !(lo <= i < hi) ==> merged[i].role == ASSISTANT
    ensures lo < hi ==> merged[lo].role != ASSISTANT && merged[hi - 1].role != ASSISTANT
  {
    merged := Merged(Turns(history));
    MergeFromText([], Turns(history));
    lo, hi := TrimmedEnds(merged);
  }

  lemma TrimmedEnds(ms: seq<Message>) returns (lo: nat, hi: nat)
    requires Alternates(ms)
    ensures lo <= hi <= |ms| && DropLeadingAssistants(DropTrailingAssistant(ms)) == ms[lo..hi]
    ensures lo <= 1 && |ms| <= hi + 1
    ensures forall i :: 0 <= i < |ms| && !(lo <= i < hi) ==> ms[i].role == ASSISTANT
    ensures lo < hi ==> ms[lo].role != ASSISTANT && ms[hi - 1].role != ASSISTANT
  {
    var body := DropTrailingAssistant(ms);
    hi := |body|;
    assert body == ms[..hi];
    if body != [] && body[0].role == ASSISTANT {
      lo := 1;
      var rest := body[1..];
      assert rest == ms[1..hi];
      assert rest != [] ==> rest[0] == ms[1];
      assert DropLeadingAssistants(rest) == rest;
    } else {
      lo := 0;
      assert body == ms[0..hi];
    }
  }

  /** For every stored history the result is empty, or strictly alternates and starts and ends with the user. */
  lemma ConvertedShape(history: seq<StoredMessage>)
    ensures Alternates(Converted(history))
    ensures Converted(history) != [] ==>
              Converted(history)[0].role == USER && Converted(history)[|Converted(history)| - 1].role == USER
    ensures forall m :: m in Converted(history) ==> m.role == USER || m.role == ASSISTANT
  {
    var merged, lo, hi := ConvertedSlice(history);
    MergedTurnRoles(history);
    assert forall m :: m in Converted(history) ==> m in merged;
    if lo < hi {
      assert merged[lo..hi][0] == merged[lo] && merged[lo] in merged;
      assert merged[lo..hi][hi - lo - 1] == merged[hi - 1] && merged[hi - 1] in merged;
    }
  }

  lemma MergedTurnRoles(history: seq<StoredMessage>)
    ensures forall m :: m in Merged(Turns(history)) ==> m.role == USER || m.role == ASSISTANT
  {
    var merged := Merged(Turns(history));
    TurnRoles(history);
    MergeFromRoles([], Turns(history));
    forall m | m in merged
      ensures m.role == USER || m.role == ASSISTANT
    {
      assert m.role in RoleSet(merged);
    }
  }

  function UserTexts(ms: seq<Message>): seq<string> {
    if ms == [] then []
    else if ms[0].role == USER then [MessageToText(ms[0])] + UserTexts(ms[1..])
    else UserTexts(ms[1..])
  }

  lemma {:induction false} UserTextsConcat(a: seq<Message>, b: seq<Message>)
    ensures UserTexts(a + b) == UserTexts(a) + UserTexts(b)
  {
    if a == [] {
      assert a + b == b;
    } else {
      assert (a + b)[1..] == a[1..] + b;
      UserTextsConcat(a[1..], b);
    }
  }

  lemma {:induction false} NoUserTexts(ms: seq<Message>)
    requires forall m :: m in ms ==> m.role != USER
    ensures UserTexts(ms) == []
  {
    if ms != [] { NoUserTexts(ms[1..]); }
  }

  lemma OneUserText(m: Message)
    ensures UserTexts([m]) == if m.role == USER then [MessageToText(m)] else []
  {
    assert [m][1..] == [];
  }

  lemma MergeOneUserText(acc: seq<Message>, m: Message)
    ensures Join(UserTexts(MergeOne(acc, m)), "\n") == Join(UserTexts(acc + [m]), "\n")
  {
    if acc != [] && acc[|acc| - 1].role == m.role {
      var pre, last, joint := acc[..|acc| - 1], acc[|acc| - 1], MergeOne(acc, m)[|acc| - 1];
      assert acc == pre + [last];
      UserTextsConcat(pre, [joint]);
      UserTextsConcat(pre + [last], [m]);
      UserTextsConcat(pre, [last]);
      OneUserText(joint);
      OneUserText(last);
      OneUserText(m);
      if m.role != USER {
        assert UserTexts(pre) + [] == UserTexts(pre);
      } else {
        var two := [MessageToText(last), MessageToText(m)];
        assert two[1..] == [MessageToText(m)];
        JoinFlatten(UserTexts(pre), two, "\n");
        assert UserTexts(acc + [m]) == UserTexts(pre) + two;
      }
    }
  }

  lemma JoinSame(a: seq<string>, b: seq<string>, rest: seq<string>)
    requires Join(a, "\n") == Join(b, "\n") && (a == [] <==> b == [])
    ensures Join(a + rest, "\n") == Join(b + rest, "\n")
  {
    if rest == [] {
      assert a + rest == a && b + rest == b;
    } else if a != [] {
      JoinConcat(a, rest, "\n");
      JoinConcat(b, rest, "\n");
    }
  }

  lemma {:induction false} UserTextsEmpty(ms: seq<Message>)
    ensures UserTexts(ms) == [] <==> USER !in RoleSet(ms)
  {
    if ms != [] {
      UserTextsEmpty(ms[1..]);
      RoleSetConcat([ms[0]], ms[1..]);
      assert ms == [ms[0]] + ms[1..] && RoleSet([ms[0]]) == {ms[0].role};
    }
  }

  lemma MergeOneUserTextThen(acc: seq<Message>, m: Message, rest: seq<Message>)
    ensures Join(UserTexts(MergeOne(acc, m) + rest), "\n") == Join(UserTexts(acc + ([m] + rest)), "\n")
  {
    var one, two := MergeOne(acc, m), acc + [m];
    MergeOneUserText(acc, m);
    SameUsers(acc, m);
    JoinSame(UserTexts(one), UserTexts(two), UserTexts(rest));
    UserTextsConcat(one, rest);
    UserTextsConcat(two, rest);
    ConcatAssoc(acc, [m], rest);
  }

  lemma SameUsers(acc: seq<Message>, m: Message)
    ensures UserTexts(MergeOne(acc, m)) == [] <==> UserTexts(acc + [m]) == []
  {
    MergeOneRoles(acc, m);
    RoleSetConcat(acc, [m]);
    assert RoleSet([m]) == {m.role};
    UserTextsEmpty(MergeOne(acc, m));
    UserTextsEmpty(acc + [m]);
  }

  lemma {:induction false} MergeFromUserText(acc: seq<Message>, ms: seq<Message>)
    ensures Join(UserTexts(MergeFrom(acc, ms)), "\n") == Join(UserTexts(acc + ms), "\n")
    decreases |ms|
  {
    if ms == [] {
      assert acc + ms == acc;
    } else {
      assert ms == [ms[0]] + ms[1..];
      MergeFromUserText(MergeOne(acc, ms[0]), ms[1..]);
      MergeOneUserTextThen(acc, ms[0], ms[1..]);
    }
  }

  /** Nothing a user wrote is lost: line by line, the user side of the result is every formatted non-slash
      user message of the history, in order. */
  lemma ConvertedKeepsUserText(history: seq<StoredMessage>) returns (texts: seq<string>, shown: seq<string>)
    ensures Picked(history, IsFromUser(), Formatted(), texts)
    ensures Picked(Converted(history), IsUsers(), ItsText(), shown)
    ensures Join(shown, "\n") == Join(texts, "\n")
  {
    texts, shown := UserTexts(Turns(history)), UserTexts(Converted(history));
    var merged, lo, hi := ConvertedSlice(history);
    MergeFromUserText([], Turns(history));
    assert [] + Turns(history) == Turns(history);
    UserTextsOfSlice(merged, lo, hi);
    FormattedFrom(history, 0);
    assert history[0..] == history;
    PickIsPicked(history, IsFromUser(), Formatted());
    UserTextsFrom(Converted(history), 0);
    assert Converted(history)[0..] == Converted(history);
    PickIsPicked(Converted(history), IsUsers(), ItsText());
  }

  /** A message from a user that is no slash command. */
  function IsFromUser(): StoredMessage -> bool {
    (m: StoredMessage) => !m.fromBot && !IsSlashCommandText(m.content)
  }

  function Formatted(): StoredMessage -> string {
    (m: StoredMessage) => FormatUserMessage(m.sender, m.content)
  }

  function IsUsers(): Message -> bool {
    (m: Message) => m.role == "user"
  }

  function ItsText(): Message -> string {
    (m: Message) => MessageToText(m)
  }

  lemma {:induction false} FormattedFrom(history: seq<StoredMessage>, i: nat)
    requires i <= |history|
    ensures UserTexts(Turns(history[i..])) == PickFrom(history, i, IsFromUser(), Formatted())
    decreases |history| - i
  {
    if i < |history| {
      var rest := history[i + 1..];
      assert history[i..][1..] == rest;
      FormattedFrom(history, i + 1);
      RolesDiffer();
      var turn := Turn(history[i]);
      assert ([turn] + Turns(rest))[1..] == Turns(rest);
    }
  }

  lemma {:induction false} UserTextsFrom(ms: seq<Message>, i: nat)
    requires i <= |ms|
    ensures UserTexts(ms[i..]) == PickFrom(ms, i, IsUsers(), ItsText())
    decreases |ms| - i
  {
    if i < |ms| {
      assert ms[i..][1..] == ms[i + 1..];
      UserTextsFrom(ms, i + 1);
    }
  }

  lemma UserTextsInMiddle(a: seq<Message>, b: seq<Message>, c: seq<Message>)
    requires forall m :: m in a || m in c ==> m.role == ASSISTANT
    ensures UserTexts(a + b + c) == UserTexts(b)
  {
    assert |ASSISTANT| != |USER|;
    NoUserTexts(a);
    NoUserTexts(c);
    UserTextsConcat(a + b, c);
    UserTextsConcat(a, b);
    assert [] + UserTexts(b) == UserTexts(b) && UserTexts(b) + [] == UserTexts(b);
  }

  lemma UserTextsOfSlice(ms: seq<Message>, lo: nat, hi: nat)
    requires lo <= hi <= |ms| && forall i :: 0 <= i < |ms| && !(lo <= i < hi) ==> ms[i].role == ASSISTANT
    ensures UserTexts(ms) == UserTexts(ms[lo..hi])
  {
    UserTextsInMiddle(ms[..lo], ms[lo..hi], ms[hi..]);
    ThreeParts(ms, lo, hi);
  }

  lemma ThreeParts(ms: seq<Message>, lo: nat, hi: nat)
    requires lo <= hi <= |ms|
    ensures ms[..lo] + ms[lo..hi] + ms[hi..] == ms
  {
  }

  /** A converted history has no tool blocks, so its pairing is trivially complete. */
  lemma ConvertedIsPaired(history: seq<StoredMessage>)
    ensures Paired(Converted(history))
  {
    var merged, lo, hi := ConvertedSlice(history);
    TurnRoles(history);
    MergedIsPlain([], Turns(history));
    PlainIsPaired(merged[lo..hi]);
  }

  lemma {:induction false} MergedIsPlain(acc: seq<Message>, ms: seq<Message>)
    requires AllPlain(acc) && AllPlain(ms)
    ensures AllPlain(MergeFrom(acc, ms))
    decreases |ms|
  {
    if ms != [] { MergedIsPlain(MergeOne(acc, ms[0]), ms[1..]); }
  }

  lemma {:induction false} PlainIsPaired(ms: seq<Message>)
    requires AllPlain(ms)
    ensures Paired(ms)
  {
    if ms != [] { PlainIsPaired(ms[1..]); }
  }

  // ----- histories that convert to themselves -----

  predicate NoneSkipped(history: seq<StoredMessage>) {
    forall m :: m in history ==> !Skipped(m)
  }

  lemma {:induction false} TurnsOf(history: seq<StoredMessage>)
    requires NoneSkipped(history)
    ensures |Turns(history)| == |history| && forall i :: 0 <= i < |history| ==> Turns(history)[i] == Turn(history[i])
  {
    if history != [] {
      TurnsOf(history[1..]);
      assert !Skipped(history[0]);
    }
  }

  /** User and bot take turns, the user first and last. */
  predicate TakeTurns(history: seq<StoredMessage>) {
    && history != [] && !history[0].fromBot && !history[|history| - 1].fromBot
    && forall i :: 0 < i < |history| ==> history[i].fromBot != history[i - 1].fromBot
  }

  lemma RolesDiffer()
    ensures USER != ASSISTANT
  {
    assert |USER| == 4 && |ASSISTANT| == 9;
  }

  lemma UserAtBothEnds(ms: seq<Message>)
    requires ms != [] && ms[0].role == USER && ms[|ms| - 1].role == USER
    ensures DropLeadingAssistants(DropTrailingAssistant(ms)) == ms
  {
    RolesDiffer();
  }

  /** A history without slash commands in which user and bot take turns is converted message by message. */
  lemma AlternatingHistoryStays(history: seq<StoredMessage>)
    requires NoneSkipped(history) && TakeTurns(history)
    ensures Converted(history) == Turns(history)
  {
    TurnsOf(history);
    RolesDiffer();
    var turns := Turns(history);
    forall i | 0 < i < |turns|
      ensures turns[i].role != turns[i - 1].role
    {
      assert history[i].fromBot != history[i - 1].fromBot;
    }
    UserAtBothEnds(turns);
    assert [] + turns == turns;
    AlternatingStays([], turns);
  }
}
