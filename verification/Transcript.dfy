/** Chat messages of `crates/mchact-core/src/llm_types.rs`, the pairing of tool uses with their results,
    and the merging of neighbours that have the same role. */
module Transcript {
  import opened Text
  import opened Picks

  // Image data, thought signatures and the JSON structure of tool inputs play no part and are left as text.
  datatype Block =
    | TextBlock(text: string)
    | Image(source: string)
    | ToolUse(id: string, name: string, input: string)
    | ToolResult(toolUseId: string, content: string, isError: bool)

  datatype Content = Plain(text: string) | Blocks(blocks: seq<Block>)

  datatype Message = Message(role: string, content: Content)

  const USER := "user"
  const ASSISTANT := "assistant"

  function UserText(text: string): Message {
    Message(USER, Plain(text))
  }

  function AssistantText(text: string): Message {
    Message(ASSISTANT, Plain(text))
  }

  // ----- tool ids -----

  function UseIds(blocks: seq<Block>): seq<string> {
    if blocks == [] then []
    else if blocks[0].ToolUse? then [blocks[0].id] + UseIds(blocks[1..])
    else UseIds(blocks[1..])
  }

  function ResultIds(blocks: seq<Block>): seq<string> {
    if blocks == [] then []
    else if blocks[0].ToolResult? then [blocks[0].toolUseId] + ResultIds(blocks[1..])
    else ResultIds(blocks[1..])
  }

  lemma IdsCons(b: Block, rest: seq<Block>)
    ensures UseIds([b] + rest) == if b.ToolUse? then [b.id] + UseIds(rest) else UseIds(rest)
    ensures ResultIds([b] + rest) == if b.ToolResult? then [b.toolUseId] + ResultIds(rest) else ResultIds(rest)
  {
    assert ([b] + rest)[1..] == rest;
  }

  function Uses(m: Message): seq<string> {
    if m.content.Blocks? then UseIds(m.content.blocks) else []
  }

  function Results(m: Message): seq<string> {
    if m.content.Blocks? then ResultIds(m.content.blocks) else []
  }

  /** Only the assistant uses tools, only the user side answers. */
  predicate RolesFit(m: Message) {
    (Uses(m) != [] ==> m.role == ASSISTANT) && (Results(m) != [] ==> m.role == USER)
  }

  /** Starting with the tool uses `open` still to be answered, every message answers exactly the uses of
      the message before it, same ids in the same order; `left` are unanswered at the end. */
  predicate PairedFromTo(open: seq<string>, ms: seq<Message>, left: seq<string>)
    decreases |ms|
  {
    if ms == [] then open == left
    else RolesFit(ms[0]) && Results(ms[0]) == open && PairedFromTo(Uses(ms[0]), ms[1..], left)
  }

  /** Every tool use is answered by the next message, one result per use, and no result is stray. */
  predicate Paired(ms: seq<Message>) {
    PairedFromTo([], ms, [])
  }

  predicate LinkedAt(ms: seq<Message>, i: nat)
    requires i < |ms|
  {
    RolesFit(ms[i]) && (i + 1 < |ms| ==> Uses(ms[i]) == Results(ms[i + 1]))
  }

  predicate AllLinked(ms: seq<Message>) {
    forall i :: 0 <= i < |ms| ==> LinkedAt(ms, i)
  }

  lemma AllLinkedCons(ms: seq<Message>)
    requires |ms| > 1
    ensures AllLinked(ms) <==> LinkedAt(ms, 0) && AllLinked(ms[1..])
  {
    var rest := ms[1..];
    assert forall i :: 0 < i < |ms| ==> LinkedAt(ms, i) == LinkedAt(rest, i - 1);
    assert forall i :: 0 <= i < |rest| ==> LinkedAt(rest, i) == LinkedAt(ms, i + 1);
  }

  /** The same, message by message. */
  lemma {:induction false} PairedPointwise(open: seq<string>, ms: seq<Message>, left: seq<string>)
    requires ms != []
    ensures PairedFromTo(open, ms, left) <==>
            Results(ms[0]) == open && Uses(ms[|ms| - 1]) == left && AllLinked(ms)
    decreases |ms|
  {
    if |ms| > 1 {
      PairedPointwise(Uses(ms[0]), ms[1..], left);
      AllLinkedCons(ms);
    } else {
      assert LinkedAt(ms, 0) == RolesFit(ms[0]);
      assert ms[1..] == [];
    }
  }

  lemma {:induction false} PairedConcat(open: seq<string>, a: seq<Message>, mid: seq<string>, b: seq<Message>,
                                        left: seq<string>)
    requires PairedFromTo(open, a, mid) && PairedFromTo(mid, b, left)
    ensures PairedFromTo(open, a + b, left)
    decreases |a|
  {
    if a == [] {
      assert a + b == b;
    } else {
      assert (a + b)[1..] == a[1..] + b;
      PairedConcat(Uses(a[0]), a[1..], mid, b, left);
    }
  }

  /** The uses left open at the end of a part. */
  function OpenAfter(open: seq<string>, ms: seq<Message>): seq<string> {
    if ms == [] then open else Uses(ms[|ms| - 1])
  }

  lemma {:induction false} PairedSplit(open: seq<string>, a: seq<Message>, b: seq<Message>, left: seq<string>)
    requires PairedFromTo(open, a + b, left)
    ensures PairedFromTo(open, a, OpenAfter(open, a)) && PairedFromTo(OpenAfter(open, a), b, left)
    decreases |a|
  {
    if a == [] {
      assert a + b == b;
    } else {
      assert (a + b)[1..] == a[1..] + b;
      PairedSplit(Uses(a[0]), a[1..], b, left);
    }
  }

  /** A message without tool blocks may be added or removed at a point where nothing is open. */
  predicate Toolless(m: Message) {
    Uses(m) == [] && Results(m) == []
  }

  lemma AppendToolless(ms: seq<Message>, m: Message)
    requires Paired(ms) && Toolless(m)
    ensures Paired(ms + [m])
  {
    PairedConcat([], ms, [], [m], []);
  }

  lemma DropLast(ms: seq<Message>)
    requires Paired(ms) && ms != [] && Results(ms[|ms| - 1]) == []
    ensures Paired(ms[..|ms| - 1])
  {
    var a, m := ms[..|ms| - 1], ms[|ms| - 1];
    assert ms == a + [m];
    PairedSplit([], a, [m], []);
  }

  // ----- the text of a message -----

  function BlockTexts(blocks: seq<Block>): seq<string> {
    if blocks == [] then []
    else
      var rest := BlockTexts(blocks[1..]);
      match blocks[0]
      case TextBlock(t) => [t] + rest
      case ToolResult(_, content, _) => [content] + rest
      case ToolUse(_, name, _) => [name] + rest
      case Image(_) => rest
  }

  function MessageToText(m: Message): string {
    match m.content
    case Plain(t) => t
    case Blocks(blocks) => Join(BlockTexts(blocks), "\n")
  }

  function IsToolUse(): Block -> bool {
    (b: Block) => b.ToolUse?
  }

  function IsToolResult(): Block -> bool {
    (b: Block) => b.ToolResult?
  }

  function IdOf(): Block -> string {
    (b: Block) => if b.ToolUse? then b.id else if b.ToolResult? then b.toolUseId else ""
  }

  lemma {:induction false} IdsFrom(blocks: seq<Block>, i: nat)
    requires i <= |blocks|
    ensures UseIds(blocks[i..]) == PickFrom(blocks, i, IsToolUse(), IdOf())
    ensures ResultIds(blocks[i..]) == PickFrom(blocks, i, IsToolResult(), IdOf())
    decreases |blocks| - i
  {
    if i < |blocks| {
      assert blocks[i..][1..] == blocks[i + 1..] && blocks[i..][0] == blocks[i];
      IdsFrom(blocks, i + 1);
    }
  }

  /** The ids of a message are those of its tool uses and of its results, in order. */
  lemma {:induction false} IdsMean(m: Message)
    ensures m.content.Plain? ==> Uses(m) == [] && Results(m) == []
    ensures m.content.Blocks? ==>
              Picked(m.content.blocks, IsToolUse(), IdOf(), Uses(m)) &&
                  Picked(m.content.blocks, IsToolResult(), IdOf(), Results(m))
  {
    if m.content.Blocks? {
      var blocks := m.content.blocks;
      IdsFrom(blocks, 0);
      assert blocks[0..] == blocks;
      PickIsPicked(blocks, IsToolUse(), IdOf());
      PickIsPicked(blocks, IsToolResult(), IdOf());
    }
  }

  /** All blocks but images count as text: a text, a result, or the name of the tool that is used. */
  function IsText(): Block -> bool {
    (b: Block) => !b.Image?
  }

  function TextOf(): Block -> string {
    (b: Block) => if b.TextBlock? then b.text else if b.ToolResult? then b.content else if b.ToolUse?
        then b.name else ""
  }

  lemma {:induction false} BlockTextsFrom(blocks: seq<Block>, i: nat)
    requires i <= |blocks|
    ensures BlockTexts(blocks[i..]) == PickFrom(blocks, i, IsText(), TextOf())
    decreases |blocks| - i
  {
    if i < |blocks| {
      assert blocks[i..][1..] == blocks[i + 1..];
      BlockTextsFrom(blocks, i + 1);
    }
  }

  /** The text of a message is its text, or the texts of its blocks in order, line by line. */
  lemma {:induction false} MessageTextMeans(m: Message) returns (texts: seq<string>)
    ensures m.content.Plain? ==> MessageToText(m) == m.content.text
    ensures m.content.Blocks? ==>
              Picked(m.content.blocks, IsText(), TextOf(), texts) && MessageToText(m) == Join(texts, "\n")
  {
    texts := [];
    if m.content.Blocks? {
      var blocks := m.content.blocks;
      texts := BlockTexts(blocks);
      BlockTextsFrom(blocks, 0);
      assert blocks[0..] == blocks;
      PickIsPicked(blocks, IsText(), TextOf());
    }
  }

  function Texts(ms: seq<Message>): seq<string> {
    seq(|ms|, i requires 0 <= i < |ms| => MessageToText(ms[i]))
  }

  lemma TextsConcat(a: seq<Message>, b: seq<Message>)
    ensures Texts(a + b) == Texts(a) + Texts(b)
  {
  }

  // ----- merging neighbours of the same role -----

  function MergeOne(acc: seq<Message>, m: Message): seq<Message> {
    if acc != [] && acc[|acc| - 1].role == m.role then
      var last := acc[|acc| - 1];
      acc[..|acc| - 1] + [Message(last.role, Plain(MessageToText(last) + "\n" + MessageToText(m)))]
    else acc + [m]
  }

  function MergeFrom(acc: seq<Message>, ms: seq<Message>): seq<Message>
    decreases |ms|
  {
    if ms == [] then acc else MergeFrom(MergeOne(acc, ms[0]), ms[1..])
  }

  function Merged(ms: seq<Message>): seq<Message> {
    MergeFrom([], ms)
  }

  function DropTrailingAssistant(ms: seq<Message>): seq<Message> {
    if ms != [] && ms[|ms| - 1].role == ASSISTANT then ms[..|ms| - 1] else ms
  }

  predicate Alternates(ms: seq<Message>) {
    forall i :: 0 < i < |ms| ==> ms[i].role != ms[i - 1].role
  }

  // ----- what the merge keeps -----

  predicate JoinsTo(out: seq<Message>, joined: seq<Message>) {
    Join(Texts(out), "\n") == Join(Texts(joined), "\n")
  }

  lemma MergeOneText(acc: seq<Message>, m: Message)
    ensures Join(Texts(MergeOne(acc, m)), "\n") == Join(Texts(acc + [m]), "\n")
  {
    if acc != [] && acc[|acc| - 1].role == m.role {
      var pre, last := acc[..|acc| - 1], acc[|acc| - 1];
      var two := [MessageToText(last), MessageToText(m)];
      assert Join(two, "\n") == MessageToText(last) + "\n" + MessageToText(m) by {
        assert two[1..] == [MessageToText(m)];
      }
      JoinFlatten(Texts(pre), two, "\n");
      assert Texts(MergeOne(acc, m)) == Texts(pre) + [Join(two, "\n")];
      assert Texts(acc + [m]) == Texts(pre) + two;
    }
  }

  lemma {:induction false} MergeFromText(acc: seq<Message>, ms: seq<Message>)
    requires Alternates(acc)
    ensures Alternates(MergeFrom(acc, ms))
    ensures Join(Texts(MergeFrom(acc, ms)), "\n") == Join(Texts(acc + ms), "\n")
    decreases |ms|
  {
    if ms == [] {
      assert acc + ms == acc;
    } else {
      assert ms == [ms[0]] + ms[1..];
      MergeFromText(MergeOne(acc, ms[0]), ms[1..]);
      MergeTextSoFar(acc, ms[0], ms[1..]);
    }
  }

  lemma MergeTextSoFar(acc: seq<Message>, m: Message, rest: seq<Message>)
    ensures Join(Texts(MergeOne(acc, m) + rest), "\n") == Join(Texts(acc + ([m] + rest)), "\n")
  {
    MergeOneText(acc, m);
    ConcatAssoc(acc, [m], rest);
    JoinsToConcat(MergeOne(acc, m), acc + [m], rest);
  }

  lemma JoinsToConcat(a: seq<Message>, b: seq<Message>, rest: seq<Message>)
    requires a != [] && b != [] && JoinsTo(a, b)
    ensures JoinsTo(a + rest, b + rest)
  {
    if rest == [] {
      assert a + rest == a && b + rest == b;
    } else {
      TextsConcat(a, rest);
      TextsConcat(b, rest);
      JoinConcat(Texts(a), Texts(rest), "\n");
      JoinConcat(Texts(b), Texts(rest), "\n");
    }
  }

  /** Messages that alternate already are not merged. */
  lemma {:induction false} AlternatingStays(acc: seq<Message>, ms: seq<Message>)
    requires Alternates(acc + ms)
    ensures MergeFrom(acc, ms) == acc + ms
    decreases |ms|
  {
    if ms == [] {
      assert acc + ms == acc;
    } else {
      var m, rest := ms[0], ms[1..];
      assert ms == [m] + rest;
      ConcatAssoc(acc, [m], rest);
      if acc != [] { assert (acc + ms)[|acc|] == m && (acc + ms)[|acc| - 1] == acc[|acc| - 1]; }
      AlternatingStays(acc + [m], rest);
    }
  }

  function RoleSet(ms: seq<Message>): set<string> {
    set m | m in ms :: m.role
  }

  lemma RoleSetConcat(a: seq<Message>, b: seq<Message>)
    ensures RoleSet(a + b) == RoleSet(a) + RoleSet(b)
  {
    assert forall m :: m in a + b <==> m in a || m in b;
  }

  lemma MergeOneRoles(acc: seq<Message>, m: Message)
    ensures RoleSet(MergeOne(acc, m)) == RoleSet(acc) + {m.role}
  {
    RoleSetConcat(acc, [m]);
    assert RoleSet([m]) == {m.role};
    if acc != [] && acc[|acc| - 1].role == m.role {
      var pre, last, joint := acc[..|acc| - 1], acc[|acc| - 1], MergeOne(acc, m)[|acc| - 1];
      RoleSetConcat(pre, [last]);
      RoleSetConcat(pre, [joint]);
      assert acc == pre + [last];
      assert RoleSet([last]) == {m.role} && RoleSet([joint]) == {m.role};
    }
  }

  lemma {:induction false} MergeFromRoles(acc: seq<Message>, ms: seq<Message>)
    ensures RoleSet(MergeFrom(acc, ms)) == RoleSet(acc) + RoleSet(ms)
    decreases |ms|
  {
    if ms != [] {
      MergeOneRoles(acc, ms[0]);
      MergeFromRoles(MergeOne(acc, ms[0]), ms[1..]);
      RoleSetConcat([ms[0]], ms[1..]);
      assert RoleSet([ms[0]]) == {ms[0].role};
      assert ms == [ms[0]] + ms[1..];
    }
  }

  predicate UserAndAssistant(ms: seq<Message>) {
    forall m :: m in ms ==> m.role == USER || m.role == ASSISTANT
  }

  lemma RolesOfUserAndAssistant(ms: seq<Message>)
    ensures UserAndAssistant(ms) <==> RoleSet(ms) <= {USER, ASSISTANT}
  {
    assert forall m :: m in ms ==> m.role in RoleSet(ms);
  }
}
