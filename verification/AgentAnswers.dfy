/** What the transcript, the tool results and the replies of the agent say, stated on the inputs of a request and not
    on the functions of `AgentEngine` that compute it. */
module AgentAnswers {
  import opened Wrappers
  import opened Text
  import opened Picks
  import opened Transcript
  import opened AgentText
  import opened AgentEngine
  import H = History
  import C = Compressor

  // ----- what one tool call gives the model -----

  /** The last patch that sets something decides, and `own` where none does. */
  ghost predicate LastSet<T>(own: T, given: seq<Option<T>>, result: T) {
    || ((forall k :: 0 <= k < |given| ==> given[k].None?) && result == own)
    || exists k :: 0 <= k < |given| && given[k] == Some(result) && forall j :: k < j < |given| ==> given[j].None?
  }

  function Contents(patches: seq<ResultPatch>): seq<Option<string>> {
    seq(|patches|, k requires 0 <= k < |patches| => patches[k].content)
  }

  function ErrorFlags(patches: seq<ResultPatch>): seq<Option<bool>> {
    seq(|patches|, k requires 0 <= k < |patches| => patches[k].isError)
  }

  lemma {:induction false} LastSetCons<T>(own: T, first: Option<T>, rest: seq<Option<T>>, result: T)
    requires LastSet(if first.Some? then first.value else own, rest, result)
    ensures LastSet(own, [first] + rest, result)
  {
    var all := [first] + rest;
    if k :| 0 <= k < |rest| && rest[k] == Some(result) && forall j :: k < j < |rest| ==> rest[j].None? {
      assert all[k + 1] == Some(result);
    } else if first.Some? {
      assert all[0] == Some(result);
    }
  }

  lemma {:induction false} PatchedMeans(out: ToolOutput, patches: seq<ResultPatch>)
    ensures LastSet(out.content, Contents(patches), Patched(out, patches).content)
    ensures LastSet(out.isError, ErrorFlags(patches), Patched(out, patches).isError)
    decreases |patches|
  {
    if patches != [] {
      var p, rest := patches[0], patches[1..];
      var next := ToolOutput(if p.content.Some? then p.content.value else out.content,
                             if p.isError.Some? then p.isError.value else out.isError,
                             if p.errorType.Some? then p.errorType else out.errorType);
      PatchedMeans(next, rest);
      LastSetCons(out.content, p.content, Contents(rest), Patched(out, patches).content);
      LastSetCons(out.isError, p.isError, ErrorFlags(rest), Patched(out, patches).isError);
      assert [p.content] + Contents(rest) == Contents(patches);
      assert [p.isError] + ErrorFlags(rest) == ErrorFlags(patches);
    }
  }

  /** The tool asked for an approval. */
  predicate Gated(script: ToolScript) {
    script.first.isError && script.first.errorType == Some("approval_required")
  }

  predicate MayRetry(s: Settings, approved: bool) {
    !s.confirmHighRisk || approved
  }

  /** What the tool itself said: its second answer when it asked for an approval and may be asked again. */
  function ToolSaid(s: Settings, approved: bool, script: ToolScript): ToolOutput {
    if Gated(script) && MayRetry(s, approved) then script.retried else script.first
  }

  /** The result the model gets for what the tool said, after the hook that runs last. */
  ghost predicate ShownAs(said: ToolOutput, hook: AfterHook, content: string, isError: bool) {
    match hook
    case Silent => content == said.content && isError == said.isError
    case AfterBlock(reason) => isError && content == if AllWhitespace(reason) then said.content else reason
    case AfterAllow(patches) =>
      LastSet(said.content, Contents(patches), content) && LastSet(said.isError, ErrorFlags(patches), isError)
  }

  /** A call without a name, a fourth send_message in a row, one that Feishu does not take, or one that a hook
      blocks. */
  predicate TurnedAway(s: Settings, sends: nat, name: string, script: ToolScript) {
    || AllWhitespace(name)
    || (name == "send_message" && (sends >= 3 || (s.feishu && !script.hasAttachment)))
    || script.blocked.Some?
  }

  /** What a tool call results in: why it is turned away, or what the tool said. It waits exactly when the tool asks for
      an approval that is needed and not there. */
  lemma {:induction false} ToolCallMeans(s: Settings, approved: bool, sends: nat, id: string, name: string,
                                         script: ToolScript)
    ensures var step := ToolStepOf(s, approved, sends, id, name, script);
            && step.result.ToolResult? && step.result.toolUseId == id
            && (step.executed <==> !TurnedAway(s, sends, name, script))
            && (step.waiting <==> step.executed && Gated(script) && !MayRetry(s, approved))
            && (step.executed ==>
               ShownAs(ToolSaid(s, approved, script), script.after, step.result.content, step.result.isError))
            && (!step.executed ==> step.result.isError)
  {
    TrimIsBlank(name);
    if script.after.AfterBlock? { TrimIsBlank(script.after.reason); }
    if script.after.AfterAllow? { PatchedMeans(ToolSaid(s, approved, script), script.after.patches); }
  }

  /** The reason a call is turned away for, the earliest of four. */
  lemma {:induction false} ToolCallReason(s: Settings, approved: bool, sends: nat, id: string, name: string,
                                          script: ToolScript)
    requires TurnedAway(s, sends, name, script)
    ensures var content := ToolStepOf(s, approved, sends, id, name, script).result.content;
            if AllWhitespace(name) then content == MALFORMED
            else if name == "send_message" && sends >= 3 then content == TOO_MANY_SENDS
            else if name == "send_message" && s.feishu && !script.hasAttachment then content == FEISHU_TEXT
            else
              var reason := script.blocked.value;
              content == if AllWhitespace(reason) then "tool '" + name + "' blocked by policy hook" else reason
  {
    TrimIsBlank(name);
    if script.blocked.Some? { TrimIsBlank(script.blocked.value); }
  }

  /** The count of send_message calls in a row: one more for each that is executed, none after another tool. */
  lemma {:induction false} ToolCallCounts(s: Settings, approved: bool, sends: nat, id: string, name: string,
                                          script: ToolScript)
    ensures var step := ToolStepOf(s, approved, sends, id, name, script);
            step.sends == if AllWhitespace(name) then sends
                          else if name == "send_message" then (if step.executed then sends + 1 else sends)
                          else 0
  {
    TrimIsBlank(name);
  }

  // ----- what an answer of the model is taken for -----

  function IsUse(): ResponseBlock -> bool {
    (b: ResponseBlock) => b.ResponseToolUse?
  }

  function IsSpoken(): ResponseBlock -> bool {
    (b: ResponseBlock) => b.ResponseText?
  }

  function IsKnown(): ResponseBlock -> bool {
    (b: ResponseBlock) => !b.ResponseOther?
  }

  function SpokenText(): ResponseBlock -> string {
    (b: ResponseBlock) => if b.ResponseText? then b.text else ""
  }

  /** How a call enters the fingerprint. */
  function CallText(): ResponseBlock -> string {
    (b: ResponseBlock) => if b.ResponseToolUse? then b.name + ":" + b.input else ""
  }

  /** How a block enters the transcript. */
  function Recorded(): ResponseBlock -> Block {
    (b: ResponseBlock) =>
      if b.ResponseToolUse? then ToolUse(b.id, b.name, b.input)
      else TextBlock(if b.ResponseText? then b.text else "")
  }

  lemma {:induction false} BlocksFrom(blocks: seq<ResponseBlock>, i: nat)
    requires i <= |blocks|
    ensures AnswerTexts(blocks[i..]) == PickFrom(blocks, i, IsSpoken(), SpokenText())
    ensures CallParts(blocks[i..]) == PickFrom(blocks, i, IsUse(), CallText())
    ensures AssistantBlocks(blocks[i..]) == PickFrom(blocks, i, IsKnown(), Recorded())
    decreases |blocks| - i
  {
    if i < |blocks| {
      assert blocks[i..][1..] == blocks[i + 1..] && blocks[i..][0] == blocks[i];
      BlocksFrom(blocks, i + 1);
    }
  }

  /** The text of an answer is its spoken blocks put together. */
  ghost predicate IsTextOf(blocks: seq<ResponseBlock>, text: string) {
    exists parts :: Picked(blocks, IsSpoken(), SpokenText(), parts) && text == Join(parts, "")
  }

  /** The fingerprint of an answer is its calls put together, and there is none without calls. */
  ghost predicate IsFingerprintOf(blocks: seq<ResponseBlock>, fp: Option<string>) {
    exists parts :: Picked(blocks, IsUse(), CallText(), parts) && fp == if parts == []
        then None else Some(Join(parts, "|"))
  }

  /** The transcript keeps texts and calls as they came. */
  ghost predicate IsRecordOf(blocks: seq<ResponseBlock>, record: seq<Block>) {
    Picked(blocks, IsKnown(), Recorded(), record)
  }

  lemma {:induction false} AnswerMeans(r: Response)
    ensures IsTextOf(r.content, AnswerText(r)) && IsFingerprintOf(r.content, Fingerprint(r.content))
    ensures IsRecordOf(r.content, AssistantBlocks(r.content))
  {
    var blocks := r.content;
    assert blocks[0..] == blocks;
    BlocksFrom(blocks, 0);
    PickIsPicked(blocks, IsSpoken(), SpokenText());
    PickIsPicked(blocks, IsUse(), CallText());
    PickIsPicked(blocks, IsKnown(), Recorded());
    assert Picked(blocks, IsSpoken(), SpokenText(), AnswerTexts(blocks));
    assert Picked(blocks, IsUse(), CallText(), CallParts(blocks));
  }

  // ----- all calls of an answer -----

  function TheUse(): ResponseBlock -> ResponseBlock {
    (b: ResponseBlock) => b
  }

  /** The count of sends before call `k`. */
  function SendsBefore(before: nat, steps: seq<ToolStep>, k: nat): nat
    requires k <= |steps|
  {
    if k == 0 then before else steps[k - 1].sends
  }

  ghost predicate IsStep(s: Settings, approved: bool, uses: seq<ResponseBlock>, scripts: nat -> ToolScript, before: nat,
                         steps: seq<ToolStep>, k: nat)
    requires k < |uses| && k < |steps|
  {
    && uses[k].ResponseToolUse?
    && steps[k] == ToolStepOf(s, approved, SendsBefore(before, steps, k), uses[k].id, uses[k].name, scripts(k))
  }

  /** The calls of an answer, run one after the other: call `k` with script `k`, the count of sends handed on. */
  ghost predicate AreSteps(s: Settings, approved: bool, uses: seq<ResponseBlock>, scripts: nat -> ToolScript,
                           before: nat,
                           steps: seq<ToolStep>) {
    |steps| == |uses| && forall k :: 0 <= k < |uses| ==> IsStep(s, approved, uses, scripts, before, steps, k)
  }

  predicate AreResults(steps: seq<ToolStep>, results: seq<Block>) {
    |results| == |steps| && forall k :: 0 <= k < |steps| ==> results[k] == steps[k].result
  }

  /** The last call that waits, if any. */
  ghost predicate LastWaiting(uses: seq<ResponseBlock>, steps: seq<ToolStep>, waiting: Option<string>)
    requires |steps| == |uses|
  {
    if waiting.None? then forall k :: 0 <= k < |steps| ==> !steps[k].waiting
    else exists k :: 0 <= k < |steps| && IsLastWaiting(uses, steps, k, waiting.value)
  }

  ghost predicate IsLastWaiting(uses: seq<ResponseBlock>, steps: seq<ToolStep>, k: nat, name: string)
    requires k < |steps| == |uses|
  {
    && steps[k].waiting && uses[k].ResponseToolUse? && uses[k].name == name
    && forall j :: k < j < |steps| ==> !steps[j].waiting
  }

  lemma {:induction false} LastWaitingAppend(uses: seq<ResponseBlock>, steps: seq<ToolStep>, waiting: Option<string>,
                                             b: ResponseBlock, step: ToolStep)
    requires |steps| == |uses| && LastWaiting(uses, steps, waiting) && b.ResponseToolUse?
    ensures LastWaiting(uses + [b], steps + [step], if step.waiting then Some(b.name) else waiting)
  {
    if step.waiting {
      assert IsLastWaiting(uses + [b], steps + [step], |uses|, b.name);
    } else if waiting.Some? {
      var k :| 0 <= k < |steps| && IsLastWaiting(uses, steps, k, waiting.value);
      assert IsLastWaiting(uses + [b], steps + [step], k, waiting.value);
    }
  }

  lemma {:induction false} StepsAppend(s: Settings, approved: bool, uses: seq<ResponseBlock>,
                                       scripts: nat -> ToolScript,
                                       before: nat, steps: seq<ToolStep>, b: ResponseBlock, step: ToolStep)
    requires AreSteps(s, approved, uses, scripts, before, steps) && b.ResponseToolUse?
    requires step == ToolStepOf(s, approved, SendsBefore(before, steps, |steps|), b.id, b.name, scripts(|uses|))
    ensures AreSteps(s, approved, uses + [b], scripts, before, steps + [step])
  {
    forall k | 0 <= k < |uses| + 1
      ensures IsStep(s, approved, uses + [b], scripts, before, steps + [step], k)
    {
      assert SendsBefore(before, steps + [step], k) == SendsBefore(before, steps, k);
      if k < |uses| { assert IsStep(s, approved, uses, scripts, before, steps, k); }
    }
  }

  /** The log has the name of each call and whether it reached the tool. */
  predicate AreMarks(uses: seq<ResponseBlock>, steps: seq<ToolStep>, marks: seq<CallMark>)
    requires |steps| == |uses|
  {
    && |marks| == |steps|
    && forall k :: 0 <= k < |steps| ==>
         uses[k].ResponseToolUse? && marks[k] == CallMark(uses[k].name, steps[k].executed)
  }

  /** The run so far: its steps on the calls before position `i`, and what they added to the log. */
  ghost predicate RunSoFar(s: Settings, approved: bool, scripts: nat -> ToolScript, before: nat,
                           uses: seq<ResponseBlock>,
                           steps: seq<ToolStep>, calls: seq<CallMark>, run: ToolRun) {
    && calls <= run.calls && |run.calls| == |calls| + |steps|
    && AreSteps(s, approved, uses, scripts, before, steps) && AreResults(steps, run.results)
    && AreMarks(uses, steps, run.calls[|calls|..])
    && LastWaiting(uses, steps, run.waitingTool) && run.sends == SendsBefore(before, steps, |steps|)
  }

  lemma {:induction false} OneMoreCall(s: Settings, approved: bool, scripts: nat -> ToolScript, before: nat,
                                       uses: seq<ResponseBlock>, steps: seq<ToolStep>, calls: seq<CallMark>,
                                           run: ToolRun,
                                       b: ResponseBlock)
    returns (step: ToolStep)
    requires RunSoFar(s, approved, scripts, before, uses, steps, calls, run) && b.ResponseToolUse?
    ensures RunSoFar(s, approved, scripts, before, uses + [b], steps + [step], calls,
            RunBlock(s, approved, run, b, scripts))
  {
    assert (run.calls + [CallMark(b.name, true)])[|calls|..|run.calls|] == run.calls[|calls|..];
    step := ToolStepOf(s, approved, run.sends, b.id, b.name, scripts(|run.results|));
    StepsAppend(s, approved, uses, scripts, before, steps, b, step);
    LastWaitingAppend(uses, steps, run.waitingTool, b, step);
  }

  lemma {:induction false} RunToolsFrom(s: Settings, approved: bool, blocks: seq<ResponseBlock>, i: nat,
                                        scripts: nat -> ToolScript, before: nat, uses: seq<ResponseBlock>,
                                        steps: seq<ToolStep>, calls: seq<CallMark>, run: ToolRun)
    returns (steps': seq<ToolStep>)
    requires i <= |blocks| && RunSoFar(s, approved, scripts, before, uses, steps, calls, run)
    ensures RunSoFar(s, approved, scripts, before, uses + PickFrom(blocks, i, IsUse(), TheUse()), steps', calls,
                     RunTools(s, approved, run, blocks[i..], scripts))
    decreases |blocks| - i
  {
    if i == |blocks| {
      assert uses + [] == uses;
      return steps;
    }
    var b, later := blocks[i], PickFrom(blocks, i + 1, IsUse(), TheUse());
    assert blocks[i..][0] == b && blocks[i..][1..] == blocks[i + 1..];
    if b.ResponseToolUse? {
      var step := OneMoreCall(s, approved, scripts, before, uses, steps, calls, run, b);
      steps' := RunToolsFrom(s, approved, blocks, i + 1, scripts, before, uses + [b], steps + [step], calls,
                             RunBlock(s, approved, run, b, scripts));
      ConcatAssoc(uses, [b], later);
    } else {
      steps' := RunToolsFrom(s, approved, blocks, i + 1, scripts, before, uses, steps, calls, run);
      assert [] + later == later;
    }
  }

  /** The results of an answer are those of its calls, in order, each run once with its own script. */
  ghost predicate AreResultsOf(s: Settings, approved: bool, blocks: seq<ResponseBlock>, scripts: nat -> ToolScript,
                               before: nat, results: seq<Block>, waiting: Option<string>, after: nat,
                                   marks: seq<CallMark>) {
    exists uses, steps ::
      && Picked(blocks, IsUse(), TheUse(), uses) && AreSteps(s, approved, uses, scripts, before, steps)
      && AreResults(steps, results) && LastWaiting(uses, steps, waiting) && after == SendsBefore(before, steps, |steps|)
      && AreMarks(uses, steps, marks)
  }

  lemma {:induction false} ToolRunMeans(s: Settings, approved: bool, blocks: seq<ResponseBlock>,
                                        scripts: nat -> ToolScript,
                                        sends: nat, calls: seq<CallMark>)
    ensures var run := RunTools(s, approved, ToolRun([], None, sends, calls), blocks, scripts);
            && calls <= run.calls
            && AreResultsOf(s, approved, blocks, scripts, sends, run.results, run.waitingTool, run.sends,
               run.calls[|calls|..])
  {
    var uses := PickFrom(blocks, 0, IsUse(), TheUse());
    var steps := RunToolsFrom(s, approved, blocks, 0, scripts, sends, [], [], calls, ToolRun([], None, sends, calls));
    assert blocks[0..] == blocks && [] + uses == uses;
    PickIsPicked(blocks, IsUse(), TheUse());
  }

  // ----- what is shown to the user -----

  lemma {:induction false} SubsequenceOfSubsequence(a: string, b: string, c: string)
    requires Subsequence(a, b) && Subsequence(b, c)
    ensures Subsequence(a, c)
    decreases |c|
  {
    if a != "" {
      if Subsequence(b, c[1..]) {
        SubsequenceOfSubsequence(a, b, c[1..]);
      } else if Subsequence(a, b[1..]) {
        SubsequenceOfSubsequence(a, b[1..], c[1..]);
      } else {
        SubsequenceOfSubsequence(a[1..], b[1..], c[1..]);
      }
    }
  }

  lemma {:induction false} TrimTakesOut(s: string)
    ensures Subsequence(Trim(s), s)
  {
    var lead, trail := TrimProperties(s);
    TakenOut("", trail, "");
    PutBefore(Trim(s), "", trail);
    NothingAdded(Trim(s));
    NothingAdded(trail);
    TakenOut(Trim(s), lead, Trim(s) + trail);
    ConcatAssoc(lead, Trim(s), trail);
  }

  ghost predicate HasThinking(text: string) {
    Contains(text, "<think>") || Contains(text, "<thought>") || Contains(text, "<thinking>") ||
        Contains(text, "<reasoning>")
  }

  /** What is shown of a text: all of it, or what is left, trimmed, when thinking is taken out. */
  ghost predicate IsShown(showThinking: bool, text: string, shown: string) {
    if showThinking then shown == text
    else Subsequence(shown, text) && Tight(shown) && (!HasThinking(text) ==> shown == Trim(text))
  }

  lemma {:induction false} DisplayMeans(s: Settings, text: string)
    ensures IsShown(s.showThinking, text, Display(s, text))
  {
    if !s.showThinking {
      var a := StripTag(text, "<think>", "</think>");
      var b := StripTag(a, "<thought>", "</thought>");
      var c := StripTag(b, "<thinking>", "</thinking>");
      var d := StripTag(c, "<reasoning>", "</reasoning>");
      StripTagTakesOut(text, "<think>", "</think>");
      StripTagTakesOut(a, "<thought>", "</thought>");
      StripTagTakesOut(b, "<thinking>", "</thinking>");
      StripTagTakesOut(c, "<reasoning>", "</reasoning>");
      TrimTakesOut(d);
      SubsequenceOfSubsequence(Trim(d), d, c);
      SubsequenceOfSubsequence(Trim(d), c, b);
      SubsequenceOfSubsequence(Trim(d), b, a);
      SubsequenceOfSubsequence(Trim(d), a, text);
    }
  }

  /** A tag has one bracket, at its start. */
  predicate IsTag(tag: string) {
    |tag| > 1 && tag[0] == '<' && forall k :: 0 < k < |tag| ==> tag[k] != '<'
  }

  lemma {:induction false} FindTag(a: string, tag: string, rest: string)
    requires IsTag(tag) && !Contains(a, tag)
    ensures Find(a + tag + rest, tag) == Some(|a|)
  {
    var s := a + tag + rest;
    assert s[|a|..|a| + |tag|] == tag && OccursAt(s, tag, |a|);
    forall j: nat | j < |a|
      ensures !OccursAt(s, tag, j)
    {
      TagDoesNotOverlap(a, tag, rest, j);
    }
  }

  lemma {:induction false} TagDoesNotOverlap(a: string, tag: string, rest: string, j: nat)
    requires IsTag(tag) && !Contains(a, tag) && j < |a|
    ensures !OccursAt(a + tag + rest, tag, j)
  {
    var s := a + tag + rest;
    if j + |tag| <= |a| {
      assert !OccursAt(a, tag, j) && a[j..j + |tag|] == s[j..j + |tag|];
    } else if j + |tag| <= |s| {
      var part := s[j..j + |tag|];
      assert part[|a| - j] == s[|a|] == '<' && tag[|a| - j] != '<';
    }
  }

  lemma {:induction false} NoCloseInBlock(open: string, b: string, close: string)
    requires IsTag(open) && IsTag(close) && open[1] != '/' && close[1] == '/' && !Contains(b, close)
    ensures !Contains(open + b, close)
  {
    var s := open + b;
    forall j: nat
      ensures !OccursAt(s, close, j)
    {
      if j + |close| <= |s| {
        var part := s[j..j + |close|];
        assert part[0] == s[j] && part[1] == s[j + 1];
        if j >= |open| {
          assert part == b[j - |open|..j - |open| + |close|];
          assert !OccursAt(b, close, j - |open|);
        } else {
          assert s[j] == open[j] && (j == 0 ==> s[1] == open[1]);
        }
      }
    }
  }

  /** A block of thinking is taken out, and what stands around it stays. */
  lemma {:induction false} BlockIsTakenOut(a: string, open: string, b: string, close: string, c: string)
    requires IsTag(open) && IsTag(close) && open[1] != '/' && close[1] == '/'
    requires !Contains(a, open) && !Contains(b, close) && !Contains(c, open)
    ensures StripTag(a + open + b + close + c, open, close) == a + c
  {
    var s, block := a + open + b + close + c, open + b + close + c;
    assert s == a + open + (b + close + c) && s == a + block;
    FindTag(a, open, b + close + c);
    assert s[..|a|] == a && s[|a|..] == block;
    NoCloseInBlock(open, b, close);
    FindTag(open + b, close, c);
    assert block == open + b + close + c && block[|open + b| + |close|..] == c;
  }

  const TAGS := ["<think>", "<thought>", "<thinking>", "<reasoning>"]
  const CLOSING_TAGS := ["</think>", "</thought>", "</thinking>", "</reasoning>"]

  lemma {:induction false} TagsAreTags(k: nat)
    requires k < 4
    ensures IsTag(TAGS[k]) && IsTag(CLOSING_TAGS[k]) && TAGS[k][1] != '/' && CLOSING_TAGS[k][1] == '/'
  {
  }

  /** One stage of the stripping: a block of its own kind is taken out, a text without one stays. */
  function Stage(text: string, k: nat): string
    requires k < 4
  {
    TagsAreTags(k);
    StripTag(text, TAGS[k], CLOSING_TAGS[k])
  }

  lemma {:induction false} StagesOfThinking(text: string)
    ensures StripThinking(text) == Trim(Stage(Stage(Stage(Stage(text, 0), 1), 2), 3))
  {
  }

  lemma {:induction false} StageIdle(text: string, k: nat)
    requires k < 4 && !Contains(text, TAGS[k])
    ensures Stage(text, k) == text
  {
    TagsAreTags(k);
    StripTagTakesOut(text, TAGS[k], CLOSING_TAGS[k]);
  }

  /** A block of thinking of any of the four kinds is not shown when thinking is hidden, and the rest is. */
  lemma {:induction false} ThinkingIsHidden(s: Settings, k: nat, a: string, b: string, c: string)
    requires !s.showThinking && k < 4 && !Contains(b, CLOSING_TAGS[k]) && !Contains(a, TAGS[k]) && !Contains(c, TAGS[k])
    requires forall j :: 0 <= j < 4 ==> !Contains(a + c, TAGS[j])
    requires forall j :: 0 <= j < 4 && j != k ==> !Contains(a + TAGS[k] + b + CLOSING_TAGS[k] + c, TAGS[j])
    ensures Display(s, a + TAGS[k] + b + CLOSING_TAGS[k] + c) == Trim(a + c)
  {
    var text := a + TAGS[k] + b + CLOSING_TAGS[k] + c;
    TagsAreTags(k);
    BlockIsTakenOut(a, TAGS[k], b, CLOSING_TAGS[k], c);
    StagesOfThinking(text);
    StageIdle(a + c, 0);
    StageIdle(a + c, 1);
    StageIdle(a + c, 2);
    StageIdle(a + c, 3);
    if k != 0 { StageIdle(text, 0); }
    if k > 1 { StageIdle(text, 1); }
    if k > 2 { StageIdle(text, 2); }
  }

  // ----- one iteration -----

  /** A blocked or failed call of the model ends the run and leaves everything as it was. */
  lemma {:induction false} NoAnswerMeans(s: Settings, approved: bool, st: RunState, turn: Turn)
    requires turn.hookBlock.Some? || turn.answer.None?
    ensures TurnStep(s, approved, st, turn) ==
            Stop(st, if turn.hookBlock.None? then ModelFailed
                     else if AllWhitespace(turn.hookBlock.value) then HookBlocked(BLOCKED)
                     else HookBlocked(turn.hookBlock.value))
  {
    if turn.hookBlock.Some? { TrimIsBlank(turn.hookBlock.value); }
  }

  /** How often in a row the same calls have been asked for, after an answer with this fingerprint. */
  function InARow(st: RunState, fp: Option<string>): nat {
    if fp.None? then 0 else if fp == st.lastFingerprint then st.streak + 1 else 1
  }

  /** An answer that asks for tools is counted by its fingerprint. Without calls its text ends the run, and so does the
      sixth time in a row that it asks for the same ones. */
  lemma {:induction false} ToolTurnMeans(s: Settings, approved: bool, st: RunState, turn: Turn)
    returns (text: string, fp: Option<string>)
    requires turn.hookBlock.None? && turn.answer.Some? && turn.answer.value.stopReason == ToolCalls
    ensures var blocks, step, final := turn.answer.value.content, TurnStep(s, approved, st, turn),
                                       if AllWhitespace(text) then NO_CALLS else text;
            && IsTextOf(blocks, text) && IsFingerprintOf(blocks, fp)
            && step.st.lastFingerprint == fp && step.st.streak == InARow(st, fp) && step.st.retried == st.retried
            && step.st.log == st.log + [Answer(fp, fp.Some? && InARow(st, fp) < 6, false)]
            && (fp.None? || InARow(st, fp) >= 6 ==>
               step.Stop? && step.st.calls == st.calls && step.st.sends == st.sends)
            && (fp.None? ==>
               step.st.messages == st.messages + [Message("assistant", Plain(final))] && step.ending == Saved(final))
            && (InARow(st, fp) >= 6 ==>
                  step.st.messages == st.messages + [Message("assistant", Plain(REPEATED))] &&
                      step.ending == Saved(REPEATED))
  {
    text, fp := AnswerText(turn.answer.value), Fingerprint(turn.answer.value.content);
    AnswerMeans(turn.answer.value);
    TrimIsBlank(text);
  }

  /** Otherwise the answer and the results of its calls are put into the transcript, and the run ends if a call
      waits. */
  lemma {:induction false} ToolTurnRuns(s: Settings, approved: bool, st: RunState, turn: Turn, fp: Option<string>)
    returns (record: seq<Block>, results: seq<Block>, waiting: Option<string>, marks: seq<CallMark>)
    requires turn.hookBlock.None? && turn.answer.Some? && turn.answer.value.stopReason == ToolCalls
    requires fp == TurnStep(s, approved, st, turn).st.lastFingerprint && fp.Some? && InARow(st, fp) < 6
    ensures var blocks, step := turn.answer.value.content, TurnStep(s, approved, st, turn);
            && IsRecordOf(blocks, record)
            && AreResultsOf(s, approved, blocks, turn.scripts, st.sends, results, waiting, step.st.sends, marks)
            && step.st.messages ==
               st.messages + [Message("assistant", Blocks(record))] + [Message("user", Blocks(results))]
            && step.st.calls == st.calls + marks
            && (if waiting.Some? then step.Stop? && step.ending == Waiting(waiting.value) else step.Next?)
  {
    var r := turn.answer.value;
    record := AssistantBlocks(r.content);
    AnswerMeans(r);
    ToolRunMeans(s, approved, r.content, turn.scripts, st.sends, st.calls);
    var run := RunTools(s, approved, ToolRun([], None, st.sends, st.calls), r.content, turn.scripts);
    results, waiting, marks := run.results, run.waitingTool, run.calls[|st.calls|..];
  }

  /** Any other answer: its text is put into the transcript and ends the run, except that the model is asked once more
      the first time nothing would be shown. */
  lemma {:induction false} TextTurnMeans(s: Settings, approved: bool, st: RunState, turn: Turn)
    returns (text: string, shown: string)
    requires turn.hookBlock.None? && turn.answer.Some? && turn.answer.value.stopReason != ToolCalls
    ensures var r, step := turn.answer.value, TurnStep(s, approved, st, turn);
            var spoken := st.messages + [Message("assistant", Plain(text))];
            && IsTextOf(r.content, text) && IsShown(s.showThinking, text, shown)
            && step.st.lastFingerprint == None && step.st.streak == 0
            && step.st.sends == st.sends && step.st.calls == st.calls
            && step.st.log == st.log + [Answer(None, false, step.Next?)]
            && if r.stopReason.OtherReason? then
                 step.Stop? && step.st.messages == spoken &&
                     step.ending == Saved(if text == "" then "(no response)" else text)
               else if AllWhitespace(shown) && !st.retried then
                 step.Next? && step.st.retried && step.st.messages == spoken + [Message("user", Plain(GUARD))]
               else
                 && step.Stop? && step.st.messages == spoken
                 && step.ending == Saved(if !AllWhitespace(shown) then shown
                                         else if r.stopReason == MaxTokens then LIMIT_REACHED else NO_REPLY)
  {
    var r := turn.answer.value;
    text, shown := AnswerText(r), Display(s, AnswerText(r));
    AnswerMeans(r);
    DisplayMeans(s, text);
    TrimIsBlank(shown);
  }

  // ----- a whole run -----

  /** What iteration `i` makes of a state. */
  type Steps = (RunState, nat) -> StepOut

  function StepsOf(s: Settings, approved: bool, turns: nat -> Turn): Steps {
    (st: RunState, i: nat) => TurnStep(s, approved, st, turns(i))
  }

  ghost predicate Leads(steps: Steps, states: seq<RunState>, i: nat, k: nat)
    requires k + 1 < |states|
  {
    steps(states[k], i + k) == Next(states[k + 1])
  }

  /** Iteration `i` takes the first state to the second, the next one that to the third, and so on. */
  ghost predicate AllLead(steps: Steps, states: seq<RunState>, i: nat) {
    forall k :: 0 <= k < |states| - 1 ==> Leads(steps, states, i, k)
  }

  /** How a run of at most `max` iterations ends that has come to `last` before iteration `n`. */
  ghost predicate EndsAs(steps: Steps, last: RunState, n: nat, max: nat, out: StepOut) {
    && n <= max && out.Stop?
    && if n == max then
         out.ending == Saved(MAX_ITERATIONS) &&
             out.st.messages == last.messages + [Message("assistant", Plain(MAX_ITERATIONS))]
       else steps(last, n) == out
  }

  /** The states of a run that starts with `st` before iteration `i`. */
  ghost predicate AreStates(steps: Steps, st: RunState, i: nat, max: nat, states: seq<RunState>, out: StepOut) {
    && states != [] && states[0] == st && AllLead(steps, states, i)
    && EndsAs(steps, states[|states| - 1], i + |states| - 1, max, out)
  }

  lemma {:induction false} StatesCons(steps: Steps, st: RunState, i: nat, max: nat, next: RunState,
                                      later: seq<RunState>,
                                      out: StepOut)
    requires steps(st, i) == Next(next) && AreStates(steps, next, i + 1, max, later, out)
    ensures AreStates(steps, st, i, max, [st] + later, out)
  {
    var states := [st] + later;
    forall k | 0 <= k < |states| - 1
      ensures Leads(steps, states, i, k)
    {
      if k > 0 { assert Leads(steps, later, i + 1, k - 1); }
    }
    assert states[|states| - 1] == later[|later| - 1];
  }

  lemma {:induction false} OneTurn(s: Settings, approved: bool, st: RunState, turns: nat -> Turn, i: nat)
    requires i <= s.maxToolIterations
    ensures var steps, out := StepsOf(s, approved, turns), RunTurns(s, approved, st, turns, i);
            if i < s.maxToolIterations && steps(st, i).Next?
               then out == RunTurns(s, approved, steps(st, i).st, turns, i + 1)
            else EndsAs(steps, st, i, s.maxToolIterations, out)
  {
  }

  ghost predicate IsTrace(s: Settings, approved: bool, st: RunState, turns: nat -> Turn, i: nat,
                          states: seq<RunState>) {
    && i <= s.maxToolIterations
    && AreStates(StepsOf(s, approved, turns), st, i, s.maxToolIterations, states, RunTurns(s, approved, st, turns, i))
  }

  lemma {:induction false} TraceCons(s: Settings, approved: bool, st: RunState, turns: nat -> Turn, i: nat,
                                     next: RunState,
                                     later: seq<RunState>)
    requires i < s.maxToolIterations && StepsOf(s, approved, turns)(st, i) == Next(next)
    requires IsTrace(s, approved, next, turns, i + 1, later)
    ensures IsTrace(s, approved, st, turns, i, [st] + later)
  {
    OneTurn(s, approved, st, turns, i);
    StatesCons(StepsOf(s, approved, turns), st, i, s.maxToolIterations, next, later,
        RunTurns(s, approved, st, turns, i));
  }

  lemma {:induction false} TraceEnd(s: Settings, approved: bool, st: RunState, turns: nat -> Turn, i: nat)
    requires i <= s.maxToolIterations && (i < s.maxToolIterations ==> StepsOf(s, approved, turns)(st, i).Stop?)
    ensures IsTrace(s, approved, st, turns, i, [st])
  {
    OneTurn(s, approved, st, turns, i);
  }

  /** A run is its iterations one after the other, until one stops it or their number is reached. */
  lemma {:induction false} RunIsTurnByTurn(s: Settings, approved: bool, st: RunState, turns: nat -> Turn, i: nat)
    returns (states: seq<RunState>)
    requires i <= s.maxToolIterations
    ensures IsTrace(s, approved, st, turns, i, states)
    decreases s.maxToolIterations - i
  {
    states := [st];
    var steps := StepsOf(s, approved, turns);
    if i < s.maxToolIterations && steps(st, i).Next? {
      var later := RunIsTurnByTurn(s, approved, steps(st, i).st, turns, i + 1);
      TraceCons(s, approved, st, turns, i, steps(st, i).st, later);
      states := states + later;
    } else {
      TraceEnd(s, approved, st, turns, i);
    }
  }

  // ----- what the model is asked about -----

  /** A new message that is neither aborted nor a slash command. */
  function IsNew(): DbMessage -> bool {
    (m: DbMessage) => !m.aborted && !IsSlashCommandText(m.message.content)
  }

  function NewText(): DbMessage -> string {
    (m: DbMessage) => FormatUserMessage(m.message.sender, m.message.content)
  }

  /** Texts put behind a transcript: into its last message when that is a text of the user, else as a message of
      their own. */
  function WithTexts(ms: seq<Message>, texts: seq<string>): seq<Message> {
    if texts == [] then ms
    else if EndsInUserText(ms) then
      ms[..|ms| - 1] + [Message("user", Plain(Join([ms[|ms| - 1].content.text] + texts, "\n")))]
    else ms + [Message("user", Plain(Join(texts, "\n")))]
  }

  lemma {:induction false} OneMoreText(ms: seq<Message>, first: string, rest: seq<string>)
    ensures WithTexts(AppendUserText(ms, first), rest) == WithTexts(ms, [first] + rest)
  {
    var next := AppendUserText(ms, first);
    JoinCons(first, rest, "\n");
    if EndsInUserText(ms) {
      var t := ms[|ms| - 1].content.text;
      JoinCons(t, [first] + rest, "\n");
      JoinCons(t + "\n" + first, rest, "\n");
      ConcatAssoc(t + "\n", first, "\n");
      ConcatAssoc(t + "\n", first + "\n", Join(rest, "\n"));
      assert next[..|next| - 1] == ms[..|ms| - 1];
    } else {
      assert next[..|next| - 1] == ms;
    }
  }

  lemma {:induction false} AppendedFrom(ms: seq<Message>, news: seq<DbMessage>, i: nat)
    requires i <= |news|
    ensures AppendNew(ms, news[i..]) == WithTexts(ms, PickFrom(news, i, IsNew(), NewText()))
    decreases |news| - i
  {
    if i < |news| {
      var m, later := news[i], PickFrom(news, i + 1, IsNew(), NewText());
      assert news[i..][0] == m && news[i..][1..] == news[i + 1..];
      var text := FormatUserMessage(m.message.sender, m.message.content);
      if m.aborted || IsSlashCommandText(m.message.content) {
        AppendedFrom(ms, news, i + 1);
        assert [] + later == later;
      } else {
        AppendedFrom(AppendUserText(ms, text), news, i + 1);
        OneMoreText(ms, text, later);
      }
    }
  }

  lemma {:induction false} TextsOfWith(ms: seq<Message>, texts: seq<string>)
    ensures Join(Texts(WithTexts(ms, texts)), "\n") == Join(Texts(ms) + texts, "\n")
  {
    if texts == [] {
      assert Texts(ms) + texts == Texts(ms);
    } else if EndsInUserText(ms) {
      var pre, t := ms[..|ms| - 1], ms[|ms| - 1].content.text;
      assert Texts(ms) == Texts(pre) + [t];
      ConcatAssoc(Texts(pre), [t], texts);
      JoinFlatten(Texts(pre), [t] + texts, "\n");
      assert Texts(WithTexts(ms, texts)) == Texts(pre) + [Join([t] + texts, "\n")];
    } else {
      JoinFlatten(Texts(ms), texts, "\n");
      assert Texts(WithTexts(ms, texts)) == Texts(ms) + [Join(texts, "\n")];
    }
  }

  /** Resuming a session loses nothing: behind the stripped session come the formatted texts of exactly the new messages
      that are neither aborted nor slash commands, in order, in the last message of the user or one of their own. All
      other messages stay as they are. */
  lemma {:induction false} ResumedMeans(session: Option<seq<Message>>, req: Request) returns (texts: seq<string>)
    requires session.Some? && StripAll(session.value) != []
    ensures Picked(req.newMessages, IsNew(), NewText(), texts)
    ensures var stripped, loaded := StripAll(session.value), Loaded(session, req);
            var n := |stripped|;
            && Join(Texts(loaded), "\n") == Join(Texts(stripped) + texts, "\n")
            && (texts == [] ==> loaded == stripped)
            && (texts != [] && EndsInUserText(stripped) ==>
                  loaded == stripped[..n - 1] +
                      [Message("user", Plain(Join([stripped[n - 1].content.text] + texts, "\n")))])
            && (texts != [] && !EndsInUserText(stripped) ==>
                  loaded == stripped + [Message("user", Plain(Join(texts, "\n")))])
  {
    var news := req.newMessages;
    texts := PickFrom(news, 0, IsNew(), NewText());
    PickIsPicked(news, IsNew(), NewText());
    AppendedFrom(StripAll(session.value), news, 0);
    assert news[0..] == news;
    TextsOfWith(StripAll(session.value), texts);
  }

  /** A message of the history that is converted: the bot's, or a user's that is neither aborted nor a slash command. */
  function IsLoaded(): DbMessage -> bool {
    (m: DbMessage) => m.message.fromBot || (!m.aborted && !IsSlashCommandText(m.message.content))
  }

  function ItsMessage(): DbMessage -> H.StoredMessage {
    (m: DbMessage) => m.message
  }

  lemma {:induction false} UnabortedFrom(history: seq<DbMessage>, i: nat)
    requires i <= |history|
    ensures Unaborted(history[i..]) == PickFrom(history, i, IsLoaded(), ItsMessage())
    decreases |history| - i
  {
    if i < |history| {
      assert history[i..][1..] == history[i + 1..];
      UnabortedFrom(history, i + 1);
    }
  }

  /** Without a session, or when nothing of it is left, the history is converted. */
  lemma {:induction false} FreshMeans(session: Option<seq<Message>>, req: Request)
    returns (messages: seq<H.StoredMessage>)
    requires session.Some? ==> StripAll(session.value) == []
    ensures Picked(req.history, IsLoaded(), ItsMessage(), messages) && Loaded(session, req) == H.Converted(messages)
  {
    messages := Unaborted(req.history);
    UnabortedFrom(req.history, 0);
    assert req.history[0..] == req.history;
    PickIsPicked(req.history, IsLoaded(), ItsMessage());
  }

  /** The prompt of the scheduler comes last, and an image is put in front of the text of the last message when that is
      the user's; in place of its blocks, if it has any. */
  lemma {:induction false} PreparedMeans(session: Option<seq<Message>>, req: Request) returns (asked: seq<Message>)
    ensures asked == if req.prompt.None? then Loaded(session, req)
                     else Loaded(session, req) + [Message("user", Plain("[scheduler]: " + req.prompt.value))]
    ensures var prepared, n := Prepared(session, req), |asked|;
            if req.image.None? || n == 0 || asked[n - 1].role != "user" then prepared == asked
            else
              && |prepared| == n && prepared[..n - 1] == asked[..n - 1] && prepared[n - 1].role == "user"
              && prepared[n - 1].content ==
                 if asked[n - 1].content.Plain? && asked[n - 1].content.text != "" then
                   Blocks([Image(req.image.value), TextBlock(asked[n - 1].content.text)])
                 else Blocks([Image(req.image.value)])
  {
    asked := WithPrompt(Loaded(session, req), req.prompt);
    if req.image.Some? && asked != [] && asked[|asked| - 1].role == USER {
      var content := asked[|asked| - 1].content;
      if content.Plain? && content.text != "" {
        assert [Image(req.image.value)] + [TextBlock(content.text)] ==
               [Image(req.image.value), TextBlock(content.text)];
      }
    }
  }

  /** Compaction leaves short transcripts alone; a longer one is compressed from three messages on, down to a tail of
      twenty thousand tokens, with results over 200 bytes cleared. */
  lemma {:induction false} CompactionMeans(s: Settings, ms: seq<Message>, summarizer: Option<C.Summarizer>)
    ensures |ms| <= s.maxSessionMessages || |ms| <= s.compactKeepRecent || summarizer.None? ==>
              AfterCompaction(s, ms, summarizer) == Some(ms)
    ensures |ms| > s.maxSessionMessages && |ms| > s.compactKeepRecent && summarizer.Some? ==>
              match C.CompressSpec(C.CompressorConfig(20_000, 3, 200), None, ms, summarizer.value)
              case Unchanged => AfterCompaction(s, ms, summarizer) == Some(ms)
              case CutInsideCharacter => AfterCompaction(s, ms, summarizer) == None
              case FellBack(tail) => AfterCompaction(s, ms, summarizer) == Some(tail)
              case Compacted(_, compacted) => AfterCompaction(s, ms, summarizer) == Some(compacted)
  {
  }

  // ----- what is saved -----

  /** A block as it is saved: an image is replaced by a note, everything else stays. */
  predicate SavedBlock(b: Block, b': Block) {
    if b.Image? then b' == TextBlock("[image was sent]") else b' == b
  }

  predicate SavedMessage(m: Message, m': Message) {
    && m'.role == m.role
    && (m.content.Plain? ==> m' == m)
    && (m.content.Blocks? ==>
          && m'.content.Blocks? && |m'.content.blocks| == |m.content.blocks|
          && forall k :: 0 <= k < |m.content.blocks| ==> SavedBlock(m.content.blocks[k], m'.content.blocks[k]))
  }

  predicate HasImage(m: Message) {
    m.content.Blocks? && exists k :: 0 <= k < |m.content.blocks| && m.content.blocks[k].Image?
  }

  lemma {:induction false} SavedBlocksMean(blocks: seq<Block>)
    ensures |StripImageBlocks(blocks)| == |blocks|
    ensures forall k :: 0 <= k < |blocks| ==> SavedBlock(blocks[k], StripImageBlocks(blocks)[k])
  {
    if blocks != [] { SavedBlocksMean(blocks[1..]); }
  }

  lemma {:induction false} SavedMessagesMean(ms: seq<Message>)
    ensures |StripImages(ms)| == |ms|
    ensures forall i :: 0 <= i < |ms| ==> SavedMessage(ms[i], StripImages(ms)[i]) && !HasImage(StripImages(ms)[i])
  {
    if ms != [] {
      if ms[0].content.Blocks? { SavedBlocksMean(ms[0].content.blocks); }
      SavedMessagesMean(ms[1..]);
    }
  }

  /** A request that is saved saves what was prepared, compacted or not, and what the run added, with notes in place of
      images. One that is not saved leaves the session alone. */
  lemma {:induction false} SavedMeans(s: Settings, session: Option<seq<Message>>, req: Request)
    returns (run: seq<Message>)
    ensures var saved, ending := ProcessSpec(s, session, req).0, ProcessSpec(s, session, req).1;
            if Persists(ending) then
              var ms := AfterCompaction(s, Prepared(session, req), req.summarizer);
              && ms.Some? && Extends(run, ms.value)
              && run == RunTurns(s, req.approved, Start(ms.value), req.turns, 0).st.messages
              && saved.Some? && |saved.value| == |run|
              && (forall i :: 0 <= i < |run| ==> SavedMessage(run[i], saved.value[i]) && !HasImage(saved.value[i]))
            else saved == session
  {
    run := [];
    if Persists(ProcessSpec(s, session, req).1) {
      var ms := AfterCompaction(s, Prepared(session, req), req.summarizer).value;
      run := RunTurns(s, req.approved, Start(ms), req.turns, 0).st.messages;
      RunShape(s, req.approved, Start(ms), req.turns, 0);
      SavedMessagesMean(run);
    }
  }
}
