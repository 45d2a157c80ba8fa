/** The agent's request processing of `src/agent_engine.rs`: load the transcript, run the tool-use loop, save it.
    Model answers, hook verdicts and tool outputs are arbitrary inputs. */
module AgentEngine {
  import opened Wrappers
  import opened Text
  import opened Transcript
  import opened AgentText
  import H = History
  import C = Compressor

  // ----- what the outside world answers -----

  datatype ResponseBlock =
    | ResponseText(text: string)
    | ResponseToolUse(id: string, name: string, input: string)
    | ResponseOther

  /** `stop_reason`; an answer without one counts as the end of the turn. */
  datatype StopReason = EndTurn | MaxTokens | ToolCalls | OtherReason(name: string)

  datatype Response = Response(stopReason: StopReason, content: seq<ResponseBlock>)

  datatype ToolOutput = ToolOutput(content: string, isError: bool, errorType: Option<string>)

  datatype ResultPatch = ResultPatch(content: Option<string>, isError: Option<bool>, errorType: Option<string>)

  datatype AfterHook = Silent | AfterBlock(reason: string) | AfterAllow(patches: seq<ResultPatch>)

  /** Everything one tool call may meet: a blocking hook, the tool's output, its output when retried after
      an approval gate, and the hook that runs last. */
  datatype ToolScript = ToolScript(hasAttachment: bool, blocked: Option<string>,
                                   first: ToolOutput, retried: ToolOutput, after: AfterHook)

  /** One iteration: the verdict of the hook before the model, the model's answer (or an error), and a script
      for each tool call in the answer. */
  datatype Turn = Turn(hookBlock: Option<string>, answer: Option<Response>, scripts: nat -> ToolScript)

  datatype Settings = Settings(maxToolIterations: nat, maxSessionMessages: nat, compactKeepRecent: nat,
                               showThinking: bool, feishu: bool, confirmHighRisk: bool)

  /** A message from the database, and whether its source was aborted. */
  datatype DbMessage = DbMessage(message: H.StoredMessage, aborted: bool)

  datatype Request = Request(history: seq<DbMessage>, newMessages: seq<DbMessage>, prompt: Option<string>,
                             image: Option<string>, approved: bool, summarizer: Option<C.Summarizer>,
                             turns: nat -> Turn)

  datatype Ending =
    | NoMessages        // nothing to process
    | Crashed           // the compressor's truncation panicked
    | HookBlocked(text: string)
    | ModelFailed
    | Saved(text: string)
    | Waiting(tool: string)   // saved, with the call of `tool` waiting for approval

  predicate Persists(ending: Ending) {
    ending.Saved? || ending.Waiting?
  }

  // ----- one tool call -----

  const SEND := "send_message"
  const APPROVAL := "approval_required"
  // The notices to the model and the user, shortened: only where they are put matters here.
  const MALFORMED := "Malformed tool call"
  const TOO_MANY_SENDS := "send_message blocked"
  const FEISHU_TEXT := "send_message disabled"

  function Blank(s: string): bool {
    Trim(s) == ""
  }

  function Patched(out: ToolOutput, patches: seq<ResultPatch>): ToolOutput
    decreases |patches|
  {
    if patches == [] then out
    else
      var p := patches[0];
      Patched(ToolOutput(if p.content.Some? then p.content.value else out.content,
                         if p.isError.Some? then p.isError.value else out.isError,
                         if p.errorType.Some? then p.errorType else out.errorType), patches[1..])
  }

  function AfterTool(out: ToolOutput, hook: AfterHook): ToolOutput {
    match hook
    case Silent => out
    case AfterBlock(reason) =>
      ToolOutput(if Blank(reason) then out.content else reason, true,
                 if out.errorType.None? then Some("hook_blocked") else out.errorType)
    case AfterAllow(patches) => Patched(out, patches)
  }

  /** The result block, whether the call waits for approval, whether it reached the tool, and the new count
      of consecutive send_message calls. */
  datatype ToolStep = ToolStep(result: Block, waiting: bool, executed: bool, sends: nat)

  function ToolStepOf(s: Settings, approved: bool, sends: nat, id: string, name: string, script: ToolScript): ToolStep {
    var kept := if name == SEND then sends else 0;
    if Blank(name) then ToolStep(ToolResult(id, MALFORMED, true), false, false, sends)
    else if name == SEND && sends >= 3 then ToolStep(ToolResult(id, TOO_MANY_SENDS, true), false, false, sends)
    else if name == SEND && s.feishu && !script.hasAttachment then
      ToolStep(ToolResult(id, FEISHU_TEXT, true), false, false, kept)
    else if script.blocked.Some? then
      var reason := script.blocked.value;
      ToolStep(ToolResult(id, if Blank(reason) then "tool '" + name + "' blocked by policy hook" else reason, true),
               false, false, kept)
    else
      var gated := script.first.isError && script.first.errorType == Some(APPROVAL);
      var mayRetry := !s.confirmHighRisk || approved;
      var out := AfterTool(if gated && mayRetry then script.retried else script.first, script.after);
      ToolStep(ToolResult(id, out.content, out.isError), gated && !mayRetry, true,
               if name == SEND then kept + 1 else kept)
  }

  method ExecuteSingleTool(s: Settings, approved: bool, sends: nat, id: string, name: string, script: ToolScript)
    returns (step: ToolStep)
    ensures step == ToolStepOf(s, approved, sends, id, name, script)
  {
    if Blank(name) {
      return ToolStep(ToolResult(id, MALFORMED, true), false, false, sends);
    }
    var consecutive := sends;
    if name != SEND {
      consecutive := 0;
    } else if consecutive >= 3 {
      return ToolStep(ToolResult(id, TOO_MANY_SENDS, true), false, false, consecutive);
    }
    if name == SEND && s.feishu && !script.hasAttachment {
      return ToolStep(ToolResult(id, FEISHU_TEXT, true), false, false, consecutive);
    }
    if script.blocked.Some? {
      var reason := script.blocked.value;
      if Blank(reason) { reason := "tool '" + name + "' blocked by policy hook"; }
      return ToolStep(ToolResult(id, reason, true), false, false, consecutive);
    }

    var result, waiting := script.first, false;
    if result.isError && result.errorType == Some(APPROVAL) {
      var canRetryWithApproval := if s.confirmHighRisk then approved else true;
      if canRetryWithApproval {
        result := script.retried;
      } else if s.confirmHighRisk {
        waiting := true;
      }
    }
    match script.after {
      case Silent =>
      case AfterBlock(reason) =>
        result := result.(isError := true);
        if !Blank(reason) { result := result.(content := reason); }
        if result.errorType.None? { result := result.(errorType := Some("hook_blocked")); }
      case AfterAllow(patches) =>
        ghost var raw := result;
        for i := 0 to |patches|
          invariant Patched(result, patches[i..]) == Patched(raw, patches)
        {
          var p := patches[i];
          assert patches[i..][0] == p && patches[i..][1..] == patches[i + 1..];
          result := ToolOutput(if p.content.Some? then p.content.value else result.content,
                               if p.isError.Some? then p.isError.value else result.isError,
                               if p.errorType.Some? then p.errorType else result.errorType);
        }
    }
    if name == SEND { consecutive := consecutive + 1; }
    return ToolStep(ToolResult(id, result.content, result.isError), waiting, true, consecutive);
  }

  // ----- all tool calls of one answer -----

  datatype CallMark = CallMark(name: string, executed: bool)

  datatype ToolRun = ToolRun(results: seq<Block>, waitingTool: Option<string>, sends: nat, calls: seq<CallMark>)

  function RunTools(s: Settings, approved: bool, run: ToolRun, blocks: seq<ResponseBlock>,
                    scripts: nat -> ToolScript): ToolRun
    decreases |blocks|
  {
    if blocks == [] then run
    else RunTools(s, approved, RunBlock(s, approved, run, blocks[0], scripts), blocks[1..], scripts)
  }

  function RunBlock(s: Settings, approved: bool, run: ToolRun, block: ResponseBlock,
                    scripts: nat -> ToolScript): ToolRun {
    match block
    case ResponseToolUse(id, name, _) =>
      var step := ToolStepOf(s, approved, run.sends, id, name, scripts(|run.results|));
      ToolRun(run.results + [step.result], if step.waiting then Some(name) else run.waitingTool,
              step.sends, run.calls + [CallMark(name, step.executed)])
    case _ => run
  }

  // ----- reading an answer -----

  function AnswerTexts(blocks: seq<ResponseBlock>): seq<string> {
    if blocks == [] then []
    else if blocks[0].ResponseText? then [blocks[0].text] + AnswerTexts(blocks[1..])
    else AnswerTexts(blocks[1..])
  }

  function AnswerText(r: Response): string {
    Join(AnswerTexts(r.content), "")
  }

  function CallParts(blocks: seq<ResponseBlock>): seq<string> {
    if blocks == [] then []
    else if blocks[0].ResponseToolUse? then [blocks[0].name + ":" + blocks[0].input] + CallParts(blocks[1..])
    else CallParts(blocks[1..])
  }

  function Fingerprint(blocks: seq<ResponseBlock>): Option<string> {
    if CallParts(blocks) == [] then None else Some(Join(CallParts(blocks), "|"))
  }

  function AssistantBlocks(blocks: seq<ResponseBlock>): seq<Block> {
    if blocks == [] then []
    else
      var rest := AssistantBlocks(blocks[1..]);
      match blocks[0]
      case ResponseText(t) => [TextBlock(t)] + rest
      case ResponseToolUse(id, name, input) => [ToolUse(id, name, input)] + rest
      case ResponseOther => rest
  }

  /** What comes after the first closing tag, or nothing when there is none. */
  function AfterClose(s: string, close: string): (r: string)
    requires close != ""
    ensures |r| <= |s| && r == s[|s| - |r|..] && (s != "" ==> |r| < |s|)
  {
    match Find(s, close)
    case None => ""
    case Some(end) => s[end + |close|..]
  }

  function StripTag(input: string, open: string, close: string): string
    requires open != "" && close != ""
    decreases |input|
  {
    match Find(input, open)
    case None => input
    case Some(start) => input[..start] + StripTag(AfterClose(input[start..], close), open, close)
  }

  /** `a` is what is left of `b` when some of its characters are taken out. */
  predicate Subsequence(a: string, b: string) {
    a == "" || (b != "" && ((a[0] == b[0] && Subsequence(a[1..], b[1..])) || Subsequence(a, b[1..])))
  }

  lemma {:induction false} TakenOut(a: string, gap: string, b: string)
    requires Subsequence(a, b)
    ensures Subsequence(a, gap + b)
  {
    if gap == "" {
      assert gap + b == b;
    } else {
      TakenOut(a, gap[1..], b);
      assert (gap + b)[1..] == gap[1..] + b;
    }
  }

  lemma {:induction false} PutBefore(kept: string, a: string, b: string)
    requires Subsequence(a, b)
    ensures Subsequence(kept + a, kept + b)
  {
    if kept == "" {
      assert kept + a == a && kept + b == b;
    } else {
      PutBefore(kept[1..], a, b);
      assert (kept + a)[1..] == kept[1..] + a && (kept + b)[1..] == kept[1..] + b;
    }
  }

  /** What comes before the first block, the block itself, and what comes after it. */
  lemma TagCases(input: string, open: string, close: string) returns (kept: string, gap: string, later: string)
    requires open != "" && close != ""
    ensures input == kept + gap + later && StripTag(input, open, close) == kept + StripTag(later, open, close)
    ensures gap == "" <==> !Contains(input, open)
    ensures gap == "" ==> later == "" && StripTag(later, open, close) == ""
  {
    assert "" == StripTag("", open, close);
    match Find(input, open)
    case None =>
      kept, gap, later := input, "", "";
      NothingAdded(input);
    case Some(start) =>
      var rest := input[start..];
      kept, later := input[..start], AfterClose(rest, close);
      gap := rest[..|rest| - |later|];
      assert input == kept + rest && rest == gap + later;
      ConcatAssoc(kept, gap, later);
  }

  /** Stripping tags only takes text out, and takes some out exactly when there is an opening tag. */
  lemma {:induction false} StripTagTakesOut(input: string, open: string, close: string)
    requires open != "" && close != ""
    ensures Subsequence(StripTag(input, open, close), input) && |StripTag(input, open, close)| <= |input|
    ensures StripTag(input, open, close) == input <==> !Contains(input, open)
    decreases |input|
  {
    var kept, gap, later := TagCases(input, open, close);
    if gap != "" { StripTagTakesOut(later, open, close); }
    TakenOut(StripTag(later, open, close), gap, later);
    PutBefore(kept, StripTag(later, open, close), gap + later);
    ConcatAssoc(kept, gap, later);
  }

  /** `result` so far and what is left of `rest` make up the whole. */
  ghost predicate StrippedTo(result: string, rest: string, open: string, close: string, whole: string)
    requires open != "" && close != ""
  {
    result + StripTag(rest, open, close) == whole
  }

  lemma StripNext(result: string, rest: string, start: nat, open: string, close: string, whole: string)
    requires open != "" && close != "" && Find(rest, open) == Some(start)
    requires StrippedTo(result, rest, open, close, whole)
    ensures StrippedTo(result + rest[..start], AfterClose(rest[start..], close), open, close, whole)
  {
    ConcatAssoc(result, rest[..start], StripTag(AfterClose(rest[start..], close), open, close));
  }

  lemma StripDone(result: string, rest: string, open: string, close: string, whole: string)
    requires open != "" && close != "" && StrippedTo(result, rest, open, close, whole) && Find(rest, open).None?
    ensures result + rest == whole
  {
  }

  lemma CloseInRest(rest: string, start: nat, close: string)
    requires close != "" && start <= |rest|
    ensures var end := Find(rest[start..], close);
            if end.Some? then start + end.value + |close| <= |rest|
                              && AfterClose(rest[start..], close) == rest[start + end.value + |close|..]
            else AfterClose(rest[start..], close) == ""
  {
  }

  method StripTagBlocks(input: string, open: string, close: string) returns (result: string)
    requires open != "" && close != ""
    ensures result == StripTag(input, open, close)
  {
    result := "";
    var rest := input;
    ghost var whole := StripTag(input, open, close);
    NothingAdded(whole);
    while Find(rest, open).Some?
      invariant StrippedTo(result, rest, open, close, whole)
      decreases |rest|
    {
      var start := Find(rest, open).value;
      StripNext(result, rest, start, open, close, whole);
      CloseInRest(rest, start, close);
      result := result + rest[..start];
      var end := Find(rest[start..], close);
      if end.Some? {
        rest := rest[start + end.value + |close|..];
      } else {
        rest := "";
        break;
      }
    }
    StripDone(result, rest, open, close, whole);
    result := result + rest;
  }

  method StripThinkingBlocks(text: string) returns (visible: string)
    ensures visible == StripThinking(text)
  {
    var noThink := StripTagBlocks(text, "<think>", "</think>");
    var noThought := StripTagBlocks(noThink, "<thought>", "</thought>");
    var noThinking := StripTagBlocks(noThought, "<thinking>", "</thinking>");
    var noReasoning := StripTagBlocks(noThinking, "<reasoning>", "</reasoning>");
    return Trim(noReasoning);
  }

  function StripThinking(text: string): string {
    Trim(StripTag(StripTag(StripTag(StripTag(text, "<think>", "</think>"), "<thought>", "</thought>"),
                           "<thinking>", "</thinking>"), "<reasoning>", "</reasoning>"))
  }

  // ----- one iteration of the loop -----

  const MAX_IDENTICAL: nat := 6
  const GUARD := "[runtime_guard]"
  const NO_CALLS := "no executable tool calls"
  const REPEATED := "repeated tool calls"
  const MAX_ITERATIONS := "maximum iterations"
  const BLOCKED := "blocked by policy hook"
  const LIMIT_REACHED := "output limit reached"
  const NO_REPLY := "no visible reply"

  /** What one model answer led to: its fingerprint when it asked for tools, whether the calls were run,
      whether the empty-reply guard was put in. */
  datatype Answer = Answer(fingerprint: Option<string>, executed: bool, guarded: bool)

  /** The variables of the loop, and a log of the answers and tool calls so far. */
  datatype RunState = RunState(messages: seq<Message>, lastFingerprint: Option<string>, streak: nat, sends: nat,
                               retried: bool, log: seq<Answer>, calls: seq<CallMark>)

  datatype StepOut = Next(st: RunState) | Stop(st: RunState, ending: Ending)

  function Push(st: RunState, m: Message): RunState {
    st.(messages := st.messages + [m])
  }

  function Log(st: RunState, a: Answer): RunState {
    st.(log := st.log + [a])
  }

  /** The final assistant message is added and the session saved. */
  function Finish(st: RunState, text: string, reply: string): StepOut {
    Stop(Push(st, AssistantText(text)), Saved(reply))
  }

  /** The streak of identical tool calls after an answer. */
  function NextStreak(st: RunState, fp: Option<string>): nat {
    if fp.None? then 0 else if fp == st.lastFingerprint then st.streak + 1 else 1
  }

  /** An answer that asks for tools. */
  function ToolAnswer(s: Settings, approved: bool, st: RunState, r: Response, scripts: nat -> ToolScript): StepOut {
    var fp := Fingerprint(r.content);
    var st1 := st.(streak := NextStreak(st, fp), lastFingerprint := fp);
    if st1.streak >= MAX_IDENTICAL then Finish(Log(st1, Answer(fp, false, false)), REPEATED, REPEATED)
    else if fp.None? then
      var final := if Blank(AnswerText(r)) then NO_CALLS else AnswerText(r);
      Finish(Log(st1, Answer(None, false, false)), final, final)
    else
      var run := RunTools(s, approved, ToolRun([], None, st.sends, st.calls), r.content, scripts);
      var st2 := ToolsDone(st1, r, run);
      if run.waitingTool.Some? then Stop(st2, Waiting(run.waitingTool.value)) else Next(st2)
  }

  /** The calls and their results are in the transcript. */
  function ToolsDone(st: RunState, r: Response, run: ToolRun): RunState {
    st.(messages := st.messages + [Message(ASSISTANT, Blocks(AssistantBlocks(r.content)))]
                    + [Message(USER, Blocks(run.results))],
        sends := run.sends, calls := run.calls, log := st.log + [Answer(Fingerprint(r.content), true, false)])
  }

  function Display(s: Settings, text: string): string {
    if s.showThinking then text else StripThinking(text)
  }

  function EndReply(display: string, reason: StopReason): string {
    if !Blank(display) then display else if reason == MaxTokens then LIMIT_REACHED else NO_REPLY
  }

  /** An answer that ends the turn, or has an unknown stop reason. */
  function TextAnswer(s: Settings, st: RunState, r: Response): StepOut {
    var text := AnswerText(r);
    var st1 := st.(streak := 0, lastFingerprint := None);
    if r.stopReason.OtherReason? then
      Finish(Log(st1, Answer(None, false, false)), text, if text == "" then "(no response)" else text)
    else if Blank(Display(s, text)) && !st.retried then
      Next(Log(Push(Push(st1.(retried := true), AssistantText(text)), UserText(GUARD)), Answer(None, false, true)))
    else Finish(Log(st1, Answer(None, false, false)), text, EndReply(Display(s, text), r.stopReason))
  }

  function TurnStep(s: Settings, approved: bool, st: RunState, turn: Turn): StepOut {
    if turn.hookBlock.Some? then
      Stop(st, HookBlocked(if Blank(turn.hookBlock.value) then BLOCKED else turn.hookBlock.value))
    else if turn.answer.None? then Stop(st, ModelFailed)
    else if turn.answer.value.stopReason == ToolCalls then ToolAnswer(s, approved, st, turn.answer.value, turn.scripts)
    else TextAnswer(s, st, turn.answer.value)
  }

  function RunTurns(s: Settings, approved: bool, st: RunState, turns: nat -> Turn, i: nat): (out: StepOut)
    requires i <= s.maxToolIterations
    ensures out.Stop?
    decreases s.maxToolIterations - i
  {
    if i == s.maxToolIterations then Finish(st, MAX_ITERATIONS, MAX_ITERATIONS)
    else
      match TurnStep(s, approved, st, turns(i))
      case Next(st') => RunTurns(s, approved, st', turns, i + 1)
      case Stop(st', ending) => Stop(st', ending)
  }

  function Start(messages: seq<Message>): RunState {
    RunState(messages, None, 0, 0, false, [], [])
  }

  // ----- loading and preparing the transcript -----

  /** New user messages are appended, into the last message when that is user text. */
  function AppendNew(ms: seq<Message>, news: seq<DbMessage>): seq<Message>
    decreases |news|
  {
    if news == [] then ms
    else if news[0].aborted || IsSlashCommandText(news[0].message.content) then AppendNew(ms, news[1..])
    else AppendNew(AppendUserText(ms, FormatUserMessage(news[0].message.sender, news[0].message.content)), news[1..])
  }

  function AppendUserText(ms: seq<Message>, content: string): seq<Message> {
    if ms != [] && ms[|ms| - 1].role == USER && ms[|ms| - 1].content.Plain? then
      ms[..|ms| - 1] + [UserText(ms[|ms| - 1].content.text + "\n" + content)]
    else ms + [UserText(content)]
  }

  /** The stored history without aborted user messages. */
  function Unaborted(history: seq<DbMessage>): seq<H.StoredMessage> {
    if history == [] then []
    else if Passes(history[0]) then [history[0].message] + Unaborted(history[1..])
    else Unaborted(history[1..])
  }

  predicate Passes(m: DbMessage) {
    m.message.fromBot || (!IsSlashCommandText(m.message.content) && !m.aborted)
  }

  function Loaded(session: Option<seq<Message>>, req: Request): seq<Message> {
    var resumed := if session.Some? then StripAll(session.value) else [];
    if resumed == [] then H.Converted(Unaborted(req.history)) else AppendNew(resumed, req.newMessages)
  }

  function WithPrompt(ms: seq<Message>, prompt: Option<string>): seq<Message> {
    if prompt.Some? then ms + [UserText("[scheduler]: " + prompt.value)] else ms
  }

  function InjectImage(ms: seq<Message>, image: Option<string>): seq<Message> {
    if image.None? || ms == [] || ms[|ms| - 1].role != USER then ms
    else
      var last := ms[|ms| - 1];
      var text := if last.content.Plain? then last.content.text else "";
      ms[..|ms| - 1] + [Message(USER, Blocks([Image(image.value)] + (if text != "" then [TextBlock(text)] else [])))]
  }

  const COMPACTION := C.CompressorConfig(20_000, 3, 200)

  /** The messages after compaction, or `None` where the compressor panics. */
  function AfterCompaction(s: Settings, ms: seq<Message>, summarizer: Option<C.Summarizer>): Option<seq<Message>> {
    if |ms| <= s.maxSessionMessages || |ms| <= s.compactKeepRecent || summarizer.None? then Some(ms)
    else
      match C.CompressSpec(COMPACTION, None, ms, summarizer.value)
      case Unchanged => Some(ms)
      case CutInsideCharacter => None
      case FellBack(tail) => Some(tail)
      case Compacted(_, compacted) => Some(compacted)
  }

  function Prepared(session: Option<seq<Message>>, req: Request): seq<Message> {
    InjectImage(WithPrompt(Loaded(session, req), req.prompt), req.image)
  }

  function StripImages(ms: seq<Message>): seq<Message> {
    if ms == [] then []
    else [if ms[0].content.Blocks? then ms[0].(content := Blocks(StripImageBlocks(ms[0].content.blocks))) else ms[0]]
         + StripImages(ms[1..])
  }

  function StripImageBlocks(blocks: seq<Block>): seq<Block> {
    if blocks == [] then []
    else [StripImageBlock(blocks[0])] + StripImageBlocks(blocks[1..])
  }

  function StripImageBlock(b: Block): Block {
    if b.Image? then TextBlock("[image was sent]") else b
  }

  /** A whole request: the saved session afterwards, and how the request ended. */
  function ProcessSpec(s: Settings, session: Option<seq<Message>>, req: Request): (Option<seq<Message>>, Ending) {
    var prepared := Prepared(session, req);
    if prepared == [] then (session, NoMessages)
    else
      var ms := AfterCompaction(s, prepared, req.summarizer);
      if ms.None? then (session, Crashed)
      else
        var out := RunTurns(s, req.approved, Start(ms.value), req.turns, 0);
        (if Persists(out.ending) then Some(StripImages(out.st.messages)) else session, out.ending)
  }

  class AgentEngine {
    const settings: Settings
    var session: Option<seq<Message>>

    method Process(req: Request) returns (ending: Ending)
      modifies this
      ensures (session, ending) == ProcessSpec(settings, old(session), req)
    {
      var messages := LoadMessages(req);
      if req.prompt.Some? {
        messages := messages + [UserText("[scheduler]: " + req.prompt.value)];
      }
      messages := InjectImage(messages, req.image);
      if messages == [] { return NoMessages; }
      var compacted := AfterCompaction(settings, messages, req.summarizer);
      if compacted.None? { return Crashed; }
      messages, ending := RunLoop(compacted.value, req);
      if Persists(ending) { session := Some(StripImages(messages)); }
    }

    method LoadMessages(req: Request) returns (messages: seq<Message>)
      ensures messages == Loaded(session, req)
    {
      messages := [];
      if session.Some? { messages := StripSlashCommandUserLines(session.value); }
      if messages == [] {
        messages := LoadMessagesFromDb(req.history);
        return;
      }
      ghost var resumed := messages;
      for i := 0 to |req.newMessages|
        invariant AppendNew(messages, req.newMessages[i..]) == AppendNew(resumed, req.newMessages)
      {
        var stored := req.newMessages[i];
        assert req.newMessages[i..][0] == stored && req.newMessages[i..][1..] == req.newMessages[i + 1..];
        if stored.aborted { continue; }
        if IsSlashCommandText(stored.message.content) { continue; }
        var content := FormatUserMessage(stored.message.sender, stored.message.content);
        messages := AppendUserText(messages, content);
      }
    }

    method LoadMessagesFromDb(history: seq<DbMessage>) returns (messages: seq<Message>)
      ensures messages == H.Converted(Unaborted(history))
    {
      var filtered: seq<H.StoredMessage> := [];
      for i := 0 to |history|
        invariant filtered + Unaborted(history[i..]) == Unaborted(history)
      {
        var m := history[i];
        assert history[i..][0] == m && history[i..][1..] == history[i + 1..];
        if !m.message.fromBot && IsSlashCommandText(m.message.content) { continue; }
        if !m.message.fromBot && m.aborted { continue; }
        ConcatAssoc(filtered, [m.message], Unaborted(history[i + 1..]));
        filtered := filtered + [m.message];
      }
      assert history[|history|..] == [] && filtered + [] == filtered;
      messages := H.HistoryToClaudeMessages(filtered);
    }

    /** The tool-use loop. */
    method RunLoop(start: seq<Message>, req: Request) returns (messages: seq<Message>, ending: Ending)
      ensures var out := RunTurns(settings, req.approved, Start(start), req.turns, 0);
              messages == out.st.messages && ending == out.ending
    {
      messages := start;
      var fingerprint: Option<string>, streak, sends, retried := None, 0, 0, false;
      ghost var st := Start(start);
      ghost var whole := RunTurns(settings, req.approved, st, req.turns, 0);
      for iteration := 0 to settings.maxToolIterations
        invariant Holds(st, messages, fingerprint, streak, sends, retried)
        invariant RunTurns(settings, req.approved, st, req.turns, iteration) == whole
      {
        var over: Option<Ending>;
        over, messages, fingerprint, streak, sends, retried :=
          Iterate(req.turns(iteration), req.approved, messages, fingerprint, streak, sends, retried, st);
        st := TurnStep(settings, req.approved, st, req.turns(iteration)).st;
        if over.Some? { return messages, over.value; }
      }
      return messages + [AssistantText(MAX_ITERATIONS)], Saved(MAX_ITERATIONS);
    }

    /** The loop variables are those of the state `st`. */
    ghost predicate Holds(st: RunState, messages: seq<Message>, fingerprint: Option<string>, streak: nat, sends: nat,
                          retried: bool) {
      && st.messages == messages && st.lastFingerprint == fingerprint && st.streak == streak
      && st.sends == sends && st.retried == retried
    }

    /** The body of the loop: the new values of its variables, and the ending when the run is over. */
    method Iterate(turn: Turn, approved: bool, messages0: seq<Message>, lastToolUseFingerprint: Option<string>,
                   repeatedToolUseStreak: nat, consecutiveSendMessageCalls: nat, emptyVisibleReplyRetryAttempted: bool,
                   ghost st: RunState)
      returns (over: Option<Ending>, messages: seq<Message>, fingerprint: Option<string>, streak: nat, sends: nat,
               retried: bool)
      requires Holds(st, messages0, lastToolUseFingerprint, repeatedToolUseStreak, consecutiveSendMessageCalls,
                     emptyVisibleReplyRetryAttempted)
      ensures var step := TurnStep(settings, approved, st, turn);
              Holds(step.st, messages, fingerprint, streak, sends, retried)
              && over == if step.Stop? then Some(step.ending) else None
    {
      messages, fingerprint, streak := messages0, lastToolUseFingerprint, repeatedToolUseStreak;
      sends, retried := consecutiveSendMessageCalls, emptyVisibleReplyRetryAttempted;
      over := None;
      if turn.hookBlock.Some? {
        over := Some(HookBlocked(if Blank(turn.hookBlock.value) then BLOCKED else turn.hookBlock.value));
        return;
      }
      if turn.answer.None? {
        over := Some(ModelFailed);
        return;
      }
      var response := turn.answer.value;
      var text := AnswerText(response);

      if response.stopReason == ToolCalls {
        var currentFingerprint := Fingerprint(response.content);
        if currentFingerprint.Some? && currentFingerprint == fingerprint {
          streak := streak + 1;
        } else {
          streak := if currentFingerprint.Some? then 1 else 0;
        }
        fingerprint := currentFingerprint;
        if streak >= MAX_IDENTICAL {
          messages := messages + [AssistantText(REPEATED)];
          over := Some(Saved(REPEATED));
          return;
        }
      } else {
        fingerprint := None;
        streak := 0;
      }

      if response.stopReason == EndTurn || response.stopReason == MaxTokens {
        var again, finalText := DisplayReply(text, response.stopReason, retried);
        messages := messages + [AssistantText(text)];
        if again {
          retried := true;
          messages := messages + [UserText(GUARD)];
          return;
        }
        over := Some(Saved(finalText));
        return;
      }

      if response.stopReason == ToolCalls {
        if CallParts(response.content) == [] {
          var finalText := if Blank(text) then NO_CALLS else text;
          messages := messages + [AssistantText(finalText)];
          over := Some(Saved(finalText));
          return;
        }
        messages := messages + [Message(ASSISTANT, Blocks(AssistantBlocks(response.content)))];
        var run := ExecuteTools(response.content, turn.scripts, approved, sends, st.calls);
        sends := run.sends;
        messages := messages + [Message(USER, Blocks(run.results))];
        if run.waitingTool.Some? { over := Some(Waiting(run.waitingTool.value)); }
        return;
      }

      messages := messages + [AssistantText(text)];
      over := Some(Saved(if text == "" then "(no response)" else text));
    }

    /** What is shown at the end of a turn, or that the model is asked once more. */
    method DisplayReply(text: string, reason: StopReason, retried: bool) returns (again: bool, finalText: string)
      ensures again == (Blank(Display(settings, text)) && !retried)
      ensures finalText == EndReply(Display(settings, text), reason)
    {
      var visibleText := StripThinkingBlocks(text);
      var displayText := if settings.showThinking then text else visibleText;
      again := Blank(displayText) && !retried;
      finalText := if !Blank(displayText) then displayText else if reason == MaxTokens then LIMIT_REACHED else NO_REPLY;
    }

    /** The inner loop over the blocks of one answer. */
    method ExecuteTools(blocks: seq<ResponseBlock>, scripts: nat -> ToolScript, approved: bool, sends: nat,
                        ghost calls: seq<CallMark>)
      returns (run: ToolRun)
      ensures var spec := RunTools(settings, approved, ToolRun([], None, sends, calls), blocks, scripts);
              run.results == spec.results && run.waitingTool == spec.waitingTool && run.sends == spec.sends
    {
      run := ToolRun([], None, sends, []);
      ghost var spec := ToolRun([], None, sends, calls);
      for i := 0 to |blocks|
        invariant RunTools(settings, approved, spec, blocks[i..], scripts) ==
                  RunTools(settings, approved, ToolRun([], None, sends, calls), blocks, scripts)
        invariant run.results == spec.results && run.waitingTool == spec.waitingTool && run.sends == spec.sends
      {
        var block := blocks[i];
        assert blocks[i..][0] == block && blocks[i..][1..] == blocks[i + 1..];
        spec := RunBlock(settings, approved, spec, block, scripts);
        match block
        case ResponseToolUse(id, name, _) =>
          var single := ExecuteSingleTool(settings, approved, run.sends, id, name, scripts(|run.results|));
          run := run.(results := run.results + [single.result], sends := single.sends,
                      waitingTool := if single.waiting then Some(name) else run.waitingTool);
        case _ =>
      }
      assert blocks[|blocks|..] == [];
    }
  }

  // ----- tool pairing: every step of the loop -----

  lemma {:induction false} AssistantIds(blocks: seq<ResponseBlock>)
    ensures ResultIds(AssistantBlocks(blocks)) == []
    ensures |UseIds(AssistantBlocks(blocks))| == |CallParts(blocks)|
  {
    if blocks != [] { AssistantIds(blocks[1..]); }
  }

  lemma ResultIdsAppend(results: seq<Block>, b: Block)
    requires b.ToolResult?
    ensures ResultIds(results + [b]) == ResultIds(results) + [b.toolUseId]
    ensures UseIds(results + [b]) == UseIds(results)
    decreases |results|
  {
    if results == [] {
      assert results + [b] == [b] && [b][1..] == [];
    } else {
      ResultIdsAppend(results[1..], b);
      assert (results + [b])[1..] == results[1..] + [b];
    }
  }

  /** The results answer the calls one by one, in order, with their ids. */
  lemma {:induction false} ResultsAnswerCalls(s: Settings, approved: bool, run: ToolRun, blocks: seq<ResponseBlock>,
                                              scripts: nat -> ToolScript)
    requires UseIds(run.results) == []
    ensures var out := RunTools(s, approved, run, blocks, scripts);
            && ResultIds(out.results) == ResultIds(run.results) + UseIds(AssistantBlocks(blocks))
            && UseIds(out.results) == []
    decreases |blocks|
  {
    if blocks == [] {
      assert ResultIds(run.results) + [] == ResultIds(run.results);
    } else {
      var b := blocks[0];
      var run' := RunBlock(s, approved, run, b, scripts);
      if b.ResponseToolUse? {
        ResultIdsAppend(run.results, run'.results[|run.results|]);
        ConcatAssoc(ResultIds(run.results), [b.id], UseIds(AssistantBlocks(blocks[1..])));
      }
      ResultsAnswerCalls(s, approved, run', blocks[1..], scripts);
      if b.ResponseToolUse? {
        assert AssistantBlocks(blocks)[1..] == AssistantBlocks(blocks[1..]);
      }
    }
  }

  /** An answer with tool calls and its results are a pair. */
  lemma ToolTurnIsPaired(s: Settings, approved: bool, run: ToolRun, blocks: seq<ResponseBlock>,
                         scripts: nat -> ToolScript)
    requires run.results == []
    ensures Paired([Message(ASSISTANT, Blocks(AssistantBlocks(blocks))),
                    Message(USER, Blocks(RunTools(s, approved, run, blocks, scripts).results))])
  {
    AssistantIds(blocks);
    ResultsAnswerCalls(s, approved, run, blocks, scripts);
    var out := RunTools(s, approved, run, blocks, scripts);
    assert [] + UseIds(AssistantBlocks(blocks)) == UseIds(AssistantBlocks(blocks));
    var a, u := Message(ASSISTANT, Blocks(AssistantBlocks(blocks))), Message(USER, Blocks(out.results));
    assert [a, u][1..] == [u] && [u][1..] == [];
    assert RolesFit(a) && RolesFit(u);
    assert PairedFromTo(Uses(a), [u], []);
  }

  lemma PushTextKeepsPairing(st: RunState, m: Message)
    requires Paired(st.messages) && m.content.Plain?
    ensures Paired(Push(st, m).messages)
  {
    AppendToolless(st.messages, m);
  }

  lemma ToolAnswerKeepsPairing(s: Settings, approved: bool, st: RunState, r: Response, scripts: nat -> ToolScript)
    requires Paired(st.messages)
    ensures Paired(ToolAnswer(s, approved, st, r, scripts).st.messages)
  {
    var out := ToolAnswer(s, approved, st, r, scripts).st.messages;
    if |out| == |st.messages| + 2 {
      var run0 := ToolRun([], None, st.sends, st.calls);
      ToolTurnIsPaired(s, approved, run0, r.content, scripts);
      var a, u := Message(ASSISTANT, Blocks(AssistantBlocks(r.content))),
                  Message(USER, Blocks(RunTools(s, approved, run0, r.content, scripts).results));
      PairedConcat([], st.messages, [], [a, u], []);
      assert st.messages + [a, u] == st.messages + [a] + [u];
    } else {
      AppendToolless(st.messages, out[|st.messages|]);
    }
  }

  lemma TextAnswerKeepsPairing(s: Settings, st: RunState, r: Response)
    requires Paired(st.messages)
    ensures Paired(TextAnswer(s, st, r).st.messages)
  {
    PushTextKeepsPairing(st, AssistantText(AnswerText(r)));
    PushTextKeepsPairing(Push(st, AssistantText(AnswerText(r))), UserText(GUARD));
  }

  /** Whatever the model, the hooks and the tools do, an iteration keeps every tool use answered by the next message. */
  lemma TurnKeepsPairing(s: Settings, approved: bool, st: RunState, turn: Turn)
    requires Paired(st.messages)
    ensures Paired(TurnStep(s, approved, st, turn).st.messages)
  {
    if turn.hookBlock.None? && turn.answer.Some? {
      ToolAnswerKeepsPairing(s, approved, st, turn.answer.value, turn.scripts);
      TextAnswerKeepsPairing(s, st, turn.answer.value);
    }
  }

  lemma {:induction false} RunKeepsPairing(s: Settings, approved: bool, st: RunState, turns: nat -> Turn, i: nat)
    requires i <= s.maxToolIterations && Paired(st.messages)
    ensures Paired(RunTurns(s, approved, st, turns, i).st.messages)
    decreases s.maxToolIterations - i
  {
    if i == s.maxToolIterations {
      PushTextKeepsPairing(st, AssistantText(MAX_ITERATIONS));
    } else {
      TurnKeepsPairing(s, approved, st, turns(i));
      var step := TurnStep(s, approved, st, turns(i));
      if step.Next? { RunKeepsPairing(s, approved, step.st, turns, i + 1); }
    }
  }

  // ----- tool pairing: loading, preparing and saving -----

  lemma AppendTextKeepsPairing(ms: seq<Message>, content: string)
    requires Paired(ms)
    ensures Paired(AppendUserText(ms, content))
  {
    if ms != [] && ms[|ms| - 1].role == USER && ms[|ms| - 1].content.Plain? {
      DropLast(ms);
      AppendToolless(ms[..|ms| - 1], UserText(ms[|ms| - 1].content.text + "\n" + content));
    } else {
      AppendToolless(ms, UserText(content));
    }
  }

  lemma {:induction false} AppendNewKeepsPairing(ms: seq<Message>, news: seq<DbMessage>)
    requires Paired(ms)
    ensures Paired(AppendNew(ms, news))
    decreases |news|
  {
    if news != [] {
      var m := news[0].message;
      AppendTextKeepsPairing(ms, FormatUserMessage(m.sender, m.content));
      if news[0].aborted || IsSlashCommandText(m.content) {
        AppendNewKeepsPairing(ms, news[1..]);
      } else {
        AppendNewKeepsPairing(AppendUserText(ms, FormatUserMessage(m.sender, m.content)), news[1..]);
      }
    }
  }

  ghost predicate PairedSession(session: Option<seq<Message>>) {
    session.Some? ==> Paired(session.value)
  }

  lemma LoadedIsPaired(session: Option<seq<Message>>, req: Request)
    requires PairedSession(session)
    ensures Paired(WithPrompt(Loaded(session, req), req.prompt))
  {
    H.ConvertedIsPaired(Unaborted(req.history));
    if session.Some? {
      StripKeepsPairing([], session.value, []);
      AppendNewKeepsPairing(StripAll(session.value), req.newMessages);
    }
    if req.prompt.Some? {
      AppendToolless(Loaded(session, req), UserText("[scheduler]: " + req.prompt.value));
    }
  }

  /** An image keeps the pairing exactly when it is not put over tool results. */
  lemma ImageKeepsPairing(ms: seq<Message>, image: Option<string>)
    requires Paired(ms)
    ensures Paired(InjectImage(ms, image)) <==> image.None? || ms == [] || Results(ms[|ms| - 1]) == []
  {
    if image.Some? && ms != [] {
      var pre, last := ms[..|ms| - 1], ms[|ms| - 1];
      assert ms == pre + [last];
      PairedSplit([], pre, [last], []);
      if last.role == USER {
        var injected := InjectImage(ms, image)[|pre|];
        var text := if last.content.Plain? then last.content.text else "";
        ImageBlockIds(image.value, text);
        assert Toolless(injected) && InjectImage(ms, image) == pre + [injected];
        if Results(last) == [] {
          AppendToolless(pre, injected);
        } else if Paired(pre + [injected]) {
          PairedSplit([], pre, [injected], []);
        }
      }
    }
  }

  lemma ImageBlockIds(image: string, text: string)
    ensures var blocks := [Image(image)] + (if text != "" then [TextBlock(text)] else []);
            UseIds(blocks) == [] && ResultIds(blocks) == []
  {
    IdsCons(Image(image), if text != "" then [TextBlock(text)] else []);
    IdsCons(TextBlock(text), []);
    assert [TextBlock(text)] + [] == [TextBlock(text)];
  }

  lemma {:induction false} StripImageBlocksIds(blocks: seq<Block>)
    ensures UseIds(StripImageBlocks(blocks)) == UseIds(blocks) &&
            ResultIds(StripImageBlocks(blocks)) == ResultIds(blocks)
  {
    if blocks != [] {
      StripImageBlocksIds(blocks[1..]);
      IdsCons(StripImageBlock(blocks[0]), StripImageBlocks(blocks[1..]));
      IdsCons(blocks[0], blocks[1..]);
      assert blocks == [blocks[0]] + blocks[1..];
    }
  }

  lemma {:induction false} StripImagesKeepsPairing(open: seq<string>, ms: seq<Message>, left: seq<string>)
    requires PairedFromTo(open, ms, left)
    ensures PairedFromTo(open, StripImages(ms), left)
    decreases |ms|
  {
    if ms != [] {
      if ms[0].content.Blocks? { StripImageBlocksIds(ms[0].content.blocks); }
      StripImagesKeepsPairing(Uses(ms[0]), ms[1..], left);
    }
  }

  /** Compaction is harmless to the pairing: it does not happen, or its tail starts with no tool results
      when the summariser fails, or all ids differ and the seams are clean when it succeeds. */
  ghost predicate SafeCompaction(s: Settings, ms: seq<Message>, summarizer: Option<C.Summarizer>) {
    || |ms| <= s.maxSessionMessages || |ms| <= s.compactKeepRecent || summarizer.None?
    || match C.CompressSpec(COMPACTION, None, ms, summarizer.value)
       case FellBack(tail) => tail == [] || Results(tail[0]) == []
       case Compacted(_, _) => C.NoDuplicates(C.AllUses(ms)) && C.SeamsClean(C.SeamList(COMPACTION, ms))
       case _ => true
  }

  lemma CompactionIsPaired(s: Settings, ms: seq<Message>, summarizer: Option<C.Summarizer>)
    requires Paired(ms) && SafeCompaction(s, ms, summarizer) && AfterCompaction(s, ms, summarizer).Some?
    ensures Paired(AfterCompaction(s, ms, summarizer).value)
  {
    if !(|ms| <= s.maxSessionMessages || |ms| <= s.compactKeepRecent || summarizer.None?) {
      var outcome := C.CompressSpec(COMPACTION, None, ms, summarizer.value);
      if outcome.Compacted? { C.CompactionKeepsPairing(COMPACTION, None, ms, summarizer.value); }
      if outcome.FellBack? { FallbackIsPaired(ms); }
    }
  }

  /** After a failed summary the bare tail is paired exactly when it starts with no tool results. */
  lemma FallbackIsPaired(ms: seq<Message>)
    requires Paired(ms) && C.Compresses(COMPACTION, ms)
    ensures var tail := C.Tail(COMPACTION, ms); Paired(tail) <==> tail == [] || Results(tail[0]) == []
  {
    C.PartitionOfInput(COMPACTION, ms);
    var k := C.TailStart(ms, COMPACTION.tailTokenBudget);
    assert ms == ms[..k] + ms[k..];
    PairedSplit([], ms[..k], ms[k..], []);
  }

  /** What a request must avoid for its run to keep the pairing. */
  ghost predicate SafeRequest(s: Settings, session: Option<seq<Message>>, req: Request) {
    var loaded := WithPrompt(Loaded(session, req), req.prompt);
    && (req.image.Some? && loaded != [] ==> Results(loaded[|loaded| - 1]) == [])
    && SafeCompaction(s, Prepared(session, req), req.summarizer)
  }

  /** A run on a paired session saves a paired session. */
  lemma ProcessKeepsPairing(s: Settings, session: Option<seq<Message>>, req: Request)
    requires PairedSession(session) && SafeRequest(s, session, req)
    ensures PairedSession(ProcessSpec(s, session, req).0)
  {
    LoadedIsPaired(session, req);
    ImageKeepsPairing(WithPrompt(Loaded(session, req), req.prompt), req.image);
    var prepared := Prepared(session, req);
    var ms := AfterCompaction(s, prepared, req.summarizer);
    if prepared != [] && ms.Some? {
      CompactionIsPaired(s, prepared, req.summarizer);
      RunKeepsPairing(s, req.approved, Start(ms.value), req.turns, 0);
      StripImagesKeepsPairing([], RunTurns(s, req.approved, Start(ms.value), req.turns, 0).st.messages, []);
    }
  }

  /** The session after a list of requests, each run on what the one before it saved. */
  function ProcessAll(s: Settings, session: Option<seq<Message>>, reqs: seq<Request>): Option<seq<Message>>
    decreases |reqs|
  {
    if reqs == [] then session else ProcessAll(s, ProcessSpec(s, session, reqs[0]).0, reqs[1..])
  }

  ghost predicate AllSafe(s: Settings, session: Option<seq<Message>>, reqs: seq<Request>)
    decreases |reqs|
  {
    reqs != [] ==> SafeRequest(s, session, reqs[0]) && AllSafe(s, ProcessSpec(s, session, reqs[0]).0, reqs[1..])
  }

  /** Over every sequence of requests, and for any behaviour of models, hooks and tools, every saved session
      has each tool use answered by the next message, one result per use, same ids, same order. */
  lemma {:induction false} SessionsStayPaired(s: Settings, session: Option<seq<Message>>, reqs: seq<Request>)
    requires PairedSession(session) && AllSafe(s, session, reqs)
    ensures PairedSession(ProcessAll(s, session, reqs))
    decreases |reqs|
  {
    if reqs != [] {
      ProcessKeepsPairing(s, session, reqs[0]);
      SessionsStayPaired(s, ProcessSpec(s, session, reqs[0]).0, reqs[1..]);
    }
  }

  // ----- what a run leaves behind -----

  /** A run adds to the end of the transcript and changes nothing else. */
  ghost predicate Extends(out: seq<Message>, ms: seq<Message>) {
    |ms| <= |out| && out[..|ms|] == ms
  }

  /** The roles alternate and it is the assistant's turn. */
  ghost predicate AwaitsAnswer(ms: seq<Message>) {
    Alternates(ms) && (ms != [] ==> ms[|ms| - 1].role == USER)
  }

  /** The last message is the assistant's, or holds the results of a run stopped for approval. */
  ghost predicate EndsFor(ms: seq<Message>, ending: Ending) {
    Persists(ending) ==> ms != [] && ms[|ms| - 1].role == (if ending.Waiting? then USER else ASSISTANT)
  }

  /** What one iteration adds: nothing, an assistant message, or an assistant message and a user message. */
  ghost predicate Exchange(add: seq<Message>) {
    |add| <= 2 && (|add| > 0 ==> add[0].role == ASSISTANT) && (|add| > 1 ==> add[1].role == USER)
  }

  lemma ExchangeKeepsRoles(ms: seq<Message>, add: seq<Message>)
    requires Exchange(add) && UserAndAssistant(ms)
    ensures UserAndAssistant(ms + add)
  {
    assert forall m :: m in ms + add ==> m in ms || m in add;
  }

  lemma ExchangeKeepsShape(ms: seq<Message>, add: seq<Message>)
    requires Exchange(add)
    ensures Extends(ms + add, ms)
    ensures AwaitsAnswer(ms) ==> Alternates(ms + add) && (|add| != 1 ==> AwaitsAnswer(ms + add))
  {
  }

  lemma ToolAnswerAdds(s: Settings, approved: bool, st: RunState, r: Response, scripts: nat -> ToolScript)
    returns (add: seq<Message>)
    ensures var step := ToolAnswer(s, approved, st, r, scripts);
            && step.st.messages == st.messages + add && Exchange(add) && add != []
            && |add| == (if step.Stop? && !step.ending.Waiting? then 1 else 2)
            && (step.Stop? ==> Persists(step.ending))
  {
    var out := ToolAnswer(s, approved, st, r, scripts).st.messages;
    add := out[|st.messages|..];
    if |add| == 2 {
      ConcatAssoc(st.messages, [add[0]], [add[1]]);
    }
  }

  lemma TextAnswerAdds(s: Settings, st: RunState, r: Response) returns (add: seq<Message>)
    ensures var step := TextAnswer(s, st, r);
            && step.st.messages == st.messages + add && Exchange(add) && add != []
            && |add| == (if step.Stop? then 1 else 2)
            && (step.Stop? ==> step.ending.Saved?)
  {
    var out := TextAnswer(s, st, r).st.messages;
    add := out[|st.messages|..];
    if |add| == 2 {
      ConcatAssoc(st.messages, [add[0]], [add[1]]);
    }
  }

  lemma TurnAdds(s: Settings, approved: bool, st: RunState, turn: Turn) returns (add: seq<Message>)
    ensures var step := TurnStep(s, approved, st, turn);
            && step.st.messages == st.messages + add && Exchange(add)
            && (step.Next? ==> |add| == 2)
            && (step.Stop? && Persists(step.ending) ==> |add| == (if step.ending.Waiting? then 2 else 1))
  {
    if turn.hookBlock.Some? || turn.answer.None? {
      add := [];
    } else if turn.answer.value.stopReason == ToolCalls {
      add := ToolAnswerAdds(s, approved, st, turn.answer.value, turn.scripts);
    } else {
      add := TextAnswerAdds(s, st, turn.answer.value);
    }
  }

  /** The transcript given is still in place, the roles alternate if they did, and the end fits the ending. */
  ghost predicate ShapeKept(ms: seq<Message>, out: seq<Message>, ending: Ending) {
    && Extends(out, ms) && EndsFor(out, ending)
    && (AwaitsAnswer(ms) ==> Alternates(out)) && (UserAndAssistant(ms) ==> UserAndAssistant(out))
  }

  lemma StopKeepsShape(ms: seq<Message>, add: seq<Message>, ending: Ending)
    requires Exchange(add) && (Persists(ending) ==> |add| == (if ending.Waiting? then 2 else 1))
    ensures ShapeKept(ms, ms + add, ending)
  {
    ExchangeKeepsShape(ms, add);
    if UserAndAssistant(ms) { ExchangeKeepsRoles(ms, add); }
  }

  lemma NextKeepsShape(ms: seq<Message>, add: seq<Message>, out: seq<Message>, ending: Ending)
    requires Exchange(add) && |add| == 2 && ShapeKept(ms + add, out, ending)
    ensures ShapeKept(ms, out, ending)
  {
    ExchangeKeepsShape(ms, add);
    if UserAndAssistant(ms) { ExchangeKeepsRoles(ms, add); }
    assert out[..|ms|] == out[..|ms + add|][..|ms|];
  }

  /** A run leaves the transcript it was given in place, keeps the roles alternating, and ends on an assistant
      message unless a call waits for approval. */
  lemma {:induction false} RunShape(s: Settings, approved: bool, st: RunState, turns: nat -> Turn, i: nat)
    requires i <= s.maxToolIterations
    ensures var out := RunTurns(s, approved, st, turns, i); ShapeKept(st.messages, out.st.messages, out.ending)
    decreases s.maxToolIterations - i
  {
    if i == s.maxToolIterations {
      StopKeepsShape(st.messages, [AssistantText(MAX_ITERATIONS)], Saved(MAX_ITERATIONS));
    } else {
      var add := TurnAdds(s, approved, st, turns(i));
      var step := TurnStep(s, approved, st, turns(i));
      if step.Next? {
        RunShape(s, approved, step.st, turns, i + 1);
        var out := RunTurns(s, approved, step.st, turns, i + 1);
        NextKeepsShape(st.messages, add, out.st.messages, out.ending);
      } else {
        StopKeepsShape(st.messages, add, step.ending);
      }
    }
  }

  lemma {:induction false} StripImagesKeepsRoles(ms: seq<Message>)
    ensures |StripImages(ms)| == |ms| && forall i :: 0 <= i < |ms| ==> StripImages(ms)[i].role == ms[i].role
  {
    if ms != [] { StripImagesKeepsRoles(ms[1..]); }
  }

  lemma SameRoles(ms: seq<Message>, ms': seq<Message>)
    requires |ms'| == |ms| && forall i :: 0 <= i < |ms| ==> ms'[i].role == ms[i].role
    requires UserAndAssistant(ms)
    ensures UserAndAssistant(ms')
  {
    forall i | 0 <= i < |ms|
      ensures ms'[i].role == USER || ms'[i].role == ASSISTANT
    {
      assert ms[i] in ms;
    }
  }

  /** A saved session ends on an assistant message exactly when no call waits for approval. Its roles
      alternate when those of the prepared messages do, with or without compaction. */
  lemma SavedSessionShape(s: Settings, session: Option<seq<Message>>, req: Request)
    requires Persists(ProcessSpec(s, session, req).1)
    ensures var saved, ending := ProcessSpec(s, session, req).0, ProcessSpec(s, session, req).1;
            && saved.Some? && EndsFor(saved.value, ending)
            && (AwaitsAnswer(Prepared(session, req)) && UserAndAssistant(Prepared(session, req)) ==> Orderly(saved))
  {
    var prepared := Prepared(session, req);
    if AwaitsAnswer(prepared) && UserAndAssistant(prepared) { CompactionAwaits(s, prepared, req.summarizer); }
    RunSavedShape(s, req.approved, AfterCompaction(s, prepared, req.summarizer).value, req.turns);
  }

  /** A session whose roles are user and assistant, in turns. */
  ghost predicate Orderly(session: Option<seq<Message>>) {
    session.Some? ==> Alternates(session.value) && UserAndAssistant(session.value)
  }

  lemma RunSavedShape(s: Settings, approved: bool, ms: seq<Message>, turns: nat -> Turn)
    ensures var out := RunTurns(s, approved, Start(ms), turns, 0);
            && EndsFor(StripImages(out.st.messages), out.ending)
            && (AwaitsAnswer(ms) && UserAndAssistant(ms) ==> Orderly(Some(StripImages(out.st.messages))))
  {
    RunShape(s, approved, Start(ms), turns, 0);
    var out := RunTurns(s, approved, Start(ms), turns, 0).st.messages;
    StripImagesKeepsRoles(out);
    if UserAndAssistant(ms) { SameRoles(out, StripImages(out)); }
  }

  lemma CompactionAwaits(s: Settings, ms: seq<Message>, summarizer: Option<C.Summarizer>)
    requires AwaitsAnswer(ms) && UserAndAssistant(ms) && AfterCompaction(s, ms, summarizer).Some?
    ensures AwaitsAnswer(AfterCompaction(s, ms, summarizer).value) &&
            UserAndAssistant(AfterCompaction(s, ms, summarizer).value)
  {
    if !(|ms| <= s.maxSessionMessages || |ms| <= s.compactKeepRecent || summarizer.None?) {
      var outcome := C.CompressSpec(COMPACTION, None, ms, summarizer.value);
      if outcome.Compacted? { C.CompactionShape(COMPACTION, None, ms, summarizer.value); }
      if outcome.FellBack? { TailAwaits(ms); }
    }
  }

  lemma TailAwaits(ms: seq<Message>)
    requires AwaitsAnswer(ms) && UserAndAssistant(ms) && C.Compresses(COMPACTION, ms)
    ensures AwaitsAnswer(C.Tail(COMPACTION, ms)) && UserAndAssistant(C.Tail(COMPACTION, ms))
  {
    C.TailIsVerbatim(COMPACTION, ms);
    var k := C.TailStart(ms, COMPACTION.tailTokenBudget);
  }

  /** A first request, without a scheduler prompt, prepares messages that alternate and await an answer. */
  lemma FirstRequestAwaits(req: Request)
    requires req.prompt.None?
    ensures AwaitsAnswer(Prepared(None, req)) && UserAndAssistant(Prepared(None, req))
  {
    H.ConvertedShape(Unaborted(req.history));
  }

  predicate EndsInUserText(ms: seq<Message>) {
    ms != [] && ms[|ms| - 1].role == USER && ms[|ms| - 1].content.Plain?
  }

  /** As after a run that stopped for approval. */
  predicate EndsInUserBlocks(ms: seq<Message>) {
    ms != [] && ms[|ms| - 1].role == USER && ms[|ms| - 1].content.Blocks?
  }

  predicate Kept(m: DbMessage) {
    !m.aborted && !IsSlashCommandText(m.message.content)
  }

  lemma AppendTextAlternates(ms: seq<Message>, content: string)
    ensures EndsInUserText(AppendUserText(ms, content))
    ensures Alternates(AppendUserText(ms, content)) <==> Alternates(ms) && !EndsInUserBlocks(ms)
  {
    var out := AppendUserText(ms, content);
    assert forall i :: 0 <= i < |ms| ==> out[i].role == ms[i].role;
    if EndsInUserBlocks(ms) {
      assert out[|ms|].role == out[|ms| - 1].role;
    } else if Alternates(out) {
      assert forall i :: 0 < i < |ms| ==> ms[i].role == out[i].role;
    }
  }

  lemma {:induction false} AppendMoreAlternates(ms: seq<Message>, news: seq<DbMessage>)
    requires EndsInUserText(ms)
    ensures Alternates(AppendNew(ms, news)) <==> Alternates(ms)
    ensures EndsInUserText(AppendNew(ms, news))
    decreases |news|
  {
    if news != [] {
      var content := FormatUserMessage(news[0].message.sender, news[0].message.content);
      AppendTextAlternates(ms, content);
      AppendMoreAlternates(if Kept(news[0]) then AppendUserText(ms, content) else ms, news[1..]);
    }
  }

  predicate SomeKept(news: seq<DbMessage>) {
    news != [] && (Kept(news[0]) || SomeKept(news[1..]))
  }

  /** New user messages keep the roles alternating exactly when the session does not end on tool results:
      after a run that stopped for approval the next message makes two user messages in a row. */
  lemma {:induction false} ResumedAlternates(ms: seq<Message>, news: seq<DbMessage>)
    requires SomeKept(news)
    ensures Alternates(AppendNew(ms, news)) <==> Alternates(ms) && !EndsInUserBlocks(ms)
    ensures EndsInUserText(AppendNew(ms, news))
    decreases |news|
  {
    if Kept(news[0]) {
      var content := FormatUserMessage(news[0].message.sender, news[0].message.content);
      AppendTextAlternates(ms, content);
      AppendMoreAlternates(AppendUserText(ms, content), news[1..]);
    } else {
      ResumedAlternates(ms, news[1..]);
    }
  }

  lemma {:induction false} NothingNew(ms: seq<Message>, news: seq<DbMessage>)
    requires !SomeKept(news)
    ensures AppendNew(ms, news) == ms
    decreases |news|
  {
    if news != [] { NothingNew(ms, news[1..]); }
  }

  lemma {:induction false} AppendKeepsRoles(ms: seq<Message>, news: seq<DbMessage>)
    requires UserAndAssistant(ms)
    ensures UserAndAssistant(AppendNew(ms, news))
    decreases |news|
  {
    if news != [] {
      var content := FormatUserMessage(news[0].message.sender, news[0].message.content);
      AppendTextKeepsRoles(ms, content);
      AppendKeepsRoles(if Kept(news[0]) then AppendUserText(ms, content) else ms, news[1..]);
    }
  }

  lemma AppendTextKeepsRoles(ms: seq<Message>, content: string)
    requires UserAndAssistant(ms)
    ensures UserAndAssistant(AppendUserText(ms, content))
  {
    assert forall m :: m in AppendUserText(ms, content) ==> m in ms || m.role == USER;
  }

  // ----- alternation over many requests -----

  /** The session as it is resumed. */
  function Resumed(session: Option<seq<Message>>): seq<Message> {
    if session.Some? then StripAll(session.value) else []
  }

  /** What a request must meet for the model to be asked with alternating roles. On a first request: no
      scheduler prompt besides a history. On a later one: no message inside the session is all slash commands,
      and one side speaks: new messages after anything but tool results, or the prompt after an answer, or
      nothing new after the user. */
  ghost predicate OrderlyRequest(session: Option<seq<Message>>, req: Request) {
    var resumed := Resumed(session);
    if resumed == [] then req.prompt.None? || H.Converted(Unaborted(req.history)) == []
    else NoneVanishesInside(session.value) && OneSideSpeaks(resumed, req.newMessages, req.prompt.Some?)
  }

  ghost predicate OneSideSpeaks(resumed: seq<Message>, news: seq<DbMessage>, prompted: bool) {
    if SomeKept(news) then !prompted && !EndsInUserBlocks(resumed) else EndsBefore(resumed, prompted)
  }

  /** The last message, if any, leaves the user to speak next when there is a prompt, else the assistant. */
  ghost predicate EndsBefore(ms: seq<Message>, prompted: bool) {
    ms != [] ==> ms[|ms| - 1].role == if prompted then ASSISTANT else USER
  }

  lemma WithPromptAwaits(ms: seq<Message>, prompt: Option<string>)
    requires UserAndAssistant(ms)
    ensures UserAndAssistant(WithPrompt(ms, prompt))
    ensures AwaitsAnswer(WithPrompt(ms, prompt)) <==>
            Alternates(ms) && EndsBefore(ms, prompt.Some?)
  {
    var out := WithPrompt(ms, prompt);
    assert forall m :: m in out ==> m in ms || m.role == USER;
    assert forall i :: 0 <= i < |ms| ==> out[i] == ms[i];
    if prompt.Some? && ms != [] {
      assert ms[|ms| - 1] in ms && out[|ms|].role == USER;
      if Alternates(out) {
        assert out[|ms|].role != out[|ms| - 1].role;
        assert forall i :: 0 < i < |ms| ==> out[i].role == ms[i].role;
      }
    }
  }

  lemma InjectImageKeepsRoles(ms: seq<Message>, image: Option<string>)
    requires UserAndAssistant(ms)
    ensures UserAndAssistant(InjectImage(ms, image)) && (AwaitsAnswer(InjectImage(ms, image)) <==> AwaitsAnswer(ms))
  {
    var out := InjectImage(ms, image);
    assert |out| == |ms| && forall i :: 0 <= i < |ms| ==> out[i].role == ms[i].role;
    SameRoles(ms, out);
    assert forall i :: 0 < i < |ms| ==> out[i].role == ms[i].role;
  }

  lemma ResumedAwaits(session: seq<Message>, news: seq<DbMessage>, prompted: bool)
    requires Alternates(session) && UserAndAssistant(session)
    ensures var loaded := AppendNew(StripAll(session), news);
            UserAndAssistant(loaded)
            && (Alternates(loaded) && EndsBefore(loaded, prompted) <==>
                NoneVanishesInside(session) && OneSideSpeaks(StripAll(session), news, prompted))
  {
    var resumed := StripAll(session);
    StripKeepsRoles(session);
    StripAlternates(session);
    AppendKeepsRoles(resumed, news);
    if SomeKept(news) {
      ResumedAlternates(resumed, news);
      UserIsNotAssistant();
    } else {
      NothingNew(resumed, news);
    }
  }

  lemma UserIsNotAssistant()
    ensures USER != ASSISTANT
  {
    assert |USER| == 4 && |ASSISTANT| == 9;
  }

  lemma LoadedAwaits(session: Option<seq<Message>>, req: Request)
    requires Orderly(session)
    ensures var loaded := Loaded(session, req);
            UserAndAssistant(loaded)
            && (OrderlyRequest(session, req) <==> Alternates(loaded) && EndsBefore(loaded, req.prompt.Some?))
  {
    if Resumed(session) == [] {
      H.ConvertedShape(Unaborted(req.history));
      UserIsNotAssistant();
    } else {
      ResumedAwaits(session.value, req.newMessages, req.prompt.Some?);
    }
  }

  /** Exactly the orderly requests ask the model with alternating roles, the user last. */
  lemma PreparedAwaits(session: Option<seq<Message>>, req: Request)
    requires Orderly(session)
    ensures UserAndAssistant(Prepared(session, req))
    ensures AwaitsAnswer(Prepared(session, req)) <==> OrderlyRequest(session, req)
  {
    LoadedAwaits(session, req);
    WithPromptAwaits(Loaded(session, req), req.prompt);
    InjectImageKeepsRoles(WithPrompt(Loaded(session, req), req.prompt), req.image);
  }

  ghost predicate AllOrderly(s: Settings, session: Option<seq<Message>>, reqs: seq<Request>)
    decreases |reqs|
  {
    reqs != [] ==> OrderlyRequest(session, reqs[0]) && AllOrderly(s, ProcessSpec(s, session, reqs[0]).0, reqs[1..])
  }

  /** Over every sequence of orderly requests, with or without compaction, the roles of every saved session
      alternate. */
  lemma {:induction false} SessionsStayOrderly(s: Settings, session: Option<seq<Message>>, reqs: seq<Request>)
    requires Orderly(session) && AllOrderly(s, session, reqs)
    ensures Orderly(ProcessAll(s, session, reqs))
    decreases |reqs|
  {
    if reqs != [] {
      PreparedAwaits(session, reqs[0]);
      var (after, ending) := ProcessSpec(s, session, reqs[0]);
      if Persists(ending) {
        SavedSessionShape(s, session, reqs[0]);
      } else {
        NotSavedIsUnchanged(s, session, reqs[0]);
      }
      SessionsStayOrderly(s, after, reqs[1..]);
    }
  }

  lemma NotSavedIsUnchanged(s: Settings, session: Option<seq<Message>>, req: Request)
    requires !Persists(ProcessSpec(s, session, req).1)
    ensures ProcessSpec(s, session, req).0 == session
  {
  }

  // ----- a request that crashes -----

  /** Whatever the settings and the summariser: a transcript that is to be compacted and has a long answer of
      three-byte characters as fourth message crashes the request. */
  lemma LongFourthMessageCrashes(s: Settings, session: Option<seq<Message>>, req: Request, n: nat, rest: string)
    requires var ms := Prepared(session, req);
             && |ms| > s.maxSessionMessages && |ms| > s.compactKeepRecent && req.summarizer.Some?
             && |ms| > 3 && n >= 80_000 && ms[3] == AssistantText(C.Euros(n) + rest)
    ensures ProcessSpec(s, session, req) == (session, Crashed)
  {
    C.LongFourthMessagePanics(COMPACTION, None, Prepared(session, req), n, rest, req.summarizer.value);
  }

  predicate BotSpeaks(i: nat) {
    i > 0 && !BotSpeaks(i - 1)
  }

  lemma {:induction false} UserSpeaksLast(k: nat)
    ensures !BotSpeaks(2 * k)
  {
    if k > 0 {
      UserSpeaksLast(k - 1);
      assert !BotSpeaks(2 * k - 2) && BotSpeaks(2 * k - 1);
    }
  }

  function StoredAt(i: nat, n: nat): H.StoredMessage {
    H.StoredMessage("user", if i == 3 then C.Euros(n) else "hello", BotSpeaks(i))
  }

  lemma {:induction false} UnabortedAll(history: seq<DbMessage>, messages: seq<H.StoredMessage>)
    requires |messages| == |history|
    requires forall i :: 0 <= i < |history| ==> history[i].message == messages[i] && Passes(history[i])
    ensures Unaborted(history) == messages
  {
    if history != [] { UnabortedAll(history[1..], messages[1..]); }
  }

  lemma StoredIsNoCommand(i: nat, n: nat)
    ensures !H.Skipped(StoredAt(i, n))
  {
    if i == 3 {
      assert !BotSpeaks(0) && BotSpeaks(1) && !BotSpeaks(2);
    } else {
      assert "hello"[0] == 'h';
    }
  }

  /** User and bot take turns; the second answer is long. */
  function LongChat(k: nat, n: nat): (history: seq<H.StoredMessage>)
    ensures |history| == 2 * k + 1
    ensures forall i :: 0 <= i < |history| ==> history[i] == StoredAt(i, n)
  {
    seq(2 * k + 1, i requires 0 <= i < 2 * k + 1 => StoredAt(i, n))
  }

  lemma LongChatStays(k: nat, n: nat)
    requires k > 1
    ensures var ms := H.Converted(LongChat(k, n)); |ms| == 2 * k + 1 && ms[3] == AssistantText(C.Euros(n))
  {
    var history := LongChat(k, n);
    UserSpeaksLast(k);
    forall m | m in history
      ensures !H.Skipped(m)
    {
      var i :| 0 <= i < |history| && history[i] == m;
      StoredIsNoCommand(i, n);
    }
    H.AlternatingHistoryStays(history);
    H.TurnsOf(history);
    StoredIsNoCommand(3, n);
    assert history[3] == StoredAt(3, n) && BotSpeaks(3) by { assert !BotSpeaks(0) && BotSpeaks(1) && !BotSpeaks(2); }
  }

  /** For all settings such requests exist: first ones, on a stored conversation. */
  lemma CrashIsReached(s: Settings, summarizer: C.Summarizer, turns: nat -> Turn, n: nat) returns (req: Request)
    requires n >= 80_000
    ensures req.summarizer == Some(summarizer) && ProcessSpec(s, None, req) == (None, Crashed)
  {
    var k := s.maxSessionMessages + s.compactKeepRecent + 2;
    var chat := LongChat(k, n);
    var history := seq(|chat|, i requires 0 <= i < |chat| => DbMessage(chat[i], false));
    req := Request(history, [], None, None, false, Some(summarizer), turns);
    forall i | 0 <= i < |chat|
      ensures Passes(history[i])
    {
      StoredIsNoCommand(i, n);
    }
    UnabortedAll(history, chat);
    LongChatStays(k, n);
    var long := C.Euros(n);
    assert long + "" == long;
    LongFourthMessageCrashes(s, None, req, n, "");
  }

  // ----- loop guards -----

  function Fingerprints(log: seq<Answer>): seq<Option<string>> {
    seq(|log|, i requires 0 <= i < |log| => log[i].fingerprint)
  }

  /** How many answers at the end of the log asked for the same tool calls. */
  function StreakOf(fps: seq<Option<string>>): nat {
    if fps == [] || fps[|fps| - 1].None? then 0
    else
      var before := fps[..|fps| - 1];
      if before != [] && before[|before| - 1] == fps[|fps| - 1] then StreakOf(before) + 1 else 1
  }

  /** The streak is the length of the longest suffix of equal, non-empty fingerprints. */
  lemma {:induction false} StreakIsLongestSuffix(fps: seq<Option<string>>)
    ensures StreakOf(fps) <= |fps|
    ensures forall i :: |fps| - StreakOf(fps) <= i < |fps| ==> fps[i].Some? && fps[i] == fps[|fps| - 1]
    ensures StreakOf(fps) < |fps| ==>
              fps[|fps| - 1].None? || fps[|fps| - 1 - StreakOf(fps)] != fps[|fps| - 1]
  {
    if fps != [] && fps[|fps| - 1].Some? {
      var before := fps[..|fps| - 1];
      StreakIsLongestSuffix(before);
    }
  }

  lemma {:induction false} LongSuffixLongStreak(fps: seq<Option<string>>, n: nat)
    requires n <= |fps| && forall i :: |fps| - n <= i < |fps| ==> fps[i].Some? && fps[i] == fps[|fps| - 1]
    ensures StreakOf(fps) >= n
    decreases n
  {
    if n > 1 {
      var before := fps[..|fps| - 1];
      assert fps[|fps| - 2] == fps[|fps| - 1];
      LongSuffixLongStreak(before, n - 1);
    }
  }

  function GuardsIn(log: seq<Answer>): nat {
    if log == [] then 0 else GuardsIn(log[..|log| - 1]) + (if log[|log| - 1].guarded then 1 else 0)
  }

  /** Executed send_message calls since the last other named call. */
  function SendRun(calls: seq<CallMark>): nat {
    if calls == [] then 0
    else
      var last, before := calls[|calls| - 1], calls[..|calls| - 1];
      if last.name == SEND then SendRun(before) + (if last.executed then 1 else 0)
      else if Blank(last.name) then SendRun(before)
      else 0
  }

  ghost predicate SendsFit(sends: nat, calls: seq<CallMark>) {
    && sends == SendRun(calls) <= 3
    && (forall k :: 0 <= k <= |calls| ==> SendRun(calls[..k]) <= 3)
    && (forall i :: 0 <= i < |calls| && Blank(calls[i].name) ==> !calls[i].executed)
  }

  ghost predicate StreakFits(streak: nat, last: Option<string>, log: seq<Answer>) {
    && streak == StreakOf(Fingerprints(log))
    && last == (if log == [] then None else log[|log| - 1].fingerprint)
    && (forall k :: 0 <= k < |log| && log[k].executed ==>
          log[k].fingerprint.Some? && StreakOf(Fingerprints(log[..k + 1])) < MAX_IDENTICAL)
  }

  /** The guards of the loop and its log agree. */
  ghost predicate GuardInv(st: RunState) {
    && StreakFits(st.streak, st.lastFingerprint, st.log)
    && GuardsIn(st.log) == (if st.retried then 1 else 0)
    && SendsFit(st.sends, st.calls)
  }

  lemma LogAppend(log: seq<Answer>, a: Answer, streak: nat, last: Option<string>)
    requires StreakFits(streak, last, log)
    requires var next := if a.fingerprint.None? then 0 else if a.fingerprint == last then streak + 1 else 1;
             a.executed ==> a.fingerprint.Some? && next < MAX_IDENTICAL
    ensures var next := if a.fingerprint.None? then 0 else if a.fingerprint == last then streak + 1 else 1;
            StreakFits(next, a.fingerprint, log + [a])
    ensures GuardsIn(log + [a]) == GuardsIn(log) + (if a.guarded then 1 else 0)
  {
    var log' := log + [a];
    assert log'[..|log|] == log;
    assert Fingerprints(log')[..|log|] == Fingerprints(log);
    var next := if a.fingerprint.None? then 0 else if a.fingerprint == last then streak + 1 else 1;
    assert StreakOf(Fingerprints(log')) == next;
    forall k | 0 <= k < |log'| && log'[k].executed
      ensures log'[k].fingerprint.Some? && StreakOf(Fingerprints(log'[..k + 1])) < MAX_IDENTICAL
    {
      if k < |log| {
        assert log'[..k + 1] == log[..k + 1];
      } else {
        assert log'[..k + 1] == log';
      }
    }
  }

  lemma CallAppend(s: Settings, approved: bool, sends: nat, calls: seq<CallMark>, id: string, name: string,
                   script: ToolScript)
    requires SendsFit(sends, calls)
    ensures var step := ToolStepOf(s, approved, sends, id, name, script);
            SendsFit(step.sends, calls + [CallMark(name, step.executed)])
  {
    var step := ToolStepOf(s, approved, sends, id, name, script);
    var calls' := calls + [CallMark(name, step.executed)];
    assert calls'[..|calls|] == calls;
    forall k | 0 <= k <= |calls'|
      ensures SendRun(calls'[..k]) <= 3
    {
      if k <= |calls| {
        assert calls'[..k] == calls[..k];
      } else {
        assert calls'[..k] == calls';
      }
    }
  }

  lemma {:induction false} ToolsKeepSends(s: Settings, approved: bool, run: ToolRun, blocks: seq<ResponseBlock>,
                                          scripts: nat -> ToolScript)
    requires SendsFit(run.sends, run.calls)
    ensures var out := RunTools(s, approved, run, blocks, scripts); SendsFit(out.sends, out.calls)
    decreases |blocks|
  {
    if blocks != [] {
      var b := blocks[0];
      if b.ResponseToolUse? { CallAppend(s, approved, run.sends, run.calls, b.id, b.name, scripts(|run.results|)); }
      ToolsKeepSends(s, approved, RunBlock(s, approved, run, b, scripts), blocks[1..], scripts);
    }
  }

  /** What one answer adds to the log and does to the counters. */
  ghost predicate Logged(st: RunState, out: RunState, a: Answer) {
    && out.log == st.log + [a]
    && out.streak == NextStreak(st, a.fingerprint) && out.lastFingerprint == a.fingerprint
    && (a.executed ==> a.fingerprint.Some? && out.streak < MAX_IDENTICAL)
    && out.retried == (st.retried || a.guarded) && !(st.retried && a.guarded)
  }

  lemma ToolAnswerLog(s: Settings, approved: bool, st: RunState, r: Response, scripts: nat -> ToolScript)
    returns (a: Answer)
    ensures Logged(st, ToolAnswer(s, approved, st, r, scripts).st, a)
  {
    a := ToolAnswer(s, approved, st, r, scripts).st.log[|st.log|];
  }

  lemma TextAnswerLog(s: Settings, st: RunState, r: Response) returns (a: Answer)
    ensures Logged(st, TextAnswer(s, st, r).st, a)
    ensures TextAnswer(s, st, r).st.sends == st.sends && TextAnswer(s, st, r).st.calls == st.calls
  {
    a := TextAnswer(s, st, r).st.log[|st.log|];
  }

  lemma ToolAnswerCalls(s: Settings, approved: bool, st: RunState, r: Response, scripts: nat -> ToolScript)
    requires SendsFit(st.sends, st.calls)
    ensures var out := ToolAnswer(s, approved, st, r, scripts).st; SendsFit(out.sends, out.calls)
  {
    var run := ToolRun([], None, st.sends, st.calls);
    ToolsKeepSends(s, approved, run, r.content, scripts);
    var out := ToolAnswer(s, approved, st, r, scripts).st;
    var done := RunTools(s, approved, run, r.content, scripts);
    assert (out.sends == st.sends && out.calls == st.calls) || (out.sends == done.sends && out.calls == done.calls);
  }

  lemma LoggedKeepsGuards(st: RunState, out: RunState, a: Answer)
    requires GuardInv(st) && Logged(st, out, a) && SendsFit(out.sends, out.calls)
    ensures GuardInv(out)
  {
    LogAppend(st.log, a, st.streak, st.lastFingerprint);
  }

  /** Every iteration keeps the guards, whatever the answer. */
  lemma TurnKeepsGuards(s: Settings, approved: bool, st: RunState, turn: Turn)
    requires GuardInv(st)
    ensures GuardInv(TurnStep(s, approved, st, turn).st)
  {
    if turn.hookBlock.None? && turn.answer.Some? {
      var r := turn.answer.value;
      if r.stopReason == ToolCalls {
        var a := ToolAnswerLog(s, approved, st, r, turn.scripts);
        ToolAnswerCalls(s, approved, st, r, turn.scripts);
        LoggedKeepsGuards(st, ToolAnswer(s, approved, st, r, turn.scripts).st, a);
      } else {
        var a := TextAnswerLog(s, st, r);
        LoggedKeepsGuards(st, TextAnswer(s, st, r).st, a);
      }
    }
  }

  lemma {:induction false} RunKeepsGuards(s: Settings, approved: bool, st: RunState, turns: nat -> Turn, i: nat)
    requires i <= s.maxToolIterations && GuardInv(st)
    ensures GuardInv(RunTurns(s, approved, st, turns, i).st)
    decreases s.maxToolIterations - i
  {
    if i < s.maxToolIterations {
      TurnKeepsGuards(s, approved, st, turns(i));
      var step := TurnStep(s, approved, st, turns(i));
      if step.Next? { RunKeepsGuards(s, approved, step.st, turns, i + 1); }
    } else {
      assert RunTurns(s, approved, st, turns, i).st == Push(st, AssistantText(MAX_ITERATIONS));
    }
  }

  /** The state and log after a run on the given messages. */
  function RunFrom(s: Settings, approved: bool, messages: seq<Message>, turns: nat -> Turn): RunState {
    RunTurns(s, approved, Start(messages), turns, 0).st
  }

  lemma RunInv(s: Settings, approved: bool, messages: seq<Message>, turns: nat -> Turn)
    ensures GuardInv(RunFrom(s, approved, messages, turns))
  {
    assert Start(messages).calls[..0] == [];
    RunKeepsGuards(s, approved, Start(messages), turns, 0);
  }

  /** No batch of identical tool calls is executed six times in a row, in any run. */
  lemma IdenticalBatchesAreBounded(s: Settings, approved: bool, messages: seq<Message>, turns: nat -> Turn, i: nat)
    requires i + MAX_IDENTICAL <= |RunFrom(s, approved, messages, turns).log|
    ensures exists j :: i <= j < i + MAX_IDENTICAL && !SameBatch(RunFrom(s, approved, messages, turns).log, i, j)
  {
    RunInv(s, approved, messages, turns);
    NoLongBatch(RunFrom(s, approved, messages, turns), i);
  }

  ghost predicate SameBatch(log: seq<Answer>, i: nat, j: nat) {
    i <= j < |log| && log[j].executed && log[j].fingerprint == log[i].fingerprint
  }

  lemma NoLongBatch(st: RunState, i: nat)
    requires GuardInv(st) && i + MAX_IDENTICAL <= |st.log|
    ensures exists j :: i <= j < i + MAX_IDENTICAL && !SameBatch(st.log, i, j)
  {
    if forall j :: i <= j < i + MAX_IDENTICAL ==> SameBatch(st.log, i, j) {
      var k := i + MAX_IDENTICAL - 1;
      var fps := Fingerprints(st.log[..k + 1]);
      assert SameBatch(st.log, i, k);
      assert forall j :: i <= j <= k ==> SameBatch(st.log, i, j) && fps[j] == st.log[j].fingerprint;
      LongSuffixLongStreak(fps, MAX_IDENTICAL);
      assert false;
    }
  }

  /** The empty-reply guard is put in at most once in a run. */
  lemma GuardAtMostOnce(s: Settings, approved: bool, messages: seq<Message>, turns: nat -> Turn)
    ensures GuardsIn(RunFrom(s, approved, messages, turns).log) <= 1
  {
    RunInv(s, approved, messages, turns);
  }

  function ExecutedIn(calls: seq<CallMark>): nat {
    if calls == [] then 0 else ExecutedIn(calls[..|calls| - 1]) + (if calls[|calls| - 1].executed then 1 else 0)
  }

  predicate SendOrBlank(c: CallMark) {
    c.name == SEND || (Blank(c.name) && !c.executed)
  }

  lemma {:induction false} StretchWithinRun(before: seq<CallMark>, part: seq<CallMark>)
    requires forall k :: 0 <= k < |part| ==> SendOrBlank(part[k])
    ensures ExecutedIn(part) <= SendRun(before + part)
    decreases |part|
  {
    if part != [] {
      var rest, last := part[..|part| - 1], part[|part| - 1];
      StretchWithinRun(before, rest);
      assert before + part == (before + rest) + [last];
      SendRunStep(before + rest, last);
    }
  }

  lemma SendRunStep(calls: seq<CallMark>, c: CallMark)
    requires SendOrBlank(c)
    ensures SendRun(calls + [c]) == SendRun(calls) + (if c.executed then 1 else 0)
  {
    var all := calls + [c];
    assert all[|all| - 1] == c && all[..|all| - 1] == calls;
  }

  /** In any stretch of calls whose named ones are all send_message, at most three reach execution. */
  lemma SendsAreBounded(s: Settings, approved: bool, messages: seq<Message>, turns: nat -> Turn, i: nat, j: nat)
    requires i <= j <= |RunFrom(s, approved, messages, turns).calls|
    requires var calls := RunFrom(s, approved, messages, turns).calls;
             forall k :: i <= k < j ==> Blank(calls[k].name) || calls[k].name == SEND
    ensures ExecutedIn(RunFrom(s, approved, messages, turns).calls[i..j]) <= 3
  {
    RunInv(s, approved, messages, turns);
    var st := RunFrom(s, approved, messages, turns);
    StretchFits(st.sends, st.calls, i, j);
    StretchIsBounded(st.calls, i, j);
  }

  lemma StretchFits(sends: nat, calls: seq<CallMark>, i: nat, j: nat)
    requires SendsFit(sends, calls) && i <= j <= |calls|
    requires forall k :: i <= k < j ==> Blank(calls[k].name) || calls[k].name == SEND
    ensures SendRun(calls[..j]) <= 3 && forall k :: i <= k < j ==> SendOrBlank(calls[k])
  {
  }

  lemma StretchIsBounded(calls: seq<CallMark>, i: nat, j: nat)
    requires i <= j <= |calls| && SendRun(calls[..j]) <= 3
    requires forall k :: i <= k < j ==> SendOrBlank(calls[k])
    ensures ExecutedIn(calls[i..j]) <= 3
  {
    StretchWithinRun(calls[..i], calls[i..j]);
    assert calls[..i] + calls[i..j] == calls[..j];
  }
}
