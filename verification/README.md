# Verified model of the agent core

This project models the parts of the agent whose behaviour depends on state, order or arithmetic, and
proves what they promise for every input, every run and every interleaving. One Dafny module stands for one
part of the program:

| module | part |
|---|---|
| `AgentEngine`, `AgentText`, `History`, `Transcript` | request processing: load the transcript, strip slash commands, run the tool-use loop, save the session |
| `AgentAnswers` | what the transcript, the tool results and the replies of the agent say, in terms of the inputs |
| `Compressor` | context compaction |
| `McpPrimitives`, `McpServer` | circuit breaker, rate limiter, bulkhead and retry loop around tool servers |
| `Knowledge` | paragraph chunking and the embedding codec |
| `Config` | per-channel provider and model overrides, and their index |
| `Gateway` | the Windows service command line and its audit |
| `AcpSubagent` | the bounded terminal output buffer |
| `Hooks` | ordered hook evaluation |
| `Text`, `Picks`, `Wrappers` | Rust string operations, filtered lists and result types |

Objects that update fields are classes (`Config.Config`, `Hooks.HookManager`, `AcpSubagent.RetainedText`,
`McpPrimitives.CircuitBreakerState`, `McpPrimitives.FixedWindowRateLimiter`, `Compressor.ContextCompressor`,
`AgentEngine.AgentEngine`), loops are methods, and each is tied to a function of its inputs or old state;
the lemmas are about those functions. Lemmas whose names end in `Mean` or `Means` say what such a function computes
without naming it: on the entries of a mapping, on the positions of a filtered list (`Picks.Picked`), on a grammar
of command-line arguments, on the script of a tool call. Models, tools, hook commands, the summariser, the clock and the
scheduler are arbitrary inputs.

Strings are sequences of Unicode scalar values; where the program counts bytes, `Text.ByteLen` is the UTF-8
length. White space is the Unicode property, as `char::is_whitespace` decides it. Instants are nanoseconds.

## Where the code falls short of what one would expect

Each is stated with its exact condition.

- Compaction can orphan a tool use, because the role merge runs after the sanitising
  (`Compressor.CompactionKeepsPairing`). With three protected messages and distinct tool ids this happens
  whenever the first message is the user's and the second one calls a tool
  (`Compressor.OpeningToolCallBreaksPairing`).
- The truncation of the zone text panics exactly when the cut falls inside a character
  (`Compressor.TruncatedZone`). A long answer in three-byte characters as fourth message is enough, whatever the
  summariser would say (`Compressor.LongFourthMessagePanics`), and for all settings there is a first request that
  crashes on it (`AgentEngine.CrashIsReached`).
- An image put over tool results removes them (`AgentEngine.ImageKeepsPairing`), and after a failed summary
  the bare tail may start with results whose use is gone (`AgentEngine.FallbackIsPaired`).
- After a run that stopped for approval the next user message makes two user messages in a row, since only text is
  merged (`AgentEngine.ResumedAlternates`).
- Loading a session takes out every later line of a stored user message that is a slash command by itself, and every
  carriage return before a line feed (`AgentText.StripKeepsMultiLine`). When the last line is a command the closing
  tag goes with it (`AgentText.ClosingTagIsLost`). When a message inside the session vanishes, its neighbours have
  the same role (`AgentText.StripAlternates`).
- Chunking a blank text that is not empty gives one empty chunk, so chunking is not a fixpoint there
  (`Knowledge.PagesFixpoint`).
- The command-line parser breaks arguments at any Unicode white space, the usual quoting rule only quotes
  ASCII white space (`Gateway.CommandLineRoundTrip`, `Gateway.StandardQuotingFallsShort`). A path that looks like a
  flag can be mistaken for one (`Gateway.InstalledServiceIsRecognised`).
- A provider preset that is a blank text hides the provider behind it (`Config.ProviderMeans`).
- A channel with a dot in its name can make the override index disagree with the resolver
  (`Config.DottedKeysAgreeExactly`).

## Model

| member | source | states |
|---|---|---|
| AgentEngine.AgentEngine.Process | src/agent_engine.rs:1110-1853 | one request takes the saved session and the request to exactly the session and ending of the specification |
| AgentEngine.AgentEngine.LoadMessages | src/agent_engine.rs:1144-1209 | the loaded transcript: the stripped session with the new user messages, or the converted history when nothing is left |
| AgentEngine.AgentEngine.LoadMessagesFromDb | src/agent_engine.rs:1905-1935 | the stored history without slash commands and aborted user messages, converted |
| AgentEngine.AgentEngine.RunLoop | src/agent_engine.rs:1355-1853 | the loop ends with the transcript and ending of the specified run, for all turns |
| AgentEngine.AgentEngine.Iterate | src/agent_engine.rs:1361-1836 | one iteration: all loop variables and whether the run is over |
| AgentEngine.AgentEngine.DisplayReply | src/agent_engine.rs:1637-1711 | when an empty visible reply is retried and what is shown otherwise |
| AgentEngine.AgentEngine.ExecuteTools | src/agent_engine.rs:1764-1802 | the results, the waiting tool and the send counter after all calls of an answer |
| AgentEngine.ExecuteSingleTool | src/agent_engine.rs:698-1107 | the guardrails, hooks, approval retry and result patches of one call |
| AgentAnswers.ToolCallMeans | src/agent_engine.rs:698-1107 | the result of a call carries its id and what the tool said, the retried output exactly when the first was gated and a retry is allowed, after the last hook; which calls are executed and which wait |
| AgentAnswers.ToolCallReason | src/agent_engine.rs:722-845 | what a call that never reaches its tool is answered, by the earliest of four reasons |
| AgentAnswers.ToolCallCounts | src/agent_engine.rs:738-1096 | how each call changes the count of consecutive send_message calls |
| AgentAnswers.PatchedMeans | src/agent_engine.rs:985-1014 | after an allowing hook, content and error flag are those of the last patch that sets them, else the tool's |
| AgentAnswers.AnswerMeans | src/agent_engine.rs:220-232 | text, fingerprint and transcript entry of an answer hold all its texts, calls and known blocks, in order |
| AgentAnswers.ToolRunMeans | src/agent_engine.rs:1756-1802 | the results of an answer are those of its calls, each run once with its own script, in order; the last call that waits is the one reported |
| AgentAnswers.NoAnswerMeans | src/agent_engine.rs:1367-1460 | a hook that blocks the model, or a failing model, ends the run and changes nothing |
| AgentAnswers.ToolTurnMeans | src/agent_engine.rs:1547-1748 | how an answer that asks for tools is counted, and how it ends the run without calls or at the sixth repetition |
| AgentAnswers.ToolTurnRuns | src/agent_engine.rs:1721-1836 | otherwise exactly the answer and the results of its calls are put into the transcript |
| AgentAnswers.TextTurnMeans | src/agent_engine.rs:1627-1711 | what any other answer adds to the transcript, when the model is asked once more, and the reply |
| AgentAnswers.DisplayMeans | src/agent_engine.rs:1649-1658 | the shown text is the whole text, or a trimmed subsequence of it without thinking |
| AgentAnswers.ThinkingIsHidden | src/agent_engine.rs:2330-2354 | a block of any of the four kinds of thinking is not shown, and what stands around it is |
| AgentAnswers.RunIsTurnByTurn | src/agent_engine.rs:1355-1853 | a run is its iterations one after the other until one stops it or their number is reached |
| AgentAnswers.ResumedMeans | src/agent_engine.rs:1174-1201 | resuming loses nothing: behind the stripped session stand exactly the formatted new messages, in order, in the last user text or a message of their own |
| AgentAnswers.FreshMeans | src/agent_engine.rs:1905-1935 | without a session the history is converted, all but aborted and slash-command messages of users |
| AgentAnswers.PreparedMeans | src/agent_engine.rs:1211-1247 | the prompt comes last, and an image is put before the text of the last message of the user |
| AgentAnswers.CompactionMeans | src/agent_engine.rs:1258-1283 | which transcripts are compacted, and by which settings |
| AgentAnswers.SavedMeans | src/agent_engine.rs:1886-1901 | the saved session is what was prepared and added, with a note for every image and nothing else changed |
| AgentEngine.ResultsAnswerCalls | src/agent_engine.rs:1756-1808 | the results of an answer carry the ids of its tool calls, one each, in order |
| AgentEngine.TurnKeepsPairing | src/agent_engine.rs:1355-1836 | every iteration keeps each tool use answered by the next message, whatever the model, hooks and tools do |
| AgentEngine.RunKeepsPairing | src/agent_engine.rs:1355-1853 | so does a whole run from a paired transcript |
| AgentEngine.LoadedIsPaired | src/agent_engine.rs:1144-1217 | loading, slash-stripping, appending user messages and the scheduler prompt keep the pairing |
| AgentEngine.ImageKeepsPairing | src/agent_engine.rs:666-687 | injecting an image keeps the pairing if and only if it is not put over tool results |
| AgentEngine.StripImagesKeepsPairing | src/agent_engine.rs:2398-2410 | replacing images before the save keeps the pairing |
| AgentEngine.CompactionIsPaired | src/agent_engine.rs:1258-1283 | the messages after compaction are paired when compaction did not run or met its condition |
| AgentEngine.FallbackIsPaired | src/compressor.rs:246-252 | after a failed summary the tail is paired if and only if it starts with no tool results |
| AgentEngine.ProcessKeepsPairing | src/agent_engine.rs:1110-1853 | a request on a paired session saves a paired session |
| AgentEngine.SessionsStayPaired | src/agent_engine.rs:1110-1853 | over every sequence of requests every saved session is paired |
| AgentEngine.RunShape | src/agent_engine.rs:1355-1853 | a run only adds to the end of its transcript, keeps the roles alternating, and ends on an assistant message unless a call waits for approval |
| AgentEngine.SavedSessionShape | src/agent_engine.rs:1110-1853 | a saved session ends on an assistant message exactly when no call waits for approval; its roles are user and assistant in turns when the prepared messages await an answer in that shape, even through compaction |
| AgentEngine.FirstRequestAwaits | src/agent_engine.rs:1144-1217 | a first request without a scheduler prompt prepares alternating messages that end with the user |
| AgentEngine.ResumedAlternates | src/agent_engine.rs:1174-1201 | with new user messages the roles alternate if and only if those of the session did and it does not end on tool results |
| AgentEngine.PreparedAwaits | src/agent_engine.rs:1144-1258 | on a session with alternating roles the model is asked with alternating roles, the user last, if and only if the request is orderly |
| AgentEngine.SessionsStayOrderly | src/agent_engine.rs:1110-1853 | over every sequence of orderly requests the roles of every saved session alternate |
| AgentEngine.LongFourthMessageCrashes | src/agent_engine.rs:1258-1283 | a request that compacts a transcript with such a fourth message crashes and saves nothing |
| AgentEngine.CrashIsReached | src/agent_engine.rs:1110-1283 | for all settings and summarisers some first request crashes |
| AgentEngine.StripTagBlocks | src/agent_engine.rs:2332-2347 | each tagged block is removed left to right, an unclosed one up to the end |
| AgentEngine.StripTagTakesOut | src/agent_engine.rs:2332-2347 | the result is a subsequence of the text, and the text itself if and only if it has no opening tag |
| AgentEngine.StreakIsLongestSuffix | src/agent_engine.rs:1557-1564 | the streak is the length of the longest suffix of answers with the same non-empty fingerprint |
| AgentEngine.TurnKeepsGuards | src/agent_engine.rs:1555-1596 | every iteration keeps streak, retry flag and send counter in step with the log of the run |
| AgentEngine.IdenticalBatchesAreBounded | src/agent_engine.rs:1354-1596 | no batch of identical tool calls is executed six times in a row |
| AgentEngine.GuardAtMostOnce | src/agent_engine.rs:1660-1680 | the empty-reply guard is inserted at most once in a run |
| AgentEngine.SendsAreBounded | src/agent_engine.rs:738-763 | among calls whose named ones are all send_message at most three reach execution |
| AgentText.RecogniserAgreesWithPrinter | src/agent_engine.rs:362-481 | a formatted message is recognised as a slash command line exactly when its content is a slash command |
| AgentText.FormatIsInjective | src/agent_engine.rs:362-382 | sender and content can be read off a formatted message |
| AgentText.SlashMeans | src/agent_engine.rs:440-442 | a slash command is white space, a slash and anything |
| AgentText.WrappedMeans | src/agent_engine.rs:468-481 | a wrapped command is an opening tag, a slash command and the closing tag |
| AgentText.StripAllMeans | src/agent_engine.rs:483-510 | stripping keeps every message that does not vanish; only texts of users change, by the lines that are commands |
| AgentText.StripSlashCommandUserLines | src/agent_engine.rs:483-510 | the stripped transcript, message by message |
| AgentText.StripKeepsPairing | src/agent_engine.rs:483-510 | stripping keeps the tool pairing |
| AgentText.StripAlternates | src/agent_engine.rs:483-510 | stripping keeps alternating roles if and only if no message but the first and last vanishes |
| AgentText.LinesOfJoin | src/agent_engine.rs:492-503 | joining lines and reading lines are inverse, up to carriage returns at the end of lines |
| AgentText.LinesMean | src/agent_engine.rs:492-503 | the lines of any text |
| AgentText.StripLeaves | src/agent_engine.rs:483-510 | exactly the lines left of a user message made of any formatted messages |
| AgentText.EntryLineIsCommand | src/agent_engine.rs:440-503 | which line of a formatted message, of any sender and content, is taken for a command |
| AgentText.ClosingTagIsLost | src/agent_engine.rs:483-510 | when the last of several lines is a command no line that is left closes the message |
| AgentText.StripKeepsOtherEntries | src/agent_engine.rs:483-510 | joined single-line messages keep exactly the non-slash ones, in order |
| AgentText.StripKeepsMultiLine | src/agent_engine.rs:483-510 | any joined messages survive unchanged if and only if no line of them is a command and no carriage return stands before a line feed |
| AgentText.LaterLinesOfContent | src/agent_engine.rs:440-503 | for a sender of one line the lines taken out are the slash commands among the later lines of the content, or a single-line command |
| History.HistoryToClaudeMessages | src/agent_engine.rs:2274-2323 | the converted history is the merged turns without assistant messages at either end |
| History.TurnsMean | src/agent_engine.rs:2280-2308 | which stored messages are converted, and to what |
| History.ConvertedSlice | src/agent_engine.rs:2310-2321 | at most one merged assistant message is dropped at either end |
| History.ConvertedShape | src/agent_engine.rs:2274-2323 | the result strictly alternates, starts with the user and ends with the user, or is empty |
| History.ConvertedKeepsUserText | src/agent_engine.rs:2280-2308 | the user side of the result is every formatted non-slash user message of the history, in order |
| History.ConvertedIsPaired | src/agent_engine.rs:2274-2323 | a converted history has no open tool use |
| Transcript.PairedPointwise | src/agent_engine.rs:1756-1808 | pairing as a relation of neighbours equals pairing as a left-to-right protocol |
| Transcript.MessageTextMeans | src/compressor.rs:301-318 | the text of a message is its text, or the texts of all blocks but images, in order |
| Transcript.IdsMean | src/compressor.rs:142-193 | the ids of a message are those of its tool uses and of its results |
| Compressor.FindTailStart | src/compressor.rs:95-104 | the backward loop finds the tail start |
| Compressor.TailStartIsSmallest | src/compressor.rs:95-104 | the tail start is the smallest index whose suffix is strictly under a positive budget |
| Compressor.TokensInBytes | src/compressor.rs:46-53 | tokens are four bytes each, up to three bytes a message |
| Compressor.UnchangedWhenSmall | src/compressor.rs:207-215 | nothing is compressed exactly when what follows the protected messages is under budget |
| Compressor.TruncationAmount | src/compressor.rs:107-111 | how many bytes are cut: none up to 40000, the remainder modulo 20 up to the ceiling, all above 240000 |
| Compressor.TruncatedZone | src/compressor.rs:234-239 | the zone text is a prefix of at most 240000 bytes; exactly when the cut panics |
| Compressor.SummariserSeesTheZone | src/compressor.rs:225-252 | the summariser is asked about the earlier summary and, in order, role and text of every message of the zone, up to the cut; its answer or failure decides the outcome |
| Compressor.LongFourthMessagePanics | src/compressor.rs:234-239 | a fourth message of 80000 three-byte characters always makes the truncation panic, at the agent's own settings |
| Compressor.SanitizeToolPairs | src/compressor.rs:142-193 | the two id sets are collected in full and the blocks filtered by them |
| Compressor.SanitizedIdsAgree | src/compressor.rs:142-193 | after sanitising the used and the answered ids are the same set, namely those that were both |
| Compressor.SanitizedTwice | src/compressor.rs:142-193 | sanitising is idempotent |
| Compressor.MergeSameRole | src/compressor.rs:278-297 | the in-place merge and the final drop |
| Compressor.MergedIsRuns | src/compressor.rs:278-290 | merging message by message equals turning each run of one role into one message |
| Compressor.ContextCompressor.constructor | src/compressor.rs:37-43 | a new compressor has no earlier summary |
| Compressor.ContextCompressor.Compress | src/compressor.rs:197-298 | the outcome of a compaction, and summary and count updated exactly on success |
| Compressor.PartitionOfInput | src/compressor.rs:56-91 | head, zone and tail partition the input; the tail is verbatim and under budget; before it exactly the over-long results are replaced |
| Compressor.CompactionShape | src/compressor.rs:278-297 | the result is not empty, strictly alternates and ends with the user |
| Compressor.CompactionKeepsText | src/compressor.rs:258-297 | the joined text of the sanitised parts is kept, up to one final assistant message |
| Compressor.AssembledMeans | src/compressor.rs:142-276 | what is merged is the head and the tail without orphaned tool blocks, and between them the summary and the acknowledgement |
| Compressor.SanitizedIsPaired | src/compressor.rs:258-276 | with distinct ids sanitising repairs the pairs cut by the zone |
| Compressor.MergedPairing | src/compressor.rs:278-290 | the role merge keeps the pairing if and only if uses and answers are flattened together or not at all |
| Compressor.CompactionKeepsPairing | src/compressor.rs:197-298 | the compacted messages are paired if and only if the seams, known before any summary, are clean |
| Compressor.OpeningToolCallBreaksPairing | src/compressor.rs:197-298 | with three protected messages an opening tool call always ends up orphaned |
| McpPrimitives.CircuitBreakerState.constructor | src/mcp.rs:109-116 | a closed breaker with a cooldown of at least one second |
| McpPrimitives.CircuitBreakerState.CheckReadyAt | src/mcp.rs:118-130 | whether a call may go on, and the reset after the cooldown |
| McpPrimitives.CircuitBreakerState.RecordSuccessNow | src/mcp.rs:132-135 | the breaker is closed and the count restarted |
| McpPrimitives.CircuitBreakerState.RecordFailureAt | src/mcp.rs:137-148 | the count goes up and the breaker trips at the threshold |
| McpPrimitives.CheckKeepsInv | src/mcp.rs:118-130 | the check keeps breaker and history consistent |
| McpPrimitives.SuccessKeepsInv | src/mcp.rs:132-135 | so does a recorded success |
| McpPrimitives.FailureKeepsInv | src/mcp.rs:137-148 | so does a recorded failure |
| McpPrimitives.FixedWindowRateLimiter.constructor | src/mcp.rs:159-165 | an empty window that starts now |
| McpPrimitives.FixedWindowRateLimiter.ConsumeOrRetryAfterSecs | src/mcp.rs:167-186 | admission, or the seconds to wait |
| McpPrimitives.ConsumeKeepsInv | src/mcp.rs:167-186 | every admission keeps the bound of every sixty-second interval |
| McpPrimitives.RefusedWhenFull | src/mcp.rs:167-186 | a call is refused exactly in a window that has let through as many calls as the limit |
| McpPrimitives.RetryDelay | src/mcp.rs:181-185 | a reported wait is between 1 and 60; one second more always reaches a fresh window, the reported wait exactly when it loses no fraction |
| McpPrimitives.BoundIsReached | src/mcp.rs:167-186 | twice the limit can pass within one second |
| McpServer.RetryLoop | src/mcp.rs:547-569 | the answer is the first outcome that is not retried, after at most one attempt more than the retries; the waits double up to the ninth |
| McpServer.StepKeepsPermits | src/mcp.rs:519-570 | no step loses or invents a permit |
| McpServer.StepKeepsLog | src/mcp.rs:570-585 | every step keeps the outcomes in the breaker's log those of the finished callers, one each |
| McpServer.StepKeepsHistories | src/mcp.rs:507-585 | every step keeps each caller's order of guards and attempts |
| McpServer.RunKeepsInv | src/mcp.rs:491-588 | every interleaving keeps guards, permits and histories |
| McpServer.SlidingBound | src/mcp.rs:507-517 | any half-open sixty-second interval sees at most twice the limit pass |
| McpServer.BreakerSafety | src/mcp.rs:533-585 | no admission inside the cooldown of a trip without a success in between; a trip happens exactly at the threshold-th failure in a row |
| McpServer.RefusedExactlyWhileOpen | src/mcp.rs:118-130 | a check is refused exactly inside the cooldown of a trip without a success in between, with the rest of the cooldown as wait |
| McpServer.FinishedMeans | src/mcp.rs:547-585 | a caller finishes well exactly when its last attempt succeeded, all before it being failures that were retried |
| McpServer.RecordedMeans | src/mcp.rs:570-585 | every outcome in the breaker's log is that of the last attempt of its caller, and no caller logs two |
| McpServer.LogsAreComplete | src/mcp.rs:507-545 | the logs have exactly the calls that passed the limiter and the breaker |
| McpServer.AnswersMean | src/mcp.rs:507-545 | the waits in the answers are those the limiter and the breaker reported |
| McpServer.BulkheadAndOrder | src/mcp.rs:507-570 | permits and their holders add up; rate limiter, bulkhead and breaker precede every attempt; attempts are bounded |
| Knowledge.SplitIntoPages | src/knowledge.rs:63-118 | the pages of a text |
| Knowledge.MergeParagraphs | src/knowledge.rs:86-113 | the loop packs the trimmed non-blank paragraphs greedily |
| Knowledge.PackIsGrouping | src/knowledge.rs:86-113 | the chunks hold exactly the paragraphs, in order, in admissible groups |
| Knowledge.GreedyIsOptimal | src/knowledge.rs:86-113 | no grouping into admissible chunks is shorter than the greedy one |
| Knowledge.PagesAreOptimal | src/knowledge.rs:63-118 | the same for the pages of a text |
| Knowledge.PagesConserve | src/knowledge.rs:63-118 | joined chunks are the joined paragraphs, and chunks of several paragraphs have at most 2000 bytes |
| Knowledge.ParagraphsMean | src/knowledge.rs:80-97 | the paragraphs are the trimmed pieces between blank lines that are not blank |
| Knowledge.FormFeedPagesMean | src/knowledge.rs:69-78 | a text with form feeds becomes its trimmed pages, all that are not blank |
| Knowledge.PagesFixpoint | src/knowledge.rs:63-118 | chunking the joined chunks gives the same chunks if and only if the text is empty or not blank |
| Knowledge.DecodeEncode | src/knowledge.rs:20-37 | decoding inverts encoding |
| Knowledge.LittleEndian | src/knowledge.rs:20-28 | the bytes are the digits of the bit pattern in base 256, lowest first |
| Knowledge.EncodeDecode | src/knowledge.rs:20-37 | encoding inverts decoding, up to an incomplete last group |
| Config.ChannelDefaultAccountId | src/config.rs:1042-1070 | the explicit, the so named or the first sorted account |
| Config.DefaultMeans | src/config.rs:1042-1070 | which account is the default, on the entries of the channel |
| Config.ProviderMeans | src/config.rs:1168-1177 | a preset that is a text decides, else the provider; blank ones read as nothing |
| Config.ModelMeans | src/config.rs:1188-1193 | how a model entry is read |
| Config.ResolveMeans | src/config.rs:1201-1243 | what a name resolves to, on the accounts of the channel |
| Config.TargetOfPadded | src/config.rs:1072-1090 | white space around a name makes no difference to where an override is written |
| Config.TargetOfPaddedParts | src/config.rs:1072-1090 | nor does white space around its parts |
| Config.Config.LlmOverrideTarget | src/config.rs:1072-1090 | the trimmed channel and account an override is written to |
| Config.Config.SetProviderOverrideForChannel | src/config.rs:1092-1133 | the channels after setting or clearing a provider |
| Config.Config.SetModelOverrideForChannel | src/config.rs:1092-1142 | the channels after setting or clearing a model |
| Config.Config.OverrideForChannel | src/config.rs:1201-1243 | the override of the named or default account, else that of the channel |
| Config.Config.ProviderOverrideForChannel | src/config.rs:1201-1221 | the resolved provider |
| Config.Config.ModelOverrideForChannel | src/config.rs:1223-1243 | the resolved model |
| Config.ReadBack | src/config.rs:1092-1243 | reading after any account-preserving edit, with and without an account |
| Config.ProviderReadBack | src/config.rs:1115-1221 | a set provider resolves to its normal form, a cleared one uncovers the channel's; models do not change |
| Config.ModelReadBack | src/config.rs:1135-1243 | the same for models |
| Config.DefaultAfterStore | src/config.rs:1042-1112 | exactly when writing to an account changes the default account |
| Config.OthersUnchanged | src/config.rs:1092-1243 | every other channel and account resolves as before |
| Config.SettersEditOnly | src/config.rs:1115-1142 | the setters change no entry of their target but those of provider and model |
| Config.WriteKeepsChannels | src/config.rs:1092-1142 | a write leaves every other channel as it is |
| Config.WriteKeepsAccounts | src/config.rs:1092-1142 | and every other account |
| Config.WriteKeepsEntries | src/config.rs:1092-1142 | and every other entry of its target |
| Config.LlmProviderOverrides | src/config.rs:1363-1398 | the table is what some walk through the channels and their accounts files |
| Config.IndexIsFiled | src/config.rs:1363-1398 | each entry of such a table is an account's provider, or the channel's own where no account is filed; nothing is missing |
| Config.IndexAgreesOnChannels | src/config.rs:1363-1398 | for every undotted name the table holds exactly what the resolver returns |
| Config.IndexAgreesOnAccounts | src/config.rs:1363-1398 | dotted keys carry the resolver's answer when no channel name is dotted |
| Config.DottedKeysAgreeExactly | src/config.rs:1363-1398 | in a configuration the dotted keys of every possible table agree with the resolver if and only if no dotted channel files what its key does not resolve to |
| Config.SafeNamesAreUndotted | src/config.rs:1363-1398 | the channel names for which they agree in every configuration are exactly those without a dot |
| Gateway.ParseWindowsCommandLine | src/gateway.rs:1317-1379 | the loops read exactly the arguments of the specification |
| Gateway.ReadArgument | src/gateway.rs:1330-1371 | one argument and where it ends |
| Gateway.ScanReadsItems | src/gateway.rs:1330-1371 | an argument is read as the pieces it is written in say, in all ways of quoting and escaping |
| Gateway.EveryTextIsAnArgument | src/gateway.rs:1330-1371 | every text is such pieces and what follows them, so the parser is determined on all inputs |
| Gateway.ScanQuoteBody | src/gateway.rs:1334-1371 | a quoted argument is read back whole, with all its backslashes and quotes |
| Gateway.CommandLineRoundTrip | src/gateway.rs:1317-1379 | the parser returns exactly the rendered list if and only if every argument with white space was quoted |
| Gateway.StandardQuotingFallsShort | src/gateway.rs:1317-1379 | an argument with a no-break space that the usual quoting rule breaks |
| Gateway.ExtractWindowsFlagPath | src/gateway.rs:1382-1398 | the value of a flag in either form |
| Gateway.FlagPathMeans | src/gateway.rs:1382-1398 | the value is that of the first argument that is the flag with one behind it or has one that is not blank |
| Gateway.ParseWindowsServiceLaunchInfo | src/gateway.rs:1401-1414 | the launch info of a command line |
| Gateway.LaunchInfoMeans | src/gateway.rs:1401-1414 | the executable is the first argument, and the service runs exactly when the two words stand next to each other |
| Gateway.BuildLaunchArguments | src/gateway.rs:1880-1891 | the arguments the service is installed with |
| Gateway.AuditWindowsService | src/gateway.rs:1561-1595 | the issues in the order they are listed |
| Gateway.IssuesMean | src/gateway.rs:1561-1595 | each issue is reported exactly under its condition, and none twice |
| Gateway.InstalledServiceIsRecognised | src/gateway.rs:1401-1414 | the installed command line yields executable, config and working directory again if and only if no path is mistaken for a flag with another value |
| Gateway.PlainPathsAreRecovered | src/gateway.rs:1382-1414 | paths that look like no flag are always recognised |
| Gateway.AuditInstalledService | src/gateway.rs:1561-1595 | the audit of an installed service reports its start type and exactly the paths that are not recovered |
| AcpSubagent.FloorCharBoundary | crates/mchact-core/src/text.rs:1-12 | the largest character boundary not above the index |
| AcpSubagent.ShortestTailAppend | src/acp_subagent.rs:716-742 | cutting early and cutting late retain the same text |
| AcpSubagent.ShortestTailProperties | src/acp_subagent.rs:734-742 | the retained text is a suffix within three bytes of the limit, and no shorter suffix reaches it |
| AcpSubagent.RetainedText.constructor | src/acp_subagent.rs:40-44 | an empty buffer |
| AcpSubagent.RetainedText.Truncate | src/acp_subagent.rs:734-742 | the text is cut to its shortest tail and the flag set exactly on overflow |
| AcpSubagent.RetainedText.Push | src/acp_subagent.rs:728-730 | the buffer is a function of everything appended so far |
| AcpSubagent.ReadPipesIntoOutput | src/acp_subagent.rs:716-742 | after any interleaving of two pipes: a suffix of everything; all of it without the flag; between the limit and three bytes more with it |
| AcpSubagent.PipesArriveInOrder | src/acp_subagent.rs:716-732 | of each pipe the chunks before its end arrive in order and without a gap |
| Hooks.HookManager.SetEnabled | src/hooks.rs:267-279 | a known hook's override is set and written; after a failed write it is in force but not stored |
| Hooks.HookManager.Run | src/hooks.rs:281-353 | the outcome of the ordered hooks |
| Hooks.SortSorts | src/hooks.rs:294-298 | the hooks considered are those that match, in priority-then-name order |
| Hooks.FirstBlockWins | src/hooks.rs:300-353 | a call is blocked exactly when a hook for the event that is switched on answers "block", with the reason of the first such; otherwise the patches are those of all that answer "modify" with one, in order |
| Hooks.DiscoveryOrderIrrelevant | src/hooks.rs:287-353 | with one hook per name the order of discovery does not matter |
| Hooks.DisabledHookIsAbsent | src/hooks.rs:302-308 | switching a hook off is the same as not having it |
| Text.WhitespaceMeans | src/gateway.rs:1329-1371 | the 25 characters that are white space |
| Text.CharBytesMean | src/acp_subagent.rs:734-742 | a character takes as many bytes as its code point needs |
| Text.LexMeans | src/hooks.rs:294-298 | names are ordered by their first different character, a prefix first |
| Text.LowerMeans | src/hooks.rs:321-326 | lower case changes the 26 capital letters and nothing else |

## Left out

- Model calls, streaming, tool transports, hook processes, the database and object storage: their answers are inputs, and a saved session is assumed to load as it was saved.
- Which stored messages the database returns for a kind of chat; failing database calls and a missing provider profile, which end a request before or outside the loop without touching the transcript.
- The explicit-memory fast path, memory and system prompts, logging, tracing and usage metrics.
- The wording of notices to the model and the user in `AgentEngine`: only where they are put is modelled.
- The list of failed tools kept by `execute_single_tool`: it never reaches the transcript.
- Whether the latest user text approves a gated tool, and whether a hook failed (a failed hook has no effect), are inputs.
- JSON: tool inputs are text, a fingerprint joins them as the code does, and whether a send_message has an attachment is an input.
- Image data and thought signatures, which no modelled code inspects.
- McpServer.RetryLoop: the waits are added up in closed form but not forced on the interleaved system, where any time may pass between two steps.
- The tool cache refresh before a call and the health probe.
- SUMMARY_RATIO is taken as integer division by five, which the floating-point product agrees with for every length in reach.
- The summary prompt is the earlier summary and the zone text; its fixed wording is not modelled.
- YAML tags, and mapping keys that are no strings beyond that they are skipped; mappings are finite maps, so their order is not modelled.
- Writers of bot user names and soul paths, which follow the same lookups.
- Paths are compared as strings, which is finer than `Path` equality; the start type is the only other service status modelled.
- Decoding of pipe bytes: a chunk is whatever text `from_utf8_lossy` made of it.
- Discovery of hooks on disk, their time limits and the audit log.
- Knowledge.PagesConserve, Knowledge.PagesAreOptimal and Knowledge.PagesFixpoint: stated for texts without form feeds, since pages split at form feeds are not packed; Knowledge.FormFeedPagesMean says what becomes of those.
- Cosine similarity and other floating-point scores.
