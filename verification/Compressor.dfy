/** The context compressor of `src/compressor.rs`. */
module Compressor {
  import opened Wrappers
  import opened Text
  import opened Picks
  import opened Transcript

  const CHARS_PER_TOKEN: nat := 4
  const MIN_SUMMARY_TOKENS: nat := 2000
  const SUMMARY_TOKENS_CEILING: nat := 12_000
  const PLACEHOLDER := "[Tool output cleared -- use session_search to recall details]"
  const CLEARED := "[context cleared]"
  const ACKNOWLEDGEMENT := "Understood, I have the conversation context. How can I help?"
  const TRUNCATED := "\n... (truncated)"

  datatype CompressorConfig = CompressorConfig(tailTokenBudget: nat, protectFirstN: nat, toolResultMaxChars: nat)

  // ----- where the tail starts -----

  function MessageTokens(m: Message): nat {
    ByteLen(MessageToText(m)) / CHARS_PER_TOKEN
  }

  function Tokens(ms: seq<Message>): nat {
    if ms == [] then 0 else MessageTokens(ms[0]) + Tokens(ms[1..])
  }

  /** The first index whose suffix is strictly under the budget, or the end. */
  function TailStart(ms: seq<Message>, budget: nat): (i: nat)
    ensures i <= |ms|
  {
    if ms == [] || Tokens(ms) < budget then 0 else 1 + TailStart(ms[1..], budget)
  }

  lemma {:induction false} SuffixTokens(ms: seq<Message>, i: nat, j: nat)
    requires i <= j <= |ms|
    ensures Tokens(ms[j..]) <= Tokens(ms[i..])
    decreases j - i
  {
    if i < j {
      assert ms[i..][1..] == ms[i + 1..];
      SuffixTokens(ms, i + 1, j);
    }
  }

  /** `r` is the tail start: every suffix from `r` on is under budget, none before it is. */
  lemma {:induction false} TailStartIs(ms: seq<Message>, budget: nat, r: nat)
    requires r <= |ms|
    requires r < |ms| ==> Tokens(ms[r..]) < budget
    requires r > 0 ==> Tokens(ms[r - 1..]) >= budget
    ensures TailStart(ms, budget) == r
    decreases r
  {
    assert ms[0..] == ms;
    if r > 0 {
      SuffixTokens(ms, 0, r - 1);
      assert ms[1..][r - 1..] == ms[r..];
      if r > 1 { assert ms[1..][r - 2..] == ms[r - 1..]; }
      TailStartIs(ms[1..], budget, r - 1);
    }
  }

  method FindTailStart(ms: seq<Message>, budget: nat) returns (start: nat)
    ensures start == TailStart(ms, budget)
  {
    var tokensAccumulated := 0;
    var i := |ms|;
    while i > 0
      invariant 0 <= i <= |ms| && tokensAccumulated == Tokens(ms[i..])
      invariant i < |ms| ==> tokensAccumulated < budget
    {
      i := i - 1;
      assert ms[i..][1..] == ms[i + 1..];
      tokensAccumulated := tokensAccumulated + MessageTokens(ms[i]);
      if tokensAccumulated >= budget {
        TailStartIs(ms, budget, i + 1);
        return i + 1;
      }
    }
    assert ms[0..] == ms;
    TailStartIs(ms, budget, 0);
    return 0;
  }

  /** With a positive budget the tail start is the smallest index whose suffix is strictly under budget. */
  lemma {:induction false} TailStartIsSmallest(ms: seq<Message>, budget: nat)
    requires budget > 0
    ensures Tokens(ms[TailStart(ms, budget)..]) < budget
    ensures forall i :: 0 <= i < TailStart(ms, budget) ==> Tokens(ms[i..]) >= budget
  {
    assert ms[0..] == ms;
    if ms != [] && Tokens(ms) >= budget {
      TailStartIsSmallest(ms[1..], budget);
      var r := TailStart(ms[1..], budget);
      assert ms[1..][r..] == ms[r + 1..];
      forall i | 0 <= i < r + 1
        ensures Tokens(ms[i..]) >= budget
      {
        if i > 0 { assert ms[1..][i - 1..] == ms[i..]; }
      }
    }
  }

  // ----- pruning -----

  function PruneBlock(b: Block, maxChars: nat): Block {
    if b.ToolResult? && ByteLen(b.content) > maxChars then b.(content := PLACEHOLDER) else b
  }

  function PruneBlocks(blocks: seq<Block>, maxChars: nat): seq<Block> {
    seq(|blocks|, i requires 0 <= i < |blocks| => PruneBlock(blocks[i], maxChars))
  }

  function PruneMessage(m: Message, maxChars: nat): Message {
    match m.content
    case Plain(_) => m
    case Blocks(blocks) => m.(content := Blocks(PruneBlocks(blocks, maxChars)))
  }

  function PruneOldToolResults(ms: seq<Message>, tailStart: nat, maxChars: nat): (r: seq<Message>)
    ensures |r| == |ms|
    ensures forall i :: 0 <= i < |ms| ==> r[i] == if i >= tailStart then ms[i] else PruneMessage(ms[i], maxChars)
  {
    seq(|ms|, i requires 0 <= i < |ms| => if i >= tailStart then ms[i] else PruneMessage(ms[i], maxChars))
  }

  // ----- the zone text -----

  function SummaryBudget(zoneBytes: nat): nat {
    var budget := zoneBytes / CHARS_PER_TOKEN / 5;
    if budget < MIN_SUMMARY_TOKENS then MIN_SUMMARY_TOKENS
    else if budget > SUMMARY_TOKENS_CEILING then SUMMARY_TOKENS_CEILING
    else budget
  }

  function MaxZoneBytes(zoneBytes: nat): nat {
    SummaryBudget(zoneBytes) * CHARS_PER_TOKEN * 5
  }

  /** How many bytes the truncation takes off a zone text of `n` bytes. */
  lemma TruncationAmount(n: nat)
    ensures var cut := if n > MaxZoneBytes(n) then n - MaxZoneBytes(n) else 0;
            && (n <= 40_000 ==> cut == 0)
            && (40_000 <= n < 240_020 ==> cut == n % 20)
            && (240_000 <= n ==> cut == n - 240_000)
            && n - cut <= 240_000
  {
    assert n / CHARS_PER_TOKEN / 5 == n / 20;
    assert n == n / 20 * 20 + n % 20;
  }

  function ZoneText(zone: seq<Message>): string {
    if zone == [] then ""
    else "[" + zone[0].role + "]: " + MessageToText(zone[0]) + "\n\n" + ZoneText(zone[1..])
  }

  /** `String::truncate` panics when the cut is inside a character. */
  function TruncateZone(zone: string): Option<string> {
    var max := MaxZoneBytes(ByteLen(zone));
    if ByteLen(zone) <= max then Some(zone)
    else
      var k := CharsAt(zone, max);
      if k.None? then None else Some(zone[..k.value] + TRUNCATED)
  }

  /** The zone text is cut to a prefix of at most 240000 bytes; the cut panics exactly when it would fall
      inside a character. */
  lemma TruncatedZone(zone: string)
    ensures var n, max := ByteLen(zone), MaxZoneBytes(ByteLen(zone));
            && (TruncateZone(zone).None? <==> n > max && forall k :: 0 <= k <= |zone| ==> ByteLen(zone[..k]) != max)
            && (TruncateZone(zone).Some? ==>
                  exists k :: 0 <= k <= |zone| && ByteLen(zone[..k]) == (if n <= max then n else max) <= 240_000
                         && TruncateZone(zone).value == zone[..k] + (if n <= max then "" else TRUNCATED))
  {
    var n, max := ByteLen(zone), MaxZoneBytes(ByteLen(zone));
    TruncationAmount(n);
    forall k | 0 <= k <= |zone| && ByteLen(zone[..k]) == max
      ensures CharsAt(zone, max).Some?
    {
      BoundaryOfPrefix(zone, k);
    }
    if n <= max {
      assert zone[..|zone|] == zone && zone + "" == zone;
    } else if CharsAt(zone, max).Some? {
      var k := CharsAt(zone, max).value;
      assert ByteLen(zone[..k]) == max;
    }
  }

  // ----- sanitising -----

  function AllUses(ms: seq<Message>): seq<string> {
    if ms == [] then [] else Uses(ms[0]) + AllUses(ms[1..])
  }

  function AllResults(ms: seq<Message>): seq<string> {
    if ms == [] then [] else Results(ms[0]) + AllResults(ms[1..])
  }

  function Elements(s: seq<string>): set<string> {
    set x | x in s
  }

  function KeepBlocks(blocks: seq<Block>, useIds: set<string>, resultIds: set<string>): seq<Block> {
    if blocks == [] then []
    else
      var rest := KeepBlocks(blocks[1..], useIds, resultIds);
      if || (blocks[0].ToolUse? && blocks[0].id !in resultIds)
         || (blocks[0].ToolResult? && blocks[0].toolUseId !in useIds)
      then rest else [blocks[0]] + rest
  }

  function KeepMessage(m: Message, useIds: set<string>, resultIds: set<string>): Message {
    match m.content
    case Plain(_) => m
    case Blocks(blocks) =>
      var filtered := KeepBlocks(blocks, useIds, resultIds);
      if filtered == [] then m.(content := Plain(CLEARED)) else m.(content := Blocks(filtered))
  }

  function KeepAll(ms: seq<Message>, useIds: set<string>, resultIds: set<string>): (r: seq<Message>)
    ensures |r| == |ms|
  {
    if ms == [] then [] else [KeepMessage(ms[0], useIds, resultIds)] + KeepAll(ms[1..], useIds, resultIds)
  }

  function Sanitized(ms: seq<Message>): seq<Message> {
    KeepAll(ms, Elements(AllUses(ms)), Elements(AllResults(ms)))
  }

  method SanitizeToolPairs(ms: seq<Message>) returns (r: seq<Message>)
    ensures r == Sanitized(ms)
  {
    var toolUseIds, toolResultIds: set<string> := {}, {};
    for i := 0 to |ms|
      invariant toolUseIds + Elements(AllUses(ms[i..])) == Elements(AllUses(ms))
      invariant toolResultIds + Elements(AllResults(ms[i..])) == Elements(AllResults(ms))
    {
      assert ms[i..][1..] == ms[i + 1..];
      var uses, results := CollectIds(ms[i]);
      toolUseIds := toolUseIds + uses;
      toolResultIds := toolResultIds + results;
    }
    assert ms[|ms|..] == [];
    assert toolUseIds == Elements(AllUses(ms)) && toolResultIds == Elements(AllResults(ms));
    r := KeepAll(ms, toolUseIds, toolResultIds);
  }

  method CollectIds(m: Message) returns (uses: set<string>, results: set<string>)
    ensures uses == Elements(Uses(m)) && results == Elements(Results(m))
  {
    uses, results := {}, {};
    if m.content.Blocks? {
      var blocks := m.content.blocks;
      for i := 0 to |blocks|
        invariant uses + Elements(UseIds(blocks[i..])) == Elements(Uses(m))
        invariant results + Elements(ResultIds(blocks[i..])) == Elements(Results(m))
      {
        var block := blocks[i];
        assert blocks[i..][1..] == blocks[i + 1..] && blocks[i..][0] == block;
        match block
        case ToolUse(id, _, _) => uses := uses + {id};
        case ToolResult(id, _, _) => results := results + {id};
        case _ =>
      }
      assert blocks[|blocks|..] == [];
    }
  }

  // ----- merging neighbours of the same role -----

  method MergeSameRole(sanitized: seq<Message>) returns (result: seq<Message>)
    ensures result == DropTrailingAssistant(Merged(sanitized))
  {
    result := [];
    for i := 0 to |sanitized|
      invariant MergeFrom(result, sanitized[i..]) == Merged(sanitized)
    {
      var msg := sanitized[i];
      assert sanitized[i..][0] == msg && sanitized[i..][1..] == sanitized[i + 1..];
      if result != [] {
        var last := result[|result| - 1];
        if last.role == msg.role {
          var existing := MessageToText(last);
          var newText := MessageToText(msg);
          result := result[..|result| - 1] + [last.(content := Plain(existing + "\n" + newText))];
          continue;
        }
      }
      result := result + [msg];
    }
    assert sanitized[|sanitized|..] == [];
    if result != [] && result[|result| - 1].role == ASSISTANT {
      result := result[..|result| - 1];
    }
  }

  // ----- compressing -----

  /** What the summariser is asked: the earlier summary, if any, and the zone text. */
  datatype Prompt = Prompt(previous: Option<string>, zone: string)

  type Summarizer = Prompt -> Result<string, string>

  datatype Outcome =
    | Unchanged                                        // nothing to compress
    | CutInsideCharacter                               // the truncation panics
    | FellBack(tail: seq<Message>)                     // the summariser failed
    | Compacted(summary: string, messages: seq<Message>)

  function HeadEnd(config: CompressorConfig, ms: seq<Message>): (i: nat)
    ensures i <= |ms|
  {
    if config.protectFirstN < |ms| then config.protectFirstN else |ms|
  }

  predicate Compresses(config: CompressorConfig, ms: seq<Message>) {
    HeadEnd(config, ms) < TailStart(ms, config.tailTokenBudget)
  }

  function Pruned(config: CompressorConfig, ms: seq<Message>): (r: seq<Message>)
    ensures |r| == |ms|
  {
    PruneOldToolResults(ms, TailStart(ms, config.tailTokenBudget), config.toolResultMaxChars)
  }

  function Head(config: CompressorConfig, ms: seq<Message>): seq<Message>
    requires Compresses(config, ms)
  {
    Pruned(config, ms)[..HeadEnd(config, ms)]
  }

  function Zone(config: CompressorConfig, ms: seq<Message>): seq<Message>
    requires Compresses(config, ms)
  {
    Pruned(config, ms)[HeadEnd(config, ms)..TailStart(ms, config.tailTokenBudget)]
  }

  function Tail(config: CompressorConfig, ms: seq<Message>): seq<Message>
    requires Compresses(config, ms)
  {
    Pruned(config, ms)[TailStart(ms, config.tailTokenBudget)..]
  }

  function Bridge(summary: string): seq<Message> {
    [UserText("[Conversation Summary]\n" + summary), AssistantText(ACKNOWLEDGEMENT)]
  }

  function Assembled(head: seq<Message>, summary: string, tail: seq<Message>): seq<Message> {
    head + Bridge(summary) + tail
  }

  function CompressSpec(config: CompressorConfig, previous: Option<string>, ms: seq<Message>,
                        summarize: Summarizer): Outcome {
    if !Compresses(config, ms) then Unchanged
    else
      var zone := TruncateZone(ZoneText(Zone(config, ms)));
      if zone.None? then CutInsideCharacter
      else
        match summarize(Prompt(previous, zone.value))
        case Err(_) => FellBack(Tail(config, ms))
        case Ok(summary) =>
          Compacted(summary, DropTrailingAssistant(Merged(Sanitized(
            Assembled(Head(config, ms), summary, Tail(config, ms))))))
  }

  class ContextCompressor {
    const config: CompressorConfig
    var previousSummary: Option<string>
    var compressionCount: nat

    constructor (config: CompressorConfig)
      ensures this.config == config && previousSummary == None && compressionCount == 0
    {
      this.config := config;
      previousSummary := None;
      compressionCount := 0;
    }

    method Compress(ms: seq<Message>, summarize: Summarizer) returns (outcome: Outcome)
      modifies this
      ensures outcome == CompressSpec(config, old(previousSummary), ms, summarize)
      ensures outcome.Compacted? ==>
              previousSummary == Some(outcome.summary) && compressionCount == old(compressionCount) + 1
      ensures !outcome.Compacted? ==>
              previousSummary == old(previousSummary) && compressionCount == old(compressionCount)
    {
      var total := |ms|;
      var headEnd := if config.protectFirstN < total then config.protectFirstN else total;
      var tailStart := FindTailStart(ms, config.tailTokenBudget);
      if tailStart < headEnd { tailStart := headEnd; }
      if tailStart <= headEnd { return Unchanged; }

      var pruned := PruneOldToolResults(ms, tailStart, config.toolResultMaxChars);
      var head, zone, tail := pruned[..headEnd], pruned[headEnd..tailStart], pruned[tailStart..];
      var zoneText := ZoneText(zone);
      if zoneText == "" { return Unchanged; }

      var truncated := TruncateZone(zoneText);
      if truncated.None? { return CutInsideCharacter; }
      var answer := summarize(Prompt(previousSummary, truncated.value));
      if answer.Err? { return FellBack(tail); }

      var summary := answer.value;
      previousSummary := Some(summary);
      compressionCount := compressionCount + 1;
      var compacted := head + Bridge(summary) + tail;
      var sanitized := SanitizeToolPairs(compacted);
      var result := MergeSameRole(sanitized);
      return Compacted(summary, result);
    }
  }

  // ----- what pruning keeps -----

  lemma {:induction false} PruneKeepsIds(blocks: seq<Block>, maxChars: nat)
    ensures UseIds(PruneBlocks(blocks, maxChars)) == UseIds(blocks)
    ensures ResultIds(PruneBlocks(blocks, maxChars)) == ResultIds(blocks)
  {
    if blocks != [] {
      PruneKeepsIds(blocks[1..], maxChars);
      assert PruneBlocks(blocks, maxChars) == [PruneBlock(blocks[0], maxChars)] + PruneBlocks(blocks[1..], maxChars);
    }
  }

  /** Head, zone and tail partition the messages; the tail is verbatim and under budget; before it only
      over-long tool results are replaced, and no tool id changes. */
  lemma PartitionOfInput(config: CompressorConfig, ms: seq<Message>)
    requires Compresses(config, ms)
    ensures Head(config, ms) + Zone(config, ms) + Tail(config, ms) == Pruned(config, ms)
    ensures |Head(config, ms)| == HeadEnd(config, ms) && Zone(config, ms) != []
    ensures Tail(config, ms) == ms[TailStart(ms, config.tailTokenBudget)..]
    ensures config.tailTokenBudget > 0 ==> Tokens(Tail(config, ms)) < config.tailTokenBudget
    ensures forall i :: 0 <= i < |ms| ==> SameUpToLongResults(ms[i], Pruned(config, ms)[i], config.toolResultMaxChars)
    ensures forall i :: 0 <= i < TailStart(ms, config.tailTokenBudget) ==>
              LongResultsCleared(ms[i], Pruned(config, ms)[i], config.toolResultMaxChars)
  {
    PartsJoin(Pruned(config, ms), HeadEnd(config, ms), TailStart(ms, config.tailTokenBudget));
    TailIsVerbatim(config, ms);
    TailIsUnderBudget(config, ms);
    PrunedIsMild(config, ms);
  }

  lemma PartsJoin(ms: seq<Message>, i: nat, j: nat)
    requires i < j <= |ms|
    ensures ms[..i] + ms[i..j] + ms[j..] == ms && |ms[..i]| == i && ms[i..j] != []
  {
    assert |ms[i..j]| == j - i;
  }

  lemma TailIsUnderBudget(config: CompressorConfig, ms: seq<Message>)
    requires Compresses(config, ms)
    ensures config.tailTokenBudget > 0 ==> Tokens(Tail(config, ms)) < config.tailTokenBudget
  {
    TailIsVerbatim(config, ms);
    if config.tailTokenBudget > 0 { TailStartIsSmallest(ms, config.tailTokenBudget); }
  }

  lemma PrunedIsMild(config: CompressorConfig, ms: seq<Message>)
    ensures forall i :: 0 <= i < |ms| ==> SameUpToLongResults(ms[i], Pruned(config, ms)[i], config.toolResultMaxChars)
    ensures forall i :: 0 <= i < TailStart(ms, config.tailTokenBudget) ==>
              LongResultsCleared(ms[i], Pruned(config, ms)[i], config.toolResultMaxChars)
  {
    forall i | 0 <= i < |ms|
      ensures SameUpToLongResults(ms[i], Pruned(config, ms)[i], config.toolResultMaxChars)
    {
      PruneIsMild(ms[i], config.toolResultMaxChars);
    }
  }

  lemma TailIsVerbatim(config: CompressorConfig, ms: seq<Message>)
    requires Compresses(config, ms)
    ensures Tail(config, ms) == ms[TailStart(ms, config.tailTokenBudget)..]
  {
  }

  lemma PruneIsMild(m: Message, maxChars: nat)
    ensures SameUpToLongResults(m, PruneMessage(m, maxChars), maxChars)
    ensures SameUpToLongResults(m, m, maxChars)
  {
    if m.content.Blocks? { PruneKeepsIds(m.content.blocks, maxChars); }
  }

  /** No result over the limit is left, and each is replaced by the placeholder. */
  predicate LongResultsCleared(m: Message, p: Message, maxChars: nat) {
    m.content.Blocks? ==>
      && p.content.Blocks? && |p.content.blocks| == |m.content.blocks|
      && forall k :: 0 <= k < |m.content.blocks| ==>
           m.content.blocks[k].ToolResult? && ByteLen(m.content.blocks[k].content) > maxChars ==>
             p.content.blocks[k] == m.content.blocks[k].(content := PLACEHOLDER)
  }

  predicate SameUpToLongResults(m: Message, p: Message, maxChars: nat) {
    && p.role == m.role && Uses(p) == Uses(m) && Results(p) == Results(m)
    && (m.content.Plain? ==> p == m)
    && (m.content.Blocks? ==> p.content.Blocks? && ClearedResults(m.content.blocks, p.content.blocks, maxChars))
  }

  predicate ClearedResults(before: seq<Block>, after: seq<Block>, maxChars: nat) {
    && |after| == |before|
    && forall k :: 0 <= k < |before| ==>
         || after[k] == before[k]
         || (before[k].ToolResult? && ByteLen(before[k].content) > maxChars &&
            after[k] == before[k].(content := PLACEHOLDER))
  }

  lemma {:induction false} SameIdsPaired(open: seq<string>, ms: seq<Message>, ps: seq<Message>, left: seq<string>)
    requires |ps| == |ms| && PairedFromTo(open, ms, left)
    requires forall i :: 0 <= i < |ms| ==>
             ps[i].role == ms[i].role && Uses(ps[i]) == Uses(ms[i]) && Results(ps[i]) == Results(ms[i])
    ensures PairedFromTo(open, ps, left)
    decreases |ms|
  {
    if ms != [] { SameIdsPaired(Uses(ms[0]), ms[1..], ps[1..], left); }
  }

  lemma {:induction false} SameIdsAll(ms: seq<Message>, ps: seq<Message>)
    requires |ps| == |ms|
    requires forall i :: 0 <= i < |ms| ==> Uses(ps[i]) == Uses(ms[i])
    ensures AllUses(ps) == AllUses(ms)
  {
    if ms != [] { SameIdsAll(ms[1..], ps[1..]); }
  }

  // ----- what sanitising keeps -----

  function Filter(ids: seq<string>, keep: set<string>): seq<string> {
    if ids == [] then []
    else if ids[0] in keep then [ids[0]] + Filter(ids[1..], keep)
    else Filter(ids[1..], keep)
  }

  lemma {:induction false} FilterMember(ids: seq<string>, keep: set<string>, x: string)
    ensures x in Filter(ids, keep) <==> x in ids && x in keep
  {
    if ids != [] { FilterMember(ids[1..], keep, x); }
  }

  lemma {:induction false} FilterIdle(ids: seq<string>, keep: set<string>)
    ensures (forall x :: x in ids ==> x in keep) ==> Filter(ids, keep) == ids
    ensures (forall x :: x in ids ==> x !in keep) ==> Filter(ids, keep) == []
  {
    if ids != [] { FilterIdle(ids[1..], keep); }
  }

  lemma {:induction false} FilterAgrees(ids: seq<string>, a: set<string>, b: set<string>)
    requires forall x :: x in ids ==> (x in a <==> x in b)
    ensures Filter(ids, a) == Filter(ids, b)
  {
    if ids != [] { FilterAgrees(ids[1..], a, b); }
  }

  lemma {:induction false} KeepBlocksIds(blocks: seq<Block>, useIds: set<string>, resultIds: set<string>)
    ensures UseIds(KeepBlocks(blocks, useIds, resultIds)) == Filter(UseIds(blocks), resultIds)
    ensures ResultIds(KeepBlocks(blocks, useIds, resultIds)) == Filter(ResultIds(blocks), useIds)
  {
    if blocks != [] { KeepBlocksIds(blocks[1..], useIds, resultIds); }
  }

  lemma KeepMessageIds(m: Message, useIds: set<string>, resultIds: set<string>)
    ensures Uses(KeepMessage(m, useIds, resultIds)) == Filter(Uses(m), resultIds)
    ensures Results(KeepMessage(m, useIds, resultIds)) == Filter(Results(m), useIds)
  {
    if m.content.Blocks? { KeepBlocksIds(m.content.blocks, useIds, resultIds); }
  }

  lemma {:induction false} FilterConcat(a: seq<string>, b: seq<string>, keep: set<string>)
    ensures Filter(a + b, keep) == Filter(a, keep) + Filter(b, keep)
  {
    if a == [] {
      assert a + b == b;
    } else {
      assert (a + b)[1..] == a[1..] + b;
      FilterConcat(a[1..], b, keep);
    }
  }

  lemma {:induction false} KeepAllIds(ms: seq<Message>, useIds: set<string>, resultIds: set<string>)
    ensures AllUses(KeepAll(ms, useIds, resultIds)) == Filter(AllUses(ms), resultIds)
    ensures AllResults(KeepAll(ms, useIds, resultIds)) == Filter(AllResults(ms), useIds)
  {
    if ms != [] {
      KeepMessageIds(ms[0], useIds, resultIds);
      KeepAllIds(ms[1..], useIds, resultIds);
      FilterConcat(Uses(ms[0]), AllUses(ms[1..]), resultIds);
      FilterConcat(Results(ms[0]), AllResults(ms[1..]), useIds);
    }
  }

  /** Sanitising leaves exactly the ids that are both used and answered, so no use or result is an orphan. */
  lemma SanitizedIdsAgree(ms: seq<Message>)
    ensures Elements(AllUses(Sanitized(ms))) == Elements(AllResults(Sanitized(ms)))
            == Elements(AllUses(ms)) * Elements(AllResults(ms))
  {
    var u, r := Elements(AllUses(ms)), Elements(AllResults(ms));
    KeepAllIds(ms, u, r);
    forall x
      ensures x in AllUses(Sanitized(ms)) <==> x in u * r
      ensures x in AllResults(Sanitized(ms)) <==> x in u * r
    {
      FilterMember(AllUses(ms), r, x);
      FilterMember(AllResults(ms), u, x);
    }
  }

  lemma {:induction false} KeepBlocksIdle(blocks: seq<Block>, useIds: set<string>, resultIds: set<string>)
    requires Elements(UseIds(blocks)) <= resultIds && Elements(ResultIds(blocks)) <= useIds
    ensures KeepBlocks(blocks, useIds, resultIds) == blocks
  {
    if blocks != [] {
      var b, rest := blocks[0], blocks[1..];
      assert forall x :: x in UseIds(rest) ==> x in UseIds(blocks);
      assert forall x :: x in ResultIds(rest) ==> x in ResultIds(blocks);
      KeepBlocksIdle(rest, useIds, resultIds);
      if b.ToolUse? { assert b.id == UseIds(blocks)[0] && b.id in Elements(UseIds(blocks)); }
      if b.ToolResult? { assert b.toolUseId == ResultIds(blocks)[0] && b.toolUseId in Elements(ResultIds(blocks)); }
    }
  }

  predicate NoEmptyBlocks(ms: seq<Message>) {
    forall m :: m in ms ==> m.content != Blocks([])
  }

  lemma {:induction false} KeepAllIdle(ms: seq<Message>, useIds: set<string>, resultIds: set<string>)
    requires Elements(AllUses(ms)) <= resultIds && Elements(AllResults(ms)) <= useIds && NoEmptyBlocks(ms)
    ensures KeepAll(ms, useIds, resultIds) == ms
  {
    if ms != [] {
      assert forall x :: x in Uses(ms[0]) || x in AllUses(ms[1..]) ==> x in AllUses(ms);
      assert forall x :: x in Results(ms[0]) || x in AllResults(ms[1..]) ==> x in AllResults(ms);
      if ms[0].content.Blocks? { KeepBlocksIdle(ms[0].content.blocks, useIds, resultIds); }
      KeepAllIdle(ms[1..], useIds, resultIds);
    }
  }

  lemma {:induction false} KeepAllHasNoEmptyBlocks(ms: seq<Message>, useIds: set<string>, resultIds: set<string>)
    ensures NoEmptyBlocks(KeepAll(ms, useIds, resultIds))
  {
    if ms != [] { KeepAllHasNoEmptyBlocks(ms[1..], useIds, resultIds); }
  }

  /** Sanitising again changes nothing. */
  lemma SanitizedTwice(ms: seq<Message>)
    ensures Sanitized(Sanitized(ms)) == Sanitized(ms)
  {
    var once := Sanitized(ms);
    SanitizedIdsAgree(ms);
    KeepAllHasNoEmptyBlocks(ms, Elements(AllUses(ms)), Elements(AllResults(ms)));
    KeepAllIdle(once, Elements(AllUses(once)), Elements(AllResults(once)));
  }

  // ----- pairing through sanitising -----

  predicate NoDuplicates(ids: seq<string>) {
    forall i, j :: 0 <= i < j < |ids| ==> ids[i] != ids[j]
  }

  lemma {:induction false} UsesAndResults(open: seq<string>, ms: seq<Message>, left: seq<string>)
    requires PairedFromTo(open, ms, left)
    ensures open + AllUses(ms) == AllResults(ms) + left
    decreases |ms|
  {
    if ms == [] {
      assert open + [] == open && [] + left == left;
    } else {
      UsesAndResults(Uses(ms[0]), ms[1..], left);
      ConcatAssoc(open, Uses(ms[0]), AllUses(ms[1..]));
      ConcatAssoc(open, AllResults(ms[1..]), left);
    }
  }

  /** Sanitising a part whose surviving ids are `keep` keeps the pairing of what survives. */
  lemma {:induction false} KeepAllPaired(open: seq<string>, ms: seq<Message>, left: seq<string>,
                                         useIds: set<string>, resultIds: set<string>, keep: set<string>)
    requires PairedFromTo(open, ms, left)
    requires forall x :: x in AllUses(ms) ==> (x in resultIds <==> x in keep)
    requires forall x :: x in AllResults(ms) ==> (x in useIds <==> x in keep)
    ensures PairedFromTo(Filter(open, keep), KeepAll(ms, useIds, resultIds), Filter(left, keep))
    decreases |ms|
  {
    if ms != [] {
      var m, rest := ms[0], ms[1..];
      KeepMessageIds(m, useIds, resultIds);
      assert forall x :: x in Uses(m) || x in AllUses(rest) ==> x in AllUses(ms);
      assert forall x :: x in Results(m) || x in AllResults(rest) ==> x in AllResults(ms);
      FilterAgrees(Uses(m), resultIds, keep);
      FilterAgrees(Results(m), useIds, keep);
      KeepAllPaired(Uses(m), rest, left, useIds, resultIds, keep);
      KeptMessageFits(m, useIds, resultIds);
    }
  }

  lemma KeptMessageFits(m: Message, useIds: set<string>, resultIds: set<string>)
    requires RolesFit(m)
    ensures RolesFit(KeepMessage(m, useIds, resultIds))
  {
    KeepMessageIds(m, useIds, resultIds);
  }

  lemma {:induction false} KeepAllConcat(a: seq<Message>, b: seq<Message>, useIds: set<string>, resultIds: set<string>)
    ensures KeepAll(a + b, useIds, resultIds) == KeepAll(a, useIds, resultIds) + KeepAll(b, useIds, resultIds)
  {
    if a == [] {
      assert a + b == b;
    } else {
      assert (a + b)[1..] == a[1..] + b;
      KeepAllConcat(a[1..], b, useIds, resultIds);
    }
  }

  lemma {:induction false} AllIdsConcat(a: seq<Message>, b: seq<Message>)
    ensures AllUses(a + b) == AllUses(a) + AllUses(b) && AllResults(a + b) == AllResults(a) + AllResults(b)
  {
    if a == [] {
      assert a + b == b;
      assert [] + AllUses(b) == AllUses(b) && [] + AllResults(b) == AllResults(b);
    } else {
      assert (a + b)[1..] == a[1..] + b && (a + b)[0] == a[0];
      AllIdsConcat(a[1..], b);
      ConcatAssoc(Uses(a[0]), AllUses(a[1..]), AllUses(b));
      ConcatAssoc(Results(a[0]), AllResults(a[1..]), AllResults(b));
    }
  }

  /** The ids left open by the head and the zone, when all ids differ, occur nowhere else in the assembly. */
  lemma CutIdsAreOrphans(head: seq<Message>, zone: seq<Message>, tail: seq<Message>, h: seq<string>, z: seq<string>)
    requires zone != [] && PairedFromTo([], head, h) && PairedFromTo(h, zone, z) && PairedFromTo(z, tail, [])
    requires NoDuplicates(AllUses(head + zone + tail))
    ensures forall x :: x in AllUses(head) ==> (x in AllResults(head) + AllResults(tail) <==> x in AllResults(head))
    ensures forall x :: x in h ==> x !in AllResults(head)
    ensures forall x :: x in AllResults(tail) ==> (x in AllUses(head) + AllUses(tail) <==> x in AllUses(tail))
    ensures forall x :: x in z ==> x !in AllUses(tail)
    ensures forall x :: x in AllResults(head) ==> x in AllUses(head)
    ensures forall x :: x in AllUses(tail) ==> x in AllResults(tail)
  {
    AllIdsConcat(head + zone, tail);
    AllIdsConcat(head, zone);
    UsesAndResults([], head, h);
    UsesAndResults(z, tail, []);
    var uh, uz, ut := AllUses(head), AllUses(zone), AllUses(tail);
    assert [] + uh == uh && AllResults(tail) + [] == AllResults(tail);
    assert uh == AllResults(head) + h && z + ut == AllResults(tail);
    LeftIsUsed(h, zone, z);
    DisjointParts(uh, uz, ut);
    DisjointHalves(AllResults(head), h, uz + ut);
  }

  lemma {:induction false} LeftIsUsed(open: seq<string>, ms: seq<Message>, left: seq<string>)
    requires ms != [] && PairedFromTo(open, ms, left)
    ensures forall x :: x in left ==> x in AllUses(ms)
    decreases |ms|
  {
    if |ms| > 1 {
      LeftIsUsed(Uses(ms[0]), ms[1..], left);
    } else {
      assert ms[1..] == [] && Uses(ms[0]) == left;
    }
  }

  lemma DisjointParts(a: seq<string>, b: seq<string>, c: seq<string>)
    requires NoDuplicates(a + b + c)
    ensures forall x :: x in a ==> x !in b && x !in c
    ensures forall x :: x in b ==> x !in c
    ensures NoDuplicates(a + (b + c))
  {
    var s := a + b + c;
    assert s == a + (b + c);
    forall x | x in a
      ensures x !in b && x !in c
    {
      var i :| 0 <= i < |a| && a[i] == x;
      assert forall j :: 0 <= j < |b| ==> s[i] == x && s[|a| + j] == b[j];
      assert forall j :: 0 <= j < |c| ==> s[i] == x && s[|a| + |b| + j] == c[j];
    }
    forall x | x in b
      ensures x !in c
    {
      var i :| 0 <= i < |b| && b[i] == x;
      assert forall j :: 0 <= j < |c| ==> s[|a| + i] == x && s[|a| + |b| + j] == c[j];
    }
  }

  lemma DisjointHalves(a: seq<string>, b: seq<string>, c: seq<string>)
    requires NoDuplicates(a + b + c)
    ensures forall x :: x in b ==> x !in a
  {
    DisjointParts(a, b, c);
  }

  lemma BridgeIsToolless(summary: string, u: set<string>, r: set<string>)
    ensures AllUses(Bridge(summary)) == [] && AllResults(Bridge(summary)) == [] && Paired(Bridge(summary))
    ensures KeepAll(Bridge(summary), u, r) == Bridge(summary)
  {
    var b := Bridge(summary);
    var last := [b[1]];
    assert b[1..] == last && last[1..] == [];
    assert Uses(b[0]) == [] && Results(b[0]) == [] && Uses(b[1]) == [] && Results(b[1]) == [];
    assert AllUses(last) == [] && AllResults(last) == [];
    assert Paired(last) && KeepAll(last, u, r) == last;
  }

  lemma AssembledIds(head: seq<Message>, summary: string, tail: seq<Message>)
    ensures AllUses(Assembled(head, summary, tail)) == AllUses(head) + AllUses(tail)
    ensures AllResults(Assembled(head, summary, tail)) == AllResults(head) + AllResults(tail)
  {
    BridgeIsToolless(summary, {}, {});
    AllIdsConcat(head + Bridge(summary), tail);
    AllIdsConcat(head, Bridge(summary));
    assert AllUses(head) + [] == AllUses(head) && AllResults(head) + [] == AllResults(head);
  }

  lemma AssembledParts(head: seq<Message>, summary: string, tail: seq<Message>, u: set<string>, r: set<string>)
    ensures AllUses(Assembled(head, summary, tail)) == AllUses(head) + AllUses(tail)
    ensures AllResults(Assembled(head, summary, tail)) == AllResults(head) + AllResults(tail)
    ensures KeepAll(Assembled(head, summary, tail), u, r) ==
            Assembled(KeepAll(head, u, r), summary, KeepAll(tail, u, r))
  {
    AssembledIds(head, summary, tail);
    BridgeIsToolless(summary, u, r);
    KeepAllConcat(head + Bridge(summary), tail, u, r);
    KeepAllConcat(head, Bridge(summary), u, r);
  }

  lemma AssembledPaired(head: seq<Message>, summary: string, tail: seq<Message>)
    requires Paired(head) && Paired(tail)
    ensures Paired(Assembled(head, summary, tail))
  {
    BridgeIsToolless(summary, {}, {});
    PairedConcat([], head, [], Bridge(summary), []);
    PairedConcat([], head + Bridge(summary), [], tail, []);
  }

  lemma KeptHeadIsPaired(head: seq<Message>, h: seq<string>, u: set<string>, r: set<string>)
    requires PairedFromTo([], head, h)
    requires forall x :: x in AllUses(head) ==> (x in r <==> x in AllResults(head))
    requires forall x :: x in AllResults(head) ==> x in u
    requires forall x :: x in h ==> x !in AllResults(head)
    ensures Paired(KeepAll(head, u, r))
  {
    var keep := Elements(AllResults(head));
    KeepAllPaired([], head, h, u, r, keep);
    FilterIdle(h, keep);
  }

  lemma KeptTailIsPaired(tail: seq<Message>, z: seq<string>, u: set<string>, r: set<string>)
    requires PairedFromTo(z, tail, [])
    requires forall x :: x in AllResults(tail) ==> (x in u <==> x in AllUses(tail))
    requires forall x :: x in AllUses(tail) ==> x in r
    requires forall x :: x in z ==> x !in AllUses(tail)
    ensures Paired(KeepAll(tail, u, r))
  {
    var keep := Elements(AllUses(tail));
    KeepAllPaired(z, tail, [], u, r, keep);
    FilterIdle(z, keep);
  }

  /** With distinct ids, sanitising the assembly of head, bridge and tail repairs the cut. */
  lemma SanitizedIsPaired(head: seq<Message>, zone: seq<Message>, tail: seq<Message>, summary: string)
    requires zone != [] && Paired(head + zone + tail) && NoDuplicates(AllUses(head + zone + tail))
    ensures Paired(Sanitized(Assembled(head, summary, tail)))
  {
    var z, h := OpenAfter([], head + zone), OpenAfter([], head);
    PairedSplit([], head + zone, tail, []);
    PairedSplit([], head, zone, z);
    assert OpenAfter(h, zone) == z;
    CutIdsAreOrphans(head, zone, tail, h, z);
    var u, r := Elements(AllUses(head) + AllUses(tail)), Elements(AllResults(head) + AllResults(tail));
    AssembledParts(head, summary, tail, u, r);
    KeptHeadIsPaired(head, h, u, r);
    KeptTailIsPaired(tail, z, u, r);
    AssembledPaired(KeepAll(head, u, r), summary, KeepAll(tail, u, r));
  }

  // ----- pairing through the role merge -----

  /** The message has a neighbour of its own role, so the merge flattens it to text. */
  predicate Flattened(ms: seq<Message>, i: nat) {
    && i < |ms|
    && ((i > 0 && ms[i - 1].role == ms[i].role) || (i + 1 < |ms| && ms[i + 1].role == ms[i].role))
  }

  /** Tool uses and their answers are flattened together or not at all. */
  predicate SeamsClean(ms: seq<Message>) {
    forall i :: 0 <= i < |ms| ==> SeamAt(ms, i)
  }

  predicate SeamAt(ms: seq<Message>, i: nat)
    requires i < |ms|
  {
    Uses(ms[i]) != [] ==> (Flattened(ms, i) <==> Flattened(ms, i + 1))
  }

  /** How many messages at the front share the first one's role. */
  function RunLength(ms: seq<Message>): (k: nat)
    requires ms != []
    ensures 1 <= k <= |ms|
    ensures forall i :: 0 <= i < k ==> ms[i].role == ms[0].role
    ensures k < |ms| ==> ms[k].role != ms[0].role
  {
    if |ms| == 1 || ms[1].role != ms[0].role then 1 else 1 + RunLength(ms[1..])
  }

  /** A run of one message stays as it is; a longer one becomes one text message. */
  function RunMessage(run: seq<Message>): Message
    requires run != []
  {
    if |run| == 1 then run[0] else Message(run[0].role, Plain(Join(Texts(run), "\n")))
  }

  /** The merge seen as a whole: each run of one role becomes one message. */
  function MergeRuns(ms: seq<Message>): seq<Message>
    decreases |ms|
  {
    if ms == [] then []
    else
      var k := RunLength(ms);
      [RunMessage(ms[..k])] + MergeRuns(ms[k..])
  }

  predicate OneRole(run: seq<Message>) {
    run != [] && forall i :: 0 <= i < |run| ==> run[i].role == run[0].role
  }

  lemma MergeRunsStep(run: seq<Message>, ms: seq<Message>)
    requires OneRole(run) && (ms != [] ==> ms[0].role != run[0].role)
    ensures MergeRuns(run + ms) == [RunMessage(run)] + MergeRuns(ms)
  {
    var all := run + ms;
    var k := RunLength(all);
    assert forall i :: 0 <= i < |run| ==> all[i] == run[i];
    assert ms != [] ==> all[|run|] == ms[0];
    assert k == |run|;
    assert all[..k] == run && all[k..] == ms;
  }

  lemma MergeOneRun(acc: seq<Message>, run: seq<Message>, m: Message)
    requires run != [] && m.role == run[0].role
    ensures MergeOne(acc + [RunMessage(run)], m) == acc + [RunMessage(run + [m])]
  {
    var last := RunMessage(run);
    assert (acc + [last])[..|acc|] == acc;
    assert Texts(run + [m]) == Texts(run) + [MessageToText(m)];
    JoinConcat(Texts(run), [MessageToText(m)], "\n");
    if |run| == 1 { assert Texts(run) == [MessageToText(run[0])]; }
    assert MessageToText(last) == Join(Texts(run), "\n");
    assert (run + [m])[0] == run[0];
  }

  lemma {:induction false} MergeFromIsRuns(acc: seq<Message>, run: seq<Message>, ms: seq<Message>)
    requires OneRole(run)
    ensures MergeFrom(acc + [RunMessage(run)], ms) == acc + MergeRuns(run + ms)
    decreases |ms|
  {
    if ms == [] {
      MergeRunsStep(run, []);
    } else if ms[0].role == run[0].role {
      MergeOneRun(acc, run, ms[0]);
      assert ms == [ms[0]] + ms[1..];
      ConcatAssoc(run, [ms[0]], ms[1..]);
      MergeFromIsRuns(acc, run + [ms[0]], ms[1..]);
    } else {
      assert ms == [ms[0]] + ms[1..];
      MergeFromIsRuns(acc + [RunMessage(run)], [ms[0]], ms[1..]);
      MergeRunsStep(run, ms);
      ConcatAssoc(acc, [RunMessage(run)], MergeRuns(ms));
    }
  }

  lemma MergedIsRuns(ms: seq<Message>)
    ensures Merged(ms) == MergeRuns(ms)
  {
    if ms != [] {
      var run := [ms[0]];
      assert [] + run == run && ms == run + ms[1..];
      MergeFromIsRuns([], run, ms[1..]);
      assert [] + MergeRuns(ms) == MergeRuns(ms);
    }
  }

  lemma InnerMessageIsClosed(ms: seq<Message>, k: nat, i: nat)
    requires AllLinked(ms) && ms != [] && k == RunLength(ms) && i < k - 1
    ensures Uses(ms[i]) == [] && Results(ms[i + 1]) == []
  {
    assert LinkedAt(ms, i) && LinkedAt(ms, i + 1);
  }

  /** Inside a run of one role nothing is used and answered. */
  lemma RunIsClosed(open: seq<string>, ms: seq<Message>, k: nat)
    requires PairedFromTo(open, ms, []) && ms != [] && k == RunLength(ms)
    ensures forall i :: 0 <= i < k - 1 ==> Uses(ms[i]) == []
    ensures k > 1 ==> Results(ms[k - 1]) == []
    ensures PairedFromTo(Uses(ms[k - 1]), ms[k..], [])
  {
    PairedPointwise(open, ms, []);
    forall i | 0 <= i < k - 1
      ensures Uses(ms[i]) == []
    {
      InnerMessageIsClosed(ms, k, i);
    }
    if k > 1 { InnerMessageIsClosed(ms, k, k - 2); }
    assert ms == ms[..k] + ms[k..];
    PairedSplit(open, ms[..k], ms[k..], []);
  }

  /** `ms` changes its role at `k`. */
  predicate BreaksAt(ms: seq<Message>, k: nat) {
    0 < k <= |ms| && (k < |ms| ==> ms[k].role != ms[k - 1].role)
  }

  lemma FlattenedInSuffix(ms: seq<Message>, k: nat, i: nat)
    requires BreaksAt(ms, k)
    ensures Flattened(ms[k..], i) <==> Flattened(ms, k + i)
  {
    var rest := ms[k..];
    assert forall j :: 0 <= j < |rest| ==> rest[j] == ms[k + j];
  }

  lemma FlattenedInRun(ms: seq<Message>, k: nat)
    requires ms != [] && k == RunLength(ms)
    ensures BreaksAt(ms, k)
    ensures Flattened(ms, k - 1) <==> k > 1
    ensures Flattened(ms, 0) <==> k > 1
  {
  }

  lemma SeamInSuffix(ms: seq<Message>, k: nat, i: nat)
    requires BreaksAt(ms, k) && k + i < |ms|
    ensures SeamAt(ms[k..], i) <==> SeamAt(ms, k + i)
  {
    var rest := ms[k..];
    FlattenedInSuffix(ms, k, i);
    FlattenedInSuffix(ms, k, i + 1);
    assert rest[i] == ms[k + i];
    assert Flattened(rest, i) == Flattened(ms, k + i) && Flattened(rest, i + 1) == Flattened(ms, k + i + 1);
  }

  lemma SeamsInSuffix(ms: seq<Message>, k: nat)
    requires BreaksAt(ms, k)
    ensures SeamsClean(ms[k..]) <==> forall i :: k <= i < |ms| ==> SeamAt(ms, i)
  {
    var rest := ms[k..];
    forall i | 0 <= i < |rest|
      ensures SeamAt(rest, i) <==> SeamAt(ms, k + i)
    {
      SeamInSuffix(ms, k, i);
    }
    if SeamsClean(rest) {
      forall i | k <= i < |ms|
        ensures SeamAt(ms, i)
      {
        assert SeamAt(rest, i - k);
      }
    }
  }

  lemma SeamsStep(open: seq<string>, ms: seq<Message>, k: nat)
    requires PairedFromTo(open, ms, []) && ms != [] && k == RunLength(ms)
    ensures SeamsClean(ms) <==>
            (Uses(ms[k - 1]) != [] ==> (k > 1 <==> Flattened(ms[k..], 0))) && SeamsClean(ms[k..])
  {
    RunIsClosed(open, ms, k);
    FlattenedInRun(ms, k);
    SeamsInSuffix(ms, k);
    FlattenedInSuffix(ms, k, 0);
    assert SeamAt(ms, k - 1) <==> (Uses(ms[k - 1]) != [] ==> (k > 1 <==> Flattened(ms[k..], 0)));
    assert forall i :: 0 <= i < k - 1 ==> SeamAt(ms, i);
  }

  lemma RunMessageIds(open: seq<string>, ms: seq<Message>, k: nat)
    requires PairedFromTo(open, ms, []) && ms != [] && k == RunLength(ms)
    ensures var m := RunMessage(ms[..k]);
            && RolesFit(m) && Uses(m) == (if k > 1 then [] else Uses(ms[k - 1]))
            && Results(m) == (if k > 1 then [] else open)
  {
    assert ms[..k][0] == ms[0];
  }

  /** The merge keeps the pairing exactly when the seams are clean. `flat` tells whether the message
      before was flattened, so that its uses are gone. */
  lemma {:induction false} MergedPairing(flat: bool, open: seq<string>, ms: seq<Message>)
    requires PairedFromTo(open, ms, [])
    ensures PairedFromTo(if flat then [] else open, MergeRuns(ms), []) <==>
            (open != [] ==> (Flattened(ms, 0) <==> flat)) && SeamsClean(ms)
    decreases |ms|
  {
    if ms != [] {
      var k := RunLength(ms);
      var left := Uses(ms[k - 1]);
      RunIsClosed(open, ms, k);
      MergedPairing(k > 1, left, ms[k..]);
      SeamsStep(open, ms, k);
      FlattenedInRun(ms, k);
      RunMessageIds(open, ms, k);
      assert MergeRuns(ms)[1..] == MergeRuns(ms[k..]);
    }
  }

  /** The last merged message is made of the last messages. */
  lemma {:induction false} LastRunIsSuffix(ms: seq<Message>) returns (j: nat)
    requires ms != []
    ensures j < |ms| && MergeRuns(ms) != [] && MergeRuns(ms)[|MergeRuns(ms)| - 1] == RunMessage(ms[j..])
    decreases |ms|
  {
    var k := RunLength(ms);
    if k < |ms| {
      var i := LastRunIsSuffix(ms[k..]);
      LastOfCons(RunMessage(ms[..k]), MergeRuns(ms[k..]));
      assert ms[k..][i..] == ms[k + i..];
      return k + i;
    }
    assert ms[..k] == ms[0..] && ms[k..] == [];
    return 0;
  }

  lemma LastRunUses(ms: seq<Message>)
    requires Paired(ms) && ms != []
    ensures MergeRuns(ms) != []
    ensures var last := MergeRuns(ms)[|MergeRuns(ms)| - 1]; RolesFit(last) && Uses(last) == []
  {
    var j := LastRunIsSuffix(ms);
    PairedPointwise([], ms, []);
    assert LinkedAt(ms, |ms| - 1);
  }

  lemma LastOfCons(first: Message, later: seq<Message>)
    requires later != []
    ensures var all := [first] + later; all[|all| - 1] == later[|later| - 1]
  {
  }

  /** Dropping the trailing assistant message neither breaks nor repairs the pairing. */
  lemma DroppedPairing(ms: seq<Message>)
    requires ms != [] ==> RolesFit(ms[|ms| - 1]) && Uses(ms[|ms| - 1]) == []
    ensures Paired(DropTrailingAssistant(ms)) <==> Paired(ms)
  {
    if ms != [] && ms[|ms| - 1].role == ASSISTANT {
      var pre, last := ms[..|ms| - 1], ms[|ms| - 1];
      assert ms == pre + [last];
      if Paired(pre) { AppendToolless(pre, last); }
      if Paired(ms) { DropLast(ms); }
    }
  }

  // ----- main results -----

  /** Where a run of the compressor succeeds, what it started from. */
  lemma CompactedFrom(config: CompressorConfig, previous: Option<string>, ms: seq<Message>, summarize: Summarizer)
    returns (joined: seq<Message>)
    requires CompressSpec(config, previous, ms, summarize).Compacted?
    ensures Compresses(config, ms)
    ensures joined ==
            Sanitized(Assembled(Head(config, ms), CompressSpec(config, previous, ms, summarize).summary,
                                Tail(config, ms)))
    ensures CompressSpec(config, previous, ms, summarize).messages == DropTrailingAssistant(Merged(joined))
  {
    joined := Sanitized(Assembled(Head(config, ms), CompressSpec(config, previous, ms, summarize).summary,
                                  Tail(config, ms)));
  }

  /** The list whose seams decide, as a caller can form it before any summary is known. */
  function SeamList(config: CompressorConfig, ms: seq<Message>): seq<Message>
    requires Compresses(config, ms)
  {
    Sanitized(Assembled(Head(config, ms), "", Tail(config, ms)))
  }

  lemma SeamsIgnoreSummary(head: seq<Message>, tail: seq<Message>, summary: string)
    ensures SeamsClean(Sanitized(Assembled(head, summary, tail))) <==> SeamsClean(Sanitized(Assembled(head, "", tail)))
  {
    var u, r := Elements(AllUses(head) + AllUses(tail)), Elements(AllResults(head) + AllResults(tail));
    AssembledParts(head, summary, tail, u, r);
    AssembledParts(head, "", tail, u, r);
    var a, b := Sanitized(Assembled(head, summary, tail)), Sanitized(Assembled(head, "", tail));
    var kh, kt := KeepAll(head, u, r), KeepAll(tail, u, r);
    assert a == kh + Bridge(summary) + kt && b == kh + Bridge("") + kt;
    forall i | 0 <= i < |a|
      ensures a[i].role == b[i].role && Uses(a[i]) == Uses(b[i])
    {
      SameAtBridge(kh, kt, summary, i);
    }
    SameSeams(a, b);
  }

  lemma SameSeams(a: seq<Message>, b: seq<Message>)
    requires |a| == |b| && forall i :: 0 <= i < |a| ==> a[i].role == b[i].role && Uses(a[i]) == Uses(b[i])
    ensures SeamsClean(a) <==> SeamsClean(b)
  {
    forall i | 0 <= i < |a|
      ensures SeamAt(a, i) <==> SeamAt(b, i)
    {
    }
  }

  lemma SameAtBridge(head: seq<Message>, tail: seq<Message>, summary: string, i: nat)
    requires i < |head| + 2 + |tail|
    ensures var a, b := (head + Bridge(summary) + tail)[i], (head + Bridge("") + tail)[i];
            a.role == b.role && Uses(a) == Uses(b)
  {
  }

  /** Compaction keeps tool pairing exactly under the seam condition: for a paired input with distinct ids,
      the compacted messages are paired if and only if the role merge flattens uses and their answers
      together or not at all. */
  lemma CompactionKeepsPairing(config: CompressorConfig, previous: Option<string>, ms: seq<Message>,
                               summarize: Summarizer)
    requires Paired(ms) && NoDuplicates(AllUses(ms))
    requires CompressSpec(config, previous, ms, summarize).Compacted?
    ensures Compresses(config, ms)
    ensures Paired(CompressSpec(config, previous, ms, summarize).messages) <==> SeamsClean(SeamList(config, ms))
  {
    var joined := CompactedFrom(config, previous, ms, summarize);
    var head, zone, tail := Head(config, ms), Zone(config, ms), Tail(config, ms);
    var summary := CompressSpec(config, previous, ms, summarize).summary;
    PartitionOfInput(config, ms);
    PrunedIsPaired(config, ms);
    SanitizedIsPaired(head, zone, tail, summary);
    SeamsIgnoreSummary(head, tail, summary);
    MergedIsRuns(joined);
    MergedPairing(false, [], joined);
    if joined != [] { LastRunUses(joined); }
    DroppedPairing(Merged(joined));
  }

  lemma PrunedIsPaired(config: CompressorConfig, ms: seq<Message>)
    requires Compresses(config, ms) && Paired(ms) && NoDuplicates(AllUses(ms))
    ensures Paired(Pruned(config, ms)) && NoDuplicates(AllUses(Pruned(config, ms)))
  {
    PartitionOfInput(config, ms);
    var p := Pruned(config, ms);
    assert forall i :: 0 <= i < |ms| ==> SameUpToLongResults(ms[i], p[i], config.toolResultMaxChars);
    SameIdsPaired([], ms, p, []);
    SameIdsAll(ms, p);
  }

  /** A compacted history is not empty, strictly alternates and, when its roles are user and assistant,
      ends with the user. */
  lemma CompactionShape(config: CompressorConfig, previous: Option<string>, ms: seq<Message>, summarize: Summarizer)
    requires CompressSpec(config, previous, ms, summarize).Compacted?
    ensures var out := CompressSpec(config, previous, ms, summarize).messages;
            && out != [] && Alternates(out) && out[|out| - 1].role != ASSISTANT
            && (UserAndAssistant(ms) ==> UserAndAssistant(out) && out[|out| - 1].role == USER)
  {
    var joined := CompactedFrom(config, previous, ms, summarize);
    var summary := CompressSpec(config, previous, ms, summarize).summary;
    var head, tail := Head(config, ms), Tail(config, ms);
    ResultShape(head, summary, tail);
    if UserAndAssistant(ms) {
      PartsOfTwoRoles(config, ms);
      AssembledOfTwoRoles(head, summary, tail);
    }
  }

  lemma ResultShape(head: seq<Message>, summary: string, tail: seq<Message>)
    ensures var out := DropTrailingAssistant(Merged(Sanitized(Assembled(head, summary, tail))));
            out != [] && Alternates(out) && out[|out| - 1].role != ASSISTANT
  {
    MergeFromText([], Sanitized(Assembled(head, summary, tail)));
    MergedRoles(head, summary, tail);
    LastIsNotAssistant(Merged(Sanitized(Assembled(head, summary, tail))));
  }

  lemma MergedRoles(head: seq<Message>, summary: string, tail: seq<Message>)
    ensures var parts := Assembled(head, summary, tail);
            RoleSet(Merged(Sanitized(parts))) == RoleSet(parts) && USER in RoleSet(parts)
  {
    var parts := Assembled(head, summary, tail);
    KeepAllRoles(parts, Elements(AllUses(parts)), Elements(AllResults(parts)));
    MergeFromRoles([], Sanitized(parts));
    assert parts[|head|] == UserText("[Conversation Summary]\n" + summary);
  }

  lemma AssembledOfTwoRoles(head: seq<Message>, summary: string, tail: seq<Message>)
    requires UserAndAssistant(head) && UserAndAssistant(tail)
    ensures UserAndAssistant(DropTrailingAssistant(Merged(Sanitized(Assembled(head, summary, tail)))))
  {
    MergedRoles(head, summary, tail);
    RoleSetConcat(head + Bridge(summary), tail);
    RoleSetConcat(head, Bridge(summary));
    RolesOfUserAndAssistant(head);
    RolesOfUserAndAssistant(tail);
    RolesOfUserAndAssistant(Merged(Sanitized(Assembled(head, summary, tail))));
  }

  lemma PartsOfTwoRoles(config: CompressorConfig, ms: seq<Message>)
    requires Compresses(config, ms) && UserAndAssistant(ms)
    ensures UserAndAssistant(Head(config, ms)) && UserAndAssistant(Tail(config, ms))
  {
    var p := Pruned(config, ms);
    forall i | 0 <= i < |ms|
      ensures p[i].role == USER || p[i].role == ASSISTANT
    {
      assert ms[i] in ms;
    }
  }

  /** Joined line by line, the text of the result is the text of the sanitised head, summary, acknowledgement
      and tail, except that one final assistant message may be dropped. */
  lemma CompactionKeepsText(config: CompressorConfig, previous: Option<string>, ms: seq<Message>, summarize: Summarizer)
    requires CompressSpec(config, previous, ms, summarize).Compacted?
    ensures var outcome := CompressSpec(config, previous, ms, summarize);
            var joined := Sanitized(Assembled(Head(config, ms), outcome.summary, Tail(config, ms)));
            || JoinsTo(outcome.messages, joined)
            || exists last: Message :: last.role == ASSISTANT && JoinsTo(outcome.messages + [last], joined)
  {
    var joined := CompactedFrom(config, previous, ms, summarize);
    MergedText(joined);
  }

  lemma MergedText(joined: seq<Message>)
    ensures || JoinsTo(DropTrailingAssistant(Merged(joined)), joined)
            || exists last: Message ::
                 last.role == ASSISTANT && JoinsTo(DropTrailingAssistant(Merged(joined)) + [last], joined)
  {
    var merged := Merged(joined);
    MergeFromText([], joined);
    assert [] + joined == joined;
    assert JoinsTo(merged, joined);
    if merged != [] && merged[|merged| - 1].role == ASSISTANT {
      assert merged[..|merged| - 1] + [merged[|merged| - 1]] == merged;
    }
  }

  lemma {:induction false} KeepAllRoles(ms: seq<Message>, u: set<string>, r: set<string>)
    ensures RoleSet(KeepAll(ms, u, r)) == RoleSet(ms)
  {
    if ms != [] {
      KeepAllRoles(ms[1..], u, r);
      RoleSetConcat([ms[0]], ms[1..]);
      RoleSetConcat([KeepMessage(ms[0], u, r)], KeepAll(ms[1..], u, r));
      assert ms == [ms[0]] + ms[1..];
      assert RoleSet([ms[0]]) == {ms[0].role} == RoleSet([KeepMessage(ms[0], u, r)]);
    }
  }

  lemma LastIsNotAssistant(merged: seq<Message>)
    requires Alternates(merged) && USER in RoleSet(merged)
    ensures var out := DropTrailingAssistant(merged);
            out != [] && Alternates(out) && out[|out| - 1].role != ASSISTANT
  {
    if |merged| == 1 { assert merged[0].role == USER; }
  }

  lemma {:induction false} KeepAllAt(ms: seq<Message>, u: set<string>, r: set<string>, i: nat)
    requires i < |ms|
    ensures KeepAll(ms, u, r)[i] == KeepMessage(ms[i], u, r)
  {
    if i > 0 { KeepAllAt(ms[1..], u, r, i - 1); }
  }

  lemma {:induction false} ResultsAreCollected(ms: seq<Message>, i: nat)
    requires i < |ms|
    ensures forall x :: x in Results(ms[i]) ==> x in AllResults(ms)
  {
    if i > 0 { ResultsAreCollected(ms[1..], i - 1); }
  }

  lemma OpeningSeam(head: seq<Message>, tail: seq<Message>)
    requires |head| == 3 && head[0].role == USER && head[1].role == ASSISTANT && head[2].role == USER
    requires Results(head[2]) == Uses(head[1]) != []
    ensures !SeamsClean(Sanitized(Assembled(head, "", tail)))
  {
    var parts := Assembled(head, "", tail);
    var list := Sanitized(parts);
    var u, r := Elements(AllUses(parts)), Elements(AllResults(parts));
    assert parts[1] == head[1] && parts[2] == head[2] && parts[3].role == USER;
    forall i | 0 <= i < 4
      ensures list[i] == KeepMessage(parts[i], u, r)
    {
      KeepAllAt(parts, u, r, i);
    }
    KeepMessageIds(parts[1], u, r);
    ResultsAreCollected(parts, 2);
    FilterIdle(Uses(parts[1]), r);
    assert !SeamAt(list, 1);
  }

  // ----- when there is something to compress -----

  /** Nothing is compressed exactly when all that follows the protected messages is under budget. */
  lemma {:induction false} UnchangedWhenSmall(config: CompressorConfig, previous: Option<string>, ms: seq<Message>,
                                              summarize: Summarizer)
    requires config.tailTokenBudget > 0
    ensures CompressSpec(config, previous, ms, summarize) == Unchanged <==>
            |ms| <= config.protectFirstN || Tokens(ms[config.protectFirstN..]) < config.tailTokenBudget
  {
    var h, start := HeadEnd(config, ms), TailStart(ms, config.tailTokenBudget);
    TailStartIsSmallest(ms, config.tailTokenBudget);
    if h < |ms| && start <= h { SuffixTokens(ms, start, h); }
  }

  // ----- what the summariser is asked -----

  /** How the summariser gets to see a message. */
  function EntryOf(m: Message): string {
    "[" + m.role + "]: " + MessageToText(m) + "\n\n"
  }

  /** Where the entry of message `k` starts: behind those of the messages before it. */
  function EntryStart(zone: seq<Message>, k: nat): nat
    requires k <= |zone|
  {
    if k == 0 then 0 else EntryStart(zone, k - 1) + |EntryOf(zone[k - 1])|
  }

  /** `text` is the entries of the messages, one after the other and nothing else. */
  ghost predicate HoldsEntries(text: string, zone: seq<Message>) {
    && |text| == EntryStart(zone, |zone|)
    && forall k :: 0 <= k < |zone| ==> HoldsEntry(text, zone, k)
  }

  ghost predicate HoldsEntry(text: string, zone: seq<Message>, k: nat)
    requires k < |zone|
  {
    EntryStart(zone, k) <= EntryStart(zone, k + 1) <= |text|
    && text[EntryStart(zone, k)..EntryStart(zone, k + 1)] == EntryOf(zone[k])
  }

  lemma {:induction false} EntryStartCons(m: Message, rest: seq<Message>, k: nat)
    requires k <= |rest|
    ensures EntryStart([m] + rest, k + 1) == |EntryOf(m)| + EntryStart(rest, k)
  {
    if k > 0 { EntryStartCons(m, rest, k - 1); }
  }

  lemma {:induction false} ZoneTextHoldsEntries(zone: seq<Message>)
    ensures HoldsEntries(ZoneText(zone), zone)
  {
    if zone != [] {
      var m, rest := zone[0], zone[1..];
      assert zone == [m] + rest;
      ZoneTextHoldsEntries(rest);
      EntriesCons(m, rest, ZoneText(rest));
    }
  }

  lemma {:induction false} EntriesCons(m: Message, rest: seq<Message>, text: string)
    requires HoldsEntries(text, rest)
    ensures HoldsEntries(EntryOf(m) + text, [m] + rest)
  {
    EntryStartCons(m, rest, |rest|);
    forall k | 0 <= k < |rest| + 1
      ensures HoldsEntry(EntryOf(m) + text, [m] + rest, k)
    {
      if k == 0 {
        FirstEntry(m, rest, text);
      } else {
        assert HoldsEntry(text, rest, k - 1);
        LaterEntry(m, rest, text, k - 1);
      }
    }
  }

  lemma {:induction false} FirstEntry(m: Message, rest: seq<Message>, text: string)
    ensures HoldsEntry(EntryOf(m) + text, [m] + rest, 0)
  {
    EntryStartCons(m, rest, 0);
    assert EntryStart([m] + rest, 0) == 0;
    assert (EntryOf(m) + text)[0..|EntryOf(m)|] == EntryOf(m);
  }

  lemma {:induction false} LaterEntry(m: Message, rest: seq<Message>, text: string, k: nat)
    requires k < |rest| && HoldsEntry(text, rest, k)
    ensures HoldsEntry(EntryOf(m) + text, [m] + rest, k + 1)
  {
    EntryStartCons(m, rest, k);
    EntryStartCons(m, rest, k + 1);
    SliceBehind(EntryOf(m), text, EntryStart(rest, k), EntryStart(rest, k + 1));
  }

  lemma {:induction false} SliceBehind(front: string, text: string, from: nat, to: nat)
    requires from <= to <= |text|
    ensures (front + text)[|front| + from..|front| + to] == text[from..to]
  {
  }

  /** The zone text as it is asked about: all of it, or its first bytes and a note that there was more. */
  ghost predicate CutTo(whole: string, text: string) {
    var n, max := ByteLen(whole), MaxZoneBytes(ByteLen(whole));
    if n <= max then text == whole
    else exists k :: 0 <= k <= |whole| && ByteLen(whole[..k]) == max && text == whole[..k] + TRUNCATED
  }

  /** The summariser is asked about the earlier summary and the entries of all messages of the zone, in order. Its
      answer is the new summary; when it fails the tail is all that is left. */
  lemma {:induction false} SummariserSeesTheZone(config: CompressorConfig, previous: Option<string>, ms: seq<Message>,
                                                 summarize: Summarizer)
    returns (whole: string, text: string)
    requires Compresses(config, ms) && CompressSpec(config, previous, ms, summarize) != CutInsideCharacter
    ensures HoldsEntries(whole, Zone(config, ms)) && CutTo(whole, text)
    ensures var answer, outcome := summarize(Prompt(previous, text)), CompressSpec(config, previous, ms, summarize);
            if answer.Ok? then outcome.Compacted? && outcome.summary == answer.value
            else outcome == FellBack(ms[TailStart(ms, config.tailTokenBudget)..])
  {
    whole := ZoneText(Zone(config, ms));
    text := TruncateZone(whole).value;
    ZoneTextHoldsEntries(Zone(config, ms));
    TruncatedZone(whole);
    TailIsVerbatim(config, ms);
  }

  // ----- what is put together afterwards -----

  predicate Orphan(b: Block, useIds: set<string>, resultIds: set<string>) {
    (b.ToolUse? && b.id !in resultIds) || (b.ToolResult? && b.toolUseId !in useIds)
  }

  function NoOrphan(useIds: set<string>, resultIds: set<string>): Block -> bool {
    (b: Block) => !Orphan(b, useIds, resultIds)
  }

  function Itself(): Block -> Block {
    (b: Block) => b
  }

  lemma {:induction false} KeepBlocksFrom(blocks: seq<Block>, i: nat, useIds: set<string>, resultIds: set<string>)
    requires i <= |blocks|
    ensures KeepBlocks(blocks[i..], useIds, resultIds) == PickFrom(blocks, i, NoOrphan(useIds, resultIds), Itself())
    decreases |blocks| - i
  {
    if i < |blocks| {
      assert blocks[i..][1..] == blocks[i + 1..];
      KeepBlocksFrom(blocks, i + 1, useIds, resultIds);
    }
  }

  lemma {:induction false} KeepBlocksPicks(blocks: seq<Block>, useIds: set<string>, resultIds: set<string>)
    ensures Picked(blocks, NoOrphan(useIds, resultIds), Itself(), KeepBlocks(blocks, useIds, resultIds))
  {
    KeepBlocksFrom(blocks, 0, useIds, resultIds);
    assert blocks[0..] == blocks;
    PickIsPicked(blocks, NoOrphan(useIds, resultIds), Itself());
  }

  /** A message after the sanitising: its text, or its blocks without the orphans. */
  ghost predicate SanitizedMessage(m: Message, m': Message, useIds: set<string>, resultIds: set<string>) {
    && m'.role == m.role
    && (m.content.Plain? ==> m' == m)
    && (m.content.Blocks? ==>
          exists kept :: Picked(m.content.blocks, NoOrphan(useIds, resultIds), Itself(), kept)
                         && m'.content == if kept == [] then Plain("[context cleared]") else Blocks(kept))
  }

  lemma {:induction false} KeptMessageIsSanitized(m: Message, useIds: set<string>, resultIds: set<string>)
    ensures SanitizedMessage(m, KeepMessage(m, useIds, resultIds), useIds, resultIds)
  {
    if m.content.Blocks? {
      KeepBlocksPicks(m.content.blocks, useIds, resultIds);
      var kept := KeepBlocks(m.content.blocks, useIds, resultIds);
      assert Picked(m.content.blocks, NoOrphan(useIds, resultIds), Itself(), kept);
    }
  }

  /** What is merged after a summary: the sanitised head, the summary, the acknowledgement and the sanitised tail. */
  lemma {:induction false} AssembledMeans(head: seq<Message>, summary: string, tail: seq<Message>)
    ensures var parts, h := Sanitized(Assembled(head, summary, tail)), |head|;
            var u, r := Elements(AllUses(head) + AllUses(tail)), Elements(AllResults(head) + AllResults(tail));
            && |parts| == h + 2 + |tail|
            && (forall i :: 0 <= i < h ==> SanitizedMessage(head[i], parts[i], u, r))
            && parts[h] == Message(USER, Plain("[Conversation Summary]\n" + summary))
            && parts[h + 1] == Message(ASSISTANT, Plain("Understood, I have the conversation context. How can I help?"))
            && (forall i :: 0 <= i < |tail| ==> SanitizedMessage(tail[i], parts[h + 2 + i], u, r))
  {
    var u, r := Elements(AllUses(head) + AllUses(tail)), Elements(AllResults(head) + AllResults(tail));
    AssembledParts(head, summary, tail, u, r);
    KeptAreSanitized(head, u, r);
    KeptAreSanitized(tail, u, r);
  }

  lemma {:induction false} KeptAreSanitized(ms: seq<Message>, u: set<string>, r: set<string>)
    ensures |KeepAll(ms, u, r)| == |ms|
    ensures forall i :: 0 <= i < |ms| ==> SanitizedMessage(ms[i], KeepAll(ms, u, r)[i], u, r)
  {
    if ms != [] {
      KeptMessageIsSanitized(ms[0], u, r);
      KeptAreSanitized(ms[1..], u, r);
    }
  }

  // ----- the budget in bytes -----

  function TextBytes(ms: seq<Message>): nat {
    if ms == [] then 0 else ByteLen(MessageToText(ms[0])) + TextBytes(ms[1..])
  }

  /** A token is four bytes, and each message loses less than one. */
  lemma {:induction false} TokensInBytes(ms: seq<Message>)
    ensures 4 * Tokens(ms) <= TextBytes(ms) <= 4 * Tokens(ms) + 3 * |ms|
  {
    if ms != [] { TokensInBytes(ms[1..]); }
  }

  // ----- a transcript on which the truncation panics -----

  const EURO: char := '\U{20AC}'

  function Euros(n: nat): string {
    if n == 0 then "" else [EURO] + Euros(n - 1)
  }

  /** Three-byte characters have a boundary at every third byte only. */
  lemma {:induction false} InsideEuro(n: nat, rest: string, b: nat)
    requires b < 3 * n && b % 3 != 0
    ensures CharsAt(Euros(n) + rest, b).None?
  {
    assert (Euros(n) + rest)[1..] == Euros(n - 1) + rest;
    if b > 3 { InsideEuro(n - 1, rest, b - 3); }
  }

  lemma {:induction false} EurosBytes(n: nat, rest: string)
    ensures ByteLen(Euros(n) + rest) == 3 * n + ByteLen(rest)
  {
    if n == 0 {
      assert Euros(n) + rest == rest;
    } else {
      assert (Euros(n) + rest)[1..] == Euros(n - 1) + rest;
      EurosBytes(n - 1, rest);
    }
  }

  lemma HeaderBytes()
    ensures ByteLen("[" + ASSISTANT + "]: ") == 13
  {
    var header := "[" + ASSISTANT + "]: ";
    assert header == "[assis" + "tant]: ";
    ByteLenConcat("[assis", "tant]: ");
    assert ByteLen("[assis") == 6 && ByteLen("tant]: ") == 7;
  }

  lemma CutInEuros(n: nat, rest: string)
    requires n >= 80_000
    ensures TruncateZone("[" + ASSISTANT + "]: " + (Euros(n) + rest)).None?
  {
    var header := "[" + ASSISTANT + "]: ";
    HeaderBytes();
    EurosBytes(n, rest);
    ByteLenConcat(header, Euros(n) + rest);
    CharsAtBehind(header, Euros(n) + rest, 240_000);
    InsideEuro(n, rest, 239_987);
  }

  /** A long enough answer of three-byte characters as fourth message makes the truncation panic, whatever
      the other messages are and whatever the summariser would say. */
  lemma LongFourthMessagePanics(config: CompressorConfig, previous: Option<string>, ms: seq<Message>, n: nat,
                                rest: string, summarize: Summarizer)
    requires config.protectFirstN == 3 && config.tailTokenBudget <= 60_000
    requires |ms| > 3 && n >= 80_000 && ms[3] == AssistantText(Euros(n) + rest)
    ensures CompressSpec(config, previous, ms, summarize) == CutInsideCharacter
  {
    EurosBytes(n, rest);
    assert ms[3..][0] == ms[3];
    TailStartsAfter(ms, config.tailTokenBudget, 3);
    var zone := Zone(config, ms);
    assert zone[0] == ms[3];
    var header, later := "[" + ASSISTANT + "]: ", "\n\n" + ZoneText(zone[1..]);
    ConcatAssoc(header + (Euros(n) + rest), "\n\n", ZoneText(zone[1..]));
    ConcatAssoc(header, Euros(n) + rest, later);
    ConcatAssoc(Euros(n), rest, later);
    CutInEuros(n, rest + later);
  }

  lemma {:induction false} TailStartsAfter(ms: seq<Message>, budget: nat, i: nat)
    requires i < |ms| && Tokens(ms[i..]) >= budget
    ensures TailStart(ms, budget) > i
    decreases i
  {
    SuffixTokens(ms, 0, i);
    assert ms[0..] == ms;
    if i > 0 {
      assert ms[1..][i - 1..] == ms[i..];
      TailStartsAfter(ms[1..], budget, i - 1);
    }
  }

  // ----- the opening of a conversation -----

  /** With the three protected messages the agent asks for, a conversation that opens with a user message,
      a tool call and its results never meets the condition: the results are merged into the summary. */
  lemma OpeningToolCallBreaksPairing(config: CompressorConfig, previous: Option<string>, ms: seq<Message>,
                                     summarize: Summarizer)
    requires Paired(ms) && NoDuplicates(AllUses(ms))
    requires config.protectFirstN == 3 && |ms| >= 3 && ms[0].role == USER && Uses(ms[1]) != []
    requires CompressSpec(config, previous, ms, summarize).Compacted?
    ensures !Paired(CompressSpec(config, previous, ms, summarize).messages)
  {
    CompactionKeepsPairing(config, previous, ms, summarize);
    PairedPointwise([], ms, []);
    assert LinkedAt(ms, 1) && LinkedAt(ms, 2);
    var head := Head(config, ms);
    HeadIsMild(config, ms, 0);
    HeadIsMild(config, ms, 1);
    HeadIsMild(config, ms, 2);
    OpeningSeam(head, Tail(config, ms));
  }

  lemma HeadIsMild(config: CompressorConfig, ms: seq<Message>, i: nat)
    requires Compresses(config, ms) && i < HeadEnd(config, ms)
    ensures var h := Head(config, ms)[i];
            h.role == ms[i].role && Uses(h) == Uses(ms[i]) && Results(h) == Results(ms[i])
  {
    PruneIsMild(ms[i], config.toolResultMaxChars);
  }
}
