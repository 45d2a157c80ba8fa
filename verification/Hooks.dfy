/** Hook selection and ordered evaluation of `src/hooks.rs`. */
module Hooks {
  import opened Wrappers
  import opened Text

  datatype HookEvent = BeforeLLMCall | BeforeToolCall | AfterToolCall

  datatype HookDef = HookDef(name: string, events: seq<HookEvent>, priority: int, enabledByDefault: bool)

  /** A JSON patch, whose contents are of no interest here. */
  type Patch = string

  datatype HookResponse = HookResponse(action: Option<string>, reason: Option<string>, patch: Option<Patch>)

  datatype HookOutcome = Allow(patches: seq<Patch>) | Block(reason: string)

  /** What each hook command answers, or `None` where it fails or times out. */
  type Commands = HookDef -> Option<HookResponse>

  // ----- order -----

  /** Lower priority first, then by name. */
  predicate Before(a: HookDef, b: HookDef) {
    a.priority < b.priority || (a.priority == b.priority && LexLeq(a.name, b.name))
  }

  predicate Sorted(hooks: seq<HookDef>) {
    forall i, j :: 0 <= i < j < |hooks| ==> Before(hooks[i], hooks[j])
  }

  /** Stable insertion in front of the first hook that comes strictly later. */
  function Insert(h: HookDef, hooks: seq<HookDef>): seq<HookDef> {
    if hooks == [] || Before(h, hooks[0]) then [h] + hooks else [hooks[0]] + Insert(h, hooks[1..])
  }

  /** `sort_by`: a stable sort. */
  function Sort(hooks: seq<HookDef>): seq<HookDef> {
    if hooks == [] then [] else Insert(hooks[0], Sort(hooks[1..]))
  }

  // ----- what one hook contributes -----

  function Enabled(states: map<string, bool>, h: HookDef): bool {
    if h.name in states then states[h.name] else h.enabledByDefault
  }

  datatype Effect = Nothing | Stops(reason: string) | Patches(patch: Patch)

  function EffectOf(h: HookDef, response: Option<HookResponse>): Effect {
    if response.None? then Nothing
    else
      var r := response.value;
      var action := Lower(Trim(if r.action.Some? then r.action.value else "allow"));
      if action == "block" then
        Stops(if r.reason.Some? && Trim(r.reason.value) != "" then r.reason.value else "blocked by hook " + h.name)
      else if action == "modify" && r.patch.Some? then Patches(r.patch.value)
      else Nothing
  }

  function EffectIn(states: map<string, bool>, commands: Commands, h: HookDef): Effect {
    if Enabled(states, h) then EffectOf(h, commands(h)) else Nothing
  }

  function Matching(hooks: seq<HookDef>, event: HookEvent): seq<HookDef> {
    if hooks == [] then []
    else if event in hooks[0].events then [hooks[0]] + Matching(hooks[1..], event)
    else Matching(hooks[1..], event)
  }

  function Effects(states: map<string, bool>, commands: Commands, hooks: seq<HookDef>): seq<Effect> {
    if hooks == [] then [] else [EffectIn(states, commands, hooks[0])] + Effects(states, commands, hooks[1..])
  }

  function PatchesIn(effects: seq<Effect>): seq<Patch> {
    if effects == [] then []
    else if effects[0].Patches? then [effects[0].patch] + PatchesIn(effects[1..])
    else PatchesIn(effects[1..])
  }

  /** The first effect that stops decides; if none does, all patches are collected in order. */
  function OutcomeOf(patches: seq<Patch>, effects: seq<Effect>): HookOutcome
    decreases |effects|
  {
    if effects == [] then Allow(patches)
    else if effects[0].Stops? then Block(effects[0].reason)
    else if effects[0].Patches? then OutcomeOf(patches + [effects[0].patch], effects[1..])
    else OutcomeOf(patches, effects[1..])
  }

  function RunSpec(on: bool, hooks: seq<HookDef>, states: map<string, bool>, event: HookEvent,
                   commands: Commands): HookOutcome {
    if on then OutcomeOf([], Effects(states, commands, Sort(Matching(hooks, event)))) else Allow([])
  }

  lemma OutcomeStep(patches: seq<Patch>, e: Effect, rest: seq<Effect>)
    ensures OutcomeOf(patches, [e] + rest) ==
            if e.Stops? then Block(e.reason)
            else if e.Patches? then OutcomeOf(patches + [e.patch], rest)
            else OutcomeOf(patches, rest)
  {
    assert ([e] + rest)[1..] == rest;
  }

  /** The result of `SetEnabled`; after a failed write the override is in force but not stored. */
  datatype SetResult = NotFound | WriteFailed | Written

  class HookManager {
    var hooks: seq<HookDef>
    var stateOverrides: map<string, bool>
    var enabled: bool
    var stored: map<string, bool>  // the overrides as last written

    /** `writeOk` tells whether the overrides can be written. */
    method SetEnabled(name: string, value: bool, writeOk: bool) returns (r: SetResult)
      modifies this
      ensures r == NotFound <==> forall h :: h in hooks ==> h.name != name
      ensures r != NotFound ==> r == if writeOk then Written else WriteFailed
      ensures stateOverrides == if r == NotFound then old(stateOverrides) else old(stateOverrides)[name := value]
      ensures stored == if r == Written then stateOverrides else old(stored)
      ensures hooks == old(hooks) && enabled == old(enabled)
    {
      if forall h :: h in hooks ==> h.name != name { return NotFound; }
      stateOverrides := stateOverrides[name := value];
      if !writeOk { return WriteFailed; }
      stored := stateOverrides;
      return Written;
    }

    method Run(event: HookEvent, commands: Commands) returns (outcome: HookOutcome)
      ensures outcome == RunSpec(enabled, hooks, stateOverrides, event, commands)
    {
      if !enabled { return Allow([]); }
      var states := stateOverrides;
      var matched := Sort(Matching(hooks, event));
      var patches: seq<Patch> := [];
      ghost var whole := OutcomeOf([], Effects(states, commands, matched));
      for i := 0 to |matched|
        invariant OutcomeOf(patches, Effects(states, commands, matched[i..])) == whole
      {
        var hook := matched[i];
        assert matched[i..][0] == hook && matched[i..][1..] == matched[i + 1..];
        OutcomeStep(patches, EffectIn(states, commands, hook), Effects(states, commands, matched[i + 1..]));
        if !Enabled(states, hook) { continue; }
        var output := commands(hook);
        if output.None? { continue; }
        var response := output.value;
        var action := Lower(Trim(if response.action.Some? then response.action.value else "allow"));
        if action == "block" {
          var reason := if response.reason.Some? && Trim(response.reason.value) != "" then response.reason.value
                        else "blocked by hook " + hook.name;
          return Block(reason);
        } else if action == "modify" {
          if response.patch.Some? { patches := patches + [response.patch.value]; }
        }
      }
      return Allow(patches);
    }
  }

  // ----- order of evaluation -----

  lemma BeforeIsOrder(a: HookDef, b: HookDef, c: HookDef)
    ensures Before(a, b) || Before(b, a)
    ensures Before(a, b) && Before(b, c) ==> Before(a, c)
    ensures Before(a, b) && Before(b, a) ==> a.name == b.name
  {
    LexTotal(a.name, b.name);
    if Before(a, b) && Before(b, c) && a.priority == b.priority == c.priority {
      LexTransitive(a.name, b.name, c.name);
    }
  }

  lemma {:induction false} InsertMembers(h: HookDef, hooks: seq<HookDef>)
    ensures multiset(Insert(h, hooks)) == multiset(hooks) + multiset{h}
    ensures forall x :: x in Insert(h, hooks) ==> x == h || x in hooks
  {
    if hooks == [] || Before(h, hooks[0]) {
      assert multiset([h] + hooks) == multiset{h} + multiset(hooks);
    } else {
      InsertMembers(h, hooks[1..]);
      assert hooks == [hooks[0]] + hooks[1..];
    }
  }

  lemma {:induction false} InsertSorts(h: HookDef, hooks: seq<HookDef>)
    requires Sorted(hooks)
    ensures Sorted(Insert(h, hooks)) && multiset(Insert(h, hooks)) == multiset(hooks) + multiset{h}
  {
    InsertMembers(h, hooks);
    if hooks == [] || Before(h, hooks[0]) {
      forall i | 0 <= i < |hooks|
        ensures Before(h, hooks[i])
      {
        BeforeIsOrder(h, hooks[0], hooks[i]);
      }
      SortedCons(h, hooks);
    } else {
      InsertSorts(h, hooks[1..]);
      InsertMembers(h, hooks[1..]);
      BeforeIsOrder(h, hooks[0], hooks[0]);
      SortedCons(hooks[0], Insert(h, hooks[1..]));
    }
  }

  /** `run` considers the matching hooks in priority-then-name order, each as often as it was discovered. */
  lemma {:induction false} SortSorts(hooks: seq<HookDef>)
    ensures Sorted(Sort(hooks)) && multiset(Sort(hooks)) == multiset(hooks)
  {
    if hooks != [] {
      SortSorts(hooks[1..]);
      InsertSorts(hooks[0], Sort(hooks[1..]));
      assert hooks == [hooks[0]] + hooks[1..];
    }
  }

  predicate OneHookPerName(hooks: seq<HookDef>) {
    forall a, b :: a in hooks && b in hooks && a.name == b.name ==> a == b
  }

  lemma SameFirst(a: seq<HookDef>, b: seq<HookDef>)
    requires Sorted(a) && Sorted(b) && multiset(a) == multiset(b) && a != [] && b != []
    requires OneHookPerName(a)
    ensures a[0] == b[0]
  {
    assert a[0] in multiset(b) && b[0] in multiset(a);
    var i :| 0 <= i < |b| && b[i] == a[0];
    var j :| 0 <= j < |a| && a[j] == b[0];
    BeforeIsOrder(a[0], b[0], b[0]);
    assert j > 0 ==> Before(a[0], b[0]);
    assert i > 0 ==> Before(b[0], a[0]);
  }

  lemma RestOf(hooks: seq<HookDef>)
    requires hooks != []
    ensures multiset(hooks[1..]) == multiset(hooks) - multiset{hooks[0]}
    ensures Sorted(hooks) ==> Sorted(hooks[1..])
    ensures OneHookPerName(hooks) ==> OneHookPerName(hooks[1..])
  {
    assert hooks == [hooks[0]] + hooks[1..];
  }

  lemma {:induction false} SortedIsUnique(a: seq<HookDef>, b: seq<HookDef>)
    requires Sorted(a) && Sorted(b) && multiset(a) == multiset(b)
    requires OneHookPerName(a)
    ensures a == b
  {
    assert |a| == |multiset(a)| && |b| == |multiset(b)|;
    if a != [] {
      SameFirst(a, b);
      RestOf(a);
      RestOf(b);
      SortedIsUnique(a[1..], b[1..]);
      assert a == [a[0]] + a[1..] && b == [b[0]] + b[1..];
    }
  }

  lemma {:induction false} MatchingCounts(hooks: seq<HookDef>, event: HookEvent, h: HookDef)
    ensures multiset(Matching(hooks, event))[h] == if event in h.events then multiset(hooks)[h] else 0
  {
    if hooks != [] {
      MatchingCounts(hooks[1..], event, h);
      assert hooks == [hooks[0]] + hooks[1..];
    }
  }

  /** Discovery order does not matter: hooks found in any order give the same outcome. */
  lemma DiscoveryOrderIrrelevant(on: bool, a: seq<HookDef>, b: seq<HookDef>, states: map<string, bool>,
                                 event: HookEvent, commands: Commands)
    requires multiset(a) == multiset(b) && OneHookPerName(a)
    ensures RunSpec(on, a, states, event, commands) == RunSpec(on, b, states, event, commands)
  {
    var ma, mb := Matching(a, event), Matching(b, event);
    forall h
      ensures multiset(ma)[h] == multiset(mb)[h]
    {
      MatchingCounts(a, event, h);
      MatchingCounts(b, event, h);
    }
    assert multiset(ma) == multiset(mb);
    SortSorts(ma);
    SortSorts(mb);
    forall h | h in Sort(ma)
      ensures h in a
    {
      assert h in multiset(Sort(ma));
      MatchingCounts(a, event, h);
      assert h in multiset(a);
    }
    SortedIsUnique(Sort(ma), Sort(mb));
  }

  // ----- blocking and patches -----

  predicate FirstStop(effects: seq<Effect>, i: nat, reason: string)
    requires i < |effects|
  {
    effects[i] == Stops(reason) && forall j :: 0 <= j < i ==> !effects[j].Stops?
  }

  lemma {:induction false} OutcomeSplits(patches: seq<Patch>, effects: seq<Effect>)
    ensures var o := OutcomeOf(patches, effects);
            if o.Allow? then (forall e :: e in effects ==> !e.Stops?) && o.patches == patches + PatchesIn(effects)
            else exists i :: 0 <= i < |effects| && FirstStop(effects, i, o.reason)
    decreases |effects|
  {
    if effects == [] {
      assert patches + [] == patches;
    } else {
      var e, rest := effects[0], effects[1..];
      assert effects == [e] + rest;
      if e.Stops? {
        assert FirstStop(effects, 0, e.reason);
      } else {
        var patches' := if e.Patches? then patches + [e.patch] else patches;
        OutcomeSplits(patches', rest);
        var o := OutcomeOf(patches', rest);
        if o.Block? {
          var i :| 0 <= i < |rest| && FirstStop(rest, i, o.reason);
          assert FirstStop(effects, i + 1, o.reason);
        } else if e.Patches? {
          ConcatAssoc(patches, [e.patch], PatchesIn(rest));
        }
      }
    }
  }

  lemma {:induction false} EffectsAt(states: map<string, bool>, commands: Commands, hooks: seq<HookDef>)
    ensures |Effects(states, commands, hooks)| == |hooks|
    ensures forall i :: 0 <= i < |hooks| ==> Effects(states, commands, hooks)[i] == EffectIn(states, commands, hooks[i])
  {
    if hooks != [] { EffectsAt(states, commands, hooks[1..]); }
  }

  lemma OrderedMembers(hooks: seq<HookDef>, event: HookEvent, h: HookDef)
    ensures h in Sort(Matching(hooks, event)) <==> h in hooks && event in h.events
  {
    SortSorts(Matching(hooks, event));
    MatchingCounts(hooks, event, h);
    assert h in Sort(Matching(hooks, event)) <==> h in multiset(Matching(hooks, event));
    assert h in hooks <==> h in multiset(hooks);
  }

  // What the hooks themselves answer, without the effects computed from it.

  /** The override decides, and the default where there is none. */
  predicate SwitchedOn(states: map<string, bool>, h: HookDef) {
    (h.name in states && states[h.name]) || (h.name !in states && h.enabledByDefault)
  }

  /** The hook's command succeeds with this action, in whatever case and with whatever white space around it. */
  predicate Answers(commands: Commands, h: HookDef, action: string) {
    && commands(h).Some? && commands(h).value.action.Some?
    && Lower(Trim(commands(h).value.action.value)) == action
  }

  predicate Concerns(hooks: seq<HookDef>, states: map<string, bool>, event: HookEvent, h: HookDef) {
    h in hooks && event in h.events && SwitchedOn(states, h)
  }

  predicate Blocks(hooks: seq<HookDef>, states: map<string, bool>, event: HookEvent, commands: Commands, h: HookDef) {
    Concerns(hooks, states, event, h) && Answers(commands, h, "block")
  }

  /** The hook answers with a patch. */
  predicate Modifies(states: map<string, bool>, event: HookEvent, commands: Commands, h: HookDef) {
    event in h.events && SwitchedOn(states, h) && Answers(commands, h, "modify") && commands(h).value.patch.Some?
  }

  /** The reason given by a hook that blocks: its own, or one that names the hook. */
  predicate GivesReason(commands: Commands, h: HookDef, reason: string) {
    && commands(h).Some?
    && var own := commands(h).value.reason;
       && (own.Some? && !AllWhitespace(own.value) ==> reason == own.value)
       && (own.None? || AllWhitespace(own.value) ==> reason == "blocked by hook " + h.name)
  }

  lemma {:induction false} EffectMeans(states: map<string, bool>, event: HookEvent, commands: Commands, h: HookDef)
    ensures var e := EffectIn(states, commands, h);
            && (e.Stops? <==> SwitchedOn(states, h) && Answers(commands, h, "block"))
            && (e.Stops? ==> GivesReason(commands, h, e.reason))
            && (event in h.events ==> (e.Patches? <==> Modifies(states, event, commands, h)))
            && (e.Patches? ==> commands(h).Some? && commands(h).value.patch == Some(e.patch))
  {
    if commands(h).Some? {
      var r := commands(h).value;
      if r.reason.Some? { TrimIsBlank(r.reason.value); }
      ActionsDiffer();
    }
  }

  lemma {:induction false} ActionsDiffer()
    ensures Lower(Trim("allow")) != "block" && Lower(Trim("allow")) != "modify" && "block" != "modify"
  {
    assert Tight("allow");
    assert Lower(Trim("allow"))[0] == 'a';
    assert |"block"| == 5 && |"modify"| == 6 && "block"[0] == 'b' && "modify"[0] == 'm';
  }

  /** `h` blocks for this reason, and no other hook that blocks comes before it. */
  ghost predicate Decides(hooks: seq<HookDef>, states: map<string, bool>, event: HookEvent, commands: Commands,
                          h: HookDef, reason: string) {
    && Blocks(hooks, states, event, commands, h) && GivesReason(commands, h, reason)
    && forall g :: Blocks(hooks, states, event, commands, g) ==>
         h.priority < g.priority || (h.priority == g.priority && LexLeq(h.name, g.name))
  }

  lemma {:induction false} FirstStopDecides(hooks: seq<HookDef>, states: map<string, bool>, event: HookEvent,
                                            commands: Commands, i: nat, reason: string)
    requires i < |Sort(Matching(hooks, event))|
    requires |Effects(states, commands, Sort(Matching(hooks, event)))| == |Sort(Matching(hooks, event))|
    requires FirstStop(Effects(states, commands, Sort(Matching(hooks, event))), i, reason)
    ensures Decides(hooks, states, event, commands, Sort(Matching(hooks, event))[i], reason)
  {
    var ordered := Sort(Matching(hooks, event));
    SortSorts(Matching(hooks, event));
    EffectsAt(states, commands, ordered);
    var h := ordered[i];
    OrderedMembers(hooks, event, h);
    EffectMeans(states, event, commands, h);
    forall g | Blocks(hooks, states, event, commands, g)
      ensures Before(h, g)
    {
      OrderedMembers(hooks, event, g);
      EffectMeans(states, event, commands, g);
      var k :| 0 <= k < |ordered| && ordered[k] == g;
      BeforeIsOrder(h, h, h);
    }
  }

  /** The patches of `modifiers`, one each and in their order. */
  ghost predicate PatchesOf(commands: Commands, modifiers: seq<HookDef>, patches: seq<Patch>) {
    && |patches| == |modifiers|
    && forall i :: 0 <= i < |patches| ==>
         commands(modifiers[i]).Some? && commands(modifiers[i]).value.patch == Some(patches[i])
  }

  /** All the hooks that modify, each as often as it was discovered, in order. */
  ghost predicate AllModifiers(hooks: seq<HookDef>, states: map<string, bool>, event: HookEvent, commands: Commands,
                               modifiers: seq<HookDef>) {
    && Sorted(modifiers)
    && forall h :: multiset(modifiers)[h] == if Modifies(states, event, commands, h) then multiset(hooks)[h] else 0
  }

  function ModifiersIn(states: map<string, bool>, commands: Commands, ordered: seq<HookDef>): seq<HookDef> {
    if ordered == [] then []
    else
      (if EffectIn(states, commands, ordered[0]).Patches? then [ordered[0]] else [])
      + ModifiersIn(states, commands, ordered[1..])
  }

  lemma {:induction false} PatchesOfModifiers(states: map<string, bool>, event: HookEvent, commands: Commands,
                                              ordered: seq<HookDef>)
    ensures PatchesOf(commands, ModifiersIn(states, commands, ordered), PatchesIn(Effects(states, commands, ordered)))
  {
    if ordered != [] {
      var e, rest := EffectIn(states, commands, ordered[0]), Effects(states, commands, ordered[1..]);
      PatchesOfModifiers(states, event, commands, ordered[1..]);
      EffectMeans(states, event, commands, ordered[0]);
      assert ([e] + rest)[1..] == rest;
    }
  }

  lemma {:induction false} ModifiersAreSorted(states: map<string, bool>, commands: Commands, ordered: seq<HookDef>)
    requires Sorted(ordered)
    ensures Sorted(ModifiersIn(states, commands, ordered))
    ensures forall h :: h in ModifiersIn(states, commands, ordered) ==> h in ordered
  {
    if ordered != [] {
      var rest := ModifiersIn(states, commands, ordered[1..]);
      ModifiersAreSorted(states, commands, ordered[1..]);
      SortedCons(ordered[0], rest);
      assert [] + rest == rest;
    }
  }

  lemma {:induction false} SortedCons(h: HookDef, rest: seq<HookDef>)
    requires Sorted(rest) && forall x :: x in rest ==> Before(h, x)
    ensures Sorted([h] + rest)
  {
  }

  lemma {:induction false} ModifiersCount(states: map<string, bool>, commands: Commands, ordered: seq<HookDef>,
                                          h: HookDef)
    ensures multiset(ModifiersIn(states, commands, ordered))[h] ==
            if EffectIn(states, commands, h).Patches? then multiset(ordered)[h] else 0
  {
    if ordered != [] {
      ModifiersCount(states, commands, ordered[1..], h);
      assert ordered == [ordered[0]] + ordered[1..];
    }
  }

  lemma {:induction false} ModifiersAreAll(hooks: seq<HookDef>, states: map<string, bool>, event: HookEvent,
                                           commands: Commands)
    ensures AllModifiers(hooks, states, event, commands, ModifiersIn(states, commands, Sort(Matching(hooks, event))))
  {
    var ordered := Sort(Matching(hooks, event));
    SortSorts(Matching(hooks, event));
    ModifiersAreSorted(states, commands, ordered);
    forall h
      ensures multiset(ModifiersIn(states, commands, ordered))[h]
              == if Modifies(states, event, commands, h) then multiset(hooks)[h] else 0
    {
      ModifiersCount(states, commands, ordered, h);
      MatchingCounts(hooks, event, h);
      EffectMeans(states, event, commands, h);
    }
  }

  lemma {:induction false} BlockMeans(hooks: seq<HookDef>, states: map<string, bool>, event: HookEvent,
                                      commands: Commands)
    requires RunSpec(true, hooks, states, event, commands).Block?
    ensures exists h :: Decides(hooks, states, event, commands, h, RunSpec(true, hooks, states, event, commands).reason)
  {
    var ordered := Sort(Matching(hooks, event));
    var effects := Effects(states, commands, ordered);
    EffectsAt(states, commands, ordered);
    OutcomeSplits([], effects);
    var o := OutcomeOf([], effects);
    var i :| 0 <= i < |effects| && FirstStop(effects, i, o.reason);
    FirstStopDecides(hooks, states, event, commands, i, o.reason);
  }

  lemma {:induction false} AllowMeans(hooks: seq<HookDef>, states: map<string, bool>, event: HookEvent,
                                      commands: Commands)
    requires RunSpec(true, hooks, states, event, commands).Allow?
    ensures forall h :: !Blocks(hooks, states, event, commands, h)
    ensures RunSpec(true, hooks, states, event, commands).patches
            == PatchesIn(Effects(states, commands, Sort(Matching(hooks, event))))
  {
    var ordered := Sort(Matching(hooks, event));
    var effects := Effects(states, commands, ordered);
    EffectsAt(states, commands, ordered);
    OutcomeSplits([], effects);
    assert [] + PatchesIn(effects) == PatchesIn(effects);
    forall h
      ensures !Blocks(hooks, states, event, commands, h)
    {
      OrderedMembers(hooks, event, h);
      EffectMeans(states, event, commands, h);
      if h in ordered {
        var i :| 0 <= i < |ordered| && ordered[i] == h;
        assert effects[i] in effects;
      }
    }
  }

  /** A call is blocked exactly when a hook for the event that is switched on answers "block"; the first such hook
      in priority-then-name order gives the reason. Otherwise the patches are those of all hooks that answer
      "modify" with one, in the same order. A manager that is switched off lets everything pass. */
  lemma {:induction false} FirstBlockWins(on: bool, hooks: seq<HookDef>, states: map<string, bool>, event: HookEvent,
                                          commands: Commands)
    ensures var o := RunSpec(on, hooks, states, event, commands);
            && (o.Block? <==> on && exists h :: Blocks(hooks, states, event, commands, h))
            && (o.Block? ==> exists h :: Decides(hooks, states, event, commands, h, o.reason))
            && (o.Allow? && on ==> exists modifiers ::
                  AllModifiers(hooks, states, event, commands, modifiers) && PatchesOf(commands, modifiers, o.patches))
            && (!on ==> o == Allow([]))
  {
    if on {
      if RunSpec(true, hooks, states, event, commands).Block? {
        BlockMeans(hooks, states, event, commands);
      } else {
        AllowMeans(hooks, states, event, commands);
        PatchesOfModifiers(states, event, commands, Sort(Matching(hooks, event)));
        ModifiersAreAll(hooks, states, event, commands);
      }
    }
  }

  function Without(hooks: seq<HookDef>, name: string): seq<HookDef> {
    if hooks == [] then []
    else if hooks[0].name == name then Without(hooks[1..], name)
    else [hooks[0]] + Without(hooks[1..], name)
  }

  lemma {:induction false} WithoutFirst(hooks: seq<HookDef>, name: string, h: HookDef)
    requires forall x :: x in hooks ==> Before(h, x)
    ensures forall x :: x in Without(hooks, name) ==> Before(h, x)
  {
    if hooks != [] { WithoutFirst(hooks[1..], name, h); }
  }

  lemma WithoutCons(h: HookDef, rest: seq<HookDef>, name: string)
    ensures Without([h] + rest, name) == if h.name == name then Without(rest, name) else [h] + Without(rest, name)
  {
    assert ([h] + rest)[1..] == rest;
  }

  lemma InsertFirst(h: HookDef, hooks: seq<HookDef>)
    requires forall x :: x in hooks ==> Before(h, x)
    ensures Insert(h, hooks) == [h] + hooks
  {
  }

  lemma InsertLater(h: HookDef, g: HookDef, hooks: seq<HookDef>)
    requires !Before(h, g)
    ensures Insert(h, [g] + hooks) == [g] + Insert(h, hooks)
  {
    assert ([g] + hooks)[1..] == hooks;
  }

  lemma {:induction false} InsertWithout(h: HookDef, hooks: seq<HookDef>, name: string)
    requires Sorted(hooks)
    ensures Without(Insert(h, hooks), name) ==
            if h.name == name then Without(hooks, name) else Insert(h, Without(hooks, name))
  {
    if hooks == [] || Before(h, hooks[0]) {
      forall x | x in hooks
        ensures Before(h, x)
      {
        BeforeIsOrder(h, hooks[0], x);
      }
      WithoutFirst(hooks, name, h);
      WithoutCons(h, hooks, name);
      InsertFirst(h, Without(hooks, name));
    } else {
      var g, rest := hooks[0], hooks[1..];
      InsertWithout(h, rest, name);
      WithoutCons(g, Insert(h, rest), name);
      InsertLater(h, g, Without(rest, name));
    }
  }

  lemma {:induction false} SortWithout(hooks: seq<HookDef>, event: HookEvent, name: string)
    ensures Sort(Matching(Without(hooks, name), event)) == Without(Sort(Matching(hooks, event)), name)
  {
    if hooks != [] {
      var h, rest := hooks[0], hooks[1..];
      SortWithout(rest, event, name);
      SortSorts(Matching(rest, event));
      InsertWithout(h, Sort(Matching(rest, event)), name);
      SortMatchingCons(h, rest, event);
      SortMatchingCons(h, Without(rest, name), event);
      assert hooks == [h] + rest;
    }
  }

  lemma SortMatchingCons(h: HookDef, rest: seq<HookDef>, event: HookEvent)
    ensures Sort(Matching([h] + rest, event)) ==
            if event in h.events then Insert(h, Sort(Matching(rest, event))) else Sort(Matching(rest, event))
  {
    assert ([h] + rest)[1..] == rest;
    assert ([h] + Matching(rest, event))[1..] == Matching(rest, event);
  }

  lemma {:induction false} DisabledHasNoEffect(patches: seq<Patch>, states: map<string, bool>, commands: Commands,
                                               ordered: seq<HookDef>, name: string)
    ensures OutcomeOf(patches, Effects(states[name := false], commands, ordered))
            == OutcomeOf(patches, Effects(states, commands, Without(ordered, name)))
    decreases |ordered|
  {
    if ordered != [] {
      var h, rest := ordered[0], ordered[1..];
      var e := EffectIn(states, commands, h);
      var kept := Without(rest, name);
      WithoutCons(h, rest, name);
      assert ordered == [h] + rest && ([h] + kept)[1..] == kept;
      DisabledHasNoEffect(patches, states, commands, rest, name);
      OutcomeStep(patches, EffectIn(states[name := false], commands, h),
                  Effects(states[name := false], commands, rest));
      if h.name != name {
        OutcomeStep(patches, e, Effects(states, commands, kept));
        if e.Patches? { DisabledHasNoEffect(patches + [e.patch], states, commands, rest, name); }
      }
    }
  }

  /** Switching a hook off is the same as not having it. */
  lemma DisabledHookIsAbsent(on: bool, hooks: seq<HookDef>, states: map<string, bool>, event: HookEvent,
                             commands: Commands, name: string)
    ensures RunSpec(on, hooks, states[name := false], event, commands)
            == RunSpec(on, Without(hooks, name), states, event, commands)
  {
    SortWithout(hooks, event, name);
    DisabledHasNoEffect([], states, commands, Sort(Matching(hooks, event)), name);
  }
}
