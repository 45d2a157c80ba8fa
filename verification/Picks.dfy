/** Filtered lists seen by their positions: what a `filter_map` over a sequence gives. */
module Picks {
  /** The positions from `i` on whose elements are chosen. */
  function PositionsFrom<T>(all: seq<T>, i: nat, chosen: T -> bool): seq<nat>
    requires i <= |all|
    decreases |all| - i
  {
    if i == |all| then []
    else (if chosen(all[i]) then [i] else []) + PositionsFrom(all, i + 1, chosen)
  }

  /** A chosen element at `j` has its position in `at`. */
  ghost predicate Listed<T(!new)>(all: seq<T>, at: seq<nat>, chosen: T -> bool, j: nat)
    requires j < |all|
  {
    chosen(all[j]) ==> j in at
  }

  ghost predicate PointsAtChosen<T(!new)>(all: seq<T>, i: nat, at: seq<nat>, chosen: T -> bool, k: nat)
    requires k < |at|
  {
    i <= at[k] < |all| && chosen(all[at[k]])
  }

  /** The positions of all chosen elements from `i` on, in order. */
  ghost predicate PositionsBehind<T(!new)>(all: seq<T>, i: nat, at: seq<nat>, chosen: T -> bool) {
    && (forall k :: 0 <= k < |at| ==> PointsAtChosen(all, i, at, chosen, k))
    && (forall k, l :: 0 <= k < l < |at| ==> at[k] < at[l])
    && (forall j :: i <= j < |all| ==> Listed(all, at, chosen, j))
  }

  lemma {:induction false} OneMorePosition<T(!new)>(all: seq<T>, i: nat, rest: seq<nat>, chosen: T -> bool)
    requires i < |all| && chosen(all[i]) && PositionsBehind(all, i + 1, rest, chosen)
    ensures PositionsBehind(all, i, [i] + rest, chosen)
  {
    var at := [i] + rest;
    forall k | 0 <= k < |at|
      ensures PointsAtChosen(all, i, at, chosen, k)
    {
      if k > 0 { assert PointsAtChosen(all, i + 1, rest, chosen, k - 1); }
    }
    forall k, l | 0 <= k < l < |at|
      ensures at[k] < at[l]
    {
      assert PointsAtChosen(all, i + 1, rest, chosen, l - 1);
    }
    forall j | i <= j < |all|
      ensures Listed(all, at, chosen, j)
    {
      if j > i { assert Listed(all, rest, chosen, j); }
    }
  }

  lemma {:induction false} NoMorePosition<T(!new)>(all: seq<T>, i: nat, rest: seq<nat>, chosen: T -> bool)
    requires i < |all| && !chosen(all[i]) && PositionsBehind(all, i + 1, rest, chosen)
    ensures PositionsBehind(all, i, rest, chosen)
  {
    forall k | 0 <= k < |rest|
      ensures PointsAtChosen(all, i, rest, chosen, k)
    {
      assert PointsAtChosen(all, i + 1, rest, chosen, k);
    }
  }

  lemma {:induction false} PositionsStep<T>(all: seq<T>, i: nat, chosen: T -> bool)
    requires i < |all|
    ensures var rest := PositionsFrom(all, i + 1, chosen);
            PositionsFrom(all, i, chosen) == if chosen(all[i]) then [i] + rest else rest
  {
    assert [] + PositionsFrom(all, i + 1, chosen) == PositionsFrom(all, i + 1, chosen);
  }

  lemma {:induction false} PositionsAre<T(!new)>(all: seq<T>, i: nat, chosen: T -> bool)
    requires i <= |all|
    ensures PositionsBehind(all, i, PositionsFrom(all, i, chosen), chosen)
    decreases |all| - i
  {
    if i < |all| {
      var rest := PositionsFrom(all, i + 1, chosen);
      PositionsAre(all, i + 1, chosen);
      PositionsStep(all, i, chosen);
      if chosen(all[i]) { OneMorePosition(all, i, rest, chosen); } else { NoMorePosition(all, i, rest, chosen); }
    }
  }

  /** What `f` makes of the chosen elements from position `i` on. */
  function PickFrom<T, U>(all: seq<T>, i: nat, chosen: T -> bool, f: T -> U): seq<U>
    requires i <= |all|
    decreases |all| - i
  {
    if i == |all| then []
    else (if chosen(all[i]) then [f(all[i])] else []) + PickFrom(all, i + 1, chosen, f)
  }

  ghost predicate AtPositions<T, U>(all: seq<T>, at: seq<nat>, f: T -> U, picked: seq<U>) {
    |picked| == |at| && forall k :: 0 <= k < |at| ==> at[k] < |all| && picked[k] == f(all[at[k]])
  }

  lemma {:induction false} PickAtPositions<T, U>(all: seq<T>, i: nat, chosen: T -> bool, f: T -> U)
    requires i <= |all|
    ensures AtPositions(all, PositionsFrom(all, i, chosen), f, PickFrom(all, i, chosen, f))
    decreases |all| - i
  {
    if i < |all| {
      var at, picked := PositionsFrom(all, i + 1, chosen), PickFrom(all, i + 1, chosen, f);
      PickAtPositions(all, i + 1, chosen, f);
      if chosen(all[i]) {
        assert ([i] + at)[1..] == at && ([f(all[i])] + picked)[1..] == picked;
      } else {
        assert [] + at == at && [] + picked == picked;
      }
    }
  }

  /** `picked` is what `f` makes of the chosen elements, all of them and in order. */
  ghost predicate Picked<T(!new), U>(all: seq<T>, chosen: T -> bool, f: T -> U, picked: seq<U>) {
    exists at :: PositionsBehind(all, 0, at, chosen) && AtPositions(all, at, f, picked)
  }

  lemma {:induction false} PickIsPicked<T(!new), U>(all: seq<T>, chosen: T -> bool, f: T -> U)
    ensures Picked(all, chosen, f, PickFrom(all, 0, chosen, f))
  {
    PositionsAre(all, 0, chosen);
    PickAtPositions(all, 0, chosen, f);
    var at := PositionsFrom(all, 0, chosen);
    assert PositionsBehind(all, 0, at, chosen) && AtPositions(all, at, f, PickFrom(all, 0, chosen, f));
  }
}
