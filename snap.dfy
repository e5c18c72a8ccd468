/**
 * The snap targets the divider can settle on (DividerSnapAlgorithm, whose source is not part
 * of this model). Only what the divider relies on is stated: the targets are ordered by
 * strictly increasing position, the landmark targets are in the list in the order
 * dismiss-start < first split <= last split < dismiss-end, and every target the algorithm
 * hands out is one of its own. A target is named by its index: the divider compares
 * targets by identity, and with distinct positions identity is the index.
 */
module Snap {

  datatype SnapFlag = FlagNone | FlagDismissStart | FlagDismissEnd

  datatype SnapTarget = SnapTarget(position: int, flag: SnapFlag)

  ghost predicate StrictlyIncreasing(ts: seq<SnapTarget>)
  {
    forall i :: 0 <= i < |ts| - 1 ==> ts[i].position < ts[i + 1].position
  }

  lemma {:induction false} IncreasingPositions(ts: seq<SnapTarget>, i: nat, j: nat)
    requires StrictlyIncreasing(ts)
    requires i < j < |ts|
    ensures ts[i].position < ts[j].position
    decreases j - i
  {
    if i + 1 < j {
      IncreasingPositions(ts, i, j - 1);
    }
  }

  datatype SnapAlgorithm = SnapAlgorithm(
    targets: seq<SnapTarget>,
    dismissStart: nat,
    firstSplit: nat,
    middle: nat,
    lastSplit: nat,
    dismissEnd: nat,
    /** calculateSnapTarget(position, velocity, hardDismiss) */
    snapTargetFor: (int, real, bool) -> nat,
    /** calculateSnapTarget(position, velocity) */
    flingTargetFor: (int, real) -> nat,
    /** calculateDismissingFraction(position), before the divider clamps it */
    dismissingFraction: int -> real,
    /** getClosestDismissTarget(position) */
    closestDismissTarget: int -> nat)
  {
    ghost predicate Valid()
    {
      StrictlyIncreasing(targets) &&
      dismissStart < firstSplit <= lastSplit < dismissEnd < |targets| &&
      middle < |targets| &&
      (forall p, v, h :: snapTargetFor(p, v, h) < |targets|) &&
      (forall p, v :: flingTargetFor(p, v) < |targets|) &&
      (forall p :: closestDismissTarget(p) < |targets|)
    }

    function Position(i: nat): int
      requires i < |targets|
    {
      targets[i].position
    }

    function Flag(i: nat): SnapFlag
      requires i < |targets|
    {
      targets[i].flag
    }

    /** getNextTarget: the following target, or the target itself at the end of the list. */
    function NextTarget(i: nat): (n: nat)
      requires Valid() && i < |targets|
      ensures n < |targets|
      ensures n == i <==> i == |targets| - 1
      ensures n != i ==> Position(n) > Position(i) &&
                         forall k :: 0 <= k < |targets| && Position(i) < Position(k) ==> Position(n) <= Position(k)
    {
      if i < |targets| - 1 then
        assert forall k :: 0 <= k < |targets| && Position(i) < Position(k) ==> i + 1 <= k by {
          forall k | 0 <= k < |targets| && Position(i) < Position(k) ensures i + 1 <= k {
            if k <= i {
              if k < i { IncreasingPositions(targets, k, i); }
            }
          }
        }
        forall k | i + 1 < k < |targets| ensures Position(i + 1) < Position(k) {
          IncreasingPositions(targets, i + 1, k);
        }
        i + 1
      else
        i
    }

    /** getPreviousTarget: the preceding target, or the target itself at the start of the list. */
    function PreviousTarget(i: nat): (p: nat)
      requires Valid() && i < |targets|
      ensures p <= i
      ensures p == i <==> i == 0
      ensures p != i ==> Position(p) < Position(i) &&
                         forall k :: 0 <= k < |targets| && Position(k) < Position(i) ==> Position(k) <= Position(p)
    {
      if i > 0 then
        assert forall k :: 0 <= k < |targets| && Position(k) < Position(i) ==> k <= i - 1 by {
          forall k | 0 <= k < |targets| && Position(k) < Position(i) ensures k <= i - 1 {
            if k >= i {
              if k > i { IncreasingPositions(targets, i, k); }
            }
          }
        }
        forall k | 0 <= k < i - 1 ensures Position(k) < Position(i - 1) {
          IncreasingPositions(targets, k, i - 1);
        }
        i - 1
      else
        i
    }

    /** The landmark targets are ordered by position as they are in the list. */
    lemma LandmarksOrdered()
      requires Valid()
      ensures Position(dismissStart) < Position(firstSplit) <= Position(lastSplit) < Position(dismissEnd)
    {
      IncreasingPositions(targets, dismissStart, firstSplit);
      if firstSplit < lastSplit { IncreasingPositions(targets, firstSplit, lastSplit); }
      IncreasingPositions(targets, lastSplit, dismissEnd);
    }
  }
}
