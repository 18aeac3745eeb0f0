/** The boss (src/models/BossEnemyModel.ts): a fixed list of phases and the
    index of the current one, which moves forward one phase at a time and
    stops at the last. */
module BossEnemy {
  import opened Wrappers

  /** One phase of the boss fight. */
  datatype BossPhase = BossPhase(targetNumber: int, tiles: seq<string>, imagePath: string)

  /** isFinalPhase, for index and a list of n phases. */
  predicate IsFinal(index: int, n: nat) {
    index >= n - 1
  }

  /** The index nextPhase leaves: one further unless the phase is final. */
  function NextIndex(index: int, n: nat): (r: int)
    ensures IsFinal(index, n) ==> r == index
    ensures !IsFinal(index, n) ==> r == index + 1
  {
    if IsFinal(index, n) then index else index + 1
  }

  /** An index that getCurrentPhase can read: in range, or 0 for no phases. */
  predicate InBounds(index: int, n: nat) {
    0 <= index && (index == 0 || index < n)
  }

  class BossEnemyModel {
    const phases: seq<BossPhase>
    var index: int

    constructor (phases: seq<BossPhase>)
      ensures this.phases == phases && index == 0
      ensures Valid()
    {
      this.phases := phases;
      index := 0;
    }

    predicate Valid()
      reads this
    {
      InBounds(index, |phases|)
    }

    /** phases[index]; None for the `undefined` an out-of-range index reads,
        which with a valid index happens only when there are no phases. */
    method GetCurrentPhase() returns (phase: Option<BossPhase>)
      ensures 0 <= index < |phases| ==> phase == Some(phases[index])
      ensures !(0 <= index < |phases|) ==> phase == None
      ensures Valid() && |phases| > 0 ==> phase.Some?
    {
      if 0 <= index < |phases| {
        phase := Some(phases[index]);
      } else {
        phase := None;
      }
    }

    method IsFinalPhase() returns (final: bool)
      ensures final <==> IsFinal(index, |phases|)
    {
      final := index >= |phases| - 1;
    }

    method NextPhase()
      modifies this
      ensures index == NextIndex(old(index), |phases|)
      ensures old(Valid()) ==> Valid()
    {
      var final := IsFinalPhase();
      if !final {
        index := index + 1;
      }
    }

    method Reset()
      modifies this
      ensures index == 0 && Valid()
    {
      index := 0;
    }
  }

  // ---------------------------------------------------------------------
  // Properties

  /** The index after k calls of nextPhase. */
  function Advanced(index: int, n: nat, k: nat): int
    decreases k
  {
    if k == 0 then index else NextIndex(Advanced(index, n, k - 1), n)
  }

  /** nextPhase keeps the index in bounds. */
  lemma NextInBounds(index: int, n: nat)
    requires InBounds(index, n)
    ensures InBounds(NextIndex(index, n), n)
  {
  }

  /** At the final phase nextPhase changes nothing, however often it is
      called. */
  lemma {:induction false} FinalIsFixed(index: int, n: nat, k: nat)
    requires IsFinal(index, n)
    ensures Advanced(index, n, k) == index
    decreases k
  {
    if k > 0 {
      FinalIsFixed(index, n, k - 1);
    }
  }

  /** From the first phase, k calls reach phase k, or the last phase once k
      is at least |phases| - 1, where the final phase then holds. */
  lemma {:induction false} AdvancedFromStart(n: nat, k: nat)
    ensures Advanced(0, n, k) == if k <= n - 1 then k else (if n == 0 then 0 else n - 1)
    ensures k >= n - 1 ==> IsFinal(Advanced(0, n, k), n)
    ensures InBounds(Advanced(0, n, k), n)
    decreases k
  {
    if k > 0 {
      AdvancedFromStart(n, k - 1);
    }
  }
}
