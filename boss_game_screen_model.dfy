/** The state of the boss game screen
    (src/screens/BossGameScreen/BossGameScreenModel.ts): the phases left and
    a score that only reset writes. */
module BossGameScreen {
  const InitialPhases: int := 4

  class BossGameScreenModel {
    var phases: int
    var score: int

    constructor ()
      ensures phases == InitialPhases && score == 0
      ensures Valid()
    {
      phases := InitialPhases;
      score := 0;
    }

    /** No method gives the score another value than 0. */
    predicate Valid()
      reads this
    {
      score == 0
    }

    /** One phase fewer, with no lower bound. */
    method DecrementPhases()
      modifies this
      ensures phases == old(phases) - 1 && score == old(score)
    {
      phases := phases - 1;
    }

    method GetPhases() returns (p: int)
      ensures p == phases
    {
      p := phases;
    }

    method Reset()
      modifies this
      ensures phases == InitialPhases && score == 0
    {
      phases := InitialPhases;
      score := 0;
    }

    method GetScore() returns (s: int)
      ensures s == score
      ensures Valid() ==> s == 0
    {
      s := score;
    }
  }

  /** The phases left after k calls of decrementPhases. */
  function PhasesAfter(phases: int, k: nat): int
    decreases k
  {
    if k == 0 then phases else PhasesAfter(phases, k - 1) - 1
  }

  /** Each call removes exactly one phase, so the count goes below 0 after
      more than four calls. */
  lemma {:induction false} PhasesAfterCount(phases: int, k: nat)
    ensures PhasesAfter(phases, k) == phases - k
    decreases k
  {
    if k > 0 {
      PhasesAfterCount(phases, k - 1);
    }
  }
}
