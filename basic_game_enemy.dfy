/** The enemy of the basic game screen
    (src/screens/BasicGameScreen/BasicEnemyModel.ts): it is defeated only by
    an answer equal to its health. */
module BasicGameEnemy {
  import opened Wrappers

  /** The health take_damage leaves: 0 for the exact answer, unchanged
      otherwise. */
  function AfterAnswer(health: int, answer: int): (r: int)
    ensures answer == health ==> r == 0
    ensures answer != health ==> r == health
  {
    if answer == health then 0 else health
  }

  class BasicEnemy {
    var health: int
    var damage: int

    /** damage is optional and defaults to 1. */
    constructor (health: int, damage: Option<int>)
      ensures this.health == health
      ensures this.damage == (if damage.Some? then damage.value else 1)
    {
      this.health := health;
      this.damage := if damage.Some? then damage.value else 1;
    }

    method TakeDamage(answer: int)
      modifies this
      ensures health == AfterAnswer(old(health), answer)
      ensures damage == old(damage)
    {
      if answer == health {
        health := 0;
      }
    }

    method IsAlive() returns (alive: bool)
      ensures alive <==> health > 0
    {
      alive := health > 0;
    }
  }

  // ---------------------------------------------------------------------
  // Properties

  /** After an answer the health is the old one or 0, and it is 0 (the
      enemy is dead) exactly when the answer matched or it already was. */
  lemma AnswerOutcome(health: int, answer: int)
    ensures AfterAnswer(health, answer) == health || AfterAnswer(health, answer) == 0
    ensures AfterAnswer(health, answer) == 0 <==> answer == health || health == 0
    ensures answer == health ==> !(AfterAnswer(health, answer) > 0)
  {
  }

  /** Answering twice the same way is the same as answering once. */
  lemma AnswerIdempotent(health: int, answer: int)
    ensures AfterAnswer(AfterAnswer(health, answer), answer) == AfterAnswer(health, answer)
  {
  }
}
