/** The player (src/models/PlayerModel.ts): health that damage lowers without
    a floor, a score that never drops below 0 through decrease_score, and the
    highest tower unlocked so far. */
module PlayerModel {
  import opened Wrappers
  import Scores

  /** MAX_HEALTH. */
  const MaxHealth: int := 3

  /** Tower t is unlocked when it is at most the highest tower unlocked. */
  predicate TowerUnlocked(highest: int, tower: int) {
    highest >= tower
  }

  class Player {
    var health: int
    /** The name given, or null. */
    var name: Option<string>
    var score: int
    var highestTowerUnlocked: int

    constructor (name: Option<string>)
      ensures health == MaxHealth && this.name == name && score == 0 && highestTowerUnlocked == 1
      ensures Valid()
    {
      health := MaxHealth;
      this.name := name;
      score := 0;
      highestTowerUnlocked := 1;
    }

    /** What decrease_score and unlock_next_tower keep: a score of at least 0
        and at least the first tower unlocked. */
    predicate Valid()
      reads this
    {
      score >= 0 && highestTowerUnlocked >= 1
    }

    method GetHealth() returns (h: int)
      ensures h == health
    {
      h := health;
    }

    method ResetHealth()
      modifies this
      ensures health == MaxHealth
      ensures name == old(name) && score == old(score) && highestTowerUnlocked == old(highestTowerUnlocked)
    {
      health := MaxHealth;
    }

    method IsAlive() returns (alive: bool)
      ensures alive <==> health > 0
    {
      alive := health > 0;
    }

    /** Health goes down by exactly damage, possibly below 0. */
    method TakeDamage(damage: int)
      modifies this
      ensures health == old(health) - damage
      ensures name == old(name) && score == old(score) && highestTowerUnlocked == old(highestTowerUnlocked)
    {
      health := health - damage;
    }

    method IncreaseScore(change: int) returns (newScore: int)
      modifies this
      ensures score == old(score) + change && newScore == score
      ensures health == old(health) && name == old(name) && highestTowerUnlocked == old(highestTowerUnlocked)
    {
      score := score + change;
      newScore := score;
    }

    /** The score goes down by change, and back up to 0 if it went below. */
    method DecreaseScore(change: int) returns (newScore: int)
      modifies this
      ensures score == Scores.ClampedSub(old(score), change) && newScore == score
      ensures health == old(health) && name == old(name) && highestTowerUnlocked == old(highestTowerUnlocked)
      ensures old(highestTowerUnlocked) >= 1 ==> Valid()
    {
      score := score - change;
      if score < 0 {
        score := 0;
      }
      newScore := score;
    }

    method GetScore() returns (s: int)
      ensures s == score
    {
      s := score;
    }

    method GetHighestTower() returns (t: int)
      ensures t == highestTowerUnlocked
    {
      t := highestTowerUnlocked;
    }

    /** One more tower is unlocked, and every tower unlocked before stays
        unlocked. */
    method UnlockNextTower()
      modifies this
      ensures highestTowerUnlocked == old(highestTowerUnlocked) + 1
      ensures health == old(health) && name == old(name) && score == old(score)
      ensures forall t :: TowerUnlocked(old(highestTowerUnlocked), t) ==> TowerUnlocked(highestTowerUnlocked, t)
      ensures old(Valid()) ==> Valid()
    {
      highestTowerUnlocked := highestTowerUnlocked + 1;
    }

    method IsTowerUnlocked(tower: int) returns (unlocked: bool)
      ensures unlocked <==> TowerUnlocked(highestTowerUnlocked, tower)
    {
      unlocked := highestTowerUnlocked >= tower;
    }
  }

  // ---------------------------------------------------------------------
  // Properties

  /** The highest tower after k calls of unlock_next_tower. */
  function UnlockedAfter(highest: int, k: nat): (r: int)
    decreases k
  {
    if k == 0 then highest else UnlockedAfter(highest, k - 1) + 1
  }

  lemma {:induction false} UnlockedAfterCount(highest: int, k: nat)
    ensures UnlockedAfter(highest, k) == highest + k
    decreases k
  {
    if k > 0 {
      UnlockedAfterCount(highest, k - 1);
    }
  }

  /** A new player reaches tower t after t - 1 unlocks and not before. */
  lemma TowerReached(t: int, k: nat)
    ensures TowerUnlocked(UnlockedAfter(1, k), t) <==> t <= k + 1
  {
    UnlockedAfterCount(1, k);
  }
}
