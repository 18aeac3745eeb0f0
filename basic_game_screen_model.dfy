/** The state of the basic game screen
    (src/screens/BasicGameScreen/BasicGameScreenModel.ts): a level within the
    current tower, the tower and the enemy being fought. */
module BasicGameScreen {
  import opened Wrappers
  import EnemyModel

  const BaseLevel: int := 0
  /** Towers are numbered 1 to 4. */
  const BaseTower: int := 1
  /** LEVELS_PER_TOWER, which no method reads. */
  const LevelsPerTower: int := 10

  class BasicGameScreenModel {
    var level: int
    var tower: int
    /** The enemy being fought, or null (a missing argument leaves it
        undefined, which null stands for here). */
    var enemy: EnemyModel.BasicEnemy?

    /** level and tower are optional and default to BASE_LEVEL and
        BASE_TOWER; the enemy is stored as given, null included. */
    constructor (level: Option<int>, tower: Option<int>, enemy: EnemyModel.BasicEnemy?)
      ensures this.level == (if level.Some? then level.value else BaseLevel)
      ensures this.tower == (if tower.Some? then tower.value else BaseTower)
      ensures this.enemy == enemy
      ensures enemy == null ==> this.enemy == null
    {
      this.level := if level.Some? then level.value else BaseLevel;
      this.tower := if tower.Some? then tower.value else BaseTower;
      this.enemy := enemy;
    }

    method IncrementLevel()
      modifies this
      ensures level == old(level) + 1 && tower == old(tower) && enemy == old(enemy)
    {
      level := level + 1;
    }

    /** The next tower starts at level 0. */
    method IncrementTower()
      modifies this
      ensures tower == old(tower) + 1 && level == 0 && enemy == old(enemy)
    {
      tower := tower + 1;
      level := 0;
    }

    method ResetLevel()
      modifies this
      ensures level == BaseLevel && tower == old(tower) && enemy == old(enemy)
    {
      level := BaseLevel;
    }
  }

  /** The construction the screen's controller performs: no arguments, so
      the defaults and no enemy. */
  method NewDefaultScreen() returns (m: BasicGameScreenModel)
    ensures fresh(m)
    ensures m.level == BaseLevel && m.tower == BaseTower && m.enemy == null
  {
    m := new BasicGameScreenModel(None, None, null);
  }

  // ---------------------------------------------------------------------
  // Properties

  /** The level after k calls of increment_level. */
  function LevelAfter(level: int, k: nat): int
    decreases k
  {
    if k == 0 then level else LevelAfter(level, k - 1) + 1
  }

  /** Every call adds one level, with no cap. */
  lemma {:induction false} LevelAfterCount(level: int, k: nat)
    ensures LevelAfter(level, k) == level + k
    decreases k
  {
    if k > 0 {
      LevelAfterCount(level, k - 1);
    }
  }

  /** In particular the level passes LEVELS_PER_TOWER. */
  lemma LevelUncapped()
    ensures LevelAfter(BaseLevel, LevelsPerTower as nat + 1) > LevelsPerTower
  {
    LevelAfterCount(BaseLevel, LevelsPerTower as nat + 1);
  }
}
