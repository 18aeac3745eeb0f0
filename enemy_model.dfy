/** The shared enemy model (src/models/BasicEnemyModel.ts): health, damage,
    a name and four sprite paths; any hit defeats it. */
module EnemyModel {
  import opened Wrappers

  /** The sprite paths the constructor takes. */
  datatype Sprites = Sprites(idle: string, attack: string, damage: string, slain: string)

  class BasicEnemy {
    var health: int
    var damage: int
    var name: string
    var idleSprite: string
    var attackSprite: string
    var damageSprite: string
    var slainSprite: string

    /** damage defaults to 1 when it is left undefined. */
    constructor (health: int, damage: Option<int>, name: string, sprites: Sprites)
      ensures this.health == health && this.name == name
      ensures this.damage == (if damage.Some? then damage.value else 1)
      ensures Looks() == sprites
    {
      this.health := health;
      this.damage := if damage.Some? then damage.value else 1;
      this.name := name;
      idleSprite := sprites.idle;
      attackSprite := sprites.attack;
      damageSprite := sprites.damage;
      slainSprite := sprites.slain;
    }

    /** The four sprite paths. */
    function Looks(): Sprites
      reads this
    {
      Sprites(idleSprite, attackSprite, damageSprite, slainSprite)
    }

    /** Any hit brings the health to 0; nothing else changes. */
    method TakeDamage()
      modifies this
      ensures health == 0 && !(health > 0)
      ensures damage == old(damage) && name == old(name) && Looks() == old(Looks())
    {
      health := 0;
    }

    method IsAlive() returns (alive: bool)
      ensures alive <==> health > 0
    {
      alive := health > 0;
    }
  }
}
