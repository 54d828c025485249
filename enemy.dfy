/**
 * Enemy records: the two enemy types with their fixed tables, the enemy
 * record and its damage rule, and the two kinds of entity that carry the
 * enemy-collider marker (enemy bodies and enemy attacks).
 */
module Enemy {
  import opened Geometry
  import opened Game

  datatype EnemyType = Normal | Drop
  {
    /** Starting hp. */
    function Hp(): (hp: int)
      ensures hp > 0
      ensures hp == (if Normal? then 25 else 30)
    {
      match this
      case Normal => 25
      case Drop => 30
    }

    /** Falling speed per second; a Normal enemy stands still. */
    function Speed(): (v: real)
      ensures v >= 0.0
      ensures v == 0.0 <==> Normal?
    {
      match this
      case Normal => 0.0
      case Drop => 250.0
    }

    /** Hitbox size: both types are 40 high, and a Drop enemy is narrower than a Normal one. */
    function Scale(): (s: Vec2)
      ensures s.y == 40.0 && 0.0 < s.x
      ensures 30.0 <= s.x <= 50.0 && (s.x == 30.0 <==> Drop?)
    {
      match this
      case Normal => Vec2(50.0, 40.0)
      case Drop => Vec2(30.0, 40.0)
    }

    /**
     * The integer spawn region, as half-open ranges `[xLo, xHi)` and
     * `[yLo, yHi)`: the lower half of the upper screen for Normal, from a
     * quarter height up to a full height above the centre for Drop.
     */
    function SpawnX(): (r: (int, int))
      ensures r.0 < r.1
    {
      (-(WINDOW_WIDTH.Floor) / 2, WINDOW_WIDTH.Floor / 2)
    }

    function SpawnY(): (r: (int, int))
      ensures r.0 < r.1
    {
      match this
      case Normal => (0, WINDOW_HEIGHT.Floor / 2)
      case Drop => (WINDOW_HEIGHT.Floor / 4, WINDOW_HEIGHT.Floor)
    }
  }

  /** Both spawn regions lie within the window's width, and Drop enemies start above Normal ones' lowest row. */
  lemma SpawnRegions()
    ensures EnemyType.Normal.SpawnX() == EnemyType.Drop.SpawnX() == (-350, 350)
    ensures EnemyType.Normal.SpawnY() == (0, 525)
    ensures EnemyType.Drop.SpawnY() == (262, 1050)
  {
  }

  datatype Enemy = Enemy(hp: int, enemyType: EnemyType)
  {
    /** The enemy after taking `damage`; a negative amount raises its hp. */
    function Damage(damage: int): (e: Enemy)
      ensures e.enemyType == enemyType
      ensures hp - e.hp == damage
    {
      this.(hp := hp - damage)
    }
  }

  /** The entities carrying the enemy-collider marker: enemy bodies and enemy attacks. */
  datatype Collider =
    | EnemyBody(at: Transform, enemy: Enemy)
    | EnemyShot(at: Transform, attack: Attack)

  /** A newly spawned enemy of type `t` at `pos`: full hp, its type kept, its type's size. */
  function EnemyBundle(t: EnemyType, pos: Vec2): (c: Collider)
    ensures c.EnemyBody? && c.at.pos == pos && c.at.scale == t.Scale()
    ensures c.enemy.enemyType == t
    ensures c.enemy.hp == t.Hp() && c.enemy.hp > 0
  {
    EnemyBody(Transform(pos, t.Scale()), Enemy(t.Hp(), t))
  }

  /** A newly spawned enemy attack of kind `k` at `pos`: full power, the kind's hitbox. */
  function EnemyAttackBundle(k: AttackType, pos: Vec2): (c: Collider)
    ensures c.EnemyShot? && c.at.pos == pos && c.at.scale == k.Scale()
    ensures c.attack == Attack.New(k)
    ensures c.attack.hp == k.AttackPower() > 0
  {
    EnemyShot(Transform(pos, k.Scale()), Attack.New(k))
  }

  /** Whether `c` is a possible result of one spawner draw: a fresh enemy inside its type's spawn region. */
  predicate IsSpawn(c: Collider)
  {
    && c.EnemyBody?
    && var t := c.enemy.enemyType;
    && c.at.scale == t.Scale()
    && c.enemy.hp == t.Hp()
    && c.at.pos.x.Floor as real == c.at.pos.x
    && c.at.pos.y.Floor as real == c.at.pos.y
    && t.SpawnX().0 <= c.at.pos.x.Floor < t.SpawnX().1
    && t.SpawnY().0 <= c.at.pos.y.Floor < t.SpawnY().1
  }
}
