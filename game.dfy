/**
 * The attack catalog and the constants of the game: which attack kinds
 * exist, how strong, how large and how fast each one is, and which kinds a
 * single shot fans out into.
 */
module Game {
  import opened Geometry

  // Window size, from the application entry point.
  const WINDOW_WIDTH: real := 700.0
  const WINDOW_HEIGHT: real := 1050.0

  // The player is kept inside the window.
  const CLAMP_Y: real := WINDOW_HEIGHT / 2.0
  const CLAMP_X: real := WINDOW_WIDTH / 2.0

  const INITIAL_PLAYER_POSITION: Vec2 := Vec2(0.0, -450.0)
  const INITIAL_PLAYER_HP: int := 10
  const INITIAL_KILLCOUNT: nat := 0
  const PLAYER_SPEED: real := 450.0
  const PLAYER_SIZE: Vec2 := Vec2(50.0, 50.0)

  const ENEMY_ATTACK_SPEED: real := 0.8

  // Where attacks leave the screen.
  const ENEMY_ATTACK_DESPAWN_POINT: real := -WINDOW_HEIGHT / 2.0
  const PLAYER_ATTACK_DESPAWN_POINT: real := WINDOW_HEIGHT / 2.0

  /** Enemies spawned by one firing of the enemy spawner. */
  const ENEMY_CREAT_NUMBER: nat := 10

  /** The play mode; `Disabled` (the default) is the mode of the game menu and of a finished round. */
  datatype GameMode = Single | Tow | VS | Connect | Disabled

  /** The application's top-level screen state. */
  datatype MainState = Menu | InGame | GameOver

  datatype AttackType =
    | Normal
    | Power
    | Shotgun
    | Shotgun2
    | Shotgun3
    | Shotgun4
    | Shotgun5
    | Rebound(heading: bool)
  {
    /** Hitbox size (width, height). */
    function Scale(): (s: Vec2)
      ensures s.x == s.y
      ensures s.x == (if Rebound? then 30.0 else 20.0)
    {
      match this
      case Normal => Vec2(20.0, 20.0)
      case Power => Vec2(20.0, 20.0)
      case Shotgun | Shotgun2 | Shotgun3 | Shotgun4 | Shotgun5 => Vec2(20.0, 20.0)
      case Rebound(_) => Vec2(30.0, 30.0)
    }

    /** Damage dealt, and the durability a fresh attack of this kind starts with. */
    function AttackPower(): (p: int)
      ensures 4 <= p <= 20
    {
      match this
      case Normal => 4
      case Power => 20
      case Shotgun => 7
      case Shotgun2 => 7
      case Shotgun3 => 9
      case Shotgun4 => 7
      case Shotgun5 => 7
      case Rebound(_) => 10
    }

    /** Vertical distance travelled per tick. */
    function YSpeed(): (v: real)
      ensures v > 0.0
      ensures v == (if Rebound? then 2.0 else 15.0)
    {
      match this
      case Rebound(_) => 2.0
      case _ => 15.0
    }

    /**
     * Horizontal distance travelled per tick: only the spread members of a
     * shotgun fan and the rebounding kinds move sideways, a rebound to the
     * right exactly when its heading is set.
     */
    function XSpeed(): (v: real)
      ensures -10.0 <= v <= 10.0
      ensures v != 0.0 <==> Shotgun? || Shotgun2? || Shotgun4? || Shotgun5? || Rebound?
      ensures Rebound? ==> (v > 0.0 <==> heading)
    {
      match this
      case Shotgun => 3.0
      case Shotgun2 => 7.0
      case Shotgun3 => 0.0
      case Shotgun4 => -7.0
      case Shotgun5 => -3.0
      case Rebound(true) => 10.0
      case Rebound(false) => -10.0
      case _ => 0.0
    }

    /** The kinds spawned, one attack each, when this kind is fired. */
    function List(): (kinds: seq<AttackType>)
      ensures this in kinds
      ensures |kinds| == 1 || |kinds| == 2 || |kinds| == 5
      ensures |kinds| == 1 <==> !(Shotgun? || Rebound?)
      ensures !(Shotgun? || Rebound?) ==> kinds == [this]
    {
      match this
      case Shotgun => [Shotgun, Shotgun2, Shotgun3, Shotgun4, Shotgun5]
      case Rebound(_) => [Rebound(false), Rebound(true)]
      case _ => [this]
    }
  }

  /** Sum of the horizontal speeds of a list of kinds. */
  function SumXSpeed(kinds: seq<AttackType>): real
  {
    if kinds == [] then 0.0 else kinds[0].XSpeed() + SumXSpeed(kinds[1..])
  }

  /** A shotgun fan has five members, each of them a distinct shotgun kind. */
  lemma ShotgunFan()
    ensures Shotgun.List() == [Shotgun, Shotgun2, Shotgun3, Shotgun4, Shotgun5]
    ensures forall a, b :: 0 <= a < b < 5 ==> Shotgun.List()[a] != Shotgun.List()[b]
  {
  }

  /** Firing either heading of Rebound launches both headings. */
  lemma ReboundFan(heading: bool)
    ensures Rebound(heading).List() == [Rebound(false), Rebound(true)]
    ensures Rebound(heading).List() == Rebound(!heading).List()
  {
  }

  /** The multi-shot fans are mirror-symmetric: their horizontal speeds cancel out. */
  lemma FanIsSymmetric(k: AttackType)
    requires k.Shotgun? || k.Rebound?
    ensures SumXSpeed(k.List()) == 0.0
    ensures forall t :: 0 <= t < |k.List()| ==> k.List()[t].YSpeed() == k.YSpeed()
  {
    var kinds := k.List();
    if k.Shotgun? {
      assert SumXSpeed(kinds[4..]) == -3.0;
      assert SumXSpeed(kinds[3..]) == -10.0 by { assert kinds[3..][1..] == kinds[4..]; }
      assert SumXSpeed(kinds[2..]) == -10.0 by { assert kinds[2..][1..] == kinds[3..]; }
      assert SumXSpeed(kinds[1..]) == -3.0 by { assert kinds[1..][1..] == kinds[2..]; }
    } else {
      assert SumXSpeed(kinds[1..]) == 10.0;
    }
  }

  /** An attack on the field: its remaining durability and its kind. */
  datatype Attack = Attack(hp: int, attack: AttackType)
  {
    /** A freshly fired attack: durability is the kind's full power. */
    static function New(k: AttackType): (a: Attack)
      ensures a.attack == k
      ensures a.hp == k.AttackPower()
      ensures a.hp > 0
    {
      Attack(k.AttackPower(), k)
    }

    /** The attack after absorbing `damage`; a negative amount raises its durability. */
    function Damage(damage: int): (a: Attack)
      ensures a.attack == attack
      ensures hp - a.hp == damage
    {
      this.(hp := hp - damage)
    }
  }
}
