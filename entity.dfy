/**
 * The shared capability records. Every play mode wraps the same player,
 * attack and damage-event records in its own marker type and forwards each
 * capability to them; this module models that single shared implementation
 * once. The attack capability is `Game.Attack` itself (`New`, `Damage`,
 * and its two fields as getters).
 */
module Entity {
  import opened Geometry
  import opened Game

  /** The player record behind the player capability: hp, kills and the selected attack kind. */
  class Player {
    var hp: int
    var killCount: nat
    var attackType: AttackType

    /** The default player of the single-shooter modes. */
    constructor Default()
      ensures hp == INITIAL_PLAYER_HP && killCount == INITIAL_KILLCOUNT && attackType == Normal
    {
      hp := INITIAL_PLAYER_HP;
      killCount := INITIAL_KILLCOUNT;
      attackType := Normal;
    }

    /** The default player with its hp and attack kind overridden, as the mode setups build it. */
    constructor Init(startHp: int, kind: AttackType)
      ensures hp == startHp && killCount == INITIAL_KILLCOUNT && attackType == kind
    {
      hp := startHp;
      killCount := INITIAL_KILLCOUNT;
      attackType := kind;
    }

    function Hp(): int
      reads this
    {
      hp
    }

    function GetKill(): nat
      reads this
    {
      killCount
    }

    function GetAttack(): AttackType
      reads this
    {
      attackType
    }

    /** Lowers hp by `damage`; no bound check, hp may go negative. */
    method Damage(damage: int)
      modifies this`hp
      ensures hp == old(hp) - damage
      ensures killCount == old(killCount) && attackType == old(attackType)
    {
      hp := hp - damage;
    }

    /** Registers one kill. */
    method Kill()
      modifies this`killCount
      ensures killCount == old(killCount) + 1
      ensures hp == old(hp) && attackType == old(attackType)
    {
      killCount := killCount + 1;
    }

    method ChangeAttack(kind: AttackType)
      modifies this`attackType
      ensures attackType == kind
      ensures hp == old(hp) && killCount == old(killCount)
    {
      attackType := kind;
    }
  }

  /** The damage event the player receives when an enemy attack reaches it: it carries the attack's kind. */
  datatype DamageEvent = DamageEvent(attack: AttackType)
  {
    static function Event(kind: AttackType): (e: DamageEvent)
      ensures e.attack == kind
      ensures e.Power() == kind.AttackPower()
    {
      DamageEvent(kind)
    }

    /** The hp the event takes from the player: the full power of the kind, whatever durability the attack had left. */
    function Power(): (p: int)
      ensures p > 0
    {
      attack.AttackPower()
    }
  }

  /** A player attack entity: its transform and its attack record. */
  datatype Shot = Shot(at: Transform, attack: Attack)

  /** Player attacks are spawned 20 by 20, whatever their kind's hitbox table says. */
  const PLAYER_ATTACK_SCALE: Vec2 := Vec2(20.0, 20.0)

  /** A player attack spawned at `pos`. */
  function PlayerAttackBundle(attack: Attack, pos: Vec2): (s: Shot)
    ensures s.attack == attack && s.at.pos == pos
    ensures s.at.scale == PLAYER_ATTACK_SCALE
  {
    Shot(Transform(pos, PLAYER_ATTACK_SCALE), attack)
  }
}
