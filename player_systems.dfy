/**
 * The player-side systems of a play mode: applying damage events, the
 * player's collision with enemy bodies and enemy attacks, firing, attack
 * movement with the Rebound bounce, player movement, and the attack-kind
 * cycle driven by the Space key.
 */
module PlayerSystems {
  import opened Wrappers
  import opened Geometry
  import opened Game
  import opened Entity
  import opened Enemy
  import opened World

  // ---------------------------------------------------------------------------
  // Damage events

  /** Total hp the events take from the player. */
  function TotalPower(events: seq<DamageEvent>): (total: int)
    ensures total >= 4 * |events|
    decreases |events|
  {
    if events == [] then 0
    else TotalPower(events[..|events| - 1]) + events[|events| - 1].Power()
  }

  /** Some non-empty prefix of `events`, applied to hp `hp0`, leaves hp at or below 0. */
  predicate Lethal(hp0: int, events: seq<DamageEvent>)
    decreases |events|
  {
    events != [] && (Lethal(hp0, events[..|events| - 1]) || hp0 - TotalPower(events) <= 0)
  }

  /**
   * Because every event takes a positive amount, the round ends during a
   * batch of events exactly when hp is at or below 0 after the whole batch.
   */
  lemma {:induction false} LethalIffSpent(hp0: int, events: seq<DamageEvent>)
    ensures Lethal(hp0, events) <==> events != [] && hp0 - TotalPower(events) <= 0
    decreases |events|
  {
    if events != [] {
      var init := events[..|events| - 1];
      LethalIffSpent(hp0, init);
      assert TotalPower(events) == TotalPower(init) + events[|events| - 1].Power();
    }
  }

  /**
   * The damage-event system: each event lowers hp by its power, is followed by
   * the round-end check, and sends one info update.
   */
  method PlayerDamageEvent(w: World)
    modifies w`damageEvents, w`infoUpdates, w`nextMode, w`nextState, w.player`hp
    ensures w.player.hp == old(w.player.hp) - TotalPower(old(w.damageEvents))
    ensures w.player.killCount == old(w.player.killCount) && w.player.attackType == old(w.player.attackType)
    ensures w.damageEvents == []
    ensures w.infoUpdates == old(w.infoUpdates) + |old(w.damageEvents)|
    ensures w.nextMode == (if Lethal(old(w.player.hp), old(w.damageEvents)) then Some(GameMode.Disabled) else old(w.nextMode))
    ensures w.nextState == (if Lethal(old(w.player.hp), old(w.damageEvents)) then Some(MainState.GameOver) else old(w.nextState))
  {
    var events := w.damageEvents;
    var k := 0;
    while k < |events|
      invariant 0 <= k <= |events|
      invariant w.player.hp == old(w.player.hp) - TotalPower(events[..k])
      invariant w.player.killCount == old(w.player.killCount) && w.player.attackType == old(w.player.attackType)
      invariant w.infoUpdates == old(w.infoUpdates) + k
      invariant w.nextMode == (if Lethal(old(w.player.hp), events[..k]) then Some(GameMode.Disabled) else old(w.nextMode))
      invariant w.nextState == (if Lethal(old(w.player.hp), events[..k]) then Some(MainState.GameOver) else old(w.nextState))
    {
      assert events[..k + 1][..k] == events[..k];
      var power := events[k].Power();
      w.player.Damage(power);
      if w.player.Hp() <= 0 {
        w.nextMode := Some(GameMode.Disabled);
        w.nextState := Some(MainState.GameOver);
      }
      w.infoUpdates := w.infoUpdates + 1;
      k := k + 1;
    }
    assert events[..k] == events;
    w.damageEvents := [];
  }

  // ---------------------------------------------------------------------------
  // Collision of the player with enemy bodies and enemy attacks

  /** The damage events the player's contacts with enemy attacks send, in collider order. */
  function ContactEvents(p: Transform, cs: seq<Collider>): (events: seq<DamageEvent>)
    decreases |cs|
  {
    if cs == [] then []
    else
      var last := cs[|cs| - 1];
      ContactEvents(p, cs[..|cs| - 1]) +
        (if last.EnemyShot? && Collide(p, last.at) then [DamageEvent.Event(last.attack.attack)] else [])
  }

  /** Indices of the enemy attacks the player touches. */
  function ContactShots(p: Transform, cs: seq<Collider>): set<int>
  {
    set j | 0 <= j < |cs| && cs[j].EnemyShot? && Collide(p, cs[j].at)
  }

  /** The player touches an enemy body. */
  predicate BodyContact(p: Transform, cs: seq<Collider>)
  {
    exists j :: 0 <= j < |cs| && cs[j].EnemyBody? && Collide(p, cs[j].at)
  }

  /** One event per touched enemy attack. */
  lemma {:induction false} OneEventPerContact(p: Transform, cs: seq<Collider>)
    ensures |ContactEvents(p, cs)| == |ContactShots(p, cs)|
    decreases |cs|
  {
    if cs != [] {
      var init := cs[..|cs| - 1];
      OneEventPerContact(p, init);
      var last := |cs| - 1;
      assert ContactShots(p, init) == set j | 0 <= j < last && cs[j].EnemyShot? && Collide(p, cs[j].at);
      if cs[last].EnemyShot? && Collide(p, cs[last].at) {
        assert ContactShots(p, cs) == ContactShots(p, init) + {last};
      } else {
        assert ContactShots(p, cs) == ContactShots(p, init);
      }
    }
  }

  /** `cs` and `ds` hold the same entities, except possibly for the durability enemy attacks have left. */
  predicate SameButDurability(cs: seq<Collider>, ds: seq<Collider>)
  {
    && |cs| == |ds|
    && forall j :: 0 <= j < |cs| ==>
         && cs[j].at == ds[j].at
         && cs[j].EnemyShot? == ds[j].EnemyShot?
         && (cs[j].EnemyShot? ==> cs[j].attack.attack == ds[j].attack.attack)
         && (cs[j].EnemyBody? ==> cs[j].enemy == ds[j].enemy)
  }

  /**
   * The damage an enemy attack deals to the player is the full power of its
   * kind: it does not depend on how much durability the attack has left.
   */
  lemma {:induction false} ContactIgnoresDurability(p: Transform, cs: seq<Collider>, ds: seq<Collider>)
    requires SameButDurability(cs, ds)
    ensures ContactEvents(p, cs) == ContactEvents(p, ds)
    ensures TotalPower(ContactEvents(p, cs)) == TotalPower(ContactEvents(p, ds))
    decreases |cs|
  {
    if cs != [] {
      var n := |cs| - 1;
      assert SameButDurability(cs[..n], ds[..n]) by {
        forall j | 0 <= j < n ensures cs[..n][j] == cs[j] && ds[..n][j] == ds[j] {}
      }
      ContactIgnoresDurability(p, cs[..n], ds[..n]);
    }
  }

  /**
   * The player-collision system: touching an enemy body ends the round at
   * once (no hp change, the enemy stays); touching an enemy attack queues its
   * despawn and sends a damage event of its kind.
   */
  method PlayerCollision(w: World)
    modifies w`goneColliders, w`damageEvents, w`nextMode, w`nextState
    ensures w.damageEvents == old(w.damageEvents) + ContactEvents(w.playerAt, w.colliders)
    ensures w.goneColliders == old(w.goneColliders) + ContactShots(w.playerAt, w.colliders)
    ensures w.nextMode == (if BodyContact(w.playerAt, w.colliders) then Some(GameMode.Disabled) else old(w.nextMode))
    ensures w.nextState == (if BodyContact(w.playerAt, w.colliders) then Some(MainState.GameOver) else old(w.nextState))
  {
    var p := w.playerAt;
    var j := 0;
    while j < |w.colliders|
      invariant 0 <= j <= |w.colliders|
      invariant w.damageEvents == old(w.damageEvents) + ContactEvents(p, w.colliders[..j])
      invariant w.goneColliders == old(w.goneColliders) + set k | 0 <= k < j && w.colliders[k].EnemyShot? && Collide(p, w.colliders[k].at)
      invariant w.nextMode == (if BodyContact(p, w.colliders[..j]) then Some(GameMode.Disabled) else old(w.nextMode))
      invariant w.nextState == (if BodyContact(p, w.colliders[..j]) then Some(MainState.GameOver) else old(w.nextState))
    {
      var c := w.colliders[j];
      assert w.colliders[..j + 1][..j] == w.colliders[..j];
      assert w.colliders[..j + 1][j] == c;
      if Collide(p, c.at) {
        if c.EnemyBody? {
          w.nextMode := Some(GameMode.Disabled);
          w.nextState := Some(MainState.GameOver);
        }
        if c.EnemyShot? {
          w.goneColliders := w.goneColliders + {j};
          w.damageEvents := w.damageEvents + [DamageEvent.Event(c.attack.attack)];
        }
      }
      j := j + 1;
    }
    assert w.colliders[..j] == w.colliders;
  }

  // ---------------------------------------------------------------------------
  // Firing and attack movement

  /** The attacks one firing spawns at `pos`: one per kind in the launch group of `kind`, each at full power. */
  function Volley(pos: Vec2, kind: AttackType): (v: seq<Shot>)
  {
    seq(|kind.List()|, t requires 0 <= t < |kind.List()| => PlayerAttackBundle(Attack.New(kind.List()[t]), pos))
  }

  /** A volley has one attack per member of the launch group, all at full power and at the firing position. */
  lemma VolleyShape(pos: Vec2, kind: AttackType)
    ensures |Volley(pos, kind)| == |kind.List()|
    ensures forall t :: 0 <= t < |Volley(pos, kind)| ==>
      && Volley(pos, kind)[t].attack.attack == kind.List()[t]
      && Volley(pos, kind)[t].attack.hp == kind.List()[t].AttackPower()
      && Volley(pos, kind)[t].at.pos == pos
  {
  }

  /** Firing Shotgun spawns exactly five attacks, Shotgun to Shotgun5; firing Rebound spawns both headings. */
  lemma ShotgunVolley(pos: Vec2, heading: bool)
    ensures |Volley(pos, Shotgun)| == 5
    ensures forall t :: 0 <= t < 5 ==> Volley(pos, Shotgun)[t].attack == Attack.New([Shotgun, Shotgun2, Shotgun3, Shotgun4, Shotgun5][t])
    ensures |Volley(pos, Rebound(heading))| == 2
    ensures Volley(pos, Rebound(heading))[0].attack == Attack(10, Rebound(false))
    ensures Volley(pos, Rebound(heading))[1].attack == Attack(10, Rebound(true))
  {
  }

  /** The fire system: queues one attack per kind of the player's launch group at the player's position, and one sound. */
  method PlayerAttack(w: World)
    modifies w`newAttacks, w`sounds
    ensures w.newAttacks == old(w.newAttacks) + Volley(w.playerAt.pos, w.player.attackType)
    ensures w.sounds == old(w.sounds) + 1
  {
    var kinds := w.player.GetAttack().List();
    var t := 0;
    while t < |kinds|
      invariant 0 <= t <= |kinds|
      invariant w.newAttacks == old(w.newAttacks) + Volley(w.playerAt.pos, w.player.attackType)[..t]
      invariant w.sounds == old(w.sounds)
    {
      w.newAttacks := w.newAttacks + [PlayerAttackBundle(Attack.New(kinds[t]), w.playerAt.pos)];
      t := t + 1;
    }
    w.sounds := w.sounds + 1;
  }

  /** One tick of player-attack movement: the kind's speeds, then the Rebound bounce off the side edges. */
  function Fly(s: Shot): Shot
  {
    var k := s.attack.attack;
    var pos := Vec2(s.at.pos.x + k.XSpeed(), s.at.pos.y + k.YSpeed());
    var attack :=
      if k == Rebound(true) && pos.x > WINDOW_WIDTH / 2.0 then Attack.New(Rebound(false))
      else if k == Rebound(false) && -WINDOW_WIDTH / 2.0 > pos.x then Attack.New(Rebound(true))
      else s.attack;
    Shot(s.at.(pos := pos), attack)
  }

  /** A player attack above the top edge is despawned. */
  predicate Escaped(s: Shot)
  {
    PLAYER_ATTACK_DESPAWN_POINT < s.at.pos.y
  }

  /**
   * Only Rebound attacks change record while flying: past the edge they turn
   * round as a fresh attack, durability reset to 10; every other attack keeps
   * its record, durability included, and every attack climbs.
   */
  lemma FlyRecord(s: Shot)
    ensures Fly(s).at.pos.y > s.at.pos.y && Fly(s).at.scale == s.at.scale
    ensures !s.attack.attack.Rebound? ==> Fly(s).attack == s.attack
    ensures s.attack.attack == Rebound(true) && s.at.pos.x + 10.0 > 350.0 ==> Fly(s).attack == Attack(10, Rebound(false))
    ensures s.attack.attack == Rebound(false) && s.at.pos.x - 10.0 < -350.0 ==> Fly(s).attack == Attack(10, Rebound(true))
  {
  }

  /** The band a Rebound attack stays in: heading right it is within [-360, 350], heading left within [-350, 360]. */
  predicate InBand(s: Shot)
  {
    s.attack.attack.Rebound? ==>
      if s.attack.attack.heading then -360.0 <= s.at.pos.x <= 350.0 else -350.0 <= s.at.pos.x <= 360.0
  }

  /** Rebound attacks bounce between the side edges: a tick of flight keeps them in their band, so within 10 of the window. */
  lemma ReboundStaysInBand(s: Shot)
    requires InBand(s)
    ensures InBand(Fly(s))
    ensures Fly(s).attack.attack.Rebound? ==> -360.0 <= Fly(s).at.pos.x <= 360.0
  {
  }

  /** The attack-movement system. */
  method MovePlayerAttack(w: World)
    modifies w`attacks, w`goneAttacks
    ensures |w.attacks| == |old(w.attacks)|
    ensures forall k :: 0 <= k < |w.attacks| ==> w.attacks[k] == Fly(old(w.attacks)[k])
    ensures w.goneAttacks == old(w.goneAttacks) + (set k | 0 <= k < |w.attacks| && Escaped(w.attacks[k]))
  {
    var k := 0;
    while k < |w.attacks|
      invariant 0 <= k <= |w.attacks| == |old(w.attacks)|
      invariant forall m :: 0 <= m < k ==> w.attacks[m] == Fly(old(w.attacks)[m])
      invariant forall m :: k <= m < |w.attacks| ==> w.attacks[m] == old(w.attacks)[m]
      invariant w.goneAttacks == old(w.goneAttacks) + (set m | 0 <= m < k && Escaped(w.attacks[m]))
    {
      var s := w.attacks[k];
      var kind := s.attack.attack;
      var pos := Vec2(s.at.pos.x + kind.XSpeed(), s.at.pos.y + kind.YSpeed());
      var attack := s.attack;
      if kind == Rebound(true) && pos.x > WINDOW_WIDTH / 2.0 {
        attack := Attack.New(Rebound(false));
      } else if kind == Rebound(false) && -WINDOW_WIDTH / 2.0 > pos.x {
        attack := Attack.New(Rebound(true));
      }
      w.attacks := w.attacks[k := Shot(s.at.(pos := pos), attack)];
      if PLAYER_ATTACK_DESPAWN_POINT < pos.y {
        w.goneAttacks := w.goneAttacks + {k};
      }
      k := k + 1;
    }
  }

  // ---------------------------------------------------------------------------
  // Player movement

  /** Arrow keys held this frame. */
  datatype Keys = Keys(up: bool, down: bool, right: bool, left: bool)

  /** The direction along one axis: +1 for the positive key, -1 for the negative one, 0 for both or neither. */
  function Direction(positive: bool, negative: bool): (d: real)
    ensures d == 0.0 || d == 1.0 || d == -1.0
    ensures d == 0.0 <==> positive == negative
  {
    (if positive then 1.0 else 0.0) - (if negative then 1.0 else 0.0)
  }

  /** The player's position after one frame of `dt` seconds at `speed`, kept inside the window. */
  function Step(pos: Vec2, keys: Keys, speed: real, dt: real): (next: Vec2)
    ensures -CLAMP_X <= next.x <= CLAMP_X && -CLAMP_Y <= next.y <= CLAMP_Y
  {
    Vec2(Clamp(pos.x + Direction(keys.right, keys.left) * speed * dt, -CLAMP_X, CLAMP_X),
         Clamp(pos.y + Direction(keys.up, keys.down) * speed * dt, -CLAMP_Y, CLAMP_Y))
  }

  /** Inside the window and with no key held, the player stays put. */
  lemma StepAtRest(pos: Vec2, speed: real, dt: real)
    requires -CLAMP_X <= pos.x <= CLAMP_X && -CLAMP_Y <= pos.y <= CLAMP_Y
    ensures Step(pos, Keys(false, false, false, false), speed, dt) == pos
  {
  }

  method MovePlayer(w: World, keys: Keys, dt: real)
    modifies w`playerAt
    ensures w.playerAt == old(w.playerAt).(pos := Step(old(w.playerAt.pos), keys, PLAYER_SPEED, dt))
    ensures -CLAMP_X <= w.playerAt.pos.x <= CLAMP_X && -CLAMP_Y <= w.playerAt.pos.y <= CLAMP_Y
  {
    var x := w.playerAt.pos.x + Direction(keys.right, keys.left) * PLAYER_SPEED * dt;
    var y := w.playerAt.pos.y + Direction(keys.up, keys.down) * PLAYER_SPEED * dt;
    var next := Vec2(Clamp(x, -CLAMP_X, CLAMP_X), Clamp(y, -CLAMP_Y, CLAMP_Y));
    assert next == Step(w.playerAt.pos, keys, PLAYER_SPEED, dt);
    w.playerAt := w.playerAt.(pos := next);
  }

  // ---------------------------------------------------------------------------
  // Attack-kind cycle

  const ATTACK_LIST: seq<AttackType> := [Rebound(false), Shotgun, AttackType.Normal, Power]
  /** The length of `ATTACK_LIST`. */
  const ATTACK_LIST_LEN: nat := 4

  /** The fire-timer period set when `kind` is selected. */
  function FireTimestep(kind: AttackType): (t: real)
    ensures t > 0.0
  {
    match kind
    case Normal => 0.08
    case Power => 0.1
    case _ => 0.13
  }

  /** The index after one press: one step on, wrapping to 0 at the end of the list. */
  function NextIndex(i: int): int
  {
    if i + 1 == ATTACK_LIST_LEN then 0 else i + 1
  }

  /** The index after `n` presses from index `i`. */
  function IndexAfter(i: int, n: nat): (j: int)
    requires 0 <= i < ATTACK_LIST_LEN
    ensures 0 <= j < ATTACK_LIST_LEN
    decreases n
  {
    if n == 0 then i else NextIndex(IndexAfter(i, n - 1))
  }

  /** Each press moves the index one step round the list, modulo 4. */
  lemma {:induction false} IndexAfterIsModular(i: int, n: nat)
    requires 0 <= i < ATTACK_LIST_LEN
    ensures IndexAfter(i, n) == (i + n) % ATTACK_LIST_LEN
    decreases n
  {
    if n > 0 {
      IndexAfterIsModular(i, n - 1);
      var j := IndexAfter(i, n - 1);
      assert IndexAfter(i, n) == NextIndex(j);
      if j == 3 {
        assert (i + n) % 4 == 0;
      } else {
        assert (i + n) % 4 == j + 1;
      }
    }
  }

  /** The kind cycle has period 4 and visits all four kinds in any four presses. */
  lemma CycleCoversAll(i: int)
    requires 0 <= i < ATTACK_LIST_LEN
    ensures IndexAfter(i, ATTACK_LIST_LEN) == i
    ensures forall kind :: kind in ATTACK_LIST ==>
      exists n :: 0 <= n < ATTACK_LIST_LEN && ATTACK_LIST[IndexAfter(i, n)] == kind
  {
    IndexAfterIsModular(i, ATTACK_LIST_LEN);
    forall kind | kind in ATTACK_LIST
      ensures exists n :: 0 <= n < ATTACK_LIST_LEN && ATTACK_LIST[IndexAfter(i, n)] == kind
    {
      var m :| 0 <= m < ATTACK_LIST_LEN && ATTACK_LIST[m] == kind;
      var n := (m - i + ATTACK_LIST_LEN) % ATTACK_LIST_LEN;
      IndexAfterIsModular(i, n);
      assert ATTACK_LIST[IndexAfter(i, n)] == kind;
    }
  }

  /**
   * The process-wide "next attack" index and the fixed-time step it re-arms,
   * as one object. The index starts at 1.
   */
  class AttackSelector {
    var nextAttack: int
    var timestep: real

    ghost predicate Valid()
      reads this
    {
      0 <= nextAttack < ATTACK_LIST_LEN
    }

    constructor (initialTimestep: real)
      ensures Valid() && nextAttack == 1 && timestep == initialTimestep
    {
      nextAttack := 1;
      timestep := initialTimestep;
    }

    /** On a Space press: select the kind at the index, re-arm the timer for it, and advance the index. */
    method AttackChange(player: Player, spacePressed: bool)
      requires Valid()
      modifies this, player`attackType
      ensures Valid()
      ensures spacePressed ==>
        && player.attackType == ATTACK_LIST[old(nextAttack)]
        && timestep == FireTimestep(ATTACK_LIST[old(nextAttack)])
        && nextAttack == (old(nextAttack) + 1) % ATTACK_LIST_LEN
      ensures !spacePressed ==>
        player.attackType == old(player.attackType) && timestep == old(timestep) && nextAttack == old(nextAttack)
      ensures player.hp == old(player.hp) && player.killCount == old(player.killCount)
    {
      if spacePressed {
        var kind := ATTACK_LIST[nextAttack];
        timestep := FireTimestep(kind);
        player.ChangeAttack(kind);
        nextAttack := nextAttack + 1;
        if nextAttack == ATTACK_LIST_LEN {
          nextAttack := 0;
        }
      }
    }
  }

  /** From the initial index, the first four presses select Shotgun, Normal, Power and Rebound(false), in that order. */
  lemma FirstPresses()
    ensures ATTACK_LIST[IndexAfter(1, 0)] == Shotgun
    ensures ATTACK_LIST[IndexAfter(1, 1)] == AttackType.Normal
    ensures ATTACK_LIST[IndexAfter(1, 2)] == Power
    ensures ATTACK_LIST[IndexAfter(1, 3)] == Rebound(false)
    ensures IndexAfter(1, 4) == 1
  {
  }

  // ---------------------------------------------------------------------------
  // Two players, one index

  /**
   * One Space press in two-player mode as written: both players' change
   * systems react to the same press and advance the one process-wide index,
   * so the second player takes the kind after the first player's.
   */
  method SharedPress(sel: AttackSelector, first: Player, second: Player)
    requires sel.Valid() && first != second
    modifies sel, first`attackType, second`attackType
    ensures sel.Valid()
    ensures first.attackType == ATTACK_LIST[old(sel.nextAttack)]
    ensures second.attackType == ATTACK_LIST[NextIndex(old(sel.nextAttack))]
    ensures sel.nextAttack == IndexAfter(old(sel.nextAttack), 2)
  {
    sel.AttackChange(first, true);
    sel.AttackChange(second, true);
  }

  /**
   * With a shared index starting at 1, every press gives the first player
   * Shotgun or Power and the second player Normal or Rebound(false): neither
   * player can ever reach the other two kinds.
   */
  lemma {:induction false} SharedIndexSplitsKinds(presses: nat)
    ensures ATTACK_LIST[IndexAfter(1, 2 * presses)] in {Shotgun, Power}
    ensures ATTACK_LIST[IndexAfter(1, 2 * presses + 1)] in {AttackType.Normal, Rebound(false)}
    ensures IndexAfter(1, 2 * presses) == 1 || IndexAfter(1, 2 * presses) == 3
    decreases presses
  {
    if presses > 0 {
      SharedIndexSplitsKinds(presses - 1);
      assert IndexAfter(1, 2 * presses) == NextIndex(NextIndex(IndexAfter(1, 2 * (presses - 1))));
    }
  }

  /**
   * One Space press with one index per player: each player advances only
   * their own selector.
   */
  method SeparatePress(sel1: AttackSelector, sel2: AttackSelector, first: Player, second: Player)
    requires sel1.Valid() && sel2.Valid() && sel1 != sel2 && first != second
    modifies sel1, sel2, first`attackType, second`attackType
    ensures sel1.Valid() && sel2.Valid()
    ensures first.attackType == ATTACK_LIST[old(sel1.nextAttack)]
    ensures second.attackType == ATTACK_LIST[old(sel2.nextAttack)]
    ensures sel1.nextAttack == NextIndex(old(sel1.nextAttack))
    ensures sel2.nextAttack == NextIndex(old(sel2.nextAttack))
  {
    sel1.AttackChange(first, true);
    sel2.AttackChange(second, true);
  }
}
