/**
 * The enemy-side systems of a play mode: collision of player attacks with
 * enemy-collider entities, enemy and enemy-attack movement with their
 * despawn rules, enemy fire, and the enemy spawner.
 */
module EnemySystems {
  import opened Geometry
  import opened Game
  import opened Entity
  import opened Enemy
  import opened World

  // ---------------------------------------------------------------------------
  // Resolution rules for one colliding pair

  /** The outcome of a player attack with durability `shotHp` striking an enemy body with `enemyHp`. */
  datatype Strike = Strike(enemyHp: int, shotHp: int, kill: bool)

  function StrikeEnemy(shotHp: int, enemyHp: int): Strike
  {
    var left := enemyHp - shotHp;
    if left <= 0 then Strike(left, shotHp, true)
    else Strike(left, shotHp - left, false)
  }

  /** Kill case: the enemy loses the attack's current durability and the attack is untouched. */
  lemma StrikeKills(shotHp: int, enemyHp: int)
    requires enemyHp - shotHp <= 0
    ensures StrikeEnemy(shotHp, enemyHp) == Strike(enemyHp - shotHp, shotHp, true)
  {
  }

  /** Soak case: the surviving enemy's remaining hp is taken from the attack's durability. */
  lemma StrikeSoaks(shotHp: int, enemyHp: int)
    requires enemyHp - shotHp > 0
    ensures var s := StrikeEnemy(shotHp, enemyHp);
      !s.kill && s.enemyHp == enemyHp - shotHp > 0 && s.shotHp == shotHp - s.enemyHp
  {
  }

  /** The outcome of a duel between a player attack (`p`) and an enemy attack (`e`): new durabilities and who is despawned. */
  datatype DuelOutcome = DuelOutcome(playerHp: int, enemyHp: int, playerGone: bool, enemyGone: bool)

  function Duel(p: int, e: int): DuelOutcome
  {
    if e < p then DuelOutcome(p - e, e, false, true)
    else if p < e then DuelOutcome(p, e - p, true, false)
    else DuelOutcome(p, e, true, true)
  }

  /** The duel does not depend on which side is the player's: swapping the sides swaps the outcome. */
  lemma DuelSymmetric(p: int, e: int)
    ensures var d := Duel(p, e); var m := Duel(e, p);
      d.playerHp == m.enemyHp && d.enemyHp == m.playerHp &&
      d.playerGone == m.enemyGone && d.enemyGone == m.playerGone
  {
  }

  /**
   * The side with strictly smaller durability is despawned and the other
   * loses that much; a tie despawns both; a survivor of two positive sides
   * keeps positive durability.
   */
  lemma DuelRule(p: int, e: int)
    ensures var d := Duel(p, e);
      && (p < e ==> d.playerGone && !d.enemyGone && d.enemyHp == e - p && d.playerHp == p)
      && (e < p ==> d.enemyGone && !d.playerGone && d.playerHp == p - e && d.enemyHp == e)
      && (p == e ==> d.playerGone && d.enemyGone)
      && (p > 0 && e > 0 ==> (!d.playerGone ==> d.playerHp > 0) && (!d.enemyGone ==> d.enemyHp > 0))
      && (d.playerGone || d.enemyGone)
  {
  }

  // ---------------------------------------------------------------------------
  // The collision pass as a fold over attack/collider pairs

  /** What one pass of the collision system reads and writes. */
  datatype Board = Board(
    shots: seq<Shot>,
    colliders: seq<Collider>,
    kills: nat,
    infos: nat,
    goneShots: set<int>,
    goneColliders: set<int>)

  function BoardOf(w: World): Board
    reads w, w.player
  {
    Board(w.attacks, w.colliders, w.player.killCount, w.infoUpdates, w.goneAttacks, w.goneColliders)
  }

  /** Attack `i` meets collider `j`. */
  function Meet(b: Board, i: int, j: int): (r: Board)
    requires 0 <= i < |b.shots| && 0 <= j < |b.colliders|
    ensures |r.shots| == |b.shots| && |r.colliders| == |b.colliders|
    ensures forall k :: 0 <= k < |b.shots| && k != i ==> r.shots[k] == b.shots[k]
    ensures forall k :: 0 <= k < |b.colliders| && k != j ==> r.colliders[k] == b.colliders[k]
    ensures r.shots[i].at == b.shots[i].at && r.shots[i].attack.attack == b.shots[i].attack.attack
    ensures r.colliders[j].at == b.colliders[j].at
    ensures r.colliders[j].EnemyBody? == b.colliders[j].EnemyBody?
    ensures r.colliders[j].EnemyBody? ==> r.colliders[j].enemy.enemyType == b.colliders[j].enemy.enemyType
    ensures r.colliders[j].EnemyShot? ==> r.colliders[j].attack.attack == b.colliders[j].attack.attack
    ensures r.kills == b.kills || r.kills == b.kills + 1
    ensures r.infos - b.infos == r.kills - b.kills
    ensures b.goneShots <= r.goneShots <= b.goneShots + {i}
    ensures b.goneColliders <= r.goneColliders <= b.goneColliders + {j}
    ensures !Collide(b.colliders[j].at, b.shots[i].at) ==> r == b
  {
    var s := b.shots[i];
    var c := b.colliders[j];
    if !Collide(c.at, s.at) then b
    else
      match c
      case EnemyBody(at, enemy) =>
        var hit := enemy.Damage(s.attack.hp);
        if hit.hp <= 0 then
          b.(colliders := b.colliders[j := EnemyBody(at, hit)],
             kills := b.kills + 1, infos := b.infos + 1,
             goneColliders := b.goneColliders + {j})
        else
          b.(colliders := b.colliders[j := EnemyBody(at, hit)],
             shots := b.shots[i := s.(attack := s.attack.Damage(hit.hp))],
             goneShots := b.goneShots + {i})
      case EnemyShot(at, foe) =>
        if foe.hp < s.attack.hp then
          b.(shots := b.shots[i := s.(attack := s.attack.Damage(foe.hp))],
             goneColliders := b.goneColliders + {j})
        else if s.attack.hp < foe.hp then
          b.(colliders := b.colliders[j := EnemyShot(at, foe.Damage(s.attack.hp))],
             goneShots := b.goneShots + {i})
        else
          b.(goneShots := b.goneShots + {i}, goneColliders := b.goneColliders + {j})
  }

  /** An attack overlapping an enemy body: the kill rule and the soak rule, through `StrikeEnemy`. */
  lemma MeetEnemyBody(b: Board, i: int, j: int)
    requires 0 <= i < |b.shots| && 0 <= j < |b.colliders|
    requires b.colliders[j].EnemyBody? && Collide(b.colliders[j].at, b.shots[i].at)
    ensures var r := Meet(b, i, j);
      var s := StrikeEnemy(b.shots[i].attack.hp, b.colliders[j].enemy.hp);
      && r.colliders[j].enemy.hp == s.enemyHp
      && r.shots[i].attack.hp == s.shotHp
      && (s.kill ==>
            (r.kills == b.kills + 1 && r.infos == b.infos + 1
             && r.goneColliders == b.goneColliders + {j}
             && r.shots == b.shots && r.goneShots == b.goneShots))
      && (!s.kill ==>
            (r.kills == b.kills && r.infos == b.infos
             && r.goneShots == b.goneShots + {i} && r.goneColliders == b.goneColliders))
  {
  }

  /** An attack overlapping an enemy attack: the duel rule. */
  lemma MeetEnemyShot(b: Board, i: int, j: int)
    requires 0 <= i < |b.shots| && 0 <= j < |b.colliders|
    requires b.colliders[j].EnemyShot? && Collide(b.colliders[j].at, b.shots[i].at)
    ensures var r := Meet(b, i, j);
      var d := Duel(b.shots[i].attack.hp, b.colliders[j].attack.hp);
      && r.shots[i].attack.hp == d.playerHp
      && r.colliders[j].attack.hp == d.enemyHp
      && r.goneShots == (if d.playerGone then b.goneShots + {i} else b.goneShots)
      && r.goneColliders == (if d.enemyGone then b.goneColliders + {j} else b.goneColliders)
      && r.kills == b.kills && r.infos == b.infos
  {
  }

  /**
   * The whole pass from pair (i, j) on, attacks in the outer loop and
   * colliders in the inner one. Each attack's durability carries over from
   * one collider to the next, despawned or not.
   */
  function Sweep(b: Board, i: int, j: int): (r: Board)
    requires 0 <= i <= |b.shots| && 0 <= j <= |b.colliders|
    ensures |r.shots| == |b.shots| && |r.colliders| == |b.colliders|
    ensures r.kills >= b.kills && r.infos - b.infos == r.kills - b.kills
    ensures b.goneShots <= r.goneShots && b.goneColliders <= r.goneColliders
    ensures forall k :: k in r.goneShots ==> k in b.goneShots || i <= k < |b.shots|
    ensures forall k :: k in r.goneColliders ==> k in b.goneColliders || 0 <= k < |b.colliders|
    ensures forall k :: 0 <= k < i ==> r.shots[k] == b.shots[k]
    decreases |b.shots| - i, |b.colliders| - j
  {
    if i == |b.shots| then b
    else if j == |b.colliders| then Sweep(b, i + 1, 0)
    else Sweep(Meet(b, i, j), i, j + 1)
  }

  /** A pass over a board where nothing overlaps changes nothing. */
  lemma {:induction false} SweepApart(b: Board, i: int, j: int)
    requires 0 <= i <= |b.shots| && 0 <= j <= |b.colliders|
    requires forall a, c :: 0 <= a < |b.shots| && 0 <= c < |b.colliders| ==> !Collide(b.colliders[c].at, b.shots[a].at)
    ensures Sweep(b, i, j) == b
    decreases |b.shots| - i, |b.colliders| - j
  {
    if i == |b.shots| {
    } else if j == |b.colliders| {
      SweepApart(b, i + 1, 0);
    } else {
      SweepApart(b, i, j + 1);
    }
  }

  // Concrete consequences of the deferred despawn.

  const ORIGIN: Transform := Transform(Vec2(0.0, 0.0), Vec2(20.0, 20.0))

  /**
   * A Normal attack soaked by a first enemy keeps meeting a second one in the
   * same pass with durability 4 - 21 = -17, and that negative damage raises
   * the second enemy's hp from 25 to 42.
   */
  lemma SoakedAttackHeals()
    ensures var b := Board([Shot(ORIGIN, Attack.New(AttackType.Normal))],
                           [EnemyBody(ORIGIN, Enemy(25, EnemyType.Normal)), EnemyBody(ORIGIN, Enemy(25, EnemyType.Normal))],
                           0, 0, {}, {});
      var r := Sweep(b, 0, 0);
      r.colliders[0].EnemyBody? && r.colliders[1].EnemyBody? &&
      r.colliders[0].enemy.hp == 21 && r.colliders[1].enemy.hp == 42 &&
      r.shots[0].attack.hp == -59 && r.goneShots == {0} && r.kills == 0
  {
    var b := Board([Shot(ORIGIN, Attack.New(AttackType.Normal))],
                   [EnemyBody(ORIGIN, Enemy(25, EnemyType.Normal)), EnemyBody(ORIGIN, Enemy(25, EnemyType.Normal))],
                   0, 0, {}, {});
    var b1 := Meet(b, 0, 0);
    assert b1.shots[0].attack.hp == -17;
    var b2 := Meet(b1, 0, 1);
    assert b2.colliders[1].enemy.hp == 42;
    assert Sweep(b, 0, 0) == Sweep(b2, 0, 2) == Sweep(b2, 1, 0) == b2;
  }

  /**
   * An enemy killed by one attack is still met by a second attack in the same
   * pass: its hp, already at 0, drops to -4 and the kill is counted again.
   */
  lemma DeadEnemyCountedAgain()
    ensures var b := Board([Shot(ORIGIN, Attack.New(AttackType.Normal)), Shot(ORIGIN, Attack.New(AttackType.Normal))],
                           [EnemyBody(ORIGIN, Enemy(4, EnemyType.Normal))],
                           0, 0, {}, {});
      var r := Sweep(b, 0, 0);
      r.kills == 2 && r.infos == 2 && r.colliders[0].EnemyBody? && r.colliders[0].enemy.hp == -4 && r.goneColliders == {0} && r.goneShots == {}
  {
    var b := Board([Shot(ORIGIN, Attack.New(AttackType.Normal)), Shot(ORIGIN, Attack.New(AttackType.Normal))],
                   [EnemyBody(ORIGIN, Enemy(4, EnemyType.Normal))],
                   0, 0, {}, {});
    var b1 := Meet(b, 0, 0);
    var b2 := Meet(b1, 1, 0);
    assert Sweep(b, 0, 0) == Sweep(b1, 0, 1) == Sweep(b1, 1, 0) == Sweep(b2, 1, 1) == Sweep(b2, 2, 0) == b2;
  }

  /**
   * The pass depends on the order of the attacks: against an enemy with 24
   * hp, a Normal and a Power attack make the same kill in either order, but
   * whichever attack comes first is soaked and despawned.
   */
  lemma OrderMatters()
    ensures var n := Shot(ORIGIN, Attack.New(AttackType.Normal));
      var p := Shot(ORIGIN, Attack.New(AttackType.Power));
      var foe := [EnemyBody(ORIGIN, Enemy(24, EnemyType.Normal))];
      var np := Sweep(Board([n, p], foe, 0, 0, {}, {}), 0, 0);
      var pn := Sweep(Board([p, n], foe, 0, 0, {}, {}), 0, 0);
      np.kills == pn.kills == 1 && np.goneShots == {0} && pn.goneShots == {0} &&
      np.shots[1] == p && pn.shots[1] == n
  {
    var n := Shot(ORIGIN, Attack.New(AttackType.Normal));
    var p := Shot(ORIGIN, Attack.New(AttackType.Power));
    var foe := [EnemyBody(ORIGIN, Enemy(24, EnemyType.Normal))];
    var b := Board([n, p], foe, 0, 0, {}, {});
    var b1 := Meet(b, 0, 0);
    var b2 := Meet(b1, 1, 0);
    assert Sweep(b, 0, 0) == Sweep(b1, 0, 1) == Sweep(b1, 1, 0) == Sweep(b2, 1, 1) == Sweep(b2, 2, 0) == b2;
    var c := Board([p, n], foe, 0, 0, {}, {});
    var c1 := Meet(c, 0, 0);
    var c2 := Meet(c1, 1, 0);
    assert Sweep(c, 0, 0) == Sweep(c1, 0, 1) == Sweep(c1, 1, 0) == Sweep(c2, 1, 1) == Sweep(c2, 2, 0) == c2;
  }

  // ---------------------------------------------------------------------------
  // Systems

  /** One pair of the collision system: attack `i` against collider `j`. */
  method MeetPair(w: World, i: int, j: int)
    requires 0 <= i < |w.attacks| && 0 <= j < |w.colliders|
    modifies w`attacks, w`colliders, w`infoUpdates, w`goneAttacks, w`goneColliders, w.player`killCount
    ensures BoardOf(w) == Meet(old(BoardOf(w)), i, j)
    ensures w.player.hp == old(w.player.hp) && w.player.attackType == old(w.player.attackType)
  {
    var shot := w.attacks[i];
    var c := w.colliders[j];
    if Collide(c.at, shot.at) {
      match c {
        case EnemyBody(at, enemy) =>
          var hit := enemy.Damage(shot.attack.hp);
          w.colliders := w.colliders[j := EnemyBody(at, hit)];
          if hit.hp <= 0 {
            w.player.Kill();
            w.infoUpdates := w.infoUpdates + 1;
            w.goneColliders := w.goneColliders + {j};
          } else {
            w.attacks := w.attacks[i := shot.(attack := shot.attack.Damage(hit.hp))];
            w.goneAttacks := w.goneAttacks + {i};
          }
        case EnemyShot(at, foe) =>
          if foe.hp < shot.attack.hp {
            w.attacks := w.attacks[i := shot.(attack := shot.attack.Damage(foe.hp))];
            w.goneColliders := w.goneColliders + {j};
          } else if shot.attack.hp < foe.hp {
            w.colliders := w.colliders[j := EnemyShot(at, foe.Damage(shot.attack.hp))];
            w.goneAttacks := w.goneAttacks + {i};
          } else {
            w.goneColliders := w.goneColliders + {j};
            w.goneAttacks := w.goneAttacks + {i};
          }
      }
    }
  }

  /**
   * The collision system: every player attack against every enemy-collider
   * entity, in order, with despawns only queued.
   */
  method EnemyCollision(w: World)
    modifies w`attacks, w`colliders, w`infoUpdates, w`goneAttacks, w`goneColliders, w.player`killCount
    ensures BoardOf(w) == Sweep(old(BoardOf(w)), 0, 0)
    ensures w.player.hp == old(w.player.hp) && w.player.attackType == old(w.player.attackType)
  {
    ghost var target := Sweep(BoardOf(w), 0, 0);
    var i := 0;
    while i < |w.attacks|
      invariant 0 <= i <= |w.attacks| == |old(w.attacks)|
      invariant |w.colliders| == |old(w.colliders)|
      invariant Sweep(BoardOf(w), i, 0) == target
      invariant w.player.hp == old(w.player.hp) && w.player.attackType == old(w.player.attackType)
    {
      var j := 0;
      while j < |w.colliders|
        invariant 0 <= j <= |w.colliders| == |old(w.colliders)|
        invariant |w.attacks| == |old(w.attacks)|
        invariant Sweep(BoardOf(w), i, j) == target
        invariant w.player.hp == old(w.player.hp) && w.player.attackType == old(w.player.attackType)
      {
        MeetPair(w, i, j);
        j := j + 1;
      }
      i := i + 1;
    }
  }

  // ---------------------------------------------------------------------------
  // Movement

  /** One frame of enemy movement: enemy bodies fall at their type's speed, enemy attacks are not moved here. */
  function Fall(c: Collider, dt: real): Collider
  {
    match c
    case EnemyBody(at, enemy) =>
      EnemyBody(at.(pos := Vec2(at.pos.x, at.pos.y - enemy.enemyType.Speed() * dt)), enemy)
    case EnemyShot(_, _) => c
  }

  /** An enemy body that has reached the bottom of the screen is despawned. */
  predicate FellOut(c: Collider)
  {
    c.EnemyBody? && c.at.pos.y <= -CLAMP_Y
  }

  /** Normal enemies stand still, Drop enemies never rise, and nothing but the height changes. */
  lemma FallMoves(c: Collider, dt: real)
    requires c.EnemyBody? && dt >= 0.0
    ensures Fall(c, dt).EnemyBody? && Fall(c, dt).enemy == c.enemy
    ensures Fall(c, dt).at.pos.x == c.at.pos.x && Fall(c, dt).at.scale == c.at.scale
    ensures Fall(c, dt).at.pos.y <= c.at.pos.y
    ensures c.enemy.enemyType.Normal? ==> Fall(c, dt) == c
  {
  }

  method MoveEnemy(w: World, dt: real)
    modifies w`colliders, w`goneColliders
    ensures |w.colliders| == |old(w.colliders)|
    ensures forall j :: 0 <= j < |w.colliders| ==> w.colliders[j] == Fall(old(w.colliders)[j], dt)
    ensures w.goneColliders == old(w.goneColliders) + (set j | 0 <= j < |w.colliders| && FellOut(w.colliders[j]))
  {
    var j := 0;
    while j < |w.colliders|
      invariant 0 <= j <= |w.colliders| == |old(w.colliders)|
      invariant forall k :: 0 <= k < j ==> w.colliders[k] == Fall(old(w.colliders)[k], dt)
      invariant forall k :: j <= k < |w.colliders| ==> w.colliders[k] == old(w.colliders)[k]
      invariant w.goneColliders == old(w.goneColliders) + (set k | 0 <= k < j && FellOut(w.colliders[k]))
    {
      var c := w.colliders[j];
      if c.EnemyBody? {
        w.colliders := w.colliders[j := Fall(c, dt)];
        if w.colliders[j].at.pos.y <= -CLAMP_Y {
          w.goneColliders := w.goneColliders + {j};
        }
      }
      j := j + 1;
    }
  }

  /** One tick of enemy-attack movement: down by the kind's vertical speed plus half the enemy attack speed, sideways by its horizontal speed. */
  function Drift(c: Collider): Collider
  {
    match c
    case EnemyShot(at, attack) =>
      var k := attack.attack;
      EnemyShot(at.(pos := Vec2(at.pos.x - k.XSpeed(), at.pos.y - k.YSpeed() - ENEMY_ATTACK_SPEED / 2.0)), attack)
    case EnemyBody(_, _) => c
  }

  /** An enemy attack below the bottom edge is despawned. */
  predicate ShotOut(c: Collider)
  {
    c.EnemyShot? && ENEMY_ATTACK_DESPAWN_POINT > c.at.pos.y
  }

  /** Enemy attacks always move down, by 15.4 per tick for the Normal kind enemies fire. */
  lemma DriftMoves(c: Collider)
    requires c.EnemyShot?
    ensures Drift(c).EnemyShot? && Drift(c).attack == c.attack && Drift(c).at.scale == c.at.scale
    ensures Drift(c).at.pos.y < c.at.pos.y
    ensures c.attack.attack == AttackType.Normal ==> Drift(c).at.pos == Vec2(c.at.pos.x, c.at.pos.y - 15.4)
  {
  }

  method MoveEnemyAttack(w: World)
    modifies w`colliders, w`goneColliders
    ensures |w.colliders| == |old(w.colliders)|
    ensures forall j :: 0 <= j < |w.colliders| ==> w.colliders[j] == Drift(old(w.colliders)[j])
    ensures w.goneColliders == old(w.goneColliders) + (set j | 0 <= j < |w.colliders| && ShotOut(w.colliders[j]))
  {
    var j := 0;
    while j < |w.colliders|
      invariant 0 <= j <= |w.colliders| == |old(w.colliders)|
      invariant forall k :: 0 <= k < j ==> w.colliders[k] == Drift(old(w.colliders)[k])
      invariant forall k :: j <= k < |w.colliders| ==> w.colliders[k] == old(w.colliders)[k]
      invariant w.goneColliders == old(w.goneColliders) + (set k | 0 <= k < j && ShotOut(w.colliders[k]))
    {
      var c := w.colliders[j];
      if c.EnemyShot? {
        w.colliders := w.colliders[j := Drift(c)];
        if ENEMY_ATTACK_DESPAWN_POINT > w.colliders[j].at.pos.y {
          w.goneColliders := w.goneColliders + {j};
        }
      }
      j := j + 1;
    }
  }

  // ---------------------------------------------------------------------------
  // Enemy fire and the spawner

  /** Number of enemy bodies among `cs`. */
  function EnemyCount(cs: seq<Collider>): nat
    decreases |cs|
  {
    if cs == [] then 0
    else EnemyCount(cs[..|cs| - 1]) + (if cs[|cs| - 1].EnemyBody? then 1 else 0)
  }

  /** The attacks the enemies in `cs` fire: one Normal attack at each enemy body's position. */
  function Salvo(cs: seq<Collider>): (r: seq<Collider>)
    ensures |r| == EnemyCount(cs)
    ensures forall k :: 0 <= k < |r| ==>
      r[k].EnemyShot? && r[k].attack == Attack(4, AttackType.Normal) && r[k].at.scale == Vec2(20.0, 20.0)
    decreases |cs|
  {
    if cs == [] then []
    else
      var last := cs[|cs| - 1];
      Salvo(cs[..|cs| - 1]) + (if last.EnemyBody? then [EnemyAttackBundle(AttackType.Normal, last.at.pos)] else [])
  }

  /** The enemy-fire system: queues one enemy attack per enemy body. */
  method EnemyAttack(w: World)
    modifies w`newColliders
    ensures w.newColliders == old(w.newColliders) + Salvo(w.colliders)
  {
    var j := 0;
    while j < |w.colliders|
      invariant 0 <= j <= |w.colliders|
      invariant w.newColliders == old(w.newColliders) + Salvo(w.colliders[..j])
    {
      var c := w.colliders[j];
      assert w.colliders[..j + 1][..j] == w.colliders[..j];
      if c.EnemyBody? {
        w.newColliders := w.newColliders + [EnemyAttackBundle(AttackType.Normal, c.at.pos)];
      }
      j := j + 1;
    }
    assert w.colliders[..j] == w.colliders;
  }

  /**
   * The spawner: queues `ENEMY_CREAT_NUMBER` enemies, each of a type and at
   * an integer position chosen freely within that type's spawn region.
   */
  method CreateEnemy(w: World)
    modifies w`newColliders
    ensures |w.newColliders| == |old(w.newColliders)| + ENEMY_CREAT_NUMBER
    ensures w.newColliders[..|old(w.newColliders)|] == old(w.newColliders)
    ensures forall k :: |old(w.newColliders)| <= k < |w.newColliders| ==> IsSpawn(w.newColliders[k])
  {
    var n := 1;
    while n <= ENEMY_CREAT_NUMBER
      invariant 1 <= n <= ENEMY_CREAT_NUMBER + 1
      invariant |w.newColliders| == |old(w.newColliders)| + n - 1
      invariant w.newColliders[..|old(w.newColliders)|] == old(w.newColliders)
      invariant forall k :: |old(w.newColliders)| <= k < |w.newColliders| ==> IsSpawn(w.newColliders[k])
    {
      var t: EnemyType :| true;
      var (xLo, xHi) := t.SpawnX();
      var (yLo, yHi) := t.SpawnY();
      assert xLo <= xLo < xHi && yLo <= yLo < yHi;
      var x: int :| xLo <= x < xHi;
      var y: int :| yLo <= y < yHi;
      w.newColliders := w.newColliders + [EnemyBundle(t, Vec2(x as real, y as real))];
      n := n + 1;
    }
  }
}
