/**
 * The entity world one play mode's systems run against: the single player
 * with its transform, the player attacks, the enemy-collider entities, the
 * damage-event queue, counters for the notification events, the pending
 * state transitions, and the deferred commands. Spawn and despawn commands
 * issued by a system are only queued; they take effect when `Flush` applies
 * them at the end of the tick, so within a tick an entity scheduled for
 * despawn is still seen by every later query.
 */
module World {
  import opened Wrappers
  import opened Geometry
  import opened Game
  import opened Entity
  import opened Enemy

  /** The indices below `n` that are in `gone`. */
  function GoneBelow(n: nat, gone: set<int>): set<int>
  {
    set k | 0 <= k < n && k in gone
  }

  /** The elements of `s` whose indices are not in `gone`, in their original order. */
  function Survivors<T(==)>(s: seq<T>, gone: set<int>): (r: seq<T>)
    ensures |r| == |s| - |GoneBelow(|s|, gone)|
    ensures forall k :: 0 <= k < |s| && k !in gone ==> s[k] in r
    ensures forall x :: x in r ==> x in s
    ensures (forall k :: 0 <= k < |s| ==> k !in gone) ==> r == s
    decreases |s|
  {
    if s == [] then
      assert GoneBelow(0, gone) == {};
      []
    else
      var n := |s| - 1;
      var init := Survivors(s[..n], gone);
      assert forall k :: 0 <= k < n ==> s[..n][k] == s[k];
      assert GoneBelow(n + 1, gone) == GoneBelow(n, gone) + (if n in gone then {n} else {});
      init + (if n in gone then [] else [s[n]])
  }

  /** Despawning keeps the order: an appended entity survives at the end exactly when its index is not despawned. */
  lemma SurvivorsAppend<T>(s: seq<T>, x: T, gone: set<int>)
    ensures Survivors(s + [x], gone) == Survivors(s, gone) + (if |s| in gone then [] else [x])
  {
    assert (s + [x])[..|s|] == s;
  }

  class World {
    const player: Player
    var playerAt: Transform
    var attacks: seq<Shot>
    var colliders: seq<Collider>
    /** Damage events sent and not yet read. */
    var damageEvents: seq<DamageEvent>
    /** Number of "info changed" notifications sent (hp/kill board refresh). */
    var infoUpdates: nat
    /** Number of "attack fired" sound notifications sent. */
    var sounds: nat
    /** Pending `NextState` values. */
    var nextMode: Option<GameMode>
    var nextState: Option<MainState>
    /** Deferred commands: indices to despawn, entities to spawn. */
    var goneAttacks: set<int>
    var goneColliders: set<int>
    var newAttacks: seq<Shot>
    var newColliders: seq<Collider>

    /** A mode's world at setup: its player at `start`, nothing else on the field. */
    constructor (p: Player, start: Vec2)
      ensures player == p && playerAt == Transform(start, PLAYER_SIZE)
      ensures attacks == [] && colliders == [] && damageEvents == []
      ensures infoUpdates == 0 && sounds == 0 && nextMode == None && nextState == None
      ensures goneAttacks == {} && goneColliders == {} && newAttacks == [] && newColliders == []
    {
      player := p;
      playerAt := Transform(start, PLAYER_SIZE);
      attacks, colliders, damageEvents := [], [], [];
      infoUpdates, sounds := 0, 0;
      nextMode, nextState := None, None;
      goneAttacks, goneColliders := {}, {};
      newAttacks, newColliders := [], [];
    }

    /** Applies the queued commands at the end of a tick: despawns first, then spawns. */
    method Flush()
      modifies this`attacks, this`colliders, this`goneAttacks, this`goneColliders, this`newAttacks, this`newColliders
      ensures attacks == Survivors(old(attacks), old(goneAttacks)) + old(newAttacks)
      ensures colliders == Survivors(old(colliders), old(goneColliders)) + old(newColliders)
      ensures goneAttacks == {} && goneColliders == {} && newAttacks == [] && newColliders == []
    {
      attacks := Survivors(attacks, goneAttacks) + newAttacks;
      colliders := Survivors(colliders, goneColliders) + newColliders;
      goneAttacks, goneColliders := {}, {};
      newAttacks, newColliders := [], [];
    }
  }
}
