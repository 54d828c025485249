# invader-game combat engine, in Dafny

A model of the combat core of `invader-game`, a Bevy arcade shooter. Enemies spawn at the top of the
window and fire downwards. The player fires upwards with one of several attack kinds.

The modules follow the program's structure:

- **Game**: the attack catalog.
  - `AttackType` and its tables: power, hitbox scale, speeds, and the launch group `list`.
  - The `Attack` record, with durability `hp` and its kind.
  - The game constants.
- **Entity**: the player record that every play mode wraps.
  - Hp, kill count and current attack kind, as a class whose mutators touch one field each.
  - Damage events.
  - Spawned player attacks.
- **Enemy**: enemy types and their tables, enemy records, and the two kinds of enemy collider (an enemy body or an enemy attack).
- **World**: the entity store of a tick.
  - Sequences of player attacks and of enemy colliders.
  - Event queues and the round-end state.
  - Despawns and spawns are deferred to the end of the tick, as Bevy's `Commands` defer them (`World.World.Flush`).
- **EnemySystems**:
  - collision of player attacks with enemy colliders;
  - enemy and enemy-attack movement, with their despawn rules;
  - enemy fire;
  - the spawner.
- **PlayerSystems**:
  - damage events;
  - the player's contact with enemies;
  - firing;
  - attack flight, including the Rebound bounce;
  - clamped movement;
  - the Space-key attack-kind cycle (`ATTACK_LIST` with its process-wide index).
- **Wire**: the Rust text conventions the versus channel relies on.
  - `isize` formatting and parsing.
  - Plain decimal float parsing.
  - `split_whitespace`, with Unicode White_Space.
  - Truncation of a datagram received into a fixed buffer.
- **Versus**: the versus mode.
  - Both hp values and their per-hit decrement. No round-end check happens in this mode.
  - The info messages `"<hp> o"` and `"<hp> m"`, decoded into the opposite field on the receiving side.
  - The mirrored position and attack codec, with its 6-, 9- and 21-byte receive buffers.

Collision resolution is specified by `EnemySystems.Sweep`. It is a fold over the (attack, collider) pairs in query order.

- A collider marked for despawn keeps meeting later attacks in the same tick, and so does an attack marked for despawn.
- So an attack with negative durability *heals* the next enemy it meets (`SoakedAttackHeals`).
- An enemy already at or below zero hp is killed and counted again (`DeadEnemyCountedAgain`).
- The outcome depends on the order in which the query yields attacks (`OrderMatters`). The model fixes index order.

Panics of the source become `Err` results. This applies to `unwrap` on a parse, an index past the word list, and `panic!()` on an unknown tag.

## Model

| member | source | states |
|---|---|---|
| Geometry.CollideSymmetric | src/entity/enemy.rs:203-208 | The AABB overlap test does not depend on argument order, so collider-first and player-first calls agree |
| Geometry.Clamp | src/entity/player.rs:232-233 | The result lies in [lo, hi], equals v inside the range, and equals the nearer bound outside it |
| Game.AttackType.Scale | src/game.rs:155-166 | Hitboxes are square: 30×30 for Rebound, 20×20 for every other kind |
| Game.AttackType.AttackPower | src/game.rs:168-179 | Every power lies in [4, 20], so it is positive |
| Game.AttackType.YSpeed | src/game.rs:181-186 | Vertical speed is 2 for Rebound and 15 for every other kind, so it is always positive |
| Game.AttackType.XSpeed | src/game.rs:188-199 | Horizontal speed lies in [-10, 10]; it is non-zero exactly for Shotgun, Shotgun2, Shotgun4, Shotgun5 and Rebound, and a Rebound moves right exactly when its heading is set |
| Game.AttackType.List | src/game.rs:201-212 | The launch group contains the kind itself and has length 1, 2 or 5. Length 1 holds exactly for non-Shotgun, non-Rebound kinds, whose group is `[k]` |
| Game.ShotgunFan | src/game.rs:203-209 | Shotgun's group is Shotgun..Shotgun5 in order, with five distinct members |
| Game.ReboundFan | src/game.rs:210 | Either Rebound heading gives the group `[Rebound(false), Rebound(true)]` |
| Game.FanIsSymmetric | src/game.rs:181-199 | Over the Shotgun and Rebound groups the horizontal speeds sum to 0, and every member has the leader's vertical speed |
| Game.Attack.New | src/game.rs:141-146 | A fresh attack has the given kind and durability equal to the kind's power, which is positive |
| Game.Attack.Damage | src/game.rs:148-150 | Durability drops by exactly the damage and the kind is unchanged |
| Entity.Player.Default | src/entity/player.rs:67-75 | A default player has hp 10, kill count 0 and the Normal kind |
| Entity.Player.Init | src/game_mode/single_play.rs:95-99 | A mode-specific start: the given hp and kind, kill count 0 |
| Entity.Player.Damage | src/entity.rs:17-19 | hp drops by exactly the damage; kill count and kind are unchanged |
| Entity.Player.Kill | src/entity.rs:20-22 | Kill count rises by exactly 1; hp and kind are unchanged |
| Entity.Player.ChangeAttack | src/entity.rs:26-28 | The kind becomes the given one; hp and kill count are unchanged |
| Entity.DamageEvent.Event | src/entity.rs:51-53 | The event carries the kind, and its power is that kind's power |
| Entity.DamageEvent.Power | src/entity.rs:48-50 | An event's power is positive |
| Entity.PlayerAttackBundle | src/entity/player.rs:110-132 | A spawned player attack keeps its record, sits at the given position and is 20×20 |
| Enemy.EnemyType.Hp | src/entity/enemy.rs:83-88 | 25 for Normal and 30 for Drop, so positive |
| Enemy.EnemyType.Speed | src/entity/enemy.rs:90-95 | Non-negative, and zero exactly for Normal enemies |
| Enemy.EnemyType.Scale | src/entity/enemy.rs:97-102 | Both types are 40 high; the width lies in [30, 50] and is 30 exactly for Drop |
| Enemy.EnemyType.SpawnX | src/entity/enemy.rs:104-114 | The x spawn range is a non-empty half-open interval |
| Enemy.EnemyType.SpawnY | src/entity/enemy.rs:104-114 | The y spawn range is a non-empty half-open interval |
| Enemy.SpawnRegions | src/entity/enemy.rs:104-122 | Spawn ranges: x in [-350, 350) for both types; y in [0, 525) for Normal and [262, 1050) for Drop |
| Enemy.Enemy.Damage | src/entity/enemy.rs:74-76 | Enemy hp drops by exactly the damage and the type is unchanged |
| Enemy.EnemyBundle | src/entity/enemy.rs:131-153 | A new enemy body has its type's hp (positive) and scale, and the type |
| Enemy.EnemyAttackBundle | src/entity/enemy.rs:157-177 | A new enemy attack is a fresh attack of the kind, with positive durability and the kind's scale |
| World.Survivors | src/entity/enemy.rs:220-240 | The result is shorter than the input by exactly the number of despawned indices; every entity not despawned is kept; nothing new is added; with nothing despawned the input is unchanged |
| World.SurvivorsAppend | src/entity/enemy.rs:220-240 | Despawning keeps the order: an appended entity stays at the end exactly when its index is not despawned |
| World.World.constructor | src/entity/player.rs:89-107 | A new world holds the player at the given start position with the 50×50 player size, and no other entities, events, queued spawns or state changes |
| World.World.Flush | src/entity/enemy.rs:220-240 | At end of tick each sequence becomes its survivors (the despawned entities removed, the rest in order) followed by the queued spawns, and the queues are emptied |
| EnemySystems.StrikeKills | src/entity/enemy.rs:212-221 | Kill case: the enemy loses the attack's current durability, the attack is untouched, and a kill is recorded |
| EnemySystems.StrikeSoaks | src/entity/enemy.rs:222-224 | Soak case: the enemy survives with positive hp, and the attack loses the enemy's remaining hp without a kill |
| EnemySystems.DuelSymmetric | src/entity/enemy.rs:226-242 | Swapping player and enemy attack swaps the outcome |
| EnemySystems.DuelRule | src/entity/enemy.rs:226-242 | The side with the strictly smaller durability is despawned and the other loses exactly that much, a tie despawns both, and a surviving side of a duel between two positive durabilities stays positive |
| EnemySystems.Meet | src/entity/enemy.rs:209-243 | One pair changes only that attack's and that collider's hp, the kill count (by at most 1, and info updates equally), and adds at most that pair to the despawn sets. Without overlap nothing changes |
| EnemySystems.MeetEnemyBody | src/entity/enemy.rs:212-224 | A meeting with an enemy body follows the strike rule exactly: new hp values, kill count and despawns |
| EnemySystems.MeetEnemyShot | src/entity/enemy.rs:226-242 | A meeting with an enemy attack follows the duel rule exactly |
| EnemySystems.Sweep | src/entity/enemy.rs:198-246 | The whole pass keeps both sequences' lengths, never lowers the kill count, emits one info per kill, only grows the despawn sets, and leaves already-processed attacks alone |
| EnemySystems.SweepApart | src/entity/enemy.rs:198-209 | When nothing overlaps, the pass changes nothing |
| EnemySystems.SoakedAttackHeals | src/entity/enemy.rs:213-224 | An attack soaked to negative durability, still alive this tick, raises the next enemy's hp from 25 to 42 |
| EnemySystems.DeadEnemyCountedAgain | src/entity/enemy.rs:213-220 | An enemy killed earlier in the tick is killed and counted again by the next overlapping attack |
| EnemySystems.OrderMatters | src/entity/enemy.rs:198-224 | When a Normal and a Power attack meet one enemy with hp 24, both orders kill it once, but whichever attack comes first is soaked and despawned while the other survives intact |
| EnemySystems.MeetPair | src/entity/enemy.rs:199-243 | The world after one pair is exactly `Meet` of the world before; the player's hp and kind are untouched |
| EnemySystems.EnemyCollision | src/entity/enemy.rs:180-246 | The world after the nested loops is exactly `Sweep` of the world before |
| EnemySystems.FallMoves | src/entity/enemy.rs:255-258 | Enemies only move down: Normal ones stay put, and nothing but the height changes |
| EnemySystems.MoveEnemy | src/entity/enemy.rs:250-263 | Every enemy falls by its type's speed, and exactly those at or below the bottom edge are marked for despawn |
| EnemySystems.DriftMoves | src/entity/enemy.rs:287-293 | Enemy attacks always move down, by 15.4 per tick for the Normal kind, and keep their record |
| EnemySystems.MoveEnemyAttack | src/entity/enemy.rs:283-298 | Every enemy attack drifts, and exactly those below the bottom edge are marked for despawn |
| EnemySystems.Salvo | src/entity/enemy.rs:272-278 | One enemy attack per enemy body, each a Normal attack with durability 4 and a 20×20 hitbox |
| EnemySystems.EnemyAttack | src/entity/enemy.rs:267-279 | The spawn queue grows by exactly the salvo of the current enemies |
| EnemySystems.CreateEnemy | src/entity/enemy.rs:302-306 | Exactly 10 enemies are queued; each is a fresh enemy of some type at integral coordinates in that type's spawn range |
| PlayerSystems.TotalPower | src/entity/player.rs:145-150 | A batch of n events takes at least 4n hp |
| PlayerSystems.LethalIffSpent | src/entity/player.rs:145-158 | The round ends during a batch exactly when the batch is non-empty and the total power reaches the starting hp |
| PlayerSystems.PlayerDamageEvent | src/entity/player.rs:135-159 | hp drops by the total power of the events; one info update per event; Disabled/GameOver are set exactly when some prefix drives hp to 0 or below; the queue is consumed; kill count and kind are unchanged |
| PlayerSystems.OneEventPerContact | src/entity/player.rs:194-198 | Exactly one damage event per enemy attack the player touches |
| PlayerSystems.ContactIgnoresDurability | src/entity/player.rs:194-198 | The damage from enemy attacks is their kind's full power, whatever durability they have left |
| PlayerSystems.PlayerCollision | src/entity/player.rs:162-201 | Touched enemy attacks are marked for despawn and send one event of their kind each. Touching an enemy body sets Disabled/GameOver, with no hp change and no despawn of the enemy |
| PlayerSystems.VolleyShape | src/entity/player.rs:249-255 | A volley has one attack per member of the launch group, each at full power at the player's position |
| PlayerSystems.ShotgunVolley | src/entity/player.rs:249-255 | Shotgun fires five attacks, Shotgun..Shotgun5; Rebound fires both headings at durability 10 |
| PlayerSystems.PlayerAttack | src/entity/player.rs:237-258 | The spawn queue grows by exactly the volley at the player's position, plus one sound |
| PlayerSystems.FlyRecord | src/entity/player.rs:267-279 | Every attack climbs. Non-Rebound attacks keep their record. A Rebound attack past a side edge becomes a fresh attack heading the other way, durability 10 |
| PlayerSystems.ReboundStaysInBand | src/entity/player.rs:270-279 | A Rebound attack stays within 10 of the window's side edges |
| PlayerSystems.MovePlayerAttack | src/entity/player.rs:261-285 | Every attack flies one tick, and exactly those above the top edge are marked for despawn |
| PlayerSystems.Direction | src/entity/player.rs:211-225 | The axis direction is -1, 0 or 1, and is 0 exactly when both or neither key is held |
| PlayerSystems.Step | src/entity/player.rs:227-233 | The new position always lies inside the window clamp |
| PlayerSystems.StepAtRest | src/entity/player.rs:227-233 | With no key held, a player inside the window stays put |
| PlayerSystems.MovePlayer | src/entity/player.rs:204-234 | The player moves by one step at speed 450 and stays inside the clamp |
| PlayerSystems.FireTimestep | src/entity/player.rs:307-311 | The timestep chosen on a change is positive |
| PlayerSystems.IndexAfter | src/entity/player.rs:313-316 | The index stays in [0, 4) |
| PlayerSystems.IndexAfterIsModular | src/entity/player.rs:313-316 | After n presses the index is (i + n) mod 4 |
| PlayerSystems.CycleCoversAll | src/entity/player.rs:287-316 | The cycle has period 4, and any four consecutive presses select all four kinds |
| PlayerSystems.FirstPresses | src/entity/player.rs:287-295 | From the initial index 1, the presses select Shotgun, Normal, Power, Rebound(false), and back to Shotgun |
| PlayerSystems.AttackSelector.constructor | src/entity/player.rs:295 | The index starts at 1 |
| PlayerSystems.AttackSelector.AttackChange | src/entity/player.rs:297-319 | On Space: selects the kind at the index, sets its timestep, and advances the index mod 4 within [0, 4). Without Space nothing changes; hp and kill count are never touched |
| PlayerSystems.SharedPress | src/entity/player.rs:297-319 | One press in two-player mode: the first player takes `ATTACK_LIST[i]`, the second `ATTACK_LIST[i+1]`, and the shared index advances twice |
| PlayerSystems.SharedIndexSplitsKinds | src/entity/player.rs:295-316 | With the shared index, one player only ever gets Shotgun or Power and the other only Normal or Rebound(false) |
| PlayerSystems.SeparatePress | src/entity/player.rs:297-319 | With one index per player, each press advances only that player's own cycle |
| Wire.NatToString | src/game_mode/vs_player.rs:293 | The digits are non-empty decimal digits with no leading zero |
| Wire.IntToString | src/game_mode/vs_player.rs:293 | `isize::to_string`: non-empty, starting with '-' exactly for negative values |
| Wire.DigitsValue | src/game_mode/vs_player.rs:476 | The value of k digits is below 10^k |
| Wire.DigitsOfNat | src/game_mode/vs_player.rs:476 | Reading back the digits of n gives n |
| Wire.NatLength | src/game_mode/vs_player.rs:468 | n has at most k digits exactly when n < 10^k |
| Wire.IntLength4 | src/game_mode/vs_player.rs:468 | An integer's text fits in 4 bytes exactly when it lies in [-999, 9999] |
| Wire.Magnitude | src/game_mode/vs_player.rs:476 | Removes at most one leading sign, and only a sign |
| Wire.ParseIsize | src/game_mode/vs_player.rs:476 | Succeeds exactly when the text is an optional sign followed by at least one digit and the signed value is in isize range, and then returns that signed value |
| Wire.ParseIsizeOfInt | src/game_mode/vs_player.rs:476 | Parsing `to_string` of an isize gives it back |
| Wire.ParseDecimal | src/game_mode/vs_player.rs:454-455 | Accepts only non-empty text |
| Wire.FractionValue | src/game_mode/vs_player.rs:454-455 | The digits after the point contribute a value in [0, 1) |
| Wire.ParseDecimalOfInt | src/game_mode/vs_player.rs:454-455 | Integer text parses as the same number |
| Wire.Run | src/game_mode/vs_player.rs:452 | The leading run holds no whitespace and ends at whitespace or at the end of the text |
| Wire.SplitWhitespace | src/game_mode/vs_player.rs:452 | Every word is non-empty and holds no whitespace |
| Wire.RunOfWord | src/game_mode/vs_player.rs:452 | A word followed by whitespace or the end of the text is exactly one run |
| Wire.SplitWord | src/game_mode/vs_player.rs:475 | A word followed by whitespace or the end of the text is split off whole |
| Wire.SplitPair | src/game_mode/vs_player.rs:452 | "a b" splits into exactly [a, b] |
| Wire.DigitsHaveNoWhitespace | src/game_mode/vs_player.rs:293 | Integer text holds no whitespace |
| Wire.Recv | src/game_mode/vs_player.rs:468-473 | The received text is the first `min(len, capacity)` bytes of the datagram |
| Versus.Player.Default | src/game_mode/vs_player.rs:100-104 | A versus player starts at hp 50 |
| Versus.Player.Damage | src/game_mode/vs_player.rs:106-110 | hp drops by exactly the power |
| Versus.DamageSendMy | src/game_mode/vs_player.rs:167-172 | The message splits into exactly two words: the hp's integer text and the tag o |
| Versus.DamageSendOpponent | src/game_mode/vs_player.rs:174-179 | The message splits into exactly two words: the hp's integer text and the tag m |
| Versus.DecodeInfo | src/game_mode/vs_player.rs:473-481 | MissingToken exactly when there are no words, BadNumber exactly when the first word does not parse, and BadTag exactly when it parses but the last word is neither m nor o; on success the first word parses to the hp, and the last word is "m" for SetMy and "o" for SetOpponent |
| Versus.DecodeTagged | src/game_mode/vs_player.rs:468-481 | A 4-byte hp with tag m or o passes the buffer intact and decodes to that tag's field |
| Versus.InfoRoundTrip | src/game_mode/vs_player.rs:167-179 | For h in [-999, 9999]: "h o" decodes to SetOpponent(h), and "h m" to SetMy(h) |
| Versus.InfoTruncated | src/game_mode/vs_player.rs:468-481 | Outside [-999, 9999] the tag is cut off by the 6-byte buffer and decoding faults |
| Versus.InfoDeliveredIff | src/game_mode/vs_player.rs:468-481 | Both info messages are delivered intact exactly when h is in [-999, 9999] |
| Versus.InfoAtMinusThousand | src/game_mode/vs_player.rs:468-481 | At hp -1000 the receiver reads "-1000 " and faults on the tag |
| Versus.ToPos | src/game_mode/vs_player.rs:449-458 | Succeeds exactly when there are two words and both parse, and then the first two words parse to the negated coordinates; no words, or one parsable word, is a missing token; an unparsable first word, or an unparsable second word, is a bad number |
| Versus.ToPosOfInts | src/game_mode/vs_player.rs:449-458 | "a b" decodes to (-a, -b) |
| Versus.MirrorRoundTrip | src/game_mode/vs_player.rs:449-458 | A position sent already negated, as the text of (-x, -y), decodes to the original (x, y) |
| Versus.AttackMessage | src/game_mode/vs_player.rs:377-381 | The message splits into exactly two words: the integer texts of the floored x and y |
| Versus.AttackMessageFits | src/game_mode/vs_player.rs:377-395 | Within the clamp, the attack message fits the 9-byte buffer and is received whole |
| Versus.AttackMessageTight | src/game_mode/vs_player.rs:377-395 | The corner (-350, -525) needs all 9 bytes |
| Versus.Fire | src/game_mode/vs_player.rs:376-390 | The local attack is a Power attack with durability 20, 20×20, at the floored position |
| Versus.OpponentAttack | src/game_mode/vs_player.rs:394-404 | No datagram spawns nothing. A datagram always spawns an attack unless decoding its first 9 bytes faults, in which case the result is that fault; the attack is a Normal attack (durability 4, 20×20) at the decoded position |
| Versus.LaunchRoundTrip | src/game_mode/vs_player.rs:376-404 | A launch from inside the window arrives intact, and the peer spawns its attack at the mirror image of the local one |
| Versus.MoveOpponent | src/game_mode/vs_player.rs:435-446 | No datagram leaves the opponent in place; a datagram holding the integer text of a position inside the window moves the opponent to that position's mirror image |
| Versus.PositionRoundTrip | src/game_mode/vs_player.rs:435-458 | The integer text of any position inside the window passes the 21-byte buffer and decodes to its mirror image |
| Versus.Hits | src/game_mode/vs_player.rs:283-290 | The number of hits is at most the number of attacks |
| Versus.HitsCountsHitSet | src/game_mode/vs_player.rs:283-298 | Exactly one hit per overlapping attack |
| Versus.Game.constructor | src/game_mode/vs_player.rs:75-79 | Both hp values start at 50 |
| Versus.Game.Info | src/game_mode/vs_player.rs:112-119 | The info update is exactly (my hp, opponent hp) |
| Versus.Game.HpRecv | src/game_mode/vs_player.rs:467-484 | No datagram changes nothing. A tagged hp overwrites only the tagged field and yields an info update with the new pair. A fault changes nothing |
| Versus.Game.PlayerCollision | src/game_mode/vs_player.rs:270-300 | My hp drops by 1 per overlapping attack, and exactly those attacks are despawned. The t-th hit sends "(hp-t-1) o" and an info update with that hp. There is no round-end check |
| Versus.Game.OpponentCollision | src/game_mode/vs_player.rs:303-333 | The mirror image, on the opponent's hp with tag "m" |

## Left out

- I/O is not modelled: socket setup, connect, send and its error printing, read timeouts, the connection handshake, matchmaking, and the JSON user record. A failed `recv` is an absent datagram (`None`).
- A datagram longer than the buffer is modelled as truncated to the buffer (`Wire.Recv`), as on Linux; platforms where such a `recv` fails are not modelled.
- Payloads are ASCII, one character per byte. `str::from_utf8(...).unwrap()` on invalid UTF-8 is not modelled.
- Wire.ParseDecimal: accepts only plain decimal text (sign, digits, one point). The exponent forms and `inf`/`nan`, which Rust also accepts, give `None`. Values are exact reals, not rounded to f32.
- Versus.PositionRoundTrip: covers integral coordinates only. The f32 `Display` formatting that `player_pos_send` applies to fractional positions is not modelled, and neither is the send timer.
- Versus.MoveOpponent: states the decoded position only for integral coordinates, for the same reason as Versus.PositionRoundTrip.
- Positions, speeds and sizes are reals. f32 rounding is not modelled.
- Movement scaled by the frame time uses a `dt` parameter: player movement, enemy fall, and versus attack flight at 400 per second. Versus attack flight (`move_player_attack`, `move_opponent_attack` in vs_player.rs) and `move_my_player` (the same clamped step at speed 300) have no members of their own.
- hp and kill counts are unbounded integers. isize and usize overflow is not modelled.
- Attack and enemy components are values in the world's sequences. An update replaces the sequence element, which has the same effect as Bevy's in-place component mutation because no two entities share a component.
- Bevy queries are modelled as sequences in index order. Which order Bevy actually yields is not modelled (`OrderMatters` shows it can matter).
- The model has one player entity. In two-player mode both players' attacks meet the same enemies; that wiring is not modelled, and `single_mut` panicking on zero or several players is not modelled.
- Scheduling is not modelled. `on_timer` intervals, system order within a tick, and which systems run in which state are left to the caller: each system is a separate method over `World`.
- The random enemy type and spawn coordinates are a nondeterministic choice within the integer spawn ranges.
- Despawning all entities on leaving a play state (`entity_despawn`) is not modelled. Neither are the hp text board (`hp_update`), sprites, textures, sound playback, menus and the game-over screen. Sounds are counted only.
- PlayerSystems.AttackSelector: the timestep is recorded as the value set on the fixed-time clock. Its effect on scheduling is not modelled.

## Findings

| source | as written | input that shows it | evidently intended | confidence | as-written member | corrected member |
|---|---|---|---|---|---|---|
| src/entity/player.rs:295-316 | In two-player mode both players' `attack_change` systems read the same Space press and advance the one process-wide `NEXT_ATTACK`, so each press moves the index by two | Two-player mode, Space pressed repeatedly from the start: one player alternates Shotgun/Power and the other Normal/Rebound(false) | Each player's presses cycle through all four kinds | medium, not executed | PlayerSystems.SharedIndexSplitsKinds | PlayerSystems.CycleCoversAll |
