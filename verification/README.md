# Combat and lifecycle systems of a 2D survivors-like game, in Dafny

This project models the discrete bookkeeping of five Unity ECS systems of a
top-down survival game and proves properties of that model:

- **EnemyAttackSystem** (`enemy_attack.dfy`). Each frame it first runs a
  cooldown-expiry pass: an enemy whose expiration stamp is no longer in the
  future has its cooldown flag disabled. It then runs EnemyAttackJob over
  the frame's collision events. The job picks out the player and the enemy
  in either order. It ignores an enemy whose cooldown flag is enabled.
  Otherwise it stamps `elapsed + CoolDownTime`, enables the flag and
  appends the enemy's HitPoints to the player's DamageThisFrame buffer.
- **PlasmaBlastAttackSystem** (`plasma_blast.dfy`). PlasmaBlastAttackJob
  appends the blast's AttackDamage to the enemy's buffer and enables the
  blast's DestroyEntityFlag. It is modelled as written. Its classification
  only acts when side B is the blast and side A the enemy (see Findings).
- **DestroyEntitySystem** (`destroy_entity.dfy`). For every entity whose
  DestroyEntityFlag is enabled:
  - it requests the game-over screen if the entity is the player;
  - it records a gem instantiate and its transform on the begin-of-frame
    command buffer if the entity carries a GemPrefab;
  - it records the entity's destruction on the end-of-frame buffer.
- **EnemySpawnSystem** (`enemy_spawner.dfy`). A per-spawner countdown that
  resets to SpawnInterval. Each firing draws an angle from the spawner's own
  generator and instantiates an enemy at SpawnDistance from the player.
- **PlayerAttackSystem** (`player_attack.dfy`). A cooldown gate, then an
  overlap query around the player. A running minimum with strict `<` picks
  the first nearest hit by squared xy distance. The system then spawns one
  attack facing that hit and re-stamps the cooldown.

`ecs.dfy` holds the shared pieces:
- the entity store, as one `World` class with one field per component;
- the component records;
- the deferred `CommandBuffer`, as a class whose methods append commands;
- the small sequence and map helpers the loop proofs use.

Each system is an imperative method over the store with a field-granular
`modifies` frame, and it mirrors the source's loop and branches. It is
proved against a pure function of the old state: `Expire`, `Step`, `Job`,
`NextStates`, `SpawnCommands`, `NextStamps` and so on. The properties are
proved as lemmas about those functions.

Inputs the systems get from the engine are method parameters:
- elapsed time and delta time;
- the frame's collision and trigger events, as sequences in the order the
  job visits them;
- the overlap query, as a function from the detection box and filter to hit
  positions in the order the physics world reports them;
- the player position;
- the spawner's random draw;
- sin and cos.

Query iteration order is the store's `entities` sequence.

## Model

| member | source | states |
|---|---|---|
| EnemyAttack.BakedCooldown | Assets/a_Scripts/EnemyAuthoring.cs:40-41 | A baked enemy's cooldown stamp starts with its flag disabled |
| EnemyAttack.Expire | Assets/a_Scripts/EnemyAuthoring.cs:94-100 | A stamp that is <= elapsed ends the pass with its flag disabled and its value kept; a stamp > elapsed is unchanged; no stamp appears or disappears |
| EnemyAttack.ExpireCooldowns | Assets/a_Scripts/EnemyAuthoring.cs:94-100 | The foreach over the stamps leaves exactly `Expire(old stamps, elapsed)`, keeping the store's invariant |
| EnemyAttack.Classify | Assets/a_Scripts/EnemyAuthoring.cs:130-143 | The pair is (PlayerTag entity, EnemyAttackData entity) taken from either side, player-A/enemy-B first when both orderings match; none exactly when neither ordering matches |
| EnemyAttack.ClassifySymmetric | Assets/a_Scripts/EnemyAuthoring.cs:130-139 | When no entity of the event carries both roles (PlayerTag and EnemyAttackData), player-A/enemy-B and enemy-A/player-B yield the same (player, enemy) pair |
| EnemyAttack.Landing | Assets/a_Scripts/EnemyAuthoring.cs:145-148 | An attack lands iff the event classifies and the enemy's cooldown flag is disabled |
| EnemyAttack.Step | Assets/a_Scripts/EnemyAuthoring.cs:126-155 | An unclassified event or a cooling-down enemy leaves the store unchanged; a landing hit sets the stamp to elapsed + CoolDownTime, enables the flag, appends HitPoints to the player's buffer, and touches no other stamp, flag or buffer |
| EnemyAttack.Execute | Assets/a_Scripts/EnemyAuthoring.cs:126-155 | The handler's effect on the store is exactly `Step` |
| EnemyAttack.LandHit | Assets/a_Scripts/EnemyAuthoring.cs:150-154 | A landing hit's writes: the enemy's stamp becomes elapsed + CoolDownTime with the flag enabled, and the player's buffer gains HitPoints; nothing else changes |
| EnemyAttack.Job | Assets/a_Scripts/EnemyAuthoring.cs:102-112 | Running the job over a frame's events never adds or removes players, enemies, stamps or buffers |
| EnemyAttack.HitsAreFlagged | Assets/a_Scripts/EnemyAuthoring.cs:145-152 | Every landed hit was made by an enemy whose flag was clear when the frame's events began and is enabled after them |
| EnemyAttack.PriorFlagsClear | Assets/a_Scripts/EnemyAuthoring.cs:145-152 | The job never disables a flag: a flag clear after some events was clear before them |
| EnemyAttack.OneHitPerEnemy | Assets/a_Scripts/EnemyAuthoring.cs:145-152 | Over any sequence of events in one frame no enemy lands more than one hit |
| EnemyAttack.JobDamage | Assets/a_Scripts/EnemyAuthoring.cs:150-154 | Each player's buffer grows by exactly the HitPoints of the hits on that player, in event order |
| EnemyAttack.ExpiredEnemyCanHit | Assets/a_Scripts/EnemyAuthoring.cs:94-148 | A stamp that expired by `elapsed` no longer gates a classified contact in the same frame |
| EnemyAttack.BakedEnemyHits | Assets/a_Scripts/EnemyAuthoring.cs:40-41 | A freshly baked enemy's first classified contact lands |
| EnemyAttack.OnUpdate | Assets/a_Scripts/EnemyAuthoring.cs:91-113 | The system update is the expiry pass followed by the job over the events, in that order |
| PlasmaBlast.Classify | Assets/a_Scripts/PlasmaBlastAuthoring.cs:88-101 | As written, the event acts iff B carries PlasmaBlastData and A carries EnemyTag, and then the pair is (B, A) |
| PlasmaBlast.ClassifyExclusive | Assets/a_Scripts/PlasmaBlastAuthoring.cs:88-101 | The if / else if classification: a (blast, enemy) pair from either side; none iff neither ordering matches |
| PlasmaBlast.Hit | Assets/a_Scripts/PlasmaBlastAuthoring.cs:103-107 | A hit appends the blast's AttackDamage to the enemy's buffer, enables the blast's destroy flag and touches nothing else |
| PlasmaBlast.Step | Assets/a_Scripts/PlasmaBlastAuthoring.cs:83-109 | An event that does not classify leaves the store unchanged; otherwise the hit is recorded for blast B and enemy A |
| PlasmaBlast.Execute | Assets/a_Scripts/PlasmaBlastAuthoring.cs:83-109 | The handler, with both `if`s and the `else return` as written, has exactly the effect `Step` |
| PlasmaBlast.StepExclusive | Assets/a_Scripts/PlasmaBlastAuthoring.cs:83-109 | With exclusive classification an event with no match leaves the store unchanged and a matching one records the hit |
| PlasmaBlast.ExecuteExclusive | Assets/a_Scripts/PlasmaBlastAuthoring.cs:83-109 | The handler with if / else if has exactly the effect `StepExclusive` |
| PlasmaBlast.OrderingMatters | Assets/a_Scripts/PlasmaBlastAuthoring.cs:88-101 | When no entity of the event carries both roles (PlasmaBlastData and EnemyTag), the event with the blast on side A and the enemy on side B has no effect, while the swapped event records the hit |
| PlasmaBlast.BlastOnSideADropped | Assets/a_Scripts/PlasmaBlastAuthoring.cs:88-101 | A concrete event naming a blast and an enemy that the as-written job drops and the corrected job hits |
| PlasmaBlast.ExclusiveSymmetric | Assets/a_Scripts/PlasmaBlastAuthoring.cs:88-101 | With exclusive classification, and when the two entities do not both carry both roles, both orderings of an event have the same effect |
| PlasmaBlast.ExclusiveExtendsAsWritten | Assets/a_Scripts/PlasmaBlastAuthoring.cs:93-101 | Where the as-written job hits and the reverse ordering (blast on A, enemy on B) does not also match, the corrected one has the same effect |
| PlasmaBlast.RepeatedHitsAccumulate | Assets/a_Scripts/PlasmaBlastAuthoring.cs:103-107 | No gating: the same event twice appends the damage twice, and enabling the destroy flag again changes nothing |
| PlasmaBlast.Job | Assets/a_Scripts/PlasmaBlastAuthoring.cs:60-73 | The job over a frame's events never adds or removes blasts, enemies, buffers or flags |
| PlasmaBlast.Hits | Assets/a_Scripts/PlasmaBlastAuthoring.cs:93-105 | Every logged hit pairs a blast with an enemy |
| PlasmaBlast.JobDamage | Assets/a_Scripts/PlasmaBlastAuthoring.cs:103-105 | Each enemy's buffer grows by exactly the damage of the blasts that hit it, in event order |
| PlasmaBlast.JobDestroyFlags | Assets/a_Scripts/PlasmaBlastAuthoring.cs:107 | A blast's flag is enabled after the job iff it was enabled before or the blast hit something: it never goes back |
| PlasmaBlast.BakedDestroyFlag | Assets/a_Scripts/PlasmaBlastAuthoring.cs:32-33 | A blast is baked with its DestroyEntityFlag disabled |
| PlasmaBlast.BakedBlastDestroyedIffHit | Assets/a_Scripts/PlasmaBlastAuthoring.cs:32-33 | A blast still carrying its baked (disabled) flag is marked for destruction iff it hit an enemy |
| PlasmaBlast.OnUpdate | Assets/a_Scripts/PlasmaBlastAuthoring.cs:60-73 | The system update is the job folded over the frame's trigger events |
| DestroyEntity.GameOverOncePerPlayer | Assets/a_Scripts/DestroyEntitySystem.cs:28-33 | In one frame game over is requested exactly once for each flagged player and never for any other entity |
| DestroyEntity.GemCarriers | Assets/a_Scripts/DestroyEntitySystem.cs:36 | The gem carriers are exactly the visited entities with an enabled flag and a GemPrefab |
| DestroyEntity.GemCommands | Assets/a_Scripts/DestroyEntitySystem.cs:36-43 | The begin buffer receives no destroy command |
| DestroyEntity.DestroyCommands | Assets/a_Scripts/DestroyEntitySystem.cs:28-44 | The end buffer receives only destroy commands, each for a visited entity whose flag is enabled |
| DestroyEntity.GameOvers | Assets/a_Scripts/DestroyEntitySystem.cs:30-33 | Game over is requested for exactly the flagged entities that carry PlayerTag |
| DestroyEntity.OnUpdate | Assets/a_Scripts/DestroyEntitySystem.cs:21-46 | The loop appends `GemCommands` to the begin buffer and `DestroyCommands` to the end buffer, reports `GameOvers`, and leaves the store unchanged |
| DestroyEntity.DestroyedExactlyOnce | Assets/a_Scripts/DestroyEntitySystem.cs:28-44 | A flagged entity gets exactly one destroy command; any other entity gets none |
| DestroyEntity.GemSpawnsAtCarriers | Assets/a_Scripts/DestroyEntitySystem.cs:36-43 | Per gem carrier in query order: an instantiate of its gem, then the transform of that placeholder at the carrier's position |
| DestroyEntity.BuffersSeparated | Assets/a_Scripts/DestroyEntitySystem.cs:39-44 | No destroy goes to the begin buffer, and no instantiate or transform goes to the end buffer |
| EnemySpawner.BakedState | Assets/a_Scripts/EnemySpawnerAuthoring.cs:41-45 | A spawner is baked with timer zero and the generator created from its seed |
| EnemySpawner.SpawnPoint | Assets/a_Scripts/EnemySpawnerAuthoring.cs:76-83 | The spawn point is at the player's height, offset from the player by SpawnDistance·(sin a, cos a) in the xy plane |
| EnemySpawner.VisitSpawners | Assets/a_Scripts/EnemySpawnerAuthoring.cs:68-86 | The foreach over the spawners leaves every visited entity's state as `NextStates` gives it and appends `SpawnCommands` for the whole query |
| EnemySpawner.VisitSpawner | Assets/a_Scripts/EnemySpawnerAuthoring.cs:68-86 | One iteration extends both the updated prefix of the states and the appended commands by exactly the visited entity's share |
| EnemySpawner.TickSpawner | Assets/a_Scripts/EnemySpawnerAuthoring.cs:70-75 | The timer drops by deltaTime; while it stays positive there is no draw and the generator is unchanged; otherwise it resets to exactly SpawnInterval and the generator advances by one draw |
| EnemySpawner.BakedSpawnerFiresFirst | Assets/a_Scripts/EnemySpawnerAuthoring.cs:41-71 | A spawner baked with timer 0 fires on its first update when deltaTime >= 0 |
| EnemySpawner.NextStates | Assets/a_Scripts/EnemySpawnerAuthoring.cs:68-73 | No EnemySpawnState appears or disappears; an entity without EnemySpawnerData keeps its state; a spawner gets `TickSpawner`'s state |
| EnemySpawner.SpawnersIndependent | Assets/a_Scripts/EnemySpawnerAuthoring.cs:68-73 | A spawner's new state depends only on its own state and its own EnemySpawnerData |
| EnemySpawner.UpdateSpawner | Assets/a_Scripts/EnemySpawnerAuthoring.cs:70-85 | The loop body for one spawner updates its state as `TickSpawner` says and appends its `FiringCommands` |
| EnemySpawner.OnUpdate | Assets/a_Scripts/EnemySpawnerAuthoring.cs:59-86 | The system leaves the spawner states `NextStates(old)` and appends `SpawnCommands` to the buffer |
| EnemySpawner.FiringShape | Assets/a_Scripts/EnemySpawnerAuthoring.cs:70-85 | A spawner records an instantiate of EnemyPrefab and the transform of that placeholder at the spawn point iff its timer runs out, and nothing otherwise |
| EnemySpawner.FiringSpawners | Assets/a_Scripts/EnemySpawnerAuthoring.cs:68-71 | The firing spawners are exactly the visited entities with both components whose timer runs out this frame |
| EnemySpawner.SpawnCount | Assets/a_Scripts/EnemySpawnerAuthoring.cs:74-85 | The buffer receives exactly two commands per firing spawner |
| EnemySpawner.SpawnPlaceholders | Assets/a_Scripts/EnemySpawnerAuthoring.cs:74-85 | Every instantiate is of some spawner's EnemyPrefab and is followed by the transform of that placeholder; every transform follows the instantiate it refers to; no destroy is recorded |
| EnemySpawner.SpawnsAtFiring | Assets/a_Scripts/EnemySpawnerAuthoring.cs:68-85 | Per firing spawner in query order: at index 2i an instantiate of that spawner's EnemyPrefab, at 2i + 1 the transform of that placeholder at its spawn point along the angle drawn from its own generator; nothing else |
| EnemySpawner.SpawnPointDistance | Assets/a_Scripts/EnemySpawnerAuthoring.cs:76-83 | The spawn point is SpawnDistance from the player in the xy plane and at the player's height, when sin² + cos² = 1 at the drawn angle |
| EnemySpawner.RunDrawsOncePerFiring | Assets/a_Scripts/EnemySpawnerAuthoring.cs:75 | Over any number of frames the generator advances exactly once per enemy spawned |
| EnemySpawner.RunInvariant | Assets/a_Scripts/EnemySpawnerAuthoring.cs:70-72 | From a start timer within [0, SpawnInterval] and with deltaTime >= 0, the timer stays within [0, SpawnInterval]; timer + elapsed - fired·interval stays between the start timer and the start timer plus one deltaTime per firing |
| EnemySpawner.SpawnRate | Assets/a_Scripts/EnemySpawnerAuthoring.cs:70-72 | With SpawnInterval I > 0 and deltaTime dt >= 0, a baked spawner over n frames fires f times with f·I <= n·dt + I and n·dt <= f·(I + dt) |
| EnemySpawner.EveryOtherFrame | Assets/a_Scripts/EnemySpawnerAuthoring.cs:70-72 | With SpawnInterval 1 and delta time 0.6 a baked spawner fires on every other frame, because the reset discards the overshoot below zero |
| EnemySpawner.OvershootDiscarded | Assets/a_Scripts/EnemySpawnerAuthoring.cs:70-72 | Over 20 frames of 0.6 with SpawnInterval 1 only 10 enemies spawn, more than one short of one per interval |
| EnemySpawner.TimesIsProduct | Assets/a_Scripts/EnemySpawnerAuthoring.cs:70 | The repeated sum used by the rate bounds equals the product |
| PlayerAttack.Nearest | Assets/a_Scripts/PlayerAuthoring.cs:204-215 | The running minimum never exceeds float.MaxValue |
| PlayerAttack.NearestIsFirstMinimum | Assets/a_Scripts/PlayerAuthoring.cs:204-215 | The running minimum is a lower bound on every hit's squared xy distance; below float.MaxValue it is attained by the selected hit, which is the first hit of least distance; otherwise the selection is the zero vector |
| PlayerAttack.ClosestEnemyPosition | Assets/a_Scripts/PlayerAuthoring.cs:204-215 | The selection loop returns a minimum distance no larger than any hit's, and, when that distance is below float.MaxValue, the hit that is the first of least distance; otherwise the zero vector, as in the source |
| PlayerAttack.NearestExamples | Assets/a_Scripts/PlayerAuthoring.cs:210 | A nearer later hit replaces an earlier one, and an equally near later hit does not |
| PlayerAttack.Facing | Assets/a_Scripts/PlayerAuthoring.cs:217-219 | The attack's rotation is the z angle atan2 of the offset from the attacker to the target, in (y, x) order |
| PlayerAttack.Decide | Assets/a_Scripts/PlayerAuthoring.cs:182-224 | Gated iff the stamp is > elapsed; no target iff the gate is open and the query found nothing; an attack is placed at the attacker's position facing the nearest hit when its squared xy distance is below float.MaxValue, otherwise facing the zero vector as in the source, and the new stamp is elapsed + CoolDownTime |
| PlayerAttack.NextStamps | Assets/a_Scripts/PlayerAuthoring.cs:180-225 | No stamp appears or disappears |
| PlayerAttack.AttackRecordsOnePair | Assets/a_Scripts/PlayerAuthoring.cs:221-222 | An attacker records commands iff it attacks: one instantiate of AttackPrefab and the transform of that placeholder at its position, facing the nearest hit when its squared xy distance is below float.MaxValue, otherwise the zero vector, as in the source |
| PlayerAttack.AttackOne | Assets/a_Scripts/PlayerAuthoring.cs:182-224 | The loop body re-stamps the cooldown and appends the attack's two commands exactly when `Decide` says attack, and changes nothing otherwise |
| PlayerAttack.VisitAttackers | Assets/a_Scripts/PlayerAuthoring.cs:180-226 | The foreach over the attackers leaves every visited entity's stamp as `NextStamps` gives it and appends `AttackCommands` for the whole query |
| PlayerAttack.VisitAttacker | Assets/a_Scripts/PlayerAuthoring.cs:180-226 | One iteration extends both the updated prefix of the stamps and the appended commands by exactly the visited attacker's share |
| PlayerAttack.OnUpdate | Assets/a_Scripts/PlayerAuthoring.cs:172-227 | The system leaves the stamps `NextStamps(old)` and appends `AttackCommands`, in query order |
| PlayerAttack.BakedStamp | Assets/a_Scripts/PlayerAuthoring.cs:92 | The default stamp the baker adds is not in the future of any elapsed time >= 0 |
| PlayerAttack.BakedStampOpensGate | Assets/a_Scripts/PlayerAuthoring.cs:92 | With the default stamp 0 the gate is open on every frame with elapsed >= 0 |
| PlayerAttack.AttackClosesGate | Assets/a_Scripts/PlayerAuthoring.cs:224 | After an attack with a positive CoolDownTime the new stamp gates the attacker for the rest of the frame |

## Left out

- Physics is input only: collision and trigger events are given sequences, and the overlap query and `Bodies[..].WorldFromBody.pos` are one function parameter. PhysicsVelocity, PhysicsMass and the CharacterAuthoring.cs systems are not part of this model.
- Floating point: times, distances and positions are exact `real`s. float/double rounding, NaN and infinity are not modelled. The comparison with float.MaxValue uses its exact value.
- Geometry: sin and cos are function parameters; atan2 and quaternion.Euler are kept symbolic as the rotation `EulerZAtan2(y, x)`. Enemy movement (normalize) and blast movement (`Right()`) are not part of this model.
- Unity.Mathematics.Random: the generator is an opaque state, and NextFloat(0, TAU) is a draw-function parameter returning the angle and the advanced state.
- The player-position lookup of EnemySpawnSystem (`GetSingletonEntity<PlayerTag>`) is a parameter.
- Bakers are not modelled beyond the initial values cited above: the disabled enemy cooldown, the disabled blast destroy flag, the spawner's zero timer and the default player stamp.
- The game-over UI call becomes the list of entities for which it is requested. Camera, input, gem-count UI and GameUIController are not part of this model.
- Job scheduling and parallelism are not modelled: each job is a sequential fold over its events in the order given. Command-buffer playback is not modelled: the buffers are append-only lists of commands.
- DamageThisFrame and GemPrefab are declared in files not part of this model. They are modelled as an `int` list per entity and as a template entity per carrier.
- The store invariant `World.Valid` states that the lookups the systems make succeed, e.g. every player and enemy has a DamageThisFrame buffer. That comes from bakers and files not part of this model.
- PlayerAttack.OnUpdate: the enable bit of PlayerCooldownExpirationTimeStamp is not modelled. The baker leaves it enabled and no system in the core changes it, so the query always matches.
- EnemySpawner.SpawnRate: deliberately weaker than one spawn per SpawnInterval (⌊elapsed / SpawnInterval⌋ within one), because the code does not meet that rate: line 72 resets the timer to exactly SpawnInterval and discards the overshoot below zero, so the real period is ⌈SpawnInterval / deltaTime⌉ frames. `EnemySpawner.OvershootDiscarded` shows 10 spawns in 12 time units with SpawnInterval 1 and delta time 0.6. The bounds are stated with `Times(k, x)`, a repeated sum, in place of k·x; `TimesIsProduct` proves the two equal.

## Findings

| source | as written | input that shows it | evidently intended | confidence | as-written member | corrected member |
|---|---|---|---|---|---|---|
| Assets/a_Scripts/PlasmaBlastAuthoring.cs:88-101 | The first ordering test is a plain `if`, and the second test's `else return` runs whenever B is not the blast, so the first test's result is discarded | A trigger event with A = a blast (damage 7) and B = an enemy: the as-written job drops it; the corrected one appends 7 to the enemy's buffer | `if` / `else if`, as in EnemyAttackJob, so either ordering of the event hits | not executed; high, the second test's `else` cannot be meant to undo the first | PlasmaBlast.BlastOnSideADropped | PlasmaBlast.ExclusiveSymmetric |

The system methods (`PlasmaBlast.Execute`, `PlasmaBlast.OnUpdate`) model
the code as written, since that is what the game runs. The corrected
handler is `PlasmaBlast.ExecuteExclusive` with its specification
`PlasmaBlast.StepExclusive`. `PlasmaBlast.ExclusiveExtendsAsWritten` shows
that it only adds the dropped ordering.

A blast enables its own DestroyEntityFlag when it hits
(PlasmaBlastAuthoring.cs:107), so it is evidently meant to be used up by
that hit. The code does not gate repeated hits within a frame, however:
destruction is deferred to DestroyEntitySystem, so every trigger event of
the frame appends damage.
The model follows the code; `PlasmaBlast.RepeatedHitsAccumulate` states it.
