/**
 * EnemySpawnSystem: every spawner counts its timer down by the frame's delta
 * time; when the timer is no longer positive it is reset to the spawn
 * interval, the spawner's own random generator draws an angle, and an enemy
 * is instantiated at the spawn distance from the player along that angle.
 *
 * The generator (Random.NextFloat(0, TAU)) and sin/cos are parameters: the
 * model does not fix how they compute, only when they are used.
 */
module EnemySpawner {
  import opened Ecs

  /** A draw of Random.NextFloat(0, TAU): the angle and the advanced generator. */
  type AngleDraw = Random -> (real, Random)

  /** The state a spawner is baked with: timer zero and its seeded generator. */
  function BakedState(seeded: Random): (st: EnemySpawnState)
    ensures st.spawnTimer == 0.0 && st.random == seeded
  {
    EnemySpawnState(0.0, seeded)
  }

  /** One spawner in one frame: the new state, and the angle drawn if it fired. */
  datatype Tick = Tick(state: EnemySpawnState, angle: Option<real>)

  function TickSpawner(st: EnemySpawnState, interval: real, deltaTime: real, draw: AngleDraw): (r: Tick)
    ensures st.spawnTimer - deltaTime > 0.0 <==> r.angle.None?
    ensures r.angle.None? ==> r.state == EnemySpawnState(st.spawnTimer - deltaTime, st.random)
    ensures r.angle.Some? ==>
              && r.state == EnemySpawnState(interval, draw(st.random).1)
              && r.angle.value == draw(st.random).0
  {
    var timer := st.spawnTimer - deltaTime;
    if timer > 0.0 then Tick(EnemySpawnState(timer, st.random), None)
    else
      var (angle, next) := draw(st.random);
      Tick(EnemySpawnState(interval, next), Some(angle))
  }

  /** The spawn point: the player position plus SpawnDistance * (sin a, cos a, 0). */
  function SpawnPoint(player: Float3, distance: real, angle: real, sin: real -> real, cos: real -> real): (p: Float3)
    ensures p.z == player.z
    ensures p.x - player.x == distance * sin(angle) && p.y - player.y == distance * cos(angle)
  {
    Add(Scale(distance, Float3(sin(angle), cos(angle), 0.0)), player)
  }

  // ---------------------------------------------------------------------
  // The system update over every spawner
  // ---------------------------------------------------------------------

  /** Spawner states after the frame: each spawner ticks once, from its own state only. */
  function NextStates(states: map<Entity, EnemySpawnState>, data: map<Entity, EnemySpawnerData>,
                      deltaTime: real, draw: AngleDraw): (r: map<Entity, EnemySpawnState>)
    ensures r.Keys == states.Keys
    ensures forall e :: e in states && e !in data ==> r[e] == states[e]
  {
    map e | e in states ::
      if e in data then TickSpawner(states[e], data[e].spawnInterval, deltaTime, draw).state else states[e]
  }

  /**
   * What the loop appends to the command buffer, whose length is `base` when
   * the loop starts, after visiting the first `n` entities: per firing
   * spawner an instantiate of its enemy prefab and a transform placing that
   * placeholder at the spawn point.
   */
  function SpawnCommands(states: map<Entity, EnemySpawnState>, data: map<Entity, EnemySpawnerData>,
                         ents: seq<Entity>, n: nat, deltaTime: real, draw: AngleDraw,
                         player: Float3, sin: real -> real, cos: real -> real, base: nat): (r: seq<Command>)
    requires n <= |ents|
  {
    if n == 0 then []
    else
      var earlier := SpawnCommands(states, data, ents, n - 1, deltaTime, draw, player, sin, cos, base);
      earlier + SpawnCommandsFor(states, data, ents[n - 1], deltaTime, draw, player, sin, cos, base + |earlier|)
  }

  /** The commands entity `e` records when the loop visits it. */
  function SpawnCommandsFor(states: map<Entity, EnemySpawnState>, data: map<Entity, EnemySpawnerData>,
                            e: Entity, deltaTime: real, draw: AngleDraw,
                            player: Float3, sin: real -> real, cos: real -> real, slot: nat): seq<Command>
  {
    if e in states && e in data then FiringCommands(states[e], data[e], deltaTime, draw, player, sin, cos, slot) else []
  }

  /** The commands one spawner records in a frame; `slot` is the buffer length before them. */
  function FiringCommands(st: EnemySpawnState, data: EnemySpawnerData, deltaTime: real, draw: AngleDraw,
                          player: Float3, sin: real -> real, cos: real -> real, slot: nat): (r: seq<Command>)
  {
    match TickSpawner(st, data.spawnInterval, deltaTime, draw).angle
    case None => []
    case Some(angle) =>
      [InstantiateCmd(data.enemyPrefab),
       SetTransformCmd(slot, FromPosition(SpawnPoint(player, data.spawnDistance, angle, sin, cos)))]
  }

  /**
   * EnemySpawnSystem.OnUpdate. `playerPosition` is the position of the single
   * PlayerTag entity, which the system looks up before its loop.
   */
  method OnUpdate(w: World, ecb: CommandBuffer, deltaTime: real, playerPosition: Float3,
                  draw: AngleDraw, sin: real -> real, cos: real -> real)
    requires w.Valid()
    modifies w`enemySpawnState, ecb
    ensures w.Valid()
    ensures w.enemySpawnState == NextStates(old(w.enemySpawnState), w.enemySpawnerData, deltaTime, draw)
    ensures ecb.commands == old(ecb.commands) +
              SpawnCommands(old(w.enemySpawnState), w.enemySpawnerData, w.entities, |w.entities|, deltaTime, draw,
                            playerPosition, sin, cos, |old(ecb.commands)|)
  {
    ghost var before := w.enemySpawnState;
    ghost var after := NextStates(before, w.enemySpawnerData, deltaTime, draw);
    VisitSpawners(w, ecb, deltaTime, playerPosition, draw, sin, cos);
    assert forall e :: e in before ==> e in w.entities;
    UpdatedAll(before, after, w.enemySpawnState, w.entities);
  }

  /** The loop of EnemySpawnSystem.OnUpdate, over the entities in query order. */
  method VisitSpawners(w: World, ecb: CommandBuffer, deltaTime: real, playerPosition: Float3,
                       draw: AngleDraw, sin: real -> real, cos: real -> real)
    requires Distinct(w.entities)
    modifies w`enemySpawnState, ecb
    ensures UpdatedUpTo(old(w.enemySpawnState), NextStates(old(w.enemySpawnState), w.enemySpawnerData, deltaTime, draw),
                        w.enemySpawnState, w.entities)
    ensures ecb.commands == old(ecb.commands) +
              SpawnCommands(old(w.enemySpawnState), w.enemySpawnerData, w.entities, |w.entities|, deltaTime, draw,
                            playerPosition, sin, cos, |old(ecb.commands)|)
  {
    ghost var before := w.enemySpawnState;
    ghost var prefix := ecb.commands;
    var ents := w.entities;
    var base := |ecb.commands|;
    var i := 0;
    while i < |ents|
      invariant 0 <= i <= |ents|
      invariant UpdatedUpTo(before, NextStates(before, w.enemySpawnerData, deltaTime, draw), w.enemySpawnState, ents[..i])
      invariant ecb.commands == prefix +
                  SpawnCommands(before, w.enemySpawnerData, ents, i, deltaTime, draw, playerPosition, sin, cos, base)
    {
      VisitSpawner(w, ecb, before, ents, i, deltaTime, playerPosition, draw, sin, cos, prefix, base);
      i := i + 1;
    }
    assert ents[..i] == ents;
  }

  /**
   * One iteration of the loop: entity `ents[i]` is visited, so its spawner
   * state takes its new value and its commands are appended.
   */
  method VisitSpawner(w: World, ecb: CommandBuffer, ghost before: map<Entity, EnemySpawnState>, ents: seq<Entity>, i: nat,
                      deltaTime: real, playerPosition: Float3, draw: AngleDraw, sin: real -> real, cos: real -> real,
                      ghost prefix: seq<Command>, base: nat)
    requires i < |ents| && Distinct(ents) && |prefix| == base
    requires UpdatedUpTo(before, NextStates(before, w.enemySpawnerData, deltaTime, draw), w.enemySpawnState, ents[..i])
    requires ecb.commands == prefix +
               SpawnCommands(before, w.enemySpawnerData, ents, i, deltaTime, draw, playerPosition, sin, cos, base)
    modifies w`enemySpawnState, ecb
    ensures UpdatedUpTo(before, NextStates(before, w.enemySpawnerData, deltaTime, draw), w.enemySpawnState, ents[..i + 1])
    ensures ecb.commands == prefix +
              SpawnCommands(before, w.enemySpawnerData, ents, i + 1, deltaTime, draw, playerPosition, sin, cos, base)
  {
    var e := ents[i];
    ghost var data := w.enemySpawnerData;
    ghost var after := NextStates(before, data, deltaTime, draw);
    ghost var earlier := SpawnCommands(before, data, ents, i, deltaTime, draw, playerPosition, sin, cos, base);
    ghost var recorded := SpawnCommandsFor(before, data, e, deltaTime, draw, playerPosition, sin, cos, base + |earlier|);
    SpawnCommandsStep(before, data, ents, i, deltaTime, draw, playerPosition, sin, cos, base);
    VisitedStep(before, after, w.enemySpawnState, ents, i);
    if e in w.enemySpawnState && e in w.enemySpawnerData {
      var spawnerData := w.enemySpawnerData[e];
      ghost var pending := ecb.commands;
      assert recorded == FiringCommands(w.enemySpawnState[e], spawnerData, deltaTime, draw, playerPosition, sin, cos, |pending|);
      assert after[e] == TickSpawner(w.enemySpawnState[e], spawnerData.spawnInterval, deltaTime, draw).state;
      UpdateSpawner(w, ecb, e, spawnerData, deltaTime, playerPosition, draw, sin, cos);
      assert ecb.commands == pending + recorded;
      ConcatAssoc(prefix, earlier, recorded);
      assert ecb.commands == prefix + (earlier + recorded);
    } else {
      assert e in before ==> after[e] == before[e];
      assert recorded == [];
      assert earlier + recorded == earlier;
    }
  }

  /** Unfolding `SpawnCommands` by one entity of the query order. */
  lemma SpawnCommandsStep(states: map<Entity, EnemySpawnState>, data: map<Entity, EnemySpawnerData>,
                          ents: seq<Entity>, i: nat, deltaTime: real, draw: AngleDraw,
                          player: Float3, sin: real -> real, cos: real -> real, base: nat)
    requires i < |ents|
    ensures var earlier := SpawnCommands(states, data, ents, i, deltaTime, draw, player, sin, cos, base);
            SpawnCommands(states, data, ents, i + 1, deltaTime, draw, player, sin, cos, base) ==
              earlier + SpawnCommandsFor(states, data, ents[i], deltaTime, draw, player, sin, cos, base + |earlier|)
  {
  }

  /**
   * The body of the system's loop for spawner `e`, whose EnemySpawnerData
   * the query hands over by value.
   */
  method UpdateSpawner(w: World, ecb: CommandBuffer, e: Entity, spawnerData: EnemySpawnerData, deltaTime: real,
                       playerPosition: Float3, draw: AngleDraw, sin: real -> real, cos: real -> real)
    requires e in w.enemySpawnState
    modifies w`enemySpawnState, ecb
    ensures w.enemySpawnState == old(w.enemySpawnState)[e :=
              TickSpawner(old(w.enemySpawnState[e]), spawnerData.spawnInterval, deltaTime, draw).state]
    ensures ecb.commands == old(ecb.commands) +
              FiringCommands(old(w.enemySpawnState[e]), spawnerData, deltaTime, draw,
                             playerPosition, sin, cos, |old(ecb.commands)|)
  {
    var spawnState := w.enemySpawnState[e];
    spawnState := spawnState.(spawnTimer := spawnState.spawnTimer - deltaTime);
    if spawnState.spawnTimer > 0.0 {
      w.enemySpawnState := w.enemySpawnState[e := spawnState];
      return;
    }
    spawnState := spawnState.(spawnTimer := spawnerData.spawnInterval);

    var newEnemy := ecb.Instantiate(spawnerData.enemyPrefab);
    var (spawnAngle, nextRandom) := draw(spawnState.random);
    spawnState := spawnState.(random := nextRandom);
    var spawnPoint := Float3(sin(spawnAngle), cos(spawnAngle), 0.0);
    spawnPoint := Scale(spawnerData.spawnDistance, spawnPoint);
    spawnPoint := Add(spawnPoint, playerPosition);

    ecb.SetComponent(newEnemy, FromPosition(spawnPoint));
    w.enemySpawnState := w.enemySpawnState[e := spawnState];
  }

  // ---------------------------------------------------------------------
  // Properties
  // ---------------------------------------------------------------------

  /** A freshly baked spawner fires on its first update whenever the delta time is not negative. */
  lemma BakedSpawnerFiresFirst(seeded: Random, interval: real, deltaTime: real, draw: AngleDraw)
    requires deltaTime >= 0.0
    ensures TickSpawner(BakedState(seeded), interval, deltaTime, draw).angle.Some?
  {
  }

  /** The spawners among the first `n` entities whose timer runs out this frame, in query order. */
  function FiringSpawners(states: map<Entity, EnemySpawnState>, data: map<Entity, EnemySpawnerData>,
                          ents: seq<Entity>, n: nat, deltaTime: real): (r: seq<Entity>)
    requires n <= |ents|
    ensures forall x :: x in r <==>
              (exists k :: 0 <= k < n && ents[k] == x) && x in states && x in data && states[x].spawnTimer - deltaTime <= 0.0
  {
    if n == 0 then []
    else
      var e := ents[n - 1];
      FiringSpawners(states, data, ents, n - 1, deltaTime) +
        if e in states && e in data && states[e].spawnTimer - deltaTime <= 0.0 then [e] else []
  }

  /** Two commands per firing spawner, and none for any other entity. */
  lemma {:induction false} SpawnCount(states: map<Entity, EnemySpawnState>, data: map<Entity, EnemySpawnerData>,
                                      ents: seq<Entity>, n: nat, deltaTime: real, draw: AngleDraw,
                                      player: Float3, sin: real -> real, cos: real -> real, base: nat)
    requires n <= |ents|
    ensures |SpawnCommands(states, data, ents, n, deltaTime, draw, player, sin, cos, base)|
              == 2 * |FiringSpawners(states, data, ents, n, deltaTime)|
  {
    if n > 0 {
      SpawnCount(states, data, ents, n - 1, deltaTime, draw, player, sin, cos, base);
      var e := ents[n - 1];
      if e in states && e in data {
        var earlier := SpawnCommands(states, data, ents, n - 1, deltaTime, draw, player, sin, cos, base);
        FiringShape(states[e], data[e], deltaTime, draw, player, sin, cos, base + |earlier|);
      }
    }
  }

  /**
   * `r`, recorded on a buffer that held `base` commands before it, holds no
   * destroy; every instantiate in it is of a spawner's enemy prefab and is
   * immediately followed by the transform of that same placeholder, and
   * every transform follows the instantiate it refers to.
   */
  ghost predicate Paired(r: seq<Command>, data: map<Entity, EnemySpawnerData>, base: nat)
  {
    forall k :: 0 <= k < |r| ==> PairedAt(r, data, base, k)
  }

  ghost predicate PairedAt(r: seq<Command>, data: map<Entity, EnemySpawnerData>, base: nat, k: nat)
    requires k < |r|
  {
    && !r[k].DestroyCmd?
    && (r[k].InstantiateCmd? ==>
          (exists x :: x in data && r[k].prefab == data[x].enemyPrefab)
          && k + 1 < |r| && r[k + 1].SetTransformCmd? && r[k + 1].placeholder == base + k)
    && (r[k].SetTransformCmd? ==> 0 < k && r[k - 1].InstantiateCmd? && r[k].placeholder == base + k - 1)
  }

  /** Each spawned enemy gets exactly its own transform. */
  lemma {:induction false} SpawnPlaceholders(states: map<Entity, EnemySpawnState>, data: map<Entity, EnemySpawnerData>,
                                             ents: seq<Entity>, n: nat, deltaTime: real, draw: AngleDraw,
                                             player: Float3, sin: real -> real, cos: real -> real, base: nat)
    requires n <= |ents|
    ensures Paired(SpawnCommands(states, data, ents, n, deltaTime, draw, player, sin, cos, base), data, base)
  {
    if n > 0 {
      SpawnPlaceholders(states, data, ents, n - 1, deltaTime, draw, player, sin, cos, base);
      var e := ents[n - 1];
      var earlier := SpawnCommands(states, data, ents, n - 1, deltaTime, draw, player, sin, cos, base);
      var recorded := SpawnCommandsFor(states, data, e, deltaTime, draw, player, sin, cos, base + |earlier|);
      var r := SpawnCommands(states, data, ents, n, deltaTime, draw, player, sin, cos, base);
      assert r == earlier + recorded;
      if e in states && e in data {
        FiringShape(states[e], data[e], deltaTime, draw, player, sin, cos, base + |earlier|);
      }
      assert recorded == [] || (|recorded| == 2 && recorded[0] == InstantiateCmd(data[e].enemyPrefab)
                                && recorded[1].SetTransformCmd? && recorded[1].placeholder == base + |earlier|);
      PairedAppend(earlier, recorded, data, base);
    }
  }

  /** Appending nothing, or one spawner's instantiate and transform pair, keeps the pairing. */
  lemma PairedAppend(earlier: seq<Command>, recorded: seq<Command>, data: map<Entity, EnemySpawnerData>, base: nat)
    requires Paired(earlier, data, base)
    requires recorded == [] || (|recorded| == 2 && recorded[0].InstantiateCmd?
                                && (exists x :: x in data && recorded[0].prefab == data[x].enemyPrefab)
                                && recorded[1].SetTransformCmd? && recorded[1].placeholder == base + |earlier|)
    ensures Paired(earlier + recorded, data, base)
  {
    var r := earlier + recorded;
    forall k | 0 <= k < |r|
      ensures PairedAt(r, data, base, k)
    {
      if k < |earlier| {
        assert PairedAt(earlier, data, base, k);
        assert r[k] == earlier[k];
        if r[k].InstantiateCmd? {
          assert r[k + 1] == earlier[k + 1];
        }
        if r[k].SetTransformCmd? {
          assert r[k - 1] == earlier[k - 1];
        }
      } else {
        assert r[k] == recorded[k - |earlier|];
        if k == |earlier| + 1 {
          assert r[k - 1] == recorded[0];
        } else {
          assert r[k + 1] == recorded[1];
        }
      }
    }
  }

  /**
   * The i-th firing spawner's commands in `r`: an instantiate of its own
   * EnemyPrefab at index 2i, and at 2i + 1 the transform of that placeholder
   * at its spawn point, along the angle drawn from its own generator.
   */
  ghost predicate SpawnedAt(r: seq<Command>, f: seq<Entity>, i: nat, states: map<Entity, EnemySpawnState>,
                            data: map<Entity, EnemySpawnerData>, draw: AngleDraw,
                            player: Float3, sin: real -> real, cos: real -> real, base: nat)
    requires i < |f| && 2 * i + 1 < |r|
  {
    && f[i] in states && f[i] in data
    && r[2 * i] == InstantiateCmd(data[f[i]].enemyPrefab)
    && r[2 * i + 1] == SetTransformCmd(base + 2 * i,
         FromPosition(SpawnPoint(player, data[f[i]].spawnDistance, draw(states[f[i]].random).0, sin, cos)))
  }

  /** Every firing spawner in `f` has its pair in `r`, and `r` holds nothing else. */
  ghost predicate AllSpawned(r: seq<Command>, f: seq<Entity>, states: map<Entity, EnemySpawnState>,
                             data: map<Entity, EnemySpawnerData>, draw: AngleDraw,
                             player: Float3, sin: real -> real, cos: real -> real, base: nat)
  {
    && |r| == 2 * |f|
    && forall i :: 0 <= i < |f| ==> SpawnedAt(r, f, i, states, data, draw, player, sin, cos, base)
  }

  /** Per firing spawner, in query order: its enemy, then that enemy's transform at its spawn point. */
  lemma {:induction false} SpawnsAtFiring(states: map<Entity, EnemySpawnState>, data: map<Entity, EnemySpawnerData>,
                                          ents: seq<Entity>, n: nat, deltaTime: real, draw: AngleDraw,
                                          player: Float3, sin: real -> real, cos: real -> real, base: nat)
    requires n <= |ents|
    ensures AllSpawned(SpawnCommands(states, data, ents, n, deltaTime, draw, player, sin, cos, base),
                       FiringSpawners(states, data, ents, n, deltaTime), states, data, draw, player, sin, cos, base)
  {
    if n > 0 {
      SpawnsAtFiring(states, data, ents, n - 1, deltaTime, draw, player, sin, cos, base);
      var e := ents[n - 1];
      var earlier := SpawnCommands(states, data, ents, n - 1, deltaTime, draw, player, sin, cos, base);
      var prior := FiringSpawners(states, data, ents, n - 1, deltaTime);
      var recorded := SpawnCommandsFor(states, data, e, deltaTime, draw, player, sin, cos, base + |earlier|);
      assert SpawnCommands(states, data, ents, n, deltaTime, draw, player, sin, cos, base) == earlier + recorded;
      if e in states && e in data && states[e].spawnTimer - deltaTime <= 0.0 {
        assert FiringSpawners(states, data, ents, n, deltaTime) == prior + [e];
        FiringShape(states[e], data[e], deltaTime, draw, player, sin, cos, base + |earlier|);
        SpawnedAppend(earlier, recorded, prior, e, states, data, draw, player, sin, cos, base);
      } else {
        assert FiringSpawners(states, data, ents, n, deltaTime) == prior + [];
        if e in states && e in data {
          FiringShape(states[e], data[e], deltaTime, draw, player, sin, cos, base + |earlier|);
        }
        assert earlier + recorded == earlier && prior + [] == prior;
      }
    }
  }

  /** Appending one firing spawner's pair keeps every earlier spawner's pair and adds its own. */
  lemma SpawnedAppend(earlier: seq<Command>, recorded: seq<Command>, prior: seq<Entity>, e: Entity,
                      states: map<Entity, EnemySpawnState>, data: map<Entity, EnemySpawnerData>, draw: AngleDraw,
                      player: Float3, sin: real -> real, cos: real -> real, base: nat)
    requires AllSpawned(earlier, prior, states, data, draw, player, sin, cos, base)
    requires e in states && e in data
    requires recorded == [InstantiateCmd(data[e].enemyPrefab),
                          SetTransformCmd(base + |earlier|,
                            FromPosition(SpawnPoint(player, data[e].spawnDistance, draw(states[e].random).0, sin, cos)))]
    ensures AllSpawned(earlier + recorded, prior + [e], states, data, draw, player, sin, cos, base)
  {
    var r, f := earlier + recorded, prior + [e];
    forall i | 0 <= i < |f|
      ensures SpawnedAt(r, f, i, states, data, draw, player, sin, cos, base)
    {
      if i < |prior| {
        assert SpawnedAt(earlier, prior, i, states, data, draw, player, sin, cos, base);
        assert f[i] == prior[i] && r[2 * i] == earlier[2 * i] && r[2 * i + 1] == earlier[2 * i + 1];
      } else {
        assert f[i] == e && r[2 * i] == recorded[0] && r[2 * i + 1] == recorded[1];
      }
    }
  }

  /** A spawner records a pair of commands exactly when its timer runs out. */
  lemma FiringShape(st: EnemySpawnState, data: EnemySpawnerData, deltaTime: real, draw: AngleDraw,
                    player: Float3, sin: real -> real, cos: real -> real, slot: nat)
    ensures FiringCommands(st, data, deltaTime, draw, player, sin, cos, slot) ==
              if st.spawnTimer - deltaTime <= 0.0
              then [InstantiateCmd(data.enemyPrefab),
                    SetTransformCmd(slot, FromPosition(SpawnPoint(player, data.spawnDistance, draw(st.random).0, sin, cos)))]
              else []
  {
  }

  /**
   * The spawn point lies SpawnDistance away from the player in the xy plane,
   * at the player's height, whenever sin and cos agree at the drawn angle.
   */
  lemma SpawnPointDistance(player: Float3, distance: real, angle: real, sin: real -> real, cos: real -> real)
    requires sin(angle) * sin(angle) + cos(angle) * cos(angle) == 1.0
    ensures DistanceSqXY(SpawnPoint(player, distance, angle, sin, cos), player) == distance * distance
    ensures SpawnPoint(player, distance, angle, sin, cos).z == player.z
  {
    var s, c := sin(angle), cos(angle);
    assert (distance * s) * (distance * s) + (distance * c) * (distance * c) == distance * distance * (s * s + c * c);
  }

  /**
   * One spawner over `n` frames of the same delta time: its state, and how
   * many enemies it has spawned.
   */
  function Run(st: EnemySpawnState, interval: real, deltaTime: real, draw: AngleDraw, n: nat): (r: (EnemySpawnState, nat))
    ensures n == 0 ==> r == (st, 0)
  {
    if n == 0 then (st, 0)
    else
      var prev := Run(st, interval, deltaTime, draw, n - 1);
      var tick := TickSpawner(prev.0, interval, deltaTime, draw);
      (tick.state, prev.1 + if tick.angle.Some? then 1 else 0)
  }

  /** The generator after `k` draws. */
  function Draws(r: Random, draw: AngleDraw, k: nat): Random
  {
    if k == 0 then r else draw(Draws(r, draw, k - 1)).1
  }

  /** Over any number of frames the generator has advanced exactly once per enemy spawned. */
  lemma {:induction false} RunDrawsOncePerFiring(st: EnemySpawnState, interval: real, deltaTime: real, draw: AngleDraw, n: nat)
    ensures Run(st, interval, deltaTime, draw, n).0.random == Draws(st.random, draw, Run(st, interval, deltaTime, draw, n).1)
  {
    if n > 0 {
      RunDrawsOncePerFiring(st, interval, deltaTime, draw, n - 1);
    }
  }

  /**
   * Spawners are independent: a spawner's new state depends only on its own
   * state and its own EnemySpawnerData.
   */
  lemma SpawnersIndependent(states1: map<Entity, EnemySpawnState>, data1: map<Entity, EnemySpawnerData>,
                            states2: map<Entity, EnemySpawnState>, data2: map<Entity, EnemySpawnerData>,
                            deltaTime: real, draw: AngleDraw, e: Entity)
    requires e in states1 && e in states2 && states1[e] == states2[e]
    requires (e in data1 <==> e in data2) && (e in data1 ==> data1[e] == data2[e])
    ensures NextStates(states1, data1, deltaTime, draw)[e] == NextStates(states2, data2, deltaTime, draw)[e]
  {
  }

  /** k * x as a repeated sum, which keeps the counting argument linear. */
  function Times(k: nat, x: real): real
  {
    if k == 0 then 0.0 else Times(k - 1, x) + x
  }

  lemma {:induction false} TimesIsProduct(k: nat, x: real)
    ensures Times(k, x) == (k as real) * x
  {
    if k > 0 {
      TimesIsProduct(k - 1, x);
    }
  }

  /**
   * The timer stays within [0, interval], and the quantity
   * timer + elapsed - fired * interval never falls below the starting timer
   * and exceeds it by at most one delta time per firing.
   */
  lemma {:induction false} RunInvariant(st: EnemySpawnState, interval: real, deltaTime: real, draw: AngleDraw, n: nat)
    requires 0.0 <= st.spawnTimer <= interval && deltaTime >= 0.0
    ensures var (now, fired) := Run(st, interval, deltaTime, draw, n);
            && 0.0 <= now.spawnTimer <= interval
            && st.spawnTimer <= now.spawnTimer + Times(n, deltaTime) - Times(fired, interval)
            && now.spawnTimer + Times(n, deltaTime) - Times(fired, interval) <= st.spawnTimer + Times(fired, deltaTime)
  {
    if n > 0 {
      RunInvariant(st, interval, deltaTime, draw, n - 1);
    }
  }

  /**
   * With SpawnInterval 1 and delta time 0.6 a baked spawner fires on every
   * other frame: the reset to exactly the interval discards the 0.2 by which
   * the timer overshot zero, so the real period is two frames (1.2 time units).
   */
  lemma {:induction false} EveryOtherFrame(seeded: Random, draw: AngleDraw, k: nat)
    requires k >= 1
    ensures Run(BakedState(seeded), 1.0, 0.6, draw, 2 * k).0.spawnTimer == 0.4
    ensures Run(BakedState(seeded), 1.0, 0.6, draw, 2 * k).1 == k
  {
    if k > 1 {
      EveryOtherFrame(seeded, draw, k - 1);
    }
  }

  /**
   * The spawn count falls behind one enemy per interval by more than one:
   * over 20 frames of 0.6 (12 time units) with SpawnInterval 1 only 10
   * enemies are spawned, not 12.
   */
  lemma OvershootDiscarded(seeded: Random, draw: AngleDraw)
    ensures var fired := Run(BakedState(seeded), 1.0, 0.6, draw, 20).1;
            fired == 10 && (fired as real) * 1.0 < 20.0 * 0.6 - 1.0
  {
    EveryOtherFrame(seeded, draw, 10);
  }

  /**
   * Spawn rate: a baked spawner with interval I > 0 that runs `n` frames of
   * delta time dt spawns f enemies with f * I <= n * dt + I and
   * n * dt <= f * (I + dt): one enemy per interval, up to the frame granularity.
   */
  lemma SpawnRate(seeded: Random, interval: real, deltaTime: real, draw: AngleDraw, n: nat)
    requires interval > 0.0 && deltaTime >= 0.0
    ensures var fired := Run(BakedState(seeded), interval, deltaTime, draw, n).1;
            && Times(fired, interval) <= Times(n, deltaTime) + interval
            && Times(n, deltaTime) <= Times(fired, interval) + Times(fired, deltaTime)
  {
    RunInvariant(BakedState(seeded), interval, deltaTime, draw, n);
  }
}
