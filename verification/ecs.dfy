/**
 * The entity/component store the combat and lifecycle systems run over, the
 * component records they read and write, and the deferred entity command
 * buffers through which they request structural changes.
 *
 * Entities are opaque identifiers; every component kind is a map keyed by
 * entity (a tag is a set). An enableable component keeps its value and an
 * `enabled` bit side by side, so toggling it never adds or removes it.
 */
module Ecs {

  /** An entity identifier (Unity's index/version pair; only identity matters). */
  type Entity = nat

  datatype Option<T> = None | Some(value: T)

  /** A float3 of Unity.Mathematics, with exact real coordinates. */
  datatype Float3 = Float3(x: real, y: real, z: real)

  const Zero3 := Float3(0.0, 0.0, 0.0)

  function Add(a: Float3, b: Float3): Float3
  {
    Float3(a.x + b.x, a.y + b.y, a.z + b.z)
  }

  function Sub(a: Float3, b: Float3): Float3
  {
    Float3(a.x - b.x, a.y - b.y, a.z - b.z)
  }

  function Scale(k: real, a: Float3): Float3
  {
    Float3(k * a.x, k * a.y, k * a.z)
  }

  /** math.distancesq over the xy components only. */
  function DistanceSqXY(a: Float3, b: Float3): real
  {
    (a.x - b.x) * (a.x - b.x) + (a.y - b.y) * (a.y - b.y)
  }

  /**
   * The rotation of a LocalTransform. `EulerZAtan2(y, x)` stands for
   * quaternion.Euler(0, 0, atan2(y, x)); the trigonometry is kept symbolic.
   */
  datatype Rotation = Identity | EulerZAtan2(y: real, x: real)

  datatype LocalTransform = LocalTransform(position: Float3, rotation: Rotation, scale: real)

  /** LocalTransform.FromPosition: no rotation, unit scale. */
  function FromPosition(p: Float3): LocalTransform
  {
    LocalTransform(p, Identity, 1.0)
  }

  /** LocalTransform.FromPositionRotation: unit scale. */
  function FromPositionRotation(p: Float3, r: Rotation): LocalTransform
  {
    LocalTransform(p, r, 1.0)
  }

  // ---------------------------------------------------------------------
  // Component records
  // ---------------------------------------------------------------------

  datatype EnemyAttackData = EnemyAttackData(hitPoints: int, coolDownTime: real)

  /** EnemyCooldownExpirationTimeStamp: an enableable timestamp. */
  datatype CooldownStamp = CooldownStamp(value: real, enabled: bool)

  datatype PlasmaBlastData = PlasmaBlastData(moveSpeed: real, attackDamage: int)

  datatype EnemySpawnerData = EnemySpawnerData(enemyPrefab: Entity, spawnInterval: real, spawnDistance: real)

  /** The state of a Unity.Mathematics.Random generator, left opaque. */
  datatype Random = Random(state: nat)

  datatype EnemySpawnState = EnemySpawnState(spawnTimer: real, random: Random)

  /** A physics collision filter; only passed through to the overlap query. */
  datatype CollisionFilter = CollisionFilter(belongsTo: nat, collidesWith: nat)

  datatype PlayerAttackData = PlayerAttackData(
    attackPrefab: Entity,
    coolDownTime: real,
    detectionSize: Float3,
    collisionFilter: CollisionFilter)

  // ---------------------------------------------------------------------
  // Deferred entity command buffers
  // ---------------------------------------------------------------------

  /**
   * One recorded structural change. An instantiate creates a placeholder
   * entity, named by the index of its own command in the buffer; a later
   * `SetTransformCmd` refers to the placeholder by that index.
   */
  datatype Command =
    | InstantiateCmd(prefab: Entity)
    | SetTransformCmd(placeholder: nat, transform: LocalTransform)
    | DestroyCmd(entity: Entity)

  /** An EntityCommandBuffer: a write-only list of commands played back later. */
  class CommandBuffer {
    var commands: seq<Command>

    constructor ()
      ensures commands == []
    {
      commands := [];
    }

    method Instantiate(prefab: Entity) returns (placeholder: nat)
      modifies this
      ensures placeholder == |old(commands)|
      ensures commands == old(commands) + [InstantiateCmd(prefab)]
    {
      placeholder := |commands|;
      commands := commands + [InstantiateCmd(prefab)];
    }

    method SetComponent(placeholder: nat, transform: LocalTransform)
      modifies this
      ensures commands == old(commands) + [SetTransformCmd(placeholder, transform)]
    {
      commands := commands + [SetTransformCmd(placeholder, transform)];
    }

    method DestroyEntity(e: Entity)
      modifies this
      ensures commands == old(commands) + [DestroyCmd(e)]
    {
      commands := commands + [DestroyCmd(e)];
    }
  }

  function Last<T>(s: seq<T>): T
    requires s != []
  {
    s[|s| - 1]
  }

  function AllButLast<T>(s: seq<T>): seq<T>
    requires s != []
  {
    s[..|s| - 1]
  }

  lemma ConcatAssoc<T>(a: seq<T>, b: seq<T>, c: seq<T>)
    ensures (a + b) + c == a + (b + c)
  {
  }

  // ---------------------------------------------------------------------
  // The entity store
  // ---------------------------------------------------------------------

  predicate Distinct(s: seq<Entity>)
  {
    forall i, j :: 0 <= i < j < |s| ==> s[i] != s[j]
  }

  /**
   * A system loop that rewrites one component map entry by entry, in query
   * order, has visited `visited` so far: visited entries hold their new
   * value from `after`, the rest still hold their value from `before`.
   */
  ghost predicate UpdatedUpTo<V>(before: map<Entity, V>, after: map<Entity, V>,
                                 current: map<Entity, V>, visited: seq<Entity>)
    requires before.Keys == after.Keys
  {
    && current.Keys == before.Keys
    && forall e :: e in before ==> current[e] == if e in visited then after[e] else before[e]
  }

  /** Visiting the next entity of the query order keeps `UpdatedUpTo`. */
  lemma VisitedStep<V>(before: map<Entity, V>, after: map<Entity, V>,
                       current: map<Entity, V>, ents: seq<Entity>, i: nat)
    requires before.Keys == after.Keys
    requires i < |ents| && Distinct(ents)
    requires UpdatedUpTo(before, after, current, ents[..i])
    ensures ents[i] in before ==> current[ents[i]] == before[ents[i]]
    ensures ents[i] in before ==> UpdatedUpTo(before, after, current[ents[i] := after[ents[i]]], ents[..i + 1])
    ensures ents[i] !in before || after[ents[i]] == before[ents[i]] ==> UpdatedUpTo(before, after, current, ents[..i + 1])
  {
    assert ents[..i + 1] == ents[..i] + [ents[i]];
    assert ents[i] !in ents[..i];
  }

  /** Once every key has been visited the map is the new one. */
  lemma UpdatedAll<V>(before: map<Entity, V>, after: map<Entity, V>,
                      current: map<Entity, V>, visited: seq<Entity>)
    requires before.Keys == after.Keys
    requires forall e :: e in before ==> e in visited
    requires UpdatedUpTo(before, after, current, visited)
    ensures current == after
  {
  }

  /**
   * The components the modelled systems touch. `entities` is the order in
   * which a query visits the live entities.
   */
  class World {
    var entities: seq<Entity>
    var position: map<Entity, Float3>                        // LocalTransform.Position
    var playerTag: set<Entity>
    var enemyTag: set<Entity>
    var enemyAttackData: map<Entity, EnemyAttackData>
    var enemyCooldown: map<Entity, CooldownStamp>
    var damageThisFrame: map<Entity, seq<int>>               // DamageThisFrame buffers
    var plasmaBlastData: map<Entity, PlasmaBlastData>
    var destroyEntityFlag: map<Entity, bool>                 // enable bit of DestroyEntityFlag
    var gemPrefab: map<Entity, Entity>
    var enemySpawnerData: map<Entity, EnemySpawnerData>
    var enemySpawnState: map<Entity, EnemySpawnState>
    var playerAttackData: map<Entity, PlayerAttackData>
    var playerCooldown: map<Entity, real>                    // PlayerCooldownExpirationTimeStamp.Value

    /**
     * Entities are listed once; components that a query iterates belong to
     * listed entities; and the components the bakers add together are
     * present together, so no lookup in the systems can miss.
     */
    ghost predicate Valid()
      reads this
    {
      && Distinct(entities)
      && (forall e :: e in enemyCooldown ==> e in entities)
      && (forall e :: e in destroyEntityFlag ==> e in entities)
      && (forall e :: e in enemySpawnState ==> e in entities)
      && (forall e :: e in playerCooldown ==> e in entities)
      && enemyAttackData.Keys <= enemyCooldown.Keys
      && playerTag <= damageThisFrame.Keys
      && enemyTag <= damageThisFrame.Keys
      && plasmaBlastData.Keys <= destroyEntityFlag.Keys
      && gemPrefab.Keys <= position.Keys
    }
  }
}
