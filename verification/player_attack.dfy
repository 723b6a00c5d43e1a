/**
 * PlayerAttackSystem: for every entity with a cooldown stamp, attack data
 * and a transform, once the stamp is no longer in the future it queries the
 * physics world for bodies overlapping a box centred on the entity, picks
 * the hit nearest in the xy plane, and, if there was any hit, spawns an
 * attack at the entity's position facing that hit and re-stamps the
 * cooldown.
 *
 * The overlap query is a parameter: it maps the box corners and the
 * collision filter to the positions of the overlapping bodies, in the order
 * the physics world reports them.
 */
module PlayerAttack {
  import opened Ecs

  /** PhysicsWorld.OverlapAabb followed by Bodies[hit].WorldFromBody.pos per hit. */
  type OverlapQuery = (Float3, Float3, CollisionFilter) -> seq<Float3>

  /** float.MaxValue, the running minimum's starting value. */
  const FloatMax: real := 340282346638528859811704183484516925440.0

  /** The stamp PlayerCooldownExpirationTimeStamp is baked with: zero, never in the future of a started game. */
  function BakedStamp(): (stamp: real)
    ensures stamp <= 0.0
  {
    0.0
  }

  // ---------------------------------------------------------------------
  // Nearest-hit selection
  // ---------------------------------------------------------------------

  /**
   * The running minimum after the given hits: the smallest squared xy
   * distance seen below float.MaxValue and the hit that first reached it,
   * or (float.MaxValue, zero) while no hit has beaten the start value.
   */
  function Nearest(spawn: Float3, hits: seq<Float3>): (r: (real, Float3))
    ensures r.0 <= FloatMax
  {
    if hits == [] then (FloatMax, Zero3)
    else
      var best := Nearest(spawn, AllButLast(hits));
      var d := DistanceSqXY(spawn, Last(hits));
      if d < best.0 then (d, Last(hits)) else best
  }

  /** Index `i` holds the first hit whose distance is the smallest of all. */
  ghost predicate FirstNearest(spawn: Float3, hits: seq<Float3>, i: nat)
  {
    && i < |hits|
    && (forall j :: 0 <= j < |hits| ==> DistanceSqXY(spawn, hits[i]) <= DistanceSqXY(spawn, hits[j]))
    && (forall j :: 0 <= j < i ==> DistanceSqXY(spawn, hits[i]) < DistanceSqXY(spawn, hits[j]))
  }

  /**
   * The running minimum is a lower bound on every hit's distance. If it is
   * below float.MaxValue it is the distance of the first nearest hit, and
   * that hit is the selected one; otherwise no hit came closer than
   * float.MaxValue and the selection is still the zero vector.
   */
  lemma {:induction false} NearestIsFirstMinimum(spawn: Float3, hits: seq<Float3>)
    ensures forall j :: 0 <= j < |hits| ==> Nearest(spawn, hits).0 <= DistanceSqXY(spawn, hits[j])
    ensures Nearest(spawn, hits).0 < FloatMax ==>
              exists i: nat :: FirstNearest(spawn, hits, i) && Nearest(spawn, hits) == (DistanceSqXY(spawn, hits[i]), hits[i])
    ensures Nearest(spawn, hits).0 == FloatMax ==> Nearest(spawn, hits).1 == Zero3
  {
    if hits != [] {
      var front := AllButLast(hits);
      var h := Last(hits);
      assert hits == front + [h];
      NearestIsFirstMinimum(spawn, front);
      var best := Nearest(spawn, front);
      var d := DistanceSqXY(spawn, h);
      if d < best.0 {
        assert FirstNearest(spawn, hits, |front|);
      } else if best.0 < FloatMax {
        var i: nat :| FirstNearest(spawn, front, i) && best == (DistanceSqXY(spawn, front[i]), front[i]);
        assert FirstNearest(spawn, hits, i);
      }
    }
  }

  /**
   * The selection loop of the system: a running minimum over the hits with
   * a strict `<`, starting from float.MaxValue and the zero vector.
   */
  method ClosestEnemyPosition(spawn: Float3, hits: seq<Float3>) returns (closest: Float3, minDistanceSq: real)
    ensures (minDistanceSq, closest) == Nearest(spawn, hits)
    ensures forall j :: 0 <= j < |hits| ==> minDistanceSq <= DistanceSqXY(spawn, hits[j])
    ensures minDistanceSq < FloatMax ==> exists i: nat :: FirstNearest(spawn, hits, i) && closest == hits[i]
  {
    minDistanceSq := FloatMax;
    closest := Zero3;
    var i := 0;
    while i < |hits|
      invariant 0 <= i <= |hits|
      invariant (minDistanceSq, closest) == Nearest(spawn, hits[..i])
    {
      assert AllButLast(hits[..i + 1]) == hits[..i];
      var distanceToPlayerSq := DistanceSqXY(spawn, hits[i]);
      if distanceToPlayerSq < minDistanceSq {
        minDistanceSq := distanceToPlayerSq;
        closest := hits[i];
      }
      i := i + 1;
    }
    assert hits[..i] == hits;
    NearestIsFirstMinimum(spawn, hits);
  }

  // ---------------------------------------------------------------------
  // One attacker in one frame
  // ---------------------------------------------------------------------

  /** The outcome for one attacker. */
  datatype Decision =
    | Gated                                         // the cooldown has not expired
    | NoTarget                                      // the overlap query found nothing
    | Attack(transform: LocalTransform, newStamp: real)

  /** The detection box: the position plus and minus DetectionSize. */
  function DetectionMin(position: Float3, data: PlayerAttackData): Float3
  {
    Sub(position, data.detectionSize)
  }

  function DetectionMax(position: Float3, data: PlayerAttackData): Float3
  {
    Add(position, data.detectionSize)
  }

  /** The orientation toward the selected hit: a z rotation by atan2(v.y, v.x). */
  function Facing(spawn: Float3, target: Float3): (r: Rotation)
    ensures r.EulerZAtan2? && r.y == target.y - spawn.y && r.x == target.x - spawn.x
  {
    var v := Sub(target, spawn);
    EulerZAtan2(v.y, v.x)
  }

  function Decide(stamp: real, data: PlayerAttackData, position: Float3, elapsed: real, overlap: OverlapQuery): (r: Decision)
    ensures r.Gated? <==> stamp > elapsed
    ensures r.NoTarget? <==>
              stamp <= elapsed && overlap(DetectionMin(position, data), DetectionMax(position, data), data.collisionFilter) == []
    ensures r.Attack? ==>
              var hits := overlap(DetectionMin(position, data), DetectionMax(position, data), data.collisionFilter);
              && r.transform == FromPositionRotation(position, Facing(position, Nearest(position, hits).1))
              && r.newStamp == elapsed + data.coolDownTime
  {
    if stamp > elapsed then Gated
    else
      var hits := overlap(DetectionMin(position, data), DetectionMax(position, data), data.collisionFilter);
      if hits == [] then NoTarget
      else Attack(FromPositionRotation(position, Facing(position, Nearest(position, hits).1)), elapsed + data.coolDownTime)
  }

  // ---------------------------------------------------------------------
  // The system update over every attacker
  // ---------------------------------------------------------------------

  /** The components PlayerAttackSystem reads and writes. */
  datatype Attackers = Attackers(
    stamps: map<Entity, real>,
    attackData: map<Entity, PlayerAttackData>,
    position: map<Entity, Float3>)

  function AttackersOf(w: World): Attackers
    reads w
  {
    Attackers(w.playerCooldown, w.playerAttackData, w.position)
  }

  /** The query matches entities that have all three components. */
  predicate Matches(v: Attackers, e: Entity)
  {
    e in v.stamps && e in v.attackData && e in v.position
  }

  function DecisionFor(v: Attackers, e: Entity, elapsed: real, overlap: OverlapQuery): Decision
    requires Matches(v, e)
  {
    Decide(v.stamps[e], v.attackData[e], v.position[e], elapsed, overlap)
  }

  /** The stamps after the frame: an attacker that attacked is re-stamped, every other stamp stays. */
  function NextStamps(v: Attackers, elapsed: real, overlap: OverlapQuery): (r: map<Entity, real>)
    ensures r.Keys == v.stamps.Keys
  {
    map e | e in v.stamps ::
      if Matches(v, e) && DecisionFor(v, e, elapsed, overlap).Attack?
      then DecisionFor(v, e, elapsed, overlap).newStamp
      else v.stamps[e]
  }

  /** The commands one attacker records; `slot` is the buffer length before them. */
  function AttackCommandsFor(v: Attackers, e: Entity, elapsed: real, overlap: OverlapQuery, slot: nat): seq<Command>
  {
    if Matches(v, e) then Recorded(DecisionFor(v, e, elapsed, overlap), v.attackData[e].attackPrefab, slot) else []
  }

  /** An attack records an instantiate of the attack prefab and the transform of that placeholder. */
  function Recorded(d: Decision, attackPrefab: Entity, slot: nat): seq<Command>
  {
    if d.Attack? then [InstantiateCmd(attackPrefab), SetTransformCmd(slot, d.transform)] else []
  }

  /** What the loop appends to the command buffer after visiting the first `n` entities. */
  function AttackCommands(v: Attackers, ents: seq<Entity>, n: nat, elapsed: real, overlap: OverlapQuery, base: nat): seq<Command>
    requires n <= |ents|
  {
    if n == 0 then []
    else
      var earlier := AttackCommands(v, ents, n - 1, elapsed, overlap, base);
      earlier + AttackCommandsFor(v, ents[n - 1], elapsed, overlap, base + |earlier|)
  }

  /**
   * PlayerAttackSystem.OnUpdate. The system writes only the stamps and the
   * begin-of-frame command buffer.
   */
  method OnUpdate(w: World, ecb: CommandBuffer, elapsed: real, overlap: OverlapQuery)
    requires w.Valid()
    modifies w`playerCooldown, ecb
    ensures w.Valid()
    ensures w.playerCooldown == NextStamps(old(AttackersOf(w)), elapsed, overlap)
    ensures ecb.commands == old(ecb.commands) +
              AttackCommands(old(AttackersOf(w)), w.entities, |w.entities|, elapsed, overlap, |old(ecb.commands)|)
  {
    ghost var v := AttackersOf(w);
    VisitAttackers(w, ecb, elapsed, overlap);
    assert forall e :: e in v.stamps ==> e in w.entities;
    UpdatedAll(v.stamps, NextStamps(v, elapsed, overlap), w.playerCooldown, w.entities);
  }

  /** The loop of PlayerAttackSystem.OnUpdate, over the entities in query order. */
  method VisitAttackers(w: World, ecb: CommandBuffer, elapsed: real, overlap: OverlapQuery)
    requires Distinct(w.entities)
    modifies w`playerCooldown, ecb
    ensures UpdatedUpTo(old(w.playerCooldown), NextStamps(old(AttackersOf(w)), elapsed, overlap),
                        w.playerCooldown, w.entities)
    ensures ecb.commands == old(ecb.commands) +
              AttackCommands(old(AttackersOf(w)), w.entities, |w.entities|, elapsed, overlap, |old(ecb.commands)|)
  {
    ghost var v := AttackersOf(w);
    ghost var after := NextStamps(v, elapsed, overlap);
    ghost var prefix := ecb.commands;
    var ents := w.entities;
    var base := |ecb.commands|;
    var i := 0;
    while i < |ents|
      invariant 0 <= i <= |ents|
      invariant w.playerAttackData == v.attackData && w.position == v.position
      invariant UpdatedUpTo(v.stamps, after, w.playerCooldown, ents[..i])
      invariant ecb.commands == prefix + AttackCommands(v, ents, i, elapsed, overlap, base)
    {
      VisitAttacker(w, ecb, v, ents, i, elapsed, overlap, prefix, base);
      i := i + 1;
    }
    assert ents[..i] == ents;
  }

  /**
   * One iteration of the loop: entity `ents[i]` is visited, so its stamp
   * takes its new value and its commands are appended.
   */
  method VisitAttacker(w: World, ecb: CommandBuffer, ghost v: Attackers, ents: seq<Entity>, i: nat,
                       elapsed: real, overlap: OverlapQuery, ghost prefix: seq<Command>, base: nat)
    requires i < |ents| && Distinct(ents)
    requires w.playerAttackData == v.attackData && w.position == v.position
    requires UpdatedUpTo(v.stamps, NextStamps(v, elapsed, overlap), w.playerCooldown, ents[..i])
    requires ecb.commands == prefix + AttackCommands(v, ents, i, elapsed, overlap, base)
    requires |prefix| == base
    modifies w`playerCooldown, ecb
    ensures UpdatedUpTo(v.stamps, NextStamps(v, elapsed, overlap), w.playerCooldown, ents[..i + 1])
    ensures ecb.commands == prefix + AttackCommands(v, ents, i + 1, elapsed, overlap, base)
  {
    var e := ents[i];
    ghost var after := NextStamps(v, elapsed, overlap);
    ghost var earlier := AttackCommands(v, ents, i, elapsed, overlap, base);
    ghost var recorded := AttackCommandsFor(v, e, elapsed, overlap, base + |earlier|);
    AttackCommandsStep(v, ents, i, elapsed, overlap, base);
    VisitedStep(v.stamps, after, w.playerCooldown, ents, i);
    if e in w.playerCooldown && e in w.playerAttackData && e in w.position {
      var attackData := w.playerAttackData[e];
      var spawnPosition := w.position[e];
      ghost var pending := ecb.commands;
      ghost var d := Decide(w.playerCooldown[e], attackData, spawnPosition, elapsed, overlap);
      assert recorded == Recorded(d, attackData.attackPrefab, |pending|);
      assert after[e] == if d.Attack? then d.newStamp else v.stamps[e];
      AttackOne(w, ecb, e, attackData, spawnPosition, elapsed, overlap);
      assert ecb.commands == pending + recorded;
      ConcatAssoc(prefix, earlier, recorded);
      assert ecb.commands == prefix + (earlier + recorded);
    } else {
      assert e in v.stamps ==> after[e] == v.stamps[e];
      assert recorded == [];
      assert earlier + recorded == earlier;
    }
  }

  /** Unfolding `AttackCommands` by one entity of the query order. */
  lemma AttackCommandsStep(v: Attackers, ents: seq<Entity>, i: nat, elapsed: real, overlap: OverlapQuery, base: nat)
    requires i < |ents|
    ensures var earlier := AttackCommands(v, ents, i, elapsed, overlap, base);
            AttackCommands(v, ents, i + 1, elapsed, overlap, base) ==
              earlier + AttackCommandsFor(v, ents[i], elapsed, overlap, base + |earlier|)
  {
  }

  /**
   * The body of the system's loop for attacker `e`, whose PlayerAttackData
   * and position the query hands over by value.
   */
  method AttackOne(w: World, ecb: CommandBuffer, e: Entity, attackData: PlayerAttackData, spawnPosition: Float3,
                   elapsed: real, overlap: OverlapQuery)
    requires e in w.playerCooldown
    modifies w`playerCooldown, ecb
    ensures var d := Decide(old(w.playerCooldown[e]), attackData, spawnPosition, elapsed, overlap);
            && w.playerCooldown == (if d.Attack? then old(w.playerCooldown)[e := d.newStamp] else old(w.playerCooldown))
            && ecb.commands == old(ecb.commands) + Recorded(d, attackData.attackPrefab, |old(ecb.commands)|)
  {
    if w.playerCooldown[e] > elapsed {
      return;
    }
    var minDetectPosition := Sub(spawnPosition, attackData.detectionSize);
    var maxDetectPosition := Add(spawnPosition, attackData.detectionSize);
    var overlapHits := overlap(minDetectPosition, maxDetectPosition, attackData.collisionFilter);
    if overlapHits == [] {
      return;
    }
    var closestEnemyPosition, _ := ClosestEnemyPosition(spawnPosition, overlapHits);
    var vectorToClosestEnemy := Sub(closestEnemyPosition, spawnPosition);
    var spawnOrientation := EulerZAtan2(vectorToClosestEnemy.y, vectorToClosestEnemy.x);

    var newAttack := ecb.Instantiate(attackData.attackPrefab);
    ecb.SetComponent(newAttack, FromPositionRotation(spawnPosition, spawnOrientation));

    w.playerCooldown := w.playerCooldown[e := elapsed + attackData.coolDownTime];
  }

  // ---------------------------------------------------------------------
  // Properties
  // ---------------------------------------------------------------------

  /**
   * A visited entity records commands exactly when it attacks: one
   * instantiate of its attack prefab, then the transform of that
   * placeholder, at the entity's own position and facing the nearest hit.
   */
  lemma AttackRecordsOnePair(v: Attackers, e: Entity, elapsed: real, overlap: OverlapQuery, slot: nat)
    ensures var r := AttackCommandsFor(v, e, elapsed, overlap, slot);
            && (r != [] <==> Matches(v, e) && DecisionFor(v, e, elapsed, overlap).Attack?)
            && (r != [] ==>
                  var hits := overlap(DetectionMin(v.position[e], v.attackData[e]),
                                      DetectionMax(v.position[e], v.attackData[e]), v.attackData[e].collisionFilter);
                  r == [InstantiateCmd(v.attackData[e].attackPrefab),
                        SetTransformCmd(slot, FromPositionRotation(v.position[e], Facing(v.position[e], Nearest(v.position[e], hits).1)))])
  {
  }

  /** With the baked stamp the gate is open on every frame whose elapsed time is not negative. */
  lemma BakedStampOpensGate(data: PlayerAttackData, position: Float3, elapsed: real, overlap: OverlapQuery)
    requires elapsed >= 0.0
    ensures !Decide(BakedStamp(), data, position, elapsed, overlap).Gated?
  {
  }

  /**
   * A nearer hit reported later replaces an earlier one, and a hit at the
   * same distance as the selected one does not: with the player at the
   * origin and hits at (5, 0) and (3, 0) the attack faces (3, 0); with hits
   * at (3, 0) and (0, 3) it faces the first.
   */
  lemma NearestExamples()
    ensures Nearest(Zero3, [Float3(5.0, 0.0, 0.0), Float3(3.0, 0.0, 0.0)]) == (9.0, Float3(3.0, 0.0, 0.0))
    ensures Nearest(Zero3, [Float3(3.0, 0.0, 0.0), Float3(0.0, 3.0, 0.0)]) == (9.0, Float3(3.0, 0.0, 0.0))
  {
    assert AllButLast([Float3(5.0, 0.0, 0.0), Float3(3.0, 0.0, 0.0)]) == [Float3(5.0, 0.0, 0.0)];
    assert AllButLast([Float3(3.0, 0.0, 0.0), Float3(0.0, 3.0, 0.0)]) == [Float3(3.0, 0.0, 0.0)];
    assert AllButLast([Float3(5.0, 0.0, 0.0)]) == [];
    assert AllButLast([Float3(3.0, 0.0, 0.0)]) == [];
  }

  /**
   * An attack happens only when the gate is open and the query found
   * something; then the cooldown is pushed to elapsed + CoolDownTime, and a
   * positive cooldown closes the gate for the rest of this frame.
   */
  lemma AttackClosesGate(stamp: real, data: PlayerAttackData, position: Float3, elapsed: real, overlap: OverlapQuery)
    requires data.coolDownTime > 0.0
    requires Decide(stamp, data, position, elapsed, overlap).Attack?
    ensures Decide(Decide(stamp, data, position, elapsed, overlap).newStamp, data, position, elapsed, overlap).Gated?
  {
  }
}
