/**
 * PlasmaBlastAttackSystem: a plasma blast that overlaps an enemy appends its
 * damage to the enemy's buffer and requests its own destruction by enabling
 * its DestroyEntityFlag. There is no cooldown.
 *
 * The job's classification is two independent tests, the second with an
 * `else return`, so only the ordering "B is the blast, A is the enemy" has
 * any effect; `Step` models that, and `StepExclusive` the if/else-if
 * classification the other combat job uses.
 */
module PlasmaBlast {
  import opened Ecs

  /** A physics trigger event: two entities, in no particular order. */
  datatype TriggerEvent = TriggerEvent(entityA: Entity, entityB: Entity)

  /** The components PlasmaBlastAttackSystem reads (blastData, enemies) and writes. */
  datatype Blasts = Blasts(
    blastData: map<Entity, PlasmaBlastData>,
    enemies: set<Entity>,
    damage: map<Entity, seq<int>>,
    destroyFlag: map<Entity, bool>)

  /** Every lookup the job makes succeeds. */
  predicate Ready(s: Blasts)
  {
    s.blastData.Keys <= s.destroyFlag.Keys && s.enemies <= s.damage.Keys
  }

  function BlastsOf(w: World): Blasts
    reads w
  {
    Blasts(w.plasmaBlastData, w.enemyTag, w.damageThisFrame, w.destroyEntityFlag)
  }

  /** The DestroyEntityFlag enable bit a freshly baked blast carries. */
  function BakedDestroyFlag(): (enabled: bool)
    ensures !enabled
  {
    false
  }

  /**
   * The (blast, enemy) pair the job acts on, as written: whatever the first
   * test found, the second test alone decides.
   */
  function Classify(s: Blasts, ev: TriggerEvent): (r: Option<(Entity, Entity)>)
    ensures r.Some? ==> r.value.0 in s.blastData && r.value.1 in s.enemies
    ensures r.Some? ==> r.value == (ev.entityB, ev.entityA)
    ensures r.None? <==> !(ev.entityB in s.blastData && ev.entityA in s.enemies)
  {
    if ev.entityB in s.blastData && ev.entityA in s.enemies then Some((ev.entityB, ev.entityA)) else None
  }

  /**
   * The (blast, enemy) pair with mutually exclusive classification: "A is
   * the blast" first, else "B is the blast".
   */
  function ClassifyExclusive(s: Blasts, ev: TriggerEvent): (r: Option<(Entity, Entity)>)
    ensures r.Some? ==> r.value.0 in s.blastData && r.value.1 in s.enemies
    ensures r.Some? ==> r.value == (ev.entityA, ev.entityB) || r.value == (ev.entityB, ev.entityA)
    ensures r.None? <==>
              !(ev.entityA in s.blastData && ev.entityB in s.enemies) &&
              !(ev.entityB in s.blastData && ev.entityA in s.enemies)
  {
    if ev.entityA in s.blastData && ev.entityB in s.enemies then Some((ev.entityA, ev.entityB))
    else if ev.entityB in s.blastData && ev.entityA in s.enemies then Some((ev.entityB, ev.entityA))
    else None
  }

  /**
   * `r` is `s` after blast `b` hit enemy `e`: one record of the blast's
   * damage appended to the enemy's buffer, the blast's destroy flag enabled,
   * and no other buffer or flag touched.
   */
  ghost predicate HitRecorded(s: Blasts, r: Blasts, b: Entity, e: Entity)
    requires b in s.blastData && e in s.damage
  {
    && r.blastData == s.blastData && r.enemies == s.enemies
    && r.damage.Keys == s.damage.Keys && r.destroyFlag.Keys == s.destroyFlag.Keys + {b}
    && r.damage[e] == s.damage[e] + [s.blastData[b].attackDamage]
    && r.destroyFlag[b]
    && (forall x :: x in s.damage && x != e ==> r.damage[x] == s.damage[x])
    && (forall x :: x in s.destroyFlag && x != b ==> r.destroyFlag[x] == s.destroyFlag[x])
  }

  /** The effect of a classified hit. */
  function Hit(s: Blasts, b: Entity, e: Entity): (r: Blasts)
    requires Ready(s) && b in s.blastData && e in s.enemies
    ensures Ready(r) && HitRecorded(s, r, b, e)
  {
    s.(damage := s.damage[e := s.damage[e] + [s.blastData[b].attackDamage]],
       destroyFlag := s.destroyFlag[b := true])
  }

  /** PlasmaBlastAttackJob.Execute on one event, as written. */
  function Step(s: Blasts, ev: TriggerEvent): (r: Blasts)
    requires Ready(s)
    ensures Ready(r)
    ensures Classify(s, ev).None? ==> r == s
    ensures Classify(s, ev).Some? ==> HitRecorded(s, r, ev.entityB, ev.entityA)
  {
    match Classify(s, ev)
    case None => s
    case Some((b, e)) => Hit(s, b, e)
  }

  /** One event with mutually exclusive classification. */
  function StepExclusive(s: Blasts, ev: TriggerEvent): (r: Blasts)
    requires Ready(s)
    ensures Ready(r)
    ensures ClassifyExclusive(s, ev).None? ==> r == s
    ensures ClassifyExclusive(s, ev).Some? ==>
              HitRecorded(s, r, ClassifyExclusive(s, ev).value.0, ClassifyExclusive(s, ev).value.1)
  {
    match ClassifyExclusive(s, ev)
    case None => s
    case Some((b, e)) => Hit(s, b, e)
  }

  method Execute(w: World, ev: TriggerEvent)
    requires w.Valid()
    modifies w`damageThisFrame, w`destroyEntityFlag
    ensures w.Valid()
    ensures BlastsOf(w) == Step(old(BlastsOf(w)), ev)
  {
    var plasmaBlastEntity: Entity, enemyEntity: Entity;
    if ev.entityA in w.plasmaBlastData && ev.entityB in w.enemyTag {
      plasmaBlastEntity, enemyEntity := ev.entityA, ev.entityB;
    }
    if ev.entityB in w.plasmaBlastData && ev.entityA in w.enemyTag {
      plasmaBlastEntity, enemyEntity := ev.entityB, ev.entityA;
    } else {
      return;
    }

    var attackDamage := w.plasmaBlastData[plasmaBlastEntity].attackDamage;
    w.damageThisFrame := w.damageThisFrame[enemyEntity := w.damageThisFrame[enemyEntity] + [attackDamage]];
    w.destroyEntityFlag := w.destroyEntityFlag[plasmaBlastEntity := true];
  }

  /** The handler with the classification written as if / else if. */
  method ExecuteExclusive(w: World, ev: TriggerEvent)
    requires w.Valid()
    modifies w`damageThisFrame, w`destroyEntityFlag
    ensures w.Valid()
    ensures BlastsOf(w) == StepExclusive(old(BlastsOf(w)), ev)
  {
    var plasmaBlastEntity: Entity, enemyEntity: Entity;
    if ev.entityA in w.plasmaBlastData && ev.entityB in w.enemyTag {
      plasmaBlastEntity, enemyEntity := ev.entityA, ev.entityB;
    } else if ev.entityB in w.plasmaBlastData && ev.entityA in w.enemyTag {
      plasmaBlastEntity, enemyEntity := ev.entityB, ev.entityA;
    } else {
      return;
    }

    var attackDamage := w.plasmaBlastData[plasmaBlastEntity].attackDamage;
    w.damageThisFrame := w.damageThisFrame[enemyEntity := w.damageThisFrame[enemyEntity] + [attackDamage]];
    w.destroyEntityFlag := w.destroyEntityFlag[plasmaBlastEntity := true];
  }

  // ---------------------------------------------------------------------
  // Properties of one event
  // ---------------------------------------------------------------------

  /**
   * The asymmetry of the as-written job: with the blast on side A and the
   * enemy on side B the event is dropped, while the swapped event hits.
   */
  lemma OrderingMatters(s: Blasts, blast: Entity, enemy: Entity)
    requires Ready(s) && blast in s.blastData && enemy in s.enemies
    requires !(enemy in s.blastData && blast in s.enemies)
    ensures Step(s, TriggerEvent(blast, enemy)) == s
    ensures HitRecorded(s, Step(s, TriggerEvent(enemy, blast)), blast, enemy)
  {
  }

  /** A concrete event the as-written job drops although it names a blast and an enemy. */
  lemma BlastOnSideADropped()
    ensures var s := Blasts(map[1 := PlasmaBlastData(1.0, 7)], {2}, map[2 := []], map[1 := false]);
            && ClassifyExclusive(s, TriggerEvent(1, 2)) == Some((1, 2))
            && Step(s, TriggerEvent(1, 2)) == s
            && StepExclusive(s, TriggerEvent(1, 2)).damage[2] == [7]
  {
  }

  /** With exclusive classification both orderings of an event have the same effect. */
  lemma ExclusiveSymmetric(s: Blasts, a: Entity, b: Entity)
    requires Ready(s)
    requires !(a in s.blastData && b in s.enemies && b in s.blastData && a in s.enemies)
    ensures StepExclusive(s, TriggerEvent(a, b)) == StepExclusive(s, TriggerEvent(b, a))
  {
  }

  /** The exclusive classification only adds the dropped ordering: where the as-written job hits, it agrees. */
  lemma ExclusiveExtendsAsWritten(s: Blasts, ev: TriggerEvent)
    requires Ready(s) && Classify(s, ev).Some?
    requires !(ev.entityA in s.blastData && ev.entityB in s.enemies)
    ensures StepExclusive(s, ev) == Step(s, ev)
  {
  }

  /** No gating: the same event twice appends the blast's damage twice. */
  lemma RepeatedHitsAccumulate(s: Blasts, ev: TriggerEvent)
    requires Ready(s) && Classify(s, ev).Some?
    ensures var d := s.blastData[ev.entityB].attackDamage;
            Step(Step(s, ev), ev).damage[ev.entityA] == s.damage[ev.entityA] + [d, d]
    ensures Step(Step(s, ev), ev).destroyFlag == Step(s, ev).destroyFlag
  {
  }

  // ---------------------------------------------------------------------
  // The job over a frame's events
  // ---------------------------------------------------------------------

  /** PlasmaBlastAttackJob run over `events` in order. */
  function Job(s: Blasts, events: seq<TriggerEvent>): (r: Blasts)
    requires Ready(s)
    ensures Ready(r)
    ensures r.blastData == s.blastData && r.enemies == s.enemies
    ensures r.damage.Keys == s.damage.Keys && r.destroyFlag.Keys == s.destroyFlag.Keys
    decreases |events|
  {
    if events == [] then s else Step(Job(s, AllButLast(events)), Last(events))
  }

  /** The (blast, enemy) pairs of the events that hit, in event order. */
  function Hits(s: Blasts, events: seq<TriggerEvent>): (log: seq<(Entity, Entity)>)
    ensures forall i :: 0 <= i < |log| ==> log[i].0 in s.blastData && log[i].1 in s.enemies
    decreases |events|
  {
    if events == [] then []
    else Hits(s, AllButLast(events)) +
           match Classify(s, Last(events)) case None => [] case Some(be) => [be]
  }

  /** The records the hits append to enemy `e`'s buffer, in order. */
  function DamageTo(e: Entity, log: seq<(Entity, Entity)>, blastData: map<Entity, PlasmaBlastData>): seq<int>
    requires forall i :: 0 <= i < |log| ==> log[i].0 in blastData
  {
    if log == [] then []
    else DamageTo(e, AllButLast(log), blastData) +
           if Last(log).1 == e then [blastData[Last(log).0].attackDamage] else []
  }

  /** Each enemy's buffer grows by exactly the damage of the blasts that hit it, in order. */
  lemma {:induction false} JobDamage(s: Blasts, events: seq<TriggerEvent>, e: Entity)
    requires Ready(s) && e in s.damage
    ensures Job(s, events).damage[e] == s.damage[e] + DamageTo(e, Hits(s, events), s.blastData)
    decreases |events|
  {
    if events != [] {
      var front := AllButLast(events);
      JobDamage(s, front, e);
      var log := Hits(s, events);
      assert Job(s, front).blastData == s.blastData && Job(s, front).enemies == s.enemies;
      match Classify(s, Last(events))
      case None =>
        assert log == Hits(s, front);
      case Some(be) =>
        assert log == Hits(s, front) + [be];
        assert AllButLast(log) == Hits(s, front);
    }
  }

  /**
   * A blast's destroy flag is enabled after the job exactly when it was
   * enabled before or the blast hit some enemy: the flag never goes back.
   */
  lemma {:induction false} JobDestroyFlags(s: Blasts, events: seq<TriggerEvent>, b: Entity)
    requires Ready(s) && b in s.destroyFlag
    ensures Job(s, events).destroyFlag[b] <==>
              s.destroyFlag[b] || exists i :: 0 <= i < |Hits(s, events)| && Hits(s, events)[i].0 == b
    decreases |events|
  {
    if events != [] {
      var front := AllButLast(events);
      JobDestroyFlags(s, front, b);
      var log := Hits(s, events);
      var earlier := Hits(s, front);
      assert Job(s, front).blastData == s.blastData && Job(s, front).enemies == s.enemies;
      match Classify(s, Last(events))
      case None =>
        assert log == earlier;
      case Some(be) =>
        assert log == earlier + [be];
        var prior := Job(s, front);
        assert Job(s, events).destroyFlag[b] == (prior.destroyFlag[b] || be.0 == b);
        assert (exists i :: 0 <= i < |log| && log[i].0 == b) <==>
               (exists i :: 0 <= i < |earlier| && earlier[i].0 == b) || be.0 == b
        by {
          if exists i :: 0 <= i < |log| && log[i].0 == b {
            var i :| 0 <= i < |log| && log[i].0 == b;
            if i < |earlier| {
              assert earlier[i].0 == b;
            }
          }
          if exists i :: 0 <= i < |earlier| && earlier[i].0 == b {
            var i :| 0 <= i < |earlier| && earlier[i].0 == b;
            assert log[i].0 == b;
          }
          if be.0 == b {
            assert log[|earlier|].0 == b;
          }
        }
    }
  }

  /**
   * A blast still carrying the flag it was baked with is marked for
   * destruction by the job exactly when it hit an enemy.
   */
  lemma BakedBlastDestroyedIffHit(s: Blasts, events: seq<TriggerEvent>, b: Entity)
    requires Ready(s) && b in s.destroyFlag && s.destroyFlag[b] == BakedDestroyFlag()
    ensures Job(s, events).destroyFlag[b] <==> exists i :: 0 <= i < |Hits(s, events)| && Hits(s, events)[i].0 == b
  {
    JobDestroyFlags(s, events, b);
  }

  /** PlasmaBlastAttackSystem.OnUpdate: the job over the frame's trigger events. */
  method OnUpdate(w: World, events: seq<TriggerEvent>)
    requires w.Valid()
    modifies w`damageThisFrame, w`destroyEntityFlag
    ensures w.Valid()
    ensures BlastsOf(w) == Job(old(BlastsOf(w)), events)
  {
    ghost var start := BlastsOf(w);
    var i := 0;
    while i < |events|
      invariant 0 <= i <= |events|
      invariant w.Valid()
      invariant BlastsOf(w) == Job(start, events[..i])
    {
      Execute(w, events[i]);
      assert AllButLast(events[..i + 1]) == events[..i];
      i := i + 1;
    }
    assert events[..i] == events;
  }
}
