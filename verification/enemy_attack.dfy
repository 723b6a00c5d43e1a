/**
 * EnemyAttackSystem: an enemy touching the player deals its damage once,
 * then stays in a refractory period until its cooldown stamp expires.
 *
 * Each frame the system first clears the cooldown flag of every enemy whose
 * stamp is no longer in the future, then runs EnemyAttackJob over the
 * frame's collision events, one after the other.
 */
module EnemyAttack {
  import opened Ecs

  /** A physics collision event: two entities, in no particular order. */
  datatype CollisionEvent = CollisionEvent(entityA: Entity, entityB: Entity)

  /** The components EnemyAttackSystem reads (players, attackData) and writes. */
  datatype Combat = Combat(
    players: set<Entity>,
    attackData: map<Entity, EnemyAttackData>,
    cooldown: map<Entity, CooldownStamp>,
    damage: map<Entity, seq<int>>)

  /** Every lookup the job makes succeeds. */
  predicate Ready(s: Combat)
  {
    s.attackData.Keys <= s.cooldown.Keys && s.players <= s.damage.Keys
  }

  function CombatOf(w: World): Combat
    reads w
  {
    Combat(w.playerTag, w.enemyAttackData, w.enemyCooldown, w.damageThisFrame)
  }

  /** The stamp a freshly baked enemy carries: default value, flag disabled. */
  function BakedCooldown(): (c: CooldownStamp)
    ensures !c.enabled
  {
    CooldownStamp(0.0, false)
  }

  // ---------------------------------------------------------------------
  // Cooldown expiry
  // ---------------------------------------------------------------------

  /** The cooldown map after the expiry pass at time `elapsed`. */
  function Expire(cooldown: map<Entity, CooldownStamp>, elapsed: real): (r: map<Entity, CooldownStamp>)
    ensures r.Keys == cooldown.Keys
    ensures forall e :: e in cooldown && cooldown[e].value <= elapsed ==>
              !r[e].enabled && r[e].value == cooldown[e].value
    ensures forall e :: e in cooldown && cooldown[e].value > elapsed ==> r[e] == cooldown[e]
  {
    map e | e in cooldown :: if cooldown[e].value > elapsed then cooldown[e] else cooldown[e].(enabled := false)
  }

  /** The foreach over every enemy cooldown stamp in EnemyAttackSystem.OnUpdate. */
  method ExpireCooldowns(w: World, elapsed: real)
    requires w.Valid()
    modifies w`enemyCooldown
    ensures w.Valid()
    ensures w.enemyCooldown == Expire(old(w.enemyCooldown), elapsed)
  {
    ghost var before := w.enemyCooldown;
    ghost var after := Expire(before, elapsed);
    var ents := w.entities;
    var i := 0;
    while i < |ents|
      invariant 0 <= i <= |ents|
      invariant UpdatedUpTo(before, after, w.enemyCooldown, ents[..i])
    {
      var e := ents[i];
      VisitedStep(before, after, w.enemyCooldown, ents, i);
      if e in w.enemyCooldown {
        if w.enemyCooldown[e].value <= elapsed {
          w.enemyCooldown := w.enemyCooldown[e := w.enemyCooldown[e].(enabled := false)];
        }
      }
      i := i + 1;
    }
    assert ents[..i] == ents;
    assert forall e :: e in before ==> e in ents;
    UpdatedAll(before, after, w.enemyCooldown, ents);
  }

  // ---------------------------------------------------------------------
  // One collision event
  // ---------------------------------------------------------------------

  /**
   * The (player, enemy) pair an event names: the player carries PlayerTag,
   * the enemy EnemyAttackData; "A is the player" is tried first.
   */
  function Classify(s: Combat, ev: CollisionEvent): (r: Option<(Entity, Entity)>)
    ensures r.Some? ==> r.value.0 in s.players && r.value.1 in s.attackData
    ensures r.Some? ==> r.value == (ev.entityA, ev.entityB) || r.value == (ev.entityB, ev.entityA)
    ensures r.None? <==>
              !(ev.entityA in s.players && ev.entityB in s.attackData) &&
              !(ev.entityB in s.players && ev.entityA in s.attackData)
    ensures ev.entityA in s.players && ev.entityB in s.attackData ==> r == Some((ev.entityA, ev.entityB))
  {
    if ev.entityA in s.players && ev.entityB in s.attackData then Some((ev.entityA, ev.entityB))
    else if ev.entityB in s.players && ev.entityA in s.attackData then Some((ev.entityB, ev.entityA))
    else None
  }

  /** The pair whose attack lands: classified, and the enemy not cooling down. */
  function Landing(s: Combat, ev: CollisionEvent): (r: Option<(Entity, Entity)>)
    requires Ready(s)
    ensures r.Some? <==> Classify(s, ev).Some? && !s.cooldown[Classify(s, ev).value.1].enabled
    ensures r.Some? ==> r == Classify(s, ev)
  {
    match Classify(s, ev)
    case None => None
    case Some((p, e)) => if s.cooldown[e].enabled then None else Some((p, e))
  }

  /**
   * `r` is `s` after enemy `e` hit player `p` at time `elapsed`: a new stamp,
   * the flag enabled, one record appended to the player's buffer, and no
   * other stamp, flag or buffer touched.
   */
  ghost predicate HitRecorded(s: Combat, r: Combat, p: Entity, e: Entity, elapsed: real)
    requires p in s.damage && e in s.attackData
  {
    && r.players == s.players && r.attackData == s.attackData
    && r.cooldown.Keys == s.cooldown.Keys + {e} && r.damage.Keys == s.damage.Keys
    && r.cooldown[e] == CooldownStamp(elapsed + s.attackData[e].coolDownTime, true)
    && r.damage[p] == s.damage[p] + [s.attackData[e].hitPoints]
    && (forall x :: x in s.cooldown && x != e ==> r.cooldown[x] == s.cooldown[x])
    && (forall x :: x in s.damage && x != p ==> r.damage[x] == s.damage[x])
  }

  /** EnemyAttackJob.Execute on one event. */
  function Step(s: Combat, ev: CollisionEvent, elapsed: real): (r: Combat)
    requires Ready(s)
    ensures Ready(r)
    ensures Classify(s, ev).None? ==> r == s
    ensures Classify(s, ev).Some? && s.cooldown[Classify(s, ev).value.1].enabled ==> r == s
    ensures Landing(s, ev).Some? ==> HitRecorded(s, r, Landing(s, ev).value.0, Landing(s, ev).value.1, elapsed)
  {
    match Landing(s, ev)
    case None => s
    case Some((p, e)) =>
      var data := s.attackData[e];
      s.(cooldown := s.cooldown[e := CooldownStamp(elapsed + data.coolDownTime, true)],
         damage := s.damage[p := s.damage[p] + [data.hitPoints]])
  }

  method Execute(w: World, ev: CollisionEvent, elapsed: real)
    requires w.Valid()
    modifies w`enemyCooldown, w`damageThisFrame
    ensures w.Valid()
    ensures CombatOf(w) == Step(old(CombatOf(w)), ev, elapsed)
  {
    ghost var s := CombatOf(w);
    var playerEntity, enemyEntity;
    if ev.entityA in w.playerTag && ev.entityB in w.enemyAttackData {
      playerEntity, enemyEntity := ev.entityA, ev.entityB;
    } else if ev.entityB in w.playerTag && ev.entityA in w.enemyAttackData {
      playerEntity, enemyEntity := ev.entityB, ev.entityA;
    } else {
      return;
    }

    if w.enemyCooldown[enemyEntity].enabled {
      return;
    }

    assert Landing(s, ev) == Some((playerEntity, enemyEntity));
    LandHit(w, playerEntity, enemyEntity, elapsed);
  }

  /** The writes of a landing hit: the enemy's new stamp and flag, then the player's damage record. */
  method LandHit(w: World, playerEntity: Entity, enemyEntity: Entity, elapsed: real)
    requires w.Valid() && playerEntity in w.playerTag && enemyEntity in w.enemyAttackData
    modifies w`enemyCooldown, w`damageThisFrame
    ensures w.Valid()
    ensures w.enemyCooldown == old(w.enemyCooldown)[enemyEntity :=
              CooldownStamp(elapsed + w.enemyAttackData[enemyEntity].coolDownTime, true)]
    ensures w.damageThisFrame == old(w.damageThisFrame)[playerEntity :=
              old(w.damageThisFrame[playerEntity]) + [w.enemyAttackData[enemyEntity].hitPoints]]
  {
    var attackData := w.enemyAttackData[enemyEntity];
    // the stamp's value is written first, its enable bit second
    w.enemyCooldown := w.enemyCooldown[enemyEntity := w.enemyCooldown[enemyEntity].(value := elapsed + attackData.coolDownTime)];
    w.enemyCooldown := w.enemyCooldown[enemyEntity := w.enemyCooldown[enemyEntity].(enabled := true)];
    w.damageThisFrame := w.damageThisFrame[playerEntity := w.damageThisFrame[playerEntity] + [attackData.hitPoints]];
  }

  // ---------------------------------------------------------------------
  // The job over a frame's events, and the whole system update
  // ---------------------------------------------------------------------

  /** EnemyAttackJob run over `events` in order. */
  function Job(s: Combat, events: seq<CollisionEvent>, elapsed: real): (r: Combat)
    requires Ready(s)
    ensures Ready(r)
    ensures r.players == s.players && r.attackData == s.attackData
    ensures r.cooldown.Keys == s.cooldown.Keys && r.damage.Keys == s.damage.Keys
    decreases |events|
  {
    if events == [] then s else Step(Job(s, AllButLast(events), elapsed), Last(events), elapsed)
  }

  /** The (player, enemy) pairs whose attacks landed, in event order. */
  function Hits(s: Combat, events: seq<CollisionEvent>, elapsed: real): (log: seq<(Entity, Entity)>)
    requires Ready(s)
    decreases |events|
  {
    if events == [] then []
    else
      var prior := Job(s, AllButLast(events), elapsed);
      Hits(s, AllButLast(events), elapsed) +
        match Landing(prior, Last(events)) case None => [] case Some(pe) => [pe]
  }

  /** The records the landed hits append to player `p`'s buffer, in order. */
  function DamageTo(p: Entity, log: seq<(Entity, Entity)>, attackData: map<Entity, EnemyAttackData>): seq<int>
    requires forall i :: 0 <= i < |log| ==> log[i].1 in attackData
  {
    if log == [] then []
    else DamageTo(p, AllButLast(log), attackData) +
           if Last(log).0 == p then [attackData[Last(log).1].hitPoints] else []
  }

  /**
   * Every landed hit names a player and an enemy, the enemy's flag was clear
   * when the frame's events began, and it is set afterwards.
   */
  lemma {:induction false} HitsAreFlagged(s: Combat, events: seq<CollisionEvent>, elapsed: real)
    requires Ready(s)
    ensures forall i :: 0 <= i < |Hits(s, events, elapsed)| ==>
              var pe := Hits(s, events, elapsed)[i];
              && pe.0 in s.players && pe.1 in s.attackData
              && !s.cooldown[pe.1].enabled
              && Job(s, events, elapsed).cooldown[pe.1].enabled
    decreases |events|
  {
    if events != [] {
      var front := AllButLast(events);
      HitsAreFlagged(s, front, elapsed);
      var prior := Job(s, front, elapsed);
      var log := Hits(s, events, elapsed);
      var now := Job(s, events, elapsed);
      assert now == Step(prior, Last(events), elapsed);
      forall i | 0 <= i < |log|
        ensures var pe := log[i];
                && pe.0 in s.players && pe.1 in s.attackData
                && !s.cooldown[pe.1].enabled
                && now.cooldown[pe.1].enabled
      {
        var pe := log[i];
        if i < |Hits(s, front, elapsed)| {
          assert pe == Hits(s, front, elapsed)[i];
          assert prior.cooldown[pe.1].enabled;
          match Landing(prior, Last(events))
          case None =>
          case Some((p, e)) =>
            // a landing enemy was clear, so it is not a hitter already flagged
            assert e != pe.1;
        } else {
          assert Landing(prior, Last(events)) == Some(pe);
          PriorFlagsClear(s, front, elapsed, pe.1);
        }
      }
    }
  }

  /** An enemy whose flag is clear mid-frame was clear at the start of the frame. */
  lemma {:induction false} PriorFlagsClear(s: Combat, events: seq<CollisionEvent>, elapsed: real, e: Entity)
    requires Ready(s)
    requires e in s.cooldown && !Job(s, events, elapsed).cooldown[e].enabled
    ensures !s.cooldown[e].enabled
    decreases |events|
  {
    if events != [] {
      var front := AllButLast(events);
      var prior := Job(s, front, elapsed);
      match Landing(prior, Last(events))
      case None =>
        PriorFlagsClear(s, front, elapsed, e);
      case Some((p, x)) =>
        assert x != e;
        PriorFlagsClear(s, front, elapsed, e);
    }
  }

  /**
   * At most one damage record per enemy per frame: no enemy appears twice
   * among the landed hits, because the first hit sets the flag that gates
   * every later event of the frame.
   */
  lemma {:induction false} OneHitPerEnemy(s: Combat, events: seq<CollisionEvent>, elapsed: real)
    requires Ready(s)
    ensures forall i, j :: 0 <= i < j < |Hits(s, events, elapsed)| ==>
              Hits(s, events, elapsed)[i].1 != Hits(s, events, elapsed)[j].1
    decreases |events|
  {
    if events != [] {
      var front := AllButLast(events);
      OneHitPerEnemy(s, front, elapsed);
      HitsAreFlagged(s, front, elapsed);
      var prior := Job(s, front, elapsed);
      var earlier := Hits(s, front, elapsed);
      var log := Hits(s, events, elapsed);
      forall i, j | 0 <= i < j < |log| ensures log[i].1 != log[j].1 {
        if j >= |earlier| {
          assert Landing(prior, Last(events)) == Some(log[j]);
          assert log[i] == earlier[i];
          assert prior.cooldown[earlier[i].1].enabled;
        } else {
          assert log[i] == earlier[i] && log[j] == earlier[j];
        }
      }
    }
  }

  /** Each player's buffer grows by exactly the damage of the hits on it, in order. */
  lemma {:induction false} JobDamage(s: Combat, events: seq<CollisionEvent>, elapsed: real, p: Entity)
    requires Ready(s) && p in s.damage
    ensures forall i :: 0 <= i < |Hits(s, events, elapsed)| ==> Hits(s, events, elapsed)[i].1 in s.attackData
    ensures Job(s, events, elapsed).damage[p] == s.damage[p] + DamageTo(p, Hits(s, events, elapsed), s.attackData)
    decreases |events|
  {
    HitsAreFlagged(s, events, elapsed);
    if events != [] {
      var front := AllButLast(events);
      JobDamage(s, front, elapsed, p);
      var log := Hits(s, events, elapsed);
      var prior := Job(s, front, elapsed);
      match Landing(prior, Last(events))
      case None =>
        assert log == Hits(s, front, elapsed);
      case Some(pe) =>
        assert log == Hits(s, front, elapsed) + [pe];
        assert AllButLast(log) == Hits(s, front, elapsed);
    }
  }

  /** A stamp that has expired by `elapsed` no longer gates an attack in that frame. */
  lemma ExpiredEnemyCanHit(s: Combat, ev: CollisionEvent, elapsed: real)
    requires Ready(s) && Classify(s, ev).Some?
    requires s.cooldown[Classify(s, ev).value.1].value <= elapsed
    ensures Landing(s.(cooldown := Expire(s.cooldown, elapsed)), ev) == Classify(s, ev)
  {
  }

  /** A freshly baked enemy is not gated: its first classified contact lands. */
  lemma BakedEnemyHits(s: Combat, ev: CollisionEvent)
    requires Ready(s) && Classify(s, ev).Some?
    requires s.cooldown[Classify(s, ev).value.1] == BakedCooldown()
    ensures Landing(s, ev) == Classify(s, ev)
  {
  }

  /** Classification does not depend on which side of the event is which. */
  lemma ClassifySymmetric(s: Combat, a: Entity, b: Entity)
    requires a in s.players && b in s.attackData
    requires !(b in s.players && a in s.attackData)
    ensures Classify(s, CollisionEvent(a, b)) == Some((a, b))
    ensures Classify(s, CollisionEvent(b, a)) == Some((a, b))
  {
  }

  /** EnemyAttackSystem.OnUpdate: the expiry pass, then the job over the frame's events. */
  method OnUpdate(w: World, elapsed: real, events: seq<CollisionEvent>)
    requires w.Valid()
    modifies w`enemyCooldown, w`damageThisFrame
    ensures w.Valid()
    ensures CombatOf(w) ==
              Job(old(CombatOf(w)).(cooldown := Expire(old(w.enemyCooldown), elapsed)), events, elapsed)
  {
    ExpireCooldowns(w, elapsed);
    ghost var start := CombatOf(w);
    var i := 0;
    while i < |events|
      invariant 0 <= i <= |events|
      invariant w.Valid()
      invariant CombatOf(w) == Job(start, events[..i], elapsed)
    {
      Execute(w, events[i], elapsed);
      assert AllButLast(events[..i + 1]) == events[..i];
      i := i + 1;
    }
    assert events[..i] == events;
  }
}
