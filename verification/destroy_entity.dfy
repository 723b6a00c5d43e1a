/**
 * DestroyEntitySystem: the synchronisation point for destruction. For every
 * entity whose DestroyEntityFlag is enabled it raises game over if the
 * entity is the player, records a gem spawn at the entity's position on the
 * begin-of-frame command buffer if the entity carries a GemPrefab, and
 * records the entity's destruction on the end-of-frame command buffer. The
 * store itself is left as it is.
 */
module DestroyEntity {
  import opened Ecs

  /** The components DestroyEntitySystem reads. */
  datatype Doomed = Doomed(
    destroyFlag: map<Entity, bool>,
    players: set<Entity>,
    gemPrefab: map<Entity, Entity>,
    position: map<Entity, Float3>)

  predicate Ready(v: Doomed)
  {
    v.gemPrefab.Keys <= v.position.Keys
  }

  function DoomedOf(w: World): Doomed
    reads w
  {
    Doomed(w.destroyEntityFlag, w.playerTag, w.gemPrefab, w.position)
  }

  /** The query `Query<DestroyEntityFlag>()` matches only enabled flags. */
  predicate Flagged(v: Doomed, e: Entity)
  {
    e in v.destroyFlag && v.destroyFlag[e]
  }

  /** The flagged entities that carry a GemPrefab, in query order. */
  function GemCarriers(v: Doomed, ents: seq<Entity>): (r: seq<Entity>)
    ensures forall x :: x in r <==> x in ents && Flagged(v, x) && x in v.gemPrefab
    decreases |ents|
  {
    if ents == [] then []
    else
      var e := Last(ents);
      assert ents == AllButLast(ents) + [e];
      GemCarriers(v, AllButLast(ents)) + if Flagged(v, e) && e in v.gemPrefab then [e] else []
  }

  /**
   * What the loop appends to the begin buffer, whose length is `base` when
   * the loop starts: per gem carrier an instantiate of its gem and a
   * transform for that placeholder.
   */
  function GemCommands(v: Doomed, ents: seq<Entity>, base: nat): (r: seq<Command>)
    requires Ready(v)
    ensures forall k :: 0 <= k < |r| ==> !r[k].DestroyCmd?
    decreases |ents|
  {
    if ents == [] then []
    else
      var earlier := GemCommands(v, AllButLast(ents), base);
      var e := Last(ents);
      earlier +
        if Flagged(v, e) && e in v.gemPrefab
        then [InstantiateCmd(v.gemPrefab[e]), SetTransformCmd(base + |earlier|, FromPosition(v.position[e]))]
        else []
  }

  /** What the loop appends to the end buffer: one destroy per flagged entity. */
  function DestroyCommands(v: Doomed, ents: seq<Entity>): (r: seq<Command>)
    ensures forall k :: 0 <= k < |r| ==> r[k].DestroyCmd? && r[k].entity in ents && Flagged(v, r[k].entity)
    decreases |ents|
  {
    if ents == [] then []
    else
      var e := Last(ents);
      assert ents == AllButLast(ents) + [e];
      DestroyCommands(v, AllButLast(ents)) + if Flagged(v, e) then [DestroyCmd(e)] else []
  }

  /** The entities for which game over is shown, in query order. */
  function GameOvers(v: Doomed, ents: seq<Entity>): (r: seq<Entity>)
    ensures forall x :: x in r <==> x in ents && Flagged(v, x) && x in v.players
    decreases |ents|
  {
    if ents == [] then []
    else
      var e := Last(ents);
      assert ents == AllButLast(ents) + [e];
      GameOvers(v, AllButLast(ents)) + if Flagged(v, e) && e in v.players then [e] else []
  }

  /**
   * DestroyEntitySystem.OnUpdate. The store is not in the frame, so it is
   * left unchanged; `gameOver` lists the entities for which the game-over
   * screen was requested.
   */
  method OnUpdate(w: World, beginEcb: CommandBuffer, endEcb: CommandBuffer) returns (gameOver: seq<Entity>)
    requires w.Valid() && beginEcb != endEcb
    modifies beginEcb, endEcb
    ensures Ready(DoomedOf(w))
    ensures beginEcb.commands == old(beginEcb.commands) + GemCommands(DoomedOf(w), w.entities, |old(beginEcb.commands)|)
    ensures endEcb.commands == old(endEcb.commands) + DestroyCommands(DoomedOf(w), w.entities)
    ensures gameOver == GameOvers(DoomedOf(w), w.entities)
  {
    var v := DoomedOf(w);
    var base := |beginEcb.commands|;
    gameOver := [];
    var i := 0;
    while i < |w.entities|
      invariant 0 <= i <= |w.entities|
      invariant beginEcb.commands == old(beginEcb.commands) + GemCommands(v, w.entities[..i], base)
      invariant endEcb.commands == old(endEcb.commands) + DestroyCommands(v, w.entities[..i])
      invariant gameOver == GameOvers(v, w.entities[..i])
    {
      var entity := w.entities[i];
      assert AllButLast(w.entities[..i + 1]) == w.entities[..i];
      if entity in w.destroyEntityFlag && w.destroyEntityFlag[entity] {
        if entity in w.playerTag {
          gameOver := gameOver + [entity];
        }
        if entity in w.gemPrefab {
          var gemPrefab := w.gemPrefab[entity];
          var newGem := beginEcb.Instantiate(gemPrefab);
          var spawnPosition := w.position[entity];
          beginEcb.SetComponent(newGem, FromPosition(spawnPosition));
        }
        endEcb.DestroyEntity(entity);
      }
      i := i + 1;
    }
    assert w.entities[..i] == w.entities;
  }

  // ---------------------------------------------------------------------
  // Properties
  // ---------------------------------------------------------------------

  /**
   * Every flagged entity gets exactly one destroy command, and an entity
   * without an enabled flag gets none.
   */
  lemma {:induction false} DestroyedExactlyOnce(v: Doomed, ents: seq<Entity>, e: Entity)
    requires Distinct(ents)
    ensures multiset(DestroyCommands(v, ents))[DestroyCmd(e)] == if e in ents && Flagged(v, e) then 1 else 0
    decreases |ents|
  {
    if ents != [] {
      var front := AllButLast(ents);
      assert ents == front + [Last(ents)];
      assert Distinct(front);
      DestroyedExactlyOnce(v, front, e);
      assert Last(ents) !in front;
    }
  }

  /** Game over is requested exactly once for each flagged player of the frame, and for no other entity. */
  lemma {:induction false} GameOverOncePerPlayer(v: Doomed, ents: seq<Entity>, e: Entity)
    requires Distinct(ents)
    ensures multiset(GameOvers(v, ents))[e] == if e in ents && Flagged(v, e) && e in v.players then 1 else 0
    decreases |ents|
  {
    if ents != [] {
      var front := AllButLast(ents);
      assert ents == front + [Last(ents)];
      assert Distinct(front);
      GameOverOncePerPlayer(v, front, e);
      assert Last(ents) !in front;
    }
  }

  /**
   * The begin buffer holds, per gem carrier in query order, an instantiate
   * of its gem followed by a transform placing that placeholder at the
   * carrier's position.
   */
  lemma {:induction false} GemSpawnsAtCarriers(v: Doomed, ents: seq<Entity>, base: nat)
    requires Ready(v)
    ensures var r := GemCommands(v, ents, base);
            var c := GemCarriers(v, ents);
            && |r| == 2 * |c|
            && forall i :: 0 <= i < |c| ==>
                 && r[2 * i] == InstantiateCmd(v.gemPrefab[c[i]])
                 && r[2 * i + 1] == SetTransformCmd(base + 2 * i, FromPosition(v.position[c[i]]))
    decreases |ents|
  {
    if ents != [] {
      GemSpawnsAtCarriers(v, AllButLast(ents), base);
    }
  }

  /** No command of this system puts a destroy on the begin buffer or an instantiate on the end buffer. */
  lemma BuffersSeparated(v: Doomed, ents: seq<Entity>, base: nat)
    requires Ready(v)
    ensures forall c :: c in GemCommands(v, ents, base) ==> !c.DestroyCmd?
    ensures forall c :: c in DestroyCommands(v, ents) ==> !c.InstantiateCmd? && !c.SetTransformCmd?
  {
  }
}
