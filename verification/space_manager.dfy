/**
 * The space manager: the world state's objects and command queues, and the manager that
 * runs one tick over them (commands, insertion, explosions, projectiles, attachments,
 * collisions and garbage collection) and answers its collaborators' queries.
 */
module SpaceManagement {
  import opened Wrappers
  import opened SpaceObjectBase
  import opened SpaceRules

  /** A JavaScript number, as far as `setVelocity` tells them apart. */
  datatype Num = Finite(value: real) | NaN

  /** The world state: the stored objects and the pending command queues. */
  class SpaceState {
    var objects: Objects
    var destroySpaceshipCommands: seq<Id>
    var createAsteroidCommands: seq<CreateAsteroidCommand>
    var createExplosionCommands: seq<CreateExplosionCommand>
    var createWaypointCommands: seq<CreateWaypointCommand>
    var moveCommands: seq<MoveCommand>
    var botOrderCommands: seq<BotOrderCommand>

    constructor ()
      ensures objects == map[] && destroySpaceshipCommands == []
      ensures createAsteroidCommands == [] && createExplosionCommands == [] && createWaypointCommands == []
      ensures moveCommands == [] && botOrderCommands == []
    {
      objects := map[];
      destroySpaceshipCommands := [];
      createAsteroidCommands := [];
      createExplosionCommands := [];
      createWaypointCommands := [];
      moveCommands := [];
      botOrderCommands := [];
    }
  }

  /**
   * The static `destroyObject`: only a live, expendable object is destroyed, and a
   * spaceship's destruction is also queued as a command.
   */
  method DestroyStateObject(state: SpaceState, id: Id)
    modifies state`objects, state`destroySpaceshipCommands
    ensures var o := old(state.objects);
      id in o && !o[id].destroyed && o[id].expendable ==>
        && state.objects == o[id := o[id].(destroyed := true)]
        && state.destroySpaceshipCommands == old(state.destroySpaceshipCommands) + (if o[id].kind.Spaceship? then [id] else [])
    ensures var o := old(state.objects);
      !(id in o && !o[id].destroyed && o[id].expendable) ==>
        state.objects == o && state.destroySpaceshipCommands == old(state.destroySpaceshipCommands)
  {
    if id in state.objects {
      var subject := state.objects[id];
      if !subject.destroyed && subject.expendable {
        if subject.kind.Spaceship? {
          state.destroySpaceshipCommands := state.destroySpaceshipCommands + [id];
        }
        state.objects := state.objects[id := subject.(destroyed := true)];
      }
    }
  }

  class SpaceManager {
    const state: SpaceState
    var attachments: map<Id, Id>
    var attachmentCliques: Cliques
    var objectDamage: map<Id, seq<Damage>>
    var objectOrder: map<Id, BotOrder>
    var toInsert: seq<SpaceObject>
    /** The ids that own a collision body and a field of view (`stateToExtraData`). */
    var tracked: set<Id>
    /** The ids whose collision bodies are due to follow their objects. */
    var toUpdateCollisions: set<Id>
    var secondsSinceLastGC: real
    /** How many ids have been drawn from `newId`. */
    var drawnIds: nat
    const newId: IdSource
    /** The fields of a `new Explosion()`. */
    const defaultExplosion: ExplosionTemplate
    /** The radius of a `new Waypoint()`. */
    const waypointRadius: real
    const limitPercision: real -> real
    const toDegreesDelta: real -> real

    /**
     * Every object is stored under its own id, and no live object lacks its extra data
     * (the "object leak" the source reports): tracked ids are stored, live ids are tracked.
     */
    ghost predicate Valid()
      reads this`tracked, state`objects
    {
      && WellKeyed(state.objects)
      && tracked <= state.objects.Keys
      && (forall id :: Live(state.objects, id) ==> id in tracked)
    }

    constructor (newId: IdSource, defaultExplosion: ExplosionTemplate, waypointRadius: real,
                 limitPercision: real -> real, toDegreesDelta: real -> real)
      ensures Valid() && fresh(state)
      ensures state.objects == map[] && tracked == {} && toInsert == []
      ensures attachments == map[] && attachmentCliques == map[] && objectDamage == map[] && objectOrder == map[]
      ensures secondsSinceLastGC == 0.0 && drawnIds == 0
    {
      state := new SpaceState();
      attachments := map[];
      attachmentCliques := map[];
      objectDamage := map[];
      objectOrder := map[];
      toInsert := [];
      tracked := {};
      toUpdateCollisions := {};
      secondsSinceLastGC := 0.0;
      drawnIds := 0;
      this.newId := newId;
      this.defaultExplosion := defaultExplosion;
      this.waypointRadius := waypointRadius;
      this.limitPercision := limitPercision;
      this.toDegreesDelta := toDegreesDelta;
    }

    /** `makeId()` or `uniqueId(prefix)`: the next id of the generator. */
    method DrawId(prefix: string) returns (id: Id)
      modifies this`drawnIds
      ensures id == newId(prefix, old(drawnIds)) && drawnIds == old(drawnIds) + 1
    {
      id := newId(prefix, drawnIds);
      drawnIds := drawnIds + 1;
    }

    /** `destroyObject(id)` keeps the manager valid. */
    method DestroyObject(id: Id)
      requires Valid()
      modifies state`objects, state`destroySpaceshipCommands
      ensures Valid()
      ensures var o := old(state.objects);
        state.objects == (if id in o && !o[id].destroyed && o[id].expendable then o[id := o[id].(destroyed := true)] else o)
      ensures var o := old(state.objects);
        state.destroySpaceshipCommands == old(state.destroySpaceshipCommands)
          + (if id in o && !o[id].destroyed && o[id].expendable && o[id].kind.Spaceship? then [id] else [])
    {
      DestroyStateObject(state, id);
    }

    // -------------------------------------------------------------------------------
    // Commands from collaborators
    // -------------------------------------------------------------------------------

    /** `changeTurnSpeed`: only a live object's turn speed changes. */
    method ChangeTurnSpeed(id: Id, delta: real)
      requires Valid()
      modifies state`objects
      ensures Valid()
      ensures var o := old(state.objects);
        state.objects == (if Live(o, id) then o[id := o[id].(turnSpeed := o[id].turnSpeed + delta)] else o)
    {
      var ptr := ObjectPtr(state.objects, id);
      if ptr.Some? {
        var subject := ptr.value;
        state.objects := state.objects[id := subject.(turnSpeed := subject.turnSpeed + delta)];
      }
    }

    /** `changeVelocity`: only a live object's velocity changes. */
    method ChangeVelocity(id: Id, delta: XY)
      requires Valid()
      modifies state`objects
      ensures Valid()
      ensures var o := old(state.objects);
        state.objects == (if Live(o, id) then o[id := o[id].(velocity := o[id].velocity.Add(delta))] else o)
    {
      var ptr := ObjectPtr(state.objects, id);
      if ptr.Some? {
        var subject := ptr.value;
        state.objects := state.objects[id := subject.(velocity := subject.velocity.Add(delta))];
      }
    }

    /** `setVelocity`: a velocity with a NaN component is refused; otherwise as `changeVelocity`. */
    method SetVelocity(id: Id, x: Num, y: Num)
      requires Valid()
      modifies state`objects
      ensures Valid()
      ensures var o := old(state.objects);
        state.objects == (if Live(o, id) && x.Finite? && y.Finite? then o[id := o[id].(velocity := XY(x.value, y.value))] else o)
    {
      if x.NaN? || y.NaN? {
        return;
      }
      var ptr := ObjectPtr(state.objects, id);
      if ptr.Some? {
        var subject := ptr.value;
        state.objects := state.objects[id := subject.(velocity := XY(x.value, y.value))];
      }
    }

    /** `attach`: the attacher now follows the attachee (replacing an earlier attachment). */
    method Attach(attacherId: Id, attacheeId: Id)
      modifies this`attachments
      ensures attachments == old(attachments)[attacherId := attacheeId]
    {
      attachments := attachments[attacherId := attacheeId];
    }

    /**
     * `detach`: a live attacher leaves with the clique's summed velocity and turn speed, and
     * its attachment is removed in any case.
     */
    method Detach(attacherId: Id)
      requires Valid()
      modifies state`objects, this`attachments
      ensures Valid()
      ensures attachments == old(attachments) - {attacherId}
      ensures var o := old(state.objects);
        attacherId in attachmentCliques && Live(o, attacherId) ==>
          var clique := attachmentCliques[attacherId];
          state.objects == o[attacherId := o[attacherId].(
            velocity := XY(SumOver(o, clique, VelocityX), SumOver(o, clique, VelocityY)),
            turnSpeed := toDegreesDelta(SumOver(o, clique, TurnSpeed)))]
      ensures !(attacherId in attachmentCliques && Live(old(state.objects), attacherId)) ==>
        state.objects == old(state.objects)
    {
      if attacherId in attachmentCliques {
        var clique := attachmentCliques[attacherId];
        var ptr := ObjectPtr(state.objects, attacherId);
        if ptr.Some? {
          var subject := ptr.value;
          var vx, vy, turnSpeed := 0.0, 0.0, 0.0;
          var rest := clique;
          while rest != {}
            invariant rest <= clique
            invariant state.objects == old(state.objects) && attachments == old(attachments)
            invariant vx + SumOver(state.objects, rest, VelocityX) == SumOver(state.objects, clique, VelocityX)
            invariant vy + SumOver(state.objects, rest, VelocityY) == SumOver(state.objects, clique, VelocityY)
            invariant turnSpeed + SumOver(state.objects, rest, TurnSpeed) == SumOver(state.objects, clique, TurnSpeed)
            decreases rest
          {
            var obj :| obj in rest;
            SumOverRemove(state.objects, rest, obj, VelocityX);
            SumOverRemove(state.objects, rest, obj, VelocityY);
            SumOverRemove(state.objects, rest, obj, TurnSpeed);
            vx := vx + ComponentOf(state.objects, obj, VelocityX);
            vy := vy + ComponentOf(state.objects, obj, VelocityY);
            turnSpeed := turnSpeed + ComponentOf(state.objects, obj, TurnSpeed);
            rest := rest - {obj};
          }
          state.objects := state.objects[attacherId := subject.(velocity := XY(vx, vy), turnSpeed := toDegreesDelta(turnSpeed))];
        }
      }
      attachments := attachments - {attacherId};
    }

    /** `insert`: queues the object for the next flush. */
    method Insert(o: SpaceObject)
      modifies this`toInsert
      ensures toInsert == old(toInsert) + [o]
    {
      toInsert := toInsert + [o];
    }

    /** `insertBulk`: queues the objects, in order. */
    method InsertBulk(xs: seq<SpaceObject>)
      modifies this`toInsert
      ensures toInsert == old(toInsert) + xs
    {
      toInsert := toInsert + xs;
    }

    // -------------------------------------------------------------------------------
    // Queries
    // -------------------------------------------------------------------------------

    /**
     * `checkDuplicateShip`: a spaceship stored under the id (destroyed or not), else the
     * first queued object with that id; nothing when neither exists.
     */
    function CheckDuplicateShip(shipId: Id): (r: Option<SpaceObject>)
      reads this`toInsert, state`objects
      ensures r.None? <==>
        !(shipId in state.objects && state.objects[shipId].kind.Spaceship?) && forall o :: o in toInsert ==> o.id != shipId
      ensures shipId in state.objects && state.objects[shipId].kind.Spaceship? ==> r == Some(state.objects[shipId])
      ensures r.Some? && !(shipId in state.objects && state.objects[shipId].kind.Spaceship?) ==> r.value in toInsert && r.value.id == shipId
    {
      if shipId in state.objects && state.objects[shipId].kind.Spaceship? then Some(state.objects[shipId])
      else FindById(toInsert, shipId)
    }

    /** `resolveObjectDamage`: hands out the queued damage once and forgets it. */
    method ResolveObjectDamage(id: Id) returns (damages: seq<Damage>)
      modifies this`objectDamage
      ensures damages == (if id in old(objectDamage) then old(objectDamage)[id] else [])
      ensures objectDamage == old(objectDamage) - {id}
    {
      damages := [];
      if id in objectDamage {
        damages := objectDamage[id];
        objectDamage := objectDamage - {id};
      }
    }

    /** `resolveObjectOrder`: hands out the pending order once (`null` as `None`) and forgets it. */
    method ResolveObjectOrder(id: Id) returns (order: Option<BotOrder>)
      modifies this`objectOrder
      ensures order == (if id in old(objectOrder) then Some(old(objectOrder)[id]) else None)
      ensures objectOrder == old(objectOrder) - {id}
    {
      order := None;
      if id in objectOrder {
        order := Some(objectOrder[id]);
      }
      objectOrder := objectOrder - {id};
    }

    // -------------------------------------------------------------------------------
    // Attachment cliques
    // -------------------------------------------------------------------------------

    /**
     * `calcAttachmentCliques`: groups live objects into cliques so that the two live ends
     * of every attachment share one clique; only live attachment ends are registered, and
     * the members of a clique are linked to one another by attachments.
     */
    method CalcAttachmentCliques()
      modifies this`attachmentCliques
      ensures Consistent(attachmentCliques) && AllLive(attachmentCliques, state.objects)
      ensures forall a :: a in attachments ==> Joined(attachmentCliques, state.objects, a, attachments[a])
      ensures forall id :: id in attachmentCliques ==> id in attachments.Keys || id in attachments.Values
      ensures forall id :: id in attachmentCliques ==> Linked(attachments, attachments.Keys, attachmentCliques[id])
    {
      attachmentCliques := map[];
      var todo := attachments.Keys;
      while todo != {}
        invariant CliquesSoFar(attachmentCliques, state.objects, attachments, todo)
        decreases todo
      {
        var attacherId :| attacherId in todo;
        var attacheeId := attachments[attacherId];
        var clique := Group(attachmentCliques, state.objects, attacherId) + Group(attachmentCliques, state.objects, attacheeId);
        CliquesStep(attachmentCliques, state.objects, attachments, todo, attacherId);
        attachmentCliques := Merge(attachmentCliques, clique);
        todo := todo - {attacherId};
      }
    }

    /** `getAttachedClique`: the union of the ids' cliques (or of the ids themselves while live). */
    method GetAttachedClique(ids: seq<Id>) returns (result: set<Id>)
      ensures result == AttachedClique(attachmentCliques, state.objects, ids)
    {
      result := {};
      var i := 0;
      while i < |ids|
        invariant 0 <= i <= |ids|
        invariant result == AttachedClique(attachmentCliques, state.objects, ids[..i])
      {
        assert ids[..i + 1][..i] == ids[..i];
        result := result + Group(attachmentCliques, state.objects, ids[i]);
        i := i + 1;
      }
      assert ids[..i] == ids;
    }

    /** Moves every stored object among `ids` by `delta`, and marks its body for update. */
    method MoveAll(ids: set<Id>, delta: XY)
      requires Valid()
      modifies state`objects, this`toUpdateCollisions
      ensures Valid()
      ensures state.objects == Moved(old(state.objects), ids, delta)
      ensures toUpdateCollisions == old(toUpdateCollisions) + ids * old(state.objects).Keys
    {
      ghost var start := state.objects;
      var todo := ids;
      while todo != {}
        invariant todo <= ids
        invariant state.objects == Moved(start, ids - todo, delta)
        invariant toUpdateCollisions == old(toUpdateCollisions) + (ids - todo) * start.Keys
        decreases todo
      {
        var id :| id in todo;
        MovedStep(start, ids - todo, id, delta);
        if id in state.objects {
          var subject := state.objects[id];
          state.objects := state.objects[id := subject.(position := subject.position.Add(delta))];
          toUpdateCollisions := toUpdateCollisions + {id};
        }
        assert ids - (todo - {id}) == (ids - todo) + {id};
        todo := todo - {id};
      }
      MovedKeepsKeying(start, ids, delta);
    }

    /** `handleMoveCommand`: moves the ids' attached clique by `delta` and nothing else. */
    method HandleMoveCommand(ids: seq<Id>, delta: XY)
      requires Valid()
      modifies state`objects, this`toUpdateCollisions
      ensures Valid()
      ensures state.objects == Moved(old(state.objects), AttachedClique(attachmentCliques, old(state.objects), ids), delta)
      ensures toUpdateCollisions == old(toUpdateCollisions) + AttachedClique(attachmentCliques, old(state.objects), ids) * old(state.objects).Keys
    {
      var clique := GetAttachedClique(ids);
      MoveAll(clique, delta);
    }

    /** The move commands, in order; the queue is emptied. */
    method HandleMoveCommands()
      requires Valid()
      modifies state`objects, state`moveCommands, this`toUpdateCollisions
      ensures Valid() && state.moveCommands == []
      ensures state.objects == AfterMoves(attachmentCliques, old(state.objects), old(state.moveCommands))
    {
      var cmds := state.moveCommands;
      var i := 0;
      while i < |cmds|
        invariant 0 <= i <= |cmds| && Valid()
        invariant state.objects == AfterMoves(attachmentCliques, old(state.objects), cmds[..i])
      {
        HandleMoveCommand(cmds[i].ids, cmds[i].delta);
        assert cmds[..i + 1][..i] == cmds[..i];
        i := i + 1;
      }
      assert cmds[..i] == cmds;
      state.moveCommands := [];
    }

    /** The bot-order commands, in order: live spaceships get the commands' orders. */
    method HandleBotOrderCommands()
      modifies this`objectOrder, state`botOrderCommands
      ensures objectOrder == OrdersAfter(old(objectOrder), state.objects, old(state.botOrderCommands))
      ensures state.botOrderCommands == []
    {
      var cmds := state.botOrderCommands;
      var i := 0;
      while i < |cmds|
        invariant 0 <= i <= |cmds|
        invariant objectOrder == OrdersAfter(old(objectOrder), state.objects, cmds[..i])
      {
        var cmd := cmds[i];
        ghost var before := objectOrder;
        var j := 0;
        while j < |cmd.ids|
          invariant 0 <= j <= |cmd.ids|
          invariant objectOrder == OrdersFor(before, state.objects, cmd.ids[..j], cmd.order)
        {
          var id := cmd.ids[j];
          var ptr := ObjectPtr(state.objects, id);
          if ptr.Some? && ptr.value.kind.Spaceship? {
            objectOrder := objectOrder[id := cmd.order];
          }
          assert cmd.ids[..j + 1][..j] == cmd.ids[..j];
          j := j + 1;
        }
        assert cmd.ids[..j] == cmd.ids;
        assert cmds[..i + 1][..i] == cmds[..i];
        i := i + 1;
      }
      assert cmds[..i] == cmds;
      state.botOrderCommands := [];
    }

    /** The create-asteroid commands: one new asteroid queued per command. */
    method CreateAsteroids()
      modifies this`toInsert, this`drawnIds, state`createAsteroidCommands
      ensures toInsert == old(toInsert) + NewAsteroids(newId, old(state.createAsteroidCommands), old(drawnIds))
      ensures drawnIds == old(drawnIds) + |old(state.createAsteroidCommands)|
      ensures state.createAsteroidCommands == []
    {
      var cmds := state.createAsteroidCommands;
      var i := 0;
      while i < |cmds|
        invariant 0 <= i <= |cmds|
        invariant toInsert == old(toInsert) + NewAsteroids(newId, cmds[..i], old(drawnIds))
        invariant drawnIds == old(drawnIds) + i
      {
        ghost var created := NewAsteroids(newId, cmds[..i], old(drawnIds));
        var id := DrawId("");
        var asteroid := NewObject(Asteroid, id, cmds[i].position, cmds[i].radius);
        Insert(asteroid);
        assert cmds[..i + 1][..i] == cmds[..i];
        assert NewAsteroids(newId, cmds[..i + 1], old(drawnIds)) == created + [asteroid];
        AppendAfterPrefix(old(toInsert), created, asteroid);
        i := i + 1;
      }
      assert cmds[..i] == cmds;
      state.createAsteroidCommands := [];
    }

    /** The create-explosion commands: one new explosion queued per command. */
    method CreateExplosions()
      modifies this`toInsert, this`drawnIds, state`createExplosionCommands
      ensures toInsert == old(toInsert) + NewExplosions(newId, defaultExplosion, old(state.createExplosionCommands), old(drawnIds))
      ensures drawnIds == old(drawnIds) + |old(state.createExplosionCommands)|
      ensures state.createExplosionCommands == []
    {
      var cmds := state.createExplosionCommands;
      var i := 0;
      while i < |cmds|
        invariant 0 <= i <= |cmds|
        invariant toInsert == old(toInsert) + NewExplosions(newId, defaultExplosion, cmds[..i], old(drawnIds))
        invariant drawnIds == old(drawnIds) + i
      {
        ghost var created := NewExplosions(newId, defaultExplosion, cmds[..i], old(drawnIds));
        var id := DrawId("");
        var explosion := NewExplosion(defaultExplosion, id, cmds[i].position, cmds[i].damageFactor);
        Insert(explosion);
        assert cmds[..i + 1][..i] == cmds[..i];
        assert NewExplosions(newId, defaultExplosion, cmds[..i + 1], old(drawnIds)) == created + [explosion];
        AppendAfterPrefix(old(toInsert), created, explosion);
        i := i + 1;
      }
      assert cmds[..i] == cmds;
      state.createExplosionCommands := [];
    }

    /** The create-waypoint commands: one new waypoint queued per command. */
    method CreateWaypoints()
      modifies this`toInsert, this`drawnIds, state`createWaypointCommands
      ensures toInsert == old(toInsert) + NewWaypoints(newId, waypointRadius, old(state.createWaypointCommands), old(drawnIds))
      ensures drawnIds == old(drawnIds) + |old(state.createWaypointCommands)|
      ensures state.createWaypointCommands == []
    {
      var cmds := state.createWaypointCommands;
      var i := 0;
      while i < |cmds|
        invariant 0 <= i <= |cmds|
        invariant toInsert == old(toInsert) + NewWaypoints(newId, waypointRadius, cmds[..i], old(drawnIds))
        invariant drawnIds == old(drawnIds) + i
      {
        ghost var created := NewWaypoints(newId, waypointRadius, cmds[..i], old(drawnIds));
        var id := DrawId("");
        var waypoint := NewObject(Waypoint, id, cmds[i].position, waypointRadius);
        Insert(waypoint);
        assert cmds[..i + 1][..i] == cmds[..i];
        assert NewWaypoints(newId, waypointRadius, cmds[..i + 1], old(drawnIds)) == created + [waypoint];
        AppendAfterPrefix(old(toInsert), created, waypoint);
        i := i + 1;
      }
      assert cmds[..i] == cmds;
      state.createWaypointCommands := [];
    }

    // -------------------------------------------------------------------------------
    // Lifecycle: insertion, untracking, garbage collection
    // -------------------------------------------------------------------------------

    /**
     * `untrackDestroyedObjects`: destroyed objects lose their collision body, field of view
     * and attachment; afterwards exactly the live objects are tracked.
     */
    method UntrackDestroyedObjects()
      requires Valid()
      modifies this`tracked, this`attachments
      ensures Valid()
      ensures tracked == LiveIds(state.objects)
      ensures attachments == old(attachments) - DestroyedIds(state.objects) * old(tracked)
    {
      var todo := DestroyedIds(state.objects);
      ghost var done: set<Id> := {};
      while todo != {}
        invariant todo !! done && todo + done == DestroyedIds(state.objects)
        invariant tracked == old(tracked) - done
        invariant attachments == old(attachments) - done * old(tracked)
        decreases todo
      {
        var id :| id in todo;
        if id in tracked {
          tracked := tracked - {id};
          attachments := attachments - {id};
        }
        todo := todo - {id};
        done := done + {id};
      }
    }

    /**
     * `gc`: untracks, restarts the timer, and removes the destroyed objects together with
     * their pending damage and orders; only live objects remain.
     */
    method Gc()
      requires Valid()
      modifies this`tracked, this`attachments, this`secondsSinceLastGC, this`objectDamage, this`objectOrder, state`objects
      ensures Valid() && secondsSinceLastGC == 0.0
      ensures state.objects == old(state.objects) - DestroyedIds(old(state.objects))
      ensures forall id :: id in state.objects ==> !state.objects[id].destroyed
      ensures tracked == LiveIds(old(state.objects))
      ensures attachments == old(attachments) - DestroyedIds(old(state.objects)) * old(tracked)
      ensures objectDamage == old(objectDamage) - DestroyedIds(old(state.objects))
      ensures objectOrder == old(objectOrder) - DestroyedIds(old(state.objects))
    {
      UntrackDestroyedObjects();
      secondsSinceLastGC := 0.0;
      var todo := DestroyedIds(state.objects);
      ghost var start := state.objects;
      ghost var done: set<Id> := {};
      ghost var trackedAfter, attachmentsAfter := tracked, attachments;
      while todo != {}
        invariant todo !! done && todo + done == DestroyedIds(start)
        invariant tracked == trackedAfter && attachments == attachmentsAfter && secondsSinceLastGC == 0.0
        invariant state.objects == start - done
        invariant objectDamage == old(objectDamage) - done
        invariant objectOrder == old(objectOrder) - done
        decreases todo
      {
        var id :| id in todo;
        state.objects := state.objects - {id};
        objectDamage := objectDamage - {id};
        objectOrder := objectOrder - {id};
        todo := todo - {id};
        done := done + {id};
      }
    }

    /**
     * `handleToInsert`: when objects are queued, collects garbage, stores and tracks every
     * queued object, and empties the queue; with nothing queued, nothing changes.
     */
    method HandleToInsert()
      requires Valid()
      modifies this`tracked, this`attachments, this`secondsSinceLastGC, this`objectDamage, this`objectOrder,
        this`toInsert, state`objects
      ensures Valid() && toInsert == []
      ensures old(toInsert) == [] ==>
        state.objects == old(state.objects) && tracked == old(tracked) && secondsSinceLastGC == old(secondsSinceLastGC)
      ensures old(toInsert) == [] ==>
        attachments == old(attachments) && objectDamage == old(objectDamage) && objectOrder == old(objectOrder)
      ensures old(toInsert) != [] ==>
        && state.objects == Stored(old(state.objects) - DestroyedIds(old(state.objects)), old(toInsert))
        && tracked == LiveIds(old(state.objects)) + IdsOf(old(toInsert))
        && secondsSinceLastGC == 0.0
      ensures old(toInsert) != [] ==>
        && attachments == old(attachments) - DestroyedIds(old(state.objects)) * old(tracked)
        && objectDamage == old(objectDamage) - DestroyedIds(old(state.objects))
        && objectOrder == old(objectOrder) - DestroyedIds(old(state.objects))
    {
      if |toInsert| > 0 {
        Gc();
        StoreAll(toInsert);
        toInsert := [];
      }
    }

    /** Stores and tracks each queued object in order. */
    method StoreAll(queue: seq<SpaceObject>)
      requires Valid()
      modifies this`tracked, state`objects
      ensures Valid()
      ensures state.objects == Stored(old(state.objects), queue)
      ensures tracked == old(tracked) + IdsOf(queue)
    {
      var i := 0;
      while i < |queue|
        invariant 0 <= i <= |queue|
        invariant state.objects == Stored(old(state.objects), queue[..i])
        invariant tracked == old(tracked) + IdsOf(queue[..i])
      {
        var o := queue[i];
        assert queue[..i + 1][..i] == queue[..i];
        assert IdsOf(queue[..i + 1]) == IdsOf(queue[..i]) + {o.id};
        state.objects := state.objects[o.id := o];
        tracked := tracked + {o.id};
        i := i + 1;
      }
      assert queue[..i] == queue;
      StoredObjects(old(state.objects), queue);
    }

    /** `forceFlushEntities`. */
    method ForceFlushEntities()
      requires Valid()
      modifies this`tracked, this`attachments, this`secondsSinceLastGC, this`objectDamage, this`objectOrder,
        this`toInsert, state`objects
      ensures Valid() && toInsert == []
      ensures forall o :: o in old(toInsert) ==> o.id in state.objects && o.id in tracked
      ensures old(toInsert) == [] ==>
        state.objects == old(state.objects) && tracked == old(tracked) && secondsSinceLastGC == old(secondsSinceLastGC)
      ensures old(toInsert) == [] ==>
        attachments == old(attachments) && objectDamage == old(objectDamage) && objectOrder == old(objectOrder)
      ensures old(toInsert) != [] ==>
        && state.objects == Stored(old(state.objects) - DestroyedIds(old(state.objects)), old(toInsert))
        && tracked == LiveIds(old(state.objects)) + IdsOf(old(toInsert))
        && secondsSinceLastGC == 0.0
      ensures old(toInsert) != [] ==>
        && attachments == old(attachments) - DestroyedIds(old(state.objects)) * old(tracked)
        && objectDamage == old(objectDamage) - DestroyedIds(old(state.objects))
        && objectOrder == old(objectOrder) - DestroyedIds(old(state.objects))
    {
      ghost var queue := toInsert;
      HandleToInsert();
      if queue != [] {
        StoredObjects(old(state.objects) - DestroyedIds(old(state.objects)), queue);
        forall o | o in queue
          ensures o.id in IdsOf(queue)
        {
          var i :| 0 <= i < |queue| && queue[i] == o;
        }
      }
    }

    // -------------------------------------------------------------------------------
    // Explosions and projectiles
    // -------------------------------------------------------------------------------

    /** `growExplosions`: every live, unfrozen explosion grows; nothing else changes. */
    method GrowExplosions(deltaSeconds: real)
      requires Valid()
      modifies state`objects, this`toUpdateCollisions
      ensures Valid()
      ensures state.objects == Applied(old(state.objects), ExplosionIds(old(state.objects)), GrowExplosion(deltaSeconds))
      ensures toUpdateCollisions == old(toUpdateCollisions) + set id | id in ExplosionIds(old(state.objects)) && !old(state.objects)[id].freeze
    {
      ghost var start := state.objects;
      var todo := ExplosionIds(state.objects);
      ghost var done: set<Id> := {};
      while todo != {}
        invariant todo !! done && todo + done == ExplosionIds(start)
        invariant state.objects == Applied(start, done, GrowExplosion(deltaSeconds))
        invariant toUpdateCollisions == old(toUpdateCollisions) + set id | id in done && !start[id].freeze
        invariant Valid()
        decreases todo
      {
        var id :| id in todo;
        AppliedStep(start, done, id, GrowExplosion(deltaSeconds));
        var explosion := state.objects[id];
        if !explosion.freeze {
          state.objects := state.objects[id := Grown(explosion, deltaSeconds)];
          toUpdateCollisions := toUpdateCollisions + {id};
        }
        todo := todo - {id};
        done := done + {id};
      }
    }

    /** The explosion half of `destroyTimedOut`: live, unfrozen explosions age and expire. */
    method AgeExplosions(deltaSeconds: real)
      requires Valid()
      modifies state`objects
      ensures Valid()
      ensures state.objects == Applied(old(state.objects), ExplosionIds(old(state.objects)), AgeExplosion(deltaSeconds))
    {
      ghost var start := state.objects;
      var todo := ExplosionIds(state.objects);
      ghost var done: set<Id> := {};
      while todo != {}
        invariant todo !! done && todo + done == ExplosionIds(start)
        invariant state.objects == Applied(start, done, AgeExplosion(deltaSeconds))
        invariant Valid()
        decreases todo
      {
        var id :| id in todo;
        AppliedStep(start, done, id, AgeExplosion(deltaSeconds));
        var explosion := state.objects[id];
        if !explosion.freeze {
          state.objects := state.objects[id := AgedExplosion(explosion, deltaSeconds)];
        }
        todo := todo - {id};
        done := done + {id};
      }
    }

    /**
     * `explodeProjectile`: the projectile is destroyed and its explosion queued, with the
     * next id drawn.
     */
    method ExplodeProjectile(id: Id)
      requires id in state.objects && state.objects[id].kind.Projectile?
      modifies state`objects, this`toInsert, this`drawnIds
      ensures state.objects == old(state.objects)[id := old(state.objects)[id].(destroyed := true)]
      ensures toInsert == old(toInsert) + [ExplosionOf(old(state.objects)[id], defaultExplosion, newId("explosion", old(drawnIds)))]
      ensures drawnIds == old(drawnIds) + 1
    {
      var projectile := state.objects[id];
      state.objects := state.objects[id := projectile.(destroyed := true)];
      var explosionId := DrawId("explosion");
      Insert(ExplosionOf(projectile, defaultExplosion, explosionId));
    }

    /**
     * Progress of `destroyTimedOut` over the projectiles: those in `done` are aged, and the
     * explosions of those of them that are `expiring` are queued after `queued`.
     */
    ghost predicate AgingProgress(start: Objects, deltaSeconds: real, expiring: set<Id>, done: set<Id>,
                                  queued: seq<SpaceObject>, drawn: nat, exploded: seq<Id>)
      reads state`objects, this`toInsert, this`drawnIds
    {
      && state.objects == Applied(start, done, AgeShell(deltaSeconds))
      && toInsert == queued + ExplosionsFor(newId, defaultExplosion, start, exploded, drawn)
      && drawnIds == drawn + |exploded|
      && ListsExactly(exploded, done, expiring)
    }

    /**
     * One projectile of `destroyTimedOut`: unless frozen it ages, and when its time has run
     * out it explodes, queueing its explosion with the next drawn id.
     */
    method AgeOneShell(id: Id, deltaSeconds: real, ghost start: Objects, ghost done: set<Id>)
      requires id in ProjectileIds(start) && id !in done
      requires state.objects == Applied(start, done, AgeShell(deltaSeconds))
      modifies state`objects, this`toInsert, this`drawnIds
      ensures state.objects == Applied(start, done + {id}, AgeShell(deltaSeconds))
      ensures id in ExpiringShells(start, deltaSeconds) ==>
        toInsert == old(toInsert) + [ExplosionOf(start[id], defaultExplosion, newId("explosion", old(drawnIds)))]
        && drawnIds == old(drawnIds) + 1
      ensures id !in ExpiringShells(start, deltaSeconds) ==> toInsert == old(toInsert) && drawnIds == old(drawnIds)
    {
      AppliedStep(start, done, id, AgeShell(deltaSeconds));
      ghost var before := state.objects;
      ghost var after := Applied(start, done + {id}, AgeShell(deltaSeconds));
      assert after == before[id := ShellAfterTick(start[id], deltaSeconds)];
      var shell := state.objects[id];
      if !shell.freeze {
        var aged := AgedProjectile(shell, deltaSeconds);
        state.objects := state.objects[id := aged];
        if aged.kind.secondsToLive <= 0.0 {
          ExplosionOfAged(start[id], deltaSeconds, defaultExplosion, newId("explosion", drawnIds));
          ExplodeProjectile(id);
          assert ShellAfterTick(start[id], deltaSeconds) == aged.(destroyed := true);
          assert state.objects == before[id := aged.(destroyed := true)];
        } else {
          assert ShellAfterTick(start[id], deltaSeconds) == aged;
        }
      } else {
        assert before == before[id := start[id]];
      }
    }

    /** `AgeOneShell`, with the projectile it may explode recorded in the progress of the loop. */
    method AgeAndRecord(id: Id, deltaSeconds: real, ghost start: Objects, ghost expiring: set<Id>, ghost done: set<Id>,
                        ghost queued: seq<SpaceObject>, ghost drawn: nat, ghost exploded: seq<Id>)
      returns (ghost explodedAfter: seq<Id>)
      requires id in ProjectileIds(start) && id !in done && expiring == ExpiringShells(start, deltaSeconds)
      requires AgingProgress(start, deltaSeconds, expiring, done, queued, drawn, exploded)
      modifies state`objects, this`toInsert, this`drawnIds
      ensures AgingProgress(start, deltaSeconds, expiring, done + {id}, queued, drawn, explodedAfter)
    {
      ghost var born := ExplosionsFor(newId, defaultExplosion, start, exploded, drawn);
      ghost var explosion := ExplosionOf(start[id], defaultExplosion, newId("explosion", drawn + |exploded|));
      explodedAfter := if id in expiring then exploded + [id] else exploded;
      ListsExactlyStep(exploded, done, expiring, id);
      ghost var before := toInsert;
      assert before == queued + born;
      assert explosion == ExplosionOf(start[id], defaultExplosion, newId("explosion", drawnIds));
      AgeOneShell(id, deltaSeconds, start, done);
      if id in expiring {
        assert toInsert == before + [explosion];
        ExplosionsForAppend(newId, defaultExplosion, start, exploded, drawn, id);
        AppendAfterPrefix(queued, born, explosion);
      } else {
        assert toInsert == before;
      }
    }

    /** The loop of the projectile half of `destroyTimedOut`, over the projectiles `ids`. */
    method AgeShells(ids: set<Id>, deltaSeconds: real, ghost expiring: set<Id>) returns (ghost exploded: seq<Id>)
      requires ids <= ProjectileIds(state.objects) && expiring == ExpiringShells(state.objects, deltaSeconds)
      modifies state`objects, this`toInsert, this`drawnIds
      ensures AgingProgress(old(state.objects), deltaSeconds, expiring, ids, old(toInsert), old(drawnIds), exploded)
    {
      ghost var start, queued, drawn := state.objects, toInsert, drawnIds;
      var todo := ids;
      ghost var done: set<Id> := {};
      exploded := [];
      while todo != {}
        invariant todo !! done && todo + done == ids
        invariant AgingProgress(start, deltaSeconds, expiring, done, queued, drawn, exploded)
        decreases todo
      {
        var id :| id in todo;
        exploded := AgeAndRecord(id, deltaSeconds, start, expiring, done, queued, drawn, exploded);
        todo := todo - {id};
        done := done + {id};
      }
    }

    /**
     * The projectile half of `destroyTimedOut`: live, unfrozen projectiles age, and each one
     * whose time runs out is destroyed and queues exactly one explosion, its own, with the
     * next drawn id; `exploded` lists the expiring projectiles in the order they exploded.
     */
    method AgeProjectiles(deltaSeconds: real) returns (ghost exploded: seq<Id>)
      requires Valid()
      modifies state`objects, this`toInsert, this`drawnIds
      ensures Valid()
      ensures state.objects == Applied(old(state.objects), ProjectileIds(old(state.objects)), AgeShell(deltaSeconds))
      ensures |exploded| == |ExpiringShells(old(state.objects), deltaSeconds)|
      ensures forall id :: id in exploded <==> id in ExpiringShells(old(state.objects), deltaSeconds)
      ensures toInsert == old(toInsert) + ExplosionsFor(newId, defaultExplosion, old(state.objects), exploded, old(drawnIds))
      ensures drawnIds == old(drawnIds) + |exploded|
    {
      ghost var start := state.objects;
      exploded := AgeShells(ProjectileIds(state.objects), deltaSeconds, ExpiringShells(state.objects, deltaSeconds));
      ExpiredExplosions(newId, defaultExplosion, start, deltaSeconds, exploded, old(drawnIds));
      AppliedNeverRevives(start, ProjectileIds(start), AgeShell(deltaSeconds));
    }

    /** `frozendAndAttachedDontMove`: live objects that are frozen or attached stop. */
    method FrozenAndAttachedDontMove()
      requires Valid()
      modifies state`objects
      ensures Valid()
      ensures state.objects == Applied(old(state.objects), LiveIds(old(state.objects)), StopFrozenAndAttached(attachments))
    {
      ghost var start := state.objects;
      var todo := LiveIds(state.objects);
      ghost var done: set<Id> := {};
      while todo != {}
        invariant todo !! done && todo + done == LiveIds(start)
        invariant state.objects == Applied(start, done, StopFrozenAndAttached(attachments))
        invariant Valid()
        decreases todo
      {
        var id :| id in todo;
        AppliedStep(start, done, id, StopFrozenAndAttached(attachments));
        var o := state.objects[id];
        if o.freeze || (id in attachments && attachments[id] != "") {
          state.objects := state.objects[id := o.(velocity := ZERO, turnSpeed := 0.0)];
        }
        todo := todo - {id};
        done := done + {id};
      }
    }

    /** `updateCollisionBodies`: the pending bodies are brought up to date. */
    method UpdateCollisionBodies()
      modifies this`toUpdateCollisions
      ensures toUpdateCollisions == {}
    {
      toUpdateCollisions := {};
    }

    // -------------------------------------------------------------------------------
    // Collisions
    // -------------------------------------------------------------------------------

    /**
     * One pair of `handleCollisions`: a filtered-out pair changes nothing; a projectile
     * explodes; an explosion backs out; a solid takes the response's velocity change and its
     * damage (a ship as a queued damage record when there is an arc, others on health).
     * Returns the subject's position change.
     */
    method HandleCollisionPair(deltaSeconds: real, pair: CollisionPair) returns (positionChange: Option<XY>)
      requires Valid() && deltaSeconds != 0.0
      modifies state`objects, this`objectDamage, this`toInsert, this`drawnIds
      ensures Valid()
      ensures !CollisionApplies(old(state.objects), pair) ==>
        && positionChange.None? && state.objects == old(state.objects) && objectDamage == old(objectDamage)
        && toInsert == old(toInsert) && drawnIds == old(drawnIds)
      ensures CollisionApplies(old(state.objects), pair) ==>
        var a := pair.a.value;
        var subject, other := old(state.objects)[a], old(state.objects)[pair.b.value];
        && (subject.kind.Projectile? ==>
              && positionChange.None? && objectDamage == old(objectDamage)
              && state.objects == old(state.objects)[a := subject.(destroyed := true)]
              && toInsert == old(toInsert) + [ExplosionOf(subject, defaultExplosion, newId("explosion", old(drawnIds)))])
        && (subject.kind.Explosion? ==>
              var (stops, change) := ExplosionCollision(subject.radius, pair, limitPercision);
              && positionChange == change && objectDamage == old(objectDamage) && toInsert == old(toInsert)
              && state.objects == old(state.objects)[a := if stops then subject.(velocity := ZERO) else subject])
        && (!subject.kind.Projectile? && !subject.kind.Explosion? ==>
              var res := SolidCollision(deltaSeconds, subject, other, pair.overlap, pair.overlapV);
              var pushed := subject.(velocity := subject.velocity.Add(res.velocityChange));
              && positionChange == res.positionChange && toInsert == old(toInsert)
              && (subject.kind.Spaceship? ==>
                    && state.objects == old(state.objects)[a := pushed]
                    && objectDamage == (if pair.shipArc.Some?
                                        then AppendDamage(old(objectDamage), a, ShipDamage(other, res.damageAmount, pair.shipArc.value, deltaSeconds))
                                        else old(objectDamage)))
              && (!subject.kind.Spaceship? ==>
                    && state.objects == old(state.objects)[a := pushed.(health := subject.health - res.damageAmount)]
                    && objectDamage == old(objectDamage)))
      ensures (CollisionWorld(state.objects, objectDamage, toInsert, drawnIds), positionChange)
        == PairOutcome(newId, defaultExplosion, limitPercision, deltaSeconds,
                       CollisionWorld(old(state.objects), old(objectDamage), old(toInsert), old(drawnIds)), pair)
    {
      positionChange := None;
      if !CollisionApplies(state.objects, pair) {
        return;
      }
      var a := pair.a.value;
      var subject, other := state.objects[a], state.objects[pair.b.value];
      if subject.kind.Projectile? {
        ExplodeProjectile(a);
      } else if subject.kind.Explosion? {
        var (stops, change) := ExplosionCollision(subject.radius, pair, limitPercision);
        if stops {
          state.objects := state.objects[a := subject.(velocity := ZERO)];
        }
        positionChange := change;
      } else {
        var res := SolidCollision(deltaSeconds, subject, other, pair.overlap, pair.overlapV);
        positionChange := res.positionChange;
        var pushed := subject.(velocity := subject.velocity.Add(res.velocityChange));
        if subject.kind.Spaceship? {
          state.objects := state.objects[a := pushed];
          if pair.shipArc.Some? {
            objectDamage := AppendDamage(objectDamage, a, ShipDamage(other, res.damageAmount, pair.shipArc.value, deltaSeconds));
          }
        } else {
          state.objects := state.objects[a := pushed.(health := subject.health - res.damageAmount)];
        }
      }
    }

    /** Moves a subject's clique (or the subject alone) by a collision's position change. */
    method ApplyPositionChange(s: Id, p: XY)
      requires Valid()
      modifies state`objects, this`toUpdateCollisions
      ensures Valid()
      ensures state.objects == Moved(old(state.objects), CliqueOf(attachmentCliques, s), p)
      ensures toUpdateCollisions == old(toUpdateCollisions) + CliqueOf(attachmentCliques, s) * old(state.objects).Keys
    {
      MoveAll(CliqueOf(attachmentCliques, s), p);
    }

    /**
     * `handleCollisions`: every pair the collision library reports, in order, then the
     * collected position changes, each moving the subject's clique.
     */
    method HandleCollisions(deltaSeconds: real, pairs: seq<CollisionPair>)
      requires Valid() && deltaSeconds != 0.0
      modifies state`objects, this`objectDamage, this`toInsert, this`drawnIds, this`toUpdateCollisions
      ensures Valid()
      ensures state.objects.Keys == old(state.objects.Keys)
      ensures |old(toInsert)| <= |toInsert| && toInsert[..|old(toInsert)|] == old(toInsert)
      ensures forall id :: id in old(objectDamage) ==> id in objectDamage && old(objectDamage)[id] <= objectDamage[id]
      ensures var (w, changes) := CollisionPass(newId, defaultExplosion, limitPercision, deltaSeconds,
                                    CollisionWorld(old(state.objects), old(objectDamage), old(toInsert), old(drawnIds)), pairs);
        && objectDamage == w.damage && toInsert == w.queued && drawnIds == w.drawn
        && state.objects == PositionsApplied(attachmentCliques, w.objects, changes)
        && toUpdateCollisions == old(toUpdateCollisions) + Touched(attachmentCliques, changes) * old(state.objects).Keys
    {
      var changes := FirstCollisionPass(deltaSeconds, pairs);
      ApplyPositionChanges(changes);
    }

    /** The first pass of `handleCollisions`: every pair, in order; returns the position changes. */
    method FirstCollisionPass(deltaSeconds: real, pairs: seq<CollisionPair>) returns (changes: seq<(Id, XY)>)
      requires Valid() && deltaSeconds != 0.0
      modifies state`objects, this`objectDamage, this`toInsert, this`drawnIds
      ensures Valid()
      ensures (CollisionWorld(state.objects, objectDamage, toInsert, drawnIds), changes)
        == CollisionPass(newId, defaultExplosion, limitPercision, deltaSeconds,
                         CollisionWorld(old(state.objects), old(objectDamage), old(toInsert), old(drawnIds)), pairs)
    {
      ghost var start := CollisionWorld(state.objects, objectDamage, toInsert, drawnIds);
      changes := [];
      var i := 0;
      while i < |pairs|
        invariant 0 <= i <= |pairs| && Valid()
        invariant (CollisionWorld(state.objects, objectDamage, toInsert, drawnIds), changes)
          == CollisionPass(newId, defaultExplosion, limitPercision, deltaSeconds, start, pairs[..i])
      {
        var pair := pairs[i];
        assert pairs[..i + 1][..i] == pairs[..i];
        var change := HandleCollisionPair(deltaSeconds, pair);
        if change.Some? {
          changes := changes + [(pair.a.value, change.value)];
        }
        i := i + 1;
      }
      assert pairs[..i] == pairs;
    }

    /** The second pass of `handleCollisions`: each position change moves its subject's clique. */
    method ApplyPositionChanges(changes: seq<(Id, XY)>)
      requires Valid()
      modifies state`objects, this`toUpdateCollisions
      ensures Valid()
      ensures state.objects == PositionsApplied(attachmentCliques, old(state.objects), changes)
      ensures toUpdateCollisions == old(toUpdateCollisions) + Touched(attachmentCliques, changes) * old(state.objects).Keys
    {
      ghost var start, pending, keys := state.objects, toUpdateCollisions, state.objects.Keys;
      var j := 0;
      while j < |changes|
        invariant 0 <= j <= |changes| && Valid()
        invariant state.objects == PositionsApplied(attachmentCliques, start, changes[..j])
        invariant toUpdateCollisions == pending + Touched(attachmentCliques, changes[..j]) * keys
      {
        PositionsAppliedStep(attachmentCliques, start, changes, j);
        ApplyPositionChange(changes[j].0, changes[j].1);
        j := j + 1;
      }
      assert changes[..j] == changes;
    }

    // -------------------------------------------------------------------------------
    // The tick
    // -------------------------------------------------------------------------------

    /** Steps 2 to 4 of `update`: every create command queues its new object. */
    method CreateCommandedObjects()
      modifies this`toInsert, this`drawnIds,
        state`createAsteroidCommands, state`createExplosionCommands, state`createWaypointCommands
      ensures state.createAsteroidCommands == [] && state.createExplosionCommands == [] && state.createWaypointCommands == []
      ensures |toInsert| == |old(toInsert)| + |old(state.createAsteroidCommands)|
        + |old(state.createExplosionCommands)| + |old(state.createWaypointCommands)|
      ensures var asteroids := |old(state.createAsteroidCommands)|;
              var explosions := |old(state.createExplosionCommands)|;
        && toInsert == old(toInsert)
             + NewAsteroids(newId, old(state.createAsteroidCommands), old(drawnIds))
             + NewExplosions(newId, defaultExplosion, old(state.createExplosionCommands), old(drawnIds) + asteroids)
             + NewWaypoints(newId, waypointRadius, old(state.createWaypointCommands), old(drawnIds) + asteroids + explosions)
        && drawnIds == old(drawnIds) + asteroids + explosions + |old(state.createWaypointCommands)|
    {
      ghost var na, ne, nw := |state.createAsteroidCommands|, |state.createExplosionCommands|, |state.createWaypointCommands|;
      CreateAsteroids();
      assert |toInsert| == |old(toInsert)| + na;
      ghost var afterAsteroids := toInsert;
      CreateExplosions();
      assert |toInsert| == |afterAsteroids| + ne;
      ghost var afterExplosions := toInsert;
      CreateWaypoints();
      assert |toInsert| == |afterExplosions| + nw;
    }

    /**
     * The first half of `update`: the attachment cliques, the creation commands, the flush
     * of queued objects, the move commands and the bot orders. Every queue is drained.
     */
    method HandleCommands()
      requires Valid()
      modifies this`attachmentCliques, this`toInsert, this`drawnIds, this`tracked, this`attachments,
        this`secondsSinceLastGC, this`objectDamage, this`objectOrder, this`toUpdateCollisions,
        state`objects, state`createAsteroidCommands, state`createExplosionCommands, state`createWaypointCommands,
        state`moveCommands, state`botOrderCommands
      ensures Valid() && toInsert == []
      ensures state.createAsteroidCommands == [] && state.createExplosionCommands == [] && state.createWaypointCommands == []
      ensures state.moveCommands == [] && state.botOrderCommands == []
      ensures Consistent(attachmentCliques) && AllLive(attachmentCliques, old(state.objects))
      ensures forall a :: a in old(attachments) ==> Joined(attachmentCliques, old(state.objects), a, old(attachments)[a])
      ensures forall id :: id in attachmentCliques ==> id in old(attachments).Keys || id in old(attachments).Values
      ensures forall id :: id in attachmentCliques ==> Linked(old(attachments), old(attachments).Keys, attachmentCliques[id])
    {
      CalcAttachmentCliques();
      CreateCommandedObjects();
      HandleToInsert();
      HandleMoveCommands();
      HandleBotOrderCommands();
    }

    /**
     * The object rules of `update`: explosions grow and age, projectiles age and explode,
     * destroyed objects are untracked, frozen and attached objects stop, and the pending
     * collision bodies are synchronised. Afterwards exactly the live objects are tracked.
     */
    method AdvanceObjects(deltaSeconds: real) returns (ghost exploded: seq<Id>)
      requires Valid()
      modifies this`toInsert, this`drawnIds, this`tracked, this`attachments, this`toUpdateCollisions, state`objects
      ensures Valid() && tracked == LiveIds(state.objects)
      ensures var grown := Applied(old(state.objects), ExplosionIds(old(state.objects)), GrowExplosion(deltaSeconds));
              var aged := Applied(grown, ExplosionIds(grown), AgeExplosion(deltaSeconds));
              var shells := Applied(aged, ProjectileIds(aged), AgeShell(deltaSeconds));
        && state.objects == Applied(shells, LiveIds(shells), StopFrozenAndAttached(attachments))
        && attachments == old(attachments) - DestroyedIds(shells) * old(tracked)
        && (forall id :: id in exploded <==> id in ExpiringShells(aged, deltaSeconds))
        && toInsert == old(toInsert) + ExplosionsFor(newId, defaultExplosion, aged, exploded, old(drawnIds))
        && drawnIds == old(drawnIds) + |exploded|
      ensures toUpdateCollisions == {}
    {
      GrowExplosions(deltaSeconds);
      AgeExplosions(deltaSeconds);
      ghost var aged := state.objects;
      exploded := AgeProjectiles(deltaSeconds);
      ghost var shells := state.objects;
      UntrackDestroyedObjects();
      FrozenAndAttachedDontMove();
      UpdateCollisionBodies();
    }

    /**
     * `update`: one tick. Every command queue is drained, the manager stays valid, and the
     * garbage-collection timer never exceeds its timeout after a tick.
     */
    method Update(deltaSeconds: real, pairs: seq<CollisionPair>)
      requires Valid() && deltaSeconds != 0.0
      modifies this, state
      ensures Valid()
      ensures state.createAsteroidCommands == [] && state.createExplosionCommands == [] && state.createWaypointCommands == []
      ensures state.moveCommands == [] && state.botOrderCommands == []
      ensures secondsSinceLastGC <= GC_TIMEOUT
    {
      HandleCommands();
      ghost var exploded := AdvanceObjects(deltaSeconds);
      HandleCollisions(deltaSeconds, pairs);
      secondsSinceLastGC := secondsSinceLastGC + deltaSeconds;
      if secondsSinceLastGC > GC_TIMEOUT {
        Gc();
      }
    }
  }
}
