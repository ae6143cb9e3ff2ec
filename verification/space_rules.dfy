/**
 * The value-level rules of the space manager's tick: liveness and `getObjectPtr`, the
 * attachment cliques, the per-object rules for explosions, projectiles and frozen or
 * attached objects, and the collision response formulas.
 */
module SpaceRules {
  import opened Wrappers
  import opened SpaceObjectBase

  /** Seconds between two garbage collections. */
  const GC_TIMEOUT: real := 5.0

  /** A damage record queued for a ship by a collision. */
  datatype Damage = Damage(id: Id, amount: real, damageSurfaceArc: (real, real), damageDurationSeconds: real)

  datatype BotOrder = NoOrder | MoveOrder(position: XY) | AttackOrder(targetId: Id) | FollowOrder(targetId: Id)

  /** The stored objects of the space state, keyed by id. */
  type Objects = map<Id, SpaceObject>

  /** An id whose object is stored and not destroyed. */
  predicate Live(objects: Objects, id: Id) {
    id in objects && !objects[id].destroyed
  }

  /** `getObjectPtr`: the other, only while it is stored and not destroyed. */
  function ObjectPtr(objects: Objects, id: Id): (r: Option<SpaceObject>)
    ensures r.Some? <==> Live(objects, id)
    ensures r.Some? ==> r.value == objects[id]
  {
    if id in objects && !objects[id].destroyed then Some(objects[id]) else None
  }

  /** The ids `getObjectPtr(id)` yields: the id itself while live, else none. */
  function PtrIds(objects: Objects, id: Id): (r: set<Id>)
    ensures r == (if Live(objects, id) then {id} else {})
  {
    if ObjectPtr(objects, id).Some? then {id} else {}
  }

  // ---------------------------------------------------------------------------------
  // Attachment cliques
  // ---------------------------------------------------------------------------------

  /** The clique registered for each member id. */
  type Cliques = map<Id, set<Id>>

  /** `attachmentCliques.get(id) || getObjectPtr(id)`. */
  function Group(cl: Cliques, objects: Objects, id: Id): set<Id> {
    if id in cl then cl[id] else PtrIds(objects, id)
  }

  /** Every member is registered, and every member of a clique maps to that same clique. */
  ghost predicate Consistent(cl: Cliques) {
    && (forall id :: id in cl ==> id in cl[id])
    && (forall id, m :: id in cl && m in cl[id] ==> m in cl && cl[m] == cl[id])
  }

  ghost predicate AllLive(cl: Cliques, objects: Objects) {
    forall id :: id in cl ==> Live(objects, id)
  }

  /** The two ends of an attachment, when live, are registered with one shared clique. */
  ghost predicate Joined(cl: Cliques, objects: Objects, a: Id, b: Id) {
    && (Live(objects, a) ==> a in cl)
    && (Live(objects, b) ==> b in cl)
    && (Live(objects, a) && Live(objects, b) ==> cl[a] == cl[b])
  }

  /** Every member of the merged clique is registered with it; the others keep theirs. */
  function Merge(cl: Cliques, clique: set<Id>): (r: Cliques)
    ensures r.Keys == cl.Keys + clique
    ensures forall m :: m in clique ==> r[m] == clique
    ensures forall m :: m in cl && m !in clique ==> r[m] == cl[m]
  {
    map m | m in cl.Keys + clique :: if m in clique then clique else cl[m]
  }

  /** A registered group is its members' clique; an unregistered one is at most the id itself. */
  lemma {:induction false} GroupIsClosed(cl: Cliques, objects: Objects, a: Id)
    requires Consistent(cl) && AllLive(cl, objects)
    ensures forall m :: m in Group(cl, objects, a) && m in cl ==> cl[m] == Group(cl, objects, a)
    ensures forall m :: m in Group(cl, objects, a) ==> Live(objects, m)
    ensures Live(objects, a) ==> a in Group(cl, objects, a)
    ensures Group(cl, objects, a) <= cl.Keys + {a}
  {
  }

  /** Every registered member of `clique` has its whole clique inside it. */
  ghost predicate Closed(cl: Cliques, clique: set<Id>) {
    forall m :: m in clique && m in cl ==> cl[m] <= clique
  }

  /** Merging a closed clique keeps the cliques consistent. */
  lemma {:induction false} MergeConsistent(cl: Cliques, clique: set<Id>)
    requires Consistent(cl) && Closed(cl, clique)
    ensures Consistent(Merge(cl, clique))
  {
    var r := Merge(cl, clique);
    forall id, m | id in r && m in r[id]
      ensures m in r && r[m] == r[id]
    {
      if id !in clique {
        assert m in cl[id] && id in cl[id];
      }
    }
  }

  /** Merging a closed clique keeps every two ids that shared a clique together. */
  lemma {:induction false} MergeKeepsJoins(cl: Cliques, clique: set<Id>)
    requires Consistent(cl) && Closed(cl, clique)
    ensures forall x, y :: x in cl && y in cl && cl[x] == cl[y] ==> Merge(cl, clique)[x] == Merge(cl, clique)[y]
  {
    forall x, y | x in cl && y in cl && cl[x] == cl[y]
      ensures Merge(cl, clique)[x] == Merge(cl, clique)[y]
    {
      assert x in cl[x] && y in cl[y];
    }
  }

  /**
   * One step of `calcAttachmentCliques`: merging the two ends' groups keeps the cliques
   * consistent and live, joins the two ends, keeps every earlier join, and registers
   * nothing but the two ends and ids already registered.
   */
  lemma {:induction false} MergeStep(cl: Cliques, objects: Objects, a: Id, b: Id)
    requires Consistent(cl) && AllLive(cl, objects)
    ensures var r := Merge(cl, Group(cl, objects, a) + Group(cl, objects, b));
      && Consistent(r) && AllLive(r, objects)
      && cl.Keys <= r.Keys <= cl.Keys + {a, b}
      && Joined(r, objects, a, b)
      && (forall x, y :: x in cl && y in cl && cl[x] == cl[y] ==> r[x] == r[y])
  {
    var c := Group(cl, objects, a) + Group(cl, objects, b);
    GroupIsClosed(cl, objects, a);
    GroupIsClosed(cl, objects, b);
    assert Closed(cl, c);
    MergeConsistent(cl, c);
    MergeKeepsJoins(cl, c);
  }

  /** Some attachment among `edges` has one end in `part` and the other in the rest of `clique`. */
  ghost predicate Crossed(attachments: map<Id, Id>, edges: set<Id>, clique: set<Id>, part: set<Id>) {
    exists x :: x in edges && x in attachments
      && ((x in part && attachments[x] in clique - part) || (x in clique - part && attachments[x] in part))
  }

  /**
   * The members of `clique` are linked by the attachments among `edges`: however the clique
   * is split in two, some of those attachments joins the two parts.
   */
  ghost predicate Linked(attachments: map<Id, Id>, edges: set<Id>, clique: set<Id>) {
    forall part :: part <= clique && part != {} && part != clique ==> Crossed(attachments, edges, clique, part)
  }

  /** More attachments keep a clique linked. */
  lemma LinkedByMore(attachments: map<Id, Id>, edges: set<Id>, more: set<Id>, clique: set<Id>)
    requires Linked(attachments, edges, clique) && edges <= more
    ensures Linked(attachments, more, clique)
  {
    forall part | part <= clique && part != {} && part != clique
      ensures Crossed(attachments, more, clique, part)
    {
      assert Crossed(attachments, edges, clique, part);
      var x :| x in edges && x in attachments
        && ((x in part && attachments[x] in clique - part) || (x in clique - part && attachments[x] in part));
      assert x in more;
    }
  }

  /** No attachment is needed to link at most one id. */
  lemma LinkedAtMostOne(attachments: map<Id, Id>, edges: set<Id>, clique: set<Id>, a: Id)
    requires clique <= {a}
    ensures Linked(attachments, edges, clique)
  {
  }

  /** An attachment from one linked clique to another links their union. */
  lemma LinkedUnion(attachments: map<Id, Id>, edges: set<Id>, g1: set<Id>, g2: set<Id>, a: Id)
    requires a in edges && a in attachments && a in g1 && attachments[a] in g2
    requires Linked(attachments, edges, g1) && Linked(attachments, edges, g2)
    ensures Linked(attachments, edges, g1 + g2)
  {
    var c := g1 + g2;
    forall part | part <= c && part != {} && part != c
      ensures Crossed(attachments, edges, c, part)
    {
      var p1, p2 := part * g1, part * g2;
      if p1 != {} && p1 != g1 {
        assert Crossed(attachments, edges, g1, p1);
        var x :| x in edges && x in attachments
          && ((x in p1 && attachments[x] in g1 - p1) || (x in g1 - p1 && attachments[x] in p1));
        assert x in edges && x in attachments
          && ((x in part && attachments[x] in c - part) || (x in c - part && attachments[x] in part));
      } else if p2 != {} && p2 != g2 {
        assert Crossed(attachments, edges, g2, p2);
        var x :| x in edges && x in attachments
          && ((x in p2 && attachments[x] in g2 - p2) || (x in g2 - p2 && attachments[x] in p2));
        assert x in edges && x in attachments
          && ((x in part && attachments[x] in c - part) || (x in c - part && attachments[x] in part));
      } else if a in part {
        assert a in p1;
        assert part == p1 + p2;
        assert p2 == {};
        assert attachments[a] in c - part;
      } else {
        assert p1 == {};
        assert p2 == g2 by {
          assert part == p1 + p2;
        }
      }
    }
  }

  /**
   * The merging step of `calcAttachmentCliques` keeps every registered clique linked, the
   * merged one by the attachment just handled.
   */
  lemma MergeLinked(cl: Cliques, objects: Objects, attachments: map<Id, Id>, edges: set<Id>, a: Id)
    requires Consistent(cl) && AllLive(cl, objects) && a in attachments
    requires forall id :: id in cl ==> Linked(attachments, edges, cl[id])
    ensures var r := Merge(cl, Group(cl, objects, a) + Group(cl, objects, attachments[a]));
      forall id :: id in r ==> Linked(attachments, edges + {a}, r[id])
  {
    var b := attachments[a];
    var g1, g2 := Group(cl, objects, a), Group(cl, objects, b);
    var c := g1 + g2;
    var more := edges + {a};
    GroupIsClosed(cl, objects, a);
    GroupIsClosed(cl, objects, b);
    if a in cl {
      LinkedByMore(attachments, edges, more, g1);
    } else {
      LinkedAtMostOne(attachments, more, g1, a);
    }
    if b in cl {
      LinkedByMore(attachments, edges, more, g2);
    } else {
      LinkedAtMostOne(attachments, more, g2, b);
    }
    if g1 == {} {
      assert c == g2;
    } else if g2 == {} {
      assert c == g1;
    } else {
      assert a in g1 && b in g2;
      LinkedUnion(attachments, more, g1, g2, a);
    }
    var r := Merge(cl, c);
    forall id | id in r
      ensures Linked(attachments, more, r[id])
    {
      if id !in c {
        LinkedByMore(attachments, edges, more, cl[id]);
      }
    }
  }

  /**
   * Progress of `calcAttachmentCliques` with the attachers `todo` still to handle: the cliques
   * are consistent and live, join the ends of every handled attachment, register only
   * attachment ends, and are each linked by the handled attachments.
   */
  ghost predicate CliquesSoFar(cl: Cliques, objects: Objects, attachments: map<Id, Id>, todo: set<Id>) {
    && todo <= attachments.Keys
    && Consistent(cl) && AllLive(cl, objects)
    && (forall a :: a in attachments && a !in todo ==> Joined(cl, objects, a, attachments[a]))
    && (forall id :: id in cl ==> id in attachments.Keys || id in attachments.Values)
    && (forall id :: id in cl ==> Linked(attachments, attachments.Keys - todo, cl[id]))
  }

  /** Handling one more attacher, by merging the groups of its two ends, keeps the progress. */
  lemma CliquesStep(cl: Cliques, objects: Objects, attachments: map<Id, Id>, todo: set<Id>, a: Id)
    requires CliquesSoFar(cl, objects, attachments, todo) && a in todo
    ensures CliquesSoFar(Merge(cl, Group(cl, objects, a) + Group(cl, objects, attachments[a])),
                         objects, attachments, todo - {a})
  {
    var b := attachments[a];
    var r := Merge(cl, Group(cl, objects, a) + Group(cl, objects, b));
    assert Consistent(r) && AllLive(r, objects)
      && forall id :: id in r ==> id in attachments.Keys || id in attachments.Values
    by {
      MergeStep(cl, objects, a, b);
    }
    assert forall x :: x in attachments && x !in todo - {a} ==> Joined(r, objects, x, attachments[x]) by {
      MergeStep(cl, objects, a, b);
      forall x | x in attachments && x !in todo - {a}
        ensures Joined(r, objects, x, attachments[x])
      {
        if x != a {
          assert Joined(cl, objects, x, attachments[x]);
        }
      }
    }
    assert forall id :: id in r ==> Linked(attachments, attachments.Keys - (todo - {a}), r[id]) by {
      MergeLinked(cl, objects, attachments, attachments.Keys - todo, a);
      assert attachments.Keys - todo + {a} == attachments.Keys - (todo - {a});
    }
  }

  /** `getAttachedClique(ids)`: the union of every id's group. */
  function AttachedClique(cl: Cliques, objects: Objects, ids: seq<Id>): set<Id> {
    if ids == [] then {} else AttachedClique(cl, objects, ids[..|ids| - 1]) + Group(cl, objects, ids[|ids| - 1])
  }

  /** The attached clique holds exactly what some id's group holds. */
  lemma {:induction false} AttachedCliqueMembers(cl: Cliques, objects: Objects, ids: seq<Id>)
    ensures forall x :: x in AttachedClique(cl, objects, ids) <==> exists i :: 0 <= i < |ids| && x in Group(cl, objects, ids[i])
  {
    if ids != [] {
      var n := |ids| - 1;
      AttachedCliqueMembers(cl, objects, ids[..n]);
      forall x | x in AttachedClique(cl, objects, ids)
        ensures exists i :: 0 <= i < |ids| && x in Group(cl, objects, ids[i])
      {
        if x !in Group(cl, objects, ids[n]) {
          assert x in AttachedClique(cl, objects, ids[..n]);
          var i :| 0 <= i < n && x in Group(cl, objects, ids[..n][i]);
          assert ids[..n][i] == ids[i];
        }
      }
      forall x | exists i :: 0 <= i < |ids| && x in Group(cl, objects, ids[i])
        ensures x in AttachedClique(cl, objects, ids)
      {
        var i :| 0 <= i < |ids| && x in Group(cl, objects, ids[i]);
        if i < n {
          assert ids[..n][i] == ids[i];
        }
      }
    }
  }

  /**
   * Over consistent live cliques the attached clique holds only live objects: a move command
   * never moves a missing or destroyed other.
   */
  lemma AttachedCliqueLive(cl: Cliques, objects: Objects, ids: seq<Id>)
    requires Consistent(cl) && AllLive(cl, objects)
    ensures forall x :: x in AttachedClique(cl, objects, ids) ==> Live(objects, x)
  {
    AttachedCliqueMembers(cl, objects, ids);
    forall x | x in AttachedClique(cl, objects, ids)
      ensures Live(objects, x)
    {
      var i :| 0 <= i < |ids| && x in Group(cl, objects, ids[i]);
      GroupIsClosed(cl, objects, ids[i]);
    }
  }

  /** An attached id moves its whole clique: every member of its group is in the result. */
  lemma AttachedCliqueHasWholeCliques(cl: Cliques, objects: Objects, ids: seq<Id>, i: int)
    requires Consistent(cl) && AllLive(cl, objects)
    requires 0 <= i < |ids| && ids[i] in cl
    ensures cl[ids[i]] <= AttachedClique(cl, objects, ids)
  {
    AttachedCliqueMembers(cl, objects, ids);
  }

  // ---------------------------------------------------------------------------------
  // Per-object rules of the tick
  // ---------------------------------------------------------------------------------

  /** `growExplosions` on one other: a live, unfrozen explosion grows by its expansion speed. */
  function Grown(o: SpaceObject, deltaSeconds: real): (r: SpaceObject)
    ensures o.kind.Explosion? && !o.destroyed && !o.freeze ==>
      r == o.(radius := o.radius + o.kind.expansionSpeed * deltaSeconds)
    ensures !(o.kind.Explosion? && !o.destroyed && !o.freeze) ==> r == o
  {
    if o.kind.Explosion? && !o.destroyed && !o.freeze then
      o.(radius := o.radius + o.kind.expansionSpeed * deltaSeconds)
    else o
  }

  /** A growing explosion never shrinks when it expands outward over forward time. */
  lemma GrownNeverShrinks(o: SpaceObject, deltaSeconds: real)
    requires deltaSeconds >= 0.0 && (o.kind.Explosion? ==> o.kind.expansionSpeed >= 0.0)
    ensures Grown(o, deltaSeconds).radius >= o.radius
    ensures Grown(o, deltaSeconds).id == o.id
  {
  }

  /**
   * `destroyTimedOut` on one live, unfrozen explosion: its time to live drops by the tick
   * and it is destroyed once that reaches 0.
   */
  function AgedExplosion(o: SpaceObject, deltaSeconds: real): (r: SpaceObject)
    requires o.kind.Explosion?
    ensures r.kind.Explosion? && r.id == o.id && r.position == o.position && r.radius == o.radius
    ensures r.kind.secondsToLive == o.kind.secondsToLive - deltaSeconds
    ensures r.destroyed <==> o.destroyed || r.kind.secondsToLive <= 0.0
  {
    var left := o.kind.secondsToLive - deltaSeconds;
    var k := o.kind;
    o.(kind := Explosion(left, k.expansionSpeed, k.damageFactor, k.blastFactor), destroyed := o.destroyed || left <= 0.0)
  }

  /** A projectile with its time to live lowered by the tick. */
  function AgedProjectile(o: SpaceObject, deltaSeconds: real): (r: SpaceObject)
    requires o.kind.Projectile?
    ensures r.kind.Projectile? && r.id == o.id && r.position == o.position && r.velocity == o.velocity
    ensures r.kind.secondsToLive == o.kind.secondsToLive - deltaSeconds
    ensures r.destroyed == o.destroyed
  {
    var k := o.kind;
    o.(kind := Projectile(k.model, k.secondsToLive - deltaSeconds, k.homing, k.targetId, k.explosion))
  }

  /**
   * The explosion `explodeProjectile` queues: the projectile's own explosion template or
   * the default one, with a new id, at the projectile's position and with its velocity.
   */
  function ExplosionOf(projectile: SpaceObject, defaultExplosion: ExplosionTemplate, id: Id): (e: SpaceObject)
    requires projectile.kind.Projectile?
    ensures e.kind.Explosion? && e.id == id && !e.destroyed && !e.freeze
    ensures e.position == projectile.position && e.velocity == projectile.velocity
    ensures var t := projectile.kind.explosion.GetOr(defaultExplosion);
      e.radius == t.radius && e.kind == Explosion(t.secondsToLive, t.expansionSpeed, t.damageFactor, t.blastFactor)
  {
    var t := projectile.kind.explosion.GetOr(defaultExplosion);
    NewObject(Explosion(t.secondsToLive, t.expansionSpeed, t.damageFactor, t.blastFactor), id, projectile.position, t.radius)
      .(velocity := projectile.velocity)
  }

  /** Ageing a projectile leaves the explosion it would queue unchanged. */
  lemma ExplosionOfAged(projectile: SpaceObject, deltaSeconds: real, defaultExplosion: ExplosionTemplate, id: Id)
    requires projectile.kind.Projectile?
    ensures ExplosionOf(AgedProjectile(projectile, deltaSeconds), defaultExplosion, id)
         == ExplosionOf(projectile, defaultExplosion, id)
  {
  }

  /** `frozendAndAttachedDontMove` on one other: frozen or attached objects stop. */
  function Stilled(o: SpaceObject, attached: bool): (r: SpaceObject)
    ensures (o.freeze || attached) ==> r == o.(velocity := ZERO, turnSpeed := 0.0)
    ensures !(o.freeze || attached) ==> r == o
  {
    if o.freeze || attached then o.(velocity := ZERO, turnSpeed := 0.0) else o
  }

  /** Only velocity and turn speed change when an object is stilled, and they become 0. */
  lemma StilledKeepsPlace(o: SpaceObject, attached: bool)
    ensures Stilled(o, attached).position == o.position && Stilled(o, attached).id == o.id
    ensures o.freeze ==> Stilled(o, attached).velocity == ZERO && Stilled(o, attached).turnSpeed == 0.0
  {
  }

  /** `attachments.get(id)` is truthy: the id attaches to a non-empty id. */
  predicate IsAttacher(attachments: map<Id, Id>, id: Id) {
    id in attachments && attachments[id] != ""
  }

  /**
   * The stopping rule stops exactly the frozen objects and those attached to a non-empty
   * id; every other object keeps its velocity and turn speed.
   */
  lemma StopRuleStopsAttachers(attachments: map<Id, Id>, id: Id, o: SpaceObject)
    ensures var r := ApplyRule(StopFrozenAndAttached(attachments), id, o);
      && (o.freeze || (id in attachments && attachments[id] != "") ==> r.velocity == ZERO && r.turnSpeed == 0.0)
      && (!o.freeze && (id !in attachments || attachments[id] == "") ==> r == o)
  {
  }

  // ---------------------------------------------------------------------------------
  // Collisions
  // ---------------------------------------------------------------------------------

  /**
   * One colliding pair from the collision library: the objects behind the two bodies (none
   * for a body with no other), its response, and the arc `handleShipCollisionDamage` would
   * compute from the circles' intersection, when there is one.
   */
  datatype CollisionPair = CollisionPair(
    a: Option<Id>,
    b: Option<Id>,
    overlap: real,
    overlapV: XY,
    overlapN: XY,
    aInB: bool,
    shipArc: Option<(real, real)>)

  /** What `calcSolidCollision` returns. */
  datatype SolidResult = SolidResult(damageAmount: real, positionChange: Option<XY>, velocityChange: XY)

  function Min(x: real, y: real): (m: real)
    ensures m <= x && m <= y && (m == x || m == y)
  {
    if x <= y then x else y
  }

  /**
   * The collision-pair filter: both sides are objects, the subject is live and unfrozen,
   * the object is live and not a projectile, and neither side is a waypoint.
   */
  predicate CollisionApplies(objects: Objects, pair: CollisionPair) {
    && pair.a.Some? && pair.a.value in objects
    && pair.b.Some? && pair.b.value in objects
    && var subject, other := objects[pair.a.value], objects[pair.b.value];
       && !subject.destroyed && !subject.freeze
       && !other.kind.Projectile?
       && !subject.kind.Waypoint? && !other.kind.Waypoint?
       && !other.destroyed
  }

  /**
   * `calcSolidCollision`. Against an explosion: damage and a push along the overlap, both
   * proportional to the exposure, and no position change. Otherwise: damage proportional to
   * the penetration, a position change of half the overlap backwards, and a velocity change
   * along that position change scaled by the elasticity over the tick.
   */
  function SolidCollision(deltaSeconds: real, subject: SpaceObject, other: SpaceObject,
                          overlap: real, overlapV: XY): (r: SolidResult)
    requires deltaSeconds != 0.0
    ensures other.kind.Explosion? ==> r.positionChange.None?
    ensures !other.kind.Explosion? ==> r.positionChange == Some(overlapV.Scale(-0.5))
    ensures !other.kind.Explosion? ==> r.velocityChange == r.positionChange.value.Scale(subject.collisionElasticity / deltaSeconds)
  {
    if other.kind.Explosion? then
      var exposure := deltaSeconds * Min(overlap, other.radius * 2.0);
      SolidResult(
        other.kind.damageFactor * deltaSeconds * Min(overlap, other.radius * 2.0),
        None,
        overlapV.Scale(-exposure * other.kind.blastFactor))
    else
      var collisionVector := overlapV.Scale(-0.5);
      SolidResult(
        subject.collisionDamage * Min(overlap, other.radius * 2.0),
        Some(collisionVector),
        collisionVector.Scale(subject.collisionElasticity / deltaSeconds))
  }

  /**
   * The damage is the subject's collision damage times the penetration, and the
   * penetration counts for at most twice the other object's radius: with non-negative
   * coefficients and overlap, the damage lies between 0 and that cap.
   */
  lemma {:induction false} SolidDamageBounded(deltaSeconds: real, subject: SpaceObject, other: SpaceObject,
                                              overlap: real, overlapV: XY)
    requires deltaSeconds > 0.0 && overlap >= 0.0 && other.radius >= 0.0
    requires subject.collisionDamage >= 0.0
    requires other.kind.Explosion? ==> other.kind.damageFactor >= 0.0
    ensures var d := SolidCollision(deltaSeconds, subject, other, overlap, overlapV).damageAmount;
      && 0.0 <= d
      && (!other.kind.Explosion? ==> d <= subject.collisionDamage * (other.radius * 2.0))
      && (other.kind.Explosion? ==> d <= other.kind.damageFactor * deltaSeconds * (other.radius * 2.0))
  {
    var m := Min(overlap, other.radius * 2.0);
    assert 0.0 <= m <= other.radius * 2.0;
    if other.kind.Explosion? {
      var k := other.kind.damageFactor * deltaSeconds;
      assert k >= 0.0;
      assert k * m <= k * (other.radius * 2.0) by {
        assert k * (other.radius * 2.0 - m) >= 0.0;
      }
    } else {
      var k := subject.collisionDamage;
      assert k * m <= k * (other.radius * 2.0) by {
        assert k * (other.radius * 2.0 - m) >= 0.0;
      }
    }
  }

  /**
   * Solid against solid, the two sides of one contact (the library reports the overlap
   * vector with opposite signs) move apart by exactly the overlap, half each.
   */
  lemma SolidCorrectionsSeparate(deltaSeconds: real, a: SpaceObject, b: SpaceObject, overlap: real, overlapV: XY)
    requires deltaSeconds != 0.0
    requires !a.kind.Explosion? && !b.kind.Explosion?
    ensures var pa := SolidCollision(deltaSeconds, a, b, overlap, overlapV).positionChange.value;
            var pb := SolidCollision(deltaSeconds, b, a, overlap, overlapV.Scale(-1.0)).positionChange.value;
      pa.Add(pb) == ZERO && pb.Add(pa.Scale(-1.0)) == overlapV
  {
  }

  /**
   * `handleExplosionCollision`: when the explosion lies inside the other object it stops
   * (`true`) and backs out by half the overlap; otherwise, when the overlap exceeds its
   * radius, it backs out along the overlap's direction by its radius. `limitPercision` is
   * not part of this model and is a parameter.
   */
  function ExplosionCollision(radius: real, pair: CollisionPair, limitPercision: real -> real): (r: (bool, Option<XY>))
    ensures r.0 <==> pair.aInB
    ensures pair.aInB ==> r.1 == Some(pair.overlapV.Scale(-0.5))
    ensures !pair.aInB ==> (r.1.Some? <==> limitPercision(pair.overlap) > limitPercision(radius))
    ensures !pair.aInB && r.1.Some? ==> r.1.value == pair.overlapN.Scale(-radius)
  {
    if pair.aInB then (true, Some(pair.overlapV.Scale(-0.5)))
    else if limitPercision(pair.overlap) > limitPercision(radius) then (false, Some(pair.overlapN.Scale(-radius)))
    else (false, None)
  }

  /** The damage record a ship gets from a solid collision. */
  function ShipDamage(other: SpaceObject, amount: real, arc: (real, real), deltaSeconds: real): (d: Damage)
    ensures d.id == other.id && d.amount == amount && d.damageSurfaceArc == arc
    ensures d.damageDurationSeconds == deltaSeconds
  {
    Damage(other.id, amount, arc, deltaSeconds)
  }

  // ---------------------------------------------------------------------------------
  // Side tables
  // ---------------------------------------------------------------------------------

  /** Appends a damage record to an id's list, starting the list when there is none. */
  function AppendDamage(table: map<Id, seq<Damage>>, id: Id, d: Damage): (r: map<Id, seq<Damage>>)
    ensures r.Keys == table.Keys + {id}
    ensures r[id] == (if id in table then table[id] else []) + [d]
    ensures forall k :: k in table && k != id ==> r[k] == table[k]
    ensures forall k :: k in table ==> table[k] <= r[k]
  {
    if id in table then table[id := table[id] + [d]] else table[id := [d]]
  }

  // ---------------------------------------------------------------------------------
  // The collision passes of `handleCollisions`
  // ---------------------------------------------------------------------------------

  /** What the first pass of `handleCollisions` changes: objects, damage, queue and ids drawn. */
  datatype CollisionWorld = CollisionWorld(objects: Objects, damage: map<Id, seq<Damage>>,
                                           queued: seq<SpaceObject>, drawn: nat)

  /**
   * One pair of the first pass: a pair the filter rejects changes nothing; a projectile
   * subject is destroyed and queues its explosion under the next drawn id; an explosion
   * subject stops when inside the other object; any other subject takes the solid
   * response's velocity change and its damage (a ship as a damage record when there is an
   * arc, others on their health). The second component is the subject's position change.
   */
  function PairOutcome(newId: IdSource, template: ExplosionTemplate, limitPercision: real -> real,
                       deltaSeconds: real, w: CollisionWorld, pair: CollisionPair): (r: (CollisionWorld, Option<XY>))
    requires deltaSeconds != 0.0
    ensures r.0.objects.Keys == w.objects.Keys
    ensures |w.queued| <= |r.0.queued| <= |w.queued| + 1 && r.0.queued[..|w.queued|] == w.queued
    ensures r.0.drawn == w.drawn + |r.0.queued| - |w.queued|
    ensures forall id :: id in w.damage ==> id in r.0.damage && w.damage[id] <= r.0.damage[id]
    ensures r != (w, None) ==> CollisionApplies(w.objects, pair)
  {
    if !CollisionApplies(w.objects, pair) then (w, None)
    else
      var a := pair.a.value;
      var subject, other := w.objects[a], w.objects[pair.b.value];
      if subject.kind.Projectile? then
        (w.(objects := w.objects[a := subject.(destroyed := true)],
            queued := w.queued + [ExplosionOf(subject, template, newId("explosion", w.drawn))],
            drawn := w.drawn + 1),
         None)
      else if subject.kind.Explosion? then
        var (stops, change) := ExplosionCollision(subject.radius, pair, limitPercision);
        (w.(objects := if stops then w.objects[a := subject.(velocity := ZERO)] else w.objects), change)
      else
        var res := SolidCollision(deltaSeconds, subject, other, pair.overlap, pair.overlapV);
        var pushed := subject.(velocity := subject.velocity.Add(res.velocityChange));
        if subject.kind.Spaceship? then
          (w.(objects := w.objects[a := pushed],
              damage := if pair.shipArc.Some?
                        then AppendDamage(w.damage, a, ShipDamage(other, res.damageAmount, pair.shipArc.value, deltaSeconds))
                        else w.damage),
           res.positionChange)
        else
          (w.(objects := w.objects[a := pushed.(health := subject.health - res.damageAmount)]), res.positionChange)
  }

  /**
   * The first pass of `handleCollisions`: every pair in order, collecting each position
   * change with its subject. No object appears or disappears, the queue only grows at its
   * end (one explosion and one drawn id per exploding projectile), damage lists only grow,
   * and every collected subject is an object.
   */
  function CollisionPass(newId: IdSource, template: ExplosionTemplate, limitPercision: real -> real,
                         deltaSeconds: real, w: CollisionWorld, pairs: seq<CollisionPair>): (r: (CollisionWorld, seq<(Id, XY)>))
    requires deltaSeconds != 0.0
    ensures r.0.objects.Keys == w.objects.Keys
    ensures |w.queued| <= |r.0.queued| && r.0.queued[..|w.queued|] == w.queued
    ensures r.0.drawn == w.drawn + |r.0.queued| - |w.queued|
    ensures forall id :: id in w.damage ==> id in r.0.damage && w.damage[id] <= r.0.damage[id]
    ensures |r.1| <= |pairs| && forall k :: 0 <= k < |r.1| ==> r.1[k].0 in w.objects
  {
    if pairs == [] then (w, [])
    else
      var n := |pairs| - 1;
      var (before, changes) := CollisionPass(newId, template, limitPercision, deltaSeconds, w, pairs[..n]);
      var (after, change) := PairOutcome(newId, template, limitPercision, deltaSeconds, before, pairs[n]);
      assert after.queued[..|w.queued|] == before.queued[..|before.queued|][..|w.queued|];
      (after, if change.Some? then changes + [(pairs[n].a.value, change.value)] else changes)
  }

  /** One more position change moves one more clique, after the earlier ones. */
  lemma PositionsAppliedStep(cl: Cliques, objects: Objects, changes: seq<(Id, XY)>, j: nat)
    requires j < |changes|
    ensures PositionsApplied(cl, objects, changes[..j + 1])
      == Moved(PositionsApplied(cl, objects, changes[..j]), CliqueOf(cl, changes[j].0), changes[j].1)
    ensures Touched(cl, changes[..j + 1]) == Touched(cl, changes[..j]) + CliqueOf(cl, changes[j].0)
    ensures PositionsApplied(cl, objects, changes[..j]).Keys == objects.Keys
  {
    assert changes[..j + 1][..j] == changes[..j];
  }

  /** The ids a position change of `id` moves: its attachment clique, or itself alone. */
  function CliqueOf(cl: Cliques, id: Id): set<Id> {
    if id in cl then cl[id] else {id}
  }

  /** The ids the second pass moves: the cliques of every collected subject. */
  function Touched(cl: Cliques, changes: seq<(Id, XY)>): set<Id> {
    if changes == [] then {} else Touched(cl, changes[..|changes| - 1]) + CliqueOf(cl, changes[|changes| - 1].0)
  }

  /**
   * The second pass of `handleCollisions`: each position change, in order, moves its
   * subject's clique.
   */
  function PositionsApplied(cl: Cliques, objects: Objects, changes: seq<(Id, XY)>): (r: Objects)
    ensures r.Keys == objects.Keys
  {
    if changes == [] then objects
    else
      var n := |changes| - 1;
      Moved(PositionsApplied(cl, objects, changes[..n]), CliqueOf(cl, changes[n].0), changes[n].1)
  }

  /** The second pass changes only positions, and only those of touched ids. */
  lemma {:induction false} PositionsAppliedOnlyMove(cl: Cliques, objects: Objects, changes: seq<(Id, XY)>)
    ensures var r := PositionsApplied(cl, objects, changes);
      && (forall id :: id in r ==> r[id] == objects[id].(position := r[id].position))
      && (forall id :: id in r && id !in Touched(cl, changes) ==> r[id] == objects[id])
  {
    if changes != [] {
      PositionsAppliedOnlyMove(cl, objects, changes[..|changes| - 1]);
    }
  }

  /**
   * The bot-order commands' effect on the order table: each id of each command, in order,
   * gets the command's order when it names a live spaceship.
   */
  function OrdersFor(orders: map<Id, BotOrder>, objects: Objects, ids: seq<Id>, order: BotOrder): map<Id, BotOrder> {
    if ids == [] then orders
    else
      var before := OrdersFor(orders, objects, ids[..|ids| - 1], order);
      var id := ids[|ids| - 1];
      if Live(objects, id) && objects[id].kind.Spaceship? then before[id := order] else before
  }

  /** Only live spaceships get orders, and they get the command's order. */
  lemma {:induction false} OrdersOnlyForShips(orders: map<Id, BotOrder>, objects: Objects, ids: seq<Id>, order: BotOrder)
    ensures var r := OrdersFor(orders, objects, ids, order);
      && (forall id :: id in r && !(id in orders && r[id] == orders[id]) ==>
            Live(objects, id) && objects[id].kind.Spaceship? && r[id] == order && id in ids)
      && (forall id :: id in ids && Live(objects, id) && objects[id].kind.Spaceship? ==> id in r && r[id] == order)
      && orders.Keys <= r.Keys
  {
    if ids != [] {
      var n := |ids| - 1;
      OrdersOnlyForShips(orders, objects, ids[..n], order);
      assert ids == ids[..n] + [ids[n]];
    }
  }

  /** `toInsert.find(({ id }) => id === shipId)`. */
  function FindById(xs: seq<SpaceObject>, id: Id): (r: Option<SpaceObject>)
    ensures r.None? <==> forall o :: o in xs ==> o.id != id
    ensures r.Some? ==> r.value in xs && r.value.id == id
    ensures r.Some? ==> exists i :: 0 <= i < |xs| && xs[i] == r.value && forall j :: 0 <= j < i ==> xs[j].id != id
  {
    if xs == [] then None
    else if xs[0].id == id then Some(xs[0])
    else
      var r := FindById(xs[1..], id);
      assert forall o :: o in xs[1..] ==> o in xs;
      if r.Some? then
        var i :| 0 <= i < |xs[1..]| && xs[1..][i] == r.value && forall j :: 0 <= j < i ==> xs[1..][j].id != id;
        assert xs[i + 1] == r.value;
        r
      else r
  }

  // ---------------------------------------------------------------------------------
  // Stored objects as a whole
  // ---------------------------------------------------------------------------------

  /** Every stored object sits under its own id. */
  ghost predicate WellKeyed(objects: Objects) {
    forall id :: id in objects ==> objects[id].id == id
  }

  /** The ids `[Symbol.iterator](true)` yields: stored and destroyed. */
  function DestroyedIds(objects: Objects): (r: set<Id>)
    ensures forall id :: id in r <==> id in objects && objects[id].destroyed
  {
    set id | id in objects && objects[id].destroyed
  }

  /** The ids the default iteration yields: stored and not destroyed. */
  function LiveIds(objects: Objects): (r: set<Id>)
    ensures forall id :: id in r <==> Live(objects, id)
  {
    set id | id in objects && !objects[id].destroyed
  }

  /** The ids `getAll('Explosion')` yields. */
  function ExplosionIds(objects: Objects): (r: set<Id>)
    ensures forall id :: id in r <==> Live(objects, id) && objects[id].kind.Explosion?
  {
    set id | id in objects && !objects[id].destroyed && objects[id].kind.Explosion?
  }

  /** The ids `getAll('Projectile')` yields. */
  function ProjectileIds(objects: Objects): (r: set<Id>)
    ensures forall id :: id in r <==> Live(objects, id) && objects[id].kind.Projectile?
  {
    set id | id in objects && !objects[id].destroyed && objects[id].kind.Projectile?
  }

  /** The projectiles whose time runs out in a tick of `deltaSeconds`. */
  function ExpiringShells(objects: Objects, deltaSeconds: real): (r: set<Id>)
    ensures r <= ProjectileIds(objects)
    ensures forall id :: id in r <==>
      (id in ProjectileIds(objects) && !objects[id].freeze && objects[id].kind.secondsToLive - deltaSeconds <= 0.0)
  {
    set id | id in ProjectileIds(objects) && !objects[id].freeze && objects[id].kind.secondsToLive - deltaSeconds <= 0.0
  }

  /** The stored objects `destroyTimedOut` leaves behind for a projectile, before it explodes. */
  function ShellAfterTick(o: SpaceObject, deltaSeconds: real): (r: SpaceObject)
    ensures !(o.kind.Projectile? && !o.destroyed && !o.freeze) ==> r == o
    ensures o.kind.Projectile? && !o.destroyed && !o.freeze ==>
      r.kind.Projectile? && r.kind.secondsToLive == o.kind.secondsToLive - deltaSeconds
      && r.position == o.position && r.id == o.id
      && (r.destroyed <==> r.kind.secondsToLive <= 0.0)
  {
    if o.kind.Projectile? && !o.destroyed && !o.freeze then
      var aged := AgedProjectile(o, deltaSeconds);
      aged.(destroyed := aged.kind.secondsToLive <= 0.0)
    else o
  }

  /** What `destroyTimedOut` does to an explosion. */
  function ExplosionAfterTick(o: SpaceObject, deltaSeconds: real): (r: SpaceObject)
    ensures !(o.kind.Explosion? && !o.destroyed && !o.freeze) ==> r == o
    ensures o.kind.Explosion? && !o.destroyed && !o.freeze ==> r == AgedExplosion(o, deltaSeconds)
  {
    if o.kind.Explosion? && !o.destroyed && !o.freeze then AgedExplosion(o, deltaSeconds) else o
  }

  /** The per-object rules the tick applies to a set of objects. */
  datatype TickRule =
    | GrowExplosion(deltaSeconds: real)
    | AgeExplosion(deltaSeconds: real)
    | AgeShell(deltaSeconds: real)
    | StopFrozenAndAttached(attachments: map<Id, Id>)

  function ApplyRule(rule: TickRule, id: Id, o: SpaceObject): (r: SpaceObject)
    ensures r.id == o.id
    ensures o.destroyed ==> r.destroyed
  {
    match rule
    case GrowExplosion(dt) => Grown(o, dt)
    case AgeExplosion(dt) => ExplosionAfterTick(o, dt)
    case AgeShell(dt) => ShellAfterTick(o, dt)
    case StopFrozenAndAttached(attachments) => Stilled(o, IsAttacher(attachments, id))
  }

  /** The objects with the rule applied to those among `ids`. */
  function Applied(objects: Objects, ids: set<Id>, rule: TickRule): (r: Objects)
    ensures r.Keys == objects.Keys
    ensures WellKeyed(objects) ==> WellKeyed(r)
  {
    map id | id in objects :: if id in ids then ApplyRule(rule, id, objects[id]) else objects[id]
  }

  /** No rule brings a destroyed object back. */
  lemma AppliedNeverRevives(objects: Objects, ids: set<Id>, rule: TickRule)
    ensures forall id :: Live(Applied(objects, ids, rule), id) ==> Live(objects, id)
  {
  }

  /** Appending one element to the part after a fixed prefix. */
  lemma AppendAfterPrefix<T>(prefix: seq<T>, tail: seq<T>, x: T)
    ensures prefix + (tail + [x]) == (prefix + tail) + [x]
  {
  }

  /** Applying the rule to one more id changes that one object. */
  lemma AppliedStep(objects: Objects, ids: set<Id>, id: Id, rule: TickRule)
    requires id in objects && id !in ids
    ensures Applied(objects, ids + {id}, rule) == Applied(objects, ids, rule)[id := ApplyRule(rule, id, objects[id])]
  {
  }

  // ---------------------------------------------------------------------------------
  // Commands
  // ---------------------------------------------------------------------------------

  datatype CreateAsteroidCommand = CreateAsteroidCommand(position: XY, radius: real)
  datatype CreateExplosionCommand = CreateExplosionCommand(position: XY, damageFactor: real)
  datatype CreateWaypointCommand = CreateWaypointCommand(position: XY)
  datatype MoveCommand = MoveCommand(ids: seq<Id>, delta: XY)
  datatype BotOrderCommand = BotOrderCommand(ids: seq<Id>, order: BotOrder)

  /**
   * The id generator, which is not part of this model: the id drawn n-th with a prefix
   * (`uniqueId(prefix)`; `makeId()` is the empty prefix).
   */
  type IdSource = (string, nat) -> Id

  /** A fresh explosion from the default `Explosion` template with the given damage factor. */
  function NewExplosion(template: ExplosionTemplate, id: Id, position: XY, damageFactor: real): (e: SpaceObject)
    ensures e.kind.Explosion? && e.kind.damageFactor == damageFactor && e.id == id && e.position == position
    ensures e.radius == template.radius && e.kind.secondsToLive == template.secondsToLive && !e.destroyed
  {
    NewObject(Explosion(template.secondsToLive, template.expansionSpeed, damageFactor, template.blastFactor), id, position, template.radius)
  }

  /** One new asteroid per command, in order, each with the next id. */
  function NewAsteroids(newId: IdSource, cmds: seq<CreateAsteroidCommand>, first: nat): (r: seq<SpaceObject>)
    ensures |r| == |cmds|
    ensures forall i :: 0 <= i < |cmds| ==>
      && r[i].kind.Asteroid? && r[i].id == newId("", first + i) && !r[i].destroyed
      && r[i].position == cmds[i].position && r[i].radius == cmds[i].radius
  {
    seq(|cmds|, i requires 0 <= i < |cmds| => NewObject(Asteroid, newId("", first + i), cmds[i].position, cmds[i].radius))
  }

  /** One new explosion per command, in order, each with the next id. */
  function NewExplosions(newId: IdSource, template: ExplosionTemplate, cmds: seq<CreateExplosionCommand>, first: nat): (r: seq<SpaceObject>)
    ensures |r| == |cmds|
    ensures forall i :: 0 <= i < |cmds| ==>
      && r[i].kind.Explosion? && r[i].id == newId("", first + i) && !r[i].destroyed
      && r[i].position == cmds[i].position && r[i].kind.damageFactor == cmds[i].damageFactor
  {
    seq(|cmds|, i requires 0 <= i < |cmds| => NewExplosion(template, newId("", first + i), cmds[i].position, cmds[i].damageFactor))
  }

  /** One new waypoint per command, in order, each with the next id. */
  function NewWaypoints(newId: IdSource, radius: real, cmds: seq<CreateWaypointCommand>, first: nat): (r: seq<SpaceObject>)
    ensures |r| == |cmds|
    ensures forall i :: 0 <= i < |cmds| ==>
      && r[i].kind.Waypoint? && r[i].id == newId("", first + i) && !r[i].destroyed
      && r[i].position == cmds[i].position
  {
    seq(|cmds|, i requires 0 <= i < |cmds| => NewObject(Waypoint, newId("", first + i), cmds[i].position, radius))
  }

  /**
   * The explosions `explodeProjectile` queues for the projectiles `exploded`, in order, each
   * with the next `explosion` id drawn from the `first` on.
   */
  function ExplosionsFor(newId: IdSource, template: ExplosionTemplate, objects: Objects,
                         exploded: seq<Id>, first: nat): seq<SpaceObject>
  {
    if exploded == [] then []
    else
      var n := |exploded| - 1;
      var front := ExplosionsFor(newId, template, objects, exploded[..n], first);
      if exploded[n] in objects && objects[exploded[n]].kind.Projectile? then
        front + [ExplosionOf(objects[exploded[n]], template, newId("explosion", first + n))]
      else front
  }

  /**
   * For projectiles, the explosions are, one by one, each projectile's own explosion with the
   * id drawn at its turn.
   */
  lemma {:induction false} ExplosionsForSpelledOut(newId: IdSource, template: ExplosionTemplate, objects: Objects,
                                                   exploded: seq<Id>, first: nat)
    requires forall k :: 0 <= k < |exploded| ==> exploded[k] in objects && objects[exploded[k]].kind.Projectile?
    ensures |ExplosionsFor(newId, template, objects, exploded, first)| == |exploded|
    ensures forall k :: 0 <= k < |exploded| ==>
      ExplosionsFor(newId, template, objects, exploded, first)[k]
      == ExplosionOf(objects[exploded[k]], template, newId("explosion", first + k))
  {
    if exploded != [] {
      var n := |exploded| - 1;
      ExplosionsForSpelledOut(newId, template, objects, exploded[..n], first);
    }
  }

  /** One more exploded projectile appends its explosion. */
  lemma ExplosionsForAppend(newId: IdSource, template: ExplosionTemplate, objects: Objects,
                            exploded: seq<Id>, first: nat, id: Id)
    requires id in objects && objects[id].kind.Projectile?
    ensures ExplosionsFor(newId, template, objects, exploded + [id], first)
         == ExplosionsFor(newId, template, objects, exploded, first)
            + [ExplosionOf(objects[id], template, newId("explosion", first + |exploded|))]
  {
    assert (exploded + [id])[..|exploded|] == exploded;
  }

  /** The ids a sequence lists. */
  function Listed(s: seq<Id>): set<Id>
  {
    if s == [] then {} else Listed(s[..|s| - 1]) + {s[|s| - 1]}
  }

  lemma {:induction false} ListedMembers(s: seq<Id>)
    ensures forall id :: id in Listed(s) <==> id in s
  {
    if s != [] {
      ListedMembers(s[..|s| - 1]);
      assert s == s[..|s| - 1] + [s[|s| - 1]];
    }
  }

  /** No id is listed twice. */
  predicate NoRepeats(s: seq<Id>)
  {
    s == [] || (NoRepeats(s[..|s| - 1]) && s[|s| - 1] !in Listed(s[..|s| - 1]))
  }

  /** A list without repeats is as long as the set of ids it lists. */
  lemma {:induction false} NoRepeatsCount(s: seq<Id>)
    requires NoRepeats(s)
    ensures |Listed(s)| == |s|
  {
    if s != [] {
      NoRepeatsCount(s[..|s| - 1]);
    }
  }

  /** `exploded` lists each id of `done` among `chosen` exactly once. */
  predicate ListsExactly(exploded: seq<Id>, done: set<Id>, chosen: set<Id>)
  {
    Listed(exploded) == done * chosen && NoRepeats(exploded)
  }

  /** Handling one more id lists it exactly when it is chosen. */
  lemma ListsExactlyStep(exploded: seq<Id>, done: set<Id>, chosen: set<Id>, id: Id)
    requires ListsExactly(exploded, done, chosen) && id !in done
    ensures id in chosen ==> ListsExactly(exploded + [id], done + {id}, chosen)
    ensures id !in chosen ==> ListsExactly(exploded, done + {id}, chosen)
  {
    assert (exploded + [id])[..|exploded|] == exploded;
  }

  /**
   * Listing the expiring projectiles exactly once queues, for each of them in turn, its own
   * explosion with the id drawn at its turn.
   */
  lemma ExpiredExplosions(newId: IdSource, template: ExplosionTemplate, objects: Objects, deltaSeconds: real,
                          exploded: seq<Id>, first: nat)
    requires ListsExactly(exploded, ProjectileIds(objects), ExpiringShells(objects, deltaSeconds))
    ensures |exploded| == |ExpiringShells(objects, deltaSeconds)|
    ensures forall id :: id in exploded <==> id in ExpiringShells(objects, deltaSeconds)
    ensures |ExplosionsFor(newId, template, objects, exploded, first)| == |exploded|
    ensures forall k :: 0 <= k < |exploded| ==>
      exploded[k] in ProjectileIds(objects)
      && ExplosionsFor(newId, template, objects, exploded, first)[k]
         == ExplosionOf(objects[exploded[k]], template, newId("explosion", first + k))
  {
    assert ProjectileIds(objects) * ExpiringShells(objects, deltaSeconds) == ExpiringShells(objects, deltaSeconds);
    NoRepeatsCount(exploded);
    ListedMembers(exploded);
    forall k | 0 <= k < |exploded|
      ensures exploded[k] in objects && objects[exploded[k]].kind.Projectile?
    {
      assert exploded[k] in ProjectileIds(objects);
    }
    ExplosionsForSpelledOut(newId, template, objects, exploded, first);
  }

  /** The objects with the ids in `ids` moved by `delta`; nothing but those positions changes. */
  function Moved(objects: Objects, ids: set<Id>, delta: XY): (r: Objects)
    ensures r.Keys == objects.Keys
    ensures forall id :: id in r ==> r[id] == objects[id].(position := r[id].position)
    ensures forall id :: id in r ==> r[id].position == (if id in ids then objects[id].position.Add(delta) else objects[id].position)
  {
    map id | id in objects :: if id in ids then objects[id].(position := objects[id].position.Add(delta)) else objects[id]
  }

  /** Moving one more id extends the move by one stored object, or by nothing. */
  lemma MovedStep(objects: Objects, ids: set<Id>, id: Id, delta: XY)
    requires id !in ids
    ensures id in objects ==>
      Moved(objects, ids + {id}, delta) == Moved(objects, ids, delta)[id := objects[id].(position := objects[id].position.Add(delta))]
    ensures id !in objects ==> Moved(objects, ids + {id}, delta) == Moved(objects, ids, delta)
  {
  }

  /** Moving keeps every object under its own id, and keeps the same objects live. */
  lemma MovedKeepsKeying(objects: Objects, ids: set<Id>, delta: XY)
    ensures WellKeyed(objects) ==> WellKeyed(Moved(objects, ids, delta))
    ensures forall id :: Live(Moved(objects, ids, delta), id) <==> Live(objects, id)
  {
  }

  /** The move commands, in order: each moves the attached clique of its ids. */
  function AfterMoves(cl: Cliques, objects: Objects, cmds: seq<MoveCommand>): Objects {
    if cmds == [] then objects
    else
      var before := AfterMoves(cl, objects, cmds[..|cmds| - 1]);
      var cmd := cmds[|cmds| - 1];
      Moved(before, AttachedClique(cl, before, cmd.ids), cmd.delta)
  }

  /** Move commands change positions only: ids, liveness and every other field stay. */
  lemma {:induction false} MovesChangeOnlyPositions(cl: Cliques, objects: Objects, cmds: seq<MoveCommand>)
    ensures AfterMoves(cl, objects, cmds).Keys == objects.Keys
    ensures forall id :: id in objects ==>
      AfterMoves(cl, objects, cmds)[id] == objects[id].(position := AfterMoves(cl, objects, cmds)[id].position)
  {
    if cmds != [] {
      MovesChangeOnlyPositions(cl, objects, cmds[..|cmds| - 1]);
    }
  }

  /** The bot-order commands, in order. */
  function OrdersAfter(orders: map<Id, BotOrder>, objects: Objects, cmds: seq<BotOrderCommand>): map<Id, BotOrder> {
    if cmds == [] then orders
    else
      var cmd := cmds[|cmds| - 1];
      OrdersFor(OrdersAfter(orders, objects, cmds[..|cmds| - 1]), objects, cmd.ids, cmd.order)
  }

  /** After the bot-order commands, a changed or new order belongs to a live spaceship. */
  lemma {:induction false} OrdersAfterOnlyForShips(orders: map<Id, BotOrder>, objects: Objects, cmds: seq<BotOrderCommand>)
    ensures var r := OrdersAfter(orders, objects, cmds);
      && orders.Keys <= r.Keys
      && forall id :: id in r && !(id in orders && r[id] == orders[id]) ==> Live(objects, id) && objects[id].kind.Spaceship?
  {
    if cmds != [] {
      var n := |cmds| - 1;
      OrdersAfterOnlyForShips(orders, objects, cmds[..n]);
      OrdersOnlyForShips(OrdersAfter(orders, objects, cmds[..n]), objects, cmds[n].ids, cmds[n].order);
    }
  }

  /** The last command naming a live spaceship decides its order. */
  lemma LastOrderWins(orders: map<Id, BotOrder>, objects: Objects, cmds: seq<BotOrderCommand>, id: Id)
    requires cmds != [] && id in cmds[|cmds| - 1].ids && Live(objects, id) && objects[id].kind.Spaceship?
    ensures id in OrdersAfter(orders, objects, cmds)
    ensures OrdersAfter(orders, objects, cmds)[id] == cmds[|cmds| - 1].order
  {
    var n := |cmds| - 1;
    OrdersOnlyForShips(OrdersAfter(orders, objects, cmds[..n]), objects, cmds[n].ids, cmds[n].order);
  }

  // ---------------------------------------------------------------------------------
  // Detaching
  // ---------------------------------------------------------------------------------

  datatype Component = VelocityX | VelocityY | TurnSpeed

  /** One object's share of a clique's motion; an id no longer stored contributes nothing. */
  function ComponentOf(objects: Objects, id: Id, c: Component): real {
    if id !in objects then 0.0
    else match c
      case VelocityX => objects[id].velocity.x
      case VelocityY => objects[id].velocity.y
      case TurnSpeed => objects[id].turnSpeed
  }

  /** The sum of a component over a set of ids, in whatever order. */
  ghost function SumOver(objects: Objects, ids: set<Id>, c: Component): real
    decreases ids
  {
    if ids == {} then 0.0
    else
      var x :| x in ids;
      ComponentOf(objects, x, c) + SumOver(objects, ids - {x}, c)
  }

  /** The sum does not depend on the order: any member can be taken out first. */
  lemma {:induction false} SumOverRemove(objects: Objects, ids: set<Id>, y: Id, c: Component)
    requires y in ids
    ensures SumOver(objects, ids, c) == ComponentOf(objects, y, c) + SumOver(objects, ids - {y}, c)
    decreases ids
  {
    var x :| x in ids && SumOver(objects, ids, c) == ComponentOf(objects, x, c) + SumOver(objects, ids - {x}, c);
    if x != y {
      SumOverRemove(objects, ids - {x}, y, c);
      SumOverRemove(objects, ids - {y}, x, c);
      assert ids - {x} - {y} == ids - {y} - {x};
    }
  }

  // ---------------------------------------------------------------------------------
  // Insertion
  // ---------------------------------------------------------------------------------

  /** The ids of a sequence of objects. */
  function IdsOf(xs: seq<SpaceObject>): (r: set<Id>)
    ensures forall id :: id in r <==> exists i :: 0 <= i < |xs| && xs[i].id == id
  {
    set i | 0 <= i < |xs| :: xs[i].id
  }

  /** `state.set` for each queued object in order: a later object replaces an earlier one. */
  function Stored(objects: Objects, xs: seq<SpaceObject>): Objects {
    if xs == [] then objects
    else
      var n := |xs| - 1;
      Stored(objects, xs[..n])[xs[n].id := xs[n]]
  }

  /**
   * Storing the queue adds exactly the queued ids, keeps every other object, stores under
   * each queued id one of the objects queued with it, and keeps every object under its id.
   */
  lemma {:induction false} StoredObjects(objects: Objects, xs: seq<SpaceObject>)
    ensures Stored(objects, xs).Keys == objects.Keys + IdsOf(xs)
    ensures forall id :: id in objects && id !in IdsOf(xs) ==> Stored(objects, xs)[id] == objects[id]
    ensures forall id :: id in IdsOf(xs) ==> Stored(objects, xs)[id] in xs
    ensures WellKeyed(objects) ==> WellKeyed(Stored(objects, xs))
  {
    if xs != [] {
      var n := |xs| - 1;
      StoredObjects(objects, xs[..n]);
      assert xs == xs[..n] + [xs[n]];
      assert IdsOf(xs) == IdsOf(xs[..n]) + {xs[n].id};
      forall id | id in IdsOf(xs)
        ensures Stored(objects, xs)[id] in xs
      {
        if id != xs[n].id {
          assert Stored(objects, xs[..n])[id] in xs[..n];
        }
      }
    }
  }
}
