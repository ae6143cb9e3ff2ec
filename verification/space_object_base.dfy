/**
 * The fields every space object shares, the polymorphic object variants as one tagged
 * union, and the id comparator used to sort space objects.
 */
module SpaceObjectBase {
  import opened Wrappers

  /** Object ids are strings. */
  type Id = string

  /** A 2D vector of reals. */
  datatype XY = XY(x: real, y: real) {
    function Add(o: XY): XY { XY(x + o.x, y + o.y) }
    function Scale(k: real): XY { XY(k * x, k * y) }
  }

  const ZERO: XY := XY(0.0, 0.0)

  /** What a projectile turns into when it explodes (its `_explosion`, or a fresh Explosion). */
  datatype ExplosionTemplate = ExplosionTemplate(
    radius: real,
    secondsToLive: real,
    expansionSpeed: real,
    damageFactor: real,
    blastFactor: real)

  /**
   * The object variants. Variant-specific state lives in the variant; a capability
   * check such as `Projectile.isInstance(o)` becomes `o.kind.Projectile?`.
   */
  datatype Kind =
    | Asteroid
    | Spaceship
    | Projectile(model: string, secondsToLive: real, homing: bool, targetId: Option<Id>,
                 explosion: Option<ExplosionTemplate>)
    | Explosion(secondsToLive: real, expansionSpeed: real, damageFactor: real, blastFactor: real)
    | Waypoint

  datatype SpaceObject = SpaceObject(
    kind: Kind,
    id: Id,
    position: XY,
    radius: real,
    velocity: XY,
    angle: real,
    turnSpeed: real,
    health: real,
    destroyed: bool,
    freeze: bool,
    expendable: bool,
    faction: int,
    collisionDamage: real,
    collisionElasticity: real)

  /**
   * The base constructor: it sets the id, position and radius, and the declared defaults
   * give a zero velocity, angle and turn speed. The remaining fields are declared outside
   * the base class; the model starts them as a live, unfrozen, expendable object with no
   * health, faction 0 and no collision coefficients.
   */
  function NewObject(kind: Kind, id: Id, position: XY, radius: real): (o: SpaceObject)
    ensures o.kind == kind && o.id == id && o.position == position && o.radius == radius
    ensures o.velocity == ZERO && o.angle == 0.0 && o.turnSpeed == 0.0
    ensures !o.destroyed && !o.freeze
  {
    SpaceObject(kind, id, position, radius, ZERO, 0.0, 0.0, 0.0, false, false, true, 0, 0.0, 0.0)
  }

  /**
   * The id order: lexicographic on code points, a proper prefix first. JavaScript's `<`
   * compares UTF-16 code units instead; the two agree on ids made of ASCII characters.
   */
  predicate StrLess(a: string, b: string)
    decreases |a|
  {
    if |a| == 0 then |b| > 0
    else if |b| == 0 then false
    else if a[0] == b[0] then StrLess(a[1..], b[1..])
    else a[0] < b[0]
  }

  lemma {:induction false} StrLessIrreflexive(a: string)
    ensures !StrLess(a, a)
    decreases |a|
  {
    if |a| > 0 {
      StrLessIrreflexive(a[1..]);
    }
  }

  lemma {:induction false} StrLessAsymmetric(a: string, b: string)
    ensures StrLess(a, b) ==> !StrLess(b, a)
    decreases |a|
  {
    if |a| > 0 && |b| > 0 && a[0] == b[0] {
      StrLessAsymmetric(a[1..], b[1..]);
    }
  }

  /** Two different strings are always ordered one way or the other. */
  lemma {:induction false} StrLessTotal(a: string, b: string)
    ensures a != b ==> StrLess(a, b) || StrLess(b, a)
    decreases |a|
  {
    if |a| > 0 && |b| > 0 && a[0] == b[0] {
      StrLessTotal(a[1..], b[1..]);
      if a[1..] == b[1..] {
        assert a == [a[0]] + a[1..] && b == [b[0]] + b[1..];
      }
    }
  }

  lemma {:induction false} StrLessTransitive(a: string, b: string, c: string)
    ensures StrLess(a, b) && StrLess(b, c) ==> StrLess(a, c)
    decreases |a|
  {
    if |a| > 0 && |b| > 0 && |c| > 0 && a[0] == b[0] == c[0] {
      StrLessTransitive(a[1..], b[1..], c[1..]);
    }
  }

  /**
   * `SpaceObjectBase.compare`: objects sort by DESCENDING id; equal ids compare as 0.
   */
  function Compare(a: SpaceObject, b: SpaceObject): (r: int)
    ensures r == 0 <==> a.id == b.id
    ensures r == 1 <==> StrLess(a.id, b.id)
    ensures r == -1 <==> StrLess(b.id, a.id)
  {
    StrLessIrreflexive(a.id);
    StrLessAsymmetric(a.id, b.id);
    StrLessTotal(a.id, b.id);
    if a.id == b.id then 0 else if StrLess(a.id, b.id) then 1 else -1
  }

  lemma CompareAntisymmetric(a: SpaceObject, b: SpaceObject)
    ensures Compare(a, b) == -Compare(b, a)
  {
    StrLessAsymmetric(a.id, b.id);
    StrLessTotal(a.id, b.id);
  }

  /** The order `Compare` induces is transitive, so sorting with it is well defined. */
  lemma CompareTransitive(a: SpaceObject, b: SpaceObject, c: SpaceObject)
    ensures Compare(a, b) == 1 && Compare(b, c) == 1 ==> Compare(a, c) == 1
  {
    StrLessTransitive(a.id, b.id, c.id);
  }
}
