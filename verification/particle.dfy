/**
 * objects/Particle.java: a disc of the Brownian-motion simulation. Its
 * position and velocity change in place as time advances and as it bounces;
 * `collisionCount` goes up by one on every bounce and never otherwise
 * changes, which is what lets an Event detect that it has gone stale.
 *
 * The collision-time queries are pure, so they are stated first on plain
 * numbers (the separation and relative velocity of two discs); the class
 * methods then apply them to the fields.
 */
module Particles {
  import opened Wrappers
  import opened RealMath

  /**
   * `collidesX` / `collidesY` on one axis: the time until the disc of radius
   * r at `pos` moving at `v` touches the wall at `high` (moving up) or `low`
   * (moving down); no time when it does not move on that axis.
   */
  function WallTime(pos: real, v: real, r: real, low: real, high: real): (t: Option<real>)
    ensures t.None? <==> v == 0.0
    ensures v > 0.0 ==> t.Some? && pos + v * t.value == high - r
    ensures v < 0.0 ==> t.Some? && pos + v * t.value == low + r
  {
    if v > 0.0 then Some((high - r - pos) / v)
    else if v < 0.0 then Some((low + r - pos) / v)
    else None
  }

  /** A disc in the box [low + r, high - r] moving towards a wall reaches it at a time >= 0. */
  lemma WallTimeNonNegative(pos: real, v: real, r: real, low: real, high: real)
    requires low + r <= pos <= high - r
    ensures var t := WallTime(pos, v, r, low, high); t.Some? ==> t.value >= 0.0
  {
    if v > 0.0 {
      QuotientNonNegative(high - r - pos, v);
    } else if v < 0.0 {
      QuotientNonNegative(pos - (low + r), -v);
      assert (low + r - pos) / v == (pos - (low + r)) / -v;
    }
  }

  lemma QuotientNonNegative(a: real, b: real)
    requires a >= 0.0 && b > 0.0
    ensures a / b >= 0.0
  {
    assert a / b == a * (1.0 / b);
  }

  /** |dr|^2, |dv|^2 and dv . dr for separation dr = (dx, dy) and relative velocity dv = (dvx, dvy). */
  function SeparationSq(dx: real, dy: real): real
  {
    Sq(dx) + Sq(dy)
  }

  function ApproachProduct(dx: real, dy: real, dvx: real, dvy: real): real
  {
    dvx * dx + dvy * dy
  }

  /** The discriminant of |dr + t dv|^2 = sigma^2 (divided by four). */
  function Discriminant(dx: real, dy: real, dvx: real, dvy: real, sigma: real): real
  {
    Sq(ApproachProduct(dx, dy, dvx, dvy)) - SeparationSq(dvx, dvy) * (SeparationSq(dx, dy) - Sq(sigma))
  }

  /** Discs that approach each other have a non-zero relative velocity. */
  lemma ApproachingMeansMoving(dx: real, dy: real, dvx: real, dvy: real)
    requires ApproachProduct(dx, dy, dvx, dvy) < 0.0
    ensures SeparationSq(dvx, dvy) > 0.0
  {
    SqNonNegative(dvx);
    SqNonNegative(dvy);
    if dvx != 0.0 {
      SqPositive(dvx);
    } else {
      assert dvy != 0.0;
      SqPositive(dvy);
    }
  }

  /**
   * `collides` on the relative motion: no time when the discs are not
   * approaching (dv . dr >= 0) or never touch (negative discriminant);
   * otherwise the smaller root of |dr + t dv| = sigma.
   */
  function ContactTime(sqrt: real -> real, dx: real, dy: real, dvx: real, dvy: real, sigma: real): (t: Option<real>)
    ensures t.None? <==> ApproachProduct(dx, dy, dvx, dvy) >= 0.0 || Discriminant(dx, dy, dvx, dvy, sigma) < 0.0
  {
    var cross := ApproachProduct(dx, dy, dvx, dvy);
    if cross >= 0.0 then None
    else
      var d := Discriminant(dx, dy, dvx, dvy, sigma);
      if d < 0.0 then None
      else
        ApproachingMeansMoving(dx, dy, dvx, dvy);
        Some(-(cross + sqrt(d)) / SeparationSq(dvx, dvy))
  }

  /** The identity behind the root: a (c + 2 b t + a t^2) = (a t + b)^2 - (b^2 - a c). */
  lemma QuadraticAtRoot(a: real, b: real, c: real, s: real, t: real)
    requires a != 0.0 && a * t == -(b + s) && Sq(s) == Sq(b) - a * c
    ensures c + 2.0 * b * t + a * Sq(t) == 0.0
  {
    var q := c + 2.0 * b * t + a * Sq(t);
    assert a * q == a * c + 2.0 * b * (a * t) + Sq(a * t);
    assert Sq(a * t) == Sq(b + s);
    assert a * q == a * c + 2.0 * b * (-(b + s)) + Sq(b + s);
    assert Sq(b + s) == Sq(b) + 2.0 * b * s + Sq(s);
    assert a * q == 0.0;
    assert q == (a * q) / a;
  }

  /** At the time `collides` reports, the two centres are exactly sigma apart. */
  lemma ContactTimeTouches(sqrt: real -> real, dx: real, dy: real, dvx: real, dvy: real, sigma: real)
    requires IsSqrt(sqrt)
    ensures var t := ContactTime(sqrt, dx, dy, dvx, dvy, sigma);
      t.Some? ==> SeparationSq(dx + t.value * dvx, dy + t.value * dvy) == Sq(sigma)
  {
    var ot := ContactTime(sqrt, dx, dy, dvx, dvy, sigma);
    if ot.Some? {
      var d := Discriminant(dx, dy, dvx, dvy, sigma);
      ApproachingMeansMoving(dx, dy, dvx, dvy);
      assert ot.value == -(ApproachProduct(dx, dy, dvx, dvy) + sqrt(d)) / SeparationSq(dvx, dvy);
      assert Sq(sqrt(d)) == d;
      RootOfPath(dx, dy, dvx, dvy, sigma, sqrt(d), ot.value);
    }
  }

  /** The smaller root t of |dr + t dv|^2 = sigma^2, written with a square root s of the discriminant, is a root. */
  lemma RootOfPath(dx: real, dy: real, dvx: real, dvy: real, sigma: real, s: real, t: real)
    requires SeparationSq(dvx, dvy) != 0.0
    requires t == -(ApproachProduct(dx, dy, dvx, dvy) + s) / SeparationSq(dvx, dvy)
    requires Sq(s) == Discriminant(dx, dy, dvx, dvy, sigma)
    ensures SeparationSq(dx + t * dvx, dy + t * dvy) == Sq(sigma)
  {
    var a := SeparationSq(dvx, dvy);
    var b := ApproachProduct(dx, dy, dvx, dvy);
    assert a * t == -(b + s);
    QuadraticAtRoot(a, b, SeparationSq(dx, dy) - Sq(sigma), s, t);
    SeparationAlongPath(dx, dy, dvx, dvy, t);
  }

  /** |dr + t dv|^2 = |dr|^2 + 2 (dv . dr) t + |dv|^2 t^2. */
  lemma SeparationAlongPath(dx: real, dy: real, dvx: real, dvy: real, t: real)
    ensures SeparationSq(dx + t * dvx, dy + t * dvy)
      == SeparationSq(dx, dy) + 2.0 * ApproachProduct(dx, dy, dvx, dvy) * t + SeparationSq(dvx, dvy) * Sq(t)
  {
    assert Sq(dx + t * dvx) == Sq(dx) + 2.0 * t * (dvx * dx) + Sq(t) * Sq(dvx);
    assert Sq(dy + t * dvy) == Sq(dy) + 2.0 * t * (dvy * dy) + Sq(t) * Sq(dvy);
  }

  /** Discs that do not overlap collide in the future, never in the past. */
  lemma ContactTimeNotInPast(sqrt: real -> real, dx: real, dy: real, dvx: real, dvy: real, sigma: real)
    requires IsSqrt(sqrt) && SeparationSq(dx, dy) >= Sq(sigma)
    ensures var t := ContactTime(sqrt, dx, dy, dvx, dvy, sigma); t.Some? ==> t.value >= 0.0
  {
    var ot := ContactTime(sqrt, dx, dy, dvx, dvy, sigma);
    if ot.Some? {
      var a := SeparationSq(dvx, dvy);
      var b := ApproachProduct(dx, dy, dvx, dvy);
      var d := Discriminant(dx, dy, dvx, dvy, sigma);
      var s := sqrt(d);
      ApproachingMeansMoving(dx, dy, dvx, dvy);
      // a (|dr|^2 - sigma^2) >= 0, so s^2 = b^2 - a c <= b^2 and s <= -b.
      assert a * (SeparationSq(dx, dy) - Sq(sigma)) >= 0.0;
      assert Sq(s) <= Sq(b);
      if b + s > 0.0 {
        SqStrictlyIncreasing(-b, s);
        assert false;
      }
      assert ot.value == -(b + s) / a;
    }
  }

  /** Squares grow with non-negative arguments. */
  lemma SqStrictlyIncreasing(x: real, y: real)
    requires 0.0 <= x < y
    ensures Sq(x) < Sq(y)
  {
    ProductPositive(y - x, y + x);
    assert Product(y - x, y + x) == Sq(y) - Sq(x);
  }

  /** The impulse `bounce` exchanges along the line of centres: J dr / sigma. */
  function ImpulseMagnitude(dx: real, dy: real, dvx: real, dvy: real, sigma: real, m1: real, m2: real): real
    requires sigma != 0.0 && m1 + m2 != 0.0
  {
    (2.0 * m1 * m2 * ApproachProduct(dx, dy, dvx, dvy)) / (sigma * (m1 + m2))
  }

  function Impulse(dx: real, dy: real, dvx: real, dvy: real, sigma: real, m1: real, m2: real): (real, real)
    requires sigma != 0.0 && m1 + m2 != 0.0
  {
    var j := ImpulseMagnitude(dx, dy, dvx, dvy, sigma, m1, m2);
    (j * dx / sigma, j * dy / sigma)
  }

  /** Where a coordinate moving at speed v is after dt. */
  function Flight(pos: real, v: real, dt: real): real
  {
    pos + v * dt
  }

  class Particle {
    const id: int
    var x: real
    var y: real
    var vx: real
    var vy: real
    const r: real
    const m: real
    var collisionCount: int

    /** A new particle has not collided yet. */
    constructor(id: int, x: real, y: real, vx: real, vy: real, r: real, m: real)
      ensures this.id == id && this.x == x && this.y == y && this.vx == vx && this.vy == vy
      ensures this.r == r && this.m == m
      ensures collisionCount == 0
    {
      this.id := id;
      this.x := x;
      this.y := y;
      this.vx := vx;
      this.vy := vy;
      this.r := r;
      this.m := m;
      this.collisionCount := 0;
    }

    /** `centerDistance`. */
    function CenterDistance(sqrt: real -> real, other: Particle): real
      reads this, other
    {
      sqrt(SeparationSq(x - other.x, y - other.y))
    }

    /** `borderDistance`: the gap between the two discs. */
    function BorderDistance(sqrt: real -> real, other: Particle): real
      reads this, other
    {
      CenterDistance(sqrt, other) - r - other.r
    }

    /** `advanceTime`: free flight for deltaT; velocity and count unchanged. */
    method AdvanceTime(deltaT: real)
      modifies this
      ensures x == Flight(old(x), old(vx), deltaT) && y == Flight(old(y), old(vy), deltaT)
      ensures vx == old(vx) && vy == old(vy) && collisionCount == old(collisionCount)
    {
      x := x + vx * deltaT;
      y := y + vy * deltaT;
    }

    /** `collidesX`: the time until the disc touches the wall at leftWallX or rightWallX, None when vx == 0. */
    function CollidesX(leftWallX: real, rightWallX: real): (t: Option<real>)
      reads this
      ensures t.None? <==> vx == 0.0
      ensures vx > 0.0 ==> x + vx * t.value == rightWallX - r
      ensures vx < 0.0 ==> x + vx * t.value == leftWallX + r
    {
      WallTime(x, vx, r, leftWallX, rightWallX)
    }

    /** `collidesY`: the same on the y axis. */
    function CollidesY(bottomWallY: real, topWallY: real): (t: Option<real>)
      reads this
      ensures t.None? <==> vy == 0.0
      ensures vy > 0.0 ==> y + vy * t.value == topWallY - r
      ensures vy < 0.0 ==> y + vy * t.value == bottomWallY + r
    {
      WallTime(y, vy, r, bottomWallY, topWallY)
    }

    /**
     * `collides`: the time until this disc and `other` touch, or None when
     * they are not approaching or pass each other by. A particle never
     * collides with itself.
     */
    function Collides(sqrt: real -> real, other: Particle): (t: Option<real>)
      reads this, other
      ensures other == this ==> t.None?
      ensures t.None? <==>
        ApproachProduct(other.x - x, other.y - y, other.vx - vx, other.vy - vy) >= 0.0
        || Discriminant(other.x - x, other.y - y, other.vx - vx, other.vy - vy, r + other.r) < 0.0
    {
      ContactTime(sqrt, other.x - x, other.y - y, other.vx - vx, other.vy - vy, r + other.r)
    }

    /** `bounceX`: reflect off a vertical wall. */
    method BounceX()
      modifies this
      ensures vx == -old(vx) && vy == old(vy) && x == old(x) && y == old(y)
      ensures collisionCount == old(collisionCount) + 1
    {
      vx, vy := -vx, vy;
      collisionCount := collisionCount + 1;
    }

    /** `bounceY`: reflect off a horizontal wall. */
    method BounceY()
      modifies this
      ensures vx == old(vx) && vy == -old(vy) && x == old(x) && y == old(y)
      ensures collisionCount == old(collisionCount) + 1
    {
      vx, vy := vx, -vy;
      collisionCount := collisionCount + 1;
    }

    /**
     * `bounce`: the elastic collision of two discs. Each gets the impulse
     * along the line of centres with opposite signs, so the momentum on each
     * axis is conserved, and both counts go up by one.
     */
    method Bounce(other: Particle)
      requires other != this
      requires r + other.r != 0.0 && m != 0.0 && other.m != 0.0 && m + other.m != 0.0
      modifies this, other
      ensures var jmp := old(Impulse(other.x - x, other.y - y, other.vx - vx, other.vy - vy, r + other.r, m, other.m));
        && vx == old(vx) + jmp.0 / m && vy == old(vy) + jmp.1 / m
        && other.vx == old(other.vx) - jmp.0 / other.m && other.vy == old(other.vy) - jmp.1 / other.m
      ensures m * vx + other.m * other.vx == old(m * vx + other.m * other.vx)
      ensures m * vy + other.m * other.vy == old(m * vy + other.m * other.vy)
      ensures x == old(x) && y == old(y) && other.x == old(other.x) && other.y == old(other.y)
      ensures collisionCount == old(collisionCount) + 1 && other.collisionCount == old(other.collisionCount) + 1
    {
      var jmp := Impulse(other.x - x, other.y - y, other.vx - vx, other.vy - vy, r + other.r, m, other.m);
      ImpulseCancels(m, other.m, vx, other.vx, jmp.0);
      ImpulseCancels(m, other.m, vy, other.vy, jmp.1);
      vx, vy := vx + jmp.0 / m, vy + jmp.1 / m;
      collisionCount := collisionCount + 1;
      other.vx, other.vy := other.vx - jmp.0 / other.m, other.vy - jmp.1 / other.m;
      other.collisionCount := other.collisionCount + 1;
    }

    /** `equals`: particles are equal when their ids are. */
    predicate Equals(o: Particle?)
    {
      o != null && (o == this || id == o.id)
    }

    /** `hashCode`: `Integer.hashCode(id)` is the id itself. */
    function HashCode(): int
      reads this
    {
      id
    }
  }

  /** Opposite impulses leave the total momentum on an axis as it was. */
  lemma ImpulseCancels(m1: real, m2: real, v1: real, v2: real, j: real)
    requires m1 != 0.0 && m2 != 0.0
    ensures m1 * (v1 + j / m1) + m2 * (v2 - j / m2) == m1 * v1 + m2 * v2
  {
    assert m1 * (j / m1) == j;
    assert m2 * (j / m2) == j;
  }

  /** `equals` is an equivalence on particles and agrees with `hashCode`. */
  lemma EqualsIsIdEquality(p: Particle, q: Particle)
    ensures p.Equals(p)
    ensures p.Equals(q) <==> p.id == q.id
    ensures p.Equals(q) <==> q.Equals(p)
    ensures p.Equals(q) ==> p.HashCode() == q.HashCode()
  {
  }

  /** `equals(null)` is false. */
  lemma NotEqualToNull(p: Particle)
    ensures !p.Equals(null)
  {
  }

  /** m1 |v1|^2 + m2 |v2|^2: twice the kinetic energy of two discs. */
  function TwiceKinetic(m1: real, m2: real, v1x: real, v1y: real, v2x: real, v2y: real): real
  {
    m1 * SeparationSq(v1x, v1y) + m2 * SeparationSq(v2x, v2y)
  }

  /**
   * Kinetic energy is conserved by the impulse of `bounce` when the discs
   * touch (|dr| = sigma).
   */
  lemma BounceIsElastic(dx: real, dy: real, v1x: real, v1y: real, v2x: real, v2y: real, sigma: real, m1: real, m2: real)
    requires sigma != 0.0 && m1 != 0.0 && m2 != 0.0 && m1 + m2 != 0.0
    requires SeparationSq(dx, dy) == Sq(sigma)
    ensures var jmp := Impulse(dx, dy, v2x - v1x, v2y - v1y, sigma, m1, m2);
      TwiceKinetic(m1, m2, v1x + jmp.0 / m1, v1y + jmp.1 / m1, v2x - jmp.0 / m2, v2y - jmp.1 / m2)
      == TwiceKinetic(m1, m2, v1x, v1y, v2x, v2y)
  {
    var b := ApproachProduct(dx, dy, v2x - v1x, v2y - v1y);
    var j := ImpulseMagnitude(dx, dy, v2x - v1x, v2y - v1y, sigma, m1, m2);
    var jmp := Impulse(dx, dy, v2x - v1x, v2y - v1y, sigma, m1, m2);
    assert jmp.0 == j * dx / sigma && jmp.1 == j * dy / sigma;
    assert j * (sigma * (m1 + m2)) == 2.0 * m1 * m2 * b;
    ElasticPush(dx, dy, v1x, v1y, v2x, v2y, sigma, m1, m2, j);
  }

  /** A push of the magnitude `bounce` computes leaves the kinetic energy unchanged. */
  lemma ElasticPush(dx: real, dy: real, v1x: real, v1y: real, v2x: real, v2y: real, sigma: real, m1: real, m2: real, j: real)
    requires sigma != 0.0 && m1 != 0.0 && m2 != 0.0 && m1 + m2 != 0.0
    requires SeparationSq(dx, dy) == Sq(sigma)
    requires j * (sigma * (m1 + m2)) == 2.0 * m1 * m2 * ApproachProduct(dx, dy, v2x - v1x, v2y - v1y)
    ensures var jx, jy := j * dx / sigma, j * dy / sigma;
      TwiceKinetic(m1, m2, v1x + jx / m1, v1y + jy / m1, v2x - jx / m2, v2y - jy / m2)
      == TwiceKinetic(m1, m2, v1x, v1y, v2x, v2y)
  {
    // j^2 (1/m1 + 1/m2) = 2 j b / sigma: the push terms cancel the work of the impulse.
    MagnitudeBalance(j, ApproachProduct(dx, dy, v2x - v1x, v2y - v1y), sigma, m1, m2);
    EnergyAfterPush(dx, dy, v1x, v1y, v2x, v2y, sigma, m1, m2, j);
  }

  /**
   * The energy after pushes of size j along dr / sigma:
   * m1 |v1'|^2 + m2 |v2'|^2 = m1 |v1|^2 + m2 |v2|^2 - 2 j b / sigma + j^2 / m1 + j^2 / m2.
   */
  lemma EnergyAfterPush(dx: real, dy: real, v1x: real, v1y: real, v2x: real, v2y: real, sigma: real, m1: real, m2: real, j: real)
    requires sigma != 0.0 && m1 != 0.0 && m2 != 0.0
    requires SeparationSq(dx, dy) == Sq(sigma)
    ensures var jx, jy := j * dx / sigma, j * dy / sigma;
      TwiceKinetic(m1, m2, v1x + jx / m1, v1y + jy / m1, v2x - jx / m2, v2y - jy / m2)
      == TwiceKinetic(m1, m2, v1x, v1y, v2x, v2y)
         - 2.0 * (j * ApproachProduct(dx, dy, v2x - v1x, v2y - v1y) / sigma) + Sq(j) / m1 + Sq(j) / m2
  {
    var jx, jy := j * dx / sigma, j * dy / sigma;
    ImpulseSquared(j, dx, dy, sigma);
    ImpulseDot(j, dx, dy, v2x - v1x, v2y - v1y, sigma);
    KineticChange(m1, m2, v1x, v1y, v2x, v2y, jx, jy);
  }

  /**
   * Kinetic energy after equal and opposite pushes J on two discs:
   * the change is -2 J . (v2 - v1) + |J|^2 (1/m1 + 1/m2).
   */
  lemma KineticChange(m1: real, m2: real, v1x: real, v1y: real, v2x: real, v2y: real, jx: real, jy: real)
    requires m1 != 0.0 && m2 != 0.0
    ensures TwiceKinetic(m1, m2, v1x + jx / m1, v1y + jy / m1, v2x - jx / m2, v2y - jy / m2)
      == TwiceKinetic(m1, m2, v1x, v1y, v2x, v2y)
         - 2.0 * (jx * (v2x - v1x) + jy * (v2y - v1y)) + SeparationSq(jx, jy) / m1 + SeparationSq(jx, jy) / m2
  {
    ScaledSeparation(m1, v1x + jx / m1, v1y + jy / m1);
    ScaledSeparation(m2, v2x - jx / m2, v2y - jy / m2);
    ScaledSeparation(m1, v1x, v1y);
    ScaledSeparation(m2, v2x, v2y);
    ScaledSeparation(m1, jx, jy);
    ScaledSeparation(m2, jx, jy);
    EnergyChange(m1, v1x, jx);
    EnergyChange(m1, v1y, jy);
    EnergyChangeBack(m2, v2x, jx);
    EnergyChangeBack(m2, v2y, jy);
  }

  /** m |(x, y)|^2 = m x^2 + m y^2, and the same divided by m. */
  lemma ScaledSeparation(m: real, x: real, y: real)
    ensures m * SeparationSq(x, y) == m * Sq(x) + m * Sq(y)
    ensures m != 0.0 ==> SeparationSq(x, y) / m == Sq(x) / m + Sq(y) / m
  {
  }

  /** A push of size j along the unit vector dr / sigma has squared length j^2. */
  lemma ImpulseSquared(j: real, dx: real, dy: real, sigma: real)
    requires sigma != 0.0 && SeparationSq(dx, dy) == Sq(sigma)
    ensures SeparationSq(j * dx / sigma, j * dy / sigma) == Sq(j)
  {
    SqPositive(sigma);
    assert Sq(j * dx / sigma) == Sq(j) * Sq(dx) / Sq(sigma);
    assert Sq(j * dy / sigma) == Sq(j) * Sq(dy) / Sq(sigma);
    assert Sq(j) * Sq(dx) / Sq(sigma) + Sq(j) * Sq(dy) / Sq(sigma) == Sq(j) * SeparationSq(dx, dy) / Sq(sigma);
  }

  lemma ImpulseDot(j: real, dx: real, dy: real, dvx: real, dvy: real, sigma: real)
    requires sigma != 0.0
    ensures (j * dx / sigma) * dvx + (j * dy / sigma) * dvy == j * ApproachProduct(dx, dy, dvx, dvy) / sigma
  {
  }

  lemma MagnitudeBalance(j: real, b: real, sigma: real, m1: real, m2: real)
    requires sigma != 0.0 && m1 != 0.0 && m2 != 0.0 && m1 + m2 != 0.0
    requires j * (sigma * (m1 + m2)) == 2.0 * m1 * m2 * b
    ensures Sq(j) / m1 + Sq(j) / m2 == 2.0 * (j * b / sigma)
  {
    FractionSum(Sq(j), m1, m2);
    WorkOfPush(j, b, sigma, m1 + m2, m1 * m2);
  }

  /** a / m1 + a / m2 = a (m1 + m2) / (m1 m2). */
  lemma FractionSum(a: real, m1: real, m2: real)
    requires m1 != 0.0 && m2 != 0.0
    ensures a / m1 + a / m2 == a * (m1 + m2) / (m1 * m2)
  {
    assert a / m1 == a * m2 / (m1 * m2);
    assert a / m2 == a * m1 / (m1 * m2);
  }

  /** From j sigma k = 2 p b: 2 j b / sigma = j^2 k / p. */
  lemma WorkOfPush(j: real, b: real, sigma: real, k: real, p: real)
    requires sigma != 0.0 && p != 0.0
    requires j * (sigma * k) == 2.0 * p * b
    ensures 2.0 * (j * b / sigma) == Sq(j) * k / p
  {
    assert b == j * sigma * k / (2.0 * p);
    assert j * b / sigma == j * (j * sigma * k / (2.0 * p)) / sigma;
    assert j * (j * sigma * k / (2.0 * p)) / sigma == Sq(j) * k / (2.0 * p);
  }

  /** m (v + j/m)^2 = m v^2 + 2 j v + j^2 / m. */
  lemma EnergyChange(m: real, v: real, j: real)
    requires m != 0.0
    ensures m * Sq(v + j / m) == m * Sq(v) + 2.0 * j * v + Sq(j) / m
  {
    assert m * (j / m) == j;
    assert Sq(v + j / m) == Sq(v) + 2.0 * v * (j / m) + Sq(j / m);
    assert m * Sq(j / m) == Sq(j) / m;
  }

  /** m (v - j/m)^2 = m v^2 - 2 j v + j^2 / m. */
  lemma EnergyChangeBack(m: real, v: real, j: real)
    requires m != 0.0
    ensures m * Sq(v - j / m) == m * Sq(v) - 2.0 * j * v + Sq(j) / m
  {
    EnergyChange(m, v, -j);
    assert v + (-j) / m == v - j / m;
    assert Sq(-j) == Sq(j);
  }

  /** Two `bounceX` calls restore the velocity, and count two collisions. */
  method BounceXTwice(p: Particle)
    modifies p
    ensures p.vx == old(p.vx) && p.vy == old(p.vy) && p.collisionCount == old(p.collisionCount) + 2
  {
    p.BounceX();
    p.BounceX();
  }
}
