/**
 * Vector2D.java: an immutable pair of doubles with static componentwise
 * helpers. No field is ever reassigned, so the model is a datatype.
 */
module Vectors {
  import opened Wrappers
  import opened RealMath

  datatype Vector2D = Vector2D(x: real, y: real)

  /** The no-argument constructor. */
  function Origin(): (v: Vector2D)
    ensures v.x == 0.0 && v.y == 0.0
  {
    Vector2D(0.0, 0.0)
  }

  /** `deltaX`: the x component of `sub`. */
  function DeltaX(v1: Vector2D, v2: Vector2D): (d: real)
    ensures d == Sub(v1, v2).x
  {
    v1.x - v2.x
  }

  /** `deltaY`: the y component of `sub`. */
  function DeltaY(v1: Vector2D, v2: Vector2D): (d: real)
    ensures d == Sub(v1, v2).y
  {
    v1.y - v2.y
  }

  /** `sum`: the origin is its identity on both sides. */
  function Sum(v1: Vector2D, v2: Vector2D): (r: Vector2D)
    ensures v2 == Origin() ==> r == v1
    ensures v1 == Origin() ==> r == v2
  {
    Vector2D(v1.x + v2.x, v1.y + v2.y)
  }

  /** `sub`: adding `v2` back gives `v1`, and it is the only vector that does, so `sub` also undoes `sum`. */
  function Sub(v1: Vector2D, v2: Vector2D): (r: Vector2D)
    ensures Sum(r, v2) == v1
    ensures forall w :: Sum(w, v2) == v1 ==> w == r
  {
    Vector2D(v1.x - v2.x, v1.y - v2.y)
  }

  function Scalar(v: Vector2D, s: real): Vector2D
  {
    Vector2D(v.x * s, v.y * s)
  }

  /** Squared Euclidean distance: `pow(dx, 2.0) + pow(dy, 2.0)`. */
  function SquaredDistance(v1: Vector2D, v2: Vector2D): real
  {
    Sq(DeltaX(v1, v2)) + Sq(DeltaY(v1, v2))
  }

  /** `mod`: the Euclidean distance between two points. */
  function Mod(sqrt: real -> real, v1: Vector2D, v2: Vector2D): real
  {
    sqrt(SquaredDistance(v1, v2))
  }

  /** The signed Coulomb magnitude `k q q (+-1) / mod^2`. */
  function ForceMagnitude(k: real, q: real, pos: bool, m: real): real
    requires m != 0.0
  {
    SqPositive(m);
    (k * Sq(q) * (if pos then 1.0 else -1.0)) / Sq(m)
  }

  /**
   * `force`: Coulomb force of a charge at v2 on a charge at v1. Where the two
   * points coincide Java divides by zero and yields non-finite components;
   * the model answers None there.
   */
  function Force(sqrt: real -> real, v1: Vector2D, v2: Vector2D, k: real, q: real, pos: bool): Option<Vector2D>
  {
    var m := Mod(sqrt, v1, v2);
    if m == 0.0 then None
    else
      var fn := ForceMagnitude(k, q, pos, m);
      Some(Vector2D(fn * DeltaX(v1, v2) / m, fn * DeltaY(v1, v2) / m))
  }

  /** `equals`: Double.compare on both components, which over the reals is equality. */
  function VectorEquals(v1: Vector2D, v2: Vector2D): (b: bool)
    ensures b <==> v1 == v2
  {
    v1.x == v2.x && v1.y == v2.y
  }

  /** The squared distance is non-negative, and zero exactly when the two points are equal. */
  lemma SquaredDistanceZero(v1: Vector2D, v2: Vector2D)
    ensures SquaredDistance(v1, v2) >= 0.0
    ensures SquaredDistance(v1, v2) > 0.0 <==> v1 != v2
  {
    SqNonNegative(DeltaX(v1, v2));
    SqNonNegative(DeltaY(v1, v2));
    if v1.x != v2.x {
      SqPositive(DeltaX(v1, v2));
    } else if v1.y != v2.y {
      SqPositive(DeltaY(v1, v2));
    }
  }

  /** `mod` is a distance: non-negative, symmetric, and zero exactly on equal points. */
  lemma ModIsDistance(sqrt: real -> real, v1: Vector2D, v2: Vector2D)
    requires IsSqrt(sqrt)
    ensures Mod(sqrt, v1, v2) >= 0.0
    ensures Mod(sqrt, v1, v2) == Mod(sqrt, v2, v1)
    ensures Mod(sqrt, v1, v2) == 0.0 <==> v1 == v2
  {
    SquaredDistanceZero(v1, v2);
    assert Sq(DeltaX(v2, v1)) == Sq(DeltaX(v1, v2));
    assert Sq(DeltaY(v2, v1)) == Sq(DeltaY(v1, v2));
    if v1 == v2 {
      SqrtOfZero(sqrt);
    } else {
      SqrtPositive(sqrt, SquaredDistance(v1, v2));
    }
  }

  lemma SqOfProduct(a: real, c: real)
    ensures Sq(a * c) == Sq(a) * Sq(c)
  {
  }

  /**
   * The force is defined exactly off the diagonal; there it is the
   * difference v1 - v2 scaled by fn / mod, so its squared length is fn^2
   * (Coulomb's law: |F| = |k q^2| / mod^2).
   */
  lemma ForceShape(sqrt: real -> real, v1: Vector2D, v2: Vector2D, k: real, q: real, pos: bool)
    requires IsSqrt(sqrt)
    ensures Force(sqrt, v1, v2, k, q, pos).Some? <==> v1 != v2
    ensures v1 != v2 ==>
      var m := Mod(sqrt, v1, v2);
      var fn := ForceMagnitude(k, q, pos, m);
      var f := Force(sqrt, v1, v2, k, q, pos).value;
      && f == Scalar(Sub(v1, v2), fn / m)
      && Sq(f.x) + Sq(f.y) == Sq(fn)
  {
    ModIsDistance(sqrt, v1, v2);
    if v1 != v2 {
      var m := Mod(sqrt, v1, v2);
      var fn := ForceMagnitude(k, q, pos, m);
      assert m != 0.0;
      ForceIsScaledDifference(sqrt, v1, v2, k, q, pos, m, fn);
      ScaledLength(DeltaX(v1, v2), DeltaY(v1, v2), m, fn);
    }
  }

  /** Off the diagonal the force is v1 - v2 scaled by fn / mod. */
  lemma ForceIsScaledDifference(sqrt: real -> real, v1: Vector2D, v2: Vector2D, k: real, q: real, pos: bool, m: real, fn: real)
    requires m == Mod(sqrt, v1, v2) && m != 0.0 && fn == ForceMagnitude(k, q, pos, m)
    ensures Force(sqrt, v1, v2, k, q, pos) == Some(Scalar(Sub(v1, v2), fn / m))
  {
    var f := Force(sqrt, v1, v2, k, q, pos);
    var g := Scalar(Sub(v1, v2), fn / m);
    assert f.Some? && f.value.x == fn * DeltaX(v1, v2) / m && f.value.y == fn * DeltaY(v1, v2) / m;
    DivisionCommutes(fn, DeltaX(v1, v2), m);
    DivisionCommutes(fn, DeltaY(v1, v2), m);
    assert f.value.x == g.x && f.value.y == g.y;
  }

  lemma DivisionCommutes(a: real, b: real, m: real)
    requires m != 0.0
    ensures a * b / m == b * (a / m)
  {
  }

  /** (dx, dy) scaled by fn / m has squared length fn^2 when m^2 = dx^2 + dy^2. */
  lemma ScaledLength(dx: real, dy: real, m: real, fn: real)
    requires m != 0.0 && Sq(m) == Sq(dx) + Sq(dy)
    ensures Sq(dx * (fn / m)) + Sq(dy * (fn / m)) == Sq(fn)
  {
    var c := fn / m;
    SqOfProduct(dx, c);
    SqOfProduct(dy, c);
    SqOfProduct(m, c);
    assert m * c == fn;
    calc {
      Sq(dx * c) + Sq(dy * c);
      (Sq(dx) + Sq(dy)) * Sq(c);
      Sq(m) * Sq(c);
      Sq(fn);
    }
  }

  /** For positive k and non-zero q the force is repulsive when `pos` and attractive otherwise. */
  lemma ForceDirection(sqrt: real -> real, v1: Vector2D, v2: Vector2D, k: real, q: real, pos: bool)
    requires IsSqrt(sqrt)
    requires v1 != v2 && k > 0.0 && q != 0.0
    ensures Force(sqrt, v1, v2, k, q, pos).Some?
    ensures var f := Force(sqrt, v1, v2, k, q, pos).value;
      var dot := f.x * DeltaX(v1, v2) + f.y * DeltaY(v1, v2);
      if pos then dot > 0.0 else dot < 0.0
  {
    ForceShape(sqrt, v1, v2, k, q, pos);
    ModIsDistance(sqrt, v1, v2);
    SquaredDistanceZero(v1, v2);
    var m := Mod(sqrt, v1, v2);
    var c := ForceMagnitude(k, q, pos, m) / m;
    ScaleFactorSign(k, q, pos, m);
    DotOfScaled(DeltaX(v1, v2), DeltaY(v1, v2), c);
    SignedProduct(c, SquaredDistance(v1, v2), pos);
  }

  /** fn / mod has the sign of the charge product: positive when `pos`, negative otherwise. */
  lemma ScaleFactorSign(k: real, q: real, pos: bool, m: real)
    requires k > 0.0 && q != 0.0 && m > 0.0
    ensures var c := ForceMagnitude(k, q, pos, m) / m;
      if pos then c > 0.0 else c < 0.0
  {
    SqPositive(q);
    SqPositive(m);
    ProductPositive(k, Sq(q));
    assert Product(k, Sq(q)) == k * Sq(q);
  }

  lemma DotOfScaled(dx: real, dy: real, c: real)
    ensures (dx * c) * dx + (dy * c) * dy == c * (Sq(dx) + Sq(dy))
  {
  }

  lemma SignedProduct(c: real, s: real, pos: bool)
    requires s > 0.0 && (if pos then c > 0.0 else c < 0.0)
    ensures if pos then c * s > 0.0 else c * s < 0.0
  {
    if pos {
      ProductPositive(c, s);
    } else {
      ProductPositive(-c, s);
    }
  }
}
