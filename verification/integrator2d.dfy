/**
 * The two-dimensional integrator of algos2D/: StepAlgorithm.java keeps the
 * history of positions, velocities and accelerations on three CustomStacks
 * and stops when the moving charge leaves the box [0, d n] x [0, d (n - 1)]
 * or comes within 0.01 d of a fixed charge of the n x n grid; Beeman.java
 * pushes one new entry on each stack per `next()`. The only subclass is
 * Beeman, so the class below is the two merged.
 *
 * The force `f(position, staticParticles)` is a function value, and `sqrt`
 * (used by `mod`) is passed in wherever a distance is taken.
 */
module Integrator2D {
  import opened Wrappers
  import RM = RealMath
  import opened Vectors
  import opened Steps
  import opened Stacks
  import AT = AlgorithmTypes
  import I1 = Integrator1D

  /** `next()` past the end throws IndexOutOfBoundsException("No more time steps!"). */
  datatype StepError = IndexOutOfBoundsException

  /** `algorithmBuilder` throws IllegalArgumentException for every type but BEEMAN. */
  datatype BuildError = IllegalArgumentException | NullPointerException

  /** Why `hasNext` answered false, in the order it checks. */
  datatype StopReason = CrossedMaxX | CrossedMinX | CrossedMaxY | CrossedMinY | CloseParticles

  /** One entry of each of the three stacks. */
  datatype Phase2 = Phase2(pos: Vector2D, vel: Vector2D, acc: Vector2D)

  /** The fixed charge at grid cell (i, j): ((i + 1) d, j d). */
  function GridPoint(d: real, i: int, j: int): Vector2D
  {
    Vector2D((i + 1) as real * d, j as real * d)
  }

  /** The grid cell a point of the grid sits at, read back from its coordinates. */
  function CellOf(d: real, v: Vector2D): (int, int)
    requires d > 0.0
  {
    ((v.x / d).Floor - 1, (v.y / d).Floor)
  }

  /** Distinct cells give distinct points: the cell is recovered from the point. */
  lemma CellOfGridPoint(d: real, i: int, j: int)
    requires d > 0.0
    ensures CellOf(d, GridPoint(d, i, j)) == (i, j)
  {
    assert (i + 1) as real * d / d == (i + 1) as real;
    assert j as real * d / d == j as real;
  }

  lemma GridPointInjective(d: real, i: int, j: int, i2: int, j2: int)
    requires d > 0.0 && GridPoint(d, i, j) == GridPoint(d, i2, j2)
    ensures i == i2 && j == j2
  {
    CellOfGridPoint(d, i, j);
    CellOfGridPoint(d, i2, j2);
  }

  /** `v` is the point of one of the cells of the n x n grid. */
  ghost predicate OnGrid(d: real, n: int, v: Vector2D)
  {
    exists i, j :: 0 <= i < n && 0 <= j < n && v == GridPoint(d, i, j)
  }

  /** Row-major order of the grid points: the x coordinate first, then y. */
  predicate Precedes(v: Vector2D, w: Vector2D)
  {
    v.x < w.x || (v.x == w.x && v.y < w.y)
  }

  /** Grid points come in the order of their cells. */
  lemma GridPointsAreOrdered(d: real, i: int, j: int, i2: int, j2: int)
    requires d > 0.0 && (i < i2 || (i == i2 && j < j2))
    ensures Precedes(GridPoint(d, i, j), GridPoint(d, i2, j2))
  {
    if i < i2 {
      assert (i2 + 1) as real * d - (i + 1) as real * d == (i2 - i) as real * d;
      RM.ProductPositive((i2 - i) as real, d);
      assert RM.Product((i2 - i) as real, d) == (i2 - i) as real * d;
    } else {
      assert j2 as real * d - j as real * d == (j2 - j) as real * d;
      RM.ProductPositive((j2 - j) as real, d);
      assert RM.Product((j2 - j) as real, d) == (j2 - j) as real * d;
    }
  }

  /** The sign of the fixed charge at cell (i, j): positive exactly when i + j is even. */
  function IsPositive(i: int, j: int): bool
  {
    (i + j) % 2 == 0
  }

  /**
   * The map `initStaticParticles` has built once rows 0 .. i - 1 and the
   * first j cells of row i are placed.
   */
  function Placed(d: real, n: nat, i: nat, j: nat): map<Vector2D, bool>
    requires j <= n
    decreases i, j
  {
    if j == 0 then (if i == 0 then map[] else Placed(d, n, i - 1, n))
    else Placed(d, n, i, j - 1)[GridPoint(d, i, j - 1) := IsPositive(i, j - 1)]
  }

  /** Cell (a, b) comes before cell (i, j) in row order. */
  predicate CellBefore(a: int, b: int, i: int, j: int)
  {
    a < i || (a == i && b < j)
  }

  /** Every key placed so far is the point of a cell of the grid placed before (i, j). */
  lemma {:induction false} PlacedKeysAreEarlierCells(d: real, n: nat, i: nat, j: nat)
    requires d > 0.0 && j <= n && (i < n || (i == n && j == 0))
    ensures forall v :: v in Placed(d, n, i, j) ==> OnGrid(d, n, v) && Precedes(v, GridPoint(d, i, j))
  {
    if j == 0 {
      if i > 0 {
        PlacedKeysAreEarlierCells(d, n, i - 1, n);
        GridPointsAreOrdered(d, i - 1, n, i, 0);
      }
    } else {
      PlacedKeysAreEarlierCells(d, n, i, j - 1);
      GridPointsAreOrdered(d, i, j - 1, i, j);
      assert OnGrid(d, n, GridPoint(d, i, j - 1));
    }
  }

  /** Every earlier cell is placed, with its sign. */
  lemma {:induction false} PlacedHoldsEarlierCells(d: real, n: nat, i: nat, j: nat)
    requires d > 0.0 && j <= n
    ensures forall a, b :: 0 <= a && 0 <= b < n && CellBefore(a, b, i, j) ==>
      GridPoint(d, a, b) in Placed(d, n, i, j) && Placed(d, n, i, j)[GridPoint(d, a, b)] == IsPositive(a, b)
  {
    if j == 0 {
      if i > 0 {
        PlacedHoldsEarlierCells(d, n, i - 1, n);
      }
    } else {
      PlacedHoldsEarlierCells(d, n, i, j - 1);
      forall a, b | 0 <= a && 0 <= b < n && CellBefore(a, b, i, j - 1)
        ensures GridPoint(d, a, b) != GridPoint(d, i, j - 1)
      {
        GridPointsAreOrdered(d, a, b, i, j - 1);
      }
    }
  }

  /** One key per placed cell. */
  lemma {:induction false} PlacedSize(d: real, n: nat, i: nat, j: nat)
    requires d > 0.0 && j <= n && (i < n || (i == n && j == 0))
    ensures |Placed(d, n, i, j)| == i * n + j
  {
    if j == 0 {
      if i > 0 {
        PlacedSize(d, n, i - 1, n);
        assert (i - 1) * n + n == i * n;
      }
    } else {
      PlacedSize(d, n, i, j - 1);
      PlacedKeysAreEarlierCells(d, n, i, j - 1);
      assert GridPoint(d, i, j - 1) !in Placed(d, n, i, j - 1);
    }
  }

  /**
   * `initStaticParticles`: every point ((i + 1) d, j d) for 0 <= i, j < n,
   * mapped to true (a positive charge) exactly when i + j is even, and no
   * other key.
   */
  method InitStaticParticles(d: real, n: int) returns (m: map<Vector2D, bool>)
    requires d > 0.0 && n >= 0
    ensures m == Placed(d, n, n, 0)
    ensures forall i, j :: 0 <= i < n && 0 <= j < n ==> GridPoint(d, i, j) in m && m[GridPoint(d, i, j)] == IsPositive(i, j)
    ensures forall v :: v in m ==> OnGrid(d, n, v)
    ensures |m| == n * n
  {
    m := map[];
    var i := 0;
    while i < n
      invariant 0 <= i <= n
      invariant m == Placed(d, n, i, 0)
    {
      var j := 0;
      while j < n
        invariant 0 <= j <= n
        invariant m == Placed(d, n, i, j)
      {
        m := m[GridPoint(d, i, j) := IsPositive(i, j)];
        j := j + 1;
      }
      i := i + 1;
    }
    PlacedHoldsEarlierCells(d, n, n, 0);
    PlacedKeysAreEarlierCells(d, n, n, 0);
    PlacedSize(d, n, n, 0);
  }

  /** `eulerPrecedingStep` exactly as algos2D/StepAlgorithm.java writes it; the integrator below starts from this one. */
  function EulerPrecedingStepAsWritten(f: (Vector2D, map<Vector2D, bool>) -> Vector2D, statics: map<Vector2D, bool>,
                                       mass: real, deltaT: real, t: real, r: Vector2D, v: Vector2D, a: Vector2D): Step<Vector2D>
    requires mass != 0.0
  {
    var prevVel := Sub(v, Scalar(a, deltaT));
    var prevPos := Sum(Sub(r, Scalar(prevVel, deltaT)), Scalar(a, RM.Sq(deltaT) / 2.0));
    Step(t - deltaT, prevPos, prevVel, Scalar(f(prevPos, statics), 1.0 / mass))
  }

  /** `eulerPrecedingStep` as evidently intended: r - dt v + dt^2 a / 2. */
  function EulerPrecedingStep(f: (Vector2D, map<Vector2D, bool>) -> Vector2D, statics: map<Vector2D, bool>,
                              mass: real, deltaT: real, t: real, r: Vector2D, v: Vector2D, a: Vector2D): Step<Vector2D>
    requires mass != 0.0
  {
    var prevVel := Sub(v, Scalar(a, deltaT));
    var prevPos := Sum(Sub(r, Scalar(v, deltaT)), Scalar(a, RM.Sq(deltaT) / 2.0));
    Step(t - deltaT, prevPos, prevVel, Scalar(f(prevPos, statics), 1.0 / mass))
  }

  /**
   * Both back-steps agree on each axis with the one-dimensional ones, so the
   * position written is off by a dt^2 from the intended one, as in one dimension.
   */
  lemma EulerPrecedingStepIsComponentwise(f: (Vector2D, map<Vector2D, bool>) -> Vector2D, statics: map<Vector2D, bool>,
                                          mass: real, deltaT: real, t: real, r: Vector2D, v: Vector2D, a: Vector2D,
                                          fx: (real, real) -> real)
    requires mass != 0.0
    ensures var s := EulerPrecedingStep(f, statics, mass, deltaT, t, r, v, a);
      && s.pos.x == I1.EulerPrecedingStep(fx, mass, deltaT, t, r.x, v.x, a.x).pos
      && s.pos.y == I1.EulerPrecedingStep(fx, mass, deltaT, t, r.y, v.y, a.y).pos
      && s.vel.x == I1.EulerPrecedingStep(fx, mass, deltaT, t, r.x, v.x, a.x).vel
      && s.vel.y == I1.EulerPrecedingStep(fx, mass, deltaT, t, r.y, v.y, a.y).vel
    ensures var w := EulerPrecedingStepAsWritten(f, statics, mass, deltaT, t, r, v, a);
      var s := EulerPrecedingStep(f, statics, mass, deltaT, t, r, v, a);
      w.pos == Sum(s.pos, Scalar(a, RM.Sq(deltaT)))
  {
    BackStepPositionsOnAxes(f, statics, mass, deltaT, t, r, v, a, fx);
    BackStepVelocitiesOnAxes(f, statics, mass, deltaT, t, r, v, a, fx);
    AsWrittenBackStepIsShifted(f, statics, mass, deltaT, t, r, v, a);
  }

  /** The intended planar back-step position is the one-dimensional one on each axis. */
  lemma BackStepPositionsOnAxes(f: (Vector2D, map<Vector2D, bool>) -> Vector2D, statics: map<Vector2D, bool>,
                                mass: real, deltaT: real, t: real, r: Vector2D, v: Vector2D, a: Vector2D,
                                fx: (real, real) -> real)
    requires mass != 0.0
    ensures var s := EulerPrecedingStep(f, statics, mass, deltaT, t, r, v, a);
      && s.pos.x == I1.EulerPrecedingStep(fx, mass, deltaT, t, r.x, v.x, a.x).pos
      && s.pos.y == I1.EulerPrecedingStep(fx, mass, deltaT, t, r.y, v.y, a.y).pos
  {
    var s := EulerPrecedingStep(f, statics, mass, deltaT, t, r, v, a);
    var p := Sum(Sub(r, Scalar(v, deltaT)), Scalar(a, RM.Sq(deltaT) / 2.0));
    assert s.pos == p;
    BackStepComponents(r, v, a, deltaT, RM.Sq(deltaT) / 2.0);
    assert p.x == (r.x - v.x * deltaT) + a.x * (RM.Sq(deltaT) / 2.0);
    assert p.y == (r.y - v.y * deltaT) + a.y * (RM.Sq(deltaT) / 2.0);
    AxisBackStep(fx, mass, deltaT, t, r.x, v.x, a.x);
    AxisBackStep(fx, mass, deltaT, t, r.y, v.y, a.y);
    var ex, ey := I1.EulerPrecedingStep(fx, mass, deltaT, t, r.x, v.x, a.x), I1.EulerPrecedingStep(fx, mass, deltaT, t, r.y, v.y, a.y);
    assert ex.pos == (r.x - v.x * deltaT) + a.x * (RM.Sq(deltaT) / 2.0);
    assert ey.pos == (r.y - v.y * deltaT) + a.y * (RM.Sq(deltaT) / 2.0);
  }

  /** The planar back-step velocity is the one-dimensional one on each axis. */
  lemma BackStepVelocitiesOnAxes(f: (Vector2D, map<Vector2D, bool>) -> Vector2D, statics: map<Vector2D, bool>,
                                 mass: real, deltaT: real, t: real, r: Vector2D, v: Vector2D, a: Vector2D,
                                 fx: (real, real) -> real)
    requires mass != 0.0
    ensures var s := EulerPrecedingStep(f, statics, mass, deltaT, t, r, v, a);
      && s.vel.x == I1.EulerPrecedingStep(fx, mass, deltaT, t, r.x, v.x, a.x).vel
      && s.vel.y == I1.EulerPrecedingStep(fx, mass, deltaT, t, r.y, v.y, a.y).vel
  {
    BackStepComponents(r, v, a, deltaT, RM.Sq(deltaT) / 2.0);
    AxisBackStep(fx, mass, deltaT, t, r.x, v.x, a.x);
    AxisBackStep(fx, mass, deltaT, t, r.y, v.y, a.y);
  }

  /** The planar back-step as written sits a dt^2 away from the intended one. */
  lemma AsWrittenBackStepIsShifted(f: (Vector2D, map<Vector2D, bool>) -> Vector2D, statics: map<Vector2D, bool>,
                                   mass: real, deltaT: real, t: real, r: Vector2D, v: Vector2D, a: Vector2D)
    requires mass != 0.0
    ensures var w := EulerPrecedingStepAsWritten(f, statics, mass, deltaT, t, r, v, a);
      var s := EulerPrecedingStep(f, statics, mass, deltaT, t, r, v, a);
      w.pos == Sum(s.pos, Scalar(a, RM.Sq(deltaT)))
  {
    BackStepComponents(r, v, a, deltaT, RM.Sq(deltaT) / 2.0);
    BackStepComponents(r, Sub(v, Scalar(a, deltaT)), a, deltaT, RM.Sq(deltaT) / 2.0);
    BackStepAxis(r.x, v.x, a.x, deltaT);
    BackStepAxis(r.y, v.y, a.y, deltaT);
  }

  /** The planar back-step expressions, axis by axis. */
  lemma BackStepComponents(r: Vector2D, v: Vector2D, a: Vector2D, deltaT: real, h: real)
    ensures Sum(Sub(r, Scalar(v, deltaT)), Scalar(a, h)) == Vector2D((r.x - v.x * deltaT) + a.x * h, (r.y - v.y * deltaT) + a.y * h)
    ensures Sub(v, Scalar(a, deltaT)) == Vector2D(v.x - a.x * deltaT, v.y - a.y * deltaT)
  {
  }

  /** The one-dimensional intended back-step, written the way the planar code computes each axis. */
  lemma AxisBackStep(fx: (real, real) -> real, mass: real, deltaT: real, t: real, r: real, v: real, a: real)
    requires mass != 0.0
    ensures var e := I1.EulerPrecedingStep(fx, mass, deltaT, t, r, v, a);
      && e.pos == (r - v * deltaT) + a * (RM.Sq(deltaT) / 2.0)
      && e.vel == v - a * deltaT
  {
    var e := I1.EulerPrecedingStep(fx, mass, deltaT, t, r, v, a);
    assert e.pos == r - deltaT * v + RM.Sq(deltaT) * a / 2.0 && e.vel == v - deltaT * a;
    BackStepAxis(r, v, a, deltaT);
  }

  /** The same back-step algebra in the planar and the one-dimensional orders of the factors. */
  lemma BackStepAxis(r: real, v: real, a: real, deltaT: real)
    ensures (r - v * deltaT) + a * (RM.Sq(deltaT) / 2.0) == r - deltaT * v + RM.Sq(deltaT) * a / 2.0
    ensures v - a * deltaT == v - deltaT * a
    ensures (r - (v - a * deltaT) * deltaT) + a * (RM.Sq(deltaT) / 2.0) == (r - deltaT * v + RM.Sq(deltaT) * a / 2.0) + a * RM.Sq(deltaT)
  {
  }

  /** Beeman's new position: r + dt v + (2/3) dt^2 a - (1/6) dt^2 aPrev. */
  function BeemanPosition(cur: Phase2, accPrev: Vector2D, deltaT: real, deltaTSq: real): Vector2D
  {
    Sub(Sum(Sum(cur.pos, Scalar(cur.vel, deltaT)), Scalar(cur.acc, 2.0 / 3.0 * deltaTSq)), Scalar(accPrev, 1.0 / 6.0 * deltaTSq))
  }

  /** Beeman's corrected velocity: v + (1/3) dt aNext + (5/6) dt a - (1/6) dt aPrev. */
  function BeemanVelocity(cur: Phase2, nextAcc: Vector2D, accPrev: Vector2D, deltaT: real): Vector2D
  {
    Sub(Sum(Sum(cur.vel, Scalar(nextAcc, 1.0 / 3.0 * deltaT)), Scalar(cur.acc, 5.0 / 6.0 * deltaT)), Scalar(accPrev, 1.0 / 6.0 * deltaT))
  }

  /** The entry Beeman's `next` pushes, from the stack tops `cur` and the acceleration below the top. */
  function BeemanAdvance(f: (Vector2D, map<Vector2D, bool>) -> Vector2D, statics: map<Vector2D, bool>,
                         mass: real, deltaT: real, deltaTSq: real, cur: Phase2, accPrev: Vector2D): Phase2
    requires mass != 0.0
  {
    var nextPos := BeemanPosition(cur, accPrev, deltaT, deltaTSq);
    var nextAcc := Scalar(f(nextPos, statics), 1.0 / mass);
    Phase2(nextPos, BeemanVelocity(cur, nextAcc, accPrev, deltaT), nextAcc)
  }

  /** The planar position update is the one-dimensional one on each axis. */
  lemma BeemanPositionIsComponentwise(cur: Phase2, accPrev: Vector2D, deltaT: real, deltaTSq: real)
    ensures BeemanPosition(cur, accPrev, deltaT, deltaTSq).x == I1.BeemanPosition(cur.pos.x, cur.vel.x, cur.acc.x, accPrev.x, deltaT, deltaTSq)
    ensures BeemanPosition(cur, accPrev, deltaT, deltaTSq).y == I1.BeemanPosition(cur.pos.y, cur.vel.y, cur.acc.y, accPrev.y, deltaT, deltaTSq)
  {
    PositionAxis(cur.pos.x, cur.vel.x, cur.acc.x, accPrev.x, deltaT, deltaTSq);
    PositionAxis(cur.pos.y, cur.vel.y, cur.acc.y, accPrev.y, deltaT, deltaTSq);
  }

  lemma PositionAxis(x: real, v: real, a: real, aPrev: real, deltaT: real, deltaTSq: real)
    ensures x + v * deltaT + a * (2.0 / 3.0 * deltaTSq) - aPrev * (1.0 / 6.0 * deltaTSq) == I1.BeemanPosition(x, v, a, aPrev, deltaT, deltaTSq)
  {
  }

  lemma VelocityAxis(v: real, aNext: real, a: real, aPrev: real, deltaT: real)
    ensures v + aNext * (1.0 / 3.0 * deltaT) + a * (5.0 / 6.0 * deltaT) - aPrev * (1.0 / 6.0 * deltaT) == I1.BeemanCorrectedVelocity(v, aNext, a, aPrev, deltaT)
  {
  }

  /** The planar velocity update is the one-dimensional corrected velocity on each axis. */
  lemma BeemanVelocityIsComponentwise(cur: Phase2, nextAcc: Vector2D, accPrev: Vector2D, deltaT: real)
    ensures BeemanVelocity(cur, nextAcc, accPrev, deltaT).x == I1.BeemanCorrectedVelocity(cur.vel.x, nextAcc.x, cur.acc.x, accPrev.x, deltaT)
    ensures BeemanVelocity(cur, nextAcc, accPrev, deltaT).y == I1.BeemanCorrectedVelocity(cur.vel.y, nextAcc.y, cur.acc.y, accPrev.y, deltaT)
  {
    VelocityAxis(cur.vel.x, nextAcc.x, cur.acc.x, accPrev.x, deltaT);
    VelocityAxis(cur.vel.y, nextAcc.y, cur.acc.y, accPrev.y, deltaT);
  }

  /** The new acceleration is the force at the new position over the mass. */
  lemma BeemanAccelerationIsForceOverMass(f: (Vector2D, map<Vector2D, bool>) -> Vector2D, statics: map<Vector2D, bool>,
                                          mass: real, deltaT: real, deltaTSq: real, cur: Phase2, accPrev: Vector2D)
    requires mass != 0.0
    ensures var n := BeemanAdvance(f, statics, mass, deltaT, deltaTSq, cur, accPrev);
      && n.pos == BeemanPosition(cur, accPrev, deltaT, deltaTSq)
      && n.vel == BeemanVelocity(cur, n.acc, accPrev, deltaT)
      && n.acc.x * mass == f(n.pos, statics).x
      && n.acc.y * mass == f(n.pos, statics).y
  {
  }

  /** Some fixed charge lies closer than `dCut` to `p`. */
  predicate CloseToStatic(sqrt: real -> real, p: Vector2D, statics: map<Vector2D, bool>, dCut: real)
  {
    exists v :: v in statics && Mod(sqrt, p, v) < dCut
  }

  /**
   * The checks of `hasNext` in their order: None while the first step is not
   * taken or while none of the stop conditions holds, otherwise the first
   * that holds.
   */
  function StopCheck(sqrt: real -> real, lastTime: real, deltaT: real, p: Vector2D,
                     maxX: real, maxY: real, dCut: real, statics: map<Vector2D, bool>): (r: Option<StopReason>)
    ensures lastTime < deltaT ==> r.None?
    ensures r == Some(CrossedMaxX) <==> lastTime >= deltaT && p.x >= maxX
    ensures r == Some(CrossedMinX) <==> lastTime >= deltaT && p.x < maxX && p.x <= 0.0
    ensures r == Some(CrossedMaxY) <==> lastTime >= deltaT && 0.0 < p.x < maxX && p.y >= maxY
    ensures r == Some(CrossedMinY) <==> lastTime >= deltaT && 0.0 < p.x < maxX && p.y < maxY && p.y <= 0.0
    ensures r == Some(CloseParticles) <==>
      lastTime >= deltaT && 0.0 < p.x < maxX && 0.0 < p.y < maxY && CloseToStatic(sqrt, p, statics, dCut)
  {
    if lastTime < deltaT then None
    else if p.x >= maxX then Some(CrossedMaxX)
    else if p.x <= 0.0 then Some(CrossedMinX)
    else if p.y >= maxY then Some(CrossedMaxY)
    else if p.y <= 0.0 then Some(CrossedMinY)
    else if exists v :: v in statics && Mod(sqrt, p, v) < dCut then Some(CloseParticles)
    else None
  }

  /** Past the first step, `hasNext` holds exactly inside the open box and away from every fixed charge. */
  lemma StopCheckNoneIffInside(sqrt: real -> real, lastTime: real, deltaT: real, p: Vector2D,
                               maxX: real, maxY: real, dCut: real, statics: map<Vector2D, bool>)
    requires lastTime >= deltaT
    ensures StopCheck(sqrt, lastTime, deltaT, p, maxX, maxY, dCut, statics).None?
      <==> 0.0 < p.x < maxX && 0.0 < p.y < maxY && !CloseToStatic(sqrt, p, statics, dCut)
  {
  }

  /**
   * With dCut = 0.01 d, a position on a fixed charge always stops the run
   * once the first step is taken, if it is inside the box.
   */
  lemma StopAtFixedCharge(sqrt: real -> real, lastTime: real, deltaT: real, p: Vector2D,
                          maxX: real, maxY: real, d: real, statics: map<Vector2D, bool>)
    requires RM.IsSqrt(sqrt) && d > 0.0 && p in statics && lastTime >= deltaT
    ensures StopCheck(sqrt, lastTime, deltaT, p, maxX, maxY, 0.01 * d, statics).Some?
  {
    ModIsDistance(sqrt, p, p);
    assert Mod(sqrt, p, p) < 0.01 * d;
  }

  /** A new stack with `bottom` pushed, then `top`. */
  method StackOfTwo(bottom: Vector2D, top: Vector2D) returns (s: CustomStack<Vector2D>)
    ensures fresh(s) && s.elements == [bottom, top]
  {
    s := new CustomStack<Vector2D>();
    s.Push(bottom);
    s.Push(top);
  }

  class StepAlgorithm {
    const f: (Vector2D, map<Vector2D, bool>) -> Vector2D
    const staticParticles: map<Vector2D, bool>
    const mass: real
    const deltaT: real
    const deltaTSq: real
    const maxX: real
    const maxY: real
    const dCut: real
    const pos: CustomStack<Vector2D>
    const vel: CustomStack<Vector2D>
    const acc: CustomStack<Vector2D>
    var lastTime: real
    var done: bool

    ghost predicate Valid()
      reads this, pos, vel, acc
    {
      && pos != vel && vel != acc && pos != acc
      && |pos.elements| == |vel.elements| == |acc.elements| >= 2
      && mass > 0.0 && deltaT > 0.0 && deltaTSq == RM.Sq(deltaT)
      && lastTime == I1.Clock(deltaT, |pos.elements| - 2)
    }

    /** The three stack tops. */
    function Top(): Phase2
      reads this, pos, vel, acc
      requires Valid()
    {
      Phase2(pos.elements[|pos.elements| - 1], vel.elements[|vel.elements| - 1], acc.elements[|acc.elements| - 1])
    }

    /**
     * The constructor: the box and cut-off from d and n, the static grid,
     * and two entries on each stack, the back-step as written under the initial
     * state (0, r0), (v0, 0), f(pos0) / mass.
     */
    constructor(f: (Vector2D, map<Vector2D, bool>) -> Vector2D, deltaT: real, r0: real, v0: real, mass: real, d: real, n: int)
      requires deltaT > 0.0 && mass > 0.0 && d > 0.0 && n > 0
      ensures Valid()
      ensures fresh(pos) && fresh(vel) && fresh(acc)
      ensures this.f == f && this.mass == mass && this.deltaT == deltaT
      ensures maxX == d * n as real && maxY == d * (n - 1) as real && dCut == 0.01 * d
      ensures lastTime == 0.0 && !done
      ensures forall i, j :: 0 <= i < n && 0 <= j < n ==>
        GridPoint(d, i, j) in staticParticles && staticParticles[GridPoint(d, i, j)] == IsPositive(i, j)
      ensures forall v :: v in staticParticles ==> OnGrid(d, n, v)
      ensures |staticParticles| == n * n
      ensures var pos0, vel0 := Vector2D(0.0, r0), Vector2D(v0, 0.0);
        var acc0 := Scalar(f(pos0, staticParticles), 1.0 / mass);
        var prev := EulerPrecedingStepAsWritten(f, staticParticles, mass, deltaT, 0.0, pos0, vel0, acc0);
        && pos.elements == [prev.pos, pos0]
        && vel.elements == [prev.vel, vel0]
        && acc.elements == [prev.acc, acc0]
    {
      this.f := f;
      this.mass := mass;
      this.deltaT := deltaT;
      this.deltaTSq := deltaT * deltaT;
      this.lastTime := 0.0;
      this.done := false;
      this.maxX := d * n as real;
      this.maxY := d * (n - 1) as real;
      this.dCut := 0.01 * d;
      var statics := InitStaticParticles(d, n);
      this.staticParticles := statics;
      var pos0 := Vector2D(0.0, r0);
      var vel0 := Vector2D(v0, 0.0);
      var acc0 := Scalar(f(pos0, statics), 1.0 / mass);
      var prevStep := EulerPrecedingStepAsWritten(f, statics, mass, deltaT, 0.0, pos0, vel0, acc0);
      var p := StackOfTwo(prevStep.pos, pos0);
      var v := StackOfTwo(prevStep.vel, vel0);
      var a := StackOfTwo(prevStep.acc, acc0);
      this.pos := p;
      this.vel := v;
      this.acc := a;
    }

    /** `getLastStep`: the clock and the three stack tops, nothing popped. */
    function GetLastStep(): (s: Step<Vector2D>)
      reads this, pos, vel, acc
      requires Valid()
      ensures s.time == lastTime
      ensures Phase2(s.pos, s.vel, s.acc) == Top()
    {
      Step(lastTime, pos.elements[|pos.elements| - 1], vel.elements[|vel.elements| - 1], acc.elements[|acc.elements| - 1])
    }

    /** Why the run stops here, or None while `hasNext` holds. */
    function StopReasonNow(sqrt: real -> real): Option<StopReason>
      reads this, pos, vel, acc
      requires Valid()
    {
      StopCheck(sqrt, lastTime, deltaT, Top().pos, maxX, maxY, dCut, staticParticles)
    }

    /** `hasNext`. */
    function HasNext(sqrt: real -> real): (b: bool)
      reads this, pos, vel, acc
      requires Valid()
      ensures b <==> StopReasonNow(sqrt).None?
    {
      StopReasonNow(sqrt).None?
    }

    /**
     * `next`: throws past the end; otherwise computes the Beeman entry from
     * the tops and the acceleration below the top, pushes one entry on each
     * stack, advances the clock and returns the new tops.
     */
    method Next(sqrt: real -> real) returns (r: Result<Step<Vector2D>, StepError>)
      requires Valid()
      modifies this, pos, vel, acc
      ensures Valid()
      ensures r.Err? <==> !old(HasNext(sqrt))
      ensures r.Err? ==>
        lastTime == old(lastTime)
        && pos.elements == old(pos.elements) && vel.elements == old(vel.elements) && acc.elements == old(acc.elements)
      ensures r.Ok? ==>
        var n := BeemanAdvance(f, staticParticles, mass, deltaT, deltaTSq, old(Top()), old(acc.elements[|acc.elements| - 2]));
        && pos.elements == old(pos.elements) + [n.pos]
        && vel.elements == old(vel.elements) + [n.vel]
        && acc.elements == old(acc.elements) + [n.acc]
        && lastTime == old(lastTime) + deltaT
        && r.value == Step(lastTime, n.pos, n.vel, n.acc)
        && r.value == GetLastStep()
    {
      if !HasNext(sqrt) {
        return Err(IndexOutOfBoundsException);
      }
      var p := pos.Peek();
      var v := vel.Peek();
      var a := acc.Peek();
      var aPrev := acc.PeekPeek();
      // Every stack holds at least two entries, so none of the peeks throws.
      var cur := Phase2(p.value, v.value, a.value);
      var nextPos := BeemanPosition(cur, aPrev.value, deltaT, deltaTSq);
      var nextAcc := Scalar(f(nextPos, staticParticles), 1.0 / mass);
      var nextVel := BeemanVelocity(cur, nextAcc, aPrev.value, deltaT);
      lastTime := lastTime + deltaT;
      pos.Push(nextPos);
      vel.Push(nextVel);
      acc.Push(nextAcc);
      return Ok(Step(lastTime, nextPos, nextVel, nextAcc));
    }
  }

  /** `algorithmBuilder`: BEEMAN builds the integrator, every other type is refused. */
  method AlgorithmBuilder(t: Option<AT.AlgorithmType>, f: (Vector2D, map<Vector2D, bool>) -> Vector2D,
                          deltaT: real, r0: real, v0: real, mass: real, d: real, n: int)
    returns (r: Result<StepAlgorithm, BuildError>)
    requires deltaT > 0.0 && mass > 0.0 && d > 0.0 && n > 0
    ensures r.Ok? <==> t == Some(AT.Beeman)
    ensures t.None? ==> r == Err(NullPointerException)
    ensures t.Some? && t != Some(AT.Beeman) ==> r == Err(IllegalArgumentException)
    ensures r.Ok? ==> fresh(r.value) && r.value.Valid() && r.value.lastTime == 0.0
  {
    if t.None? {
      return Err(NullPointerException);
    } else if t.value != AT.Beeman {
      return Err(IllegalArgumentException);
    }
    var a := new StepAlgorithm(f, deltaT, r0, v0, mass, d, n);
    return Ok(a);
  }
}
