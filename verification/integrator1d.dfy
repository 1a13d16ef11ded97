/**
 * The one-dimensional integrators of algos/: StepAlgorithm.java lays out
 * three fixed arrays `pos`, `vel`, `acc` indexed by step, slot 0 holding an
 * Euler step one dt before the start and slot 1 the initial conditions;
 * Beeman.java and Verlet.java fill one further slot per `next()` under the
 * `lastIndex` cursor. The abstract class and its two subclasses become one
 * class whose `scheme` says which `next()` it runs.
 *
 * The force `f(r, v)` is a function value. Every update is exact over the
 * reals; floating-point rounding is not modelled.
 */
module Integrator1D {
  import opened Wrappers
  import opened RealMath
  import opened Steps
  import AT = AlgorithmTypes

  /** The concrete subclass: Beeman.java or Verlet.java. */
  datatype Scheme = Beeman | Verlet

  /** Position, velocity and acceleration held at one array slot. */
  datatype Phase = Phase(pos: real, vel: real, acc: real)

  /** `next()` past the end throws IndexOutOfBoundsException("No more timesteps!"). */
  datatype StepError = IndexOutOfBoundsException

  /**
   * What `algorithmBuilder` cannot return here: a null type makes the
   * `switch` throw NullPointerException, and GEAR builds a class that is not
   * part of this model.
   */
  datatype BuildError = NullPointerException | GearNotModelled

  /** `Math.round` on a double: the nearest integer, halves rounded up. */
  function JavaRound(x: real): (n: int)
    ensures x - 0.5 < n as real <= x + 0.5
  {
    (x + 0.5).Floor
  }

  /** The array length `round(tf / dt) + 2`: the steps of [-dt, tf], both ends included. */
  function ArraySize(tf: real, deltaT: real): (n: int)
    requires tf >= 0.0 && deltaT > 0.0
    ensures n >= 2
    ensures (n - 2) as real - 0.5 <= tf / deltaT < (n - 2) as real + 0.5
  {
    assert tf / deltaT >= 0.0 by {
      assert tf / deltaT * deltaT == tf;
    }
    JavaRound(tf / deltaT) + 2
  }

  /**
   * `eulerPrecedingStep` exactly as StepAlgorithm.java writes it: the
   * position goes back using the already stepped-back velocity. This is
   * the back-step the integrator below stores in slot 0.
   */
  function EulerPrecedingStepAsWritten(f: (real, real) -> real, mass: real, deltaT: real, t: real, r: real, v: real, a: real): Step<real>
    requires mass != 0.0
  {
    var vPrev := v - deltaT * a;
    var rPrev := r - deltaT * vPrev + Sq(deltaT) * a / 2.0;
    Step(t - deltaT, rPrev, vPrev, f(rPrev, vPrev) / mass)
  }

  /**
   * `eulerPrecedingStep` as evidently intended: the Euler step
   * r(t - dt) = r - dt v + dt^2 a / 2, v(t - dt) = v - dt a.
   */
  function EulerPrecedingStep(f: (real, real) -> real, mass: real, deltaT: real, t: real, r: real, v: real, a: real): Step<real>
    requires mass != 0.0
  {
    var vPrev := v - deltaT * a;
    var rPrev := r - deltaT * v + Sq(deltaT) * a / 2.0;
    Step(t - deltaT, rPrev, vPrev, f(rPrev, vPrev) / mass)
  }

  /**
   * The intended back-step is undone by one forward step under the
   * acceleration a: it lands back on (r, v), one dt later.
   */
  lemma EulerPrecedingStepIsUndoneByForwardStep(f: (real, real) -> real, mass: real, deltaT: real, t: real, r: real, v: real, a: real)
    requires mass != 0.0
    ensures var s := EulerPrecedingStep(f, mass, deltaT, t, r, v, a);
      && s.time + deltaT == t
      && s.pos + s.vel * deltaT + a * Sq(deltaT) / 2.0 == r
      && s.vel + a * deltaT == v
      && s.acc * mass == f(s.pos, s.vel)
  {
  }

  /** The step as written lands a dt^2 too far: one forward step from it overshoots r by a dt^2. */
  lemma EulerPrecedingStepAsWrittenOvershoots(f: (real, real) -> real, mass: real, deltaT: real, t: real, r: real, v: real, a: real)
    requires mass != 0.0
    ensures var s := EulerPrecedingStepAsWritten(f, mass, deltaT, t, r, v, a);
      && s.pos + s.vel * deltaT + a * Sq(deltaT) / 2.0 == r + a * Sq(deltaT)
      && s.pos == EulerPrecedingStep(f, mass, deltaT, t, r, v, a).pos + a * Sq(deltaT)
  {
  }

  /** Beeman's new position x(t + dt). */
  function BeemanPosition(x: real, v: real, a: real, aPrev: real, deltaT: real, deltaTSq: real): real
  {
    x + v * deltaT + 2.0 / 3.0 * a * deltaTSq - 1.0 / 6.0 * aPrev * deltaTSq
  }

  /** Beeman's predicted velocity, used only to evaluate the new acceleration. */
  function BeemanPredictedVelocity(v: real, a: real, aPrev: real, deltaT: real): real
  {
    v + 3.0 / 2.0 * a * deltaT - 1.0 / 2.0 * aPrev * deltaT
  }

  /** Beeman's corrected velocity v(t + dt), the one stored. */
  function BeemanCorrectedVelocity(v: real, aNext: real, a: real, aPrev: real, deltaT: real): real
  {
    v + 1.0 / 3.0 * aNext * deltaT + 5.0 / 6.0 * a * deltaT - 1.0 / 6.0 * aPrev * deltaT
  }

  /** The slot Beeman's `next` writes after `prev` and `cur`. */
  function BeemanAdvance(f: (real, real) -> real, mass: real, deltaT: real, prev: Phase, cur: Phase): Phase
    requires mass != 0.0
  {
    var p := BeemanPosition(cur.pos, cur.vel, cur.acc, prev.acc, deltaT, Sq(deltaT));
    var a := f(p, BeemanPredictedVelocity(cur.vel, cur.acc, prev.acc, deltaT)) / mass;
    Phase(p, BeemanCorrectedVelocity(cur.vel, a, cur.acc, prev.acc, deltaT), a)
  }

  /** Verlet's new position 2 x(t) - x(t - dt) + dt^2 a(t). */
  function VerletPosition(x: real, xPrev: real, a: real, deltaTSq: real): real
  {
    2.0 * x - xPrev + deltaTSq * a
  }

  /** Verlet's velocity, the central difference (x(t + dt) - x(t - dt)) / 2 dt. */
  function VerletVelocity(xNext: real, xPrev: real, deltaT: real): real
    requires deltaT != 0.0
  {
    (xNext - xPrev) / (2.0 * deltaT)
  }

  /** The slot Verlet's `next` writes after `prev` and `cur`. */
  function VerletAdvance(f: (real, real) -> real, mass: real, deltaT: real, prev: Phase, cur: Phase): Phase
    requires mass != 0.0 && deltaT != 0.0
  {
    var p := VerletPosition(cur.pos, prev.pos, cur.acc, Sq(deltaT));
    var v := VerletVelocity(p, prev.pos, deltaT);
    Phase(p, v, f(p, v) / mass)
  }

  function Advance(scheme: Scheme, f: (real, real) -> real, mass: real, deltaT: real, prev: Phase, cur: Phase): Phase
    requires mass != 0.0 && deltaT != 0.0
  {
    match scheme
    case Beeman => BeemanAdvance(f, mass, deltaT, prev, cur)
    case Verlet => VerletAdvance(f, mass, deltaT, prev, cur)
  }

  /** Slots k and k + 1 of the run that starts from slots `back` and `start`. */
  function Pair(scheme: Scheme, f: (real, real) -> real, mass: real, deltaT: real, back: Phase, start: Phase, k: nat): (Phase, Phase)
    requires mass != 0.0 && deltaT != 0.0
  {
    if k == 0 then (back, start)
    else
      var (prev, cur) := Pair(scheme, f, mass, deltaT, back, start, k - 1);
      (cur, Advance(scheme, f, mass, deltaT, prev, cur))
  }

  /** The specification of the arrays: slot i of the run. */
  function PhaseAt(scheme: Scheme, f: (real, real) -> real, mass: real, deltaT: real, back: Phase, start: Phase, i: nat): Phase
    requires mass != 0.0 && deltaT != 0.0
  {
    Pair(scheme, f, mass, deltaT, back, start, i).0
  }

  lemma {:induction false} PhaseAtNext(scheme: Scheme, f: (real, real) -> real, mass: real, deltaT: real, back: Phase, start: Phase, i: nat)
    requires mass != 0.0 && deltaT != 0.0
    ensures PhaseAt(scheme, f, mass, deltaT, back, start, 0) == back
    ensures PhaseAt(scheme, f, mass, deltaT, back, start, 1) == start
    ensures i >= 1 ==>
      PhaseAt(scheme, f, mass, deltaT, back, start, i + 1)
        == Advance(scheme, f, mass, deltaT, PhaseAt(scheme, f, mass, deltaT, back, start, i - 1), PhaseAt(scheme, f, mass, deltaT, back, start, i))
  {
    if i >= 1 {
      var k := i - 1;
      assert Pair(scheme, f, mass, deltaT, back, start, k + 1).1 == Pair(scheme, f, mass, deltaT, back, start, k + 2).0;
      assert Pair(scheme, f, mass, deltaT, back, start, k).1 == Pair(scheme, f, mass, deltaT, back, start, k + 1).0;
    }
  }

  /** Uniform acceleration a from (r0, v0): the motion at time t. */
  function Exact(r0: real, v0: real, a: real, t: real): Phase
  {
    Phase(r0 + v0 * t + a * Sq(t) / 2.0, v0 + a * t, a)
  }

  ghost predicate ConstantForce(f: (real, real) -> real, force: real)
  {
    forall p, v :: f(p, v) == force
  }

  lemma ExactAdvance(r0: real, v0: real, a: real, t: real, dt: real)
    ensures Exact(r0, v0, a, t + dt).pos == Exact(r0, v0, a, t).pos + Exact(r0, v0, a, t).vel * dt + a * Sq(dt) / 2.0
    ensures Exact(r0, v0, a, t + dt).vel == Exact(r0, v0, a, t).vel + a * dt
  {
  }

  /**
   * Under a constant force Beeman's step is exact: from two slots carrying
   * the same acceleration it lands on the uniformly accelerated motion.
   */
  lemma BeemanAdvanceIsExact(f: (real, real) -> real, force: real, mass: real, deltaT: real, prev: Phase, cur: Phase)
    requires ConstantForce(f, force) && mass != 0.0
    requires prev.acc == force / mass && cur.acc == force / mass
    ensures BeemanAdvance(f, mass, deltaT, prev, cur)
      == Phase(cur.pos + cur.vel * deltaT + cur.acc * Sq(deltaT) / 2.0, cur.vel + cur.acc * deltaT, cur.acc)
  {
  }

  /** The time of slot k + 1: `lastTime` after k steps, accumulated as `lastTime += deltaT` does. */
  function Clock(deltaT: real, k: nat): real
  {
    if k == 0 then 0.0 else Clock(deltaT, k - 1) + deltaT
  }

  lemma {:induction false} ClockIsMultiple(deltaT: real, k: nat)
    ensures Clock(deltaT, k) == k as real * deltaT
  {
    if k > 0 {
      ClockIsMultiple(deltaT, k - 1);
      assert (k - 1) as real * deltaT + deltaT == k as real * deltaT;
    }
  }

  /** k + 1 more steps on a clock that has counted l - 1 add (k + 1) deltaT to it. */
  lemma {:induction false} ClockShift(deltaT: real, l: nat, k: nat)
    requires l >= 1
    ensures Clock(deltaT, l + k) == Clock(deltaT, l - 1) + (k + 1) as real * deltaT
  {
    if k > 0 {
      ClockShift(deltaT, l, k - 1);
      assert k as real * deltaT + deltaT == (k + 1) as real * deltaT;
    }
  }

  /**
   * Beeman from the back-step as written reproduces uniformly accelerated
   * motion exactly under a constant force: slot k + 1 holds the state at
   * time k dt. Beeman reads slot 0 only through its acceleration, which a
   * constant force makes right whatever the back-step position.
   */
  lemma {:induction false} BeemanRunIsExact(f: (real, real) -> real, force: real, mass: real, deltaT: real, r0: real, v0: real, k: nat)
    requires ConstantForce(f, force) && mass != 0.0 && deltaT != 0.0
    ensures var a := force / mass;
      var s := EulerPrecedingStepAsWritten(f, mass, deltaT, 0.0, r0, v0, a);
      var pair := Pair(Beeman, f, mass, deltaT, Phase(s.pos, s.vel, s.acc), Phase(r0, v0, a), k);
      && pair.0.acc == a
      && pair.1 == Exact(r0, v0, a, Clock(deltaT, k))
      && (k >= 1 ==> pair.0 == Exact(r0, v0, a, Clock(deltaT, k - 1)))
  {
    var a := force / mass;
    var s := EulerPrecedingStepAsWritten(f, mass, deltaT, 0.0, r0, v0, a);
    var back, start := Phase(s.pos, s.vel, s.acc), Phase(r0, v0, a);
    if k == 0 {
      ExactAtZero(r0, v0, a);
    } else {
      BeemanRunIsExact(f, force, mass, deltaT, r0, v0, k - 1);
      var (prev, cur) := Pair(Beeman, f, mass, deltaT, back, start, k - 1);
      var t := Clock(deltaT, k - 1);
      assert cur == Exact(r0, v0, a, t);
      BeemanAdvanceIsExact(f, force, mass, deltaT, prev, cur);
      ExactAdvance(r0, v0, a, t, deltaT);
      var next, exact := Advance(Beeman, f, mass, deltaT, prev, cur), Exact(r0, v0, a, t + deltaT);
      assert next.pos == exact.pos && next.vel == exact.vel && next.acc == exact.acc;
    }
  }

  lemma ExactAtZero(r0: real, v0: real, a: real)
    ensures Exact(r0, v0, a, 0.0) == Phase(r0, v0, a)
  {
    assert Sq(0.0) == 0.0;
  }

  /**
   * Verlet from the intended back-step keeps every position on the
   * uniformly accelerated motion under a constant force; its stored
   * velocity, a central difference, is the velocity one slot earlier.
   * This is what the back-step of StepAlgorithm.java is for; the class
   * below, seeded as written, drifts instead (`VerletRunAsWrittenDrifts`).
   */
  lemma {:induction false} VerletRunIsExact(f: (real, real) -> real, force: real, mass: real, deltaT: real, r0: real, v0: real, k: nat)
    requires ConstantForce(f, force) && mass != 0.0 && deltaT != 0.0
    ensures var a := force / mass;
      var s := EulerPrecedingStep(f, mass, deltaT, 0.0, r0, v0, a);
      var pair := Pair(Verlet, f, mass, deltaT, Phase(s.pos, s.vel, s.acc), Phase(r0, v0, a), k);
      && pair.0.pos == Exact(r0, v0, a, Clock(deltaT, k) - deltaT).pos
      && pair.1.pos == Exact(r0, v0, a, Clock(deltaT, k)).pos
      && pair.1.acc == a
      && pair.1.vel == Exact(r0, v0, a, if k == 0 then 0.0 else Clock(deltaT, k - 1)).vel
  {
    var a := force / mass;
    var s := EulerPrecedingStep(f, mass, deltaT, 0.0, r0, v0, a);
    var back, start := Phase(s.pos, s.vel, s.acc), Phase(r0, v0, a);
    if k == 0 {
      ExactAtZero(r0, v0, a);
      ExactBackStep(r0, v0, a, deltaT);
    } else {
      VerletRunIsExact(f, force, mass, deltaT, r0, v0, k - 1);
      var (prev, cur) := Pair(Verlet, f, mass, deltaT, back, start, k - 1);
      var t := Clock(deltaT, k - 1);
      assert prev.pos == Exact(r0, v0, a, t - deltaT).pos;
      assert cur.pos == Exact(r0, v0, a, t).pos && cur.acc == a;
      VerletLandsOnExact(r0, v0, a, t, deltaT, cur.pos, prev.pos);
      VerletVelocityIsCentral(r0, v0, a, t, deltaT);
      assert Advance(Verlet, f, mass, deltaT, prev, cur).pos == VerletPosition(cur.pos, prev.pos, a, Sq(deltaT));
    }
  }

  /** The intended back-step position is the uniformly accelerated motion at time -dt. */
  lemma ExactBackStep(r0: real, v0: real, a: real, dt: real)
    ensures Exact(r0, v0, a, 0.0 - dt).pos == r0 - dt * v0 + Sq(dt) * a / 2.0
  {
    assert Sq(0.0 - dt) == Sq(dt);
  }

  lemma VerletPositionIsExact(r0: real, v0: real, a: real, t: real, dt: real)
    ensures 2.0 * Exact(r0, v0, a, t).pos - Exact(r0, v0, a, t - dt).pos + Sq(dt) * a == Exact(r0, v0, a, t + dt).pos
  {
    ExactPosition(r0, v0, a, t + dt);
    ExactPosition(r0, v0, a, t);
    ExactPosition(r0, v0, a, t - dt);
    SquaresSecondDifference(t, dt);
    PolynomialSecondDifference(r0, v0, a, t, dt, Sq(t + dt), Sq(t), Sq(t - dt), Sq(dt),
                               Exact(r0, v0, a, t + dt).pos, Exact(r0, v0, a, t).pos, Exact(r0, v0, a, t - dt).pos);
  }

  lemma ExactPosition(r0: real, v0: real, a: real, t: real)
    ensures Exact(r0, v0, a, t).pos == r0 + v0 * t + a * Sq(t) / 2.0
  {
  }

  lemma SquaresSecondDifference(t: real, dt: real)
    ensures Sq(t + dt) - 2.0 * Sq(t) + Sq(t - dt) == 2.0 * Sq(dt)
  {
  }

  lemma PolynomialSecondDifference(r0: real, v0: real, a: real, t: real, dt: real, sqNext: real, sq: real, sqPrev: real, sqDt: real,
                                   xNext: real, x: real, xPrev: real)
    requires sqNext - 2.0 * sq + sqPrev == 2.0 * sqDt
    requires xNext == r0 + v0 * (t + dt) + a * sqNext / 2.0
    requires x == r0 + v0 * t + a * sq / 2.0
    requires xPrev == r0 + v0 * (t - dt) + a * sqPrev / 2.0
    ensures 2.0 * x - xPrev + sqDt * a == xNext
  {
    assert a * sqNext == 2.0 * (a * sq) - a * sqPrev + 2.0 * (sqDt * a);
  }

  lemma VerletLandsOnExact(r0: real, v0: real, a: real, t: real, dt: real, x: real, xPrev: real)
    requires x == Exact(r0, v0, a, t).pos && xPrev == Exact(r0, v0, a, t - dt).pos
    ensures VerletPosition(x, xPrev, a, Sq(dt)) == Exact(r0, v0, a, t + dt).pos
  {
    VerletPositionIsExact(r0, v0, a, t, dt);
  }

  lemma VerletVelocityIsCentral(r0: real, v0: real, a: real, t: real, dt: real)
    requires dt != 0.0
    ensures (Exact(r0, v0, a, t + dt).pos - Exact(r0, v0, a, t - dt).pos) / (2.0 * dt) == Exact(r0, v0, a, t).vel
  {
    var d := Exact(r0, v0, a, t + dt).pos - Exact(r0, v0, a, t - dt).pos;
    assert Sq(t + dt) - Sq(t - dt) == 4.0 * t * dt;
    assert d == v0 * (2.0 * dt) + a * (Sq(t + dt) - Sq(t - dt)) / 2.0;
    assert d == (2.0 * dt) * (v0 + a * t);
    DivideProduct(2.0 * dt, v0 + a * t);
  }

  lemma DivideProduct(c: real, y: real)
    requires c != 0.0
    ensures (c * y) / c == y
  {
  }

  /**
   * From the back-step as written, Verlet's first step goes the wrong way:
   * at rest under unit acceleration with dt = 1 it moves to -1/2 instead of 1/2.
   */
  lemma VerletFromAsWrittenBackStepIsWrong(f: (real, real) -> real)
    requires ConstantForce(f, 1.0)
    ensures var s := EulerPrecedingStepAsWritten(f, 1.0, 1.0, 0.0, 0.0, 0.0, 1.0);
      var back, start := Phase(s.pos, s.vel, s.acc), Phase(0.0, 0.0, 1.0);
      && PhaseAt(Verlet, f, 1.0, 1.0, back, start, 2).pos == -0.5
      && Exact(0.0, 0.0, 1.0, 1.0).pos == 0.5
  {
    var s := EulerPrecedingStepAsWritten(f, 1.0, 1.0, 0.0, 0.0, 0.0, 1.0);
    var back, start := Phase(s.pos, s.vel, s.acc), Phase(0.0, 0.0, 1.0);
    assert s.pos == 1.5;
    PhaseAtNext(Verlet, f, 1.0, 1.0, back, start, 1);
  }

  /**
   * Verlet from the back-step as written, under a constant force: slot 0
   * starts a dt^2 too far, and from there slot k + 1 falls behind the run
   * from the intended back-step, and so behind the uniformly accelerated
   * motion, by k a dt^2: the error grows with every step.
   */
  lemma VerletRunAsWrittenDrifts(f: (real, real) -> real, force: real, mass: real, deltaT: real, r0: real, v0: real, k: nat)
    requires ConstantForce(f, force) && mass != 0.0 && deltaT != 0.0
    ensures var a := force / mass;
      var w := EulerPrecedingStepAsWritten(f, mass, deltaT, 0.0, r0, v0, a);
      var s := EulerPrecedingStep(f, mass, deltaT, 0.0, r0, v0, a);
      var asWritten := Pair(Verlet, f, mass, deltaT, Phase(w.pos, w.vel, w.acc), Phase(r0, v0, a), k);
      var intended := Pair(Verlet, f, mass, deltaT, Phase(s.pos, s.vel, s.acc), Phase(r0, v0, a), k);
      && asWritten.1.pos == intended.1.pos - k as real * (a * Sq(deltaT))
      && asWritten.1.pos == Exact(r0, v0, a, Clock(deltaT, k)).pos - k as real * (a * Sq(deltaT))
  {
    var a := force / mass;
    var w := EulerPrecedingStepAsWritten(f, mass, deltaT, 0.0, r0, v0, a);
    var s := EulerPrecedingStep(f, mass, deltaT, 0.0, r0, v0, a);
    EulerPrecedingStepAsWrittenOvershoots(f, mass, deltaT, 0.0, r0, v0, a);
    VerletRunsDiffer(f, force, mass, deltaT, Phase(w.pos, w.vel, w.acc), Phase(s.pos, s.vel, s.acc), Phase(r0, v0, a), a * Sq(deltaT), k);
    LagIsMultiple(a * Sq(deltaT), k);
    VerletRunIsExact(f, force, mass, deltaT, r0, v0, k);
  }

  /** `k` steps' worth of a constant error `c`, accumulated one step at a time. */
  function Lag(c: real, k: nat): real
  {
    if k == 0 then 0.0 else Lag(c, k - 1) + c
  }

  lemma {:induction false} LagIsMultiple(c: real, k: nat)
    ensures Lag(c, k) == k as real * c
  {
    if k > 0 {
      LagIsMultiple(c, k - 1);
    }
  }

  /**
   * Two Verlet runs under a constant force from the same start, whose
   * slot-0 positions differ by `c`: after k steps the first lags the
   * second by `Lag(c, k)`.
   */
  lemma {:induction false} VerletRunsDiffer(f: (real, real) -> real, force: real, mass: real, deltaT: real,
                                            back1: Phase, back2: Phase, start: Phase, c: real, k: nat)
    requires ConstantForce(f, force) && mass != 0.0 && deltaT != 0.0
    requires back1.pos == back2.pos + c
    ensures var p1, p2 := Pair(Verlet, f, mass, deltaT, back1, start, k), Pair(Verlet, f, mass, deltaT, back2, start, k);
      && p1.0.pos == p2.0.pos + c - Lag(c, k)
      && p1.1.pos == p2.1.pos - Lag(c, k)
      && p1.1.acc == p2.1.acc
  {
    if k > 0 {
      VerletRunsDiffer(f, force, mass, deltaT, back1, back2, start, c, k - 1);
      var p1, p2 := Pair(Verlet, f, mass, deltaT, back1, start, k - 1), Pair(Verlet, f, mass, deltaT, back2, start, k - 1);
      VerletLagStep(f, mass, deltaT, c, Lag(c, k - 1), p1.0, p1.1, p2.0, p2.1);
    }
  }

  /** One Verlet step keeps two runs' gap: a lag `lag` now and `c - lag` one slot back becomes `lag + c`. */
  lemma VerletLagStep(f: (real, real) -> real, mass: real, deltaT: real, c: real, lag: real,
                      prev1: Phase, cur1: Phase, prev2: Phase, cur2: Phase)
    requires mass != 0.0 && deltaT != 0.0
    requires prev1.pos == prev2.pos + c - lag && cur1.pos == cur2.pos - lag && cur1.acc == cur2.acc
    ensures VerletAdvance(f, mass, deltaT, prev1, cur1).pos == VerletAdvance(f, mass, deltaT, prev2, cur2).pos - (lag + c)
  {
  }

  class StepAlgorithm {
    const scheme: Scheme
    const f: (real, real) -> real
    const mass: real
    const deltaT: real
    const deltaTSq: real
    const pos: array<real>
    const vel: array<real>
    const acc: array<real>
    var lastTime: real
    var lastIndex: int

    /** The two slots the run started from (slot 0 and slot 1). */
    ghost const back: Phase
    ghost const start: Phase

    function Slot(i: int): Phase
      reads pos, vel, acc
      requires 0 <= i < pos.Length == vel.Length == acc.Length
    {
      Phase(pos[i], vel[i], acc[i])
    }

    ghost function Expected(i: nat): Phase
      requires mass != 0.0 && deltaT != 0.0
    {
      PhaseAt(scheme, f, mass, deltaT, back, start, i)
    }

    ghost predicate Valid()
      reads this, pos, vel, acc
    {
      && pos != vel && vel != acc && pos != acc
      && pos.Length == vel.Length == acc.Length >= 2
      && mass > 0.0 && deltaT > 0.0 && deltaTSq == Sq(deltaT)
      && 1 <= lastIndex < pos.Length
      && lastTime == Clock(deltaT, lastIndex - 1)
      && forall i {:trigger Expected(i)} :: 0 <= i <= lastIndex ==> Slot(i) == Expected(i)
    }

    /**
     * The constructor: arrays of length round(tf / dt) + 2, the initial
     * conditions at slot 1, the back-step as written at slot 0.
     */
    constructor(scheme: Scheme, f: (real, real) -> real, deltaT: real, tf: real, r0: real, v0: real, mass: real)
      requires deltaT > 0.0 && tf >= 0.0 && mass > 0.0
      ensures Valid()
      ensures fresh(pos) && fresh(vel) && fresh(acc)
      ensures this.scheme == scheme && this.f == f && this.mass == mass && this.deltaT == deltaT
      ensures pos.Length == ArraySize(tf, deltaT)
      ensures lastIndex == 1 && lastTime == 0.0
      ensures Slot(1) == Phase(r0, v0, f(r0, v0) / mass)
      ensures var s := EulerPrecedingStepAsWritten(f, mass, deltaT, 0.0, r0, v0, f(r0, v0) / mass);
        Slot(0) == Phase(s.pos, s.vel, s.acc)
    {
      var size := ArraySize(tf, deltaT);
      var a0 := f(r0, v0) / mass;
      var prevStep := EulerPrecedingStepAsWritten(f, mass, deltaT, 0.0, r0, v0, a0);
      this.scheme := scheme;
      this.f := f;
      this.mass := mass;
      this.deltaT := deltaT;
      this.deltaTSq := deltaT * deltaT;
      this.lastTime := 0.0;
      this.pos := new real[size];
      this.vel := new real[size];
      this.acc := new real[size];
      this.back := Phase(prevStep.pos, prevStep.vel, prevStep.acc);
      this.start := Phase(r0, v0, a0);
      this.lastIndex := 1;
      new;
      pos[1] := r0;
      vel[1] := v0;
      acc[1] := a0;
      pos[0] := prevStep.pos;
      vel[0] := prevStep.vel;
      acc[0] := prevStep.acc;
      PhaseAtNext(scheme, f, mass, deltaT, back, start, 0);
    }

    /** `hasNext`: another slot is left. */
    function HasNext(): (b: bool)
      reads this, pos
    {
      lastIndex + 1 < pos.Length
    }

    /** How many more times `next` can succeed. */
    function RemainingSteps(): (n: int)
      reads this, pos
      requires 1 <= lastIndex < pos.Length
      ensures n >= 0
      ensures n > 0 <==> HasNext()
    {
      pos.Length - 1 - lastIndex
    }

    /** `getLastStep`: the last written slot, which is the run's slot at time (lastIndex - 1) dt. */
    function GetLastStep(): (s: Step<real>)
      reads this, pos, vel, acc
      requires Valid()
      ensures s.time == (lastIndex - 1) as real * deltaT
      ensures Phase(s.pos, s.vel, s.acc) == Expected(lastIndex)
    {
      ClockIsMultiple(deltaT, lastIndex - 1);
      Step(lastTime, pos[lastIndex], vel[lastIndex], acc[lastIndex])
    }

    /**
     * `next` of Beeman.java and Verlet.java: fills slot lastIndex + 1 from
     * the two slots before it, advances the cursor and the clock, and
     * returns the new last step; past the end it throws and changes nothing.
     */
    method Next() returns (r: Result<Step<real>, StepError>)
      requires Valid()
      modifies this, pos, vel, acc
      ensures Valid()
      ensures r.Err? <==> !old(HasNext())
      ensures r.Err? ==> lastIndex == old(lastIndex) && lastTime == old(lastTime)
      ensures r.Ok? ==> lastIndex == old(lastIndex) + 1 && lastTime == old(lastTime) + deltaT
      ensures r.Ok? ==> r.value == GetLastStep()
      ensures r.Ok? ==> Slot(lastIndex) == Advance(scheme, f, mass, deltaT, old(Slot(lastIndex - 1)), old(Slot(lastIndex)))
      ensures forall i :: 0 <= i < pos.Length && i != lastIndex ==> Slot(i) == old(Slot(i))
      ensures r.Err? ==> forall i :: 0 <= i < pos.Length ==> Slot(i) == old(Slot(i))
    {
      if !HasNext() {
        return Err(IndexOutOfBoundsException);
      }
      var n := lastIndex;
      assert Slot(n - 1) == Expected(n - 1) && Slot(n) == Expected(n);
      WriteSlotAfter(n);
      PhaseAtNext(scheme, f, mass, deltaT, back, start, n);
      forall i | 0 <= i <= n + 1
        ensures Slot(i) == Expected(i)
      {
        if i <= n {
          assert old(Slot(i)) == Expected(i);
        }
      }
      assert Clock(deltaT, n) == lastTime + deltaT;
      lastTime := lastTime + deltaT;
      lastIndex := lastIndex + 1;
      return Ok(Step(lastTime, pos[lastIndex], vel[lastIndex], acc[lastIndex]));
    }

    /** The slot writes of `next`: slot n + 1 from slots n - 1 and n, by the class's scheme. */
    method WriteSlotAfter(n: int)
      requires 1 <= n && n + 1 < pos.Length == vel.Length == acc.Length
      requires pos != vel && vel != acc && pos != acc
      requires mass != 0.0 && deltaT != 0.0 && deltaTSq == Sq(deltaT)
      modifies pos, vel, acc
      ensures Slot(n + 1) == Advance(scheme, f, mass, deltaT, old(Slot(n - 1)), old(Slot(n)))
      ensures forall i :: 0 <= i < pos.Length && i != n + 1 ==> Slot(i) == old(Slot(i))
    {
      match scheme {
        case Beeman =>
          pos[n + 1] := BeemanPosition(pos[n], vel[n], acc[n], acc[n - 1], deltaT, deltaTSq);
          vel[n + 1] := BeemanPredictedVelocity(vel[n], acc[n], acc[n - 1], deltaT);
          acc[n + 1] := f(pos[n + 1], vel[n + 1]) / mass;
          vel[n + 1] := BeemanCorrectedVelocity(vel[n], acc[n + 1], acc[n], acc[n - 1], deltaT);
        case Verlet =>
          pos[n + 1] := VerletPosition(pos[n], pos[n - 1], acc[n], deltaTSq);
          vel[n + 1] := VerletVelocity(pos[n + 1], pos[n - 1], deltaT);
          acc[n + 1] := f(pos[n + 1], vel[n + 1]) / mass;
      }
    }

    /** Calling `next` while `hasNext` holds yields exactly length - 2 steps over a fresh run. */
    method Drain() returns (steps: seq<Step<real>>)
      requires Valid()
      modifies this, pos, vel, acc
      ensures Valid() && !HasNext()
      ensures |steps| == old(RemainingSteps())
      ensures forall k :: 0 <= k < |steps| ==> steps[k].time == old(lastTime) + (k + 1) as real * deltaT
      ensures forall k :: 0 <= k < |steps| ==> Phase(steps[k].pos, steps[k].vel, steps[k].acc) == Expected(old(lastIndex) + k + 1)
    {
      steps := [];
      while HasNext()
        invariant Valid()
        invariant lastIndex == old(lastIndex) + |steps|
        invariant forall k :: 0 <= k < |steps| ==> steps[k].time == Clock(deltaT, old(lastIndex) + k)
        invariant forall k :: 0 <= k < |steps| ==> Phase(steps[k].pos, steps[k].vel, steps[k].acc) == Expected(old(lastIndex) + k + 1)
        decreases pos.Length - lastIndex
      {
        var r := Next();
        steps := steps + [r.value];
      }
      forall k | 0 <= k < |steps|
        ensures steps[k].time == old(lastTime) + (k + 1) as real * deltaT
      {
        ClockShift(deltaT, old(lastIndex), k);
      }
    }
  }

  /**
   * `algorithmBuilder`: a fresh integrator of the requested type; a null type
   * fails as the `switch` does.
   */
  method AlgorithmBuilder(t: Option<AT.AlgorithmType>, f: (real, real) -> real, deltaT: real, tf: real, r0: real, v0: real, mass: real)
    returns (r: Result<StepAlgorithm, BuildError>)
    requires deltaT > 0.0 && tf >= 0.0 && mass > 0.0
    ensures r.Err? <==> t.None? || t == Some(AT.Gear)
    ensures t.None? ==> r == Err(NullPointerException)
    ensures r.Ok? ==> fresh(r.value) && r.value.Valid() && r.value.lastIndex == 1
    ensures r.Ok? ==> r.value.scheme == (if t == Some(AT.Beeman) then Beeman else Verlet)
  {
    if t.None? {
      return Err(NullPointerException);
    } else if t.value == AT.Gear {
      return Err(GearNotModelled);
    }
    var a := new StepAlgorithm(if t.value == AT.Beeman then Beeman else Verlet, f, deltaT, tf, r0, v0, mass);
    return Ok(a);
  }
}
