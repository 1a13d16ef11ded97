/**
 * objects.py: the particles the analyzers rebuild from a log, how a run of
 * the radiation simulation ended, the `FullValue` rounding rule and the
 * averaging of several runs' series in `Summary`.
 *
 * `math.sqrt` and `math.log10` are passed in as function values; only the
 * laws a property needs are assumed of them.
 */
module AnalysisObjects {
  import opened Wrappers
  import opened RealMath
  import opened PyErrors

  /** `Particle1D`: a disc on a line. */
  datatype Particle1D = Particle1D(id: int, x: real, vx: real, r: real, m: real)

  /** `Particle`: a charged disc in the plane. */
  datatype Particle = Particle(id: int, x: real, y: real, vx: real, vy: real, r: real, m: real, q: real)

  /** `Particle1D.center_distance`. */
  function CenterDistance1D(a: Particle1D, b: Particle1D): real
  {
    Abs(a.x - b.x)
  }

  /** `Particle1D.border_distance`. */
  function BorderDistance1D(a: Particle1D, b: Particle1D): real
  {
    CenterDistance1D(a, b) - a.r - b.r
  }

  /** `Particle.center_distance`, with `math.pow(d, 2)` as an exact square. */
  function CenterDistance(sqrt: real -> real, a: Particle, b: Particle): real
  {
    sqrt(Sq(a.x - b.x) + Sq(a.y - b.y))
  }

  /** `Particle.border_distance`. */
  function BorderDistance(sqrt: real -> real, a: Particle, b: Particle): real
  {
    CenterDistance(sqrt, a, b) - a.r - b.r
  }

  /** On the line the distances are symmetric and the centre distance is never negative. */
  lemma Distances1DAreSymmetric(a: Particle1D, b: Particle1D)
    ensures CenterDistance1D(a, b) == CenterDistance1D(b, a) >= 0.0
    ensures BorderDistance1D(a, b) == BorderDistance1D(b, a)
  {
  }

  /** In the plane too, and with a true square root the centre distance is never negative. */
  lemma DistancesAreSymmetric(sqrt: real -> real, a: Particle, b: Particle)
    ensures CenterDistance(sqrt, a, b) == CenterDistance(sqrt, b, a)
    ensures BorderDistance(sqrt, a, b) == BorderDistance(sqrt, b, a)
    ensures IsSqrt(sqrt) ==> CenterDistance(sqrt, a, b) >= 0.0
  {
    assert Sq(a.x - b.x) == Sq(b.x - a.x);
    assert Sq(a.y - b.y) == Sq(b.y - a.y);
    SqNonNegative(a.x - b.x);
    SqNonNegative(a.y - b.y);
  }

  /** Two particles are at distance 0 exactly when they sit at the same point. */
  lemma CenterDistanceZeroIffSamePoint(sqrt: real -> real, a: Particle, b: Particle)
    requires IsSqrt(sqrt)
    ensures CenterDistance(sqrt, a, b) == 0.0 <==> a.x == b.x && a.y == b.y
  {
    var s := Sq(a.x - b.x) + Sq(a.y - b.y);
    SqNonNegative(a.x - b.x);
    SqNonNegative(a.y - b.y);
    if a.x != b.x {
      SqPositive(a.x - b.x);
      SqrtPositive(sqrt, s);
    } else if a.y != b.y {
      SqPositive(a.y - b.y);
      SqrtPositive(sqrt, s);
    } else {
      assert s == 0.0;
      SqrtOfZero(sqrt);
    }
  }

  /** `EndingReason`, with the values its `__eq__` and `__hash__` compare. */
  datatype EndingReason = NotEnded | TopWall | RightWall | BottomWall | LeftWall | Collision
  {
    function Value(): int
    {
      match this
      case NotEnded => 0
      case TopWall => 1
      case RightWall => 2
      case BottomWall => 3
      case LeftWall => 4
      case Collision => 5
    }
  }

  /** Comparing by value is comparing the reasons themselves: the values are distinct. */
  lemma ValueEqualityIsIdentity(a: EndingReason, b: EndingReason)
    ensures a.Value() == b.Value() <==> a == b
    ensures 0 <= a.Value() <= 5
  {
  }

  /**
   * `get_ending_reason`: the first wall the disc touches or passes, checked
   * right, top, left, bottom; a disc clear of all four ended by a collision.
   */
  function GetEndingReason(p: Particle, width: real, height: real): (e: EndingReason)
    ensures e != NotEnded
    ensures e == RightWall <==> p.x + p.r >= width
    ensures e == TopWall <==> p.x + p.r < width && p.y + p.r >= height
    ensures e == LeftWall <==> p.x + p.r < width && p.y + p.r < height && p.x - p.r <= 0.0
    ensures e == BottomWall <==> p.x + p.r < width && p.y + p.r < height && p.x - p.r > 0.0 && p.y - p.r <= 0.0
    ensures e == Collision <==> p.x + p.r < width && p.y + p.r < height && p.x - p.r > 0.0 && p.y - p.r > 0.0
  {
    if p.x + p.r >= width then RightWall
    else if p.y + p.r >= height then TopWall
    else if p.x - p.r <= 0.0 then LeftWall
    else if p.y - p.r <= 0.0 then BottomWall
    else Collision
  }

  /** `Particle.collides_with_wall(side)`: touching or past any of the four walls of [0, side]^2. */
  function CollidesWithWall(p: Particle, side: real): bool
  {
    p.x + p.r >= side || p.y + p.r >= side || p.x - p.r <= 0.0 || p.y - p.r <= 0.0
  }

  /** `Particle1D.collides_with_wall(side)`. */
  function CollidesWithWall1D(p: Particle1D, side: real): bool
  {
    p.x + p.r >= side || p.x - p.r <= 0.0
  }

  /**
   * The wall test is the one `get_ending_reason` makes in a square box: it
   * holds exactly when the reason is a wall rather than a collision.
   */
  lemma CollidesWithWallIsEndingAtWall(p: Particle, side: real)
    ensures CollidesWithWall(p, side) <==> GetEndingReason(p, side, side) != Collision
    ensures CollidesWithWall(p, side) ==>
      GetEndingReason(p, side, side) in {RightWall, TopWall, LeftWall, BottomWall}
  {
  }

  /** On a disc clear of the top and bottom walls the plane test is the line test on x. */
  lemma WallTestOnTheLine(p: Particle, side: real)
    requires p.r < p.y < side - p.r
    ensures CollidesWithWall(p, side) == CollidesWithWall1D(Particle1D(p.id, p.x, p.vx, p.r, p.m), side)
  {
  }

  /** `get_kinetic_energy`: one half m (vx^2 + vy^2), never negative for a non-negative mass. */
  function KineticEnergy(p: Particle): (e: real)
    ensures p.m >= 0.0 ==> e >= 0.0
  {
    SqNonNegative(p.vx);
    SqNonNegative(p.vy);
    if p.m >= 0.0 then ProductNonNegative(p.m, Sq(p.vx) + Sq(p.vy)); 0.5 * Product(p.m, Sq(p.vx) + Sq(p.vy))
    else 0.5 * Product(p.m, Sq(p.vx) + Sq(p.vy))
  }

  /**
   * The sum `get_potential_energy` accumulates, sp.q / distance(sp) over the
   * fixed charges in order; a charge at distance 0 raises ZeroDivisionError.
   */
  function PotentialSum(sqrt: real -> real, p: Particle, statics: seq<Particle>): (r: Result<real, PyError>)
    ensures r.Err? <==> exists i :: 0 <= i < |statics| && CenterDistance(sqrt, p, statics[i]) == 0.0
    ensures r.Err? ==> r.error == ZeroDivisionError
  {
    if statics == [] then Ok(0.0)
    else
      var front := statics[..|statics| - 1];
      var sp := statics[|statics| - 1];
      assert forall i :: 0 <= i < |front| ==> front[i] == statics[i];
      match PotentialSum(sqrt, p, front)
      case Err(e) => Err(e)
      case Ok(s) =>
        var d := CenterDistance(sqrt, p, sp);
        if d == 0.0 then Err(ZeroDivisionError) else Ok(s + sp.q / d)
  }

  /** `get_potential_energy`: k q times the sum, 0 with no fixed charges. */
  function PotentialEnergy(sqrt: real -> real, p: Particle, statics: seq<Particle>, k: real): (r: Result<real, PyError>)
    ensures statics == [] ==> r == Ok(0.0)
    ensures r.Err? <==> exists i :: 0 <= i < |statics| && CenterDistance(sqrt, p, statics[i]) == 0.0
    ensures r.Ok? ==> r.value == Product(k * p.q, PotentialSum(sqrt, p, statics).value)
  {
    match PotentialSum(sqrt, p, statics)
    case Err(e) => Err(e)
    case Ok(s) =>
      assert s == 0.0 ==> Product(k * p.q, s) == 0.0;
      Ok(Product(k * p.q, s))
  }

  /** The summing loop of `get_potential_energy`. */
  method GetPotentialEnergy(sqrt: real -> real, p: Particle, statics: seq<Particle>, k: real) returns (r: Result<real, PyError>)
    ensures r == PotentialEnergy(sqrt, p, statics, k)
  {
    var sum := 0.0;
    var i := 0;
    while i < |statics|
      invariant 0 <= i <= |statics|
      invariant PotentialSum(sqrt, p, statics[..i]) == Ok(sum)
    {
      var d := CenterDistance(sqrt, p, statics[i]);
      assert statics[..i + 1][..i] == statics[..i];
      if d == 0.0 {
        assert CenterDistance(sqrt, p, statics[..i + 1][i]) == 0.0;
        PotentialSumErrorIsFinal(sqrt, p, statics, i + 1);
        assert statics[..|statics|] == statics;
        assert PotentialSum(sqrt, p, statics).Err?;
        return Err(ZeroDivisionError);
      }
      assert PotentialSum(sqrt, p, statics[..i + 1]) == Ok(sum + statics[i].q / d);
      sum := sum + statics[i].q / d;
      i := i + 1;
    }
    assert statics[..i] == statics;
    r := Ok(Product(k * p.q, sum));
    assert PotentialSum(sqrt, p, statics) == Ok(sum);
    assert PotentialEnergy(sqrt, p, statics, k).Ok?;
    assert PotentialEnergy(sqrt, p, statics, k).value == Product(k * p.q, sum);
  }

  /** Once a prefix of the charges raises, so does every longer prefix. */
  lemma {:induction false} PotentialSumErrorIsFinal(sqrt: real -> real, p: Particle, statics: seq<Particle>, n: nat)
    requires n <= |statics| && PotentialSum(sqrt, p, statics[..n]).Err?
    ensures PotentialSum(sqrt, p, statics).Err?
  {
    var i :| 0 <= i < n && CenterDistance(sqrt, p, statics[..n][i]) == 0.0;
    assert statics[..n][i] == statics[i];
  }

  /** `AnalysisOsc`: what `analyze_osc` returns. */
  datatype AnalysisOsc = AnalysisOsc(algo: string, dt: real, timeVec: seq<real>, exactSol: seq<real>, algoSol: seq<real>, ecm: real)

  /** `AnalysisRad`: what `analyze_rad` returns. */
  datatype AnalysisRad = AnalysisRad(
    algo: string, dt: real, v0: real, initEnergy: real, trajectoryTotal: real, energyDiffSum: real,
    endingMotive: EndingReason, timeVec: seq<real>, energyDiffVec: seq<real>, trajectorySumInterdist: seq<real>,
    posXList: seq<real>, posYList: seq<real>)

  /** `FullValue`: a value and its deviation, both rounded to `decCount` decimals. */
  datatype FullValue = FullValue(media: real, std: real, decCount: int)

  /**
   * The number of decimals `FullValue` keeps: 3 for a zero deviation,
   * otherwise minus the decimal exponent of the deviation when that is
   * negative, else none. `math.log10` of a negative deviation raises.
   */
  function DecCount(log10: real -> real, std: real): (r: Result<int, PyError>)
    ensures r.Ok? <==> std >= 0.0
    ensures r.Err? ==> r.error == ValueError
    ensures std == 0.0 ==> r == Ok(3)
    ensures r.Ok? ==> r.value >= 0
  {
    if std == 0.0 then Ok(3)
    else if std < 0.0 then Err(ValueError)
    else
      var e := log10(std).Floor;
      Ok(if e < 0 then -e else 0)
  }

  /** `FullValue(media, std)`, with Python's `round` passed in. */
  function NewFullValue(log10: real -> real, round: (real, int) -> real, media: real, std: real): (r: Result<FullValue, PyError>)
    ensures r.Ok? <==> std >= 0.0
    ensures r.Ok? ==>
      && r.value.decCount >= 0
      && r.value.media == round(media, r.value.decCount)
      && r.value.std == round(std, r.value.decCount)
  {
    var n :- DecCount(log10, std);
    Ok(FullValue(round(media, n), round(std, n), n))
  }

  /** 10^e for any integer exponent. */
  function Pow10(e: int): (r: real)
    ensures r > 0.0
    decreases if e < 0 then -e else e
  {
    if e == 0 then 1.0
    else if e > 0 then 10.0 * Pow10(e - 1)
    else Pow10(e + 1) / 10.0
  }

  /** What the model assumes of `math.log10`: it is strictly increasing on positive numbers and exact on powers of ten. */
  ghost predicate IsLog10(log10: real -> real)
  {
    && (forall x, y :: 0.0 < x < y ==> log10(x) < log10(y))
    && (forall e: int :: log10(Pow10(e)) == e as real)
  }

  /**
   * A deviation with its first significant digit k places after the point
   * keeps k decimals; a deviation of at least 1 keeps none.
   */
  lemma DecCountIsFirstSignificantPlace(log10: real -> real, std: real, k: int)
    requires IsLog10(log10)
    requires k >= 1 && Pow10(-k) <= std < Pow10(-k + 1)
    ensures DecCount(log10, std) == Ok(k)
  {
    assert log10(Pow10(-k)) == (-k) as real;
    assert log10(Pow10(-k + 1)) == (-k + 1) as real;
    assert (-k) as real <= log10(std) < (-k + 1) as real;
  }

  lemma DecCountOfLargeDeviation(log10: real -> real, std: real)
    requires IsLog10(log10) && std >= 1.0
    ensures DecCount(log10, std) == Ok(0)
  {
    assert log10(Pow10(0)) == 0.0;
    assert std > 1.0 ==> log10(1.0) < log10(std);
  }

  /**
   * How many series, from the first, have an element at index `t`: the
   * inner loop of `build_big_dcm` / `build_small_dcm` stops at the first
   * series that does not.
   */
  function LeadingLonger(values: seq<seq<real>>, t: nat): (m: nat)
    ensures m <= |values|
    ensures forall i :: 0 <= i < m ==> t < |values[i]|
    ensures m < |values| ==> t >= |values[m]|
  {
    if values == [] || t >= |values[0]| then 0 else 1 + LeadingLonger(values[1..], t)
  }

  /** The length of the shortest series; 0 when there is none. */
  function Shortest(values: seq<seq<real>>): (n: nat)
    ensures forall i :: 0 <= i < |values| ==> n <= |values[i]|
    ensures values != [] ==> exists i :: 0 <= i < |values| && |values[i]| == n
    ensures values == [] ==> n == 0
  {
    if values == [] then 0
    else if |values| == 1 || |values[0]| <= Shortest(values[1..]) then |values[0]|
    else Shortest(values[1..])
  }

  /** Every series has an element at `t` exactly when `t` is below the shortest length. */
  lemma LeadingLongerIsAll(values: seq<seq<real>>, t: nat)
    requires values != []
    ensures LeadingLonger(values, t) == |values| <==> t < Shortest(values)
  {
    if LeadingLonger(values, t) == |values| {
      var i :| 0 <= i < |values| && |values[i]| == Shortest(values);
    }
  }

  /** The sum over the first `n` series of their element at `t`, squared or not. */
  function ColumnSum(rows: seq<seq<real>>, t: nat, n: nat, squared: bool): real
    requires n <= |rows| && forall i :: 0 <= i < n ==> t < |rows[i]|
  {
    if n == 0 then 0.0
    else ColumnSum(rows, t, n - 1, squared) + (if squared then Sq(rows[n - 1][t]) else rows[n - 1][t])
  }

  lemma {:induction false} SquaredColumnSumNonNegative(rows: seq<seq<real>>, t: nat, n: nat)
    requires n <= |rows| && forall i :: 0 <= i < n ==> t < |rows[i]|
    ensures ColumnSum(rows, t, n, true) >= 0.0
  {
    if n > 0 {
      SquaredColumnSumNonNegative(rows, t, n - 1);
      SqNonNegative(rows[n - 1][t]);
    }
  }

  /** The time series can be read at `t` for every value series the inner loop gets to. */
  predicate TimesReadable(values: seq<seq<real>>, times: seq<seq<real>>, t: nat)
  {
    LeadingLonger(values, t) <= |times| && forall i :: 0 <= i < LeadingLonger(values, t) ==> t < |times[i]|
  }

  /** Time series at least as long as their value series can always be read. */
  lemma CoveringTimesAreReadable(values: seq<seq<real>>, times: seq<seq<real>>, t: nat)
    requires |times| >= |values| && forall i :: 0 <= i < |values| ==> |times[i]| >= |values[i]|
    ensures TimesReadable(values, times, t)
  {
  }

  /** The first `n` averaged entries: entry t is the mean over the series of their element at t, squared or not. */
  function ValueMeans(values: seq<seq<real>>, n: nat, squared: bool): (ms: seq<real>)
    requires n <= Shortest(values)
    ensures |ms| == n
  {
    seq(n, t requires 0 <= t < n => ColumnSum(values, t, |values|, squared) / (|values| as real))
  }

  /** The matching averaged times. */
  function TimeMeans(values: seq<seq<real>>, times: seq<seq<real>>, n: nat): (ms: seq<real>)
    requires n <= Shortest(values)
    requires forall t :: 0 <= t < n ==> TimesReadable(values, times, t)
    ensures |ms| == n
  {
    seq(n, t requires 0 <= t < n =>
      LeadingLongerIsAll(values, t);
      assert TimesReadable(values, times, t);
      ColumnSum(times, t, |values|, false) / (|values| as real))
  }

  /** Averaged squares are never negative. */
  lemma BigMeansNonNegative(values: seq<seq<real>>, n: nat)
    requires n <= Shortest(values)
    ensures forall t :: 0 <= t < n ==> ValueMeans(values, n, true)[t] >= 0.0
  {
    forall t | 0 <= t < n
      ensures ValueMeans(values, n, true)[t] >= 0.0
    {
      SquaredColumnSumNonNegative(values, t, |values|);
    }
  }

  /**
   * One pass of the inner `for` loop at index `t`: stop at the first
   * series that has no element there, otherwise add its element (squared
   * or not) and the matching time, which raises IndexError when missing.
   */
  method ColumnSums(values: seq<seq<real>>, times: seq<seq<real>>, t: nat, squared: bool)
    returns (collided: bool, valueSum: real, timeSum: real, err: Option<PyError>)
    ensures err.Some? <==> !TimesReadable(values, times, t)
    ensures err.Some? ==> err == Some(IndexError)
    ensures err.None? ==>
      && (collided <==> LeadingLonger(values, t) < |values|)
      && valueSum == ColumnSum(values, t, LeadingLonger(values, t), squared)
      && timeSum == ColumnSum(times, t, LeadingLonger(values, t), false)
  {
    collided, valueSum, timeSum, err := false, 0.0, 0.0, None;
    var i := 0;
    while i < |values|
      invariant i <= LeadingLonger(values, t)
      invariant i <= |times| && forall j :: 0 <= j < i ==> t < |times[j]|
      invariant valueSum == ColumnSum(values, t, i, squared)
      invariant timeSum == ColumnSum(times, t, i, false)
    {
      if t >= |values[i]| {
        collided := true;
        break;
      }
      valueSum := valueSum + (if squared then Sq(values[i][t]) else values[i][t]);
      if i >= |times| || t >= |times[i]| {
        err := Some(IndexError);
        return;
      }
      timeSum := timeSum + times[i][t];
      i := i + 1;
    }
  }

  /**
   * The outer `while` loop of `build_big_dcm` / `build_small_dcm`: one
   * averaged entry per index every series reaches, so as many as the
   * shortest series has. With no series at all the first average divides
   * by zero; a missing time raises IndexError, after the entries already
   * made.
   */
  method BuildDcm(values: seq<seq<real>>, times: seq<seq<real>>, squared: bool)
    returns (means: seq<real>, timeMeans: seq<real>, err: Option<PyError>)
    ensures err.None? <==> |values| > 0 && forall t :: 0 <= t <= Shortest(values) ==> TimesReadable(values, times, t)
    ensures err.Some? ==> err == Some(if |values| == 0 then ZeroDivisionError else IndexError)
    ensures |means| <= Shortest(values) && (err.None? ==> |means| == Shortest(values))
    ensures forall t :: 0 <= t < |means| ==> TimesReadable(values, times, t)
    ensures means == ValueMeans(values, |means|, squared)
    ensures timeMeans == TimeMeans(values, times, |means|)
  {
    means, timeMeans, err := [], [], None;
    var collided := false;
    var t := 0;
    while !collided
      invariant !collided ==> t == |means| <= Shortest(values)
      invariant collided ==> |values| > 0 && t == |means| + 1 && |means| == Shortest(values)
      invariant forall u :: 0 <= u < t ==> TimesReadable(values, times, u)
      invariant means == ValueMeans(values, |means|, squared)
      invariant timeMeans == TimeMeans(values, times, |means|)
      decreases if collided then 0 else Shortest(values) + 1 - t
    {
      var c, valueSum, timeSum, e := ColumnSums(values, times, t, squared);
      if e.Some? {
        return means, timeMeans, e;
      }
      collided := c;
      if !collided {
        if |values| == 0 {
          return means, timeMeans, Some(ZeroDivisionError);
        }
        LeadingLongerIsAll(values, t);
        means := means + [valueSum / (|values| as real)];
        timeMeans := timeMeans + [timeSum / (|values| as real)];
      } else {
        LeadingLongerIsAll(values, t);
      }
      t := t + 1;
    }
  }

  /** The averaged series `Summary` keeps. */
  class Summary {
    var bigDcmList: seq<real>
    var bigDcmTimeList: seq<real>
    var smallDcmList: seq<real>
    var smallDcmTimeList: seq<real>

    /** The lists start empty. */
    constructor()
      ensures bigDcmList == [] && bigDcmTimeList == [] && smallDcmList == [] && smallDcmTimeList == []
    {
      bigDcmList, bigDcmTimeList, smallDcmList, smallDcmTimeList := [], [], [], [];
    }

    /** `build_big_dcm`: appends the mean squared distance and mean time per index every run reaches. */
    method BuildBigDcm(distances: seq<seq<real>>, times: seq<seq<real>>) returns (err: Option<PyError>)
      modifies this
      ensures err.None? <==> |distances| > 0 && forall t :: 0 <= t <= Shortest(distances) ==> TimesReadable(distances, times, t)
      ensures err.Some? ==> err == Some(if |distances| == 0 then ZeroDivisionError else IndexError)
      ensures exists n: nat ::
        && n <= Shortest(distances)
        && (err.None? ==> n == Shortest(distances))
        && (forall t :: 0 <= t < n ==> TimesReadable(distances, times, t))
        && bigDcmList == old(bigDcmList) + ValueMeans(distances, n, true)
        && bigDcmTimeList == old(bigDcmTimeList) + TimeMeans(distances, times, n)
      ensures smallDcmList == old(smallDcmList) && smallDcmTimeList == old(smallDcmTimeList)
    {
      var means, timeMeans;
      means, timeMeans, err := BuildDcm(distances, times, true);
      bigDcmList := bigDcmList + means;
      bigDcmTimeList := bigDcmTimeList + timeMeans;
    }

    /** `build_small_dcm`: the same on values that are already squared. */
    method BuildSmallDcm(sqDistances: seq<seq<real>>, times: seq<seq<real>>) returns (err: Option<PyError>)
      modifies this
      ensures err.None? <==> |sqDistances| > 0 && forall t :: 0 <= t <= Shortest(sqDistances) ==> TimesReadable(sqDistances, times, t)
      ensures err.Some? ==> err == Some(if |sqDistances| == 0 then ZeroDivisionError else IndexError)
      ensures exists n: nat ::
        && n <= Shortest(sqDistances)
        && (err.None? ==> n == Shortest(sqDistances))
        && (forall t :: 0 <= t < n ==> TimesReadable(sqDistances, times, t))
        && smallDcmList == old(smallDcmList) + ValueMeans(sqDistances, n, false)
        && smallDcmTimeList == old(smallDcmTimeList) + TimeMeans(sqDistances, times, n)
      ensures bigDcmList == old(bigDcmList) && bigDcmTimeList == old(bigDcmTimeList)
    {
      var means, timeMeans;
      means, timeMeans, err := BuildDcm(sqDistances, times, false);
      smallDcmList := smallDcmList + means;
      smallDcmTimeList := smallDcmTimeList + timeMeans;
    }
  }
}
