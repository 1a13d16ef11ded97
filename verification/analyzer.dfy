/**
 * analyzerFun.py: the two readers of a trajectory log. A log is a sequence
 * of groups: a line holding the group's time, then one line per particle,
 * then a `*` line. Both readers run the same line state machine (a
 * `restart` flag and a per-group `p_id`) and fold the particle lines into
 * parallel series.
 *
 * A line is kept as the pieces `line.rstrip().split(' ')` gives, each a
 * number `float` accepts or something it rejects; the `*` line is kept
 * apart.
 *
 * `exact_solution`, with its mass, spring constant, damping and amplitude
 * fixed, is a function parameter from a time to its value or the exception
 * it raises (`math.sqrt` of a negative number, a zero mass). `math.sqrt` is
 * a function parameter too, and `statistics.mean` is the mean over the
 * reals.
 */
module Analyzer {
  import opened Wrappers
  import opened RealMath
  import opened PyErrors
  import opened Readers
  import opened AnalysisObjects

  /** A log line: the group sentinel `*`, or the pieces of any other line. */
  datatype LogLine = Star | Pieces(tokens: Line)

  /** What the state machine makes of a line. */
  datatype Role = GroupTime | Sentinel | Record

  /**
   * The first line and each line after a `*` line are group times; after
   * that, a `*` line closes the group and every other line is a particle
   * record.
   */
  function RoleOf(lines: seq<LogLine>, i: nat): Role
    requires i < |lines|
  {
    if i == 0 || RoleOf(lines, i - 1) == Sentinel then GroupTime
    else if lines[i].Star? then Sentinel
    else Record
  }

  /** The number of particle records among the first `n` lines. */
  function RecordCount(lines: seq<LogLine>, n: nat): nat
    requires n <= |lines|
  {
    if n == 0 then 0 else RecordCount(lines, n - 1) + (if RoleOf(lines, n - 1) == Record then 1 else 0)
  }

  /** The number of records since the last group time among the first `n` lines: the `p_id` of the next record. */
  function RecordsInGroup(lines: seq<LogLine>, n: nat): nat
    requires n <= |lines|
  {
    if n == 0 then 0
    else
      match RoleOf(lines, n - 1)
      case GroupTime => 0
      case Sentinel => RecordsInGroup(lines, n - 1)
      case Record => RecordsInGroup(lines, n - 1) + 1
  }

  /** `float(line.rstrip())`: only a line that is one number is a time; `*` and anything else raise ValueError. */
  function ParseTime(line: LogLine): (r: Result<real, PyError>)
    ensures r.Ok? <==> line.Pieces? && |line.tokens| == 1 && line.tokens[0].Num?
    ensures r.Ok? ==> r.value == line.tokens[0].value
    ensures r.Err? ==> r.error == ValueError
  {
    if line.Pieces? && |line.tokens| == 1 && line.tokens[0].Num? then Ok(line.tokens[0].value) else Err(ValueError)
  }

  /**
   * `float(line_vec[0])`, ..., `float(line_vec[width - 1])`, left to right:
   * a missing piece raises IndexError, a piece that is not a number ValueError.
   */
  function ParseRecord(tokens: Line, width: nat): (r: Result<seq<real>, PyError>)
    ensures r.Ok? <==> Fields(tokens, width).Ok?
    ensures r.Ok? ==> r.value == Fields(tokens, width).value && |r.value| == width
    ensures r.Err? ==> r.error == (if Fields(tokens, width).error == ArrayIndexOutOfBoundsException then IndexError else ValueError)
  {
    match Fields(tokens, width)
    case Ok(v) => Ok(v)
    case Err(ArrayIndexOutOfBoundsException) => Err(IndexError)
    case Err(_) => Err(ValueError)
  }

  /** A line raises when its role needs a number it does not hold. */
  predicate LineFails(lines: seq<LogLine>, i: nat, width: nat)
    requires i < |lines|
  {
    match RoleOf(lines, i)
    case GroupTime => ParseTime(lines[i]).Err?
    case Sentinel => false
    case Record => ParseRecord(lines[i].tokens, width).Err?
  }

  // ---------------------------------------------------------------- analyze_osc

  /** The local variables of `analyze_osc` between two lines. */
  datatype OscState = OscState(restart: bool, pId: int, time: real,
                               timeVec: seq<real>, exactSol: seq<real>, algoSol: seq<real>, ecms: seq<real>)

  /** One pass of the loop body of `analyze_osc`; a record is `x vx`. */
  function OscStep(s: OscState, line: LogLine, exact: real -> Result<real, PyError>): Result<OscState, PyError>
  {
    if s.restart then
      var t :- ParseTime(line);
      Ok(s.(restart := false, pId := 0, time := t))
    else if line.Star? then
      Ok(s.(restart := true))
    else
      var v :- ParseRecord(line.tokens, 2);
      var ex :- exact(s.time);
      var x := v[0];
      Ok(s.(timeVec := s.timeVec + [s.time], algoSol := s.algoSol + [x], exactSol := s.exactSol + [ex],
            ecms := s.ecms + [Sq(x - ex)], pId := s.pId + 1))
  }

  /** The state after the first `n` lines, or the exception one of them raised. */
  function OscFold(lines: seq<LogLine>, n: nat, exact: real -> Result<real, PyError>): Result<OscState, PyError>
    requires n <= |lines|
  {
    if n == 0 then Ok(OscState(true, 0, 0.0, [], [], [], []))
    else
      var s :- OscFold(lines, n - 1, exact);
      OscStep(s, lines[n - 1], exact)
  }

  /** `analyze_osc` on a whole log: the mean squared error needs two records, since `sts.stdev` does. */
  function OscAnalysis(lines: seq<LogLine>, exact: real -> Result<real, PyError>, algo: string, deltaT: real): Result<AnalysisOsc, PyError>
  {
    var s :- OscFold(lines, |lines|, exact);
    if |s.ecms| < 2 then Err(StatisticsError)
    else Ok(AnalysisOsc(algo, deltaT, s.timeVec, s.exactSol, s.algoSol, Mean(s.ecms)))
  }

  /** An exception ends the fold: later lines do not change it. */
  lemma {:induction false} OscFailureIsFinal(lines: seq<LogLine>, m: nat, n: nat, exact: real -> Result<real, PyError>)
    requires m <= n <= |lines| && OscFold(lines, m, exact).Err?
    ensures OscFold(lines, n, exact) == OscFold(lines, m, exact)
  {
    if m < n {
      OscFailureIsFinal(lines, m, n - 1, exact);
    }
  }

  /**
   * The state machine and the series: `restart` is set exactly after a
   * `*` line, `p_id` counts the records of the current group, the four
   * series grow by one entry per record, and each squared error is the
   * square of the difference of its solutions, so never negative.
   */
  lemma OscFoldShape(lines: seq<LogLine>, n: nat, exact: real -> Result<real, PyError>)
    requires n <= |lines| && OscFold(lines, n, exact).Ok?
    ensures var s := OscFold(lines, n, exact).value;
      && s.restart == (n == 0 || RoleOf(lines, n - 1) == Sentinel)
      && s.pId == RecordsInGroup(lines, n)
      && |s.timeVec| == |s.exactSol| == |s.algoSol| == |s.ecms| == RecordCount(lines, n)
      && (n > 0 ==> s.time == TimeOf(lines, n - 1))
      && (forall j :: 0 <= j < |s.ecms| ==>
            exact(s.timeVec[j]) == Ok(s.exactSol[j]) && s.ecms[j] == Sq(s.algoSol[j] - s.exactSol[j]) && s.ecms[j] >= 0.0)
  {
    OscFoldControl(lines, n, exact);
    OscFoldSeries(lines, n, exact);
  }

  /** The control state: `restart`, `p_id`, the group's time and the number of records so far. */
  lemma {:induction false} OscFoldControl(lines: seq<LogLine>, n: nat, exact: real -> Result<real, PyError>)
    requires n <= |lines| && OscFold(lines, n, exact).Ok?
    ensures var s := OscFold(lines, n, exact).value;
      && s.restart == (n == 0 || RoleOf(lines, n - 1) == Sentinel)
      && s.pId == RecordsInGroup(lines, n)
      && (n > 0 ==> s.time == TimeOf(lines, n - 1))
      && |s.ecms| == RecordCount(lines, n)
  {
    if n > 0 {
      OscFoldControl(lines, n - 1, exact);
      assert OscFold(lines, n, exact).value == OscStep(OscFold(lines, n - 1, exact).value, lines[n - 1], exact).value;
    }
  }

  /** The four series of `analyze_osc` are aligned, each squared error that of its record, so never negative. */
  ghost predicate Aligned(timeVec: seq<real>, exactSol: seq<real>, algoSol: seq<real>, ecms: seq<real>, exact: real -> Result<real, PyError>)
  {
    && |timeVec| == |exactSol| == |algoSol| == |ecms|
    && forall j :: 0 <= j < |ecms| ==>
         exact(timeVec[j]) == Ok(exactSol[j]) && ecms[j] == Sq(algoSol[j] - exactSol[j]) && ecms[j] >= 0.0
  }

  lemma {:induction false} OscFoldSeries(lines: seq<LogLine>, n: nat, exact: real -> Result<real, PyError>)
    requires n <= |lines| && OscFold(lines, n, exact).Ok?
    ensures var s := OscFold(lines, n, exact).value;
      Aligned(s.timeVec, s.exactSol, s.algoSol, s.ecms, exact)
  {
    if n > 0 {
      OscFoldSeries(lines, n - 1, exact);
      var s := OscFold(lines, n - 1, exact).value;
      var s2 := OscFold(lines, n, exact).value;
      assert s2 == OscStep(s, lines[n - 1], exact).value;
      OscStepSeries(s, lines[n - 1], exact);
      if !s.restart && !lines[n - 1].Star? {
        OscSeriesAppend(s, s2, exact, ParseRecord(lines[n - 1].tokens, 2).value[0]);
      }
    }
  }

  /** A record appended to the four series keeps them aligned, with its squared error. */
  lemma OscSeriesAppend(s: OscState, s2: OscState, exact: real -> Result<real, PyError>, x: real)
    requires Aligned(s.timeVec, s.exactSol, s.algoSol, s.ecms, exact)
    requires s2.timeVec == s.timeVec + [s.time] && s2.algoSol == s.algoSol + [x]
    requires exact(s.time).Ok?
    requires s2.exactSol == s.exactSol + [exact(s.time).value] && s2.ecms == s.ecms + [Sq(x - exact(s.time).value)]
    ensures Aligned(s2.timeVec, s2.exactSol, s2.algoSol, s2.ecms, exact)
  {
    SqNonNegative(x - exact(s.time).value);
  }

  /** A time line or a `*` leaves the series alone; a record appends one entry to each. */
  lemma OscStepSeries(s: OscState, line: LogLine, exact: real -> Result<real, PyError>)
    requires OscStep(s, line, exact).Ok?
    ensures var s2 := OscStep(s, line, exact).value;
      (s.restart || line.Star?) ==>
        s2.timeVec == s.timeVec && s2.exactSol == s.exactSol && s2.algoSol == s.algoSol && s2.ecms == s.ecms
    ensures !s.restart && !line.Star? ==>
      && line.Pieces? && ParseRecord(line.tokens, 2).Ok? && exact(s.time).Ok?
      && var s2, x, ex := OscStep(s, line, exact).value, ParseRecord(line.tokens, 2).value[0], exact(s.time).value;
      && s2.timeVec == s.timeVec + [s.time] && s2.algoSol == s.algoSol + [x]
      && s2.exactSol == s.exactSol + [ex] && s2.ecms == s.ecms + [Sq(x - ex)]
  {
  }


  /**
   * The time of the group line `i` belongs to: the value of the group's
   * time line, or 0.0 when that line is not a number (the fold has raised
   * there already).
   */
  function TimeOf(lines: seq<LogLine>, i: nat): real
    requires i < |lines|
  {
    if RoleOf(lines, i) == GroupTime then (if ParseTime(lines[i]).Ok? then ParseTime(lines[i]).value else 0.0)
    else TimeOf(lines, i - 1)
  }

  /** A line of `analyze_osc` raises: as `LineFails` says, or it is a record and `exact_solution` raises at its group's time. */
  predicate OscLineFails(lines: seq<LogLine>, i: nat, exact: real -> Result<real, PyError>)
    requires i < |lines|
  {
    LineFails(lines, i, 2) || (RoleOf(lines, i) == Record && exact(TimeOf(lines, i)).Err?)
  }

  /**
   * The fold raises exactly when some line does: a time line that is not
   * one number, a record short of two numbers, or a record whose group
   * time `exact_solution` rejects.
   */
  lemma {:induction false} OscFailsIffSomeLineFails(lines: seq<LogLine>, n: nat, exact: real -> Result<real, PyError>)
    requires n <= |lines|
    ensures OscFold(lines, n, exact).Err? <==> exists i :: 0 <= i < n && OscLineFails(lines, i, exact)
  {
    if n > 0 {
      OscFailsIffSomeLineFails(lines, n - 1, exact);
      if OscFold(lines, n - 1, exact).Ok? {
        OscFoldShape(lines, n - 1, exact);
        assert OscFold(lines, n, exact).Err? <==> OscLineFails(lines, n - 1, exact);
      } else {
        var i :| 0 <= i < n - 1 && OscLineFails(lines, i, exact);
        assert OscFold(lines, n, exact).Err?;
      }
    }
  }

  /** A `*` where a time is expected raises ValueError instead of being skipped. */
  lemma StarAsTimeRaises(lines: seq<LogLine>, i: nat, exact: real -> Result<real, PyError>)
    requires i < |lines| && lines[i].Star? && RoleOf(lines, i) == GroupTime
    requires OscFold(lines, i, exact).Ok?
    ensures OscFold(lines, i + 1, exact) == Err(ValueError)
  {
    OscFoldShape(lines, i, exact);
  }

  /** On success the mean squared error is the mean of at least two non-negative squared errors. */
  lemma OscAnalysisResult(lines: seq<LogLine>, exact: real -> Result<real, PyError>, algo: string, deltaT: real)
    ensures OscAnalysis(lines, exact, algo, deltaT).Ok? <==>
      OscFold(lines, |lines|, exact).Ok? && RecordCount(lines, |lines|) >= 2
    ensures OscAnalysis(lines, exact, algo, deltaT).Ok? ==>
      var a := OscAnalysis(lines, exact, algo, deltaT).value;
      var s := OscFold(lines, |lines|, exact).value;
      && a.timeVec == s.timeVec && a.algoSol == s.algoSol && a.exactSol == s.exactSol
      && a.ecm == Mean(s.ecms) && a.ecm >= 0.0
  {
    if OscFold(lines, |lines|, exact).Ok? {
      OscFoldShape(lines, |lines|, exact);
      var s := OscFold(lines, |lines|, exact).value;
      if |s.ecms| >= 2 {
        MeanNonNegative(s.ecms);
      }
    }
  }

  /** `analyze_osc`: the line loop, then the mean squared error. */
  method AnalyzeOsc(lines: seq<LogLine>, exact: real -> Result<real, PyError>, algo: string, deltaT: real) returns (r: Result<AnalysisOsc, PyError>)
    ensures r == OscAnalysis(lines, exact, algo, deltaT)
  {
    var restart, pId, time := true, 0, 0.0;
    var timeVec, exactSol, algoSol, ecms := [], [], [], [];
    var i := 0;
    while i < |lines|
      invariant i <= |lines|
      invariant OscFold(lines, i, exact) == Ok(OscState(restart, pId, time, timeVec, exactSol, algoSol, ecms))
    {
      var line := lines[i];
      assert OscFold(lines, i + 1, exact) == OscStep(OscState(restart, pId, time, timeVec, exactSol, algoSol, ecms), line, exact);
      if restart {
        var t := ParseTime(line);
        if t.Err? {
          OscFailureIsFinal(lines, i + 1, |lines|, exact);
          return Err(t.error);
        }
        time, restart, pId := t.value, false, 0;
      } else if line.Star? {
        restart := true;
      } else {
        var v := ParseRecord(line.tokens, 2);
        if v.Err? {
          OscFailureIsFinal(lines, i + 1, |lines|, exact);
          return Err(v.error);
        }
        var ex := exact(time);
        if ex.Err? {
          OscFailureIsFinal(lines, i + 1, |lines|, exact);
          return Err(ex.error);
        }
        timeVec := timeVec + [time];
        algoSol := algoSol + [v.value[0]];
        exactSol := exactSol + [ex.value];
        ecms := ecms + [Sq(algoSol[|algoSol| - 1] - exactSol[|exactSol| - 1])];
        pId := pId + 1;
      }
      i := i + 1;
    }
    if |ecms| < 2 {
      return Err(StatisticsError);
    }
    r := Ok(AnalysisOsc(algo, deltaT, timeVec, exactSol, algoSol, Mean(ecms)));
  }

  // ---------------------------------------------------------------- analyze_rad: the fixed charges

  /** The fixed charge of row i, column j: at ((i + 1) D, j D), id i N + j, +Q on even i + j and -Q on odd. */
  function StaticAt(n: int, d: real, q: real, i: nat, j: nat): Particle
  {
    Particle(i * n + j, (i + 1) as real * d, j as real * d, 0.0, 0.0, 0.0, 0.0, if (i + j) % 2 == 0 then q else -q)
  }

  /** The first `j` charges of row `i`, in the order the inner loop appends them. */
  function GridRow(n: int, d: real, q: real, i: nat, j: nat): seq<Particle>
  {
    if j == 0 then [] else GridRow(n, d, q, i, j - 1) + [StaticAt(n, d, q, i, j - 1)]
  }

  /** The first `i` rows, in the order the outer loop builds them. */
  function GridRows(n: nat, d: real, q: real, i: nat): seq<Particle>
  {
    if i == 0 then [] else GridRows(n, d, q, i - 1) + GridRow(n, d, q, i - 1, n)
  }

  /** The list `analyze_rad` builds: `range(N)` is empty for N <= 0. */
  function StaticGrid(n: int, d: real, q: real): seq<Particle>
  {
    if n <= 0 then [] else GridRows(n, d, q, n)
  }

  lemma {:induction false} GridRowShape(n: int, d: real, q: real, i: nat, j: nat)
    ensures |GridRow(n, d, q, i, j)| == j
    ensures forall b :: 0 <= b < j ==> GridRow(n, d, q, i, j)[b] == StaticAt(n, d, q, i, b)
  {
    if j > 0 {
      GridRowShape(n, d, q, i, j - 1);
    }
  }

  /** The charge of row a, column b is at index a N + b of the first i rows. */
  lemma {:induction false} GridRowsAt(n: nat, d: real, q: real, i: nat, a: nat, b: nat)
    requires a < i && b < n
    ensures |GridRows(n, d, q, i)| == i * n
    ensures a * n + b < i * n
    ensures GridRows(n, d, q, i)[a * n + b] == StaticAt(n, d, q, a, b)
  {
    GridRowShape(n, d, q, i - 1, n);
    GridRowsLength(n, d, q, i);
    GridRowsLength(n, d, q, i - 1);
    var front, row := GridRows(n, d, q, i - 1), GridRow(n, d, q, i - 1, n);
    assert GridRows(n, d, q, i) == front + row;
    assert i * n == (i - 1) * n + n;
    if a < i - 1 {
      GridRowsAt(n, d, q, i - 1, a, b);
    } else {
      assert a * n + b == (i - 1) * n + b;
    }
  }

  lemma {:induction false} GridRowsLength(n: nat, d: real, q: real, i: nat)
    ensures |GridRows(n, d, q, i)| == i * n
  {
    if i > 0 {
      GridRowsLength(n, d, q, i - 1);
      GridRowShape(n, d, q, i - 1, n);
      assert i * n == (i - 1) * n + n;
    }
  }

  /** Every charge of the first i rows has its index as id. */
  lemma {:induction false} GridRowsIds(n: nat, d: real, q: real, i: nat)
    ensures forall k :: 0 <= k < |GridRows(n, d, q, i)| ==> GridRows(n, d, q, i)[k].id == k
  {
    if i > 0 {
      GridRowsIds(n, d, q, i - 1);
      GridRowsLength(n, d, q, i - 1);
      GridRowShape(n, d, q, i - 1, n);
      var front: seq<Particle>, row: seq<Particle> := GridRows(n, d, q, i - 1), GridRow(n, d, q, i - 1, n);
      forall k | |front| <= k < |front + row|
        ensures (front + row)[k].id == k
      {
        assert (front + row)[k] == StaticAt(n, d, q, i - 1, k - |front|);
      }
    }
  }

  /** The grid holds N x N charges (none for N <= 0), and every charge's id is its index. */
  lemma StaticGridLayout(n: int, d: real, q: real)
    ensures |StaticGrid(n, d, q)| == if n > 0 then n * n else 0
    ensures forall k :: 0 <= k < |StaticGrid(n, d, q)| ==> StaticGrid(n, d, q)[k].id == k
  {
    if n > 0 {
      GridRowsLength(n, d, q, n);
      GridRowsIds(n, d, q, n);
    }
  }

  /** The charge of row a and column b is at index a N + b. */
  lemma StaticGridCell(n: int, d: real, q: real, a: nat, b: nat)
    requires a < n && b < n
    ensures a * n + b < |StaticGrid(n, d, q)|
    ensures StaticGrid(n, d, q)[a * n + b] == StaticAt(n, d, q, a, b)
  {
    GridRowsAt(n, d, q, n, a, b);
  }

  lemma GridRowGrows(front: seq<Particle>, n: int, d: real, q: real, i: nat, j: nat)
    ensures front + GridRow(n, d, q, i, j + 1) == front + GridRow(n, d, q, i, j) + [StaticAt(n, d, q, i, j)]
  {
  }

  /** The nested loops that build the grid. */
  method BuildStaticParticles(n: int, d: real, q: real) returns (statics: seq<Particle>)
    ensures statics == StaticGrid(n, d, q)
  {
    statics := [];
    var i := 0;
    while i < n
      invariant n > 0 ==> 0 <= i <= n && statics == GridRows(n, d, q, i)
      invariant n <= 0 ==> i == 0 && statics == []
    {
      var j := 0;
      while j < n
        invariant 0 <= j <= n
        invariant statics == GridRows(n, d, q, i) + GridRow(n, d, q, i, j)
      {
        var charge := Particle(i * n + j, (i + 1) as real * d, j as real * d, 0.0, 0.0, 0.0, 0.0,
                               if (i + j) % 2 == 0 then q else -q);
        assert charge == StaticAt(n, d, q, i, j);
        GridRowGrows(GridRows(n, d, q, i), n, d, q, i, j);
        statics := statics + [charge];
        j := j + 1;
      }
      i := i + 1;
    }
  }

  // ---------------------------------------------------------------- analyze_rad: the line loop

  /** What every record of `analyze_rad` shares: the fixed charges, the constant k, the mass and the charge. */
  datatype RadSetup = RadSetup(sqrt: real -> real, statics: seq<Particle>, k: real, mass: real, charge: real)

  /** The local variables of `analyze_rad` between two lines; `last` is both `part` and `prev_part`. */
  datatype RadState = RadState(
    restart: bool, pId: int, time: real,
    timeVec: seq<real>, posX: seq<real>, posY: seq<real>,
    energyDiffVec: seq<real>, energyDiffSum: real,
    trajInter: seq<real>, trajSum: real,
    initEnergy: Option<real>, last: Option<Particle>)

  /** The total energy of a record: kinetic plus potential against the fixed charges. */
  function TotalEnergy(env: RadSetup, part: Particle): Result<real, PyError>
  {
    var pot :- PotentialEnergy(env.sqrt, part, env.statics, env.k);
    Ok(KineticEnergy(part) + pot)
  }

  /**
   * One pass of the loop body of `analyze_rad`; a record is `x y vx vy`.
   * A record at time 0 sets the energy baseline and a 0 trajectory entry;
   * any other adds the distance from the previous record and the energy
   * difference from the baseline, and raises when either is unbound.
   * `p_id` is reset per group but never incremented.
   */
  function RadStep(s: RadState, line: LogLine, env: RadSetup): Result<RadState, PyError>
  {
    if s.restart then
      var t :- ParseTime(line);
      Ok(s.(restart := false, pId := 0, time := t))
    else if line.Star? then
      Ok(s.(restart := true))
    else
      var v :- ParseRecord(line.tokens, 4);
      var part := Particle(s.pId, v[0], v[1], v[2], v[3], 0.0, env.mass, env.charge);
      var total :- TotalEnergy(env, part);
      var s1 := s.(timeVec := s.timeVec + [s.time], posX := s.posX + [part.x], posY := s.posY + [part.y], last := Some(part));
      if s.time != 0.0 then
        if s.last.None? || s.initEnergy.None? then Err(UnboundLocalError)
        else
          var dist := CenterDistance(env.sqrt, part, s.last.value);
          var diff := Abs(s.initEnergy.value - total);
          Ok(s1.(trajSum := s.trajSum + dist, trajInter := s.trajInter + [s.trajSum + dist],
                 energyDiffSum := s.energyDiffSum + diff, energyDiffVec := s.energyDiffVec + [diff]))
      else
        Ok(s1.(initEnergy := Some(total), trajInter := s.trajInter + [0.0]))
  }

  function RadFold(lines: seq<LogLine>, n: nat, env: RadSetup): Result<RadState, PyError>
    requires n <= |lines|
  {
    if n == 0 then Ok(RadState(true, 0, 0.0, [], [], [], [], 0.0, [], 0.0, None, None))
    else
      var s :- RadFold(lines, n - 1, env);
      RadStep(s, lines[n - 1], env)
  }

  /** `analyze_rad` after the loop: the ending is classified from the last record in the 16 D x 15 D box. */
  function RadAnalysis(lines: seq<LogLine>, env: RadSetup, d: real, algo: string, deltaT: real, v0: real): Result<AnalysisRad, PyError>
  {
    var s :- RadFold(lines, |lines|, env);
    if s.last.None? || s.initEnergy.None? then Err(UnboundLocalError)
    else
      Ok(AnalysisRad(algo, deltaT, v0, s.initEnergy.value, s.trajSum, s.energyDiffSum,
                     GetEndingReason(s.last.value, 16.0 * d, 15.0 * d),
                     s.timeVec, s.energyDiffVec, s.trajInter, s.posX, s.posY))
  }

  /** The number of non-zero entries. */
  function NonZeroCount(s: seq<real>): nat
  {
    if s == [] then 0 else NonZeroCount(s[..|s| - 1]) + (if s[|s| - 1] != 0.0 then 1 else 0)
  }

  /** What one line does to the state of `analyze_rad`, when it does not raise. */
  lemma RadStepEffect(s: RadState, line: LogLine, env: RadSetup)
    requires RadStep(s, line, env).Ok?
    ensures var s2 := RadStep(s, line, env).value;
      && s2.pId == (if s.restart then 0 else s.pId)
      && s2.restart == (!s.restart && line.Star?)
      && (s.restart || line.Star? ==>
            && s2.timeVec == s.timeVec && s2.posX == s.posX && s2.posY == s.posY
            && s2.trajInter == s.trajInter && s2.trajSum == s.trajSum
            && s2.energyDiffVec == s.energyDiffVec && s2.energyDiffSum == s.energyDiffSum
            && s2.last == s.last && s2.initEnergy == s.initEnergy)
      && (!s.restart && !line.Star? ==>
            && s2.last.Some? && s2.last.value.id == s.pId
            && s2.timeVec == s.timeVec + [s.time]
            && s2.posX == s.posX + [s2.last.value.x] && s2.posY == s.posY + [s2.last.value.y]
            && s2.initEnergy.Some?
            && (s.time != 0.0 ==>
                  && s.last.Some? && s.initEnergy.Some?
                  && s2.initEnergy == s.initEnergy
                  && s2.trajSum == s.trajSum + CenterDistance(env.sqrt, s2.last.value, s.last.value)
                  && s2.trajInter == s.trajInter + [s2.trajSum]
                  && |s2.energyDiffVec| == |s.energyDiffVec| + 1
                  && s2.energyDiffVec[..|s.energyDiffVec|] == s.energyDiffVec
                  && s2.energyDiffVec[|s.energyDiffVec|] >= 0.0
                  && s2.energyDiffSum == s.energyDiffSum + s2.energyDiffVec[|s.energyDiffVec|])
            && (s.time == 0.0 ==>
                  && s2.trajSum == s.trajSum && s2.trajInter == s.trajInter + [0.0]
                  && s2.energyDiffVec == s.energyDiffVec && s2.energyDiffSum == s.energyDiffSum))
  {
  }

  lemma {:induction false} RadFailureIsFinal(lines: seq<LogLine>, m: nat, n: nat, env: RadSetup)
    requires m <= n <= |lines| && RadFold(lines, m, env).Err?
    ensures RadFold(lines, n, env) == RadFold(lines, m, env)
  {
    if m < n {
      RadFailureIsFinal(lines, m, n - 1, env);
    }
  }

  /**
   * The series of `analyze_rad` agree with each other: times, positions and
   * trajectory entries have one entry per record; energy differences, all
   * non-negative, one per record whose time is not 0, and their running sum
   * is their sum; a record at time 0 has trajectory entry 0; the last record
   * is the last position, and once there is one the baseline is bound.
   */
  predicate SeriesAgree(s: RadState)
  {
    && |s.timeVec| == |s.posX| == |s.posY| == |s.trajInter|
    && |s.energyDiffVec| == NonZeroCount(s.timeVec)
    && (forall j :: 0 <= j < |s.energyDiffVec| ==> s.energyDiffVec[j] >= 0.0)
    && s.energyDiffSum == Sum(s.energyDiffVec)
    && (forall j :: 0 <= j < |s.timeVec| && s.timeVec[j] == 0.0 ==> s.trajInter[j] == 0.0)
    && (s.last.Some? <==> |s.timeVec| > 0)
    && (s.last.Some? ==> s.initEnergy.Some? && s.last.value.x == s.posX[|s.posX| - 1] && s.last.value.y == s.posY[|s.posY| - 1])
  }

  /** A line that is not a record leaves the series as they are. */
  lemma SeriesAgreeKept(s: RadState, s2: RadState)
    requires SeriesAgree(s)
    requires && s2.timeVec == s.timeVec && s2.posX == s.posX && s2.posY == s.posY
             && s2.trajInter == s.trajInter && s2.energyDiffVec == s.energyDiffVec
             && s2.energyDiffSum == s.energyDiffSum && s2.last == s.last && s2.initEnergy == s.initEnergy
    ensures SeriesAgree(s2)
  {
  }

  /** A record at time 0 adds a time, a position and a 0 trajectory entry, and binds the baseline. */
  lemma SeriesAgreeAtZero(s: RadState, s2: RadState, part: Particle)
    requires SeriesAgree(s)
    requires && s2.timeVec == s.timeVec + [0.0] && s2.posX == s.posX + [part.x] && s2.posY == s.posY + [part.y]
             && s2.trajInter == s.trajInter + [0.0] && s2.energyDiffVec == s.energyDiffVec
             && s2.energyDiffSum == s.energyDiffSum && s2.last == Some(part) && s2.initEnergy.Some?
    ensures SeriesAgree(s2)
  {
    assert s2.timeVec[..|s.timeVec|] == s.timeVec;
  }

  /** A record at another time also adds its energy difference and its trajectory entry. */
  lemma SeriesAgreeMoving(s: RadState, s2: RadState, t: real, part: Particle, diff: real)
    requires SeriesAgree(s)
    requires t != 0.0 && diff >= 0.0
    requires && s2.timeVec == s.timeVec + [t] && s2.posX == s.posX + [part.x] && s2.posY == s.posY + [part.y]
             && |s2.trajInter| == |s.trajInter| + 1 && s2.trajInter[..|s.trajInter|] == s.trajInter
             && s2.energyDiffVec == s.energyDiffVec + [diff]
             && s2.energyDiffSum == s.energyDiffSum + diff && s2.last == Some(part) && s2.initEnergy.Some?
    ensures SeriesAgree(s2)
  {
    assert s2.timeVec[..|s.timeVec|] == s.timeVec;
    SumAppend(s.energyDiffVec, diff);
    forall j | 0 <= j < |s2.timeVec| && s2.timeVec[j] == 0.0
      ensures s2.trajInter[j] == 0.0
    {
      assert j < |s.timeVec|;
      assert s2.trajInter[j] == s2.trajInter[..|s.trajInter|][j];
    }
  }

  /**
   * The loop state of `analyze_rad` after `n` lines: one series entry per
   * record so far, the series agreeing with each other, and a group waiting
   * for its time line exactly at the start and after a `*` line.
   */
  lemma RadFoldShape(lines: seq<LogLine>, n: nat, env: RadSetup)
    requires n <= |lines| && RadFold(lines, n, env).Ok?
    ensures var s := RadFold(lines, n, env).value;
      && s.restart == (n == 0 || RoleOf(lines, n - 1) == Sentinel)
      && s.pId == 0
      && |s.timeVec| == RecordCount(lines, n)
      && SeriesAgree(s)
  {
    RadFoldControl(lines, n, env);
    RadFoldSeries(lines, n, env);
  }

  /** The control state: `restart`, `p_id`, the group's time and the number of records so far. */
  lemma {:induction false} RadFoldControl(lines: seq<LogLine>, n: nat, env: RadSetup)
    requires n <= |lines| && RadFold(lines, n, env).Ok?
    ensures var s := RadFold(lines, n, env).value;
      && s.restart == (n == 0 || RoleOf(lines, n - 1) == Sentinel)
      && s.pId == 0
      && |s.timeVec| == RecordCount(lines, n)
  {
    if n > 0 {
      RadFoldControl(lines, n - 1, env);
      var s := RadFold(lines, n - 1, env).value;
      RadStepEffect(s, lines[n - 1], env);
      assert RadFold(lines, n, env).value == RadStep(s, lines[n - 1], env).value;
    }
  }

  lemma {:induction false} RadFoldSeries(lines: seq<LogLine>, n: nat, env: RadSetup)
    requires n <= |lines| && RadFold(lines, n, env).Ok?
    ensures SeriesAgree(RadFold(lines, n, env).value)
  {
    if n > 0 {
      RadFoldSeries(lines, n - 1, env);
      var s := RadFold(lines, n - 1, env).value;
      RadStepEffect(s, lines[n - 1], env);
      var s2 := RadFold(lines, n, env).value;
      assert s2 == RadStep(s, lines[n - 1], env).value;
      if s.restart || lines[n - 1].Star? {
        SeriesAgreeKept(s, s2);
      } else if s.time != 0.0 {
        var diff := s2.energyDiffVec[|s.energyDiffVec|];
        assert s2.energyDiffVec == s.energyDiffVec + [diff];
        assert s2.trajInter[..|s.trajInter|] == s.trajInter;
        SeriesAgreeMoving(s, s2, s.time, s2.last.value, diff);
      } else {
        SeriesAgreeAtZero(s, s2, s2.last.value);
      }
    }
  }

  /**
   * The trajectory length never decreases: every entry is at most the
   * running length, an entry at a time other than 0 is at least every
   * earlier one, and the last entry is the running length when its time is
   * not 0. While every record so far is at time 0 the running length is 0.
   */
  predicate TrajectoryGrows(s: RadState)
  {
    && |s.trajInter| == |s.timeVec|
    && s.trajSum >= 0.0
    && (forall j :: 0 <= j < |s.trajInter| ==> 0.0 <= s.trajInter[j] <= s.trajSum)
    && (forall j, m :: 0 <= j < m < |s.trajInter| && s.timeVec[m] != 0.0 ==> s.trajInter[j] <= s.trajInter[m])
    && (|s.timeVec| > 0 && s.timeVec[|s.timeVec| - 1] != 0.0 ==> s.trajInter[|s.trajInter| - 1] == s.trajSum)
    && ((forall j :: 0 <= j < |s.timeVec| ==> s.timeVec[j] == 0.0) ==> s.trajSum == 0.0)
  }

  /** A record at time 0 keeps the trajectory growing. */
  lemma TrajectoryGrowsAtZero(s: RadState, s2: RadState)
    requires TrajectoryGrows(s)
    requires s2.timeVec == s.timeVec + [0.0] && s2.trajInter == s.trajInter + [0.0] && s2.trajSum == s.trajSum
    ensures TrajectoryGrows(s2)
  {
    if forall j :: 0 <= j < |s2.timeVec| ==> s2.timeVec[j] == 0.0 {
      forall j | 0 <= j < |s.timeVec|
        ensures s.timeVec[j] == 0.0
      {
        assert s.timeVec[j] == s2.timeVec[j];
      }
    }
  }

  /** A record at another time, a distance `dist >= 0` from the previous one, keeps it growing. */
  lemma TrajectoryGrowsMoving(s: RadState, s2: RadState, t: real, dist: real)
    requires TrajectoryGrows(s)
    requires t != 0.0 && dist >= 0.0
    requires && s2.timeVec == s.timeVec + [t] && s2.trajSum == s.trajSum + dist
             && s2.trajInter == s.trajInter + [s2.trajSum]
    ensures TrajectoryGrows(s2)
  {
    assert s2.timeVec[|s.timeVec|] != 0.0;
  }

  /** With a true square root, the loop of `analyze_rad` keeps the trajectory growing. */
  lemma {:induction false} RadTrajectory(lines: seq<LogLine>, n: nat, env: RadSetup)
    requires IsSqrt(env.sqrt)
    requires n <= |lines| && RadFold(lines, n, env).Ok?
    ensures TrajectoryGrows(RadFold(lines, n, env).value)
  {
    if n > 0 {
      RadTrajectory(lines, n - 1, env);
      var s := RadFold(lines, n - 1, env).value;
      assert RadFold(lines, n, env) == RadStep(s, lines[n - 1], env);
      TrajectoryStep(s, lines[n - 1], env);
    }
  }

  /** One line of the log keeps the trajectory growing. */
  lemma TrajectoryStep(s: RadState, line: LogLine, env: RadSetup)
    requires IsSqrt(env.sqrt) && TrajectoryGrows(s) && RadStep(s, line, env).Ok?
    ensures TrajectoryGrows(RadStep(s, line, env).value)
  {
    RadStepEffect(s, line, env);
    var s2 := RadStep(s, line, env).value;
    if s.restart || line.Star? {
    } else if s.time != 0.0 {
      var dist := CenterDistance(env.sqrt, s2.last.value, s.last.value);
      DistancesAreSymmetric(env.sqrt, s2.last.value, s.last.value);
      TrajectoryGrowsMoving(s, s2, s.time, dist);
    } else {
      TrajectoryGrowsAtZero(s, s2);
    }
  }

  /** Every record at time 0 comes before every record at another time. */
  predicate ZeroTimesLead(times: seq<real>)
  {
    forall j, m :: 0 <= j < m < |times| && times[j] != 0.0 ==> times[m] != 0.0
  }

  /**
   * In a log whose time-0 records all come first, the cumulative trajectory
   * never decreases and its last entry is the total length.
   */
  lemma RadTrajectoryIsCumulative(lines: seq<LogLine>, env: RadSetup)
    requires IsSqrt(env.sqrt) && RadFold(lines, |lines|, env).Ok?
    requires ZeroTimesLead(RadFold(lines, |lines|, env).value.timeVec)
    ensures var s := RadFold(lines, |lines|, env).value;
      && (forall j, m :: 0 <= j < m < |s.trajInter| ==> s.trajInter[j] <= s.trajInter[m])
      && (|s.trajInter| > 0 ==> s.trajInter[|s.trajInter| - 1] == s.trajSum)
  {
    RadFoldShape(lines, |lines|, env);
    RadTrajectory(lines, |lines|, env);
    var s := RadFold(lines, |lines|, env).value;
    if |s.timeVec| > 0 && s.timeVec[|s.timeVec| - 1] == 0.0 {
      assert forall j :: 0 <= j < |s.timeVec| ==> s.timeVec[j] == 0.0;
    }
  }

  /** A record at a time other than 0 before any earlier record raises: `prev_part` is unbound. */
  lemma MovingFirstRecordRaises(lines: seq<LogLine>, n: nat, env: RadSetup)
    requires n < |lines| && RadFold(lines, n, env).Ok?
    requires RoleOf(lines, n) == Record && RecordCount(lines, n) == 0
    requires RadFold(lines, n, env).value.time != 0.0
    ensures RadFold(lines, n + 1, env).Err?
  {
    RadFoldShape(lines, n, env);
  }

  /**
   * `analyze_rad` succeeds exactly when the loop does and there was a
   * record; its results are the loop's series and the ending reason of the
   * last record, never `NotEnded`.
   */
  lemma RadAnalysisResult(lines: seq<LogLine>, env: RadSetup, d: real, algo: string, deltaT: real, v0: real)
    ensures RadAnalysis(lines, env, d, algo, deltaT, v0).Ok? <==>
      RadFold(lines, |lines|, env).Ok? && RecordCount(lines, |lines|) > 0
    ensures RadAnalysis(lines, env, d, algo, deltaT, v0).Ok? ==>
      var a := RadAnalysis(lines, env, d, algo, deltaT, v0).value;
      var s := RadFold(lines, |lines|, env).value;
      && a.endingMotive == GetEndingReason(s.last.value, 16.0 * d, 15.0 * d) && a.endingMotive != NotEnded
      && a.trajectoryTotal == s.trajSum && a.energyDiffSum == Sum(a.energyDiffVec)
      && a.timeVec == s.timeVec && a.trajectorySumInterdist == s.trajInter
  {
    if RadFold(lines, |lines|, env).Ok? {
      RadFoldShape(lines, |lines|, env);
    }
  }

  /** The loop body of `analyze_rad` for a record line: parse it, then add it to the series. */
  method AddRecord(s: RadState, tokens: Line, env: RadSetup) returns (r: Result<RadState, PyError>)
    requires !s.restart
    ensures r == RadStep(s, Pieces(tokens), env)
  {
    var v := ParseRecord(tokens, 4);
    if v.Err? {
      return Err(v.error);
    }
    var part := Particle(s.pId, v.value[0], v.value[1], v.value[2], v.value[3], 0.0, env.mass, env.charge);
    var timeVec, posX, posY := s.timeVec + [s.time], s.posX + [part.x], s.posY + [part.y];
    var pot := GetPotentialEnergy(env.sqrt, part, env.statics, env.k);
    if pot.Err? {
      return Err(pot.error);
    }
    var total := KineticEnergy(part) + pot.value;
    var initEnergy, trajInter, trajSum, energyDiffVec, energyDiffSum := s.initEnergy, s.trajInter, s.trajSum, s.energyDiffVec, s.energyDiffSum;
    if s.time != 0.0 {
      if s.last.None? || s.initEnergy.None? {
        return Err(UnboundLocalError);
      }
      var dist := CenterDistance(env.sqrt, part, s.last.value);
      trajSum := trajSum + dist;
      trajInter := trajInter + [trajSum];
      var diff := Abs(s.initEnergy.value - total);
      energyDiffSum := energyDiffSum + diff;
      energyDiffVec := energyDiffVec + [diff];
    } else {
      initEnergy := Some(total);
      trajInter := trajInter + [0.0];
    }
    r := Ok(RadState(false, s.pId, s.time, timeVec, posX, posY, energyDiffVec, energyDiffSum,
                     trajInter, trajSum, initEnergy, Some(part)));
  }

  /** One pass of `analyze_rad`'s line loop. */
  method RadLine(s: RadState, line: LogLine, env: RadSetup) returns (r: Result<RadState, PyError>)
    ensures r == RadStep(s, line, env)
  {
    if s.restart {
      var t := ParseTime(line);
      if t.Err? {
        return Err(t.error);
      }
      r := Ok(s.(restart := false, pId := 0, time := t.value));
    } else if line.Star? {
      r := Ok(s.(restart := true));
    } else {
      r := AddRecord(s, line.tokens, env);
    }
  }

  /** `analyze_rad`'s line loop: the state after every line, or the first error. */
  method RadLoop(lines: seq<LogLine>, env: RadSetup) returns (r: Result<RadState, PyError>)
    ensures r == RadFold(lines, |lines|, env)
  {
    var s := RadState(true, 0, 0.0, [], [], [], [], 0.0, [], 0.0, None, None);
    for i := 0 to |lines|
      invariant RadFold(lines, i, env) == Ok(s)
    {
      var next := RadLine(s, lines[i], env);
      if next.Err? {
        RadFailureIsFinal(lines, i + 1, |lines|, env);
        return Err(next.error);
      }
      s := next.value;
    }
    r := Ok(s);
  }

  /** `analyze_rad`: build the fixed charges, then the line loop, then the ending. */
  method AnalyzeRad(lines: seq<LogLine>, sqrt: real -> real, mass: real, k: real, n: int, d: real, q: real,
                    algo: string, deltaT: real, v0: real) returns (r: Result<AnalysisRad, PyError>)
    ensures r == RadAnalysis(lines, RadSetup(sqrt, StaticGrid(n, d, q), k, mass, q), d, algo, deltaT, v0)
  {
    var statics := BuildStaticParticles(n, d, q);
    var env := RadSetup(sqrt, statics, k, mass, q);
    var folded := RadLoop(lines, env);
    if folded.Err? {
      return Err(folded.error);
    }
    var s := folded.value;
    if s.last.None? || s.initEnergy.None? {
      return Err(UnboundLocalError);
    }
    r := Ok(AnalysisRad(algo, deltaT, v0, s.initEnergy.value, s.trajSum, s.energyDiffSum,
                        GetEndingReason(s.last.value, 16.0 * d, 15.0 * d),
                        s.timeVec, s.energyDiffVec, s.trajInter, s.posX, s.posY));
  }
}
