/**
 * The event-driven Brownian-motion simulation: reading the static file
 * (radius and mass per disc) and the dynamic file (position and velocity
 * per disc), building the first event queue, and the main loop that
 * triggers events until the big disc reaches a wall or the event budget is
 * spent.
 */
module Brownian {
  import opened Wrappers
  import opened RealMath
  import opened Particles
  import opened Events
  import opened EventQueues
  import opened Schedules
  import opened Readers

  /**
   * The largest value of `s` and its index, scanning left to right from
   * (-1.0, -1) and moving on only to a strictly larger value.
   */
  function FirstLargest(s: seq<real>): (real, int)
  {
    if s == [] then (-1.0, -1)
    else
      var best := FirstLargest(s[..|s| - 1]);
      if s[|s| - 1] > best.0 then (s[|s| - 1], |s| - 1) else best
  }

  /**
   * The scan picks the first index of a largest value; it stays -1 only when
   * no value exceeds -1.0 (in particular for no discs at all).
   */
  lemma {:induction false} FirstLargestIsFirstMaximum(s: seq<real>)
    ensures var (m, i) := FirstLargest(s);
      && -1 <= i < |s|
      && (i == -1 <==> forall k :: 0 <= k < |s| ==> s[k] <= -1.0)
      && (i == -1 ==> m == -1.0)
      && (i >= 0 ==>
            && m == s[i] && m > -1.0
            && (forall k :: 0 <= k < |s| ==> s[k] <= s[i])
            && (forall k :: 0 <= k < i ==> s[k] < s[i]))
  {
    if s != [] {
      var front := s[..|s| - 1];
      FirstLargestIsFirstMaximum(front);
      assert forall k :: 0 <= k < |front| ==> front[k] == s[k];
    }
  }

  predicate Distinct(ps: seq<Particle>)
  {
    forall i, j :: 0 <= i < j < |ps| ==> ps[i] != ps[j]
  }

  /**
   * `fillProperties`: read one "radius mass" line per disc into the two
   * arrays and return the index of the first largest radius.
   */
  method FillProperties(reader: LineReader, radius: array<real>, mass: array<real>) returns (res: Result<int, ReadError>)
    requires radius != mass
    modifies reader, radius, mass
    ensures radius.Length != mass.Length ==> res == Err(IllegalArgumentException) && reader.lines == old(reader.lines)
    ensures radius.Length == mass.Length ==>
      var rows := Rows(old(reader.lines), radius.Length, 2);
      && (rows.Err? ==> res == Err(rows.error))
      && (rows.Ok? ==>
            && res.Ok?
            && (forall i :: 0 <= i < radius.Length ==> radius[i] == rows.value[i][0] && mass[i] == rows.value[i][1])
            && res.value == FirstLargest(radius[..]).1
            && reader.lines == old(reader.lines)[radius.Length..])
  {
    if radius.Length != mass.Length {
      return Err(IllegalArgumentException);
    }
    ghost var lines := reader.lines;
    ghost var rows: seq<seq<real>> := [];
    var maxRadius, maxRadiusIndex := -1.0, -1;
    for i := 0 to radius.Length
      invariant Rows(lines, i, 2) == Ok(rows) && reader.lines == lines[i..]
      invariant forall k :: 0 <= k < i ==> radius[k] == rows[k][0] && mass[k] == rows[k][1]
      invariant (maxRadius, maxRadiusIndex) == FirstLargest(radius[..i])
    {
      var line := reader.ReadLine();
      if line.None? {
        RowsFailureIsFinal(lines, i + 1, radius.Length, 2);
        return Err(IOException);
      }
      var props := line.value;
      assert props == lines[i];
      var r := Field(props, 0);
      if r.Err? {
        FieldsFailAtFirstBadPiece(props, 2, 0);
        RowsFailureIsFinal(lines, i + 1, radius.Length, 2);
        return Err(r.error);
      }
      radius[i] := r.value;
      var m := Field(props, 1);
      if m.Err? {
        FieldsFailAtFirstBadPiece(props, 2, 1);
        RowsFailureIsFinal(lines, i + 1, radius.Length, 2);
        return Err(m.error);
      }
      mass[i] := m.value;
      TwoFields(props);
      RowsStep(lines, i, 2);
      rows := rows + [[r.value, m.value]];
      assert radius[..i + 1] == radius[..i] + [radius[i]];
      if radius[i] > maxRadius {
        maxRadius := radius[i];
        maxRadiusIndex := i;
      }
    }
    assert radius[..] == radius[..radius.Length];
    return Ok(maxRadiusIndex);
  }

  /** The four `Double.parseDouble` calls of a "x y vx vy" line, left to right. */
  method ParseMotion(values: Line) returns (r: Result<seq<real>, ReadError>)
    ensures r == Fields(values, 4)
  {
    var x := Field(values, 0);
    if x.Err? {
      FieldsFailAtFirstBadPiece(values, 4, 0);
      return Err(x.error);
    }
    assert Fields(values, 0).Ok? && Fields(values, 0).value == [];
    assert Fields(values, 1).Ok? && Fields(values, 1).value == [x.value];
    var y := Field(values, 1);
    if y.Err? {
      FieldsFailAtFirstBadPiece(values, 4, 1);
      return Err(y.error);
    }
    var vx := Field(values, 2);
    assert Fields(values, 2).Ok? && Fields(values, 2).value == [x.value, y.value];
    if vx.Err? {
      FieldsFailAtFirstBadPiece(values, 4, 2);
      return Err(vx.error);
    }
    var vy := Field(values, 3);
    assert Fields(values, 3).Ok? && Fields(values, 3).value == [x.value, y.value, vx.value];
    if vy.Err? {
      FieldsFailAtFirstBadPiece(values, 4, 3);
      return Err(vy.error);
    }
    assert Fields(values, 4).Ok? && Fields(values, 4).value == [x.value, y.value, vx.value, vy.value];
    r := Ok([x.value, y.value, vx.value, vy.value]);
  }

  /**
   * `createParticleList`: one "x y vx vy" line per disc; disc i gets id i
   * and the i-th radius and mass. A line left over after the last disc is
   * an IOException too.
   */
  method CreateParticleList(reader: LineReader, radius: array<real>, mass: array<real>) returns (res: Result<seq<Particle>, ReadError>)
    modifies reader
    ensures radius.Length != mass.Length ==> res == Err(IllegalArgumentException)
    ensures radius.Length == mass.Length ==>
      var n, rows := radius.Length, Rows(old(reader.lines), radius.Length, 4);
      && (rows.Err? ==> res == Err(rows.error))
      && (rows.Ok? && |old(reader.lines)| > n ==> res == Err(IOException))
      && (rows.Ok? && |old(reader.lines)| == n ==>
            && res.Ok? && |res.value| == n && Distinct(res.value)
            && forall i :: 0 <= i < n ==>
                 var p := res.value[i];
                 && fresh(p) && p.id == i && p.r == radius[i] && p.m == mass[i] && p.collisionCount == 0
                 && p.x == rows.value[i][0] && p.y == rows.value[i][1]
                 && p.vx == rows.value[i][2] && p.vy == rows.value[i][3])
  {
    if radius.Length != mass.Length {
      return Err(IllegalArgumentException);
    }
    ghost var lines := reader.lines;
    var particles: seq<Particle> := [];
    var i := 0;
    while i < radius.Length
      invariant 0 <= i <= radius.Length
      invariant Rows(lines, i, 4).Ok? && reader.lines == lines[i..]
      invariant |particles| == i && Distinct(particles)
      invariant forall k :: 0 <= k < i ==>
        var p := particles[k];
        && fresh(p) && p.id == k && p.r == radius[k] && p.m == mass[k] && p.collisionCount == 0
        && p.x == Rows(lines, i, 4).value[k][0] && p.y == Rows(lines, i, 4).value[k][1]
        && p.vx == Rows(lines, i, 4).value[k][2] && p.vy == Rows(lines, i, 4).value[k][3]
    {
      var line := reader.ReadLine();
      if line.None? {
        RowsFailureIsFinal(lines, i + 1, radius.Length, 4);
        return Err(IOException);
      }
      assert line.value == lines[i];
      var row := ParseMotion(line.value);
      if row.Err? {
        RowsFailureIsFinal(lines, i + 1, radius.Length, 4);
        return Err(row.error);
      }
      var x, y, vx, vy := row.value[0], row.value[1], row.value[2], row.value[3];
      var p := new Particle(i, x, y, vx, vy, radius[i], mass[i]);
      particles := particles + [p];
      i := i + 1;
    }
    var extra := reader.ReadLine();
    if extra.Some? {
      return Err(IOException);
    }
    return Ok(particles);
  }

  /** How the main loop ends. */
  datatype Ending = ReachedMaxEvents | BigParticleAtWall | QueueExhausted

  /** The closing console message. */
  datatype Message = ReachedEventsMessage | ReachedBorderMessage | NoEventsLeftMessage

  /** `bigParticleToWall`: a wall event of the big disc (discs are equal when their ids are). */
  function BigParticleToWall(event: Event, big: Particle): (b: bool)
    ensures event.Shaped() ==> (b <==> event.particle2 == null && event.particle1.id == big.id)
  {
    event.IsWallType() && event.particle1.Equals(big)
  }

  /** `particles.forEach(p -> p.advanceTime(dt))`: every disc flies freely for dt. */
  method AdvanceAll(particles: seq<Particle>, dt: real)
    requires Distinct(particles)
    modifies set p | p in particles
    ensures forall k :: 0 <= k < |particles| ==>
      var p := particles[k];
      && p.x == Flight(old(p.x), old(p.vx), dt) && p.y == Flight(old(p.y), old(p.vy), dt)
      && p.vx == old(p.vx) && p.vy == old(p.vy) && p.collisionCount == old(p.collisionCount)
  {
    var i := 0;
    while i < |particles|
      invariant 0 <= i <= |particles|
      invariant forall k :: 0 <= k < i ==>
        var p := particles[k];
        p.x == Flight(old(p.x), old(p.vx), dt) && p.y == Flight(old(p.y), old(p.vy), dt)
      invariant forall k :: i <= k < |particles| ==>
        particles[k].x == old(particles[k].x) && particles[k].y == old(particles[k].y)
      invariant forall k :: 0 <= k < |particles| ==>
        var p := particles[k];
        p.vx == old(p.vx) && p.vy == old(p.vy) && p.collisionCount == old(p.collisionCount)
    {
      particles[i].AdvanceTime(dt);
      i := i + 1;
    }
  }

  /** Discs with a positive radius and mass, which every collision formula divides by. */
  predicate Physical(particles: seq<Particle>)
  {
    forall p :: p in particles ==> p.r > 0.0 && p.m > 0.0
  }

  /** Every queued event is well formed, of discs of the simulation, and its snapshot is not ahead of the counts. */
  predicate QueueOk(es: seq<Event>, particles: seq<Particle>)
    reads set p | p in particles
  {
    forall e :: e in es ==>
      && e.Shaped() && e.particle1 in particles
      && (e.particle2 != null ==> e.particle2 in particles && e.particle2 != e.particle1)
      && e.Behind()
  }

  /**
   * The simulation's static state: the clock `time`, the side `L` of the
   * square box and the event budget `maxEvents`.
   */
  class BrownianMotion {
    var time: real
    const side: real
    const maxEvents: int

    /** `maxEvents <= 0` is refused when the configuration is read. */
    constructor(time: real, side: real, maxEvents: int)
      requires maxEvents > 0
      ensures this.time == time && this.side == side && this.maxEvents == maxEvents
    {
      this.time := time;
      this.side := side;
      this.maxEvents := maxEvents;
    }

    /** The wall events of one disc, vertical first, as both scheduling loops add them. */
    method ScheduleWalls(queue: EventQueue, p: Particle)
      modifies queue
      ensures DescribeAll(queue.events) == old(DescribeAll(queue.events) + WallPlans(p, time, side))
      ensures |queue.events| >= |old(queue.events)| && queue.events[..|old(queue.events)|] == old(queue.events)
    {
      var tc := p.CollidesX(0.0, side);
      if tc.Some? {
        var e := new Event.Wall(time + tc.value, p, true);
        DescribeAppend(queue.events, e);
        queue.Add(e);
      }
      tc := p.CollidesY(0.0, side);
      if tc.Some? {
        var e := new Event.Wall(time + tc.value, p, false);
        DescribeAppend(queue.events, e);
        queue.Add(e);
      }
    }

    /** The pair events of disc `p` with each disc of `others` it will touch, in their order. */
    method SchedulePairs(sqrt: real -> real, queue: EventQueue, p: Particle, others: seq<Particle>)
      modifies queue
      ensures DescribeAll(queue.events) == old(DescribeAll(queue.events) + PairPlans(sqrt, p, others, time))
      ensures |queue.events| >= |old(queue.events)| && queue.events[..|old(queue.events)|] == old(queue.events)
    {
      ghost var start := queue.events;
      var j := 0;
      while j < |others|
        invariant 0 <= j <= |others|
        invariant DescribeAll(queue.events) == DescribeAll(start) + old(PairPlans(sqrt, p, others[..j], time))
        invariant |queue.events| >= |start| && queue.events[..|start|] == start
      {
        var other := others[j];
        var tc := p.Collides(sqrt, other);
        assert others[..j + 1][..j] == others[..j];
        assert old(PairPlans(sqrt, p, others[..j + 1], time))
          == old(PairPlans(sqrt, p, others[..j], time)) + (if tc.Some? then [Planned(time + tc.value, p, other, TwoParticles, p.collisionCount, other.collisionCount)] else []);
        if tc.Some? {
          var e := new Event.Pair(time + tc.value, p, other);
          DescribeAppend(queue.events, e);
          queue.Add(e);
        }
        j := j + 1;
      }
      assert others[..j] == others;
    }

    /**
     * `createQueueFromList`: for each disc its wall events, then its pair
     * events with the discs after it; every new event is valid.
     */
    method CreateQueueFromList(sqrt: real -> real, particles: seq<Particle>) returns (queue: EventQueue)
      ensures fresh(queue)
      ensures DescribeAll(queue.events) == InitialPlans(sqrt, particles, |particles|, time, side)
    {
      queue := new EventQueue();
      for i := 0 to |particles|
        invariant fresh(queue)
        invariant DescribeAll(queue.events) == InitialPlans(sqrt, particles, i, time, side)
      {
        ScheduleNext(sqrt, queue, particles, i);
      }
    }

    /** Disc `i` of the initial queue: its wall events, then its pairs with the discs after it. */
    method ScheduleNext(sqrt: real -> real, queue: EventQueue, particles: seq<Particle>, i: nat)
      requires i < |particles|
      requires DescribeAll(queue.events) == InitialPlans(sqrt, particles, i, time, side)
      modifies queue
      ensures DescribeAll(queue.events) == InitialPlans(sqrt, particles, i + 1, time, side)
    {
      ScheduleDisc(sqrt, queue, particles[i], particles[i + 1..]);
      InitialPlansStep(sqrt, particles, i, time, side);
    }

    /**
     * `addFutureCollisions`: nothing for a missing disc; otherwise its wall
     * events and its pair events with every disc, appended to the queue.
     */
    method AddFutureCollisions(sqrt: real -> real, queue: EventQueue, particle: Particle?, particles: seq<Particle>)
      modifies queue
      ensures DescribeAll(queue.events) == old(DescribeAll(queue.events) + FuturePlans(sqrt, particle, particles, time, side))
      ensures |queue.events| >= |old(queue.events)| && queue.events[..|old(queue.events)|] == old(queue.events)
    {
      if particle != null {
        ScheduleDisc(sqrt, queue, particle, particles);
      }
    }

    /** The wall events of `p`, then its pair events with each of `others`, appended to the queue. */
    method ScheduleDisc(sqrt: real -> real, queue: EventQueue, p: Particle, others: seq<Particle>)
      modifies queue
      ensures DescribeAll(queue.events) == old(DescribeAll(queue.events)) + (WallPlans(p, time, side) + PairPlans(sqrt, p, others, time))
      ensures |queue.events| >= |old(queue.events)| && queue.events[..|old(queue.events)|] == old(queue.events)
    {
      ghost var start := queue.events;
      ghost var walls, pairs := WallPlans(p, time, side), PairPlans(sqrt, p, others, time);
      ScheduleWalls(queue, p);
      ghost var middle := queue.events;
      assert pairs == PairPlans(sqrt, p, others, time);
      SchedulePairs(sqrt, queue, p, others);
      AppendedTwice(start, middle, queue.events, walls, pairs);
    }

    /**
     * The body of the main loop for a valid event: advance every disc to
     * the event's time and stop at a wall event of the big disc, otherwise
     * go on to `Perform`.
     */
    method Trigger(sqrt: real -> real, queue: EventQueue, event: Event, particles: seq<Particle>, big: Particle) returns (stop: bool)
      requires Distinct(particles) && Physical(particles)
      requires event.Shaped() && event.particle1 in particles
      requires event.particle2 != null ==> event.particle2 in particles && event.particle2 != event.particle1
      modifies this, queue, set p | p in particles
      ensures time == event.time
      ensures stop == BigParticleToWall(event, big)
      ensures forall k :: 0 <= k < |particles| ==>
        var p := particles[k];
        p.x == Flight(old(p.x), old(p.vx), event.time - old(time)) && p.y == Flight(old(p.y), old(p.vy), event.time - old(time))
      ensures stop ==> queue.events == old(queue.events)
      ensures stop ==> forall k :: 0 <= k < |particles| ==>
        var p := particles[k];
        p.vx == old(p.vx) && p.vy == old(p.vy) && p.collisionCount == old(p.collisionCount)
      ensures !stop ==> forall k :: 0 <= k < |particles| ==>
        var p := particles[k];
        p.collisionCount == old(p.collisionCount) + (if p == event.particle1 || p == event.particle2 then 1 else 0)
      ensures !stop ==> forall k :: 0 <= k < |particles| ==>
        var p := particles[k];
        p != event.particle1 && p != event.particle2 ==> p.vx == old(p.vx) && p.vy == old(p.vy)
      ensures !stop && event.kind == VerticalWall ==>
        event.particle1.vx == -old(event.particle1.vx) && event.particle1.vy == old(event.particle1.vy)
      ensures !stop && event.kind == HorizontalWall ==>
        event.particle1.vx == old(event.particle1.vx) && event.particle1.vy == -old(event.particle1.vy)
      ensures !stop && event.kind == TwoParticles ==>
        var p, q := event.particle1, event.particle2;
        var jmp := Impulse(q.x - p.x, q.y - p.y, old(q.vx) - old(p.vx), old(q.vy) - old(p.vy), p.r + q.r, p.m, q.m);
        && p.vx == old(p.vx) + jmp.0 / p.m && p.vy == old(p.vy) + jmp.1 / p.m
        && q.vx == old(q.vx) - jmp.0 / q.m && q.vy == old(q.vy) - jmp.1 / q.m
      ensures !stop ==>
        && |queue.events| >= |old(queue.events)| && queue.events[..|old(queue.events)|] == old(queue.events)
        && DescribeAll(queue.events) == old(DescribeAll(queue.events))
             + FuturePlans(sqrt, event.particle1, particles, time, side)
             + FuturePlans(sqrt, event.particle2, particles, time, side)
    {
      var eventTime := event.time;
      AdvanceAll(particles, eventTime - time);
      time := eventTime;
      if BigParticleToWall(event, big) {
        return true;
      }
      Perform(sqrt, queue, event, particles);
      return false;
    }

    /**
     * Perform the event (its discs bounce) and schedule the future events
     * of both its discs; a wall event has no second disc and adds nothing
     * for it.
     */
    method Perform(sqrt: real -> real, queue: EventQueue, event: Event, particles: seq<Particle>)
      requires Physical(particles)
      requires event.Shaped() && event.particle1 in particles
      requires event.particle2 != null ==> event.particle2 in particles && event.particle2 != event.particle1
      modifies queue, set p | p in particles
      ensures forall k :: 0 <= k < |particles| ==>
        var p := particles[k];
        && p.x == old(p.x) && p.y == old(p.y)
        && p.collisionCount == old(p.collisionCount) + (if p == event.particle1 || p == event.particle2 then 1 else 0)
        && (p != event.particle1 && p != event.particle2 ==> p.vx == old(p.vx) && p.vy == old(p.vy))
      ensures event.kind == VerticalWall ==>
        event.particle1.vx == -old(event.particle1.vx) && event.particle1.vy == old(event.particle1.vy)
      ensures event.kind == HorizontalWall ==>
        event.particle1.vx == old(event.particle1.vx) && event.particle1.vy == -old(event.particle1.vy)
      ensures event.kind == TwoParticles ==>
        var p, q := event.particle1, event.particle2;
        var jmp := old(Impulse(q.x - p.x, q.y - p.y, q.vx - p.vx, q.vy - p.vy, p.r + q.r, p.m, q.m));
        && p.vx == old(p.vx) + jmp.0 / p.m && p.vy == old(p.vy) + jmp.1 / p.m
        && q.vx == old(q.vx) - jmp.0 / q.m && q.vy == old(q.vy) - jmp.1 / q.m
      ensures |queue.events| >= |old(queue.events)| && queue.events[..|old(queue.events)|] == old(queue.events)
      ensures DescribeAll(queue.events) == old(DescribeAll(queue.events))
        + FuturePlans(sqrt, event.particle1, particles, time, side)
        + FuturePlans(sqrt, event.particle2, particles, time, side)
    {
      event.PerformEvent();
      ghost var first := FuturePlans(sqrt, event.particle1, particles, time, side);
      ghost var second := FuturePlans(sqrt, event.particle2, particles, time, side);
      AddFutureCollisions(sqrt, queue, event.particle1, particles);
      assert second == FuturePlans(sqrt, event.particle2, particles, time, side);
      AddFutureCollisions(sqrt, queue, event.particle2, particles);
      assert first == FuturePlans(sqrt, event.particle1, particles, time, side);
    }

    /**
     * `Trigger`, stated on snapshots of the discs so that it can be recorded
     * poll by poll: the discs change as `Triggered` says and the queue gains
     * what `Scheduled` lists.
     */
    method TriggerRecorded(sqrt: real -> real, queue: EventQueue, event: Event, particles: seq<Particle>, big: Particle) returns (stop: bool)
      requires Distinct(particles) && Physical(particles)
      requires event.Shaped() && event.particle1 in particles
      requires event.particle2 != null ==> event.particle2 in particles && event.particle2 != event.particle1
      modifies this, queue, set p | p in particles
      ensures stop == BigParticleToWall(event, big)
      ensures time == event.time
      ensures forall p :: p in particles ==> old(p.collisionCount) <= p.collisionCount
      ensures Triggered(particles, old(Snap(particles)), old(time), event, stop, Snap(particles))
      ensures |queue.events| >= |old(queue.events)| && queue.events[..|old(queue.events)|] == old(queue.events)
      ensures DescribeAll(queue.events[|old(queue.events)|..]) == Scheduled(sqrt, event, stop, particles, Snap(particles), side)
    {
      ghost var rest := queue.events;
      stop := Trigger(sqrt, queue, event, particles, big);
      FuturePlansOfSnap(sqrt, event.particle1, particles, time, side);
      FuturePlansOfSnap(sqrt, event.particle2, particles, time, side);
      if !stop {
        SuffixDescribes(queue.events, rest, FuturePlans(sqrt, event.particle1, particles, time, side),
                        FuturePlans(sqrt, event.particle2, particles, time, side));
      } else {
        assert queue.events[|rest|..] == [];
      }
    }

    /** `TriggerRecorded` for an event taken from a well-formed queue: the queue stays well formed. */
    method TriggerKeepingQueue(sqrt: real -> real, queue: EventQueue, event: Event, particles: seq<Particle>, big: Particle) returns (stop: bool)
      requires Distinct(particles) && Physical(particles)
      requires QueueOk(queue.events, particles)
      requires event.Shaped() && event.particle1 in particles
      requires event.particle2 != null ==> event.particle2 in particles && event.particle2 != event.particle1
      modifies this, queue, set p | p in particles
      ensures stop == BigParticleToWall(event, big)
      ensures time == event.time
      ensures QueueOk(queue.events, particles)
      ensures forall p :: p in particles ==> old(p.collisionCount) <= p.collisionCount
      ensures Triggered(particles, old(Snap(particles)), old(time), event, stop, Snap(particles))
      ensures |queue.events| >= |old(queue.events)| && queue.events[..|old(queue.events)|] == old(queue.events)
      ensures DescribeAll(queue.events[|old(queue.events)|..]) == Scheduled(sqrt, event, stop, particles, Snap(particles), side)
    {
      ghost var rest := queue.events;
      stop := TriggerRecorded(sqrt, queue, event, particles, big);
      assert forall e :: e in rest ==>
        e.particle1.collisionCount >= old(e.particle1.collisionCount)
        && (e.particle2 != null ==> e.particle2.collisionCount >= old(e.particle2.collisionCount));
      assert QueueOk(rest, particles);
      ghost var added := queue.events[|rest|..];
      assert queue.events == rest + added;
      if !stop {
        FuturePlansOfSnap(sqrt, event.particle1, particles, time, side);
        FuturePlansOfSnap(sqrt, event.particle2, particles, time, side);
        FuturePlansAmongDiscs(sqrt, event.particle1, particles, time, side);
        FuturePlansAmongDiscs(sqrt, event.particle2, particles, time, side);
        AmongDiscsAppend(FuturePlans(sqrt, event.particle1, particles, time, side),
                         FuturePlans(sqrt, event.particle2, particles, time, side), particles);
      }
      QueueOkFromPlans(added, particles);
      QueueOkAppend(rest, added, particles);
    }

    /**
     * One pass of the main loop: take an earliest event; a stale one is
     * dropped, a valid one triggered. `added` are the events it schedules.
     */
    method PollOnce(sqrt: real -> real, queue: EventQueue, particles: seq<Particle>, big: Particle)
      returns (event: Event, wasValid: bool, stop: bool, ghost added: seq<Event>)
      requires Distinct(particles) && Physical(particles)
      requires |queue.events| > 0 && QueueOk(queue.events, particles)
      modifies this, queue, set p | p in particles
      ensures stop == (wasValid && BigParticleToWall(event, big))
      ensures PollStep(sqrt, particles, big, side, old(queue.events), old(Snap(particles)), old(time),
                       event, wasValid, added, queue.events, Snap(particles), time)
      ensures !wasValid ==> |queue.events| == |old(queue.events)| - 1
      ensures QueueOk(queue.events, particles)
      ensures forall p :: p in particles ==> old(p.collisionCount) <= p.collisionCount
    {
      ghost var before := Snap(particles);
      event := queue.Poll();
      ghost var remaining := queue.events;
      assert event in old(queue.events);
      SnapOf(particles, event.particle1);
      if event.particle2 != null {
        SnapOf(particles, event.particle2);
      }
      wasValid := event.IsValid();
      assert wasValid == ValidIn(event, particles, before);
      stop := false;
      added := [];
      if wasValid {
        stop := TriggerKeepingQueue(sqrt, queue, event, particles, big);
        added := queue.events[|remaining|..];
        assert queue.events == remaining + added;
      }
      PollStepIntro(sqrt, particles, big, side, old(queue.events), before, old(time), event, wasValid,
                    remaining, added, queue.events, Snap(particles), time);
    }

    /**
     * The main loop: build the queue, then repeatedly take an earliest
     * event; a stale one is dropped without counting; a valid one is
     * triggered and counted, unless it is the big disc's wall event, which
     * ends the run. The loop also ends when the budget is spent or the
     * queue is empty.
     *
     * The ghost results record the run: poll k takes `polled[k]` from
     * `queues[k]` with the discs in `states[k]` and the clock at
     * `clocks[k]`, finds it valid or not (`valid[k]`), schedules
     * `addeds[k]` and leaves `queues[k + 1]`, `states[k + 1]` and
     * `clocks[k + 1]`.
     */
    method Simulate(sqrt: real -> real, particles: seq<Particle>, big: Particle)
      returns (eventsTriggered: int, ending: Ending, ghost polled: seq<Event>, ghost valid: seq<bool>,
               ghost queues: seq<seq<Event>>, ghost addeds: seq<seq<Event>>, ghost states: seq<seq<Disc>>, ghost clocks: seq<real>)
      requires maxEvents > 0
      requires Distinct(particles) && Physical(particles)
      modifies this, set p | p in particles
      ensures 0 <= eventsTriggered <= maxEvents
      ensures ending == ReachedMaxEvents <==> eventsTriggered == maxEvents
      ensures forall p :: p in particles ==> old(p.collisionCount) <= p.collisionCount
      ensures old(InitialPlans(sqrt, particles, |particles|, time, side)) == [] ==>
        ending == QueueExhausted && eventsTriggered == 0
      ensures Run(sqrt, particles, big, side, polled, valid, addeds, queues, states, clocks)
      ensures DescribeAll(queues[0]) == old(InitialPlans(sqrt, particles, |particles|, time, side))
      ensures states[0] == old(Snap(particles)) && clocks[0] == old(time)
      ensures states[|polled|] == Snap(particles) && clocks[|polled|] == time
      ensures ending == BigParticleAtWall ==>
        && |polled| > 0 && valid[|valid| - 1] && BigParticleToWall(polled[|polled| - 1], big)
        && eventsTriggered == ValidCount(valid) - 1
      ensures ending != BigParticleAtWall ==> eventsTriggered == ValidCount(valid)
      ensures forall k :: 0 <= k < |polled| && valid[k] && BigParticleToWall(polled[k], big) ==>
        ending == BigParticleAtWall && k == |polled| - 1
      ensures ending == QueueExhausted ==> queues[|polled|] == [] && eventsTriggered < maxEvents
    {
      ghost var plans, st0 := InitialPlans(sqrt, particles, |particles|, time, side), Snap(particles);
      var queue := CreateQueueFromList(sqrt, particles);
      InitialPlansAmongDiscs(sqrt, particles, |particles|, time, side);
      QueueOkFromPlans(queue.events, particles);
      assert DescribeAll(queue.events) == plans && Snap(particles) == st0;
      var stopped;
      eventsTriggered, stopped, polled, valid, queues, addeds, states, clocks := PollLoop(sqrt, queue, particles, big);
      ending := if stopped then BigParticleAtWall else if eventsTriggered == maxEvents then ReachedMaxEvents else QueueExhausted;
    }

    /**
     * One pass of the loop, recorded: `PollOnce`, with the recorded run
     * extended by that poll from where it left off.
     */
    method PollRecorded(sqrt: real -> real, queue: EventQueue, particles: seq<Particle>, big: Particle,
                        ghost polled: seq<Event>, ghost valid: seq<bool>, ghost addeds: seq<seq<Event>>,
                        ghost queues: seq<seq<Event>>, ghost states: seq<seq<Disc>>, ghost clocks: seq<real>)
      returns (event: Event, wasValid: bool, stop: bool, ghost polled': seq<Event>, ghost valid': seq<bool>,
               ghost addeds': seq<seq<Event>>, ghost queues': seq<seq<Event>>, ghost states': seq<seq<Disc>>, ghost clocks': seq<real>)
      requires Distinct(particles) && Physical(particles) && QueueOk(queue.events, particles) && |queue.events| > 0
      requires Run(sqrt, particles, big, side, polled, valid, addeds, queues, states, clocks)
      requires queues[|polled|] == queue.events && states[|polled|] == Snap(particles) && clocks[|polled|] == time
      modifies this, queue, set p | p in particles
      ensures stop == (wasValid && BigParticleToWall(event, big))
      ensures polled' == polled + [event] && valid' == valid + [wasValid]
      ensures Run(sqrt, particles, big, side, polled', valid', addeds', queues', states', clocks')
      ensures queues'[0] == queues[0] && states'[0] == states[0] && clocks'[0] == clocks[0]
      ensures queues'[|polled'|] == queue.events && states'[|polled'|] == Snap(particles) && clocks'[|polled'|] == time
      ensures !wasValid ==> |queue.events| == |old(queue.events)| - 1
      ensures QueueOk(queue.events, particles)
      ensures forall p :: p in particles ==> old(p.collisionCount) <= p.collisionCount
    {
      ghost var added;
      event, wasValid, stop, added := PollOnce(sqrt, queue, particles, big);
      ghost var now := Snap(particles);
      RunExtends(sqrt, particles, big, side, polled, valid, addeds, queues, states, clocks,
                 event, wasValid, added, queue.events, now, time);
      polled', valid', addeds' := polled + [event], valid + [wasValid], addeds + [added];
      queues', states', clocks' := queues + [queue.events], states + [now], clocks + [time];
    }

    /**
     * The loop of `simulate` on a built queue: poll until the queue is
     * empty, `maxEvents` events were triggered, or the big disc reaches a
     * wall (`stopped`). The ghost results record the run as in `Simulate`.
     */
    method PollLoop(sqrt: real -> real, queue: EventQueue, particles: seq<Particle>, big: Particle)
      returns (eventsTriggered: int, stopped: bool, ghost polled: seq<Event>, ghost valid: seq<bool>,
               ghost queues: seq<seq<Event>>, ghost addeds: seq<seq<Event>>, ghost states: seq<seq<Disc>>, ghost clocks: seq<real>)
      requires maxEvents > 0
      requires Distinct(particles) && Physical(particles) && QueueOk(queue.events, particles)
      modifies this, queue, set p | p in particles
      ensures 0 <= eventsTriggered <= maxEvents
      ensures forall p :: p in particles ==> old(p.collisionCount) <= p.collisionCount
      ensures Run(sqrt, particles, big, side, polled, valid, addeds, queues, states, clocks)
      ensures queues[0] == old(queue.events) && states[0] == old(Snap(particles)) && clocks[0] == old(time)
      ensures queues[|polled|] == queue.events && states[|polled|] == Snap(particles) && clocks[|polled|] == time
      ensures old(queue.events) == [] ==> polled == [] && !stopped
      ensures stopped ==>
        && |polled| > 0 && valid[|valid| - 1] && BigParticleToWall(polled[|polled| - 1], big)
        && eventsTriggered == ValidCount(valid) - 1 && eventsTriggered < maxEvents
      ensures !stopped ==> eventsTriggered == ValidCount(valid) && (queue.events == [] || eventsTriggered == maxEvents)
      ensures forall k :: 0 <= k < |polled| && valid[k] && BigParticleToWall(polled[k], big) ==>
        stopped && k == |polled| - 1
    {
      eventsTriggered, stopped := 0, false;
      polled, valid, addeds := [], [], [];
      queues, states, clocks := [queue.events], [Snap(particles)], [time];
      ghost var start := queues[0];
      while |queue.events| > 0 && eventsTriggered < maxEvents
        invariant 0 <= eventsTriggered <= maxEvents
        invariant QueueOk(queue.events, particles)
        invariant forall p :: p in particles ==> old(p.collisionCount) <= p.collisionCount
        invariant start == [] ==> polled == []
        invariant Run(sqrt, particles, big, side, polled, valid, addeds, queues, states, clocks)
        invariant eventsTriggered == ValidCount(valid)
        invariant queues[0] == start && states[0] == old(Snap(particles)) && clocks[0] == old(time)
        invariant queues[|polled|] == queue.events && states[|polled|] == Snap(particles) && clocks[|polled|] == time
        invariant forall k :: 0 <= k < |polled| && valid[k] ==> !BigParticleToWall(polled[k], big)
        decreases maxEvents - eventsTriggered, |queue.events|
      {
        var event, wasValid, stop;
        event, wasValid, stop, polled, valid, addeds, queues, states, clocks :=
          PollRecorded(sqrt, queue, particles, big, polled, valid, addeds, queues, states, clocks);
        if stop {
          stopped := true;
          return;
        }
        if wasValid {
          eventsTriggered := eventsTriggered + 1;
        }
      }
    }
  }

  /** `isValid` on recorded states: each disc of the event still has the count the event recorded. */
  predicate ValidIn(e: Event, particles: seq<Particle>, st: seq<Disc>)
    requires |st| == |particles|
  {
    && DiscOf(particles, st, e.particle1).count == e.collisionCount1
    && (if e.particle2 != null then DiscOf(particles, st, e.particle2).count else 0) == e.collisionCount2
  }

  /**
   * The discs after triggering `e` with the clock at `clock`: every disc
   * flies to the event's time; unless the run stops there, the event's
   * discs count one more collision, and no other disc changes velocity.
   */
  predicate Triggered(particles: seq<Particle>, st: seq<Disc>, clock: real, e: Event, stop: bool, st': seq<Disc>)
  {
    && |st| == |particles| && |st'| == |particles|
    && forall i :: 0 <= i < |particles| ==>
      && st'[i].x == Flight(st[i].x, st[i].vx, e.time - clock)
      && st'[i].y == Flight(st[i].y, st[i].vy, e.time - clock)
      && st'[i].count == st[i].count + (if !stop && (particles[i] == e.particle1 || particles[i] == e.particle2) then 1 else 0)
      && (stop || (particles[i] != e.particle1 && particles[i] != e.particle2) ==> st'[i].vx == st[i].vx && st'[i].vy == st[i].vy)
  }

  /** What triggering `e` schedules: nothing when it stops the run, else the future events of both its discs. */
  function Scheduled(sqrt: real -> real, e: Event, stop: bool, particles: seq<Particle>, st: seq<Disc>, side: real): seq<Planned>
    requires |st| == |particles|
  {
    if stop then []
    else FuturePlansOf(sqrt, e.particle1, particles, st, e.time, side) + FuturePlansOf(sqrt, e.particle2, particles, st, e.time, side)
  }

  /**
   * One poll of the main loop on recorded values: `e` is an earliest event
   * of queue `q`; it is valid exactly when its recorded counts match the
   * discs `st`. A stale event is only removed. A valid one moves the clock
   * to its time, changes the discs as `Triggered` says and, unless it
   * stops the run, adds the future events of its discs.
   */
  predicate PollStep(sqrt: real -> real, particles: seq<Particle>, big: Particle, side: real,
                     q: seq<Event>, st: seq<Disc>, clock: real, e: Event, valid: bool, added: seq<Event>,
                     q': seq<Event>, st': seq<Disc>, clock': real)
  {
    && |st| == |particles| && |st'| == |particles|
    && e in q && IsEarliest(e, q)
    && valid == ValidIn(e, particles, st)
    && clock' == (if valid then e.time else clock)
    && multiset(q') == multiset(q) - multiset{e} + multiset(added)
    && (if valid then Triggered(particles, st, clock, e, BigParticleToWall(e, big), st') else st' == st)
    && DescribeAll(added) == (if valid then Scheduled(sqrt, e, BigParticleToWall(e, big), particles, st', side) else [])
  }

  /** `PollStep` from what one poll does: remove an earliest event, then, if it is valid, trigger it and append what that schedules. */
  lemma PollStepIntro(sqrt: real -> real, particles: seq<Particle>, big: Particle, side: real,
                      q: seq<Event>, st: seq<Disc>, clock: real, e: Event, valid: bool,
                      remaining: seq<Event>, added: seq<Event>, q': seq<Event>, st': seq<Disc>, clock': real)
    requires |st| == |particles| && |st'| == |particles|
    requires e in q && IsEarliest(e, q) && multiset(remaining) + multiset{e} == multiset(q)
    requires valid == ValidIn(e, particles, st)
    requires q' == remaining + added
    requires clock' == (if valid then e.time else clock)
    requires valid ==> Triggered(particles, st, clock, e, BigParticleToWall(e, big), st')
    requires valid ==> DescribeAll(added) == Scheduled(sqrt, e, BigParticleToWall(e, big), particles, st', side)
    requires !valid ==> st' == st && added == []
    ensures PollStep(sqrt, particles, big, side, q, st, clock, e, valid, added, q', st', clock')
  {
  }

  /**
   * A recorded run: poll k takes `polled[k]` from `queues[k]` with the discs
   * in `states[k]` and the clock at `clocks[k]`, and leaves `queues[k + 1]`,
   * `states[k + 1]` and `clocks[k + 1]`, as `PollStep` says.
   */
  predicate Run(sqrt: real -> real, particles: seq<Particle>, big: Particle, side: real,
                polled: seq<Event>, valid: seq<bool>, addeds: seq<seq<Event>>,
                queues: seq<seq<Event>>, states: seq<seq<Disc>>, clocks: seq<real>)
  {
    && |valid| == |polled| && |addeds| == |polled|
    && |queues| == |polled| + 1 && |states| == |polled| + 1 && |clocks| == |polled| + 1
    && forall k {:trigger polled[k]} :: 0 <= k < |polled| ==>
         PollStep(sqrt, particles, big, side, queues[k], states[k], clocks[k], polled[k], valid[k], addeds[k],
                  queues[k + 1], states[k + 1], clocks[k + 1])
  }

  /** A recorded run followed by one more poll from where it left off is a recorded run. */
  lemma RunExtends(sqrt: real -> real, particles: seq<Particle>, big: Particle, side: real,
                   polled: seq<Event>, valid: seq<bool>, addeds: seq<seq<Event>>,
                   queues: seq<seq<Event>>, states: seq<seq<Disc>>, clocks: seq<real>,
                   e: Event, v: bool, added: seq<Event>, q: seq<Event>, st: seq<Disc>, clock: real)
    requires Run(sqrt, particles, big, side, polled, valid, addeds, queues, states, clocks)
    requires PollStep(sqrt, particles, big, side, queues[|polled|], states[|polled|], clocks[|polled|], e, v, added, q, st, clock)
    ensures Run(sqrt, particles, big, side, polled + [e], valid + [v], addeds + [added], queues + [q], states + [st], clocks + [clock])
  {
    var n := |polled|;
    var polled', valid', addeds' := polled + [e], valid + [v], addeds + [added];
    var queues', states', clocks' := queues + [q], states + [st], clocks + [clock];
    forall k | 0 <= k < n + 1
      ensures PollStep(sqrt, particles, big, side, queues'[k], states'[k], clocks'[k], polled'[k], valid'[k], addeds'[k],
                       queues'[k + 1], states'[k + 1], clocks'[k + 1])
    {
      assert queues'[k] == queues[k] && states'[k] == states[k] && clocks'[k] == clocks[k];
      if k < n {
        assert polled'[k] == polled[k] && valid'[k] == valid[k] && addeds'[k] == addeds[k];
        assert queues'[k + 1] == queues[k + 1] && states'[k + 1] == states[k + 1] && clocks'[k + 1] == clocks[k + 1];
      }
    }
  }

  /** How many of the polled events were valid. */
  function ValidCount(valid: seq<bool>): (n: nat)
    ensures n <= |valid|
  {
    if valid == [] then 0 else ValidCount(valid[..|valid| - 1]) + (if valid[|valid| - 1] then 1 else 0)
  }


  /** Two rounds of scheduling, each extending the queue, extend it by both rounds' plans. */
  lemma AppendedTwice(start: seq<Event>, middle: seq<Event>, finish: seq<Event>, walls: seq<Planned>, pairs: seq<Planned>)
    requires |start| <= |middle| && middle[..|start|] == start && DescribeAll(middle) == DescribeAll(start) + walls
    requires |middle| <= |finish| && finish[..|middle|] == middle && DescribeAll(finish) == DescribeAll(middle) + pairs
    ensures |start| <= |finish| && finish[..|start|] == start
    ensures DescribeAll(finish) == DescribeAll(start) + (walls + pairs)
  {
    assert finish[..|start|] == finish[..|middle|][..|start|];
  }

  lemma QueueOkFromPlans(es: seq<Event>, particles: seq<Particle>)
    requires AmongDiscs(DescribeAll(es), particles)
    ensures QueueOk(es, particles)
  {
    forall e | e in es
      ensures e.Shaped() && e.particle1 in particles && e.Behind()
      ensures e.particle2 != null ==> e.particle2 in particles && e.particle2 != e.particle1
    {
      var k :| 0 <= k < |es| && es[k] == e;
      assert DescribeAll(es)[k] == Describe(e);
    }
  }

  lemma QueueOkAppend(a: seq<Event>, b: seq<Event>, particles: seq<Particle>)
    requires QueueOk(a, particles) && QueueOk(b, particles)
    ensures QueueOk(a + b, particles)
  {
  }

  lemma AmongDiscsAppend(a: seq<Planned>, b: seq<Planned>, particles: seq<Particle>)
    requires AmongDiscs(a, particles) && AmongDiscs(b, particles)
    ensures AmongDiscs(a + b, particles)
  {
  }

  /** What was appended after `rest` is described by `plans`. */
  lemma SuffixDescribes(es: seq<Event>, rest: seq<Event>, plans1: seq<Planned>, plans2: seq<Planned>)
    requires |es| >= |rest| && es[..|rest|] == rest
    requires DescribeAll(es) == DescribeAll(rest) + plans1 + plans2
    ensures es == rest + es[|rest|..]
    ensures DescribeAll(es[|rest|..]) == plans1 + plans2
  {
    var plans := plans1 + plans2;
    assert DescribeAll(es) == DescribeAll(rest) + plans;
    assert es == es[..|rest|] + es[|rest|..];
    forall k | 0 <= k < |plans|
      ensures DescribeAll(es[|rest|..])[k] == plans[k]
    {
      assert DescribeAll(es)[|rest| + k] == plans[k];
    }
  }

  /** The closing message as written: anything short of the budget is reported as the big disc reaching the border. */
  function EndMessageAsWritten(eventsTriggered: int, maxEvents: int): Message
  {
    if eventsTriggered == maxEvents then ReachedEventsMessage else ReachedBorderMessage
  }

  /** The closing message for how the loop actually ended. */
  function EndMessage(ending: Ending): (m: Message)
    ensures m == ReachedBorderMessage <==> ending == BigParticleAtWall
    ensures m == ReachedEventsMessage <==> ending == ReachedMaxEvents
  {
    match ending
    case ReachedMaxEvents => ReachedEventsMessage
    case BigParticleAtWall => ReachedBorderMessage
    case QueueExhausted => NoEventsLeftMessage
  }

  /** The two messages agree on every run that does not end with an empty queue. */
  lemma EndMessageAgreesUnlessExhausted(eventsTriggered: int, maxEvents: int, ending: Ending)
    requires ending == ReachedMaxEvents <==> eventsTriggered == maxEvents
    requires ending != QueueExhausted
    ensures EndMessage(ending) == EndMessageAsWritten(eventsTriggered, maxEvents)
  {
  }

  /** A run that ends because the queue is empty is reported as the big disc reaching the border. */
  lemma ExhaustedQueueIsMisreported(eventsTriggered: int, maxEvents: int)
    requires 0 <= eventsTriggered < maxEvents
    ensures EndMessageAsWritten(eventsTriggered, maxEvents) == ReachedBorderMessage
    ensures EndMessage(QueueExhausted) != EndMessageAsWritten(eventsTriggered, maxEvents)
  {
  }

  /** Discs that all rest schedule no pair events. */
  lemma {:induction false} RestingDiscsMeetNobody(sqrt: real -> real, p: Particle, others: seq<Particle>, now: real)
    requires p.vx == 0.0 && p.vy == 0.0
    requires forall o :: o in others ==> o.vx == 0.0 && o.vy == 0.0
    ensures PairPlans(sqrt, p, others, now) == []
  {
    if others != [] {
      var front, o := others[..|others| - 1], others[|others| - 1];
      assert forall q :: q in front ==> q in others;
      RestingDiscsMeetNobody(sqrt, p, front, now);
      assert ApproachProduct(o.x - p.x, o.y - p.y, o.vx - p.vx, o.vy - p.vy) == 0.0 by {
        assert o.vx - p.vx == 0.0 && o.vy - p.vy == 0.0;
      }
      assert p.Collides(sqrt, o).None?;
    }
  }

  /** When every disc rests, the first queue is empty, so the run ends with an empty queue and no event. */
  lemma {:induction false} RestingDiscsScheduleNothing(sqrt: real -> real, ps: seq<Particle>, n: nat, now: real, side: real)
    requires n <= |ps|
    requires forall p :: p in ps ==> p.vx == 0.0 && p.vy == 0.0
    ensures InitialPlans(sqrt, ps, n, now, side) == []
  {
    if n > 0 {
      RestingDiscsScheduleNothing(sqrt, ps, n - 1, now, side);
      RestingDiscsMeetNobody(sqrt, ps[n - 1], ps[n..], now);
    }
  }
}
