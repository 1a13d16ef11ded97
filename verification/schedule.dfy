/**
 * Which events the simulation schedules, stated as values: the time, the
 * discs and the kind of each event, in the order `createQueueFromList` and
 * `addFutureCollisions` add them to the queue.
 */
module Schedules {
  import opened RealMath
  import opened Particles
  import opened Events

  /** An event as a value: time, discs, kind and the collision counts it records. */
  datatype Planned = Planned(time: real, p1: Particle, p2: Particle?, kind: EventType, count1: int, count2: int)

  function Describe(e: Event): Planned
  {
    Planned(e.time, e.particle1, e.particle2, e.kind, e.collisionCount1, e.collisionCount2)
  }

  function DescribeAll(es: seq<Event>): (ds: seq<Planned>)
    ensures |ds| == |es| && forall i :: 0 <= i < |es| ==> ds[i] == Describe(es[i])
  {
    seq(|es|, i requires 0 <= i < |es| => Describe(es[i]))
  }

  lemma DescribeAppend(es: seq<Event>, e: Event)
    ensures DescribeAll(es + [e]) == DescribeAll(es) + [Describe(e)]
  {
  }

  /**
   * The wall events of disc `p` at time `now` in the box [0, side]^2: a
   * vertical wall event when it moves along x, then a horizontal wall event
   * when it moves along y.
   */
  function WallPlans(p: Particle, now: real, side: real): seq<Planned>
    reads p
  {
    var tx := p.CollidesX(0.0, side);
    var ty := p.CollidesY(0.0, side);
    (if tx.Some? then [Planned(now + tx.value, p, null, VerticalWall, p.collisionCount, 0)] else [])
    + (if ty.Some? then [Planned(now + ty.value, p, null, HorizontalWall, p.collisionCount, 0)] else [])
  }

  /**
   * One wall event per moving axis, each of `p` alone, recording its count,
   * and timed for the moment the disc touches that wall.
   */
  lemma WallPlansShape(p: Particle, now: real, side: real)
    ensures var ps := WallPlans(p, now, side);
      && |ps| == (if p.vx != 0.0 then 1 else 0) + (if p.vy != 0.0 then 1 else 0)
      && (forall k :: 0 <= k < |ps| ==>
            ps[k].p1 == p && ps[k].p2 == null && ps[k].kind != TwoParticles && ps[k].count1 == p.collisionCount && ps[k].count2 == 0)
      && (forall k :: 0 <= k < |ps| && ps[k].kind == VerticalWall ==>
            p.x + p.vx * (ps[k].time - now) == (if p.vx > 0.0 then side - p.r else p.r))
      && (forall k :: 0 <= k < |ps| && ps[k].kind == HorizontalWall ==>
            p.y + p.vy * (ps[k].time - now) == (if p.vy > 0.0 then side - p.r else p.r))
  {
  }

  /** The pair events of disc `p` with the discs of `others` it will touch, in their order. */
  function PairPlans(sqrt: real -> real, p: Particle, others: seq<Particle>, now: real): seq<Planned>
    reads p, set o | o in others
  {
    if others == [] then []
    else
      var o := others[|others| - 1];
      var t := p.Collides(sqrt, o);
      PairPlans(sqrt, p, others[..|others| - 1], now) + (if t.Some? then [Planned(now + t.value, p, o, TwoParticles, p.collisionCount, o.collisionCount)] else [])
  }

  /** At most one event per other disc, each a pair event of `p` with a different disc, recording both counts. */
  lemma {:induction false} PairPlansShape(sqrt: real -> real, p: Particle, others: seq<Particle>, now: real)
    ensures var ps := PairPlans(sqrt, p, others, now);
      && |ps| <= |others|
      && forall k :: 0 <= k < |ps| ==>
           && ps[k].p1 == p && ps[k].p2 != null && ps[k].p2 in others && ps[k].p2 != p
           && ps[k].kind == TwoParticles && ps[k].count1 == p.collisionCount && ps[k].count2 == ps[k].p2.collisionCount
  {
    if others != [] {
      PairPlansShape(sqrt, p, others[..|others| - 1], now);
    }
  }

  /**
   * Every planned event is of discs of `particles`, with a second and
   * different disc exactly for a pair event, and records their current
   * collision counts (0 for a missing second disc).
   */
  predicate AmongDiscs(plans: seq<Planned>, particles: seq<Particle>)
    reads set p | p in particles
  {
    forall k :: 0 <= k < |plans| ==>
      && plans[k].p1 in particles
      && (plans[k].kind == TwoParticles <==> plans[k].p2 != null)
      && (plans[k].p2 != null ==> plans[k].p2 in particles && plans[k].p2 != plans[k].p1)
      && plans[k].count1 == plans[k].p1.collisionCount
      && plans[k].count2 == (if plans[k].p2 != null then plans[k].p2.collisionCount else 0)
  }

  /** `createQueueFromList` up to disc `n`: for each disc its wall events, then its pairs with the discs after it. */
  function InitialPlans(sqrt: real -> real, ps: seq<Particle>, n: nat, now: real, side: real): seq<Planned>
    requires n <= |ps|
    reads set p | p in ps
  {
    if n == 0 then []
    else
      InitialPlans(sqrt, ps, n - 1, now, side) + WallPlans(ps[n - 1], now, side)
      + PairPlans(sqrt, ps[n - 1], ps[n..], now)
  }

  /** One more disc adds its wall events, then its pairs with the discs after it. */
  lemma InitialPlansStep(sqrt: real -> real, ps: seq<Particle>, n: nat, now: real, side: real)
    requires n < |ps|
    ensures InitialPlans(sqrt, ps, n + 1, now, side)
      == InitialPlans(sqrt, ps, n, now, side) + (WallPlans(ps[n], now, side) + PairPlans(sqrt, ps[n], ps[n + 1..], now))
  {
  }

  lemma {:induction false} InitialPlansAmongDiscs(sqrt: real -> real, ps: seq<Particle>, n: nat, now: real, side: real)
    requires n <= |ps|
    ensures AmongDiscs(InitialPlans(sqrt, ps, n, now, side), ps)
  {
    if n > 0 {
      InitialPlansAmongDiscs(sqrt, ps, n - 1, now, side);
      WallPlansShape(ps[n - 1], now, side);
      PairPlansShape(sqrt, ps[n - 1], ps[n..], now);
    }
  }

  /** `addFutureCollisions`: nothing for a missing disc, else its wall events and its pairs with every disc. */
  function FuturePlans(sqrt: real -> real, p: Particle?, particles: seq<Particle>, now: real, side: real): seq<Planned>
    reads p, set o | o in particles
  {
    if p == null then [] else WallPlans(p, now, side) + PairPlans(sqrt, p, particles, now)
  }

  /** The future events of a disc of the simulation are all among its discs; a missing disc has none. */
  lemma FuturePlansAmongDiscs(sqrt: real -> real, p: Particle?, particles: seq<Particle>, now: real, side: real)
    requires p == null || p in particles
    ensures p == null ==> FuturePlans(sqrt, p, particles, now, side) == []
    ensures AmongDiscs(FuturePlans(sqrt, p, particles, now, side), particles)
  {
    if p != null {
      WallPlansShape(p, now, side);
      PairPlansShape(sqrt, p, particles, now);
    }
  }

  /** In the initial queue every pair event is of a disc with a later disc, so no pair is scheduled twice. */
  lemma {:induction false} InitialPairsAreOrdered(sqrt: real -> real, ps: seq<Particle>, n: nat, now: real, side: real)
    requires n <= |ps|
    ensures forall k :: 0 <= k < |InitialPlans(sqrt, ps, n, now, side)| ==>
      var pl := InitialPlans(sqrt, ps, n, now, side)[k];
      pl.kind == TwoParticles ==> exists a, b :: 0 <= a < n && a < b < |ps| && pl.p1 == ps[a] && pl.p2 == ps[b]
  {
    if n > 0 {
      InitialPairsAreOrdered(sqrt, ps, n - 1, now, side);
      var front := InitialPlans(sqrt, ps, n - 1, now, side);
      var walls := WallPlans(ps[n - 1], now, side);
      var pairs := PairPlans(sqrt, ps[n - 1], ps[n..], now);
      WallPlansShape(ps[n - 1], now, side);
      PairPlansShape(sqrt, ps[n - 1], ps[n..], now);
      assert InitialPlans(sqrt, ps, n, now, side) == front + walls + pairs;
      forall k | 0 <= k < |front + walls + pairs| && (front + walls + pairs)[k].kind == TwoParticles
        ensures exists a, b :: 0 <= a < n && a < b < |ps| && (front + walls + pairs)[k].p1 == ps[a] && (front + walls + pairs)[k].p2 == ps[b]
      {
        if k < |front| {
          assert (front + walls + pairs)[k] == front[k];
        } else {
          var pl := pairs[k - |front| - |walls|];
          assert (front + walls + pairs)[k] == pl;
          var b :| 0 <= b < |ps[n..]| && ps[n..][b] == pl.p2;
          assert pl.p1 == ps[n - 1] && pl.p2 == ps[n + b];
        }
      }
    }
  }

  /** A disc inside the box reaches its walls no earlier than now. */
  lemma WallPlansNotInPast(p: Particle, now: real, side: real)
    requires p.r <= p.x <= side - p.r && p.r <= p.y <= side - p.r
    ensures forall k :: 0 <= k < |WallPlans(p, now, side)| ==> WallPlans(p, now, side)[k].time >= now
  {
    WallTimeNonNegative(p.x, p.vx, p.r, 0.0, side);
    WallTimeNonNegative(p.y, p.vy, p.r, 0.0, side);
  }

  /** Discs that do not overlap `p` touch it no earlier than now. */
  lemma {:induction false} PairPlansNotInPast(sqrt: real -> real, p: Particle, others: seq<Particle>, now: real)
    requires IsSqrt(sqrt)
    requires forall o :: o in others && o != p ==> SeparationSq(o.x - p.x, o.y - p.y) >= Sq(p.r + o.r)
    ensures forall k :: 0 <= k < |PairPlans(sqrt, p, others, now)| ==> PairPlans(sqrt, p, others, now)[k].time >= now
  {
    if others != [] {
      var o := others[|others| - 1];
      PairPlansNotInPast(sqrt, p, others[..|others| - 1], now);
      if o != p {
        ContactTimeNotInPast(sqrt, o.x - p.x, o.y - p.y, o.vx - p.vx, o.vy - p.vy, p.r + o.r);
      }
    }
  }

  /** A disc inside the box and clear of the others has no future event before now. */
  lemma FuturePlansNotInPast(sqrt: real -> real, p: Particle, particles: seq<Particle>, now: real, side: real)
    requires IsSqrt(sqrt)
    requires p.r <= p.x <= side - p.r && p.r <= p.y <= side - p.r
    requires forall o :: o in particles && o != p ==> SeparationSq(o.x - p.x, o.y - p.y) >= Sq(p.r + o.r)
    ensures forall k :: 0 <= k < |FuturePlans(sqrt, p, particles, now, side)| ==>
      FuturePlans(sqrt, p, particles, now, side)[k].time >= now
  {
    WallPlansNotInPast(p, now, side);
    PairPlansNotInPast(sqrt, p, particles, now);
  }

  /** The moving state of a disc as a value: position, velocity and collision count. */
  datatype Disc = Disc(x: real, y: real, vx: real, vy: real, count: int)

  function DiscNow(p: Particle): Disc
    reads p
  {
    Disc(p.x, p.y, p.vx, p.vy, p.collisionCount)
  }

  /** The state of every disc of the simulation, in order. */
  function Snap(particles: seq<Particle>): (st: seq<Disc>)
    reads set p | p in particles
    ensures |st| == |particles| && forall i :: 0 <= i < |particles| ==> st[i] == DiscNow(particles[i])
  {
    seq(|particles|, i reads set p | p in particles requires 0 <= i < |particles| => DiscNow(particles[i]))
  }

  /** The state `st` records for disc `p` (the last entry of `p`; a default one when `p` is absent). */
  function DiscOf(particles: seq<Particle>, st: seq<Disc>, p: Particle?): Disc
    requires |st| == |particles|
  {
    if particles == [] then Disc(0.0, 0.0, 0.0, 0.0, 0)
    else if particles[|particles| - 1] == p then st[|st| - 1]
    else DiscOf(particles[..|particles| - 1], st[..|st| - 1], p)
  }

  /** In a snapshot of the discs, the entry of a disc is its current state. */
  lemma {:induction false} SnapOf(particles: seq<Particle>, p: Particle)
    requires p in particles
    ensures DiscOf(particles, Snap(particles), p) == DiscNow(p)
  {
    var n := |particles|;
    if particles[n - 1] != p {
      assert Snap(particles)[..n - 1] == Snap(particles[..n - 1]);
      assert p in particles[..n - 1] by {
        var j :| 0 <= j < n && particles[j] == p;
        assert particles[..n - 1][j] == p;
      }
      SnapOf(particles[..n - 1], p);
    }
  }

  /** `WallPlans` of a disc in state `d`. */
  function WallPlansOf(p: Particle, d: Disc, now: real, side: real): seq<Planned>
  {
    var tx := WallTime(d.x, d.vx, p.r, 0.0, side);
    var ty := WallTime(d.y, d.vy, p.r, 0.0, side);
    (if tx.Some? then [Planned(now + tx.value, p, null, VerticalWall, d.count, 0)] else [])
    + (if ty.Some? then [Planned(now + ty.value, p, null, HorizontalWall, d.count, 0)] else [])
  }

  /** `PairPlans` of a disc in state `d`, the other discs taken in the states `st` records. */
  function PairPlansOf(sqrt: real -> real, p: Particle, d: Disc, others: seq<Particle>, particles: seq<Particle>, st: seq<Disc>, now: real): seq<Planned>
    requires |st| == |particles|
  {
    if others == [] then []
    else
      var o := others[|others| - 1];
      var od := DiscOf(particles, st, o);
      var t := ContactTime(sqrt, od.x - d.x, od.y - d.y, od.vx - d.vx, od.vy - d.vy, p.r + o.r);
      PairPlansOf(sqrt, p, d, others[..|others| - 1], particles, st, now)
      + (if t.Some? then [Planned(now + t.value, p, o, TwoParticles, d.count, od.count)] else [])
  }

  /** `FuturePlans` with every disc in the state `st` records. */
  function FuturePlansOf(sqrt: real -> real, p: Particle?, particles: seq<Particle>, st: seq<Disc>, now: real, side: real): seq<Planned>
    requires |st| == |particles|
  {
    if p == null then []
    else
      var d := DiscOf(particles, st, p);
      WallPlansOf(p, d, now, side) + PairPlansOf(sqrt, p, d, particles, particles, st, now)
  }

  /** Every disc's entry in a snapshot is its current state. */
  lemma SnapOfAll(particles: seq<Particle>)
    ensures forall o :: o in particles ==> DiscOf(particles, Snap(particles), o) == DiscNow(o)
  {
    forall o | o in particles
      ensures DiscOf(particles, Snap(particles), o) == DiscNow(o)
    {
      SnapOf(particles, o);
    }
  }

  lemma {:induction false} PairPlansOfSnap(sqrt: real -> real, p: Particle, others: seq<Particle>, particles: seq<Particle>, st: seq<Disc>, now: real)
    requires |st| == |particles| && forall o :: o in others ==> o in particles
    requires forall o :: o in particles ==> DiscOf(particles, st, o) == DiscNow(o)
    ensures PairPlans(sqrt, p, others, now) == PairPlansOf(sqrt, p, DiscNow(p), others, particles, st, now)
  {
    if others != [] {
      PairPlansOfSnap(sqrt, p, others[..|others| - 1], particles, st, now);
    }
  }

  /** Scheduling from the heap and from a snapshot of it give the same events. */
  lemma FuturePlansOfSnap(sqrt: real -> real, p: Particle?, particles: seq<Particle>, now: real, side: real)
    requires p == null || p in particles
    ensures FuturePlans(sqrt, p, particles, now, side) == FuturePlansOf(sqrt, p, particles, Snap(particles), now, side)
  {
    if p != null {
      SnapOfAll(particles);
      PairPlansOfSnap(sqrt, p, particles, particles, Snap(particles), now);
    }
  }
}
