/**
 * A scheduled collision of the event-driven simulation: a disc against a
 * vertical or horizontal wall, or two discs against each other. An event
 * remembers the collision counts of its discs when it was created and is
 * stale as soon as either of them has collided again.
 */
module Events {
  import opened Particles

  datatype EventType = VerticalWall | HorizontalWall | TwoParticles

  class Event {
    const time: real
    const particle1: Particle
    const particle2: Particle?
    const kind: EventType
    const collisionCount1: int
    const collisionCount2: int

    /** What both public constructors guarantee: a second disc exactly for a pair event, snapshot 0 without one. */
    predicate Shaped()
    {
      && (kind == TwoParticles <==> particle2 != null)
      && (particle2 == null ==> collisionCount2 == 0)
    }

    /** The snapshot is not ahead of the discs' counts (counts only grow after creation). */
    predicate Behind()
      reads particle1, particle2
    {
      && collisionCount1 <= particle1.collisionCount
      && (particle2 != null ==> collisionCount2 <= particle2.collisionCount)
    }

    /** Event for two discs; both counts are recorded, so a new event is valid. */
    constructor Pair(time: real, particle1: Particle, particle2: Particle)
      ensures this.time == time && this.particle1 == particle1 && this.particle2 == particle2
      ensures kind == TwoParticles
      ensures collisionCount1 == particle1.collisionCount && collisionCount2 == particle2.collisionCount
      ensures Shaped() && Behind() && IsValid()
    {
      this.time := time;
      this.particle1 := particle1;
      this.particle2 := particle2;
      this.kind := TwoParticles;
      this.collisionCount1 := particle1.collisionCount;
      this.collisionCount2 := particle2.collisionCount;
    }

    /** Event for a disc and a wall: there is no second disc and its snapshot is 0. */
    constructor Wall(time: real, particle1: Particle, vertical: bool)
      ensures this.time == time && this.particle1 == particle1 && particle2 == null
      ensures kind == (if vertical then VerticalWall else HorizontalWall)
      ensures collisionCount1 == particle1.collisionCount && collisionCount2 == 0
      ensures Shaped() && Behind() && IsValid()
    {
      this.time := time;
      this.particle1 := particle1;
      this.particle2 := null;
      this.kind := if vertical then VerticalWall else HorizontalWall;
      this.collisionCount1 := particle1.collisionCount;
      this.collisionCount2 := 0;
    }

    /** `isWallType`: true exactly for the events of the wall constructor. */
    function IsWallType(): (b: bool)
      ensures Shaped() ==> (b <==> particle2 == null)
    {
      kind == VerticalWall || kind == HorizontalWall
    }

    /** `isValid`: neither disc has collided since the event was created. */
    predicate IsValid()
      reads particle1, particle2
    {
      && particle1.collisionCount == collisionCount1
      && (if particle2 != null then particle2.collisionCount else 0) == collisionCount2
    }

    /**
     * `performEvent`: bounce the discs as the kind says. Every disc of the
     * event collides once more, so an event is stale after it is performed.
     */
    method PerformEvent()
      requires Shaped()
      requires kind == TwoParticles ==> particle2 != particle1
      requires particle2 != null ==>
        && particle1.r + particle2.r != 0.0 && particle1.m != 0.0 && particle2.m != 0.0
        && particle1.m + particle2.m != 0.0
      modifies particle1, particle2
      ensures particle1.collisionCount == old(particle1.collisionCount) + 1
      ensures particle2 != null ==> particle2.collisionCount == old(particle2.collisionCount) + 1
      ensures kind == VerticalWall ==>
        particle1.vx == -old(particle1.vx) && particle1.vy == old(particle1.vy)
      ensures kind == HorizontalWall ==>
        particle1.vx == old(particle1.vx) && particle1.vy == -old(particle1.vy)
      ensures kind == TwoParticles ==>
        var p, q := particle1, particle2;
        var jmp := old(Impulse(q.x - p.x, q.y - p.y, q.vx - p.vx, q.vy - p.vy, p.r + q.r, p.m, q.m));
        && p.vx == old(p.vx) + jmp.0 / p.m && p.vy == old(p.vy) + jmp.1 / p.m
        && q.vx == old(q.vx) - jmp.0 / q.m && q.vy == old(q.vy) - jmp.1 / q.m
      ensures particle1.x == old(particle1.x) && particle1.y == old(particle1.y)
      ensures particle2 != null ==> particle2.x == old(particle2.x) && particle2.y == old(particle2.y)
      ensures old(Behind()) ==> Behind() && !IsValid()
    {
      match kind
      case TwoParticles =>
        particle1.Bounce(particle2);
      case VerticalWall =>
        particle1.BounceX();
      case HorizontalWall =>
        particle1.BounceY();
    }

    /** `compareTo`: events are ordered by time only. */
    function CompareTo(o: Event): (c: int)
      ensures c < 0 <==> time < o.time
      ensures c == 0 <==> time == o.time
      ensures c > 0 <==> time > o.time
    {
      if time < o.time then -1 else if time > o.time then 1 else 0
    }
  }

  /** `compareTo` is antisymmetric and transitive, so it is a total preorder on events. */
  lemma CompareToIsTotalPreorder(a: Event, b: Event, c: Event)
    ensures a.CompareTo(a) == 0
    ensures a.CompareTo(b) == -b.CompareTo(a)
    ensures a.CompareTo(b) <= 0 && b.CompareTo(c) <= 0 ==> a.CompareTo(c) <= 0
  {
  }

  /**
   * Collision counts never go down, so a stale event stays stale whatever
   * happens to its discs afterwards.
   */
  twostate lemma StaleStaysStale(e: Event)
    requires old(e.Behind())
    requires old(e.particle1.collisionCount) <= e.particle1.collisionCount
    requires e.particle2 != null ==> old(e.particle2.collisionCount) <= e.particle2.collisionCount
    ensures e.Behind()
    ensures old(!e.IsValid()) ==> !e.IsValid()
  {
  }

  /** The same on the counts alone: a count past its snapshot never comes back to it. */
  lemma {:induction false} PastSnapshotStaysPast(snapshot: int, counts: seq<int>)
    requires |counts| > 0 && snapshot <= counts[0] && counts[0] != snapshot
    requires forall i :: 0 < i < |counts| ==> counts[i - 1] <= counts[i]
    ensures forall i :: 0 <= i < |counts| ==> snapshot < counts[i]
  {
    if |counts| > 1 {
      var front := counts[..|counts| - 1];
      PastSnapshotStaysPast(snapshot, front);
      assert forall i :: 0 <= i < |front| ==> front[i] == counts[i];
      assert snapshot < front[|counts| - 2] <= counts[|counts| - 1];
    }
  }
}
