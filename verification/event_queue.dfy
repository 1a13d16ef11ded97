/**
 * The `PriorityQueue<Event>` of the simulation: events are added in any
 * order and `poll` hands out one of the earliest. Which of several events
 * with the same time comes first is not fixed by Java's heap, so the model
 * leaves that choice open.
 */
module EventQueues {
  import opened Events

  /** `e` is no later than any event of `es`. */
  predicate IsEarliest(e: Event, es: seq<Event>)
  {
    forall i :: 0 <= i < |es| ==> e.time <= es[i].time
  }

  /** A non-empty queue has an earliest event. */
  lemma {:induction false} EarliestExists(es: seq<Event>)
    requires |es| > 0
    ensures exists k :: 0 <= k < |es| && IsEarliest(es[k], es)
  {
    if |es| > 1 {
      var front := es[..|es| - 1];
      EarliestExists(front);
      var k :| 0 <= k < |front| && IsEarliest(front[k], front);
      if es[k].time <= es[|es| - 1].time {
        assert IsEarliest(es[k], es);
      } else {
        assert IsEarliest(es[|es| - 1], es);
      }
    } else {
      assert IsEarliest(es[0], es);
    }
  }

  class EventQueue {
    var events: seq<Event>

    constructor()
      ensures events == []
    {
      events := [];
    }

    /** `add`. */
    method Add(e: Event)
      modifies this
      ensures events == old(events) + [e]
    {
      events := events + [e];
    }

    /** `poll` on a non-empty queue: an earliest event, taken out of the queue once. */
    method Poll() returns (e: Event)
      requires |events| > 0
      modifies this
      ensures e in old(events) && IsEarliest(e, old(events))
      ensures multiset(events) + multiset{e} == multiset(old(events))
      ensures |events| == |old(events)| - 1
      ensures forall f :: f in events ==> f in old(events)
    {
      EarliestExists(events);
      var k :| 0 <= k < |events| && IsEarliest(events[k], events);
      e := events[k];
      assert events == events[..k] + [e] + events[k + 1..];
      events := events[..k] + events[k + 1..];
    }
  }
}
