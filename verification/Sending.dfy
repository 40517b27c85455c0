/** When batches are built: at the ticks of the flush loop, and at nothing else. */
module Sending {
  import opened Outbox
  import opened OutboxFacts
  import opened Delivery
  import opened DeliverySafety
  import opened DeliveryTheorems
  import Overflow

  lemma FlushIssues(s: State, order: seq<BatchId>)
    requires Issued(s.box) && Visits(order, OverdueIds(s.box, s.clock))
    ensures AfterFlush(s, order).box.issued == s.box.issued + BatchCount(Collected(s.box, order, s.clock).queued)
  {
    RequeuedConserves(s.box, order);
    BatchedShape(Collected(s.box, order, s.clock), s.clock);
  }

  lemma SomeBatch(q: seq<ResultPtr>)
    ensures BatchCount(q) > 0 <==> q != []
  {
  }

  /**
   In every reachable state, an event builds a batch if and only if it is a
   flush that finds something to send: neither the hundredth result nor any
   later one does.
   */
  lemma BatchesOnlyAtFlushes(clock: int, events: seq<Event>, e: Event)
    ensures var s := Run(clock, events);
            Run(clock, events + [e]).box.issued > s.box.issued
            <==> Enabled(s, e) && e.Flush? && Collected(s.box, e.order, s.clock).queued != []
  {
    var s := Run(clock, events);
    assert (events + [e])[..|events|] == events;
    RunConserved(clock, events);
    if Enabled(s, e) && e.Flush? {
      FlushIssues(s, e.order);
      SomeBatch(Collected(s.box, e.order, s.clock).queued);
    }
  }

  predicate NoFlush(events: seq<Event>) {
    forall i :: 0 <= i < |events| ==> !events[i].Flush?
  }

  /** Without a flush no batch is built, whatever else happens. */
  lemma {:induction false} NothingSentBetween(clock: int, events: seq<Event>, later: seq<Event>)
    requires NoFlush(later)
    ensures Run(clock, events + later).box.issued == Run(clock, events).box.issued
  {
    if later == [] {
      assert events + later == events;
    } else {
      var n := |later| - 1;
      NothingSentBetween(clock, events, later[..n]);
      RunThen(clock, events, later);
    }
  }

  /** Any number of results can wait: here n of them do, up to the limit, and no batch was ever built. */
  lemma ResultsWait(n: nat)
    requires n <= 10_000
    ensures var b := Run(0, Overflow.Repeated(n)).box;
            |b.queued| == n && b.inflight == map[] && b.issued == 0
  {
    Overflow.ManyEnqueues([], n);
    assert [] + Overflow.Repeated(n) == Overflow.Repeated(n);
  }

  /** The hundredth result is not sent as soon as it is there, nor is the one after it. */
  lemma HundredWait()
    ensures var s := Run(0, Overflow.Repeated(100));
            |s.box.queued| == 100 && s.box.issued == 0
            && Run(0, Overflow.Repeated(100) + [Enqueue(Overflow.VAL)]).box.issued == 0
  {
    ResultsWait(100);
    NothingSentBetween(0, Overflow.Repeated(100), [Enqueue(Overflow.VAL)]);
  }
}
