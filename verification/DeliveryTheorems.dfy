/** The promises of the result outbox, over every run of the protocol. */
module DeliveryTheorems {
  import opened Messages
  import opened Outbox
  import opened OutboxFacts
  import opened Delivery
  import opened DeliverySafety

  lemma RunConserved(clock: int, events: seq<Event>)
    ensures Conserved(Run(clock, events))
  {
    RunInvariant(clock, events);
  }

  lemma RunPaced(clock: int, events: seq<Event>, p: ResultPtr)
    ensures PacedAt(Run(clock, events), p)
  {
    RunInvariant(clock, events);
  }

  lemma RunOrdered(clock: int, events: seq<Event>)
    ensures Ordered(Run(clock, events))
  {
    RunInvariant(clock, events);
  }

  /** 1 if so, 0 if not: summing these counts how many of several things hold. */
  function Count(here: bool): nat {
    if here then 1 else 0
  }

  /**
   At-least-once delivery: every result ever enqueued is in exactly one of four
   places. It is still in the outbox, or the platform took it and said so, or
   it was dropped for its age or for lack of room.
   */
  lemma ExactlyOnePlace(clock: int, events: seq<Event>, p: ResultPtr)
    requires p in Run(clock, events).past.enqueued
    ensures var s := Run(clock, events);
            && Count(p in Contents(s.box)) + Count(p in s.past.acked) + Count(p in s.past.aged) + Count(p in s.past.overflowed) == 1
            && (p in s.past.acked ==> TakenInItsBatch(s, p))
  {
    var s := Run(clock, events);
    RunInvariant(clock, events);
    if p in s.past.acked {
      assert Removed(s, p);
      var id :| id in s.past.removed && p in s.past.removed[id];
    }
  }

  /** The platform took a message about exactly the batch in which p was acknowledged. */
  ghost predicate TakenInItsBatch(s: State, p: ResultPtr) {
    exists id :: id in s.past.removed && p in s.past.removed[id] && Sent(id, s.past.removed[id]) in s.taken
  }

  /** Nothing is duplicated or lost inside the outbox. */
  lemma Conservation(clock: int, events: seq<Event>)
    ensures var s := Run(clock, events);
            s.past.enqueued == Contents(s.box) + s.past.acked + s.past.aged + s.past.overflowed
  {
    RunInvariant(clock, events);
  }

  lemma AckContents(b: Box, id: BatchId)
    requires Issued(b)
    ensures Contents(b) == Contents(Acked(b, id)) + if id in b.inflight then multiset(b.inflight[id].results) else multiset{}
  {
    if id in b.inflight {
      HeldRemove(b.inflight, id, b.issued);
    } else {
      assert Acked(b, id) == b;
    }
  }

  /** An acknowledgement removes its batch and nothing else, and only what the platform took. */
  lemma AckRemovesOnlyTaken(clock: int, events: seq<Event>, id: BatchId)
    requires Enabled(Run(clock, events), Ack(id))
    ensures var s := Run(clock, events);
            var s' := Run(clock, events + [Ack(id)]);
            && s'.box.queued == s.box.queued
            && Contents(s.box) == Contents(s'.box) + (if id in s.box.inflight then multiset(s.box.inflight[id].results) else multiset{})
            && (id in s.box.inflight ==> Sent(id, s.box.inflight[id].results) in s.taken)
            && s'.past.removed == if id in s.box.inflight then s.past.removed[id := s.box.inflight[id].results] else s.past.removed
  {
    var s := Run(clock, events);
    RunInvariant(clock, events);
    assert (events + [Ack(id)])[..|events|] == events;
    AckContents(s.box, id);
  }

  lemma RetiredStep(s: State, e: Event, id: BatchId)
    requires Conserved(s) && id < s.box.issued && id !in s.box.inflight
    ensures id < Step(s, e).box.issued && id !in Step(s, e).box.inflight
  {
    if Enabled(s, e) && e.Flush? {
      RequeuedConserves(s.box, e.order);
      BatchedShape(Collected(s.box, e.order, s.clock), s.clock);
    }
  }

  lemma RunThen(clock: int, events: seq<Event>, later: seq<Event>)
    requires later != []
    ensures Run(clock, events + later) == Step(Run(clock, events + later[..|later| - 1]), later[|later| - 1])
  {
    assert (events + later)[..|events + later| - 1] == events + later[..|later| - 1];
  }

  lemma RunStep(clock: int, events: seq<Event>, e: Event)
    ensures Run(clock, events + [e]) == Step(Run(clock, events), e)
  {
    assert (events + [e])[..|events|] == events;
  }

  /** Within one connection. */
  predicate NoReconnect(events: seq<Event>) {
    forall i :: 0 <= i < |events| ==> !events[i].Reconnect?
  }

  /** A batch that was acknowledged or requeued never comes back under its id: a late ack removes nothing. */
  lemma {:induction false} RetiredForGood(clock: int, events: seq<Event>, later: seq<Event>, id: BatchId)
    requires id < Run(clock, events).box.issued && id !in Run(clock, events).box.inflight
    ensures var s := Run(clock, events + later);
            id < s.box.issued && id !in s.box.inflight && AfterAck(s, id) == s
  {
    if later == [] {
      assert events + later == events;
    } else {
      var n := |later| - 1;
      RetiredForGood(clock, events, later[..n], id);
      RunConserved(clock, events + later[..n]);
      RunThen(clock, events, later);
      RetiredStep(Run(clock, events + later[..n]), later[n], id);
    }
    var s := Run(clock, events + later);
    assert Acked(s.box, id) == s.box;
  }

  lemma HeldBound(s: State, p: ResultPtr)
    requires Conserved(s) && Timely(s) && s.box.queued == [] && p in Contents(s.box)
    requires forall id :: id in s.box.inflight ==> s.clock - s.box.inflight[id].sentAt <= 10_000_000_000
    ensures p.Ptr? && s.clock - p.val.completedAt * 1_000_000 <= 310_000_000_000
  {
    HeldMember(s.box.inflight, s.box.issued, p);
    assert p in s.past.enqueued;
    var id :| id in s.box.inflight && p in s.box.inflight[id].results;
    assert Age(p, s.box.inflight[id].sentAt) <= RESULT_MAX_AGE;
  }

  lemma FlushedRecently(s: State, order: seq<BatchId>)
    requires Conserved(s) && Visits(order, OverdueIds(s.box, s.clock))
    ensures var s' := AfterFlush(s, order);
            && s'.box.queued == [] && s'.clock == s.clock
            && forall id :: id in s'.box.inflight ==> s.clock - s'.box.inflight[id].sentAt <= 10_000_000_000
  {
    var s' := AfterFlush(s, order);
    RequeuedConserves(s.box, order);
    BatchedConserves(Collected(s.box, order, s.clock), s.clock);
    forall id | id in s'.box.inflight
      ensures s.clock - s'.box.inflight[id].sentAt <= 10_000_000_000
    {
      FlushedBatch(s, order, id);
    }
  }

  /** Right after a flush the queue is empty and nothing held is older than 310 seconds. */
  lemma BoundedRetention(clock: int, events: seq<Event>, order: seq<BatchId>)
    requires Enabled(Run(clock, events), Flush(order))
    ensures var s := Run(clock, events + [Flush(order)]);
            && s.box.queued == []
            && (forall id :: id in s.box.inflight ==> 0 <= s.clock - s.box.inflight[id].sentAt <= 10_000_000_000)
            && (forall p :: p in Contents(s.box) ==> p.Ptr? && s.clock - p.val.completedAt * 1_000_000 <= 310_000_000_000)
  {
    var s := Run(clock, events);
    var s' := Run(clock, events + [Flush(order)]);
    RunConserved(clock, events);
    RunStep(clock, events, Flush(order));
    FlushedRecently(s, order);
    RunInvariant(clock, events + [Flush(order)]);
    forall p | p in Contents(s'.box)
      ensures p.Ptr? && s'.clock - p.val.completedAt * 1_000_000 <= 310_000_000_000
    {
      HeldBound(s', p);
    }
  }

  /** p waits to be sent, or to be sent again: it is queued, or in a batch sent more than 10 seconds ago. */
  ghost predicate Due(s: State, p: ResultPtr) {
    || p in s.box.queued
    || exists id :: id in s.box.inflight && p in s.box.inflight[id].results && s.clock - s.box.inflight[id].sentAt > 10_000_000_000
  }

  lemma DueIsCollected(s: State, order: seq<BatchId>, p: ResultPtr)
    requires Visits(order, OverdueIds(s.box, s.clock))
    ensures p in Requeued(s.box, order).queued <==> Due(s, p)
  {
    PrependedMember(s.box.inflight, order, s.box.queued, p);
    forall id
      ensures id in order <==> id in s.box.inflight && s.clock - s.box.inflight[id].sentAt > 10_000_000_000
    {
    }
  }

  /** A flush drops a result if and only if it completed more than 5 minutes ago and was due; it brings none in. */
  lemma FlushDropsOnlyStale(clock: int, events: seq<Event>, order: seq<BatchId>, p: ResultPtr)
    requires Enabled(Run(clock, events), Flush(order))
    ensures var s := Run(clock, events);
            var s' := Run(clock, events + [Flush(order)]);
            && (p in Contents(s'.box) ==> p in Contents(s.box))
            && (p in Contents(s.box) ==>
                  p.Ptr? && (p !in Contents(s'.box) <==> s.clock - p.val.completedAt * 1_000_000 > 300_000_000_000 && Due(s, p)))
  {
    var s := Run(clock, events);
    RunConserved(clock, events);
    assert (events + [Flush(order)])[..|events|] == events;
    RequeuedConserves(s.box, order);
    BatchedConserves(Collected(s.box, order, s.clock), s.clock);
    FreshMember(Requeued(s.box, order).queued, s.clock, p);
    DueIsCollected(s, order, p);
    assert Contents(Requeued(s.box, order))[p] <= s.past.enqueued[p] <= 1;
  }

  /** A batch stays in flight through a flush if and only if it was sent at most 10 seconds ago. */
  lemma FlushKeepsRecent(clock: int, events: seq<Event>, order: seq<BatchId>, id: BatchId)
    requires Enabled(Run(clock, events), Flush(order)) && id in Run(clock, events).box.inflight
    ensures var s, s' := Run(clock, events), Run(clock, events + [Flush(order)]);
            && (id in s'.box.inflight <==> s.clock - s.box.inflight[id].sentAt <= 10_000_000_000)
            && (id in s'.box.inflight ==> s'.box.inflight[id] == s.box.inflight[id])
  {
    var s := Run(clock, events);
    RunConserved(clock, events);
    assert (events + [Flush(order)])[..|events|] == events;
    RequeuedConserves(s.box, order);
    BatchedShape(Collected(s.box, order, s.clock), s.clock);
  }

  function Reconnects(events: seq<Event>): nat {
    if events == [] then 0
    else Reconnects(events[..|events| - 1]) + if events[|events| - 1].Reconnect? then 1 else 0
  }

  lemma ReturnedStep(s: State, e: Event, p: ResultPtr)
    requires Conserved(s)
    ensures Step(s, e).past.returned[p] <= s.past.returned[p] + if e.Reconnect? then 1 else 0
  {
    if Enabled(s, e) && e.Reconnect? {
      ReconnectReturns(s, e.order, p);
    }
  }

  lemma {:induction false} ReturnedBound(clock: int, events: seq<Event>, later: seq<Event>, p: ResultPtr)
    ensures Run(clock, events + later).past.returned[p] <= Run(clock, events).past.returned[p] + Reconnects(later)
  {
    if later == [] {
      assert events + later == events;
    } else {
      var n := |later| - 1;
      ReturnedBound(clock, events, later[..n], p);
      RunConserved(clock, events + later[..n]);
      RunThen(clock, events, later);
      ReturnedStep(Run(clock, events + later[..n]), later[n], p);
    }
  }

  /** A result that is enqueued after `events` is put in at most 30 batches, and one more per reconnect. */
  lemma ResendBound(clock: int, events: seq<Event>, later: seq<Event>, p: ResultPtr)
    requires p !in Run(clock, events).past.enqueued
    ensures Run(clock, events + later).past.placed[p] <= 30 + Reconnects(later)
  {
    RunPaced(clock, events, p);
    RunPaced(clock, events + later, p);
    ReturnedBound(clock, events, later, p);
  }

  /** What an enqueue that is possible does to the queue. */
  ghost predicate DropsFromFront(s: State, s': State, p: ResultPtr) {
    var q := s.box.queued + [p];
    var over := if |q| > 10_000 then |q| - 10_000 else 0;
    && q == q[..over] + s'.box.queued
    && p in s'.box.queued && |s'.box.queued| <= 10_000
    && s'.past.overflowed == s.past.overflowed + multiset(q[..over])
    && (forall i, j :: 0 <= i < over <= j < |q| ==> InOrderAt(s.past.placed, q[i], q[j]))
  }

  lemma EnqueueDrops(s: State, p: ResultPtr)
    requires QueueOrdered(s.past.placed, s.box.queued + [p])
    ensures DropsFromFront(s, AfterEnqueue(s, p), p)
  {
    var q := s.box.queued + [p];
    assert q[|q| - 1] == p && Enqueued(s.box, p).queued[|Enqueued(s.box, p).queued| - 1] == p;
  }

  /**
   Overflow drops from the front: the new result stays, a result never sent is
   dropped only once no requeued one is left, and then oldest first.
   */
  lemma OverflowOrder(clock: int, events: seq<Event>, val: SlotResult)
    requires Enabled(Run(clock, events), Enqueue(val))
    ensures var s := Run(clock, events);
            DropsFromFront(s, Run(clock, events + [Enqueue(val)]), Ptr(s.nextAddr, val))
  {
    var s := Run(clock, events);
    RunOrdered(clock, events);
    RunConserved(clock, events);
    RunPaced(clock, events, Ptr(s.nextAddr, val));
    assert (events + [Enqueue(val)])[..|events|] == events;
    EnqueueOrdered(s, Ptr(s.nextAddr, val));
    EnqueueDrops(s, Ptr(s.nextAddr, val));
  }
}
