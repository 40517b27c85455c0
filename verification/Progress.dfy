/** What can still happen: a result that is young enough can be delivered, and messages go out in the order they were put in. */
module Progress {
  import opened Messages
  import opened Sequences
  import opened Outbox
  import opened OutboxFacts
  import opened Delivery
  import opened DeliverySafety
  import opened DeliveryTheorems

  /** Some iteration order of a map. */
  lemma {:induction false} SomeOrder(ids: set<BatchId>) returns (order: seq<BatchId>)
    ensures Visits(order, ids)
  {
    order := [];
    if ids != {} {
      var id :| id in ids;
      var rest := SomeOrder(ids - {id});
      order := rest + [id];
    }
  }

  predicate NoEnqueue(events: seq<Event>) {
    forall i :: 0 <= i < |events| ==> !events[i].Enqueue?
  }

  // A young result can be delivered.

  /** After a reconnect everything is queued, and the send channel is a new one. */
  lemma AllQueued(clock: int, events: seq<Event>) returns (e: Event)
    ensures e.Reconnect?
    ensures var s, s' := Run(clock, events), Run(clock, events + [e]);
            && s'.box.inflight == map[] && s'.channel == [] && s'.clock == s.clock
            && multiset(s'.box.queued) == Contents(s.box)
  {
    var s := Run(clock, events);
    RunConserved(clock, events);
    var order := SomeOrder(s.box.inflight.Keys);
    e := Reconnect(order);
    RunStep(clock, events, e);
    RequeuedConserves(s.box, order);
    assert Requeued(s.box, order).inflight == map[];
    HeldNothing(s.box.issued);
  }

  lemma SentAtOnce(b: Box, now: int, p: ResultPtr) returns (id: BatchId)
    requires b.inflight == map[] && p in b.queued && p.Ptr? && now - p.val.completedAt * 1_000_000 <= 300_000_000_000
    ensures Visits([], OverdueIds(b, now))
    ensures id in Flushed(b, [], now).inflight && p in Flushed(b, [], now).inflight[id].results
  {
    RequeuedConserves(b, []);
    assert Requeued(b, []) == b;
    var c := Collected(b, [], now);
    FreshMember(b.queued, now, p);
    assert p in multiset(c.queued) && p in Contents(c);
    BatchedConserves(c, now);
    var r := Batched(c, now);
    assert p in Held(r.inflight, r.issued);
    HeldMember(r.inflight, r.issued, p);
    id :| id in r.inflight && p in r.inflight[id].results;
  }

  /** A flush then builds a batch with p in it, not yet tried to send. */
  lemma InSomeBatch(clock: int, events: seq<Event>, p: ResultPtr) returns (id: BatchId)
    requires var s := Run(clock, events);
             s.box.inflight == map[] && p in s.box.queued && p.Ptr? && s.clock - p.val.completedAt * 1_000_000 <= 300_000_000_000
    ensures var s, s' := Run(clock, events), Run(clock, events + [Flush([])]);
            && id in s'.unsent && id in s'.box.inflight && p in s'.box.inflight[id].results && s'.channel == s.channel
  {
    var s := Run(clock, events);
    id := SentAtOnce(s.box, s.clock, p);
    RunStep(clock, events, Flush([]));
  }

  /** A batch in flight that has not been tried to send can be put in an empty channel, taken and acknowledged. */
  lemma Delivered(clock: int, events: seq<Event>, id: BatchId) returns (later: seq<Event>)
    requires var s := Run(clock, events);
             id in s.unsent && id in s.box.inflight && s.channel == []
    ensures NoEnqueue(later)
    ensures var s, s' := Run(clock, events), Run(clock, events + later);
            forall p :: p in s.box.inflight[id].results ==> p in s'.past.acked
  {
    var s := Run(clock, events);
    var results := s.box.inflight[id].results;
    var m := Sent(id, results);
    RunStep(clock, events, TrySend(id, true));
    var a := events + [TrySend(id, true)];
    RunStep(clock, a, Pull);
    var b := a + [Pull];
    RunStep(clock, b, Write(m));
    var c := b + [Write(m)];
    RunStep(clock, c, Take(m));
    var d := c + [Take(m)];
    RunStep(clock, d, Ack(id));
    later := [TrySend(id, true), Pull, Write(m), Take(m), Ack(id)];
    assert d + [Ack(id)] == events + later;
    forall p | p in results
      ensures p in Run(clock, events + later).past.acked
    {
      assert p in multiset(results);
    }
  }

  /**
   From every reachable state, a result that is at most 5 minutes old can still
   be delivered and acknowledged, with nothing new enqueued.
   */
  lemma CanBeDelivered(clock: int, events: seq<Event>, p: ResultPtr) returns (later: seq<Event>)
    requires var s := Run(clock, events);
             p in Contents(s.box) && p.Ptr? && s.clock - p.val.completedAt * 1_000_000 <= 300_000_000_000
    ensures NoEnqueue(later) && p in Run(clock, events + later).past.acked
  {
    var e := AllQueued(clock, events);
    var a := events + [e];
    assert p in multiset(Run(clock, a).box.queued);
    var id := InSomeBatch(clock, a, p);
    var b := a + [Flush([])];
    var rest := Delivered(clock, b, id);
    later := [e, Flush([])] + rest;
    TwoThenMore(events, e, Flush([]), rest);
  }

  /** p is not in flight, was not delivered, and will be dropped for its age. */
  ghost predicate Doomed(s: State, p: ResultPtr) {
    && p in s.past.enqueued && p !in s.past.acked && p !in Held(s.box.inflight, s.box.issued)
    && (p in s.box.queued ==> s.clock - CompletedAt(p) * 1_000_000 > 300_000_000_000)
  }

  lemma FlushDoomed(s: State, order: seq<BatchId>, p: ResultPtr)
    requires Conserved(s) && Doomed(s, p) && Visits(order, OverdueIds(s.box, s.clock))
    ensures Doomed(AfterFlush(s, order), p)
  {
    RequeuedConserves(s.box, order);
    var c := Collected(s.box, order, s.clock);
    BatchedConserves(c, s.clock);
    HeldMember(s.box.inflight, s.box.issued, p);
    PrependedMember(s.box.inflight, order, s.box.queued, p);
    FreshMember(Requeued(s.box, order).queued, s.clock, p);
    assert p !in c.queued;
    HeldMember(c.inflight, c.issued, p);
    assert p !in Contents(c);
    assert p !in Contents(Batched(c, s.clock));
  }

  lemma StepDoomed(s: State, e: Event, p: ResultPtr)
    requires Conserved(s) && Doomed(s, p)
    ensures Doomed(Step(s, e), p)
  {
    if Enabled(s, e) {
      match e
      case Enqueue(val) =>
        var q := s.box.queued + [Ptr(s.nextAddr, val)];
        assert forall x :: x in AfterEnqueue(s, Ptr(s.nextAddr, val)).box.queued ==> x in q;
      case Flush(order) => FlushDoomed(s, order, p);
      case Ack(id) => AckDoomed(s, id, p);
      case Reconnect(order) => ReconnectDoomed(s, order, p);
      case _ =>
    }
  }

  lemma AckDoomed(s: State, id: BatchId, p: ResultPtr)
    requires Conserved(s) && Doomed(s, p)
    ensures Doomed(AfterAck(s, id), p)
  {
    HeldMember(s.box.inflight, s.box.issued, p);
    HeldMember(Acked(s.box, id).inflight, s.box.issued, p);
    assert id in s.box.inflight ==> p !in multiset(s.box.inflight[id].results);
  }

  lemma ReconnectDoomed(s: State, order: seq<BatchId>, p: ResultPtr)
    requires Conserved(s) && Doomed(s, p) && Visits(order, s.box.inflight.Keys)
    ensures Doomed(AfterReconnect(s, order), p)
  {
    ReconnectReturns(s, order, p);
    HeldNothing(s.box.issued);
  }

  lemma {:induction false} StaysDoomed(clock: int, events: seq<Event>, later: seq<Event>, p: ResultPtr)
    requires Doomed(Run(clock, events), p)
    ensures Doomed(Run(clock, events + later), p)
  {
    if later == [] {
      assert events + later == events;
    } else {
      var n := |later| - 1;
      StaysDoomed(clock, events, later[..n], p);
      RunConserved(clock, events + later[..n]);
      RunThen(clock, events, later);
      StepDoomed(Run(clock, events + later[..n]), later[n], p);
    }
  }

  lemma QueuedIsDoomed(s: State, p: ResultPtr)
    requires Conserved(s) && p in s.box.queued && s.clock - CompletedAt(p) * 1_000_000 > 300_000_000_000
    ensures Doomed(s, p)
  {
    assert multiset(s.box.queued)[p] >= 1;
    assert Contents(s.box)[p] + s.past.acked[p] <= s.past.enqueued[p] <= 1;
  }

  /** A queued result can ever be delivered if and only if it is at most 5 minutes old. */
  lemma DeliverableIfYoung(clock: int, events: seq<Event>, p: ResultPtr)
    requires p in Run(clock, events).box.queued && p.Ptr?
    ensures (exists later :: NoEnqueue(later) && p in Run(clock, events + later).past.acked)
            <==> Run(clock, events).clock - p.val.completedAt * 1_000_000 <= 300_000_000_000
  {
    var s := Run(clock, events);
    RunConserved(clock, events);
    if s.clock - p.val.completedAt * 1_000_000 <= 300_000_000_000 {
      assert p in Contents(s.box);
      var later := CanBeDelivered(clock, events, p);
    } else {
      QueuedIsDoomed(s, p);
      forall later
        ensures p !in Run(clock, events + later).past.acked
      {
        StaysDoomed(clock, events, later, p);
      }
    }
  }

  // The send channel.

  ghost function Put(s: State, e: Event): seq<BatchId> {
    if Enabled(s, e) && e.TrySend? && e.room then [e.id] else []
  }

  ghost function Pulled(s: State, e: Event): seq<BatchId> {
    if Enabled(s, e) && e.Pull? then s.channel[..1] else []
  }

  /** The messages put in the channel with room for them, in order, while `later` happens. */
  ghost function AllPut(clock: int, events: seq<Event>, later: seq<Event>): seq<BatchId> {
    if later == [] then []
    else
      var n := |later| - 1;
      AllPut(clock, events, later[..n]) + Put(Run(clock, events + later[..n]), later[n])
  }

  /** The messages that come out of it. */
  ghost function AllPulled(clock: int, events: seq<Event>, later: seq<Event>): seq<BatchId> {
    if later == [] then []
    else
      var n := |later| - 1;
      AllPulled(clock, events, later[..n]) + Pulled(Run(clock, events + later[..n]), later[n])
  }

  lemma ChannelStep(s: State, e: Event)
    requires !e.Reconnect?
    ensures s.channel + Put(s, e) == Pulled(s, e) + Step(s, e).channel
  {
  }

  lemma Regroup(c: seq<BatchId>, put: seq<BatchId>, pulled: seq<BatchId>, c1: seq<BatchId>, put1: seq<BatchId>, pulled1: seq<BatchId>, c2: seq<BatchId>)
    requires c + put == pulled + c1 && c1 + put1 == pulled1 + c2
    ensures c + (put + put1) == (pulled + pulled1) + c2
  {
    assert c + (put + put1) == (c + put) + put1 == pulled + (c1 + put1);
  }

  /** First in, first out: over one connection, what was there and was put in is what came out and is there, in this order. */
  lemma {:induction false} FirstInFirstOut(clock: int, events: seq<Event>, later: seq<Event>)
    requires NoReconnect(later)
    ensures Run(clock, events).channel + AllPut(clock, events, later)
            == AllPulled(clock, events, later) + Run(clock, events + later).channel
  {
    if later == [] {
      assert events + later == events;
    } else {
      var n := |later| - 1;
      FirstInFirstOut(clock, events, later[..n]);
      RunThen(clock, events, later);
      var s := Run(clock, events + later[..n]);
      ChannelStep(s, later[n]);
      Regroup(Run(clock, events).channel, AllPut(clock, events, later[..n]), AllPulled(clock, events, later[..n]),
              s.channel, Put(s, later[n]), Pulled(s, later[n]), Run(clock, events + later).channel);
    }
  }

  /** A message put in with room comes out after exactly the ones before it. */
  lemma ComesOutInTurn(clock: int, events: seq<Event>, id: BatchId, later: seq<Event>)
    requires Enabled(Run(clock, events), TrySend(id, true)) && NoReconnect(later)
    requires |AllPulled(clock, events + [TrySend(id, true)], later)| > |Run(clock, events).channel|
    ensures var before, out := Run(clock, events).channel, AllPulled(clock, events + [TrySend(id, true)], later);
            out[..|before|] == before && out[|before|] == id
  {
    var e := TrySend(id, true);
    var before := Run(clock, events).channel;
    RunStep(clock, events, e);
    FirstInFirstOut(clock, events + [e], later);
    var out := AllPulled(clock, events + [e], later);
    var all := out + Run(clock, events + [e] + later).channel;
    assert all == before + [id] + AllPut(clock, events + [e], later);
    assert all[..|before|] == before && all[|before|] == id;
    assert all[..|before|] == out[..|before|] && all[|before|] == out[|before|];
  }

  /** The channel never holds more than 64 messages. */
  lemma {:induction false} ChannelBounded(clock: int, events: seq<Event>)
    ensures |Run(clock, events).channel| <= 64
  {
    if events != [] {
      ChannelBounded(clock, events[..|events| - 1]);
    }
  }

  ghost predicate Distinct(ids: seq<BatchId>) {
    forall i, j :: 0 <= i < j < |ids| ==> ids[i] != ids[j]
  }

  /** Those put in the channel have been tried, and are not tried again. */
  ghost predicate TriedBefore(s: State, put: seq<BatchId>) {
    forall id :: id in put ==> id < s.box.issued && id !in s.unsent
  }

  lemma StepTried(s: State, e: Event, put: seq<BatchId>)
    requires Conserved(s) && Intact(s) && Distinct(put) && TriedBefore(s, put)
    ensures Distinct(put + Put(s, e)) && TriedBefore(Step(s, e), put + Put(s, e))
  {
    if Enabled(s, e) && e.Flush? {
      NewUnsent(s, e.order);
    }
    var all := put + Put(s, e);
    assert forall id :: id in all ==> id in put || id in Put(s, e);
  }

  lemma NewUnsent(s: State, order: seq<BatchId>)
    requires Issued(s.box) && Visits(order, OverdueIds(s.box, s.clock))
    ensures AfterFlush(s, order).box.issued >= s.box.issued
    ensures forall id :: id in AfterFlush(s, order).unsent ==> id in s.unsent || s.box.issued <= id
  {
    FlushReplaces(s, order);
  }

  /** Over a whole run no message is put in a channel twice: a batch that is sent again has a new id. */
  lemma {:induction false} PutOnce(clock: int, events: seq<Event>)
    ensures Distinct(AllPut(clock, [], events)) && TriedBefore(Run(clock, events), AllPut(clock, [], events))
  {
    if events != [] {
      var n := |events| - 1;
      PutOnce(clock, events[..n]);
      assert [] + events[..n] == events[..n];
      RunInvariant(clock, events[..n]);
      StepTried(Run(clock, events[..n]), events[n], AllPut(clock, [], events[..n]));
    }
  }

  // The clock.

  function Elapsed(events: seq<Event>): nat {
    if events == [] then 0
    else
      var e := events[|events| - 1];
      Elapsed(events[..|events| - 1]) + if e.Tick? then e.elapsed else 0
  }

  /** Only time moves the clock. */
  lemma {:induction false} ClockAdvances(clock: int, events: seq<Event>)
    ensures Run(clock, events).clock == clock + Elapsed(events)
  {
    if events != [] {
      ClockAdvances(clock, events[..|events| - 1]);
    }
  }
}
