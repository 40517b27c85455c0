/**
 The agent at work: the outbox on slices and arrays, driven through the steps
 of the delivery protocol. A message in the send channel shares its results
 with its batch; that it still shows them when it is written is proved here.
 */
module Agent {
  import opened Messages
  import opened Outbox
  import opened OutboxFacts
  import opened OutboxArrays
  import opened Delivery
  import opened DeliverySafety
  import Progress

  /** A step as the outside world chooses it: which results a message shows, and the order of map iterations, is not up to it. */
  datatype Choice =
    | DoTick(elapsed: nat)
    | DoEnqueue(val: SlotResult)
    | DoFlush
    | DoTrySend(id: BatchId, room: bool)
    | DoPull
    | DoWrite(id: BatchId)
    | DoTake(m: Sent)
    | DoAck(id: BatchId)
    | DoReconnect

  predicate Possible(s: State, c: Choice) {
    match c
    case DoEnqueue(val) => val.completedAt * MILLISECOND <= s.clock
    case DoTrySend(id, room) => id in s.unsent && (room ==> |s.channel| < SEND_BUFFER)
    case DoPull => s.channel != []
    case DoWrite(id) => id in s.writing
    case DoTake(m) => m in s.wire
    case DoAck(id) => id in s.acks
    case _ => true
  }

  /** The event is the choice, with its blanks filled in. */
  predicate Fills(e: Event, c: Choice) {
    match c
    case DoTick(elapsed) => e == Tick(elapsed)
    case DoEnqueue(val) => e == Enqueue(val)
    case DoFlush => e.Flush?
    case DoTrySend(id, room) => e == TrySend(id, room)
    case DoPull => e == Pull
    case DoWrite(id) => e.Write? && e.m.id == id
    case DoTake(m) => e == Take(m)
    case DoAck(id) => e == Ack(id)
    case DoReconnect => e.Reconnect?
  }

  /** A choice is possible if and only if the protocol has an event for it. */
  lemma PossibleIfEnabled(s: State, c: Choice)
    ensures Possible(s, c) <==> exists e :: Fills(e, c) && Enabled(s, e)
  {
    if Possible(s, c) {
      var e := SomeEvent(s, c);
    }
  }

  lemma SomeEvent(s: State, c: Choice) returns (e: Event)
    requires Possible(s, c)
    ensures Fills(e, c) && Enabled(s, e)
  {
    match c
    case DoTick(elapsed) => e := Tick(elapsed);
    case DoEnqueue(val) => e := Enqueue(val);
    case DoFlush =>
      var order := Progress.SomeOrder(OverdueIds(s.box, s.clock));
      e := Flush(order);
    case DoTrySend(id, room) => e := TrySend(id, room);
    case DoPull => e := Pull;
    case DoWrite(id) => e := Write(Sent(id, if id in s.box.inflight then s.box.inflight[id].results else []));
    case DoTake(m) => e := Take(m);
    case DoAck(id) => e := Ack(id);
    case DoReconnect =>
      var order := Progress.SomeOrder(s.box.inflight.Keys);
      e := Reconnect(order);
  }

  /** Every batch in flight has its message, which holds the very window of the batch. */
  ghost predicate Carried(envelopes: map<BatchId, Slice>, inflight: map<BatchId, SentBatch>) {
    forall id :: id in inflight ==> id in envelopes && envelopes[id] == inflight[id].results
  }

  /** Every batch ever issued has its message. */
  ghost predicate Complete(envelopes: map<BatchId, Slice>, issued: nat) {
    && (forall id: BatchId :: id in envelopes <==> id < issued)
    && (forall id :: id in envelopes ==> envelopes[id].WellFormed())
  }

  function Enveloped(batches: seq<Message>): map<BatchId, Slice> {
    if batches == [] then map[]
    else
      var b := batches[|batches| - 1];
      Enveloped(batches[..|batches| - 1])[b.id := b.results]
  }

  lemma {:induction false} EnvelopedAt(batches: seq<Message>, first: BatchId, m: map<BatchId, SentBatch>)
    requires Announced(batches, first, m)
    ensures forall id: BatchId :: id in Enveloped(batches) <==> first <= id < first + |batches|
    ensures forall id :: id in Enveloped(batches) ==> id in m && Enveloped(batches)[id] == m[id].results
  {
    if batches != [] {
      var n := |batches| - 1;
      assert forall i :: 0 <= i < n ==> batches[..n][i] == batches[i];
      assert Announces(batches[n], first + n, m);
      EnvelopedAt(batches[..n], first, m);
    }
  }

  lemma FlushedIds(b: Box, order: seq<BatchId>, now: int)
    requires Issued(b) && Visits(order, OverdueIds(b, now))
    ensures var r := Flushed(b, order, now);
            forall id :: id in r.inflight ==> id in b.inflight || b.issued <= id < r.issued
  {
    RequeuedConserves(b, order);
    BatchedShape(Collected(b, order, now), now);
  }

  /** A flush leaves the batches that stay their messages, and makes one for each new batch. */
  lemma StillCarried(b: Box, order: seq<BatchId>, now: int, envelopes: map<BatchId, Slice>, batches: seq<Message>,
                     m: map<BatchId, SentBatch>, m': map<BatchId, SentBatch>)
    requires Carried(envelopes, m) && Complete(envelopes, b.issued) && m.Keys == b.inflight.Keys
    requires Issued(b) && Visits(order, OverdueIds(b, now))
    requires Flushed(b, order, now).issued == b.issued + |batches| && Flushed(b, order, now).inflight.Keys == m'.Keys
    requires Announced(batches, b.issued, m') && Kept(m, m')
    requires forall id :: id in m' ==> m'[id].results.WellFormed()
    ensures Carried(envelopes + Enveloped(batches), m')
    ensures Complete(envelopes + Enveloped(batches), b.issued + |batches|)
  {
    FlushedIds(b, order, now);
    EnvelopedAt(batches, b.issued, m');
  }

  class Agent {
    const outbox: ResultOutbox
    var envelopes: map<BatchId, Slice> // the results of every message a flush has built
    var s: State // the agent, the network and the platform as the protocol sees them

    ghost predicate Valid()
      reads this, outbox, outbox.Repr
    {
      && outbox.Valid() && this !in outbox.Repr
      && outbox.box == s.box
      && Carried(envelopes, outbox.inflight) && Complete(envelopes, outbox.issued)
    }

    constructor (clock: int)
      ensures Valid() && fresh(outbox) && fresh(outbox.Repr) && s == Init(clock)
    {
      outbox := new ResultOutbox();
      envelopes := map[];
      s := Init(clock);
    }

    method Enqueue(val: SlotResult)
      requires Valid() && Possible(s, DoEnqueue(val))
      modifies this, outbox, outbox.Repr
      ensures Valid() && fresh(outbox.Repr - old(outbox.Repr))
      ensures s == Next(old(s), Event.Enqueue(val))
    {
      outbox.Enqueue(Ptr(s.nextAddr, val));
      s := AfterEnqueue(s, Ptr(s.nextAddr, val));
    }

    method Flush() returns (order: seq<BatchId>)
      requires Valid()
      modifies this, outbox, outbox.Repr
      ensures Valid() && fresh(outbox.Repr - old(outbox.Repr))
      ensures Enabled(old(s), Event.Flush(order)) && s == Next(old(s), Event.Flush(order))
    {
      var batches;
      batches, order := Emit();
      Record(envelopes + Enveloped(batches), AfterFlush(s, order));
    }

    method Record(envelopes: map<BatchId, Slice>, s: State)
      requires outbox.Valid() && this !in outbox.Repr && outbox.box == s.box
      requires Carried(envelopes, outbox.inflight) && Complete(envelopes, outbox.issued)
      modifies this
      ensures Valid() && this.envelopes == envelopes && this.s == s
    {
      this.envelopes := envelopes;
      this.s := s;
    }

    /** The locked part of flush, and the messages it builds. */
    method Emit() returns (batches: seq<Message>, order: seq<BatchId>)
      requires Valid()
      modifies outbox, outbox.Repr
      ensures outbox.Valid() && fresh(outbox.Repr - old(outbox.Repr))
      ensures Visits(order, OverdueIds(s.box, s.clock)) && outbox.box == Flushed(s.box, order, s.clock)
      ensures Carried(envelopes + Enveloped(batches), outbox.inflight)
      ensures Complete(envelopes + Enveloped(batches), outbox.issued)
    {
      ghost var box, inflight := s.box, outbox.inflight;
      assert Issued(box) && Carried(envelopes, inflight) && Complete(envelopes, box.issued);
      batches, order := outbox.Flush(s.clock);
      StillCarried(box, order, s.clock, envelopes, batches, inflight, outbox.inflight);
    }

    method Ack(id: BatchId)
      requires Valid() && Possible(s, DoAck(id))
      modifies this, outbox
      ensures Valid() && outbox.Repr == old(outbox.Repr) && s == Next(old(s), Event.Ack(id))
    {
      outbox.Ack(id);
      s := AfterAck(s, id);
    }

    method Reconnect() returns (order: seq<BatchId>)
      requires Valid()
      modifies this, outbox, outbox.Repr
      ensures Valid() && fresh(outbox.Repr - old(outbox.Repr))
      ensures Enabled(old(s), Event.Reconnect(order)) && s == Next(old(s), Event.Reconnect(order))
    {
      order := outbox.Reconnected();
      s := AfterReconnect(s, order);
    }

    /** Writes what the window of the message shows now: the results of its batch, if that is still in flight. */
    method Write(id: BatchId) returns (m: Sent)
      requires Valid() && Possible(s, DoWrite(id)) && id < s.box.issued
      modifies this`s
      ensures Valid() && m.id == id
      ensures m.results == old(envelopes[id].arr[envelopes[id].lo..envelopes[id].hi])
      ensures id in old(s).box.inflight ==> m.results == old(s).box.inflight[id].results
      ensures Enabled(old(s), Event.Write(m)) && s == Next(old(s), Event.Write(m))
    {
      var w := envelopes[id];
      m := Sent(id, w.arr[w.lo..w.hi]);
      s := s.(writing := s.writing - {id}, wire := s.wire + {m});
    }

    /** One choice, or nothing if it is impossible. */
    method Do(c: Choice) returns (e: Event)
      requires Valid() && Invariant(s)
      modifies this, outbox, outbox.Repr
      ensures Valid() && fresh(outbox.Repr - old(outbox.Repr))
      ensures Fills(e, c) && s == Step(old(s), e)
      ensures Possible(old(s), c) ==> Enabled(old(s), e)
    {
      match c {
        case DoEnqueue(val) =>
          e := Event.Enqueue(val);
          if Possible(s, c) {
            Enqueue(val);
          }
        case DoFlush =>
          var order := Flush();
          e := Event.Flush(order);
        case DoReconnect =>
          var order := Reconnect();
          e := Event.Reconnect(order);
        case DoAck(id) =>
          e := Event.Ack(id);
          if Possible(s, c) {
            Ack(id);
          }
        case DoWrite(id) =>
          e := Event.Write(Sent(id, []));
          if Possible(s, c) {
            var m := Write(id);
            e := Event.Write(m);
          }
        case DoTick(_) =>
          e := Outside(c);
        case DoTrySend(_, _) =>
          e := Outside(c);
        case DoPull =>
          e := Outside(c);
        case DoTake(_) =>
          e := Outside(c);
      }
    }

    /** The steps that leave the outbox alone. */
    method Outside(c: Choice) returns (e: Event)
      requires Valid() && (c.DoTick? || c.DoTrySend? || c.DoPull? || c.DoTake?)
      modifies this`s
      ensures Valid() && Fills(e, c) && s == Step(old(s), e)
      ensures Possible(old(s), c) <==> Enabled(old(s), e)
    {
      match c {
        case DoTick(elapsed) =>
          e := Tick(elapsed);
          s := s.(clock := s.clock + elapsed);
        case DoTrySend(id, room) =>
          e := TrySend(id, room);
          if Possible(s, c) {
            s := s.(unsent := s.unsent - {id}, channel := if room then s.channel + [id] else s.channel);
          }
        case DoPull =>
          e := Pull;
          if Possible(s, c) {
            s := s.(channel := s.channel[1..], writing := s.writing + {s.channel[0]});
          }
        case DoTake(m) =>
          e := Take(m);
          if Possible(s, c) {
            s := s.(taken := s.taken + {m}, acks := s.acks + {m.id});
          }
      }
    }
  }

  /**
   Every event is the choice made at its place, and happens if that was
   possible: in particular, no message written shows anything but its batch
   while that is in flight.
   */
  ghost predicate Obeys(clock: int, events: seq<Event>, choices: seq<Choice>) {
    && |events| <= |choices|
    && forall i :: 0 <= i < |events| ==>
         var s := Run(clock, events[..i]);
         Fills(events[i], choices[i]) && (Possible(s, choices[i]) ==> Enabled(s, events[i]))
  }

  lemma ObeysNext(clock: int, events: seq<Event>, choices: seq<Choice>, e: Event)
    requires Obeys(clock, events, choices) && |events| < |choices|
    requires var s, c := Run(clock, events), choices[|events|];
             Fills(e, c) && (Possible(s, c) ==> Enabled(s, e))
    ensures Obeys(clock, events + [e], choices)
    ensures Run(clock, events + [e]) == Step(Run(clock, events), e)
  {
    var all := events + [e];
    assert all[..|events|] == events;
    assert forall i :: 0 <= i < |events| ==> all[i] == events[i] && all[..i] == events[..i];
  }

  /** Whatever the outside world chooses, the outbox on slices and arrays goes through a run of the protocol. */
  method Work(clock: int, choices: seq<Choice>) returns (a: Agent, events: seq<Event>)
    ensures a.Valid() && a.s == Run(clock, events)
    ensures |events| == |choices| && Obeys(clock, events, choices)
  {
    a := new Agent(clock);
    events := [];
    for i := 0 to |choices|
      invariant a.Valid() && fresh(a) && fresh(a.outbox) && fresh(a.outbox.Repr)
      invariant a.s == Run(clock, events) && |events| == i
      invariant Obeys(clock, events, choices)
    {
      RunInvariant(clock, events);
      var e := a.Do(choices[i]);
      ObeysNext(clock, events, choices, e);
      events := events + [e];
    }
  }
}
