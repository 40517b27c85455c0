/**
 At-least-once delivery: the outbox, the send channel, the connections and the
 platform as one step system, with the history of every result.
 */
module Delivery {
  import opened Messages
  import opened Outbox
  import opened OutboxFacts

  const SEND_BUFFER := 64

  /** A SlotResultBatch as it was written to a connection. */
  datatype Sent = Sent(id: BatchId, results: seq<ResultPtr>)

  /**
   The agent: its outbox, the clock, the next free address, the batches a
   flush has built and not yet tried to send, the current send channel and the
   envelopes a write loop has taken out of it. The network: every message ever
   written, which may arrive late, repeatedly or never. The platform: the
   messages it has taken, and the batches it has acknowledged.
   */
  datatype State = State(
    box: Box,
    clock: int,
    nextAddr: nat,
    unsent: set<BatchId>,
    channel: seq<BatchId>,
    writing: set<BatchId>,
    wire: set<Sent>,
    taken: set<Sent>,
    acks: set<BatchId>,
    past: History)

  /**
   Where results have gone, the batches that acknowledgements removed, and how
   often each result was put in a batch or given back by a reconnect.
   */
  datatype History = History(
    enqueued: multiset<ResultPtr>,
    acked: multiset<ResultPtr>,
    removed: map<BatchId, seq<ResultPtr>>,
    aged: multiset<ResultPtr>,
    overflowed: multiset<ResultPtr>,
    placed: multiset<ResultPtr>,
    returned: multiset<ResultPtr>)

  datatype Event =
    | Tick(elapsed: nat)
    | Enqueue(val: SlotResult)
    | Flush(order: seq<BatchId>)
    | TrySend(id: BatchId, room: bool)
    | Pull
    | Write(m: Sent)
    | Take(m: Sent)
    | Ack(id: BatchId)
    | Reconnect(order: seq<BatchId>)

  function Init(clock: int): State {
    State(EMPTY_BOX, clock, 0, {}, [], {}, {}, {}, {},
          History(multiset{}, multiset{}, map[], multiset{}, multiset{}, multiset{}, multiset{}))
  }

  ghost predicate Enabled(s: State, e: Event) {
    match e
    case Tick(_) => true
    // A result is queued once its probe has completed.
    case Enqueue(val) => val.completedAt * MILLISECOND <= s.clock
    case Flush(order) => Visits(order, OverdueIds(s.box, s.clock))
    // Other messages share the channel, so it can be full with fewer batches in it.
    case TrySend(id, room) => id in s.unsent && (room ==> |s.channel| < SEND_BUFFER)
    case Pull => s.channel != []
    // The envelope shares its results with the batch, which is only safe to
    // read while the batch is in flight.
    case Write(m) => m.id in s.writing && (m.id in s.box.inflight ==> m.results == s.box.inflight[m.id].results)
    case Take(m) => m in s.wire
    case Ack(id) => id in s.acks
    case Reconnect(order) => Visits(order, s.box.inflight.Keys)
  }

  ghost function Next(s: State, e: Event): State
    requires Enabled(s, e)
  {
    match e
    case Tick(elapsed) => s.(clock := s.clock + elapsed)
    case Enqueue(val) => AfterEnqueue(s, Ptr(s.nextAddr, val))
    case Flush(order) => AfterFlush(s, order)
    case TrySend(id, room) =>
      s.(unsent := s.unsent - {id}, channel := if room then s.channel + [id] else s.channel)
    case Pull => s.(channel := s.channel[1..], writing := s.writing + {s.channel[0]})
    case Write(m) => s.(writing := s.writing - {m.id}, wire := s.wire + {m})
    case Take(m) => s.(taken := s.taken + {m}, acks := s.acks + {m.id})
    case Ack(id) => AfterAck(s, id)
    case Reconnect(order) => AfterReconnect(s, order)
  }

  function AfterEnqueue(s: State, p: ResultPtr): State {
    var q := s.box.queued + [p];
    var over := if |q| > OUTBOX_MAX then |q| - OUTBOX_MAX else 0;
    s.(box := Enqueued(s.box, p),
       nextAddr := s.nextAddr + 1,
       past := s.past.(enqueued := s.past.enqueued + multiset{p},
                       overflowed := s.past.overflowed + multiset(q[..over])))
  }

  function AfterFlush(s: State, order: seq<BatchId>): State
    requires forall id :: id in order ==> id in s.box.inflight
  {
    var all := Requeued(s.box, order).queued;
    var sent := Fresh(all, s.clock);
    var box := Flushed(s.box, order, s.clock);
    s.(box := box,
       unsent := s.unsent + (box.inflight.Keys - s.box.inflight.Keys),
       past := s.past.(aged := s.past.aged + (multiset(all) - multiset(sent)),
                       placed := s.past.placed + multiset(sent)))
  }

  function AfterAck(s: State, id: BatchId): State {
    if id !in s.box.inflight then s.(box := Acked(s.box, id))
    else
      var results := s.box.inflight[id].results;
      s.(box := Acked(s.box, id),
         past := s.past.(acked := s.past.acked + multiset(results), removed := s.past.removed[id := results]))
  }

  function AfterReconnect(s: State, order: seq<BatchId>): State
    requires forall id :: id in order ==> id in s.box.inflight
  {
    var box := Requeued(s.box, order);
    s.(box := box,
       channel := [],
       past := s.past.(returned := s.past.returned + (multiset(box.queued) - multiset(s.box.queued))))
  }

  /** An event that is not possible does nothing, so every list of events is a run. */
  ghost function Step(s: State, e: Event): State {
    if Enabled(s, e) then Next(s, e) else s
  }

  ghost function Run(clock: int, events: seq<Event>): State {
    if events == [] then Init(clock)
    else Step(Run(clock, events[..|events| - 1]), events[|events| - 1])
  }

  // Conservation.

  /** Everything ever enqueued is in exactly one place. */
  ghost predicate Conserved(s: State) {
    && Issued(s.box)
    && s.past.enqueued == Contents(s.box) + s.past.acked + s.past.aged + s.past.overflowed
    && (forall p :: p in s.past.enqueued ==> s.past.enqueued[p] == 1 && p.Ptr? && p.addr < s.nextAddr)
  }

  lemma CutContents(q: seq<ResultPtr>, cut: nat)
    requires cut <= |q|
    ensures multiset(q[..cut]) + multiset(q[cut..]) == multiset(q)
  {
    assert q == q[..cut] + q[cut..];
  }

  lemma SplitContents(queued: seq<ResultPtr>, p: ResultPtr, over: nat, held: multiset<ResultPtr>)
    requires over <= |queued| + 1
    ensures var q := queued + [p];
            multiset(q[..over]) + (multiset(q[over..]) + held) == multiset(queued) + held + multiset{p}
  {
    var q := queued + [p];
    CutContents(q, over);
    var front, back := multiset(q[..over]), multiset(q[over..]);
    assert front + back == multiset(queued) + multiset{p};
    assert front + (back + held) == front + back + held;
  }

  lemma EnqueueContents(b: Box, p: ResultPtr)
    ensures var q := b.queued + [p];
            var over := if |q| > OUTBOX_MAX then |q| - OUTBOX_MAX else 0;
            multiset(q[..over]) + Contents(Enqueued(b, p)) == Contents(b) + multiset{p}
  {
    var q := b.queued + [p];
    var over := if |q| > OUTBOX_MAX then |q| - OUTBOX_MAX else 0;
    SplitContents(b.queued, p, over, Held(b.inflight, b.issued));
    assert Enqueued(b, p).queued == q[over..];
    assert Contents(Enqueued(b, p)) == multiset(q[over..]) + Held(b.inflight, b.issued);
  }

  lemma Rebalanced(h: History, c: multiset<ResultPtr>, c': multiset<ResultPtr>, over: multiset<ResultPtr>, p: ResultPtr)
    requires h.enqueued == c + h.acked + h.aged + h.overflowed && over + c' == c + multiset{p}
    ensures h.enqueued + multiset{p} == c' + h.acked + h.aged + (h.overflowed + over)
  {
    assert h.enqueued + multiset{p} == c + multiset{p} + h.acked + h.aged + h.overflowed;
  }

  lemma EnqueueConserves(s: State, p: ResultPtr)
    requires Conserved(s) && p.Ptr? && p.addr == s.nextAddr
    ensures Conserved(AfterEnqueue(s, p))
  {
    EnqueueContents(s.box, p);
    var q := s.box.queued + [p];
    var over := if |q| > OUTBOX_MAX then |q| - OUTBOX_MAX else 0;
    Rebalanced(s.past, Contents(s.box), Contents(Enqueued(s.box, p)), multiset(q[..over]), p);
    assert p !in s.past.enqueued;
    var past := AfterEnqueue(s, p).past;
    forall x | x in past.enqueued
      ensures past.enqueued[x] == 1 && x.Ptr? && x.addr < s.nextAddr + 1
    {
      assert x != p ==> x in s.past.enqueued;
    }
  }

  lemma FlushConserves(s: State, order: seq<BatchId>)
    requires Conserved(s) && Visits(order, OverdueIds(s.box, s.clock))
    ensures Conserved(AfterFlush(s, order))
  {
    RequeuedConserves(s.box, order);
    var all := Requeued(s.box, order).queued;
    forall p
      ensures multiset(Fresh(all, s.clock))[p] <= multiset(all)[p]
    {
      FreshMember(all, s.clock, p);
    }
    BatchedConserves(Collected(s.box, order, s.clock), s.clock);
  }

  lemma AckConserves(s: State, id: BatchId)
    requires Conserved(s)
    ensures Conserved(AfterAck(s, id))
  {
    if id in s.box.inflight {
      HeldRemove(s.box.inflight, id, s.box.issued);
    } else {
      assert Acked(s.box, id) == s.box;
    }
  }

  lemma ReconnectConserves(s: State, order: seq<BatchId>)
    requires Conserved(s) && Visits(order, s.box.inflight.Keys)
    ensures Conserved(AfterReconnect(s, order))
  {
    RequeuedConserves(s.box, order);
  }

  lemma StepConserves(s: State, e: Event)
    requires Conserved(s)
    ensures Conserved(Step(s, e))
  {
    if Enabled(s, e) {
      match e
      case Enqueue(val) => EnqueueConserves(s, Ptr(s.nextAddr, val));
      case Flush(order) => FlushConserves(s, order);
      case Ack(id) => AckConserves(s, id);
      case Reconnect(order) => ReconnectConserves(s, order);
      case _ =>
    }
  }
}
