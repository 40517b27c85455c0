/** What every run of the delivery protocol keeps. */
module DeliverySafety {
  import opened Messages
  import opened Outbox
  import opened OutboxFacts
  import opened Delivery

  // No loss by acknowledgement.

  /** A message about a batch in flight carries its results, wherever the message is. */
  ghost predicate Carrying(s: State) {
    && Issued(s.box)
    && (forall id :: id in s.unsent ==> id < s.box.issued)
    && (forall id :: id in s.channel ==> id < s.box.issued)
    && (forall id :: id in s.writing ==> id < s.box.issued)
    && (forall m :: m in s.wire ==> m.id < s.box.issued)
    && (forall m :: m in s.wire && m.id in s.box.inflight ==> m.results == s.box.inflight[m.id].results)
  }

  /** What was acknowledged was taken, and so was what may still be acknowledged to effect. */
  ghost predicate Recorded(s: State) {
    && (forall id :: id in s.acks ==> id < s.box.issued)
    && (forall id :: id in s.acks && id in s.box.inflight ==> Sent(id, s.box.inflight[id].results) in s.taken)
    && (forall m :: m in s.taken ==> m.id < s.box.issued)
    && (forall id :: id in s.past.removed ==> id < s.box.issued && id !in s.box.inflight)
    && (forall id :: id in s.past.removed ==> Sent(id, s.past.removed[id]) in s.taken)
    && (forall p :: p in s.past.acked ==> Removed(s, p))
  }

  ghost predicate Intact(s: State) {
    Carrying(s) && Recorded(s)
  }

  /** An acknowledgement removed a batch with p in it. */
  ghost predicate Removed(s: State, p: ResultPtr) {
    exists id :: id in s.past.removed && p in s.past.removed[id]
  }

  /** Batches only go, or come under new ids; nothing else that Intact speaks of changes but for the unsent ones. */
  ghost predicate Replaces(s: State, s': State) {
    && s'.box.issued >= s.box.issued && Issued(s'.box)
    && (forall id :: id in s'.box.inflight ==>
          if id in s.box.inflight then s'.box.inflight[id] == s.box.inflight[id] else s.box.issued <= id)
    && (forall id :: id in s'.unsent ==> id in s.unsent || id < s'.box.issued)
    && (forall id :: id in s'.channel ==> id in s.channel)
    && s'.writing == s.writing && s'.wire == s.wire
    && s'.taken == s.taken && s'.acks == s.acks
    && s'.past.acked == s.past.acked && s'.past.removed == s.past.removed
  }

  lemma ReplacesCarrying(s: State, s': State)
    requires Carrying(s) && Replaces(s, s')
    ensures Carrying(s')
  {
  }

  lemma ReplacesRecorded(s: State, s': State)
    requires Recorded(s) && Replaces(s, s')
    ensures Recorded(s')
  {
    forall p | p in s'.past.acked
      ensures Removed(s', p)
    {
      assert Removed(s, p);
    }
  }

  lemma FlushReplaces(s: State, order: seq<BatchId>)
    requires Issued(s.box) && Visits(order, OverdueIds(s.box, s.clock))
    ensures Replaces(s, AfterFlush(s, order))
  {
    RequeuedConserves(s.box, order);
    BatchedShape(Collected(s.box, order, s.clock), s.clock);
  }

  lemma AckRecorded(s: State, id: BatchId)
    requires Intact(s) && id in s.acks && id in s.box.inflight
    ensures Recorded(AfterAck(s, id))
  {
    var s' := AfterAck(s, id);
    forall p | p in s'.past.acked
      ensures Removed(s', p)
    {
      if p in s.past.acked {
        assert Removed(s, p);
        var i :| i in s.past.removed && p in s.past.removed[i];
        assert i in s'.past.removed && p in s'.past.removed[i];
      } else {
        assert p in multiset(s.box.inflight[id].results);
        assert id in s'.past.removed && p in s'.past.removed[id];
      }
    }
  }

  lemma AckIntact(s: State, id: BatchId)
    requires Intact(s) && id in s.acks
    ensures Intact(AfterAck(s, id))
  {
    if id in s.box.inflight {
      AckRecorded(s, id);
    } else {
      assert Acked(s.box, id) == s.box;
    }
  }

  /** The steps that change the outbox but for acknowledgements. */
  lemma BoxIntact(s: State, e: Event)
    requires Intact(s) && Enabled(s, e) && (e.Enqueue? || e.Flush? || e.Reconnect?)
    ensures Intact(Next(s, e))
  {
    if e.Flush? {
      FlushReplaces(s, e.order);
    }
    ReplacesCarrying(s, Next(s, e));
    ReplacesRecorded(s, Next(s, e));
  }

  lemma StepIntact(s: State, e: Event)
    requires Intact(s)
    ensures Intact(Step(s, e))
  {
    if Enabled(s, e) {
      match e
      case Tick(_) => QuietIntact(s, e);
      case TrySend(_, _) => QuietIntact(s, e);
      case Pull => QuietIntact(s, e);
      case Write(m) => WriteIntact(s, m);
      case Take(m) => TakeIntact(s, m);
      case Ack(id) => AckIntact(s, id);
      case _ => BoxIntact(s, e);
    }
  }

  /** The steps inside the agent that leave the outbox alone. */
  lemma QuietIntact(s: State, e: Event)
    requires Intact(s) && Enabled(s, e) && (e.Tick? || e.TrySend? || e.Pull?)
    ensures Intact(Next(s, e))
  {
    if e.Pull? {
      assert s.channel[0] in s.channel;
      assert forall id :: id in s.channel[1..] ==> id in s.channel;
    }
    assert forall p :: Removed(s, p) ==> Removed(Next(s, e), p);
  }

  lemma WriteIntact(s: State, m: Sent)
    requires Intact(s) && Enabled(s, Write(m))
    ensures Intact(Next(s, Write(m)))
  {
    assert forall p :: Removed(s, p) ==> Removed(Next(s, Write(m)), p);
  }

  lemma TakeIntact(s: State, m: Sent)
    requires Intact(s) && Enabled(s, Take(m))
    ensures Intact(Next(s, Take(m)))
  {
    assert forall p :: Removed(s, p) ==> Removed(Next(s, Take(m)), p);
  }

  // Pacing and retention.

  /** Between two sends of one batch's results without a reconnect, at least this much time. */
  const RESEND_GAP := RESEND_AFTER + 1
  const MAX_RESENDS := 30

  /** No batch was sent later than now or with results past their age. */
  ghost predicate Timely(s: State) {
    && Issued(s.box)
    && (forall id :: id in s.box.inflight ==> s.box.inflight[id].sentAt <= s.clock)
    && (forall id, p :: id in s.box.inflight && p in s.box.inflight[id].results ==>
          Age(p, s.box.inflight[id].sentAt) <= RESULT_MAX_AGE)
  }

  lemma CollectedMembers(s: State, order: seq<BatchId>, p: ResultPtr)
    requires Visits(order, OverdueIds(s.box, s.clock)) && p in Collected(s.box, order, s.clock).queued
    ensures !Stale(p, s.clock)
    ensures p in s.box.queued || exists id :: id in OverdueIds(s.box, s.clock) && p in s.box.inflight[id].results
  {
    FreshMember(Requeued(s.box, order).queued, s.clock, p);
    PrependedMember(s.box.inflight, order, s.box.queued, p);
  }

  /** After a flush a batch is either one kept, not overdue, or a new one made of collected results. */
  lemma FlushedBatch(s: State, order: seq<BatchId>, id: BatchId)
    requires Issued(s.box) && Visits(order, OverdueIds(s.box, s.clock))
    requires id in Flushed(s.box, order, s.clock).inflight
    ensures var b := Flushed(s.box, order, s.clock).inflight[id];
            if id in s.box.inflight then b == s.box.inflight[id] && !Overdue(b, s.clock) && id !in order
            else b.sentAt == s.clock && forall p :: p in b.results ==> p in Collected(s.box, order, s.clock).queued
  {
    var c := Collected(s.box, order, s.clock);
    BatchedShape(c, s.clock);
    if id !in c.inflight {
      forall p | p in Batched(c, s.clock).inflight[id].results
        ensures p in c.queued
      {
        BatchedMembers(c, s.clock, id, p);
      }
    }
  }

  lemma FlushTimely(s: State, order: seq<BatchId>)
    requires Timely(s) && Visits(order, OverdueIds(s.box, s.clock))
    ensures Timely(AfterFlush(s, order))
  {
    var s' := AfterFlush(s, order);
    RequeuedConserves(s.box, order);
    BatchedConserves(Collected(s.box, order, s.clock), s.clock);
    forall id | id in s'.box.inflight
      ensures s'.box.inflight[id].sentAt <= s.clock
      ensures forall p :: p in s'.box.inflight[id].results ==> Age(p, s'.box.inflight[id].sentAt) <= RESULT_MAX_AGE
    {
      FlushedBatch(s, order, id);
      if id !in s.box.inflight {
        forall p | p in s'.box.inflight[id].results
          ensures Age(p, s.clock) <= RESULT_MAX_AGE
        {
          CollectedMembers(s, order, p);
        }
      }
    }
  }

  lemma StepTimely(s: State, e: Event)
    requires Timely(s)
    ensures Timely(Step(s, e))
  {
    if Enabled(s, e) {
      match e
      case Flush(order) => FlushTimely(s, order);
      case _ =>
    }
  }

  /** How often p has been sent, against its age and the reconnects that gave it back. */
  ghost predicate PacedAt(s: State, p: ResultPtr) {
    var n, r := s.past.placed[p], s.past.returned[p];
    && n <= MAX_RESENDS + r
    && (p !in s.past.enqueued ==> n == 0 && r == 0)
    && (p in s.box.queued ==> OnPace(n, r, Age(p, s.clock)))
    && (forall id :: id in s.box.inflight && p in s.box.inflight[id].results ==> SentOnPace(p, n, r, s.box.inflight[id].sentAt))
  }

  /** The last of n sends was at this time, and those before it had taken their gaps. */
  predicate SentOnPace(p: ResultPtr, n: int, r: int, sentAt: int) {
    n >= 1 && OnPace(n - 1, r, Age(p, sentAt))
  }

  /** Of n sends, those that r reconnects do not explain have taken a gap each. */
  predicate OnPace(n: int, r: int, age: int) {
    (n - r) * RESEND_GAP <= age
  }

  /** A result collected by a flush is collected once and in no batch that stays. */
  lemma CollectedOnce(s: State, order: seq<BatchId>, p: ResultPtr)
    requires Conserved(s) && Visits(order, OverdueIds(s.box, s.clock))
    ensures var sent := Collected(s.box, order, s.clock).queued;
            && multiset(sent)[p] == (if p in sent then 1 else 0)
            && (p in sent ==> forall id :: id in s.box.inflight && id !in order ==> p !in s.box.inflight[id].results)
  {
    var c := Requeued(s.box, order);
    RequeuedConserves(s.box, order);
    FreshMember(c.queued, s.clock, p);
    HeldMember(c.inflight, c.issued, p);
    assert Contents(s.box)[p] <= s.past.enqueued[p] <= 1;
    assert forall id :: id in s.box.inflight && id !in order ==> id in c.inflight && c.inflight[id] == s.box.inflight[id];
  }

  /** The two ways a result comes to be sent again keep its pace. */
  lemma CollectedPace(s: State, order: seq<BatchId>, p: ResultPtr)
    requires Conserved(s) && Timely(s) && PacedAt(s, p)
    requires Visits(order, OverdueIds(s.box, s.clock))
    requires p in Collected(s.box, order, s.clock).queued
    ensures p in s.past.enqueued
    ensures OnPace(s.past.placed[p], s.past.returned[p], Age(p, s.clock))
    ensures s.past.placed[p] < MAX_RESENDS + s.past.returned[p]
  {
    CollectedMembers(s, order, p);
    InContents(s.box, order, s.clock, p);
    if p !in s.box.queued {
      var id :| id in OverdueIds(s.box, s.clock) && p in s.box.inflight[id].results;
      assert Age(p, s.clock) >= Age(p, s.box.inflight[id].sentAt) + RESEND_GAP;
    }
  }

  lemma FlushPaced(s: State, order: seq<BatchId>, p: ResultPtr)
    requires Conserved(s) && Timely(s) && PacedAt(s, p)
    requires Visits(order, OverdueIds(s.box, s.clock))
    ensures PacedAt(AfterFlush(s, order), p)
  {
    var s' := AfterFlush(s, order);
    FlushPlaces(s, order, p);
    forall id | id in s'.box.inflight && p in s'.box.inflight[id].results
      ensures SentOnPace(p, s'.past.placed[p], s'.past.returned[p], s'.box.inflight[id].sentAt)
    {
      FlushedPace(s, order, p, id);
    }
  }

  lemma FlushedPace(s: State, order: seq<BatchId>, p: ResultPtr, id: BatchId)
    requires Conserved(s) && Timely(s) && PacedAt(s, p)
    requires Visits(order, OverdueIds(s.box, s.clock))
    requires id in AfterFlush(s, order).box.inflight && p in AfterFlush(s, order).box.inflight[id].results
    ensures var s' := AfterFlush(s, order);
            SentOnPace(p, s'.past.placed[p], s'.past.returned[p], s'.box.inflight[id].sentAt)
  {
    FlushedBatch(s, order, id);
    FlushPlaces(s, order, p);
  }

  /** A flush sends a collected result once more, on pace; it leaves the queue empty. */
  lemma FlushPlaces(s: State, order: seq<BatchId>, p: ResultPtr)
    requires Conserved(s) && Timely(s) && PacedAt(s, p)
    requires Visits(order, OverdueIds(s.box, s.clock))
    ensures var s' := AfterFlush(s, order);
            var sent := Collected(s.box, order, s.clock).queued;
            && s'.box.queued == []
            && s'.past.placed[p] == s.past.placed[p] + (if p in sent then 1 else 0)
            && s'.past.placed[p] <= MAX_RESENDS + s.past.returned[p]
            && (p in sent ==> p in s.past.enqueued && OnPace(s.past.placed[p], s.past.returned[p], Age(p, s.clock)))
            && (p in sent ==> forall id :: id in s.box.inflight && id !in order ==> p !in s.box.inflight[id].results)
  {
    CollectedOnce(s, order, p);
    RequeuedConserves(s.box, order);
    BatchedConserves(Collected(s.box, order, s.clock), s.clock);
    if p in Collected(s.box, order, s.clock).queued {
      CollectedPace(s, order, p);
    }
  }

  lemma InContents(b: Box, order: seq<BatchId>, now: int, p: ResultPtr)
    requires Issued(b) && Visits(order, OverdueIds(b, now)) && p in Collected(b, order, now).queued
    ensures p in Contents(b)
  {
    RequeuedConserves(b, order);
    FreshMember(Requeued(b, order).queued, now, p);
  }

  /** A reconnect gives back, once each, exactly the results in flight. */
  lemma ReconnectReturns(s: State, order: seq<BatchId>, p: ResultPtr)
    requires Conserved(s) && Visits(order, s.box.inflight.Keys)
    ensures var s' := AfterReconnect(s, order);
            var held := p in Held(s.box.inflight, s.box.issued);
            && s'.box.inflight == map[] && s'.channel == []
            && s'.past.returned[p] == s.past.returned[p] + (if held then 1 else 0)
            && (p in s'.box.queued <==> p in s.box.queued || held)
            && !(p in s.box.queued && held)
  {
    var s' := AfterReconnect(s, order);
    RequeuedConserves(s.box, order);
    assert s'.box.inflight == map[];
    HeldNothing(s.box.issued);
    assert Contents(s.box)[p] <= s.past.enqueued[p] <= 1;
    assert multiset(s'.box.queued)[p] == multiset(s.box.queued)[p] + Held(s.box.inflight, s.box.issued)[p];
  }

  lemma ReconnectPaced(s: State, order: seq<BatchId>, p: ResultPtr)
    requires Conserved(s) && Timely(s) && PacedAt(s, p)
    requires Visits(order, s.box.inflight.Keys)
    ensures PacedAt(AfterReconnect(s, order), p)
  {
    ReconnectReturns(s, order, p);
    HeldMember(s.box.inflight, s.box.issued, p);
    if p in Held(s.box.inflight, s.box.issued) {
      assert p in Contents(s.box) && p in s.past.enqueued;
      var id :| id in s.box.inflight && p in s.box.inflight[id].results;
      OnPaceAgain(s.past.placed[p], s.past.returned[p], Age(p, s.box.inflight[id].sentAt), Age(p, s.clock));
    }
  }

  /** One return excuses one send. */
  lemma OnPaceAgain(n: int, r: int, age: int, later: int)
    requires OnPace(n - 1, r, age) && age <= later
    ensures OnPace(n, r + 1, later)
  {
  }

  lemma {:induction false} HeldNothing(n: nat)
    ensures Held(map[], n) == multiset{}
  {
    if n > 0 {
      HeldNothing(n - 1);
    }
  }

  lemma EnqueuePaced(s: State, q: ResultPtr, p: ResultPtr)
    requires Conserved(s) && PacedAt(s, p)
    requires q.Ptr? && q.addr == s.nextAddr && Age(q, s.clock) >= 0
    ensures PacedAt(AfterEnqueue(s, q), p)
  {
    assert q !in s.past.enqueued;
  }

  lemma StepPaced(s: State, e: Event, p: ResultPtr)
    requires Conserved(s) && Timely(s) && PacedAt(s, p)
    ensures PacedAt(Step(s, e), p)
  {
    if Enabled(s, e) {
      match e
      case Enqueue(val) => EnqueuePaced(s, Ptr(s.nextAddr, val), p);
      case Flush(order) => FlushPaced(s, order, p);
      case Reconnect(order) => ReconnectPaced(s, order, p);
      case _ =>
    }
  }

  // Order.

  predicate NeverSent(placed: multiset<ResultPtr>, p: ResultPtr) {
    placed[p] == 0
  }

  ghost predicate InOrderAt(placed: multiset<ResultPtr>, p: ResultPtr, q: ResultPtr) {
    && p.Ptr? && q.Ptr?
    && (NeverSent(placed, q) ==> p.addr < q.addr)
    && (NeverSent(placed, p) ==> NeverSent(placed, q))
  }

  /**
   The queue is a requeued part followed by a fresh part in enqueue order, and
   the fresh part is younger than everything before it. Addresses grow in
   enqueue order.
   */
  ghost predicate QueueOrdered(placed: multiset<ResultPtr>, q: seq<ResultPtr>) {
    forall i, j :: 0 <= i < j < |q| ==> InOrderAt(placed, q[i], q[j])
  }

  /** Everything in flight has been sent, and is older than anything in the queue, which has not. */
  ghost predicate HeldFirst(placed: multiset<ResultPtr>, held: multiset<ResultPtr>, queued: seq<ResultPtr>) {
    && (forall p :: p in held ==> !NeverSent(placed, p))
    && (forall p, j :: p in held && 0 <= j < |queued| ==> NeverSent(placed, queued[j]) && InOrderAt(placed, p, queued[j]))
  }

  ghost predicate Ordered(s: State) {
    && QueueOrdered(s.past.placed, s.box.queued)
    && HeldFirst(s.past.placed, Held(s.box.inflight, s.box.issued), s.box.queued)
  }

  lemma YoungestLast(placed: multiset<ResultPtr>, held: multiset<ResultPtr>, q: seq<ResultPtr>, p: ResultPtr)
    requires QueueOrdered(placed, q) && HeldFirst(placed, held, q)
    requires p.Ptr? && NeverSent(placed, p)
    requires forall x :: x in q || x in held ==> x.Ptr? && x.addr < p.addr
    ensures QueueOrdered(placed, q + [p]) && HeldFirst(placed, held, q + [p])
  {
    forall i, j | 0 <= i < j < |q + [p]|
      ensures InOrderAt(placed, (q + [p])[i], (q + [p])[j])
    {
      assert j < |q| ==> InOrderAt(placed, q[i], q[j]);
      assert q[i] in q;
    }
  }

  lemma KnownAddresses(s: State)
    requires Conserved(s)
    ensures forall x :: x in s.box.queued || x in Held(s.box.inflight, s.box.issued) ==>
              x in s.past.enqueued && x.Ptr? && x.addr < s.nextAddr
  {
    assert forall x :: x in s.box.queued || x in Held(s.box.inflight, s.box.issued) ==> x in Contents(s.box);
  }

  lemma EnqueueOrdered(s: State, p: ResultPtr)
    requires Conserved(s) && PacedAt(s, p) && Ordered(s)
    requires p.Ptr? && p.addr == s.nextAddr
    ensures QueueOrdered(s.past.placed, s.box.queued + [p])
    ensures Ordered(AfterEnqueue(s, p))
  {
    KnownAddresses(s);
    YoungestLast(s.past.placed, Held(s.box.inflight, s.box.issued), s.box.queued, p);
  }

  lemma FlushOrdered(s: State, order: seq<BatchId>)
    requires Conserved(s) && Timely(s) && Visits(order, OverdueIds(s.box, s.clock))
    requires forall p :: PacedAt(s, p)
    ensures Ordered(AfterFlush(s, order))
  {
    var s' := AfterFlush(s, order);
    RequeuedConserves(s.box, order);
    BatchedConserves(Collected(s.box, order, s.clock), s.clock);
    forall p | p in Held(s'.box.inflight, s'.box.issued)
      ensures !NeverSent(s'.past.placed, p)
    {
      HeldMember(s'.box.inflight, s'.box.issued, p);
      FlushPaced(s, order, p);
    }
  }

  lemma AckOrdered(s: State, id: BatchId)
    requires Conserved(s) && Ordered(s)
    ensures Ordered(AfterAck(s, id))
  {
    if id in s.box.inflight {
      HeldRemove(s.box.inflight, id, s.box.issued);
    } else {
      assert Acked(s.box, id) == s.box;
    }
  }

  lemma GivenBack(placed: multiset<ResultPtr>, held: multiset<ResultPtr>, x: seq<ResultPtr>, q: seq<ResultPtr>)
    requires QueueOrdered(placed, q) && HeldFirst(placed, held, q)
    requires forall i :: 0 <= i < |x| ==> x[i] in held && x[i].Ptr?
    ensures QueueOrdered(placed, x + q)
  {
    forall i, j | 0 <= i < j < |x + q|
      ensures InOrderAt(placed, (x + q)[i], (x + q)[j])
    {
      assert i >= |x| ==> InOrderAt(placed, q[i - |x|], q[j - |x|]);
      assert i < |x| <= j ==> InOrderAt(placed, x[i], q[j - |x|]);
    }
  }

  lemma ReconnectOrdered(s: State, order: seq<BatchId>)
    requires Conserved(s) && Ordered(s) && Visits(order, s.box.inflight.Keys)
    ensures Ordered(AfterReconnect(s, order))
  {
    var s' := AfterReconnect(s, order);
    var x := Prepended(s.box.inflight, order, []);
    PrependedSplits(s.box.inflight, order, s.box.queued);
    assert s'.box.inflight == map[];
    HeldNothing(s.box.issued);
    KnownAddresses(s);
    forall i | 0 <= i < |x|
      ensures x[i] in Held(s.box.inflight, s.box.issued)
    {
      PrependedMember(s.box.inflight, order, [], x[i]);
      HeldMember(s.box.inflight, s.box.issued, x[i]);
    }
    GivenBack(s.past.placed, Held(s.box.inflight, s.box.issued), x, s.box.queued);
  }

  lemma StepOrdered(s: State, e: Event)
    requires Conserved(s) && Timely(s) && Ordered(s) && forall p :: PacedAt(s, p)
    ensures Ordered(Step(s, e))
  {
    if Enabled(s, e) {
      match e
      case Enqueue(val) => EnqueueOrdered(s, Ptr(s.nextAddr, val));
      case Flush(order) => FlushOrdered(s, order);
      case Ack(id) => AckOrdered(s, id);
      case Reconnect(order) => ReconnectOrdered(s, order);
      case _ =>
    }
  }

  // Every run.

  ghost predicate Invariant(s: State) {
    && Conserved(s)
    && Intact(s)
    && Timely(s)
    && (forall p :: PacedAt(s, p))
    && Ordered(s)
  }

  lemma {:induction false} RunInvariant(clock: int, events: seq<Event>)
    ensures Invariant(Run(clock, events))
  {
    if events != [] {
      var n := |events| - 1;
      var s := Run(clock, events[..n]);
      RunInvariant(clock, events[..n]);
      StepConserves(s, events[n]);
      StepIntact(s, events[n]);
      StepTimely(s, events[n]);
      StepOrdered(s, events[n]);
      forall p
        ensures PacedAt(Step(s, events[n]), p)
      {
        StepPaced(s, events[n], p);
      }
    }
  }
}
