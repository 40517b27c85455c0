/** Which results an overflowing queue drops, and when those are the oldest. */
module Overflow {
  import opened Messages
  import opened Outbox
  import opened OutboxFacts
  import OutboxArrays
  import opened Delivery
  import opened DeliverySafety
  import opened DeliveryTheorems

  /** Results are numbered in the order they were enqueued. */
  function Rank(p: ResultPtr): int {
    if p.Nil? then -1 else p.addr
  }

  ghost predicate AllBefore(a: seq<ResultPtr>, b: seq<ResultPtr>) {
    forall p, q :: p in a && q in b ==> Rank(p) < Rank(q)
  }

  /** Oldest first. */
  ghost predicate InAge(q: seq<ResultPtr>) {
    forall i, j :: 0 <= i < j < |q| ==> Rank(q[i]) < Rank(q[j])
  }

  /** Everything in front of the cut is older than everything behind it. */
  ghost predicate OldestFirst(q: seq<ResultPtr>, cut: nat) {
    forall i, j :: 0 <= i < cut <= j < |q| ==> Rank(q[i]) < Rank(q[j])
  }

  /** The results at the front of the queue that have been sent before. */
  function SentPart(placed: multiset<ResultPtr>, q: seq<ResultPtr>): (r: seq<ResultPtr>)
    ensures r <= q
    ensures forall i :: 0 <= i < |r| ==> !NeverSent(placed, q[i])
    ensures |r| < |q| ==> NeverSent(placed, q[|r|])
  {
    if q == [] || NeverSent(placed, q[0]) then [] else [q[0]] + SentPart(placed, q[1..])
  }

  /** Only results sent before can be out of order. */
  lemma RestInAge(placed: multiset<ResultPtr>, q: seq<ResultPtr>, i: nat, j: nat)
    requires QueueOrdered(placed, q) && |SentPart(placed, q)| <= j && i < j < |q|
    ensures Rank(q[i]) < Rank(q[j])
  {
    var n := |SentPart(placed, q)|;
    assert InOrderAt(placed, q[i], q[j]);
    if n < j {
      assert InOrderAt(placed, q[n], q[j]);
    }
  }

  /** Dropping what is in front of the cut drops the oldest, if and only if it does so among the results sent before. */
  ghost predicate CutExact(placed: multiset<ResultPtr>, q: seq<ResultPtr>, p: ResultPtr, cut: nat) {
    OldestFirst(q + [p], cut) <==> OldestFirst(SentPart(placed, q), cut)
  }

  lemma CutOldestFirst(placed: multiset<ResultPtr>, q: seq<ResultPtr>, p: ResultPtr, cut: nat)
    requires QueueOrdered(placed, q + [p]) && NeverSent(placed, p)
    ensures CutExact(placed, q, p, cut)
  {
    var all, sent := q + [p], SentPart(placed, q);
    assert QueueOrdered(placed, q) by {
      forall i, j | 0 <= i < j < |q|
        ensures InOrderAt(placed, q[i], q[j])
      {
        assert InOrderAt(placed, all[i], all[j]);
      }
    }
    if OldestFirst(sent, cut) {
      forall i, j | 0 <= i < cut <= j < |all|
        ensures Rank(all[i]) < Rank(all[j])
      {
        if j == |q| {
          assert InOrderAt(placed, all[i], all[j]);
        } else if |sent| <= j {
          RestInAge(placed, q, i, j);
        } else {
          assert Rank(sent[i]) < Rank(sent[j]);
        }
      }
    }
    if OldestFirst(all, cut) {
      forall i, j | 0 <= i < cut <= j < |sent|
        ensures Rank(sent[i]) < Rank(sent[j])
      {
        assert Rank(all[i]) < Rank(all[j]);
      }
    }
  }

  /** How many results an enqueue of p drops. */
  function Dropped(b: Box, p: ResultPtr): nat {
    |b.queued| + 1 - |Enqueued(b, p).queued|
  }

  lemma EnqueueOldestFirst(s: State, p: ResultPtr)
    requires Conserved(s) && PacedAt(s, p) && Ordered(s)
    requires p.Ptr? && p.addr == s.nextAddr
    ensures Dropped(s.box, p) == if |s.box.queued| + 1 > OUTBOX_MAX then |s.box.queued| + 1 - OUTBOX_MAX else 0
    ensures CutExact(s.past.placed, s.box.queued, p, Dropped(s.box, p))
  {
    EnqueueOrdered(s, p);
    assert p !in s.past.enqueued;
    CutOldestFirst(s.past.placed, s.box.queued, p, Dropped(s.box, p));
  }

  /**
   In every reachable state, an enqueue drops the oldest results first if and
   only if that is so among the results sent before, which are at the front of
   the queue: those dropped are older than those kept.
   */
  lemma OldestDroppedFirst(clock: int, events: seq<Event>, val: SlotResult)
    requires Enabled(Run(clock, events), Enqueue(val))
    ensures var s := Run(clock, events);
            var p := Ptr(s.nextAddr, val);
            var over := Dropped(s.box, p);
            && Run(clock, events + [Enqueue(val)]).box.queued == (s.box.queued + [p])[over..]
            && CutExact(s.past.placed, s.box.queued, p, over)
  {
    var s := Run(clock, events);
    var p := Ptr(s.nextAddr, val);
    assert (events + [Enqueue(val)])[..|events|] == events;
    RunConserved(clock, events);
    RunOrdered(clock, events);
    RunPaced(clock, events, p);
    EnqueueOldestFirst(s, p);
  }

  /** However many results are dropped from it, a queue drops the oldest first if and only if its sent part is in age order. */
  lemma AnyCut(q: seq<ResultPtr>)
    ensures (forall cut: nat :: OldestFirst(q, cut)) <==> InAge(q)
  {
    if forall cut: nat :: OldestFirst(q, cut) {
      forall i, j | 0 <= i < j < |q|
        ensures Rank(q[i]) < Rank(q[j])
      {
        assert OldestFirst(q, j);
      }
    }
  }

  // Until the next reconnect.

  ghost predicate Unsent(s: State) {
    forall p :: p in s.box.queued ==> NeverSent(s.past.placed, p)
  }

  lemma EnqueueUnsent(s: State, p: ResultPtr)
    requires Conserved(s) && PacedAt(s, p) && Unsent(s)
    requires p.Ptr? && p.addr == s.nextAddr
    ensures Unsent(AfterEnqueue(s, p))
  {
    assert p !in s.past.enqueued;
    var q := s.box.queued + [p];
    assert forall x :: x in AfterEnqueue(s, p).box.queued ==> x in q;
  }

  lemma StepUnsent(s: State, e: Event)
    requires Conserved(s) && Unsent(s) && !e.Reconnect? && forall p :: PacedAt(s, p)
    ensures Unsent(Step(s, e))
  {
    if Enabled(s, e) {
      match e
      case Enqueue(val) => EnqueueUnsent(s, Ptr(s.nextAddr, val));
      case Flush(order) =>
        RequeuedConserves(s.box, order);
        BatchedConserves(Collected(s.box, order, s.clock), s.clock);
      case _ =>
    }
  }

  lemma {:induction false} UnsentUntilReconnect(clock: int, events: seq<Event>, later: seq<Event>)
    requires Unsent(Run(clock, events)) && NoReconnect(later)
    ensures Unsent(Run(clock, events + later))
  {
    if later == [] {
      assert events + later == events;
    } else {
      var n := |later| - 1;
      UnsentUntilReconnect(clock, events, later[..n]);
      RunInvariant(clock, events + later[..n]);
      RunThen(clock, events, later);
      StepUnsent(Run(clock, events + later[..n]), later[n]);
    }
  }

  /** From an empty queue on, as every flush leaves it, oldest are dropped first until the next reconnect. */
  lemma OldestFirstUntilReconnect(clock: int, events: seq<Event>, later: seq<Event>, val: SlotResult)
    requires Run(clock, events).box.queued == [] && NoReconnect(later)
    requires Enabled(Run(clock, events + later), Enqueue(val))
    ensures var s := Run(clock, events + later);
            var p := Ptr(s.nextAddr, val);
            var over := Dropped(s.box, p);
            && SentPart(s.past.placed, s.box.queued) == []
            && Run(clock, events + later + [Enqueue(val)]).box.queued == (s.box.queued + [p])[over..]
            && OldestFirst(s.box.queued + [p], over)
  {
    var s := Run(clock, events + later);
    UnsentUntilReconnect(clock, events, later);
    assert SentPart(s.past.placed, s.box.queued) == [] by {
      assert s.box.queued != [] ==> s.box.queued[0] in s.box.queued;
    }
    OldestDroppedFirst(clock, events + later, val);
  }

  // What order a reconnect leaves.

  /** The batches are in age order themselves, and younger ones are visited before older ones. */
  ghost predicate YoungestVisitedFirst(m: map<BatchId, Batch>, order: seq<BatchId>)
    requires forall id :: id in order ==> id in m
  {
    && (forall i :: 0 <= i < |order| ==> InAge(m[order[i]].results))
    && (forall i, j :: 0 <= i < j < |order| ==> AllBefore(m[order[j]].results, m[order[i]].results))
  }

  lemma InAgeSplits(a: seq<ResultPtr>, b: seq<ResultPtr>)
    ensures InAge(a + b) <==> InAge(a) && InAge(b) && AllBefore(a, b)
  {
    var c := a + b;
    if InAge(c) {
      forall i, j | 0 <= i < j < |a|
        ensures Rank(a[i]) < Rank(a[j])
      {
        assert Rank(c[i]) < Rank(c[j]);
      }
      forall i, j | 0 <= i < j < |b|
        ensures Rank(b[i]) < Rank(b[j])
      {
        assert Rank(c[|a| + i]) < Rank(c[|a| + j]);
      }
      forall p, q | p in a && q in b
        ensures Rank(p) < Rank(q)
      {
        var i :| 0 <= i < |a| && a[i] == p;
        var j :| 0 <= j < |b| && b[j] == q;
        assert Rank(c[i]) < Rank(c[|a| + j]);
      }
    }
  }

  lemma BeforePrepended(a: seq<ResultPtr>, m: map<BatchId, Batch>, order: seq<BatchId>, q: seq<ResultPtr>)
    requires forall id :: id in order ==> id in m
    requires AllBefore(a, q)
    ensures AllBefore(a, Prepended(m, order, q)) <==> forall i :: 0 <= i < |order| ==> AllBefore(a, m[order[i]].results)
  {
    var r := Prepended(m, order, q);
    forall x
      ensures x in r <==> x in q || exists id :: id in order && x in m[id].results
    {
      PrependedMember(m, order, q, x);
    }
    if AllBefore(a, r) {
      forall i | 0 <= i < |order|
        ensures AllBefore(a, m[order[i]].results)
      {
        assert forall x :: x in m[order[i]].results ==> order[i] in order && x in r;
      }
    }
    if forall i :: 0 <= i < |order| ==> AllBefore(a, m[order[i]].results) {
      forall p, x | p in a && x in r
        ensures Rank(p) < Rank(x)
      {
        if x !in q {
          var id :| id in order && x in m[id].results;
          var i :| 0 <= i < |order| && order[i] == id;
          assert AllBefore(a, m[order[i]].results);
        }
      }
    }
  }

  lemma {:induction false} PrependedInAge(m: map<BatchId, Batch>, order: seq<BatchId>, q: seq<ResultPtr>)
    requires forall id :: id in order ==> id in m && AllBefore(m[id].results, q)
    ensures InAge(Prepended(m, order, q)) <==> YoungestVisitedFirst(m, order) && InAge(q)
  {
    if order != [] {
      var n := |order| - 1;
      var a, init := m[order[n]].results, order[..n];
      PrependedInAge(m, init, q);
      InAgeSplits(a, Prepended(m, init, q));
      BeforePrepended(a, m, init, q);
      VisitedNext(m, order);
    }
  }

  lemma VisitedNext(m: map<BatchId, Batch>, order: seq<BatchId>)
    requires order != [] && forall id :: id in order ==> id in m
    ensures var n := |order| - 1;
            var a, init := m[order[n]].results, order[..n];
            YoungestVisitedFirst(m, order) <==>
            YoungestVisitedFirst(m, init) && InAge(a) && forall i :: 0 <= i < |init| ==> AllBefore(a, m[init[i]].results)
  {
    var n := |order| - 1;
    var init := order[..n];
    assert forall i :: 0 <= i < n ==> init[i] == order[i];
  }

  /**
   A reconnect leaves the queue in age order if and only if it was before, and
   the map is iterated over from the youngest batch to the oldest.
   */
  lemma ReconnectInAge(clock: int, events: seq<Event>, order: seq<BatchId>)
    requires Enabled(Run(clock, events), Reconnect(order))
    ensures var s := Run(clock, events);
            InAge(Run(clock, events + [Reconnect(order)]).box.queued)
            <==> YoungestVisitedFirst(s.box.inflight, order) && InAge(s.box.queued)
  {
    var s := Run(clock, events);
    assert (events + [Reconnect(order)])[..|events|] == events;
    RunInvariant(clock, events);
    forall id | id in order
      ensures AllBefore(s.box.inflight[id].results, s.box.queued)
    {
      forall p, q | p in s.box.inflight[id].results && q in s.box.queued
        ensures Rank(p) < Rank(q)
      {
        HeldMember(s.box.inflight, s.box.issued, p);
        var j :| 0 <= j < |s.box.queued| && s.box.queued[j] == q;
        assert InOrderAt(s.past.placed, p, s.box.queued[j]);
      }
    }
    PrependedInAge(s.box.inflight, order, s.box.queued);
  }

  /** A reconnect can leave more than the limit: exactly if the queue and the batches in flight held more before. */
  lemma ReconnectLength(clock: int, events: seq<Event>, order: seq<BatchId>)
    requires Enabled(Run(clock, events), Reconnect(order))
    ensures var s := Run(clock, events);
            var n := |Run(clock, events + [Reconnect(order)]).box.queued|;
            && n == |s.box.queued| + |Held(s.box.inflight, s.box.issued)|
            && (n > 10_000 <==> |Contents(s.box)| > 10_000)
  {
    var s := Run(clock, events);
    assert (events + [Reconnect(order)])[..|events|] == events;
    RunInvariant(clock, events);
    RequeuedConserves(s.box, order);
    var r := Requeued(s.box, order);
    assert r.inflight == map[];
    HeldNothing(s.box.issued);
    assert multiset(r.queued) == Contents(s.box);
    assert |multiset(r.queued)| == |r.queued|;
  }

  // Two runs: an older result outlives a younger one, and a reconnect leaves more than the limit.

  const VAL := SlotResult([], 0, 0, [], 0, 0, [])

  function Repeated(n: nat): seq<Event> {
    seq(n, _ => Enqueue(VAL))
  }

  lemma RunNext(events: seq<Event>, e: Event)
    requires Enabled(Run(0, events), e)
    ensures Run(0, events + [e]) == Next(Run(0, events), e)
  {
    assert (events + [e])[..|events|] == events;
  }

  /** n more results, as long as they fit. */
  lemma {:induction false} ManyEnqueues(events: seq<Event>, n: nat)
    requires Run(0, events).clock == 0 && |Run(0, events).box.queued| + n <= OUTBOX_MAX
    ensures var s, s' := Run(0, events), Run(0, events + Repeated(n));
            && s.box.queued <= s'.box.queued && |s'.box.queued| == |s.box.queued| + n
            && s' == s.(box := s.box.(queued := s'.box.queued), nextAddr := s.nextAddr + n, past := s.past.(enqueued := s'.past.enqueued))
            && (forall i :: |s.box.queued| <= i < |s'.box.queued| ==> s'.box.queued[i].Ptr? && s'.box.queued[i].val == VAL)
  {
    if n == 0 {
      assert events + Repeated(0) == events;
    } else {
      ManyEnqueues(events, n - 1);
      assert events + Repeated(n) == events + Repeated(n - 1) + [Enqueue(VAL)];
      RunNext(events + Repeated(n - 1), Enqueue(VAL));
      var s' := Run(0, events + Repeated(n - 1));
      assert s'.past.overflowed + multiset([]) == s'.past.overflowed;
    }
  }

  /** A flush of one result, with nothing overdue. */
  lemma FlushOne(b: Box, p: ResultPtr, now: int)
    requires b.queued == [p] && !Stale(p, now) && OverdueIds(b, now) == {}
    ensures Visits([], OverdueIds(b, now))
    ensures Requeued(b, []) == b && Fresh(b.queued, now) == b.queued
    ensures Flushed(b, [], now) == Box([], b.inflight[b.issued := Batch([p], now)], b.issued + 1)
  {
    assert b.inflight - (set id: BatchId | id in []) == b.inflight;
    assert Fresh([p][..0], now) == [];
    assert [p][..1] == [p] && [p][1..] == [];
    assert BatchedOne(b, now) == Box([], b.inflight[b.issued := Batch([p], now)], b.issued + 1);
    assert Batched(b, now) == Batched(BatchedOne(b, now), now);
  }

  const FIRST := Ptr(0, VAL)
  const SECOND := Ptr(1, VAL)

  lemma EnqueueOntoEmpty(s: State, p: ResultPtr)
    requires s.box.queued == []
    ensures AfterEnqueue(s, p).box == s.box.(queued := [p])
    ensures AfterEnqueue(s, p).past.overflowed == s.past.overflowed
  {
  }

  lemma OneQueued(events: seq<Event>) returns (events': seq<Event>)
    requires Run(0, events).clock == 0 && Run(0, events).box.queued == []
    ensures var s, s' := Run(0, events), Run(0, events');
            && s'.clock == 0 && s'.nextAddr == s.nextAddr + 1 && s'.past.overflowed == s.past.overflowed
            && s'.box == s.box.(queued := [Ptr(s.nextAddr, VAL)])
  {
    RunNext(events, Enqueue(VAL));
    EnqueueOntoEmpty(Run(0, events), Ptr(Run(0, events).nextAddr, VAL));
    events' := events + [Enqueue(VAL)];
  }

  lemma OneFlushed(events: seq<Event>, p: ResultPtr) returns (events': seq<Event>)
    requires var s := Run(0, events);
             s.clock == 0 && s.box.queued == [p] && !Stale(p, 0) && OverdueIds(s.box, 0) == {}
    ensures var s, s' := Run(0, events), Run(0, events');
            && s'.clock == 0 && s'.nextAddr == s.nextAddr && s'.past.overflowed == s.past.overflowed
            && s'.box == Box([], s.box.inflight[s.box.issued := Batch([p], 0)], s.box.issued + 1)
  {
    FlushOne(Run(0, events).box, p, 0);
    RunNext(events, Flush([]));
    events' := events + [Flush([])];
  }

  /** Two results, each sent in a batch of its own. */
  lemma TwoSent() returns (events: seq<Event>)
    ensures var s := Run(0, events);
            && s.clock == 0 && s.box == Box([], map[0 := Batch([FIRST], 0), 1 := Batch([SECOND], 0)], 2)
            && s.past.overflowed == multiset{}
  {
    events := OneQueued([]);
    events := OneFlushed(events, FIRST);
    events := OneQueued(events);
    events := OneFlushed(events, SECOND);
  }

  /** They come back in the order of the map. */
  lemma Returned() returns (events: seq<Event>)
    ensures var s := Run(0, events);
            s.clock == 0 && s.box.queued == [SECOND, FIRST] && s.past.overflowed == multiset{}
  {
    var sent := TwoSent();
    var b := Run(0, sent).box;
    assert [0, 1][..1] == [0] && [0][..0] == [];
    assert Prepended(b.inflight, [0], []) == [FIRST] + [];
    assert Prepended(b.inflight, [0, 1], []) == [SECOND] + [FIRST];
    RunNext(sent, Reconnect([0, 1]));
    events := sent + [Reconnect([0, 1])];
  }

  lemma EnqueueOntoFull(s: State, p: ResultPtr)
    requires |s.box.queued| == OUTBOX_MAX
    ensures var s' := AfterEnqueue(s, p);
            && s'.box.queued == s.box.queued[1..] + [p]
            && s'.past.overflowed == s.past.overflowed + multiset{s.box.queued[0]}
  {
    var q := s.box.queued + [p];
    assert q[1..] == s.box.queued[1..] + [p] && q[..1] == [s.box.queued[0]];
  }

  /** The oldest are not always dropped first: here the second result goes, and the first stays. */
  lemma OlderOutlivesYounger() returns (events: seq<Event>)
    ensures Enabled(Run(0, events), Enqueue(VAL))
    ensures var s' := Run(0, events + [Enqueue(VAL)]);
            s'.past.overflowed == multiset{SECOND} && FIRST in s'.box.queued
  {
    var returned := Returned();
    ManyEnqueues(returned, OUTBOX_MAX - 2);
    events := returned + Repeated(OUTBOX_MAX - 2);
    var s := Run(0, events);
    assert s.box.queued[0] == SECOND && s.box.queued[1] == FIRST;
    RunNext(events, Enqueue(VAL));
    EnqueueOntoFull(s, Ptr(s.nextAddr, VAL));
    assert s.box.queued[1..][0] == FIRST;
  }

  /** The first flush of all, when nothing is stale. */
  lemma FlushFirst(b: Box, now: int)
    requires b.inflight == map[] && b.issued == 0 && forall p :: p in b.queued ==> !Stale(p, now)
    ensures Visits([], OverdueIds(b, now))
    ensures var r := Flushed(b, [], now);
            && r.queued == [] && |Held(r.inflight, r.issued)| == |b.queued|
            && (forall id: BatchId :: id in r.inflight <==> id < r.issued)
  {
    var c := Collected(b, [], now);
    OutboxArrays.FreshAll(b.queued, now);
    assert c == b;
    BatchedConserves(b, now);
    BatchedShape(b, now);
    var r := Batched(b, now);
    assert Contents(b) == multiset(b.queued);
    assert Contents(r) == Held(r.inflight, r.issued);
  }

  function UpTo(n: nat): seq<BatchId> {
    seq(n, i => i)
  }

  lemma UpToVisits(n: nat, ids: set<BatchId>)
    requires forall id: BatchId :: id in ids <==> id < n
    ensures Visits(UpTo(n), ids)
  {
    var order := UpTo(n);
    forall id: BatchId
      ensures id in order <==> id in ids
    {
      if id < n {
        assert order[id] == id;
      }
    }
  }

  /** A full queue is sent, one more result comes in, and everything comes back. */
  lemma LimitExceeded() returns (events: seq<Event>, order: seq<BatchId>)
    ensures |Run(0, events).box.queued| == 1
    ensures Enabled(Run(0, events), Reconnect(order))
    ensures |Run(0, events + [Reconnect(order)]).box.queued| == 10_001
  {
    ManyEnqueues([], OUTBOX_MAX);
    var full := [] + Repeated(OUTBOX_MAX);
    FlushFirst(Run(0, full).box, 0);
    RunNext(full, Flush([]));
    var sent := full + [Flush([])];
    RunNext(sent, Enqueue(VAL));
    events := sent + [Enqueue(VAL)];
    var b := Run(0, events).box;
    order := UpTo(b.issued);
    UpToVisits(b.issued, b.inflight.Keys);
    ReconnectLength(0, events, order);
  }
}
