/** What one outbox operation conserves, and the exact shape of the batches a flush builds. */
module OutboxFacts {
  import opened Outbox
  import opened Sequences

  /** Every batch in flight has been issued. */
  ghost predicate Issued(b: Box) {
    forall id :: id in b.inflight ==> id < b.issued
  }

  /** All results held in batches with an id below n. */
  ghost function Held(m: map<BatchId, Batch>, n: nat): multiset<ResultPtr> {
    if n == 0 then multiset{}
    else Held(m, n - 1) + if n - 1 in m then multiset(m[n - 1].results) else multiset{}
  }

  /** All results in the outbox. */
  ghost function Contents(b: Box): multiset<ResultPtr> {
    multiset(b.queued) + Held(b.inflight, b.issued)
  }

  lemma {:induction false} HeldAgree(m: map<BatchId, Batch>, m': map<BatchId, Batch>, n: nat)
    requires forall i: nat :: i < n ==> (i in m <==> i in m') && (i in m ==> m[i].results == m'[i].results)
    ensures Held(m, n) == Held(m', n)
  {
    if n > 0 {
      HeldAgree(m, m', n - 1);
    }
  }

  lemma {:induction false} HeldRemove(m: map<BatchId, Batch>, id: BatchId, n: nat)
    requires id in m && id < n
    ensures Held(m, n) == Held(m - {id}, n) + multiset(m[id].results)
  {
    if id == n - 1 {
      HeldAgree(m, m - {id}, n - 1);
    } else {
      HeldRemove(m, id, n - 1);
    }
  }

  lemma {:induction false} HeldMember(m: map<BatchId, Batch>, n: nat, p: ResultPtr)
    ensures p in Held(m, n) <==> exists id :: id in m && id < n && p in m[id].results
  {
    if n > 0 {
      HeldMember(m, n - 1, p);
    }
  }

  /** Whatever order the map iteration takes, requeueing moves results and loses none. */
  lemma {:induction false} RequeuedConserves(b: Box, order: seq<BatchId>)
    requires Issued(b)
    requires forall id :: id in order ==> id in b.inflight
    requires forall i, j :: 0 <= i < j < |order| ==> order[i] != order[j]
    ensures Issued(Requeued(b, order)) && Contents(Requeued(b, order)) == Contents(b)
  {
    var r := Requeued(b, order);
    if order == [] {
      assert r.inflight == b.inflight;
    } else {
      var n := |order| - 1;
      var id := order[n];
      var r' := Requeued(b, order[..n]);
      RequeuedConserves(b, order[..n]);
      assert id !in order[..n];
      assert order == order[..n] + [id];
      assert r.inflight == r'.inflight - {id};
      HeldRemove(r'.inflight, id, b.issued);
    }
  }

  lemma {:induction false} PrependedMember(m: map<BatchId, Batch>, order: seq<BatchId>, q: seq<ResultPtr>, p: ResultPtr)
    requires forall id :: id in order ==> id in m
    ensures p in Prepended(m, order, q) <==> p in q || exists id :: id in order && p in m[id].results
  {
    if order != [] {
      var n := |order| - 1;
      PrependedMember(m, order[..n], q, p);
      assert order == order[..n] + [order[n]];
    }
  }

  lemma {:induction false} FreshMember(q: seq<ResultPtr>, now: int, p: ResultPtr)
    ensures multiset(Fresh(q, now))[p] == if Stale(p, now) then 0 else multiset(q)[p]
    ensures p in Fresh(q, now) <==> p in q && !Stale(p, now)
  {
    if q != [] {
      var n := |q| - 1;
      FreshMember(q[..n], now, p);
      assert q == q[..n] + [q[n]];
    }
  }

  /** The result at i completed at most 5 minutes ago. */
  ghost predicate YoungHere(q: seq<ResultPtr>, now: int, i: nat) {
    i < |q| && now - CompletedAt(q[i]) * 1_000_000 <= 300_000_000_000
  }

  lemma YoungHereInit(q: seq<ResultPtr>, now: int)
    requires q != []
    ensures var init := q[..|q| - 1];
            forall i: nat :: i < |init| ==> (YoungHere(init, now, i) <==> YoungHere(q, now, i))
  {
  }

  lemma YoungHereLast(q: seq<ResultPtr>, now: int)
    requires q != []
    ensures var n := |q| - 1;
            Fresh(q, now) == Fresh(q[..n], now) + if YoungHere(q, now, n) then [q[n]] else []
  {
  }

  /** The age filter keeps, in order, exactly the results at the places `at`. */
  lemma {:induction false} FreshInOrder(q: seq<ResultPtr>, now: int) returns (at: seq<nat>)
    ensures |at| == |Fresh(q, now)| && forall k :: 0 <= k < |at| ==> at[k] < |q| && q[at[k]] == Fresh(q, now)[k]
    ensures forall j, k :: 0 <= j < k < |at| ==> at[j] < at[k]
    ensures forall i: nat :: i in at <==> YoungHere(q, now, i)
  {
    at := [];
    if q != [] {
      var n := |q| - 1;
      at := FreshInOrder(q[..n], now);
      YoungHereInit(q, now);
      YoungHereLast(q, now);
      if YoungHere(q, now, n) {
        OnePlaceMore(at, n);
        at := at + [n];
      }
    }
  }

  lemma BatchedOneConserves(b: Box, now: int)
    requires Issued(b)
    ensures Issued(BatchedOne(b, now)) && Contents(BatchedOne(b, now)) == Contents(b)
  {
    var n := BatchSize(b.queued);
    HeldAgree(b.inflight, BatchedOne(b, now).inflight, b.issued);
    assert b.queued == b.queued[..n] + b.queued[n..];
  }

  lemma {:induction false} BatchedConserves(b: Box, now: int)
    requires Issued(b)
    ensures var r := Batched(b, now);
            Issued(r) && r.queued == [] && Contents(r) == Contents(b)
    decreases |b.queued|
  {
    if b.queued != [] {
      BatchedOneConserves(b, now);
      BatchedConserves(BatchedOne(b, now), now);
    }
  }

  function BatchCount(q: seq<ResultPtr>): nat {
    (|q| + BATCH_MAX - 1) / BATCH_MAX
  }

  /** The batching loop adds ceil(n/100) batches under consecutive new ids, made of queued results and sent now. */
  lemma {:induction false} BatchedShape(b: Box, now: int)
    requires Issued(b)
    ensures var r := Batched(b, now);
            && r.issued == b.issued + BatchCount(b.queued)
            && (forall id :: id in r.inflight <==> id in b.inflight || b.issued <= id < r.issued)
            && (forall id :: id in b.inflight ==> r.inflight[id] == b.inflight[id])
            && (forall id :: b.issued <= id < r.issued ==> r.inflight[id].sentAt == now)
    decreases |b.queued|
  {
    if b.queued != [] {
      var one := BatchedOne(b, now);
      BatchedShape(one, now);
      assert BatchCount(one.queued) + 1 == BatchCount(b.queued);
    }
  }

  lemma {:induction false} BatchedMembers(b: Box, now: int, id: BatchId, p: ResultPtr)
    requires Issued(b) && id in Batched(b, now).inflight && id !in b.inflight
    requires p in Batched(b, now).inflight[id].results
    ensures p in b.queued
    decreases |b.queued|
  {
    if b.queued != [] {
      var one := BatchedOne(b, now);
      if id in one.inflight {
        BatchedShape(one, now);
      } else {
        BatchedMembers(one, now, id, p);
      }
    }
  }

  /** The results of batches lo, lo + 1, ..., hi - 1, one after the other. */
  ghost function InOrder(m: map<BatchId, Batch>, lo: BatchId, hi: BatchId): seq<ResultPtr>
    requires lo <= hi && forall id :: lo <= id < hi ==> id in m
    decreases hi - lo
  {
    if lo == hi then [] else m[lo].results + InOrder(m, lo + 1, hi)
  }

  /** The batches are the queue, in order; all but the last are full, and none is empty. */
  lemma {:induction false} BatchedInOrder(b: Box, now: int)
    requires Issued(b)
    ensures var r := Batched(b, now);
            && b.issued <= r.issued && (forall id :: b.issued <= id < r.issued ==> id in r.inflight)
            && (forall id :: b.issued <= id < r.issued ==> 0 < |r.inflight[id].results| <= BATCH_MAX)
            && (forall id :: b.issued <= id < r.issued - 1 ==> |r.inflight[id].results| == BATCH_MAX)
            && InOrder(r.inflight, b.issued, r.issued) == b.queued
            && (b.queued != [] ==> b.issued < r.issued)
    decreases |b.queued|
  {
    if b.queued != [] {
      var one := BatchedOne(b, now);
      BatchedInOrder(one, now);
      BatchedShape(one, now);
      var r := Batched(b, now);
      assert r.inflight[b.issued] == one.inflight[b.issued];
      assert b.queued == r.inflight[b.issued].results + one.queued;
    }
  }

  /** One flush sends exactly the collected queue, in order, under new ids. */
  lemma FlushBatches(b: Box, order: seq<BatchId>, now: int)
    requires Issued(b) && Visits(order, OverdueIds(b, now))
    ensures var r := Flushed(b, order, now);
            && r.queued == []
            && r.issued == b.issued + (|Fresh(Prepended(b.inflight, order, b.queued), now)| + 99) / 100
            && (forall id :: b.issued <= id < r.issued ==> id in r.inflight && id !in b.inflight)
            && InOrder(r.inflight, b.issued, r.issued) == Fresh(Prepended(b.inflight, order, b.queued), now)
            && (forall id :: b.issued <= id < r.issued ==> 0 < |r.inflight[id].results| <= 100)
            && (forall id :: b.issued <= id < r.issued - 1 ==> |r.inflight[id].results| == 100)
  {
    var c := Collected(b, order, now);
    RequeuedConserves(b, order);
    BatchedConserves(c, now);
    BatchedShape(c, now);
    BatchedInOrder(c, now);
  }

  lemma {:induction false} PrependedSplits(m: map<BatchId, Batch>, order: seq<BatchId>, q: seq<ResultPtr>)
    requires forall id :: id in order ==> id in m
    ensures Prepended(m, order, q) == Prepended(m, order, []) + q
  {
    if order != [] {
      PrependedSplits(m, order[..|order| - 1], q);
    }
  }
}
