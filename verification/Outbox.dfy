/**
 The result outbox as values: what `enqueue`, `reconnected`, `acked` and the
 locked part of `flush` compute on the queue and the in-flight batches.
 */
module Outbox {
  import opened GoInts
  import opened Messages

  /** Times are nanoseconds of one clock; durations likewise. */
  const BATCH_MAX := 100
  const RESEND_AFTER := 10_000_000_000
  const RESULT_MAX_AGE := 300_000_000_000
  const OUTBOX_MAX := 10_000
  const MILLISECOND := 1_000_000

  /** The k-th call of ulid.Make yields batch id k: ids are only ever compared. */
  type BatchId = nat

  /** A *SlotResult: two pointers are equal when they hold the same address. */
  datatype ResultPtr = Nil | Ptr(addr: nat, val: SlotResult)

  datatype Batch = Batch(results: seq<ResultPtr>, sentAt: int)

  datatype Box = Box(queued: seq<ResultPtr>, inflight: map<BatchId, Batch>, issued: nat)

  const EMPTY_BOX := Box([], map[], 0)

  /** A protobuf getter answers 0 on a nil pointer. */
  function CompletedAt(p: ResultPtr): int64 {
    if p.Nil? then 0 else p.val.completedAt
  }

  function Age(p: ResultPtr, now: int): int {
    now - CompletedAt(p) * MILLISECOND
  }

  predicate Stale(p: ResultPtr, now: int) {
    Age(p, now) > RESULT_MAX_AGE
  }

  predicate Overdue(b: Batch, now: int) {
    now - b.sentAt > RESEND_AFTER
  }

  /** What deleting the stale results leaves, in order. */
  function Fresh(q: seq<ResultPtr>, now: int): seq<ResultPtr> {
    if q == [] then []
    else
      var n := |q| - 1;
      Fresh(q[..n], now) + if Stale(q[n], now) then [] else [q[n]]
  }

  /** `order` visits every id of `ids` once, as one iteration over a Go map does. */
  ghost predicate Visits(order: seq<BatchId>, ids: set<BatchId>) {
    && (forall id :: id in order <==> id in ids)
    && (forall i, j :: 0 <= i < j < |order| ==> order[i] != order[j])
  }

  /** Each visited batch goes in front of the queue, so the last one visited comes first. */
  function Prepended(inflight: map<BatchId, Batch>, order: seq<BatchId>, q: seq<ResultPtr>): seq<ResultPtr>
    requires forall id :: id in order ==> id in inflight
  {
    if order == [] then q
    else
      var n := |order| - 1;
      inflight[order[n]].results + Prepended(inflight, order[..n], q)
  }

  function Requeued(b: Box, order: seq<BatchId>): Box
    requires forall id :: id in order ==> id in b.inflight
  {
    b.(queued := Prepended(b.inflight, order, b.queued),
       inflight := b.inflight - (set id | id in order))
  }

  /** How many results the next batch takes. */
  function BatchSize(q: seq<ResultPtr>): (n: nat)
    ensures n <= |q| && (q != [] ==> 0 < n)
  {
    if |q| < BATCH_MAX then |q| else BATCH_MAX
  }

  /** The front of the queue goes in flight under a new id. */
  function BatchedOne(b: Box, now: int): Box {
    var n := BatchSize(b.queued);
    Box(b.queued[n..], b.inflight[b.issued := Batch(b.queued[..n], now)], b.issued + 1)
  }

  function Batched(b: Box, now: int): Box
    decreases |b.queued|
  {
    if b.queued == [] then b else Batched(BatchedOne(b, now), now)
  }

  function OverdueIds(b: Box, now: int): set<BatchId> {
    set id | id in b.inflight && Overdue(b.inflight[id], now)
  }

  // The four operations.

  function Enqueued(b: Box, r: ResultPtr): Box {
    var q := b.queued + [r];
    b.(queued := if |q| > OUTBOX_MAX then q[|q| - OUTBOX_MAX..] else q)
  }

  function Acked(b: Box, id: BatchId): Box {
    b.(inflight := b.inflight - {id})
  }

  /** What is left to send once overdue batches have returned and stale results have gone. */
  function Collected(b: Box, order: seq<BatchId>, now: int): Box
    requires forall id :: id in order ==> id in b.inflight
  {
    var r := Requeued(b, order);
    r.(queued := Fresh(r.queued, now))
  }

  function Flushed(b: Box, order: seq<BatchId>, now: int): Box
    requires forall id :: id in order ==> id in b.inflight
  {
    Batched(Collected(b, order, now), now)
  }
}
