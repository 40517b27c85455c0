/**
 The result outbox as the agent keeps it: Go slices, windows over shared
 backing arrays, proved to compute the functions of module Outbox.
 */
module OutboxArrays {
  import opened Outbox

  /** A Go slice: elements lo..hi of arr, with room to grow up to cap. */
  datatype Slice = Slice(arr: array<ResultPtr>, lo: nat, hi: nat, cap: nat) {
    ghost predicate WellFormed() {
      lo <= hi <= cap <= arr.Length
    }

    ghost function View(): seq<ResultPtr>
      requires WellFormed()
      reads arr
    {
      arr[lo..hi]
    }

    ghost predicate Shows(xs: seq<ResultPtr>)
      reads arr
    {
      WellFormed() && arr[lo..hi] == xs
    }

    /** No element, spare capacity included, belongs to both. */
    ghost predicate Apart(other: Slice) {
      arr != other.arr || cap <= other.lo || other.cap <= lo
    }
  }

  datatype SentBatch = SentBatch(results: Slice, sentAt: int)

  /** Batch id owns its window, spare capacity excluded, and the queue stays out of it. */
  ghost predicate Private(queued: Slice, inflight: map<BatchId, SentBatch>, id: BatchId)
    requires id in inflight
  {
    var w := inflight[id].results;
    w.WellFormed() && w.lo < w.hi == w.cap && queued.Apart(w)
  }

  ghost predicate Disjoint(inflight: map<BatchId, SentBatch>, i: BatchId, j: BatchId)
    requires i in inflight && j in inflight
  {
    inflight[i].results.Apart(inflight[j].results)
  }

  /** The slice separation invariant. */
  ghost predicate Separated(queued: Slice, inflight: map<BatchId, SentBatch>) {
    && queued.WellFormed()
    && (forall id {:trigger Private(queued, inflight, id)} :: id in inflight ==> Private(queued, inflight, id))
    && (forall i, j {:trigger Disjoint(inflight, i, j)} ::
          i in inflight && j in inflight && i != j ==> Disjoint(inflight, i, j))
  }

  /** A SlotResultBatch message: it shares its results with the in-flight entry. */
  datatype Message = Message(id: BatchId, results: Slice)

  /** The message is about batch id, which is in flight, and carries its very window. */
  ghost predicate Announces(b: Message, id: BatchId, inflight: map<BatchId, SentBatch>) {
    b.id == id && id in inflight && b.results == inflight[id].results
  }

  /** The messages are about the batches first, first + 1, ... in this order. */
  ghost predicate Announced(batches: seq<Message>, first: BatchId, inflight: map<BatchId, SentBatch>) {
    forall i :: 0 <= i < |batches| ==> Announces(batches[i], first + i, inflight)
  }

  lemma AnnouncedNext(batches: seq<Message>, b: Message, first: BatchId, m: map<BatchId, SentBatch>, now: int)
    requires Announced(batches, first, m) && b.id == first + |batches|
    ensures Announced(batches + [b], first, m[b.id := SentBatch(b.results, now)])
  {
    forall i | 0 <= i < |batches|
      ensures Announces(batches[i], first + i, m[b.id := SentBatch(b.results, now)])
    {
      assert Announces(batches[i], first + i, m);
    }
  }

  /** Every batch of m is in m' unchanged, and any other has an id not below first. */
  ghost predicate Extends(m: map<BatchId, SentBatch>, m': map<BatchId, SentBatch>, first: BatchId) {
    m.Keys <= m'.Keys && forall id :: id in m' ==> if id in m then m'[id] == m[id] else first <= id
  }

  /** No batch was added, and those that are left have kept their windows. */
  ghost predicate Shrunk(m: map<BatchId, SentBatch>, m': map<BatchId, SentBatch>) {
    m'.Keys <= m.Keys && Kept(m, m')
  }

  /** A batch that is still there has kept its window. */
  ghost predicate Kept(m: map<BatchId, SentBatch>, m': map<BatchId, SentBatch>) {
    forall id :: id in m && id in m' ==> m'[id] == m[id]
  }

  lemma ShrunkNext(before: map<BatchId, SentBatch>, m: map<BatchId, SentBatch>, id: BatchId)
    requires Shrunk(before, m)
    ensures Shrunk(before, m - {id})
  {
  }

  /** append(s, xs...) when s has too little room: everything moves to a new array. */
  method Grow(s: Slice, xs: seq<ResultPtr>) returns (r: Slice)
    requires s.WellFormed()
    ensures fresh(r.arr) && r.Shows(s.View() + xs)
  {
    var n := s.hi - s.lo;
    var spare :| 0 <= spare;
    var a := new ResultPtr[n + |xs| + spare](_ => Nil);
    forall i | 0 <= i < n {
      a[i] := s.arr[s.lo + i];
    }
    forall i | 0 <= i < |xs| {
      a[n + i] := xs[i];
    }
    r := Slice(a, 0, n + |xs|, a.Length);
  }

  /** The builtin append(s, xs...): in place when the capacity allows. */
  method Append(s: Slice, xs: seq<ResultPtr>) returns (r: Slice)
    requires s.WellFormed()
    modifies if 0 < |xs| <= s.cap - s.hi then {s.arr} else {}
    ensures r.Shows(old(s.View()) + xs)
    ensures |xs| <= s.cap - s.hi ==> r == s.(hi := s.hi + |xs|)
    ensures |xs| > s.cap - s.hi ==> fresh(r.arr)
    ensures forall i :: (0 <= i < s.hi || s.cap <= i < s.arr.Length) ==> s.arr[i] == old(s.arr[i])
  {
    if |xs| > s.cap - s.hi {
      r := Grow(s, xs);
    } else {
      forall i | 0 <= i < |xs| {
        s.arr[s.hi + i] := xs[i];
      }
      r := s.(hi := s.hi + |xs|);
    }
  }

  /** slices.IndexFunc: the first index of s to delete, or its end. */
  method IndexFunc(s: Slice, now: int) returns (i: nat)
    requires s.WellFormed()
    ensures s.lo <= i <= s.hi && (i < s.hi ==> Stale(s.arr[i], now))
    ensures Fresh(s.arr[s.lo..i], now) == s.arr[s.lo..i]
  {
    i := s.lo;
    while i < s.hi && !Stale(s.arr[i], now)
      invariant s.lo <= i <= s.hi
      invariant Fresh(s.arr[s.lo..i], now) == s.arr[s.lo..i]
    {
      FreshNext(s.arr[s.lo..i], s.arr[i], now);
      SliceNext(s.arr[..], s.lo, i);
      i := i + 1;
    }
  }

  /** Slots lo..i of s hold what is fresh of slots lo..j of was, and the rest is as it was. */
  ghost predicate Moved(s: seq<ResultPtr>, was: seq<ResultPtr>, lo: nat, i: nat, j: nat, now: int) {
    && lo <= i <= j <= |s| == |was|
    && s[..lo] == was[..lo] && s[j..] == was[j..]
    && s[lo..i] == Fresh(was[lo..j], now)
  }

  lemma MovedNext(s: seq<ResultPtr>, was: seq<ResultPtr>, lo: nat, i: nat, j: nat, now: int)
    requires Moved(s, was, lo, i, j, now) && i < j < |s|
    ensures if Stale(s[j], now) then Moved(s, was, lo, i, j + 1, now) else Moved(s[i := s[j]], was, lo, i + 1, j + 1, now)
  {
    assert s[j] == s[j..][0] == was[j];
    SliceNext(was, lo, j);
    FreshNext(was[lo..j], was[j], now);
    assert s[j + 1..] == s[j..][1..] == was[j + 1..];
    var s' := s[i := s[j]];
    SliceNext(s', lo, i);
    assert s'[lo..i] == s[lo..i];
    assert s'[..lo] == s[..lo] && s'[j + 1..] == s[j + 1..];
  }

  /** Up to the first stale element nothing moves. */
  lemma MovedFirst(was: seq<ResultPtr>, lo: nat, first: nat, now: int)
    requires lo <= first < |was| && Stale(was[first], now)
    requires Fresh(was[lo..first], now) == was[lo..first]
    ensures Moved(was, was, lo, first, first + 1, now)
  {
    var kept := was[lo..first];
    FreshNext(kept, was[first], now);
    SliceNext(was, lo, first);
  }

  /** The in-place loop of slices.DeleteFunc, entered at the first stale element. */
  method MoveDown(a: array<ResultPtr>, lo: nat, first: nat, hi: nat, now: int) returns (i: nat)
    requires lo <= first < hi <= a.Length && Stale(a[first], now)
    requires Fresh(a[lo..first], now) == a[lo..first]
    modifies a
    ensures i < hi && Moved(a[..], old(a[..]), lo, i, hi, now)
  {
    i := first;
    var j := first + 1;
    MovedFirst(a[..], lo, first, now);
    while j < hi
      invariant i < j <= hi && Moved(a[..], old(a[..]), lo, i, j, now)
    {
      MovedNext(a[..], old(a[..]), lo, i, j, now);
      if !Stale(a[j], now) {
        ghost var next := a[..][i := a[j]];
        a[i] := a[j];
        i := i + 1;
        assert a[..] == next;
      }
      j := j + 1;
    }
  }

  /** slices.DeleteFunc on the stale results: moves the others down in place and clears the rest. */
  method DeleteFunc(s: Slice, now: int) returns (r: Slice)
    requires s.WellFormed()
    modifies s.arr
    ensures r.WellFormed() && r == s.(hi := r.hi) && r.hi <= s.hi
    ensures r.View() == Fresh(old(s.View()), now)
    ensures forall i :: (0 <= i < s.lo || s.hi <= i < s.arr.Length) ==> s.arr[i] == old(s.arr[i])
    ensures forall i :: r.hi <= i < s.hi ==> s.arr[i] == Nil
  {
    var i := IndexFunc(s, now);
    if i < s.hi {
      i := MoveDown(s.arr, s.lo, i, s.hi, now);
      ghost var kept := s.arr[s.lo..i];
      ClearTail(s.arr, i, s.hi);
      assert s.arr[s.lo..i] == kept;
    }
    r := s.(hi := i);
  }

  /** The builtin clear(a[lo..hi]). */
  method ClearTail(a: array<ResultPtr>, lo: nat, hi: nat)
    requires lo <= hi <= a.Length
    modifies a
    ensures forall k :: 0 <= k < a.Length ==> a[k] == if lo <= k < hi then Nil else old(a[k])
  {
    forall k | lo <= k < hi {
      a[k] := Nil;
    }
  }

  /**
   Requeued onto an empty queue, a batch's window becomes the queue itself. An
   envelope that still holds the window keeps its results through the next
   flush if and only if none of them has gone stale.
   */
  method RequeuedAlone(w: Slice, now: int) returns (q: Slice)
    requires w.WellFormed() && w.hi == w.cap && Nil !in w.View()
    modifies w.arr
    ensures q.Shows(Fresh(old(w.View()), now))
    ensures w.View() == old(w.View()) <==> forall p :: p in old(w.View()) ==> !Stale(p, now)
  {
    FreshAll(w.View(), now);
    ghost var was := w.View();
    q := Append(w, []);
    assert q == w && q.View() == was;
    q := DeleteFunc(q, now);
    assert q.hi < w.hi ==> w.View()[q.hi - w.lo] == Nil && was[q.hi - w.lo] != Nil;
    assert q.hi == w.hi ==> w.View() == q.View();
  }

  class ResultOutbox {
    var queued: Slice
    var inflight: map<BatchId, SentBatch>
    var issued: nat

    ghost var box: Box // the outbox as a value
    ghost var Repr: set<object> // every backing array in use, and perhaps others

    ghost predicate Valid()
      reads this, Repr
    {
      && Separated(queued, inflight)
      && queued.arr in Repr && (forall id :: id in inflight ==> inflight[id].results.arr in Repr)
      && queued.Shows(box.queued)
      && box.inflight.Keys == inflight.Keys
      && (forall id :: id in inflight ==>
            && id < issued
            && inflight[id].sentAt == box.inflight[id].sentAt
            && inflight[id].results.Shows(box.inflight[id].results))
      && box.issued == issued
    }

    constructor ()
      ensures Valid() && fresh(Repr) && box == EMPTY_BOX
    {
      var a := new ResultPtr[0];
      queued := Slice(a, 0, 0, 0);
      inflight := map[];
      issued := 0;
      box := EMPTY_BOX;
      Repr := {a};
    }

    method Push(r: ResultPtr)
      requires Valid()
      modifies this`queued, this`box, this`Repr, queued.arr
      ensures Valid() && fresh(Repr - old(Repr))
      ensures box == old(box).(queued := old(box).queued + [r])
    {
      queued := Append(queued, [r]);
      box := box.(queued := box.queued + [r]);
      Repr := Repr + {queued.arr};
      RequeueSeparated(old(queued), queued, inflight, inflight);
      Undisturbed(old(queued), old(queued.arr[..]), inflight, box.inflight);
    }

    method Enqueue(r: ResultPtr)
      requires Valid()
      modifies this`queued, this`box, this`Repr, queued.arr
      ensures Valid() && fresh(Repr - old(Repr))
      ensures box == Enqueued(old(box), r)
    {
      Push(r);
      var over := queued.hi - queued.lo - OUTBOX_MAX;
      if over > 0 {
        DropFront(over);
      }
    }

    method DropFront(n: nat)
      requires Valid() && n <= |box.queued|
      modifies this`queued, this`box
      ensures Valid() && box == old(box).(queued := old(box).queued[n..])
    {
      RequeueSeparated(queued, queued.(lo := queued.lo + n), inflight, inflight);
      queued := queued.(lo := queued.lo + n);
      box := box.(queued := box.queued[n..]);
    }

    /** One turn of the requeueing loops: prepend a batch to the queue and forget it. */
    method RequeueOne(id: BatchId)
      requires Valid() && id in inflight
      modifies this`queued, this`inflight, this`box, this`Repr
      ensures Valid() && Repr == old(Repr) + {queued.arr}
      ensures queued.arr in old(Repr) || fresh(queued.arr)
      ensures box == old(box).(
                queued := old(box).inflight[id].results + old(box).queued,
                inflight := old(box).inflight - {id})
      ensures inflight == old(inflight) - {id}
      // Onto an empty queue, Go's append returns the old batch itself.
      ensures old(box).queued == [] ==> queued == old(inflight[id].results)
      ensures old(box).queued != [] ==> fresh(queued.arr)
    {
      var w := inflight[id].results;
      WindowSeparated(queued, inflight, id);
      var xs := queued.arr[queued.lo..queued.hi];
      var q := Append(w, xs);
      if xs != [] {
        RequeueSeparated(queued, q, inflight, inflight - {id});
      }
      Replace(q, inflight - {id}, box.(queued := box.inflight[id].results + box.queued, inflight := box.inflight - {id}));
    }

    /** Takes over a queue and a subset of the batches, written down as b. */
    method Replace(q: Slice, m: map<BatchId, SentBatch>, ghost b: Box)
      requires Valid() && Separated(q, m) && q.Shows(b.queued)
      requires m.Keys <= inflight.Keys && forall id :: id in m ==> m[id] == inflight[id]
      requires b.inflight.Keys == m.Keys && forall id :: id in m ==> b.inflight[id] == box.inflight[id]
      requires b.issued == box.issued
      modifies this`queued, this`inflight, this`box, this`Repr
      ensures Valid() && queued == q && inflight == m && box == b && Repr == old(Repr) + {q.arr}
    {
      queued := q;
      inflight := m;
      box := b;
      Repr := Repr + {q.arr};
    }

    /** RequeueOne, and what is kept over all turns of the loop; arrays that only passed through the queue are forgotten. */
    method RequeueNext(id: BatchId, ghost was: Box, ghost before: map<BatchId, SentBatch>, ghost arrays: set<object>,
                       ghost order: seq<BatchId>, ghost due: set<BatchId>, ghost todo: set<BatchId>)
      requires Valid() && id in todo
      requires Requeuing(was, order, due, todo, box) && Shrunk(before, inflight)
      requires forall i :: i in before ==> before[i].results.arr in arrays
      modifies this`queued, this`inflight, this`box, this`Repr
      ensures Valid() && Repr == arrays + {queued.arr}
      ensures queued.arr in old(Repr) || fresh(queued.arr)
      ensures Requeuing(was, order + [id], due, todo - {id}, box) && Shrunk(before, inflight)
    {
      RequeuingNext(was, order, due, todo, box, id);
      ShrunkNext(before, inflight, id);
      RequeueOne(id);
      Forget(arrays);
    }

    /** Only the arrays still in use need to be remembered. */
    ghost method Forget(arrays: set<object>)
      requires Valid() && forall i :: i in inflight ==> inflight[i].results.arr in arrays
      modifies this`Repr
      ensures Valid() && Repr == arrays + {queued.arr}
    {
      Repr := arrays + {queued.arr};
    }

    /** A requeueing loop over the map, which visits the batches due in any order. */
    method RequeueAll(due: set<BatchId>) returns (order: seq<BatchId>)
      requires Valid() && due <= inflight.Keys
      modifies this`queued, this`inflight, this`box, this`Repr
      ensures Valid() && fresh(Repr - old(Repr))
      ensures Visits(order, due)
      ensures box == Requeued(old(box), order)
      ensures issued == old(issued) && Shrunk(old(inflight), inflight)
    {
      order := [];
      var todo := due;
      ghost var was, before, arrays := box, inflight, Repr;
      RequeuingFirst(box, due);
      while todo != {}
        invariant Valid() && Repr == arrays + {queued.arr}
        invariant queued.arr in arrays || fresh(queued.arr)
        invariant Requeuing(was, order, due, todo, box)
        invariant Shrunk(before, inflight)
      {
        var id :| id in todo;
        RequeueNext(id, was, before, arrays, order, due, todo);
        order, todo := order + [id], todo - {id};
      }
      RequeuingLast(was, order, due, box);
    }

    method Reconnected() returns (order: seq<BatchId>)
      requires Valid()
      modifies this`queued, this`inflight, this`box, this`Repr
      ensures Valid() && fresh(Repr - old(Repr))
      ensures Visits(order, old(box).inflight.Keys)
      ensures box == Requeued(old(box), order) && inflight == map[]
    {
      order := RequeueAll(inflight.Keys);
      assert inflight.Keys == box.inflight.Keys == {};
    }

    method Ack(id: BatchId)
      requires Valid()
      modifies this`inflight, this`box
      ensures Valid() && box == Acked(old(box), id)
      ensures inflight == old(inflight) - {id}
    {
      inflight := inflight - {id};
      box := Acked(box, id);
      RequeueSeparated(queued, queued, old(inflight), inflight);
    }

    /** The first half of flush: overdue batches return, stale results go. */
    method Collect(now: int) returns (order: seq<BatchId>)
      requires Valid()
      modifies this`queued, this`inflight, this`box, this`Repr, Repr
      ensures Valid() && fresh(Repr - old(Repr))
      ensures Visits(order, OverdueIds(old(box), now))
      ensures box == Collected(old(box), order, now)
      ensures issued == old(issued) && Shrunk(old(inflight), inflight)
    {
      var due := set id | id in inflight && now - inflight[id].sentAt > RESEND_AFTER;
      assert due == OverdueIds(box, now);
      order := RequeueAll(due);
      DropStale(now);
    }

    method DropStale(now: int)
      requires Valid()
      modifies this`queued, this`box, queued.arr
      ensures Valid() && box == old(box).(queued := Fresh(old(box).queued, now))
    {
      queued := DeleteFunc(queued, now);
      box := box.(queued := Fresh(box.queued, now));
      RequeueSeparated(old(queued), queued, inflight, inflight);
      Undisturbed(old(queued), old(queued.arr[..]), inflight, box.inflight);
    }

    method BatchAll(now: int) returns (batches: seq<Message>)
      requires Valid()
      modifies this`queued, this`inflight, this`issued, this`box
      ensures Valid() && box == Batched(old(box), now)
      ensures issued == old(issued) + |batches| && Extends(old(inflight), inflight, old(issued))
      ensures Announced(batches, old(issued), inflight)
    {
      batches := [];
      ghost var all, first, start := Batched(box, now), issued, inflight;
      while queued.lo < queued.hi
        invariant Valid() && Batched(box, now) == all
        invariant issued == first + |batches|
        invariant Announced(batches, first, inflight) && Extends(start, inflight, first)
        decreases queued.hi - queued.lo
      {
        ghost var before := inflight;
        var b := BatchOne(now);
        AnnouncedNext(batches, b, first, before, now);
        batches := batches + [b];
      }
    }

    /** One turn of the batching loop: the front of the queue goes in flight. */
    method BatchOne(now: int) returns (b: Message)
      requires Valid() && queued.lo < queued.hi
      modifies this`queued, this`inflight, this`issued, this`box
      ensures Valid()
      ensures issued == old(issued) + 1
      ensures b.id == old(issued) && inflight == old(inflight)[b.id := SentBatch(b.results, now)]
      ensures queued.hi - queued.lo < old(queued.hi - queued.lo)
      ensures box == BatchedOne(old(box), now)
    {
      var n := if queued.hi - queued.lo < BATCH_MAX then queued.hi - queued.lo else BATCH_MAX;
      b := Message(issued, queued.(hi := queued.lo + n, cap := queued.lo + n));
      SplitSeparated(queued, inflight, issued, n, now);
      var q := queued.(lo := queued.lo + n);
      assert queued.View()[..n] == b.results.View() && queued.View()[n..] == q.View();
      Depart(b.results, q, now, BatchedOne(box, now));
    }

    /** The window w goes in flight under the next id and leaves the queue q, written down as b. */
    method Depart(w: Slice, q: Slice, now: int, ghost b: Box)
      requires Valid() && w.arr in Repr && q.arr in Repr
      requires Separated(q, inflight[issued := SentBatch(w, now)])
      requires q.Shows(b.queued) && issued in b.inflight && w.Shows(b.inflight[issued].results)
      requires b == Box(b.queued, box.inflight[issued := Batch(b.inflight[issued].results, now)], issued + 1)
      modifies this`queued, this`inflight, this`issued, this`box
      ensures Valid() && box == b && issued == old(issued) + 1
      ensures queued == q && inflight == old(inflight)[old(issued) := SentBatch(w, now)]
    {
      queued := q;
      inflight := inflight[issued := SentBatch(w, now)];
      issued := issued + 1;
      box := b;
    }

    /** The locked part of flush; the caller then tries to send each batch. */
    method Flush(now: int) returns (batches: seq<Message>, order: seq<BatchId>)
      requires Valid()
      modifies this, Repr
      ensures Valid() && fresh(Repr - old(Repr))
      ensures Visits(order, OverdueIds(old(box), now))
      ensures box == Flushed(old(box), order, now)
      ensures issued == old(issued) + |batches|
      ensures Announced(batches, old(issued), inflight)
      // An envelope of an earlier flush still holds its batch's window.
      ensures Kept(old(inflight), inflight)
    {
      order := Collect(now);
      batches := BatchAll(now);
    }
  }

  /** The clipped slice s[:n:n] and the rest s[n:] share no capacity. */
  lemma SplitSeparated(q: Slice, m: map<BatchId, SentBatch>, id: BatchId, n: nat, now: int)
    requires Separated(q, m) && id !in m
    requires 0 < n <= q.hi - q.lo
    ensures Separated(q.(lo := q.lo + n),
                      m[id := SentBatch(q.(hi := q.lo + n, cap := q.lo + n), now)])
  {
    var q' := q.(lo := q.lo + n);
    var m' := m[id := SentBatch(q.(hi := q.lo + n, cap := q.lo + n), now)];
    forall i | i in m'
      ensures Private(q', m', i)
    {
      assert i != id ==> Private(q, m, i);
    }
    forall i, j | i in m' && j in m' && i != j
      ensures Disjoint(m', i, j)
    {
      assert i != id ==> Private(q, m, i);
      assert j != id ==> Private(q, m, j);
      assert i != id && j != id ==> Disjoint(m, i, j);
    }
  }

  /** A queue on other elements of the old window, or on an array of its own, stays apart. */
  lemma RequeueSeparated(q: Slice, q': Slice, m: map<BatchId, SentBatch>, m': map<BatchId, SentBatch>)
    requires Separated(q, m) && q'.WellFormed()
    requires m'.Keys <= m.Keys && forall i :: i in m' ==> m'[i] == m[i]
    requires (q'.arr == q.arr && q.lo <= q'.lo && q'.cap == q.cap) || (forall i :: i in m' ==> q'.Apart(m[i].results))
    ensures Separated(q', m')
  {
    forall i | i in m'
      ensures Private(q', m', i)
    {
      assert Private(q, m, i);
    }
    forall i, j | i in m' && j in m' && i != j
      ensures Disjoint(m', i, j)
    {
      assert Disjoint(m, i, j);
    }
  }

  /** A batch taken out of the map can be the queue as it stands. */
  lemma WindowSeparated(q: Slice, m: map<BatchId, SentBatch>, id: BatchId)
    requires Separated(q, m) && id in m
    ensures Separated(m[id].results, m - {id}) && m[id].results.hi == m[id].results.cap
  {
    assert Private(q, m, id);
    assert forall i :: i in m && i != id ==> Disjoint(m, id, i);
    RequeueSeparated(q, m[id].results, m, m - {id});
  }

  /** The loop has visited the due batches in this order, except todo, and the outbox is now b. */
  ghost predicate Requeuing(was: Box, order: seq<BatchId>, due: set<BatchId>, todo: set<BatchId>, b: Box) {
    && todo <= due <= was.inflight.Keys
    && Visits(order, due - todo)
    && b == Requeued(was, order)
  }

  lemma RequeuingFirst(b: Box, due: set<BatchId>)
    requires due <= b.inflight.Keys
    ensures Requeuing(b, [], due, due, b)
  {
    assert b.inflight - (set id: BatchId | id in []) == b.inflight;
  }

  lemma RequeuingLast(was: Box, order: seq<BatchId>, due: set<BatchId>, b: Box)
    requires Requeuing(was, order, due, {}, b)
    ensures Visits(order, due) && b == Requeued(was, order)
  {
    assert due - {} == due;
  }

  lemma RequeuingNext(was: Box, order: seq<BatchId>, due: set<BatchId>, todo: set<BatchId>, b: Box, id: BatchId)
    requires Requeuing(was, order, due, todo, b) && id in todo
    ensures id in b.inflight
    ensures Requeuing(was, order + [id], due, todo - {id},
                      b.(queued := b.inflight[id].results + b.queued, inflight := b.inflight - {id}))
  {
    assert (order + [id])[..|order|] == order;
    assert (set i | i in order + [id]) == (set i | i in order) + {id};
  }

  lemma {:induction false} FreshAll(s: seq<ResultPtr>, now: int)
    ensures |Fresh(s, now)| <= |s|
    ensures |Fresh(s, now)| == |s| <==> forall p :: p in s ==> !Stale(p, now)
    ensures |Fresh(s, now)| == |s| ==> Fresh(s, now) == s
  {
    if s != [] {
      var n := |s| - 1;
      FreshAll(s[..n], now);
      assert s == s[..n] + [s[n]];
    }
  }

  lemma SliceNext<T>(s: seq<T>, lo: nat, hi: nat)
    requires lo <= hi < |s|
    ensures s[lo..hi + 1] == s[lo..hi] + [s[hi]]
  {
  }

  lemma FreshNext(s: seq<ResultPtr>, x: ResultPtr, now: int)
    ensures Fresh(s + [x], now) == if Stale(x, now) then Fresh(s, now) else Fresh(s, now) + [x]
  {
    assert (s + [x])[..|s|] == s;
  }

  /** Writing within the queue's window leaves the batches that share its array alone. */
  lemma Undisturbed(q: Slice, was: seq<ResultPtr>, m: map<BatchId, SentBatch>, b: map<BatchId, Batch>)
    requires Separated(q, m) && m.Keys == b.Keys && |was| == q.arr.Length
    requires forall id :: id in m && m[id].results.arr == q.arr ==>
               var w := m[id].results;
               w.WellFormed() && was[w.lo..w.hi] == b[id].results
    requires forall k :: (0 <= k < q.lo || q.cap <= k < q.arr.Length) ==> q.arr[k] == was[k]
    ensures forall id :: id in m && m[id].results.arr == q.arr ==> m[id].results.Shows(b[id].results)
  {
    forall id | id in m && m[id].results.arr == q.arr
      ensures m[id].results.Shows(b[id].results)
    {
      assert Private(q, m, id);
      var w := m[id].results;
      assert w.arr[w.lo..w.hi] == was[w.lo..w.hi];
    }
  }
}
