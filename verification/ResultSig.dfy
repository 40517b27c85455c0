/** pkg/resultsig: the two canonical byte forms that are hashed and signed. */
module ResultSig {
  import opened GoInts
  import opened Messages
  import opened Options
  import Slot

  // Big-endian integers.

  function Pow256(w: nat): (p: nat)
    ensures p > 0
  {
    if w == 0 then 1 else 256 * Pow256(w - 1)
  }

  function BigEndian(v: nat, w: nat): (bs: seq<byte>)
    ensures |bs| == w
  {
    if w == 0 then [] else BigEndian(v / 256, w - 1) + [v % 256]
  }

  function FromBigEndian(bs: seq<byte>): nat {
    if bs == [] then 0 else FromBigEndian(bs[..|bs| - 1]) * 256 + bs[|bs| - 1]
  }

  lemma {:induction false} DecodeEncode(v: nat, w: nat)
    requires v < Pow256(w)
    ensures FromBigEndian(BigEndian(v, w)) == v
  {
    if w > 0 {
      DecodeEncode(v / 256, w - 1);
      assert BigEndian(v, w)[..w - 1] == BigEndian(v / 256, w - 1);
    }
  }

  lemma {:induction false} EncodeDecode(bs: seq<byte>)
    ensures FromBigEndian(bs) < Pow256(|bs|)
    ensures BigEndian(FromBigEndian(bs), |bs|) == bs
  {
    if bs != [] {
      EncodeDecode(bs[..|bs| - 1]);
    }
  }

  lemma Widths()
    ensures Pow256(4) == TWO_32 && Pow256(8) == TWO_64
  {
    assert Pow256(2) == 0x1_0000;
    assert Pow256(4) == 0x1_0000_0000;
    assert Pow256(6) == 0x1_0000_0000_0000;
  }

  /** binary.Write of an int64: the two's-complement bits. */
  function Int64Bytes(x: int64): (bs: seq<byte>)
    ensures |bs| == 8
  {
    BigEndian(if x < 0 then x + TWO_64 else x, 8)
  }

  /** binary.Write of uint32(x). */
  function Uint32Bytes(x: int32): (bs: seq<byte>)
    ensures |bs| == 4
  {
    BigEndian(if x < 0 then x + TWO_32 else x, 4)
  }

  function ToInt64(bs: seq<byte>): (x: int64)
    requires |bs| == 8
    ensures Int64Bytes(x) == bs
    ensures forall y: int64 :: Int64Bytes(y) == bs ==> y == x
  {
    EncodeDecode(bs);
    Widths();
    assert forall y: int64 :: Int64Bytes(y) == bs ==> FromBigEndian(bs) == (if y < 0 then y + TWO_64 else y) by {
      forall y: int64 | Int64Bytes(y) == bs
        ensures FromBigEndian(bs) == if y < 0 then y + TWO_64 else y
      {
        DecodeEncode(if y < 0 then y + TWO_64 else y, 8);
      }
    }
    var v := FromBigEndian(bs);
    if v >= TWO_63 then v - TWO_64 else v
  }

  function ToInt32(bs: seq<byte>): (x: int32)
    requires |bs| == 4
    ensures Uint32Bytes(x) == bs
    ensures forall y: int32 :: Uint32Bytes(y) == bs ==> y == x
  {
    EncodeDecode(bs);
    Widths();
    assert forall y: int32 :: Uint32Bytes(y) == bs ==> FromBigEndian(bs) == (if y < 0 then y + TWO_32 else y) by {
      forall y: int32 | Uint32Bytes(y) == bs
        ensures FromBigEndian(bs) == if y < 0 then y + TWO_32 else y
      {
        DecodeEncode(if y < 0 then y + TWO_32 else y, 4);
      }
    }
    var v := FromBigEndian(bs);
    if v >= TWO_31 then v - TWO_32 else v
  }

  // The part both forms end with.

  /** outcome || measurements || started_at || completed_at */
  function Tail(outcome: int32, measurements: seq<byte>, startedAt: int64, completedAt: int64): (bs: seq<byte>)
    ensures |bs| == 20 + |measurements|
  {
    Uint32Bytes(outcome) + measurements + Int64Bytes(startedAt) + Int64Bytes(completedAt)
  }

  datatype Fields = Fields(outcome: int32, measurements: seq<byte>, startedAt: int64, completedAt: int64)

  /** Every 20 bytes or more are the tail of exactly one result. */
  function TailFields(bs: seq<byte>): (f: Fields)
    requires |bs| >= 20
    ensures Tail(f.outcome, f.measurements, f.startedAt, f.completedAt) == bs
  {
    var n := |bs|;
    assert bs == bs[..4] + bs[4..n - 16] + bs[n - 16..n - 8] + bs[n - 8..];
    Fields(ToInt32(bs[..4]), bs[4..n - 16], ToInt64(bs[n - 16..n - 8]), ToInt64(bs[n - 8..]))
  }

  lemma TailInjective(f: Fields)
    ensures TailFields(Tail(f.outcome, f.measurements, f.startedAt, f.completedAt)) == f
  {
    var bs := Tail(f.outcome, f.measurements, f.startedAt, f.completedAt);
    var n := |bs|;
    assert bs[..4] == Uint32Bytes(f.outcome);
    assert bs[4..n - 16] == f.measurements;
    assert bs[n - 16..n - 8] == Int64Bytes(f.startedAt);
    assert bs[n - 8..] == Int64Bytes(f.completedAt);
  }

  // The two forms.

  function Ascii(s: string): (bs: seq<byte>)
    requires forall i :: 0 <= i < |s| ==> s[i] < 128 as char
    ensures |bs| == |s|
  {
    seq(|s|, i requires 0 <= i < |s| => s[i] as int)
  }

  const SLOT_DOMAIN: seq<byte> := Ascii("meshcheck-slot-result-v1") + [0]

  ghost function TaskPreimage(r: ResultSubmit): seq<byte> {
    r.taskId + r.checkId + Tail(r.outcome, r.measurements, r.startedAt, r.completedAt)
  }

  ghost function SlotBody(r: SlotResult): seq<byte> {
    r.assignmentId + [0] + (Int64Bytes(r.slot) + Tail(r.outcome, r.measurements, r.startedAt, r.completedAt))
  }

  ghost function SlotPreimage(r: SlotResult): seq<byte> {
    SLOT_DOMAIN + SlotBody(r)
  }

  // The slot form can be read back.

  function FirstZero(bs: seq<byte>): (n: nat)
    ensures n <= |bs| && (n < |bs| ==> bs[n] == 0)
    ensures forall i :: 0 <= i < n ==> bs[i] != 0
  {
    if bs == [] || bs[0] == 0 then 0 else 1 + FirstZero(bs[1..])
  }

  /** Reads the signed fields back: the id ends at the first zero byte after the domain. */
  function DecodeSlot(bs: seq<byte>): Option<SlotResult> {
    if SLOT_DOMAIN <= bs then DecodeBody(bs[|SLOT_DOMAIN|..]) else None
  }

  function DecodeBody(body: seq<byte>): Option<SlotResult> {
    var n := FirstZero(body);
    if |body| < n + 9 + 20 then None
    else
      var f := TailFields(body[n + 9..]);
      Some(SlotResult(body[..n], ToInt64(body[n + 1..n + 9]), f.outcome, f.measurements, f.startedAt, f.completedAt, []))
  }

  ghost predicate ZeroFree(bs: seq<byte>) {
    0 !in bs
  }

  /** The fields a signature covers. */
  function Unsigned(r: SlotResult): SlotResult {
    r.(signature := [])
  }

  lemma FirstZeroAt(id: seq<byte>, more: seq<byte>)
    ensures var n := FirstZero(id + [0] + more);
            n <= |id| && (n == |id| <==> ZeroFree(id))
  {
    var bs := id + [0] + more;
    var n := FirstZero(bs);
    assert bs[|id|] == 0;
    assert forall i :: 0 <= i < |id| ==> bs[i] == id[i];
    if n < |id| {
      assert id[n] == 0;
    }
  }

  /** What reads back has exactly these bytes. */
  lemma DecodeBodyExact(body: seq<byte>)
    requires DecodeBody(body).Some?
    ensures var x := DecodeBody(body).value;
            SlotBody(x) == body && ZeroFree(x.assignmentId) && Unsigned(x) == x
  {
    var n := FirstZero(body);
    assert body[..n] + [0] + (body[n + 1..n + 9] + body[n + 9..]) == body;
  }

  lemma BodyAt(r: SlotResult)
    ensures SlotPreimage(r)[|SLOT_DOMAIN|..] == SlotBody(r)
    ensures DecodeSlot(SlotPreimage(r)) == DecodeBody(SlotBody(r))
  {
  }

  /** Whatever the id, the slot form reads back as some result that has exactly these bytes and a zero-free id. */
  lemma DecodesToSameBytes(r: SlotResult)
    ensures DecodeSlot(SlotPreimage(r)).Some?
    ensures var x := DecodeSlot(SlotPreimage(r)).value;
            SlotPreimage(x) == SlotPreimage(r) && ZeroFree(x.assignmentId) && Unsigned(x) == x
  {
    BodyAt(r);
    FirstZeroAt(r.assignmentId, Int64Bytes(r.slot) + Tail(r.outcome, r.measurements, r.startedAt, r.completedAt));
    DecodeBodyExact(SlotBody(r));
  }

  lemma BodyRoundTrip(r: SlotResult)
    requires ZeroFree(r.assignmentId)
    ensures DecodeBody(SlotBody(r)) == Some(Unsigned(r))
  {
    var tail := Tail(r.outcome, r.measurements, r.startedAt, r.completedAt);
    var body, n := SlotBody(r), |r.assignmentId|;
    FirstZeroAt(r.assignmentId, Int64Bytes(r.slot) + tail);
    TailInjective(Fields(r.outcome, r.measurements, r.startedAt, r.completedAt));
    Pieces(r.assignmentId, Int64Bytes(r.slot), tail);
  }

  lemma Pieces(a: seq<byte>, b: seq<byte>, c: seq<byte>)
    requires |b| == 8
    ensures var body, n := a + [0] + (b + c), |a|;
            body[..n] == a && body[n + 1..n + 9] == b && body[n + 9..] == c
  {
  }

  /** The round trip closes if and only if the assignment id has no zero byte. */
  lemma SlotRoundTrip(r: SlotResult)
    ensures DecodeSlot(SlotPreimage(r)) == Some(Unsigned(r)) <==> ZeroFree(r.assignmentId)
  {
    DecodesToSameBytes(r);
    BodyAt(r);
    if ZeroFree(r.assignmentId) {
      BodyRoundTrip(r);
    }
  }

  /** Two results sign the same bytes if and only if those bytes read back the same; with zero-free ids, only if equal. */
  lemma SlotInjective(r: SlotResult, r': SlotResult)
    ensures SlotPreimage(r) == SlotPreimage(r') <==> DecodeSlot(SlotPreimage(r)) == DecodeSlot(SlotPreimage(r'))
    ensures ZeroFree(r.assignmentId) && ZeroFree(r'.assignmentId) ==>
              (SlotPreimage(r) == SlotPreimage(r') <==> Unsigned(r) == Unsigned(r'))
  {
    DecodesToSameBytes(r);
    DecodesToSameBytes(r');
    SlotRoundTrip(r);
    SlotRoundTrip(r');
  }

  /** Every result whose id has a zero byte shares its bytes with a different one, whose id has none. */
  lemma SlotCollides(r: SlotResult) returns (x: SlotResult)
    requires !ZeroFree(r.assignmentId)
    ensures SlotPreimage(x) == SlotPreimage(r) && Unsigned(x) != Unsigned(r) && ZeroFree(x.assignmentId)
  {
    DecodesToSameBytes(r);
    x := DecodeSlot(SlotPreimage(r)).value;
  }

  // The task form cannot, unless the lengths of the ids are known.

  function UnsignedTask(r: ResultSubmit): ResultSubmit {
    r.(signature := [])
  }

  function Ids(r: ResultSubmit): seq<byte> {
    r.taskId + r.checkId
  }

  lemma TaskInjective(r: ResultSubmit, r': ResultSubmit)
    requires |r.taskId| == |r'.taskId| && |r.checkId| == |r'.checkId|
    ensures TaskPreimage(r) == TaskPreimage(r') <==> UnsignedTask(r) == UnsignedTask(r')
  {
    if TaskPreimage(r) == TaskPreimage(r') {
      var bs, t, n := TaskPreimage(r), |r.taskId|, |Ids(r)|;
      assert bs[..t] == r.taskId == r'.taskId;
      assert bs[t..n] == r.checkId == r'.checkId;
      assert bs[n..] == Tail(r.outcome, r.measurements, r.startedAt, r.completedAt);
      assert bs[n..] == Tail(r'.outcome, r'.measurements, r'.startedAt, r'.completedAt);
      TailInjective(Fields(r.outcome, r.measurements, r.startedAt, r.completedAt));
      TailInjective(Fields(r'.outcome, r'.measurements, r'.startedAt, r'.completedAt));
    }
  }

  /** Any split of the bytes that leaves 20 for the tail is a task result with those bytes. */
  function TaskOf(bs: seq<byte>, t: nat, n: nat): (r: ResultSubmit)
    requires t <= n && n + 20 <= |bs|
    ensures TaskPreimage(r) == bs && Ids(r) == bs[..n] && r.taskId == bs[..t] && UnsignedTask(r) == r
  {
    var f := TailFields(bs[n..]);
    assert bs == bs[..t] + bs[t..n] + bs[n..];
    assert bs[..t] + bs[t..n] == bs[..n];
    ResultSubmit(bs[..t], bs[t..n], f.outcome, f.measurements, f.startedAt, f.completedAt, [])
  }

  // The methods that write them.

  /** Cut at the lengths of its two ids, the task form gives back the fields it was written from. */
  lemma TaskRoundTrip(r: ResultSubmit)
    ensures |Ids(r)| + 20 <= |TaskPreimage(r)|
    ensures TaskOf(TaskPreimage(r), |r.taskId|, |Ids(r)|) == UnsignedTask(r)
  {
    var x := TaskOf(TaskPreimage(r), |r.taskId|, |Ids(r)|);
    assert TaskPreimage(r)[..|Ids(r)|] == Ids(r);
    TaskInjective(x, r);
  }

  lemma Grouped(a: seq<byte>, b: seq<byte>, c: seq<byte>, d: seq<byte>, e: seq<byte>, f: seq<byte>)
    ensures [] + a + b + c + d + e + f == a + b + (c + d + e + f)
    ensures a + b + c + d + e + f == a + b + (c + d + e + f)
  {
  }

  lemma Headed(d: seq<byte>, a: seq<byte>, z: seq<byte>, s: seq<byte>, t: seq<byte>)
    ensures [] + d + a + z + s + t == d + (a + z + (s + t))
  {
  }

  method CanonicalBytes(taskId: GoString, checkId: GoString, outcome: int32, measurements: seq<byte>, startedAt: int64, completedAt: int64)
      returns (b: seq<byte>)
    ensures var r := ResultSubmit(taskId, checkId, outcome, measurements, startedAt, completedAt, []);
            && b == TaskPreimage(r)
            && |taskId + checkId| + 20 <= |b|
            && TaskOf(b, |taskId|, |taskId + checkId|) == r
  {
    b := [];
    b := b + taskId;
    b := b + checkId;
    b := b + Uint32Bytes(outcome);
    b := b + measurements;
    b := b + Int64Bytes(startedAt);
    b := b + Int64Bytes(completedAt);
    Grouped(taskId, checkId, Uint32Bytes(outcome), measurements, Int64Bytes(startedAt), Int64Bytes(completedAt));
    TaskRoundTrip(ResultSubmit(taskId, checkId, outcome, measurements, startedAt, completedAt, []));
  }

  method SlotBytes(r: SlotResult) returns (b: seq<byte>)
    ensures b == SlotPreimage(r)
    // A reader gets the signed fields back if and only if the id has no zero byte.
    ensures DecodeSlot(b) == Some(Unsigned(r)) <==> ZeroFree(r.assignmentId)
  {
    b := [];
    b := b + SLOT_DOMAIN;
    b := b + r.assignmentId;
    b := b + [0];
    ghost var id := b;
    b := b + Int64Bytes(r.slot);
    b := b + Uint32Bytes(r.outcome);
    b := b + r.measurements;
    b := b + Int64Bytes(r.startedAt);
    b := b + Int64Bytes(r.completedAt);
    Grouped(id, Int64Bytes(r.slot), Uint32Bytes(r.outcome), r.measurements, Int64Bytes(r.startedAt), Int64Bytes(r.completedAt));
    Headed(SLOT_DOMAIN, r.assignmentId, [0], Int64Bytes(r.slot), Tail(r.outcome, r.measurements, r.startedAt, r.completedAt));
    SlotRoundTrip(r);
  }

  /** With the lengths unknown, every task result but the shortest shares its bytes with a different one. */
  lemma TaskAmbiguous(r: ResultSubmit)
    ensures (exists x :: TaskPreimage(x) == TaskPreimage(r) && UnsignedTask(x) != UnsignedTask(r))
            <==> !(Ids(r) == [] && r.measurements == [])
  {
    var bs := TaskPreimage(r);
    var n := |Ids(r)|;
    if Ids(r) == [] && r.measurements == [] {
      forall x | TaskPreimage(x) == bs
        ensures UnsignedTask(x) == UnsignedTask(r)
      {
        assert |bs| == 20 && |bs| == |Ids(x)| + 20 + |x.measurements|;
        TaskInjective(x, r);
      }
    } else {
      // Move the boundary between the ids, or give the first byte to the task id.
      var x := if n > 0 then TaskOf(bs, if r.taskId == [] then 1 else 0, n) else TaskOf(bs, 1, 1);
      assert |x.taskId| != |r.taskId|;
      assert TaskPreimage(x) == bs && UnsignedTask(x) != UnsignedTask(r);
    }
  }

  // The two forms are kept apart by the domain.

  lemma MeetOnlyOnPrefix(r: ResultSubmit, s: SlotResult)
    requires TaskPreimage(r) == SlotPreimage(s)
    ensures Ids(r) <= SLOT_DOMAIN || SLOT_DOMAIN <= Ids(r)
  {
    var bs, n, d := TaskPreimage(r), |Ids(r)|, |SLOT_DOMAIN|;
    assert bs[..n] == Ids(r) && bs[..d] == SLOT_DOMAIN;
    if n <= d {
      assert bs[..d][..n] == bs[..n];
    } else {
      assert bs[..n][..d] == bs[..d];
    }
  }

  lemma MeetOnPrefix(ids: seq<byte>) returns (r: ResultSubmit, s: SlotResult)
    requires ids <= SLOT_DOMAIN || SLOT_DOMAIN <= ids
    ensures Ids(r) == ids && TaskPreimage(r) == SlotPreimage(s)
  {
    var d := |SLOT_DOMAIN|;
    s := SlotResult(if ids <= SLOT_DOMAIN then [] else ids[d..], 0, 0, [], 0, 0, []);
    var bs := SlotPreimage(s);
    assert bs[..|ids|] == ids;
    r := TaskOf(bs, 0, |ids|);
  }

  /**
   Some task result with these ids signs the same bytes as some slot result
   if and only if one of the ids and the domain is a prefix of the other.
   */
  lemma DomainsMeet(ids: seq<byte>)
    ensures (exists r, s :: Ids(r) == ids && TaskPreimage(r) == SlotPreimage(s))
            <==> ids <= SLOT_DOMAIN || SLOT_DOMAIN <= ids
  {
    forall r, s | Ids(r) == ids && TaskPreimage(r) == SlotPreimage(s)
      ensures ids <= SLOT_DOMAIN || SLOT_DOMAIN <= ids
    {
      MeetOnlyOnPrefix(r, s);
    }
    if ids <= SLOT_DOMAIN || SLOT_DOMAIN <= ids {
      var r, s := MeetOnPrefix(ids);
    }
  }

  lemma DomainBytes(ids: seq<byte>)
    ensures |SLOT_DOMAIN| == 25
    ensures SLOT_DOMAIN <= ids ==> 0 in ids
  {
    assert SLOT_DOMAIN[24] == 0;
    assert SLOT_DOMAIN <= ids ==> ids[24] == 0;
  }

  /** Ids without zero bytes that do not begin the domain's name never let a task result pass for a slot result. */
  lemma DomainsApart(r: ResultSubmit, s: SlotResult)
    requires ZeroFree(Ids(r)) && !(Ids(r) <= SLOT_DOMAIN[..24])
    ensures TaskPreimage(r) != SlotPreimage(s)
  {
    DomainBytes(Ids(r));
    if TaskPreimage(r) == SlotPreimage(s) {
      MeetOnlyOnPrefix(r, s);
    }
  }

  // Which byte stands where.

  /** Digit i of v in base 256, written with w digits, the most significant first. */
  function Digit(v: nat, w: nat, i: nat): nat
    requires i < w
  {
    v / Pow256(w - 1 - i) % 256
  }

  /** The w bytes from o on are v, the most significant first. */
  ghost predicate Stands(bs: seq<byte>, o: nat, w: nat, v: nat) {
    o + w <= |bs| && forall i :: 0 <= i < w ==> bs[o + i] == Digit(v, w, i)
  }

  lemma DivideTwice(v: nat, p: nat)
    requires p > 0
    ensures v / 256 / p == v / (256 * p)
  {
    var q := v / 256 / p;
    var r := v / 256 - q * p;
    assert v == 256 * (q * p + r) + v % 256;
    assert 0 <= r < p;
    assert q * (256 * p) == 256 * (q * p);
    Slot.QuotientUnique(v, 256 * p, q);
  }

  lemma {:induction false} ByteAt(v: nat, w: nat, i: nat)
    requires i < w
    ensures BigEndian(v, w)[i] == Digit(v, w, i)
  {
    if i < w - 1 {
      ByteAt(v / 256, w - 1, i);
      DivideTwice(v, Pow256(w - 2 - i));
    }
  }

  lemma BigEndianStands(bs: seq<byte>, o: nat, w: nat, v: nat)
    requires o + w <= |bs| && bs[o..o + w] == BigEndian(v, w)
    ensures Stands(bs, o, w, v)
  {
    forall i | 0 <= i < w
      ensures bs[o + i] == Digit(v, w, i)
    {
      ByteAt(v, w, i);
      assert bs[o..o + w][i] == bs[o + i];
    }
  }

  lemma Modulo(x: int, n: int)
    requires n > 0 && -n <= x < n
    ensures x % n == if x < 0 then x + n else x
  {
  }

  /** The common tail from o on: outcome, measurements, start and end, integers modulo 2^32 and 2^64. */
  ghost predicate TailAt(bs: seq<byte>, o: nat, outcome: int32, measurements: seq<byte>, startedAt: int64, completedAt: int64) {
    var m := o + 4 + |measurements|;
    && |bs| == m + 16
    && Stands(bs, o, 4, outcome % TWO_32)
    && bs[o + 4..m] == measurements
    && Stands(bs, m, 8, startedAt % TWO_64)
    && Stands(bs, m + 8, 8, completedAt % TWO_64)
  }

  lemma TailSlices(h: seq<byte>, a: seq<byte>, m: seq<byte>, b: seq<byte>, c: seq<byte>)
    requires |a| == 4 && |b| == 8 && |c| == 8
    ensures var bs, o, n := h + (a + m + b + c), |h|, |h| + 4 + |m|;
            && |bs| == n + 16
            && bs[o..o + 4] == a && bs[o + 4..n] == m && bs[n..n + 8] == b && bs[n + 8..n + 16] == c
  {
  }

  lemma TailStands(head: seq<byte>, outcome: int32, measurements: seq<byte>, startedAt: int64, completedAt: int64)
    ensures TailAt(head + Tail(outcome, measurements, startedAt, completedAt), |head|, outcome, measurements, startedAt, completedAt)
  {
    var bs, o := head + Tail(outcome, measurements, startedAt, completedAt), |head|;
    var m := o + 4 + |measurements|;
    TailSlices(head, Uint32Bytes(outcome), measurements, Int64Bytes(startedAt), Int64Bytes(completedAt));
    Modulo(outcome, TWO_32);
    Modulo(startedAt, TWO_64);
    Modulo(completedAt, TWO_64);
    BigEndianStands(bs, o, 4, outcome % TWO_32);
    BigEndianStands(bs, m, 8, startedAt % TWO_64);
    BigEndianStands(bs, m + 8, 8, completedAt % TWO_64);
  }

  /** task_id || check_id || outcome || measurements || started_at || completed_at */
  lemma TaskLayout(r: ResultSubmit)
    ensures var bs, n := TaskPreimage(r), |r.taskId| + |r.checkId|;
            && bs[..|r.taskId|] == r.taskId && bs[|r.taskId|..n] == r.checkId
            && TailAt(bs, n, r.outcome, r.measurements, r.startedAt, r.completedAt)
  {
    TailStands(r.taskId + r.checkId, r.outcome, r.measurements, r.startedAt, r.completedAt);
  }

  /** "meshcheck-slot-result-v1" || 0 || assignment_id || 0 || slot || outcome || measurements || started_at || completed_at */
  lemma SlotLayout(r: SlotResult)
    ensures var bs, n, text := SlotPreimage(r), 25 + |r.assignmentId|, "meshcheck-slot-result-v1";
            && (forall i :: 0 <= i < 24 ==> bs[i] == text[i] as int) && bs[24] == 0
            && bs[25..n] == r.assignmentId && bs[n] == 0
            && Stands(bs, n + 1, 8, r.slot % TWO_64)
            && TailAt(bs, n + 9, r.outcome, r.measurements, r.startedAt, r.completedAt)
  {
    var tail := Tail(r.outcome, r.measurements, r.startedAt, r.completedAt);
    var head := SLOT_DOMAIN + r.assignmentId + [0] + Int64Bytes(r.slot);
    SlotSlices(SLOT_DOMAIN, r.assignmentId, Int64Bytes(r.slot), tail);
    TailStands(head, r.outcome, r.measurements, r.startedAt, r.completedAt);
    Modulo(r.slot, TWO_64);
    BigEndianStands(SlotPreimage(r), 26 + |r.assignmentId|, 8, r.slot % TWO_64);
    DomainText(SlotPreimage(r));
  }

  lemma SlotSlices(d: seq<byte>, a: seq<byte>, s: seq<byte>, t: seq<byte>)
    requires |d| == 25 && |s| == 8
    ensures var bs, n := d + (a + [0] + (s + t)), 25 + |a|;
            && bs == d + a + [0] + s + t
            && d <= bs && bs[25..n] == a && bs[n] == 0 && bs[n + 1..n + 9] == s
  {
  }

  lemma DomainText(bs: seq<byte>)
    requires SLOT_DOMAIN <= bs
    ensures var text := "meshcheck-slot-result-v1";
            (forall i :: 0 <= i < 24 ==> bs[i] == text[i] as int) && bs[24] == 0
  {
    assert SLOT_DOMAIN[24] == 0 && bs[24] == SLOT_DOMAIN[24];
    assert forall i :: 0 <= i < 24 ==> bs[i] == SLOT_DOMAIN[i];
  }

  // Signatures, over an abstract hash and signature scheme.

  datatype Crypto = Crypto(
    hash: seq<byte> -> seq<byte>,
    sign: (seq<byte>, seq<byte>) -> seq<byte>,
    verify: (seq<byte>, seq<byte>, seq<byte>) -> bool)

  const PUBLIC_KEY_SIZE := 32

  ghost function Hash(c: Crypto, r: ResultSubmit): seq<byte> {
    c.hash(TaskPreimage(r))
  }

  ghost function SlotHash(c: Crypto, r: SlotResult): seq<byte> {
    c.hash(SlotPreimage(r))
  }

  ghost predicate CollisionFree(c: Crypto) {
    forall x, y :: c.hash(x) == c.hash(y) ==> x == y
  }

  /** The digest of a task result. */
  method Digest(c: Crypto, r: ResultSubmit) returns (sum: seq<byte>)
    ensures sum == Hash(c, r)
    // Recomputed from stored fields, it is the same only for the fields it was made from.
    ensures CollisionFree(c) ==>
              forall x: ResultSubmit :: |x.taskId| == |r.taskId| && |x.checkId| == |r.checkId| ==>
                (Hash(c, x) == sum <==> UnsignedTask(x) == UnsignedTask(r))
  {
    var b := CanonicalBytes(r.taskId, r.checkId, r.outcome, r.measurements, r.startedAt, r.completedAt);
    sum := c.hash(b);
    forall x: ResultSubmit | CollisionFree(c) && |x.taskId| == |r.taskId| && |x.checkId| == |r.checkId|
      ensures Hash(c, x) == sum <==> UnsignedTask(x) == UnsignedTask(r)
    {
      TaskInjective(x, r);
    }
  }

  /** The digest of a slot result. */
  method SlotDigest(c: Crypto, r: SlotResult) returns (sum: seq<byte>)
    ensures sum == SlotHash(c, r)
    ensures CollisionFree(c) && ZeroFree(r.assignmentId) ==>
              forall x: SlotResult :: ZeroFree(x.assignmentId) ==> (SlotHash(c, x) == sum <==> Unsigned(x) == Unsigned(r))
  {
    var b := SlotBytes(r);
    sum := c.hash(b);
    forall x: SlotResult | CollisionFree(c) && ZeroFree(r.assignmentId) && ZeroFree(x.assignmentId)
      ensures SlotHash(c, x) == sum <==> Unsigned(x) == Unsigned(r)
    {
      SlotInjective(x, r);
    }
  }

  ghost function Sign(c: Crypto, priv: seq<byte>, r: ResultSubmit): seq<byte> {
    c.sign(priv, Hash(c, r))
  }

  ghost function SignSlot(c: Crypto, priv: seq<byte>, r: SlotResult): seq<byte> {
    c.sign(priv, SlotHash(c, r))
  }

  ghost predicate Verify(c: Crypto, pub: seq<byte>, r: ResultSubmit) {
    |pub| == PUBLIC_KEY_SIZE && c.verify(pub, Hash(c, r), r.signature)
  }

  ghost predicate VerifySlot(c: Crypto, pub: seq<byte>, r: SlotResult) {
    |pub| == PUBLIC_KEY_SIZE && c.verify(pub, SlotHash(c, r), r.signature)
  }

  /** Signatures made with priv verify under pub for their own digest only, and digests do not collide. */
  ghost predicate Ideal(c: Crypto, priv: seq<byte>, pub: seq<byte>) {
    && |pub| == PUBLIC_KEY_SIZE
    && (forall d, e :: c.verify(pub, d, c.sign(priv, e)) <==> d == e)
    && CollisionFree(c)
  }

  /** A slot signature vouches for exactly the result it was made for. */
  lemma SlotSignatureBinds(c: Crypto, priv: seq<byte>, pub: seq<byte>, r: SlotResult, x: SlotResult)
    requires Ideal(c, priv, pub) && ZeroFree(r.assignmentId) && ZeroFree(x.assignmentId)
    ensures VerifySlot(c, pub, x.(signature := SignSlot(c, priv, r))) <==> Unsigned(x) == Unsigned(r)
  {
    var y := x.(signature := SignSlot(c, priv, r));
    assert SlotPreimage(y) == SlotPreimage(x);
    SlotInjective(x, r);
  }

  /** A task signature never verifies as a slot signature, nor the other way round. */
  lemma NoCrossUse(c: Crypto, priv: seq<byte>, pub: seq<byte>, r: ResultSubmit, s: SlotResult)
    requires Ideal(c, priv, pub) && ZeroFree(Ids(r)) && !(Ids(r) <= SLOT_DOMAIN[..24])
    ensures !VerifySlot(c, pub, s.(signature := Sign(c, priv, r)))
    ensures !Verify(c, pub, r.(signature := SignSlot(c, priv, s)))
  {
    DomainsApart(r, s);
    assert SlotPreimage(s.(signature := Sign(c, priv, r))) == SlotPreimage(s);
    assert TaskPreimage(r.(signature := SignSlot(c, priv, s))) == TaskPreimage(r);
  }
}
