/** pkg/slot: which slot of a standing assignment an instant falls in, in int64 arithmetic. */
module Slot {
  import opened GoInts

  function IntervalMs(intervalSeconds: int32): (iv: int64)
    ensures 1000 <= iv <= 1000 * TWO_31
  {
    if intervalSeconds < 1 then 1000 else Wrap64(intervalSeconds * 1000)
  }

  function Of(tMs: int64, intervalSeconds: int32, phaseMs: int32): int64 {
    var iv := IntervalMs(intervalSeconds);
    var d := Wrap64(tMs - phaseMs);
    var k := TruncDiv(d, iv);
    Wrap64(if TruncMod(d, iv) < 0 then k - 1 else k)
  }

  function Start(k: int64, intervalSeconds: int32, phaseMs: int32): int64 {
    Wrap64(Wrap64(k * IntervalMs(intervalSeconds)) + phaseMs)
  }

  /** Phase, for any 64-bit hash of the assignment id. */
  function Phase(hash: uint64, intervalSeconds: int32): int32 {
    Wrap32(hash % IntervalMs(intervalSeconds))
  }

  // The same quantities on unbounded integers.

  /** When slot k begins. */
  function Begins(k: int, intervalSeconds: int32, phaseMs: int32): int {
    k * IntervalMs(intervalSeconds) + phaseMs
  }

  /** k is the slot with Begins(k) <= t < Begins(k+1). */
  predicate InSlot(t: int, k: int, intervalSeconds: int32, phaseMs: int32) {
    Begins(k, intervalSeconds, phaseMs) <= t < Begins(k + 1, intervalSeconds, phaseMs)
  }

  /** Truncated division, corrected for a negative remainder, is floor division. */
  lemma TruncIsFloor(d: int, iv: int)
    requires iv > 0
    ensures (if TruncMod(d, iv) < 0 then TruncDiv(d, iv) - 1 else TruncDiv(d, iv)) == d / iv
  {
    if d < 0 {
      var q := (-d) / iv;
      var r := (-d) % iv;
      assert -d == q * iv + r;
      assert TruncMod(d, iv) == d - (-q) * iv == -r;
      if r == 0 {
        QuotientUnique(d, iv, -q);
      } else {
        assert (-q - 1) * iv == -(q * iv) - iv;
        QuotientUnique(d, iv, -q - 1);
      }
    } else {
      assert d == d / iv * iv + d % iv;
    }
  }

  lemma QuotientUnique(d: int, iv: int, k: int)
    requires iv > 0 && k * iv <= d < k * iv + iv
    ensures d / iv == k
  {
    var q := d / iv;
    assert (q + 1) * iv == q * iv + iv && (k + 1) * iv == k * iv + iv;
    assert q * iv <= d < q * iv + iv;
    LessOfMul(q, k + 1, iv);
    LessOfMul(k, q + 1, iv);
  }

  lemma LessOfMul(a: int, b: int, c: int)
    requires c > 0 && a * c < b * c
    ensures a < b
  {
    if a >= b {
      MulMono(b, a, c);
    }
  }

  lemma MulMono(a: int, b: int, c: int)
    requires a <= b && c >= 0
    ensures a * c <= b * c
  {
  }

  /** Every instant is in exactly one slot: the floor quotient. */
  lemma SlotUnique(t: int, k: int, intervalSeconds: int32, phaseMs: int32)
    ensures InSlot(t, k, intervalSeconds, phaseMs) <==> k == (t - phaseMs) / IntervalMs(intervalSeconds)
  {
    var iv := IntervalMs(intervalSeconds);
    var d := t - phaseMs;
    assert (k + 1) * iv == k * iv + iv;
    if InSlot(t, k, intervalSeconds, phaseMs) {
      QuotientUnique(d, iv, k);
    } else if k == d / iv {
      assert false;
    }
  }

  /** The 64-bit result is the floor quotient of the wrapped difference. */
  lemma OfIsFloor(t: int64, intervalSeconds: int32, phaseMs: int32)
    ensures Of(t, intervalSeconds, phaseMs) == Wrap64(t - phaseMs) / IntervalMs(intervalSeconds)
  {
    var iv := IntervalMs(intervalSeconds);
    var d := Wrap64(t - phaseMs);
    TruncIsFloor(d, iv);
    QuotientSmall(d, iv);
  }

  lemma QuotientSmall(d: int64, iv: int)
    requires iv >= 1
    ensures FitsInt64(d / iv)
  {
    var q := d / iv;
    assert q * iv <= d < q * iv + iv;
    assert (q + 1) * iv == q * iv + iv;
    if q > 0 {
      MulMono(1, iv, q);
    } else {
      MulMono(1, iv, -q);
      LessOfMul(-TWO_63 - 1, q, iv) by {
        MulMono(1, iv, TWO_63);
        assert (-TWO_63 - 1) * iv == -(TWO_63 * iv) - iv;
      }
    }
  }

  /** Of names the slot of t if and only if t - phase does not overflow. */
  lemma OfExact(t: int64, intervalSeconds: int32, phaseMs: int32)
    ensures InSlot(t, Of(t, intervalSeconds, phaseMs), intervalSeconds, phaseMs) <==> FitsInt64(t - phaseMs)
  {
    var iv := IntervalMs(intervalSeconds);
    var k := Of(t, intervalSeconds, phaseMs);
    var e := t - phaseMs;
    OfIsFloor(t, intervalSeconds, phaseMs);
    SlotUnique(t, k, intervalSeconds, phaseMs);
    CloseQuotients(Wrap64(e), e, iv);
    WrapFar(e);
  }

  lemma CloseQuotients(a: int, b: int, iv: int)
    requires iv > 0
    ensures a / iv == b / iv ==> -iv < a - b < iv
  {
    var q := b / iv;
    assert a / iv * iv <= a < a / iv * iv + iv;
    assert q * iv <= b < q * iv + iv;
  }

  /** An overflowing result is at least 2^64 off. */
  lemma WrapFar(x: int)
    ensures !FitsInt64(x) ==> Wrap64(x) - x >= TWO_64 || x - Wrap64(x) >= TWO_64
  {
    var q := (x + TWO_63) / TWO_64;
    assert Wrap64(x) == x - q * TWO_64;
  }

  /** Start is exact if and only if the instant itself fits. */
  lemma StartExact(k: int64, intervalSeconds: int32, phaseMs: int32)
    ensures Start(k, intervalSeconds, phaseMs) == Begins(k, intervalSeconds, phaseMs)
            <==> FitsInt64(Begins(k, intervalSeconds, phaseMs))
  {
    var m := k * IntervalMs(intervalSeconds);
    var x := m + phaseMs;
    var q, r := (m + TWO_63) / TWO_64, (Wrap64(m) + phaseMs + TWO_63) / TWO_64;
    assert Wrap64(m) == m - q * TWO_64;
    assert Start(k, intervalSeconds, phaseMs) == x - q * TWO_64 - r * TWO_64;
  }

  lemma WrapShift(m: int, q: int)
    ensures Wrap64(m - q * TWO_64) == Wrap64(m)
  {
    var a := (m + TWO_63) / TWO_64;
    assert m - q * TWO_64 + TWO_63 == Wrap64(m) + TWO_63 + (a - q) * TWO_64;
  }

  /**
   Of undoes Start if and only if the slot's offset from slot 0 fits; even a
   start that itself overflows comes back.
   */
  lemma OfStart(k: int64, intervalSeconds: int32, phaseMs: int32)
    ensures Of(Start(k, intervalSeconds, phaseMs), intervalSeconds, phaseMs) == k
            <==> FitsInt64(k * IntervalMs(intervalSeconds))
  {
    var iv := IntervalMs(intervalSeconds);
    var m := k * iv;
    var start := Start(k, intervalSeconds, phaseMs);
    var q, r := (m + TWO_63) / TWO_64, (Wrap64(m) + phaseMs + TWO_63) / TWO_64;
    assert Wrap64(m) == m - q * TWO_64;
    assert start - phaseMs == m - (q + r) * TWO_64;
    WrapShift(m, q + r);
    OfIsFloor(start, intervalSeconds, phaseMs);
    QuotientUnique(m, iv, k);
    CloseQuotients(Wrap64(m), m, iv);
    WrapFar(m);
  }

  /** Later instants are in later slots, or the same one. */
  lemma OfMonotone(t: int64, u: int64, intervalSeconds: int32, phaseMs: int32)
    requires t <= u && FitsInt64(t - phaseMs) && FitsInt64(u - phaseMs)
    ensures Of(t, intervalSeconds, phaseMs) <= Of(u, intervalSeconds, phaseMs)
  {
    var iv := IntervalMs(intervalSeconds);
    OfIsFloor(t, intervalSeconds, phaseMs);
    OfIsFloor(u, intervalSeconds, phaseMs);
    QuotientMono(t - phaseMs, u - phaseMs, iv);
  }

  lemma QuotientShift(k: int, e: int, iv: int)
    requires iv > 0
    ensures (k * iv + e) / iv == k + e / iv
  {
    var q := e / iv;
    assert (k + q) * iv == k * iv + q * iv;
    QuotientUnique(k * iv + e, iv, k + q);
  }

  lemma QuotientSign(e: int, iv: int)
    requires iv > 0
    ensures e >= 0 <==> e / iv >= 0
    ensures 0 <= e < iv <==> e / iv == 0
  {
    var q := e / iv;
    assert q * iv <= e < q * iv + iv;
    if q > 0 {
      MulMono(1, q, iv);
    } else if q < 0 {
      MulMono(1, -q, iv);
    }
  }

  /** Rounding d / iv up bounds how far below zero -d / iv rounds down. */
  lemma QuotientOfBack(e: int, d: nat, iv: int)
    requires iv > 0 && e + d >= 0
    ensures e / iv >= -((d + iv - 1) / iv)
  {
    var q, c := e / iv, (d + iv - 1) / iv;
    assert q * iv <= e < q * iv + iv;
    assert c * iv <= d + iv - 1 < c * iv + iv;
    assert (-c) * iv == -(c * iv) && (q + 1) * iv == q * iv + iv;
    LessOfMul(-c, q + 1, iv);
  }

  lemma QuotientMono(d: int, e: int, iv: int)
    requires d <= e && iv > 0
    ensures d / iv <= e / iv
  {
    assert d / iv * iv <= d && e < e / iv * iv + iv;
    assert (e / iv + 1) * iv == e / iv * iv + iv;
    LessOfMul(d / iv, e / iv + 1, iv);
  }

  lemma Remainder(a: int, b: int)
    requires b > 0
    ensures 0 <= a % b < b && (0 <= a < b ==> a % b == a)
  {
  }

  /** Phase is in [0, interval) for every id's hash if and only if the interval is at most 2147483 seconds. */
  lemma PhaseInRange(intervalSeconds: int32)
    ensures (forall h: uint64 :: 0 <= Phase(h, intervalSeconds) < IntervalMs(intervalSeconds))
            <==> intervalSeconds <= 2_147_483
  {
    var iv := IntervalMs(intervalSeconds);
    if intervalSeconds <= 2_147_483 {
      assert iv <= TWO_31;
      forall h: uint64
        ensures 0 <= Phase(h, intervalSeconds) < iv
      {
        Remainder(h, iv);
      }
    } else {
      Remainder(TWO_31, iv);
      assert Phase(TWO_31, intervalSeconds) == -TWO_31;
    }
  }

  // In seconds and milliseconds.

  /** A malformed interval counts as one second. */
  function Millis(intervalSeconds: int32): int {
    if intervalSeconds >= 1 then intervalSeconds as int * 1000 else 1000
  }

  lemma IntervalExact(intervalSeconds: int32)
    ensures IntervalMs(intervalSeconds) == Millis(intervalSeconds)
  {
  }

  /** Slots are as long as the interval says, one after the other, from the phase on. */
  lemma SlotsInMillis(t: int64, k: int64, intervalSeconds: int32, phaseMs: int32)
    ensures FitsInt64(t - phaseMs) ==>
              (Of(t, intervalSeconds, phaseMs) == k
               <==> k * Millis(intervalSeconds) + phaseMs <= t < k * Millis(intervalSeconds) + phaseMs + Millis(intervalSeconds))
    ensures FitsInt64(k * Millis(intervalSeconds) + phaseMs) ==>
              Start(k, intervalSeconds, phaseMs) == k * Millis(intervalSeconds) + phaseMs
  {
    var iv := IntervalMs(intervalSeconds);
    IntervalExact(intervalSeconds);
    assert (k + 1) * iv == k * iv + iv;
    StartExact(k, intervalSeconds, phaseMs);
    OfExact(t, intervalSeconds, phaseMs);
    SlotUnique(t, k, intervalSeconds, phaseMs);
    SlotUnique(t, Of(t, intervalSeconds, phaseMs), intervalSeconds, phaseMs);
  }

  /** Phase is the hash modulo the interval, so every millisecond of the interval is the phase of some hash. */
  lemma PhaseIsRemainder(hash: uint64, intervalSeconds: int32)
    requires intervalSeconds <= 2_147_483
    ensures Phase(hash, intervalSeconds) == hash % Millis(intervalSeconds)
    ensures hash < Millis(intervalSeconds) ==> Phase(hash, intervalSeconds) == hash
  {
    IntervalExact(intervalSeconds);
    Remainder(hash, Millis(intervalSeconds));
  }
}
