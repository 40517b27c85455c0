/** The firing loop of one standing assignment: `fire` of cmd/agent/assign.go. */
module Fire {
  import opened GoInts
  import opened Slot

  const NANOS_PER_MS := 1_000_000

  datatype Timing = Timing(intervalSeconds: int32, phaseMs: int32) {
    function Interval(): (iv: int64)
      ensures 1000 <= iv <= 1000 * TWO_31
    {
      IntervalMs(intervalSeconds)
    }

    function Beginning(k: int): int {
      Begins(k, intervalSeconds, phaseMs)
    }

    /** A clock reading whose distance from slot 0 fits: every one within 2^63 - 2^31 ms of 1970. */
    predicate Readable(now: int64) {
      FitsInt64(now - phaseMs)
    }

    /** The slot fire waits for at a clock reading. */
    function NextSlot(now: int64): int64 {
      Wrap64(Of(now, intervalSeconds, phaseMs) + 1)
    }

    /** How long it waits, as a time.Duration. */
    function Wait(now: int64): int64 {
      Wrap64(Wrap64(Start(NextSlot(now), intervalSeconds, phaseMs) - now) * NANOS_PER_MS)
    }
  }

  /** A wait from `now` that ends exactly when slot k begins, the first slot not yet begun. */
  ghost predicate Awaits(t: Timing, now: int64, k: int64, wait: int64) {
    && t.Beginning(k - 1) <= now < t.Beginning(k)
    && now * NANOS_PER_MS + wait == t.Beginning(k) * NANOS_PER_MS
    && 0 < wait <= t.Interval() * NANOS_PER_MS
  }

  /** The slots fired by a loop that reads the platform clock as given and is cancelled during the last wait. */
  method Fire(t: Timing, readings: seq<int64>) returns (fired: seq<int64>, waits: seq<int64>)
    requires forall i :: 0 <= i < |readings| ==> t.Readable(readings[i])
    ensures |waits| == |readings| && |fired| == if readings == [] then 0 else |readings| - 1
    // Whatever the interval and however late the reading, the wait ends at the start of a slot not yet begun.
    ensures forall i :: 0 <= i < |fired| ==> Awaits(t, readings[i], fired[i], waits[i])
    ensures forall i :: 0 <= i < |fired| ==> fired[i] == t.NextSlot(readings[i])
  {
    fired, waits := [], [];
    var i := 0;
    while i < |readings|
      invariant i <= |readings| && |waits| == i && |fired| == if i == |readings| && i > 0 then i - 1 else i
      invariant forall j :: 0 <= j < |fired| ==> Awaits(t, readings[j], fired[j], waits[j])
      invariant forall j :: 0 <= j < |fired| ==> fired[j] == t.NextSlot(readings[j])
    {
      var now := readings[i];
      var k := Wrap64(Of(now, t.intervalSeconds, t.phaseMs) + 1);
      var wait := Wrap64(Wrap64(Start(k, t.intervalSeconds, t.phaseMs) - now) * NANOS_PER_MS);
      WaitExact(t, now);
      waits := waits + [wait];
      i := i + 1;
      if i < |readings| {
        fired := fired + [k];
      }
    }
  }

  lemma BeginningNext(t: Timing, k: int)
    ensures t.Beginning(k + 1) == t.Beginning(k) + t.Interval()
  {
    assert (k + 1) * t.Interval() == k * t.Interval() + t.Interval();
  }

  /** The start of a slot computed with wrap-around is off by whole multiples of 2^64. */
  lemma StartModulo(k: int64, intervalSeconds: int32, phaseMs: int32) returns (q: int)
    ensures Start(k, intervalSeconds, phaseMs) == Begins(k, intervalSeconds, phaseMs) - q * TWO_64
  {
    var m := k * IntervalMs(intervalSeconds);
    var a, b := (m + TWO_63) / TWO_64, (Wrap64(m) + phaseMs + TWO_63) / TWO_64;
    assert Wrap64(m) == m - a * TWO_64;
    q := a + b;
  }

  /** The wait is exact in int64 nanoseconds and within (0, interval]: no step of it overflows in effect. */
  lemma WaitExact(t: Timing, now: int64)
    requires t.Readable(now)
    ensures t.NextSlot(now) == (now - t.phaseMs) / t.Interval() + 1
    ensures Awaits(t, now, t.NextSlot(now), t.Wait(now))
  {
    OfExact(now, t.intervalSeconds, t.phaseMs);
    OfIsFloor(now, t.intervalSeconds, t.phaseMs);
    SmallQuotient(now - t.phaseMs, t.Interval());
    var k := t.NextSlot(now);
    BeginningNext(t, k - 1);
    var q := StartModulo(k, t.intervalSeconds, t.phaseMs);
    WrapShift(t.Beginning(k) - now, q);
  }

  /** The same in milliseconds: the first slot start after the reading, at most an interval away. */
  lemma WaitInMillis(t: Timing, now: int64)
    requires -0x8000_0000_0000_0000 <= now - t.phaseMs < 0x8000_0000_0000_0000
    ensures var start := t.NextSlot(now) * Millis(t.intervalSeconds) + t.phaseMs;
            && now < start <= now + Millis(t.intervalSeconds)
            && t.Wait(now) == (start - now) * 1_000_000
  {
    IntervalExact(t.intervalSeconds);
    WaitExact(t, now);
    BeginningNext(t, t.NextSlot(now) - 1);
  }

  lemma SmallQuotient(d: int64, iv: int)
    requires iv >= 1000
    ensures -TWO_63 <= d / iv < TWO_63 - 1
  {
    var q := d / iv;
    QuotientSmall(d, iv);
    assert q * iv <= d < q * iv + iv;
    if q == TWO_63 - 1 {
      MulMono(1000, iv, q);
    }
  }

  // Runs.

  /** How far past the start of slot k the clock stands: the wake-up's own lateness, less any step back. */
  function Lateness(t: Timing, k: int, reading: int): int {
    reading - t.Beginning(k)
  }

  /** Readings at which the loop computed the slots of ks, in turn. */
  ghost predicate Computed(t: Timing, readings: seq<int64>, ks: seq<int64>) {
    && |ks| == |readings|
    && forall i :: 0 <= i < |ks| ==> t.Readable(readings[i]) && ks[i] == t.NextSlot(readings[i])
  }

  /** The slot after k: one further, plus every whole interval the clock is late, whatever came before. */
  lemma NextSlotExact(t: Timing, k: int, reading: int64)
    requires t.Readable(reading)
    ensures t.NextSlot(reading) == k + 1 + Lateness(t, k, reading) / t.Interval()
  {
    WaitExact(t, reading);
    QuotientShift(k, Lateness(t, k, reading), t.Interval());
  }

  /** Whole intervals lost, summed over the wake-ups of a run. */
  function Skipped(t: Timing, readings: seq<int64>, ks: seq<int64>): int
    requires |ks| == |readings|
  {
    var n := |ks| - 1;
    if n <= 0 then 0
    else Skipped(t, readings[..n], ks[..n]) + Lateness(t, ks[n - 1], readings[n]) / t.Interval()
  }

  /** The n-th slot of any run, clock steps included, in closed form. */
  lemma {:induction false} RunClosedForm(t: Timing, readings: seq<int64>, ks: seq<int64>)
    requires Computed(t, readings, ks) && ks != []
    ensures ks[|ks| - 1] == ks[0] + (|ks| - 1) + Skipped(t, readings, ks)
  {
    var n := |ks| - 1;
    if n > 0 {
      RunClosedForm(t, readings[..n], ks[..n]);
      NextSlotExact(t, ks[n - 1], readings[n]);
    }
  }

  /**
   One wake-up: the next slot is later if and only if the clock has reached
   the start of this one, and it is the very next if and only if the clock is
   also less than an interval past it.
   */
  lemma WakeUp(t: Timing, k: int, reading: int64)
    requires t.Readable(reading)
    ensures t.NextSlot(reading) > k <==> reading >= t.Beginning(k)
    ensures t.NextSlot(reading) == k + 1 <==> t.Beginning(k) <= reading < t.Beginning(k + 1)
  {
    NextSlotExact(t, k, reading);
    BeginningNext(t, k);
    QuotientSign(Lateness(t, k, reading), t.Interval());
  }

  // Runs on a platform clock of nanoseconds, read in whole milliseconds.

  /** The instants behind the readings: UnixMilli rounds down. */
  ghost predicate Clocked(instants: seq<int>, readings: seq<int64>) {
    && |instants| == |readings|
    && forall i :: 0 <= i < |instants| ==> readings[i] == instants[i] / NANOS_PER_MS
  }

  /** Between two readings the clock has advanced by the wait at least: no timer fires early, and the clock never steps back. */
  ghost predicate NeverEarly(t: Timing, instants: seq<int>, readings: seq<int64>)
    requires |instants| == |readings|
  {
    forall m :: 0 <= m < |instants| - 1 ==> instants[m] + t.Wait(readings[m]) <= instants[m + 1]
  }

  /** The wait leads to the start of its slot, unless the clock steps back; then it falls short by no more than the step. */
  lemma WaitedOut(t: Timing, now: int, reading: int64, later: int, next: int64, d: nat)
    requires t.Readable(reading) && reading == now / NANOS_PER_MS && next == later / NANOS_PER_MS
    requires now + t.Wait(reading) <= later + d * NANOS_PER_MS
    ensures t.Beginning(t.NextSlot(reading)) <= next + d
  {
    WaitExact(t, reading);
    assert later + d * NANOS_PER_MS < (next + d + 1) * NANOS_PER_MS;
  }

  /** A clock stepped back by d ms during a wait repeats at most ceil(d / interval) slots. */
  lemma StepBack(t: Timing, now: int, reading: int64, later: int, next: int64, d: nat)
    requires t.Readable(reading) && reading == now / NANOS_PER_MS
    requires t.Readable(next) && next == later / NANOS_PER_MS
    requires now + t.Wait(reading) - d * NANOS_PER_MS <= later
    ensures t.NextSlot(next) >= t.NextSlot(reading) + 1 - (d + t.Interval() - 1) / t.Interval()
  {
    var k := t.NextSlot(reading);
    WaitedOut(t, now, reading, later, next, d);
    NextSlotExact(t, k, next);
    QuotientOfBack(Lateness(t, k, next), d, t.Interval());
  }

  lemma NextWaitedOut(t: Timing, instants: seq<int>, readings: seq<int64>, ks: seq<int64>, m: nat)
    requires Clocked(instants, readings) && Computed(t, readings, ks) && NeverEarly(t, instants, readings)
    requires m < |ks| - 1
    ensures t.Beginning(ks[m]) <= readings[m + 1]
  {
    WaitedOut(t, instants[m], readings[m], instants[m + 1], readings[m + 1], 0);
  }

  lemma NextLater(t: Timing, instants: seq<int>, readings: seq<int64>, ks: seq<int64>, m: nat)
    requires Clocked(instants, readings) && Computed(t, readings, ks) && NeverEarly(t, instants, readings)
    requires m < |ks| - 1
    ensures ks[m] < ks[m + 1]
  {
    NextWaitedOut(t, instants, readings, ks, m);
    WakeUp(t, ks[m], readings[m + 1]);
  }

  ghost predicate Increasing(ks: seq<int>) {
    forall m :: 0 <= m < |ks| - 1 ==> LaterAt(ks, m)
  }

  ghost predicate LaterAt(ks: seq<int>, m: nat)
    requires m + 1 < |ks|
  {
    ks[m] < ks[m + 1]
  }

  lemma {:induction false} IncreaseAddsUp(ks: seq<int>, i: nat, j: nat)
    requires Increasing(ks) && i < j < |ks|
    ensures ks[i] + (j - i) <= ks[j]
  {
    assert LaterAt(ks, j - 1);
    if i < j - 1 {
      IncreaseAddsUp(ks, i, j - 1);
    }
  }

  /** With a platform clock that never steps back and timers that never fire early, no slot is fired twice. */
  lemma SlotsIncrease(t: Timing, instants: seq<int>, readings: seq<int64>, ks: seq<int64>, i: nat, j: nat)
    requires Clocked(instants, readings) && Computed(t, readings, ks) && NeverEarly(t, instants, readings)
    requires i < j < |ks|
    ensures ks[i] + (j - i) <= ks[j]
  {
    forall m | 0 <= m < |ks| - 1
      ensures LaterAt(ks, m)
    {
      NextLater(t, instants, readings, ks, m);
    }
    IncreaseAddsUp(ks, i, j);
  }

  /** Every reading comes before the slot after the one just waited for begins. */
  ghost predicate NeverLate(t: Timing, readings: seq<int64>, ks: seq<int>)
    requires |ks| == |readings|
  {
    forall m :: 0 <= m < |ks| - 1 ==> readings[m + 1] < t.Beginning(ks[m] + 1)
  }

  ghost predicate Consecutive(ks: seq<int>) {
    forall m :: 0 <= m < |ks| - 1 ==> ks[m + 1] == ks[m] + 1
  }

  /** Then no slot is missed either, if and only if every loop reads the clock less than an interval after its slot began. */
  lemma SlotsConsecutive(t: Timing, instants: seq<int>, readings: seq<int64>, ks: seq<int64>)
    requires Clocked(instants, readings) && Computed(t, readings, ks) && NeverEarly(t, instants, readings)
    ensures Consecutive(ks) <==> NeverLate(t, readings, ks)
    ensures Consecutive(ks) ==> forall i :: 0 <= i < |ks| ==> ks[i] == ks[0] + i
  {
    var all: seq<int> := ks;
    forall m | 0 <= m < |ks| - 1
      ensures all[m + 1] == all[m] + 1 <==> readings[m + 1] < t.Beginning(all[m] + 1)
    {
      NextWaitedOut(t, instants, readings, ks, m);
      WakeUp(t, ks[m], readings[m + 1]);
    }
    if Consecutive(ks) {
      forall i | 0 <= i < |ks|
        ensures all[i] == all[0] + i
      {
        StepsAddUp(ks, i);
      }
    }
  }

  lemma {:induction false} StepsAddUp(ks: seq<int>, i: nat)
    requires i < |ks| && Consecutive(ks)
    ensures ks[i] == ks[0] + i
  {
    if i > 0 {
      StepsAddUp(ks, i - 1);
      assert ks[(i - 1) + 1] == ks[i - 1] + 1;
    }
  }
}
