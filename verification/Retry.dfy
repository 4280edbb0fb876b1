/** The scan retry schedule: server/types/database.go. Durations are int64 nanoseconds. */
module Retry {
  import opened Basics

  const HOUR := 3600 * 1_000_000_000
  const TWO_62 := 0x4000_0000_0000_0000
  const TWO_64 := 0x1_0000_0000_0000_0000

  newtype Duration = d: int | -MAX_INT64 - 1 <= d <= MAX_INT64

  datatype Schedule = Schedule(freshFor: Duration, retryBase: Duration, retryMax: Duration) {
    function WithDefaults(): (s: Schedule)
      ensures s.freshFor == if freshFor > 0 then freshFor else 604_800_000_000_000  // 7 days
      ensures s.retryBase == if retryBase > 0 then retryBase else 3_600_000_000_000  // 1 hour
      ensures s.retryMax == if retryMax > 0 then retryMax else 86_400_000_000_000  // 24 hours
    {
      Schedule(if freshFor <= 0 then 7 * 24 * HOUR as Duration else freshFor,
               if retryBase <= 0 then HOUR as Duration else retryBase,
               if retryMax <= 0 then 24 * HOUR as Duration else retryMax)
    }
  }

  /** delay *= 2 on int64: two's complement wrap-around. */
  function Double(d: int): int {
    var twice := 2 * d;
    if twice > MAX_INT64 then twice - TWO_64 else if twice < -MAX_INT64 - 1 then twice + TWO_64 else twice
  }

  function Min(a: int, b: int): int { if a < b then a else b }

  function Pow2(n: nat): nat { if n == 0 then 1 else 2 * Pow2(n - 1) }

  /** The delay after this many passes of the loop, which stops at the cap. */
  function Loop(base: int, max: int, passes: nat): int {
    if passes == 0 then base
    else
      var d := Loop(base, max, passes - 1);
      if d >= max then d else Double(d)
  }

  function Delay(base: int, max: int, failures: nat): int
    requires failures >= 1
  {
    Min(Loop(base, max, failures - 1), max)
  }

  /** NextAttempt as the code runs it. */
  method NextAttempt(s: Schedule, now: int, consecutiveFailures: int) returns (at: int)
    ensures var d := s.WithDefaults();
      at == now + if consecutiveFailures <= 0 then d.freshFor as int
                  else Delay(d.retryBase as int, d.retryMax as int, consecutiveFailures)
  {
    var d := s.WithDefaults();
    if consecutiveFailures <= 0 { return now + d.freshFor as int; }
    var delay, max := d.retryBase as int, d.retryMax as int;
    var i := 0;
    while i < consecutiveFailures - 1
      invariant 0 <= i <= consecutiveFailures - 1
      invariant delay == Loop(d.retryBase as int, max, i)
    {
      if delay >= max {
        LoopStays(d.retryBase as int, max, i, consecutiveFailures - 1);
        break;
      }
      delay := Double(delay);
      i := i + 1;
    }
    at := now + Min(delay, max);
  }

  lemma {:induction false} LoopStays(base: int, max: int, i: nat, n: nat)
    requires i <= n && Loop(base, max, i) >= max
    ensures Loop(base, max, n) == Loop(base, max, i)
  {
    if i < n { LoopStays(base, max, i, n - 1); }
  }

  lemma {:induction false} TwiceIsPower(base: int, n: nat)
    requires n >= 1
    ensures base * Pow2(n) == 2 * (base * Pow2(n - 1))
  {
    assert Pow2(n) == 2 * Pow2(n - 1);
  }

  /** No doubling below the cap leaves the int64 range. */
  ghost predicate NoWrap(base: int, max: int) {
    forall k: nat :: !(TWO_62 <= base * Pow2(k) < max)
  }

  /** Then the doubling reaches the cap before it overflows. */
  lemma {:induction false} LoopIsCappedPower(base: int, max: int, passes: nat)
    requires 0 < base <= MAX_INT64 && 0 < max <= MAX_INT64 && NoWrap(base, max)
    ensures var d, exact := Loop(base, max, passes), base * Pow2(passes);
      0 < d <= MAX_INT64 && (d == exact || max <= d <= exact)
  {
    if passes > 0 {
      LoopIsCappedPower(base, max, passes - 1);
      TwiceIsPower(base, passes);
      NoOverflow(Loop(base, max, passes - 1), base * Pow2(passes - 1), max);
    }
  }

  lemma NoOverflow(d: int, exact: int, max: int)
    requires 0 < d <= MAX_INT64 && !(TWO_62 <= exact < max) && (d == exact || max <= d <= exact)
    ensures var next := if d >= max then d else Double(d);
      0 < next <= MAX_INT64 && (next == 2 * exact || max <= next <= 2 * exact)
  {
  }

  ghost predicate CappedPower(base: int, max: int) {
    forall n: nat | n >= 1 :: Delay(base, max, n) == Min(base * Pow2(n - 1), max)
  }

  /** One schedule: its delay is min(RetryBase * 2^(n-1), RetryMax) for every failure count n iff
      no power of two of the base lies from 2^62 up to the cap. */
  lemma DelayIsCappedPower(base: int, max: int)
    requires 0 < base <= MAX_INT64 && 0 < max <= MAX_INT64
    ensures CappedPower(base, max) <==> NoWrap(base, max)
  {
    if NoWrap(base, max) {
      forall n: nat | n >= 1 ensures Delay(base, max, n) == Min(base * Pow2(n - 1), max) {
        LoopIsCappedPower(base, max, n - 1);
      }
    } else {
      var k: nat :| TWO_62 <= base * Pow2(k) < max;
      if CappedPower(base, max) {
        assert Delay(base, max, k + 1) == Min(base * Pow2(k), max);
        assert Delay(base, max, k + 2) == Min(base * Pow2(k + 1), max);
        WrapsAt(base, max, k);
      }
    }
  }

  lemma WrapsAt(base: int, max: int, k: nat)
    requires TWO_62 <= base * Pow2(k) < max <= MAX_INT64 && Delay(base, max, k + 1) == base * Pow2(k)
    ensures Delay(base, max, k + 2) < 0 < base * Pow2(k + 1)
  {
    TwiceIsPower(base, k + 1);
    assert Loop(base, max, k) == base * Pow2(k);
    assert Loop(base, max, k + 1) == Double(base * Pow2(k));
  }

  /** All schedules with one cap: iff the cap is at most 2^62. */
  lemma EveryBaseIsCappedPower(max: int)
    requires 0 < max <= MAX_INT64
    ensures (forall base | 0 < base <= MAX_INT64 :: CappedPower(base, max)) <==> max <= TWO_62
  {
    forall base | 0 < base <= MAX_INT64 ensures CappedPower(base, max) <==> NoWrap(base, max) {
      DelayIsCappedPower(base, max);
    }
    if max > TWO_62 {
      assert Pow2(0) == 1;
      assert !NoWrap(TWO_62, max);
    }
  }

  /** Above 2^62, a base of 2^62 overflows on the second failure and schedules into the past. */
  lemma OverflowSchedulesInThePast(max: int)
    requires TWO_62 < max <= MAX_INT64
    ensures Delay(TWO_62, max, 2) < 0
  {
    assert Loop(TWO_62, max, 0) == TWO_62;
    assert Loop(TWO_62, max, 1) == Double(TWO_62);
  }

  /** Short of that, delays are positive, never above the cap, and never shrink with more failures. */
  lemma DelaysGrow(base: int, max: int, n: nat, more: nat)
    requires 0 < base <= MAX_INT64 && 0 < max <= MAX_INT64 && NoWrap(base, max) && 1 <= n <= more
    ensures 0 < Delay(base, max, n) <= Delay(base, max, more) <= max
  {
    LoopIsCappedPower(base, max, n - 1);
    LoopIsCappedPower(base, max, more - 1);
    PowGrows(base, n - 1, more - 1);
  }

  lemma {:induction false} PowGrows(base: int, n: nat, more: nat)
    requires 0 < base && n <= more
    ensures 0 < base * Pow2(n) <= base * Pow2(more)
  {
    if n < more {
      PowGrows(base, n, more - 1);
      TwiceIsPower(base, more);
    } else {
      PowPositive(n);
    }
  }

  lemma {:induction false} PowPositive(n: nat)
    ensures Pow2(n) > 0
  {
    if n > 0 { PowPositive(n - 1); }
  }
}
