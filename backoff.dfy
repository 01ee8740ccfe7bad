/**
 * The polling interval policy of PollingHandler: a default (and minimum)
 * interval of 15 seconds, a ceiling of 15 minutes, and growth by a factor
 * of 1.25 after every check that observed nothing. Intervals are exact
 * reals in milliseconds.
 */
module Backoff {

  const DefaultPollingInterval: real := 15.0 * 1000.0
  const MaxPollingInterval: real := 15.0 * 60.0 * 1000.0
  /** The growth factor 1.25, that is 5/4. */
  const Growth: real := 1.25

  /** An interval the handler may hold: inside [DefaultPollingInterval, MaxPollingInterval]. */
  predicate InRange(interval: real) {
    DefaultPollingInterval <= interval <= MaxPollingInterval
  }

  function Min(a: real, b: real): real { if a <= b then a else b }
  function Max(a: real, b: real): real { if a >= b then a else b }

  /**
   * Reference definition of one back-off step: grow by 1.25, then clamp to
   * the range. Whatever the previous interval, the result is in range.
   */
  function BackedOff(interval: real): (r: real)
    ensures InRange(r)
  {
    Min(Max(interval * Growth, DefaultPollingInterval), MaxPollingInterval)
  }

  /** Below the ceiling's reach, a back-off step is exactly growth by 1.25, a strict increase. */
  lemma BackedOffGrows(interval: real)
    requires DefaultPollingInterval <= interval
    requires interval * Growth <= MaxPollingInterval
    ensures BackedOff(interval) == interval * Growth
    ensures BackedOff(interval) > interval
  {
  }

  /** Back-off is monotone in the previous interval. */
  lemma BackedOffMonotone(a: real, b: real)
    requires a <= b
    ensures BackedOff(a) <= BackedOff(b)
  {
    assert a * Growth <= b * Growth;
  }

  /** Once the growth would pass the ceiling the interval is exactly the ceiling; the ceiling is a fixed point. */
  lemma BackedOffSaturates(interval: real)
    requires interval * Growth >= MaxPollingInterval
    ensures BackedOff(interval) == MaxPollingInterval
  {
  }

  function Pow(b: real, n: nat): real {
    if n == 0 then 1.0 else b * Pow(b, n - 1)
  }

  /** The interval after `n` consecutive checks that observed nothing, starting from `interval`. */
  function IdleInterval(interval: real, n: nat): (r: real)
    ensures n > 0 ==> InRange(r)
  {
    if n == 0 then interval else BackedOff(IdleInterval(interval, n - 1))
  }

  lemma {:induction false} PowAtLeastOne(n: nat)
    ensures Pow(Growth, n) >= 1.0
  {
    if n > 0 {
      PowAtLeastOne(n - 1);
      assert Growth * Pow(Growth, n - 1) >= Pow(Growth, n - 1);
    }
  }

  lemma {:induction false} PowAdd(b: real, m: nat, n: nat)
    ensures Pow(b, m + n) == Pow(b, m) * Pow(b, n)
  {
    if m > 0 {
      PowAdd(b, m - 1, n);
    }
  }

  lemma {:induction false} PowMonotone(m: nat, n: nat)
    requires m <= n
    ensures Pow(Growth, m) <= Pow(Growth, n)
  {
    PowAdd(Growth, m, n - m);
    PowAtLeastOne(n - m);
    PowAtLeastOne(m);
    assert Pow(Growth, m) * Pow(Growth, n - m) >= Pow(Growth, m) * 1.0;
  }

  /**
   * Starting from the default, `n` idle checks give
   * min(15000 * 1.25^n, 900000): geometric growth capped by the ceiling.
   */
  lemma {:induction false} IdleIntervalClosedForm(n: nat)
    ensures IdleInterval(DefaultPollingInterval, n)
         == Min(DefaultPollingInterval * Pow(Growth, n), MaxPollingInterval)
  {
    if n > 0 {
      IdleIntervalClosedForm(n - 1);
      PowAtLeastOne(n - 1);
      var p := Pow(Growth, n - 1);
      assert Pow(Growth, n) == Growth * p;
      assert DefaultPollingInterval * Pow(Growth, n) == (DefaultPollingInterval * p) * Growth;
      assert DefaultPollingInterval * p >= DefaultPollingInterval;
    }
  }

  lemma PowAtSaturation()
    ensures DefaultPollingInterval * Pow(Growth, 18) < MaxPollingInterval
    ensures DefaultPollingInterval * Pow(Growth, 19) >= MaxPollingInterval
  {
    assert Pow(Growth, 1) == 1.25;
    assert Pow(Growth, 2) == 1.5625;
    PowAdd(Growth, 2, 2);
    PowAdd(Growth, 4, 4);
    PowAdd(Growth, 8, 8);
    PowAdd(Growth, 16, 2);
    PowAdd(Growth, 18, 1);
  }

  /**
   * From the default interval, idle checks reach the ceiling after exactly
   * 19 of them: earlier intervals are below 900000 ms, and from the 19th
   * on the interval is exactly 900000 ms and stays there.
   */
  lemma IdleIntervalSaturation(n: nat)
    ensures IdleInterval(DefaultPollingInterval, n) == MaxPollingInterval <==> n >= 19
  {
    IdleIntervalClosedForm(n);
    PowAtSaturation();
    if n >= 19 {
      PowMonotone(19, n);
    } else {
      PowMonotone(n, 18);
    }
  }

  /** The first two idle checks lengthen the interval to 18750 ms and then 23437.5 ms. */
  lemma FirstIdleIntervals()
    ensures IdleInterval(DefaultPollingInterval, 1) == 18750.0
    ensures IdleInterval(DefaultPollingInterval, 2) == 23437.5
  {
  }
}
