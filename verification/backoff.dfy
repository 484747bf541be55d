/** The supervisor's exponential backoff, with its 32-bit truncation, the cap and
    the overflow of duration arithmetic. Durations are nanoseconds. */
module Backoff {
  import opened Basics

  const SECOND: nat := 1_000_000_000
  const CAP: nat := 30 * SECOND
  const U32: nat := 0x1_0000_0000
  const U64: nat := 0x1_0000_0000_0000_0000

  /** The largest representable duration: a 64-bit number of seconds. */
  const DURATION_MAX: nat := (U64 - 1) * SECOND + (SECOND - 1)

  function Pow2(n: nat): (p: nat)
    ensures p >= 1
  {
    if n == 0 then 1 else 2 * Pow2(n - 1)
  }

  /** base doubled n times */
  function Scaled(base: nat, n: nat): nat {
    base * Pow2(n)
  }

  function Min(a: nat, b: nat): nat {
    if a <= b then a else b
  }

  function Pred(n: nat): nat {
    if n == 0 then 0 else n - 1
  }

  /** The shift the code computes: the count is cast to 32 bits first. */
  function Shift(n: nat): nat {
    Min(Pred(n % U32), 30)
  }

  /** The delay the code computes for a count, if nothing overflows. */
  function Computed(base: nat, n: nat): nat {
    Min(Scaled(base, Shift(n)), CAP)
  }

  /** `backoff_delay`: multiplying a duration panics on overflow. */
  function BackoffDelay(base: nat, n: nat): Outcome<nat> {
    if Scaled(base, Shift(n)) > DURATION_MAX then Panic else Ok(Computed(base, n))
  }

  /** The documented backoff: doubles with every restart (30 times at most) and is
      capped at 30 seconds. */
  function Documented(base: nat, n: nat): nat {
    Min(CAP, Scaled(base, Min(Pred(n), 30)))
  }

  lemma ScaledDoubles(base: nat, n: nat)
    ensures Scaled(base, n + 1) == 2 * Scaled(base, n)
  {
    assert base * (2 * Pow2(n)) == 2 * (base * Pow2(n));
  }

  lemma {:induction false} ScaledMonotone(base: nat, m: nat, n: nat)
    requires m <= n
    ensures Scaled(base, m) <= Scaled(base, n)
    ensures m < n && base > 0 ==> Scaled(base, m) < Scaled(base, n)
  {
    if m < n {
      ScaledMonotone(base, m, n - 1);
      ScaledDoubles(base, n - 1);
      ScaledAtLeast(base, n - 1);
    }
  }

  lemma {:induction false} ScaledAtLeast(base: nat, n: nat)
    ensures Scaled(base, n) >= base
  {
    if n > 0 {
      ScaledAtLeast(base, n - 1);
      ScaledDoubles(base, n - 1);
    }
  }

  lemma Pow2Of30()
    ensures Pow2(30) == 0x4000_0000
  {
    assert Pow2(10) == 1024;
    assert Pow2(20) == 1024 * 1024;
  }

  lemma DocumentedMonotone(base: nat, m: nat, n: nat)
    requires m <= n
    ensures Documented(base, m) <= Documented(base, n)
  {
    ScaledMonotone(base, Min(Pred(m), 30), Min(Pred(n), 30));
  }

  lemma UntruncatedShift(n: nat)
    requires n < U32
    ensures Shift(n) == Min(Pred(n), 30)
  {
    assert n % U32 == n;
  }

  /** Up to 2^32 - 1 the delay is the documented one whenever it does not panic. */
  lemma DelayAsDocumented(base: nat, n: nat)
    requires n < U32 && BackoffDelay(base, n).Ok?
    ensures BackoffDelay(base, n) == Ok(Documented(base, n))
  {
    UntruncatedShift(n);
    hide Shift, Scaled;
  }

  /** Beyond, the cast starts the backoff over. */
  lemma DelayRepeats(base: nat, n: nat)
    ensures BackoffDelay(base, n + U32) == BackoffDelay(base, n)
  {
    assert (n + U32) % U32 == n % U32;
  }

  /** The documented delays of the default base of 100 ms, in milliseconds: they
      double from the first to the ninth and are 30 s from the tenth on. */
  lemma DefaultDelays(n: nat)
    requires 1 <= n
    ensures Documented(100_000_000, n) / 1_000_000
         == if n <= 9 then [100, 200, 400, 800, 1_600, 3_200, 6_400, 12_800, 25_600][n - 1] else 30_000
  {
    var base := 100_000_000;
    assert Pow2(8) == 256 && Pow2(9) == 512;
    if n >= 10 {
      ScaledMonotone(base, 9, Min(Pred(n), 30));
    } else {
      assert Pow2(n - 1) == [1, 2, 4, 8, 16, 32, 64, 128, 256][n - 1];
    }
  }

  /** There the delay is the documented one exactly when it is capped or the
      truncated shift is already maximal. */
  lemma TruncatedDelayIff(base: nat, n: nat)
    requires n >= U32
    ensures BackoffDelay(base, n).Ok? ==>
              (BackoffDelay(base, n) == Ok(Documented(base, n)) <==>
               base == 0 || n % U32 > 30 || Scaled(base, Shift(n)) >= CAP)
  {
    ScaledMonotone(base, Shift(n), 30);
    assert base == 0 ==> Scaled(base, 30) == Scaled(base, Shift(n)) == 0;
    hide Scaled;
  }

  /** A count whose delay does not panic leaves the smaller counts' delays alone. */
  lemma SmallerDelay(base: nat, m: nat, n: nat)
    requires m <= n < U32 && BackoffDelay(base, n).Ok?
    ensures BackoffDelay(base, m).Ok?
  {
    UntruncatedShift(m);
    UntruncatedShift(n);
    hide Shift, Scaled;
    ScaledMonotone(base, Shift(m), Shift(n));
  }

  /** The delay never panics, for any count, exactly when the largest multiple of
      the base still is a duration; 2^34 seconds is the threshold in seconds. */
  lemma NoOverflowIff(base: nat)
    ensures (forall n: nat :: BackoffDelay(base, n).Ok?) <==> Scaled(base, 30) <= DURATION_MAX
    ensures Scaled(base, 30) <= DURATION_MAX <==> base < 0x4_0000_0000 * SECOND
  {
    forall n: nat ensures Scaled(base, Shift(n)) <= Scaled(base, 30) {
      ScaledMonotone(base, Shift(n), 30);
    }
    assert Shift(31) == 30;
    assert BackoffDelay(base, 31).Ok? <==> Scaled(base, 30) <= DURATION_MAX;
    Pow2Of30();
  }

  /** The least time from a child's first to its k-th restart. */
  function DelaySum(base: nat, k: nat): nat {
    if k <= 1 then 0 else DelaySum(base, k - 1) + Documented(base, k)
  }

  /** In closed form, while neither the cap nor the largest shift is reached. */
  lemma {:induction false} DelaySumClosed(base: nat, k: nat)
    requires 1 <= k <= 31 && Scaled(base, k - 1) <= CAP
    ensures DelaySum(base, k) == Scaled(base, k) - 2 * base
  {
    ScaledDoubles(base, k - 1);
    if k == 1 {
      assert Scaled(base, 0) == base;
    } else {
      ScaledMonotone(base, k - 2, k - 1);
      hide Scaled;
      DelaySumClosed(base, k - 1);
    }
  }

  /** The closed form, exactly: a larger k or a capped delay makes it overstate the
      sum, for every base but zero. */
  lemma {:induction false} DelaySumClosedIff(base: nat, k: nat)
    requires k >= 2
    ensures DelaySum(base, k) <= Scaled(base, k) - 2 * base
    ensures DelaySum(base, k) == Scaled(base, k) - 2 * base <==>
              base == 0 || (k <= 31 && Scaled(base, k - 1) <= CAP)
  {
    ScaledDoubles(base, k - 1);
    ScaledMonotone(base, Min(k - 1, 30), k - 1);
    if k <= 31 && Scaled(base, k - 1) <= CAP {
      DelaySumClosed(base, k);
    } else {
      ScaledAtLeast(base, k - 1);
      ScaledMonotone(base, k - 2, k - 1);
      assert Scaled(base, 0) == base;
      ScaledDoubles(base, 0);
      assert base == 0 ==> Scaled(base, k - 1) == 0;
      hide Scaled;
      if k > 2 {
        DelaySumClosedIff(base, k - 1);
      } else {
        assert DelaySum(base, 1) == 0;
      }
    }
  }
}
