/** to_ratio (core.c): an amount of time per period on a scale of 2^20, in the
    widths of the code, against the exact quotient. */
module Ratios {
  import opened SchedConstants

  const UNIT := 0x10_0000  // the ratio one, 1 << 20

  /** to_ratio: the shift is a u64 shift and the result an unsigned long. */
  function ToRatio(period: int, amount: int): int
    requires period > 0
  {
    if amount == RUNTIME_INF then UNIT else amount * UNIT % U64 / period % ULONG
  }

  /** The quotient on the same scale, rounded down, without any wrap. */
  function Rate(period: int, amount: int): int
    requires period > 0
  {
    amount * UNIT / period
  }

  /** What can be written: no limit, or a number of microseconds in a long. */
  predicate Writable(amount: int) {
    amount == RUNTIME_INF || 0 <= amount <= LONG_MAX * NSEC_PER_USEC
  }

  lemma Quotient(n: int, d: int)
    requires d > 0
    ensures n / d * d <= n < (n / d + 1) * d
  {
    assert n / d * d + n % d == n;
    assert (n / d + 1) * d == n / d * d + d;
  }

  lemma DivLe(a: int, b: int, c: int)
    requires 0 <= a <= b * c && b > 0
    ensures 0 <= a / b <= c
  {
    assert b * (a / b) <= b * c;
  }

  lemma DivLess(a: int, b: int, c: int)
    requires b > 0 && c >= 0 && a >= 0
    ensures a / b < c <==> a < c * b
  {
    Quotient(a, b);
    if a / b < c {
      assert (a / b + 1) * b <= c * b;
    } else {
      assert c * b <= a / b * b;
    }
  }

  /** Below 2^44 the shift does not wrap, and the ratio is the exact quotient
      exactly when the amount is below 4096 periods; otherwise it is smaller. */
  lemma RatioExactIff(period: int, amount: int)
    requires period > 0 && 0 <= amount < 0x1000_0000_0000
    ensures ToRatio(period, amount) == Rate(period, amount) % ULONG <= Rate(period, amount)
    ensures ToRatio(period, amount) == Rate(period, amount) <==> amount < 4096 * period
  {
    assert amount * UNIT % U64 == amount * UNIT;
    DivLess(amount * UNIT, period, ULONG);
    NonNegativeQuotient(amount * UNIT, period);
    WrapLess(Rate(period, amount));
  }

  lemma NonNegativeQuotient(a: int, b: int)
    requires a >= 0 && b > 0
    ensures a / b >= 0
  {
  }

  lemma WrapLess(x: int)
    requires x >= 0
    ensures x % ULONG <= x && (x % ULONG == x <==> x < ULONG)
  {
  }

  // ----- runtimes within their period -----

  /** A period and runtime that tg_rt_schedulable accepts for a group. */
  predicate Proper(period: int, runtime: int) {
    period > 0 && Writable(runtime) && (runtime <= period || runtime == RUNTIME_INF)
  }

  /** The ratio of a proper setting is its exact quotient, between 0 and one. */
  lemma ProperRatio(period: int, runtime: int)
    requires Proper(period, runtime)
    ensures 0 <= ToRatio(period, runtime) <= UNIT
    ensures runtime == 0 ==> ToRatio(period, runtime) == 0
    ensures runtime != RUNTIME_INF ==>
              ToRatio(period, runtime) * period <= runtime * UNIT < (ToRatio(period, runtime) + 1) * period
  {
    if runtime != RUNTIME_INF {
      RatioExactIff(period, runtime);
      Quotient(runtime * UNIT, period);
      DivLe(runtime * UNIT, period, UNIT);
    }
  }

  /** The part of a processor that a setting grants. */
  function Bandwidth(period: int, runtime: int): real
    requires period > 0
  {
    if runtime == RUNTIME_INF then 1.0 else runtime as real / period as real
  }

  lemma RealCancel(a: real, b: real, c: real)
    requires c > 0.0 && a * c <= b * c
    ensures a <= b
  {
    assert (b - a) * c >= 0.0;
  }

  lemma RealCancelLess(a: real, b: real, c: real)
    requires c > 0.0 && a * c < b * c
    ensures a < b
  {
    assert (b - a) * c > 0.0;
  }

  lemma CastProduct(a: int, b: int)
    ensures (a * b) as real == a as real * b as real
  {
  }

  lemma ScaledBounds(q: real, q1: real, n: real, d: real, r: real)
    requires d > 0.0 && q * d <= n * 1048576.0 < q1 * d && r * d == n
    ensures q <= r * 1048576.0 < q1
  {
    assert (r * 1048576.0) * d == n * 1048576.0;
    RealCancel(q, r * 1048576.0, d);
    RealCancelLess(r * 1048576.0, q1, d);
  }

  /** `r` is the bandwidth n / d, and q its floor on a scale of 2^20. */
  lemma RealQuotient(q: int, n: int, d: int, r: real)
    requires d > 0 && q * d <= n * UNIT < (q + 1) * d && r * d as real == n as real
    ensures q as real <= r * 1048576.0 < q as real + 1.0
  {
    CastProduct(q, d);
    CastProduct(q + 1, d);
    ScaledBounds(q as real, (q + 1) as real, n as real, d as real, r);
  }

  lemma RealTimes(n: int, d: int)
    requires d > 0
    ensures n as real / d as real * d as real == n as real
  {
  }

  /** The ratio is the bandwidth on a scale of 2^20, rounded down. */
  lemma RatioIsBandwidth(period: int, runtime: int)
    requires Proper(period, runtime)
    ensures ToRatio(period, runtime) as real <= Bandwidth(period, runtime) * 1048576.0 < ToRatio(period, runtime) as real + 1.0
  {
    if runtime != RUNTIME_INF {
      ProperRatio(period, runtime);
      RealTimes(runtime, period);
      RealQuotient(ToRatio(period, runtime), runtime, period, Bandwidth(period, runtime));
    }
  }

  // ----- amounts per period -----

  /** Amounts per period, without any rounding. */
  function PerPeriod(period: int, amount: int): real
    requires period > 0
  {
    amount as real / period as real
  }

  const QUANTUM := 1.0 / 1048576.0

  /** The quotient on the scale of 2^20 needs no rounding. */
  predicate Whole(period: int, amount: int)
    requires period > 0
  {
    amount * UNIT % period == 0
  }

  lemma RateIsFloor(period: int, amount: int)
    requires period > 0
    ensures Rate(period, amount) as real <= PerPeriod(period, amount) * 1048576.0 < Rate(period, amount) as real + 1.0
  {
    Quotient(amount * UNIT, period);
    RealTimes(amount, period);
    RealQuotient(Rate(period, amount), amount, period, PerPeriod(period, amount));
  }

  /** The rate is the amount per period exactly when nothing is rounded. */
  lemma WholeIsExact(period: int, amount: int)
    requires period > 0
    ensures Whole(period, amount) <==> Rate(period, amount) as real == PerPeriod(period, amount) * 1048576.0
  {
    var n, r, x := amount * UNIT, Rate(period, amount), PerPeriod(period, amount);
    RealTimes(amount, period);
    assert n == r * period + n % period;
    CastProduct(r, period);
    assert (x * 1048576.0) * period as real == n as real;
    SameReal(r as real, x * 1048576.0, period as real);
  }

  lemma SameReal(a: real, b: real, c: real)
    requires c > 0.0
    ensures a == b <==> a * c == b * c
  {
    assert (a - b) * c == a * c - b * c;
  }

  /** Comparing rates compares the amounts per period, up to one part in 2^20, and
      exactly where the smaller rate is not rounded. */
  lemma RatesCompare(period: int, amount: int, period': int, amount': int)
    requires period > 0 && period' > 0
    ensures Rate(period, amount) <= Rate(period', amount') ==>
              PerPeriod(period, amount) < PerPeriod(period', amount') + QUANTUM
    ensures Rate(period, amount) <= Rate(period', amount') && Whole(period, amount) ==>
              PerPeriod(period, amount) <= PerPeriod(period', amount')
    ensures PerPeriod(period, amount) <= PerPeriod(period', amount') ==>
              Rate(period, amount) <= Rate(period', amount')
  {
    RateIsFloor(period, amount);
    RateIsFloor(period', amount');
    WholeIsExact(period, amount);
  }

  // ----- limits below the limit of a parent -----

  /** The tests of tg_set_cfs_bandwidth on a limit, in microseconds. */
  predicate Settable(period: int, quota: int) {
    1000 <= period <= 1_000_000 && 1000 <= quota <= LONG_MAX
  }

  /** A limit accepted below that of a parent exceeds it by less than one part in 2^20. */
  ghost predicate SafeBelow(period: int, quota: int, parentPeriod: int, parentQuota: int)
    requires period > 0 && parentPeriod > 0
  {
    ToRatio(period, quota) <= ToRatio(parentPeriod, parentQuota) ==>
      PerPeriod(period, quota) < PerPeriod(parentPeriod, parentQuota) + QUANTUM
  }

  /** A limit below 4096 periods is safe below every parent, also below one whose
      own ratio wraps. */
  lemma ExactIsSafe(period: int, quota: int, parentPeriod: int, parentQuota: int)
    requires Settable(period, quota) && quota < 4096 * period && Settable(parentPeriod, parentQuota)
    ensures SafeBelow(period, quota, parentPeriod, parentQuota)
    ensures ToRatio(period, quota) <= ToRatio(parentPeriod, parentQuota) ==>
              Rate(period, quota) <= Rate(parentPeriod, parentQuota)
  {
    RatioExactIff(period, quota);
    RatioExactIff(parentPeriod, parentQuota);
    RatesCompare(period, quota, parentPeriod, parentQuota);
  }

  lemma MultipleGap(k: int, period: int, quota: int)
    requires quota * UNIT < k * ULONG * period
    ensures k * ULONG * period - quota * UNIT >= UNIT
  {
    assert k * ULONG * period == 4096 * (k * period) * UNIT;
  }

  /** The wrapped ratio of a limit misses the highest value. */
  lemma WrappedBelowTop(period: int, quota: int)
    requires Settable(period, quota) && quota >= 4096 * period
    ensures Rate(period, quota) >= ULONG && ToRatio(period, quota) <= ULONG - 2
  {
    RatioExactIff(period, quota);
    DivLess(quota * UNIT, period, ULONG);
    var f := Rate(period, quota);
    Quotient(quota * UNIT, period);
    TopGap(f, f / ULONG + 1, period, quota);
  }

  lemma TopGap(f: int, k: int, period: int, quota: int)
    requires 0 < period <= 1_000_000 && f < k * ULONG
    requires f * period <= quota * UNIT < (f + 1) * period
    ensures k * ULONG - f >= 2
  {
    var gap := k * ULONG - f - 1;
    assert gap * period >= 0;
    assert k * ULONG * period == gap * period + (f + 1) * period;
    MultipleGap(k, period, quota);
    assert (f + 1) * period == f * period + period;
    assert gap * period > 0;
  }

  lemma TopParent()
    ensures Settable(524288, LONG_MAX)
    ensures ToRatio(524288, LONG_MAX) == Rate(524288, LONG_MAX) == ULONG - 2
  {
  }

  lemma UnsafeParent(period: int, quota: int)
    requires Settable(period, quota) && quota >= 4096 * period
    ensures Settable(524288, LONG_MAX) && !SafeBelow(period, quota, 524288, LONG_MAX)
  {
    TopParent();
    WrappedBelowTop(period, quota);
    RateIsFloor(period, quota);
    RateIsFloor(524288, LONG_MAX);
    assert PerPeriod(524288, LONG_MAX) * 1048576.0 == (ULONG - 2) as real;
  }

  /** A limit is safe below every settable parent exactly when it is below 4096
      periods: above, a parent of less than 4096 periods accepts it. */
  lemma SafeIff(period: int, quota: int)
    requires Settable(period, quota)
    ensures (forall p, q :: Settable(p, q) ==> SafeBelow(period, quota, p, q)) <==> quota < 4096 * period
  {
    if quota < 4096 * period {
      forall p, q | Settable(p, q) ensures SafeBelow(period, quota, p, q) {
        ExactIsSafe(period, quota, p, q);
      }
    } else {
      UnsafeParent(period, quota);
    }
  }

  /** A limit accepted below that of a parent does not exceed it at all. */
  ghost predicate ExactlySafeBelow(period: int, quota: int, parentPeriod: int, parentQuota: int)
    requires period > 0 && parentPeriod > 0
  {
    ToRatio(period, quota) <= ToRatio(parentPeriod, parentQuota) ==>
      PerPeriod(period, quota) <= PerPeriod(parentPeriod, parentQuota)
  }

  ghost predicate Comparable(period: int, quota: int) {
    period > 0 && 0 <= quota < 0x1000_0000_0000
  }

  /** Below 4096 periods only rounding lets a limit exceed a parent: it never does,
      whatever the parent, exactly when its own rate is not rounded. */
  lemma ExactlySafeIff(period: int, quota: int)
    requires Settable(period, quota) && quota < 4096 * period
    ensures (forall p, q :: Comparable(p, q) ==> ExactlySafeBelow(period, quota, p, q)) <==> Whole(period, quota)
  {
    RatioExactIff(period, quota);
    if Whole(period, quota) {
      forall p, q | Comparable(p, q) ensures ExactlySafeBelow(period, quota, p, q) {
        RatioExactIff(p, q);
        RatesCompare(period, quota, p, q);
      }
    } else {
      RoundedDownParent(period, quota);
    }
  }

  /** A parent limited to the rounded rate accepts the limit. */
  lemma RoundedDownParent(period: int, quota: int)
    requires Settable(period, quota) && quota < 4096 * period && !Whole(period, quota)
    ensures Comparable(UNIT, Rate(period, quota)) && !ExactlySafeBelow(period, quota, UNIT, Rate(period, quota))
  {
    var r := Rate(period, quota);
    RatioExactIff(period, quota);
    assert 0 <= r < ULONG;
    RatioExactIff(UNIT, r);
    assert Rate(UNIT, r) == r;
    RateIsFloor(period, quota);
    WholeIsExact(period, quota);
    assert PerPeriod(UNIT, r) * 1048576.0 == r as real;
  }
}
