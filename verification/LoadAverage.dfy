/** The fixed-point arithmetic of the global load average (core.c).  An unsigned
    long has `w` values: sums and products wrap at `w`. */
module LoadAverage {

  const FSHIFT: nat := 11
  const FIXED_1: nat := 2048  // 1 << FSHIFT

  // ----- unsigned long arithmetic -----

  /** The value an unsigned long keeps of `x`. */
  function Wrap(x: nat, w: nat): nat
    requires w >= 1
  {
    if x < w then x else Wrap(x - w, w)
  }

  lemma {:induction false} WrapIsModulo(x: nat, w: nat)
    requires w >= 1
    ensures Wrap(x, w) == x % w
  {
    if x >= w {
      WrapIsModulo(x - w, w);
      SubtractDivisor(x, w);
    }
  }

  lemma SubtractDivisor(x: nat, w: nat)
    requires x >= w >= 1
    ensures (x - w) % w == x % w
  {
    var q, r := x / w, x % w;
    assert x == q * w + r;
    assert x - w == (q - 1) * w + r;
    var q', r' := (x - w) / w, (x - w) % w;
    assert x - w == q' * w + r';
    assert (q - 1 - q') * w == r' - r;
    Between(q - 1 - q', w, r' - r);
  }

  lemma Between(k: int, w: int, d: int)
    requires k * w == d && -w < d < w
    ensures d == 0
  {
    if k >= 1 {
      MulLe(1, k, w);
    } else if k <= -1 {
      MulLe(k, -1, w);
    }
  }

  lemma MulLe(a: int, b: int, c: int)
    requires a <= b && c >= 0
    ensures a * c <= b * c
  {
  }

  lemma {:induction false} WrapTwice(x: nat, y: nat, w: nat)
    requires w >= 1
    ensures Wrap(Wrap(x, w) + y, w) == Wrap(x + y, w)
  {
    if x >= w {
      WrapTwice(x - w, y, w);
    }
  }

  /** 1UL << n. */
  function Pow2(n: nat): (p: nat)
    ensures p >= 1
  {
    if n == 0 then 1 else 2 * Pow2(n - 1)
  }

  /** x >> f. */
  function Shift(x: nat, f: nat): nat {
    if f == 0 then x else Shift(x / 2, f - 1)
  }

  lemma {:induction false} ShiftFloors(x: nat, f: nat)
    ensures Shift(x, f) * Pow2(f) <= x < Shift(x, f) * Pow2(f) + Pow2(f)
  {
    if f > 0 {
      ShiftFloors(x / 2, f - 1);
      HalfFloors(x, Shift(x / 2, f - 1), Pow2(f - 1));
    }
  }

  lemma HalfFloors(x: nat, q: nat, p: nat)
    requires q * p <= x / 2 < q * p + p
    ensures q * (2 * p) <= x < q * (2 * p) + 2 * p
  {
    assert q * (2 * p) == 2 * (q * p);
  }

  lemma FixedOne()
    ensures Pow2(FSHIFT) == FIXED_1 && Pow2(FSHIFT - 1) == FIXED_1 / 2
  {
    assert Pow2(5) == 32;
    assert Pow2(10) == 1024;
  }

  lemma QuotientBelow(q: nat, d: nat, n: nat, bound: nat)
    requires q * d <= n < bound * d + d
    ensures q <= bound
  {
    if q > bound {
      MulLe(bound + 1, q, d);
    }
  }

  lemma QuotientAbove(q: nat, d: nat, n: nat, bound: nat)
    requires bound * d <= n < q * d + d
    ensures bound <= q
  {
    if bound > q {
      MulLe(q + 1, bound, d);
    }
  }

  // ----- rounded products -----

  /** A product of two numbers with `f` fractional bits, rounded to the nearest. */
  function MulRound(a: nat, b: nat, f: nat, w: nat): nat
    requires f >= 1 && w >= 1
  {
    Shift(Wrap(a * b + Pow2(f - 1), w), f)
  }

  /** The largest product of two numbers up to 2^f fits, and so does its rounding. */
  ghost predicate Roomy(f: nat, w: nat)
    requires f >= 1
  {
    Pow2(2 * f) + Pow2(f - 1) < w
  }

  lemma {:induction false} Pow2Add(m: nat, n: nat)
    ensures Pow2(m + n) == Pow2(m) * Pow2(n)
  {
    if m > 0 {
      Pow2Add(m - 1, n);
      assert 2 * (Pow2(m - 1) * Pow2(n)) == 2 * Pow2(m - 1) * Pow2(n);
    }
  }

  lemma MulRoundFits(a: nat, b: nat, f: nat, w: nat)
    requires f >= 1 && a <= Pow2(f) && b <= Pow2(f) && Roomy(f, w)
    ensures a * b <= Pow2(2 * f)
    ensures a * b - Pow2(f - 1) <= MulRound(a, b, f, w) * Pow2(f) <= a * b + Pow2(f - 1)
    ensures MulRound(a, b, f, w) <= Pow2(f)
    ensures a == Pow2(f) ==> MulRound(a, b, f, w) == b
  {
    var one, v := Pow2(f), a * b + Pow2(f - 1);
    MulLe(a, one, b);
    MulLe(b, one, one);
    Pow2Add(f, f);
    ShiftFloors(v, f);
    QuotientBelow(Shift(v, f), one, v, one);
    if a == one {
      assert b * one == one * b;
      QuotientBelow(Shift(v, f), one, v, b);
      QuotientAbove(Shift(v, f), one, v, b);
    }
  }

  // ----- powers -----

  /** c times the n-th power of u. */
  function Scaled(c: real, u: real, n: nat): real {
    if n == 0 then c else u * Scaled(c, u, n - 1)
  }

  lemma {:induction false} ScaledPositive(c: real, u: real, n: nat)
    requires c >= 0.0 && 0.0 <= u
    ensures 0.0 <= Scaled(c, u, n)
  {
    if n > 0 {
      ScaledPositive(c, u, n - 1);
      NonNegative(u, Scaled(c, u, n - 1));
    }
  }

  lemma {:induction false} ScaledUnit(c: real, u: real, n: nat)
    requires c >= 0.0 && 0.0 <= u <= 1.0
    ensures Scaled(c, u, n) <= c
  {
    if n > 0 {
      ScaledUnit(c, u, n - 1);
      ScaledPositive(c, u, n - 1);
      Shrink(Scaled(c, u, n - 1), u);
    }
  }

  lemma Shrink(p: real, u: real)
    requires p >= 0.0 && 0.0 <= u <= 1.0
    ensures u * p <= p
  {
    NonNegative(1.0 - u, p);
    assert (1.0 - u) * p == p - u * p;
  }

  lemma NonNegative(a: real, b: real)
    requires a >= 0.0 && b >= 0.0
    ensures a * b >= 0.0
  {
  }

  lemma Associate(a: real, b: real, c: real)
    ensures a * b * c == a * (b * c)
  {
  }

  /** Multiplying by at most `m` multiplies an error by at most `m`. */
  lemma Scale(d: real, s: real, e: real, m: real)
    requires -e <= d <= e && 0.0 <= s <= m
    ensures -(e * m) <= d * s <= e * m
  {
    NonNegative(e - d, s);
    NonNegative(e + d, s);
    NonNegative(e, m - s);
    assert (e - d) * s == e * s - d * s;
    assert (e + d) * s == e * s + d * s;
    assert e * (m - s) == e * m - e * s;
  }

  lemma {:induction false} ScaledProduct(b: real, c: real, u: real, m: nat, n: nat)
    ensures Scaled(b, u, m) * Scaled(c, u, n) == Scaled(c, u, m + n) * b
  {
    if m > 0 {
      ScaledProduct(b, c, u, m - 1, n);
      Associate(u, Scaled(b, u, m - 1), Scaled(c, u, n));
      Associate(u, b, Scaled(c, u, m - 1 + n));
      Associate(b, u, Scaled(c, u, m - 1 + n));
    }
  }

  ghost predicate Close(a: real, b: real, e: real) {
    -e <= a - b <= e
  }

  lemma Cancel(a: real, b: real, c: real)
    requires c > 0.0 && a * c <= b * c
    ensures a <= b
  {
    assert (b - a) * c >= 0.0;
  }

  /** The loop of fixed_power_int from a given state. */
  function PowerLoop(result: nat, x: nat, n: nat, f: nat, w: nat): nat
    requires f >= 1 && w >= 1
    decreases n
  {
    if n == 0 then result else
      var r := if n % 2 == 1 then MulRound(result, x, f, w) else result;
      if n / 2 == 0 then r else PowerLoop(r, MulRound(x, x, f, w), n / 2, f, w)
  }

  function FixedPower(x: nat, n: nat, f: nat, w: nat): nat
    requires f >= 1 && w >= 1
  {
    PowerLoop(Pow2(f), x, n, f, w)
  }

  /** fixed_power_int: n-th power by squaring. */
  method FixedPowerInt(x0: nat, fracBits: nat, n0: nat, w: nat) returns (result: nat)
    requires fracBits >= 1 && w >= 1
    ensures result == FixedPower(x0, n0, fracBits, w)
  {
    result := Pow2(fracBits);
    var x: nat, n: nat := x0, n0;
    if n != 0 {
      while true
        invariant n != 0 && PowerLoop(result, x, n, fracBits, w) == FixedPower(x0, n0, fracBits, w)
        decreases n
      {
        if n % 2 == 1 {
          WrapTwice(result * x, Pow2(fracBits - 1), w);
          result := Wrap(result * x, w);
          result := Wrap(result + Pow2(fracBits - 1), w);
          result := Shift(result, fracBits);
        }
        n := n / 2;
        if n == 0 {
          break;
        }
        WrapTwice(x * x, Pow2(fracBits - 1), w);
        x := Wrap(x * x, w);
        x := Wrap(x + Pow2(fracBits - 1), w);
        x := Shift(x, fracBits);
      }
    }
  }

  /** at(n) is the n-th power of a number between 0 and 1, in units of one part in `one`. */
  datatype Table = Table(at: nat -> real, one: real)

  ghost predicate IsPowers(t: Table) {
    && t.at(0) == t.one
    && (forall n: nat :: 0.0 <= t.at(n) <= t.one)
    && (forall m: nat, n: nat {:trigger Together(m, n)} :: Together(m, n) ==> t.at(m) * t.at(n) == t.at(m + n) * t.one)
  }

  ghost predicate Together(m: nat, n: nat) { true }

  type Powers = t: Table | IsPowers(t) ghost witness Table((n: nat) => 0.0, 0.0)

  ghost predicate TableOf(t: Table, u: real) {
    t.one >= 0.0 && 0.0 <= u <= 1.0 && forall n: nat :: t.at(n) == Scaled(t.one, u, n)
  }

  lemma TableUnit(t: Table, u: real, n: nat)
    requires TableOf(t, u)
    ensures 0.0 <= t.at(n) <= t.one
  {
    ScaledPositive(t.one, u, n);
    ScaledUnit(t.one, u, n);
  }

  lemma TableProduct(t: Table, u: real, m: nat, n: nat)
    requires TableOf(t, u)
    ensures t.at(m) * t.at(n) == t.at(m + n) * t.one
  {
    ScaledProduct(t.one, t.one, u, m, n);
  }

  lemma TableIsPowers(t: Table, u: real)
    requires TableOf(t, u)
    ensures IsPowers(t)
  {
    forall n: nat ensures 0.0 <= t.at(n) <= t.one {
      TableUnit(t, u, n);
    }
    forall m: nat, n: nat ensures t.at(m) * t.at(n) == t.at(m + n) * t.one {
      TableProduct(t, u, m, n);
    }
  }

  lemma PowersOf(one: real, u: real) returns (s: Powers)
    requires one >= 0.0 && 0.0 <= u <= 1.0
    ensures s.one == one && TableOf(s, u)
  {
    var t := Table((n: nat) => Scaled(one, u, n), one);
    TableIsPowers(t, u);
    s := t;
  }

  /** The units an n-th power may err by: a half for each product after the first. */
  ghost function Err(n: nat): real {
    if n <= 1 then 0.0 else Err(n - 1) + 0.5
  }

  lemma {:induction false} ErrAdd(a: nat, b: nat)
    requires a >= 1 && b >= 1
    ensures Err(a + b) == Err(a) + Err(b) + 0.5
  {
    if b > 1 {
      ErrAdd(a, b - 1);
    }
  }

  lemma {:induction false} ErrIs(n: nat)
    requires n >= 1
    ensures Err(n) == (n - 1) as real / 2.0
  {
    if n > 1 {
      ErrIs(n - 1);
    }
  }

  /** `v` approximates s.at(a). */
  ghost predicate Approx(v: nat, s: Powers, a: nat, one: nat) {
    v <= one && Close(v as real, s.at(a), Err(a))
  }

  lemma ProductGap(v: real, x: real, o: real, p: real, q: real, ev: real, ex: real)
    requires 0.0 <= x <= o && 0.0 <= p <= o && Close(v, p, ev) && Close(x, q, ex)
    ensures Close(v * x, p * q, (ev + ex) * o)
  {
    Scale(v - p, x, ev, o);
    Scale(x - q, p, ex, o);
    assert (v - p) * x == v * x - p * x;
    assert (x - q) * p == p * x - p * q;
    assert (ev + ex) * o == ev * o + ex * o;
  }

  lemma CancelClose(r: real, c: real, o: real, e: real)
    requires o > 0.0 && Close(r * o, c * o, e * o)
    ensures Close(r, c, e)
  {
    assert (r - c) * o == r * o - c * o;
    assert (-e) * o == -(e * o);
    Cancel(r - c, e, o);
    Cancel(-e, r - c, o);
  }

  lemma ProductReal(v: nat, x: nat, r: nat, one: nat, half: nat)
    requires v * x - half <= r * one <= v * x + half
    ensures Close(r as real * one as real, v as real * x as real, half as real)
  {
    assert (v * x) as real == v as real * x as real;
    assert (r * one) as real == r as real * one as real;
  }

  lemma HalfMore(e: real, o: real, half: real)
    requires o == 2.0 * half
    ensures e * o + half == (e + 0.5) * o
  {
  }

  /** The rounded product is as close to the product of the exact values as the gap
      of the product and half a unit allow. */
  lemma GapAndHalf(ro: real, vx: real, pq: real, e: real, half: real)
    requires Close(ro, vx, half) && Close(vx, pq, e)
    ensures Close(ro, pq, e + half)
  {
  }

  lemma RoundedGap(vx: real, ro: real, o: real, half: real, co: real, e: real)
    requires o == 2.0 * half && Close(vx, co, e * o) && Close(ro, vx, half)
    ensures Close(ro, co, (e + 0.5) * o)
  {
    HalfMore(e, o, half);
    GapAndHalf(ro, vx, co, e * o, half);
  }

  lemma RoundedProduct(v: real, x: real, r: real, o: real, half: real, p: real, q: real, c: real, ev: real, ex: real)
    requires 0.0 <= x <= o && 0.0 <= p <= o && o == 2.0 * half && half > 0.0
    requires Close(v, p, ev) && Close(x, q, ex) && p * q == c * o && Close(r * o, v * x, half)
    ensures Close(r, c, ev + ex + 0.5)
  {
    var e, vx, ro, co := ev + ex, v * x, r * o, c * o;
    assert Close(vx, co, e * o) by {
      ProductGap(v, x, o, p, q, ev, ex);
    }
    assert Close(ro, co, (e + 0.5) * o) by {
      RoundedGap(vx, ro, o, half, co, e);
    }
    CancelClose(r, c, o, e + 0.5);
  }

  lemma RoundedPowers(v: real, x: real, r: real, s: Powers, a: nat, b: nat, o: real, half: real, ev: real, ex: real)
    requires s.one == o && 0.0 <= x <= o && o == 2.0 * half && half > 0.0
    requires Close(v, s.at(a), ev) && Close(x, s.at(b), ex) && Close(r * o, v * x, half)
    ensures Close(r, s.at(a + b), ev + ex + 0.5)
  {
    assert Together(a, b);
    RoundedProduct(v, x, r, o, half, s.at(a), s.at(b), s.at(a + b), ev, ex);
  }

  lemma CloseNext(v: nat, x: nat, r: nat, s: Powers, a: nat, b: nat, one: nat, half: nat, ev: real, ex: real)
    requires s.one == one as real && one == 2 * half && half >= 1 && x <= one
    requires Close(v as real, s.at(a), ev) && Close(x as real, s.at(b), ex)
    requires v * x - half <= r * one <= v * x + half
    ensures Close(r as real, s.at(a + b), ev + ex + 0.5)
  {
    ProductReal(v, x, r, one, half);
    RoundedPowers(v as real, x as real, r as real, s, a, b, one as real, half as real, ev, ex);
  }

  lemma ApproxNext(v: nat, x: nat, r: nat, s: Powers, a: nat, b: nat, one: nat, half: nat)
    requires b >= 1 && Approx(v, s, a, one) && Approx(x, s, b, one)
    requires s.one == one as real && one == 2 * half && half >= 1 && r <= one
    requires v * x - half <= r * one <= v * x + half && (v == one ==> r == x)
    ensures Approx(r, s, a + b, one)
  {
    if a == 0 {
      assert a + b == b;
    } else {
      ErrAdd(a, b);
      CloseNext(v, x, r, s, a, b, one, half, Err(a), Err(b));
    }
  }

  /** The rounded product of two approximations is one, of the sum of the powers. */
  lemma ApproxProduct(v: nat, x: nat, s: Powers, a: nat, b: nat, f: nat, w: nat)
    requires f >= 1 && Roomy(f, w) && s.one == Pow2(f) as real && b >= 1
    requires Approx(v, s, a, Pow2(f)) && Approx(x, s, b, Pow2(f))
    ensures Approx(MulRound(v, x, f, w), s, a + b, Pow2(f))
  {
    MulRoundFits(v, x, f, w);
    ApproxNext(v, x, MulRound(v, x, f, w), s, a, b, Pow2(f), Pow2(f - 1));
  }

  lemma {:induction false} PowerLoopApprox(result: nat, x: nat, n: nat, s: Powers, a: nat, b: nat, f: nat, w: nat)
    requires f >= 1 && Roomy(f, w) && s.one == Pow2(f) as real && b >= 1
    requires Approx(result, s, a, Pow2(f)) && Approx(x, s, b, Pow2(f))
    ensures Approx(PowerLoop(result, x, n, f, w), s, a + b * n, Pow2(f))
    decreases n
  {
    if n > 0 {
      var r, a' := result, a;
      if n % 2 == 1 {
        ApproxProduct(result, x, s, a, b, f, w);
        r, a' := MulRound(result, x, f, w), a + b;
      }
      if n / 2 == 0 {
        assert n == 1 && b * n == b;
      } else {
        ApproxProduct(x, x, s, b, b, f, w);
        PowerLoopApprox(r, MulRound(x, x, f, w), n / 2, s, a', b + b, f, w);
        Halve(a, b, n);
      }
    }
  }

  lemma Halve(a: nat, b: nat, n: nat)
    ensures (if n % 2 == 1 then a + b else a) + (b + b) * (n / 2) == a + b * n
  {
    var h := n / 2;
    assert n == 2 * h + n % 2;
    assert b * (2 * h) == (b + b) * h;
    if n % 2 == 1 {
      assert b * (2 * h + 1) == b * (2 * h) + b;
    }
  }

  /** x as a fraction of 2^f. */
  ghost predicate IsFraction(u: real, x: nat, one: nat) {
    0.0 <= u <= 1.0 && one as real * u == x as real
  }

  lemma FractionExists(x: nat, one: nat) returns (u: real)
    requires x <= one && one >= 1
    ensures IsFraction(u, x, one)
  {
    u := x as real / one as real;
  }

  /** Raising x <= 2^f, the fraction u of 2^f, to the n-th power stays at most 2^f and,
      for n >= 1, errs by at most (n - 1) / 2 units in the last place. */
  lemma FixedPowerError(x: nat, u: real, f: nat, n: nat, w: nat)
    requires f >= 1 && x <= Pow2(f) && Roomy(f, w) && IsFraction(u, x, Pow2(f))
    ensures FixedPower(x, n, f, w) <= Pow2(f)
    ensures n == 0 ==> FixedPower(x, n, f, w) == Pow2(f)
    ensures n >= 1 ==> Close(FixedPower(x, n, f, w) as real, Scaled(Pow2(f) as real, u, n), (n - 1) as real / 2.0)
  {
    var o := Pow2(f) as real;
    var s := PowersOf(o, u);
    ScaledOne(o, u);
    if n >= 1 {
      ErrIs(n);
    }
    PowerLoopApprox(Pow2(f), x, n, s, 0, 1, f, w);
  }

  lemma ScaledOne(c: real, u: real)
    ensures Scaled(c, u, 1) == c * u
  {
    assert Scaled(c, u, 0) == c;
  }

  /** Every product the loop forms is at most 2^(2f). */
  ghost predicate ProductsFit(result: nat, x: nat, n: nat, f: nat, w: nat)
    requires f >= 1 && w >= 1
    decreases n
  {
    n == 0 ||
    (&& (n % 2 == 1 ==> result * x <= Pow2(2 * f))
     && (n / 2 == 0 ||
         (&& x * x <= Pow2(2 * f)
          && ProductsFit(if n % 2 == 1 then MulRound(result, x, f, w) else result, MulRound(x, x, f, w), n / 2, f, w))))
  }

  /** Every product the loop forms is at most 2^(2f), so nothing wraps: the loop
      computes the same for every word size with that much room. */
  lemma {:induction false} PowerNeverWraps(result: nat, x: nat, n: nat, f: nat, w: nat, w': nat)
    requires f >= 1 && Roomy(f, w) && Roomy(f, w') && result <= Pow2(f) && x <= Pow2(f)
    ensures ProductsFit(result, x, n, f, w)
    ensures PowerLoop(result, x, n, f, w) == PowerLoop(result, x, n, f, w') <= Pow2(f)
    decreases n
  {
    if n > 0 {
      MulRoundFits(result, x, f, w);
      MulRoundFits(x, x, f, w);
      if n / 2 > 0 {
        PowerNeverWraps(if n % 2 == 1 then MulRound(result, x, f, w) else result, MulRound(x, x, f, w), n / 2, f, w, w');
      }
    }
  }

  // ----- one step of the average -----

  /** The sum of a step before rounding. */
  function StepSum(load: nat, exp: nat, active: nat): nat
    requires exp <= FIXED_1
  {
    var rest: nat := FIXED_1 - exp;
    MulLe(0, load, exp);
    MulLe(0, active, rest);
    load * exp + active * rest
  }

  /** calc_load. */
  function CalcLoad(load: nat, exp: nat, active: nat, w: nat): nat
    requires exp <= FIXED_1 && w >= 1
  {
    Shift(Wrap(StepSum(load, exp, active) + Pow2(FSHIFT - 1), w), FSHIFT)
  }

  function Max(a: nat, b: nat): nat { if a < b then b else a }

  /** The operands of a step are small enough for its sum to fit. */
  predicate Fits(load: nat, active: nat, w: nat) {
    Max(load, active) * FIXED_1 + FIXED_1 / 2 < w
  }

  lemma StepSumMonotone(load: nat, load': nat, exp: nat, active: nat, active': nat)
    requires exp <= FIXED_1 && load <= load' && active <= active'
    ensures StepSum(load, exp, active) <= StepSum(load', exp, active')
  {
    MulLe(load, load', exp);
    MulLe(active, active', FIXED_1 - exp);
  }

  lemma StepSumEqual(a: nat, exp: nat)
    requires exp <= FIXED_1
    ensures StepSum(a, exp, a) == a * FIXED_1
  {
  }

  lemma StepSumBounds(load: nat, exp: nat, active: nat)
    requires exp <= FIXED_1
    ensures load <= active ==> load * FIXED_1 <= StepSum(load, exp, active) <= active * FIXED_1
    ensures active <= load ==> active * FIXED_1 <= StepSum(load, exp, active) <= load * FIXED_1
  {
    StepSumEqual(load, exp);
    StepSumEqual(active, exp);
    if load <= active {
      StepSumMonotone(load, load, exp, load, active);
      StepSumMonotone(load, active, exp, active, active);
    } else {
      StepSumMonotone(load, load, exp, active, load);
      StepSumMonotone(active, load, exp, active, active);
    }
  }

  /** What a step computes when its sum fits. */
  lemma CalcLoadRounds(load: nat, exp: nat, active: nat, w: nat)
    requires exp <= FIXED_1 && Fits(load, active, w)
    ensures var r, v := CalcLoad(load, exp, active, w), StepSum(load, exp, active);
            r * FIXED_1 <= v + FIXED_1 / 2 < r * FIXED_1 + FIXED_1
  {
    FixedOne();
    StepSumBounds(load, exp, active);
    ShiftFloors(StepSum(load, exp, active) + FIXED_1 / 2, FSHIFT);
  }

  /** A step lands between the old load and the active count. */
  lemma CalcLoadBetween(load: nat, exp: nat, active: nat, w: nat)
    requires exp <= FIXED_1 && Fits(load, active, w)
    ensures load <= active ==> load <= CalcLoad(load, exp, active, w) <= active
    ensures active <= load ==> active <= CalcLoad(load, exp, active, w) <= load
    ensures Fits(CalcLoad(load, exp, active, w), active, w)
  {
    CalcLoadRounds(load, exp, active, w);
    StepSumBounds(load, exp, active);
  }

  lemma CalcLoadMonotone(load: nat, load': nat, exp: nat, active: nat, active': nat, w: nat)
    requires exp <= FIXED_1 && load <= load' && active <= active' && Fits(load', active', w)
    ensures CalcLoad(load, exp, active, w) <= CalcLoad(load', exp, active', w)
  {
    CalcLoadRounds(load, exp, active, w);
    CalcLoadRounds(load', exp, active', w);
    StepSumMonotone(load, load', exp, active, active');
  }

  /** A step computes the rounded average exactly when its sum fits the word. */
  lemma CalcLoadExactIff(load: nat, exp: nat, active: nat, w: nat)
    requires exp <= FIXED_1 && w >= FIXED_1
    ensures var sum := StepSum(load, exp, active) + FIXED_1 / 2;
            CalcLoad(load, exp, active, w) == Shift(sum, FSHIFT) <==> sum < w
  {
    FixedOne();
    var sum := StepSum(load, exp, active) + FIXED_1 / 2;
    if sum >= w {
      WrapSmaller(sum, w);
      ShiftFloors(sum, FSHIFT);
      ShiftFloors(Wrap(sum, w), FSHIFT);
    }
  }

  /** On 32 bits a load of 1025 with as many active tasks collapses to 1 in one step. */
  lemma CalcLoadCollapses()
    ensures var load := 1025 * FIXED_1;
            && StepSum(load, 1884, load) + FIXED_1 / 2 >= 0x1_0000_0000
            && CalcLoad(load, 1884, load, 0x1_0000_0000) == FIXED_1
  {
    var load := 1025 * FIXED_1;
    FixedOne();
    StepSumEqual(load, 1884);
    var sum := load * FIXED_1 + FIXED_1 / 2;
    assert Wrap(sum, 0x1_0000_0000) == Wrap(sum - 0x1_0000_0000, 0x1_0000_0000) == 4195328;
    ShiftFloors(4195328, FSHIFT);
  }

  lemma {:induction false} WrapSmaller(x: nat, w: nat)
    requires x >= w >= 1
    ensures Wrap(x, w) <= x - w
  {
    if x - w >= w {
      WrapSmaller(x - w, w);
    }
  }

  /** A step errs by at most a half from the exact average. */
  lemma CalcLoadClose(load: nat, exp: nat, active: nat, u: real, w: nat)
    requires exp <= FIXED_1 && Fits(load, active, w) && IsFraction(u, exp, FIXED_1)
    ensures Close(CalcLoad(load, exp, active, w) as real, active as real + u * (load as real - active as real), 0.5)
  {
    CalcLoadRounds(load, exp, active, w);
    StepReal(load, exp, active, u);
  }

  lemma StepReal(load: nat, exp: nat, active: nat, u: real)
    requires exp <= FIXED_1 && 2048.0 * u == exp as real
    ensures StepSum(load, exp, active) as real == 2048.0 * (active as real + u * (load as real - active as real))
  {
    var rest: nat := FIXED_1 - exp;
    assert (load * exp) as real == load as real * (2048.0 * u);
    assert (active * rest) as real == active as real * (2048.0 - 2048.0 * u);
  }

  // ----- n steps at once -----

  function LoadAfter(load: nat, exp: nat, active: nat, n: nat, w: nat): nat
    requires exp <= FIXED_1 && Roomy(FSHIFT, w)
  {
    FixedOne();
    PowerNeverWraps(Pow2(FSHIFT), exp, n, FSHIFT, w, w);
    CalcLoad(load, FixedPower(exp, n, FSHIFT, w), active, w)
  }

  /** calc_load_n. */
  method CalcLoadN(load: nat, exp: nat, active: nat, n: nat, w: nat) returns (r: nat)
    requires exp <= FIXED_1 && Roomy(FSHIFT, w)
    ensures r == LoadAfter(load, exp, active, n, w)
  {
    var power := FixedPowerInt(exp, FSHIFT, n, w);
    FixedOne();
    PowerNeverWraps(Pow2(FSHIFT), exp, n, FSHIFT, w, w);
    r := CalcLoad(load, power, active, w);
  }

  /** The loop that calc_load_n replaces. */
  function LoadSteps(load: nat, exp: nat, active: nat, n: nat, w: nat): nat
    requires exp <= FIXED_1 && w >= 1
    decreases n
  {
    if n == 0 then load else CalcLoad(LoadSteps(load, exp, active, n - 1, w), exp, active, w)
  }

  /** The exact average after n steps with factor u. */
  ghost function Average(load: nat, u: real, active: nat, n: nat): real {
    active as real + Scaled(load as real - active as real, u, n)
  }

  lemma StepError(d: real, u: real, before: real, after: real, e: real)
    requires 0.0 <= u <= 1.0 && Close(before, d, e) && Close(after, u * before, 0.5)
    ensures Close(after, u * d, e + 0.5)
  {
    Scale(before - d, u, e, 1.0);
    assert u * before == u * d + (before - d) * u;
  }

  lemma {:induction false} LoadStepsFit(load: nat, exp: nat, active: nat, n: nat, w: nat)
    requires exp <= FIXED_1 && Fits(load, active, w)
    ensures Fits(LoadSteps(load, exp, active, n, w), active, w)
  {
    if n > 0 {
      LoadStepsFit(load, exp, active, n - 1, w);
      CalcLoadBetween(LoadSteps(load, exp, active, n - 1, w), exp, active, w);
    }
  }

  lemma AverageStep(load: nat, u: real, active: nat, n: nat, before: nat, after: nat)
    requires n >= 1 && 0.0 <= u <= 1.0
    requires Close(before as real, Average(load, u, active, n - 1), (n - 1) as real / 2.0)
    requires Close(after as real, active as real + u * (before as real - active as real), 0.5)
    ensures Close(after as real, Average(load, u, active, n), n as real / 2.0)
  {
    var a := active as real;
    StepError(Scaled(load as real - a, u, n - 1), u, before as real - a, after as real - a, (n - 1) as real / 2.0);
  }

  /** n steps err by at most a half each from the exact geometric average. */
  lemma {:induction false} LoadStepsClose(load: nat, exp: nat, active: nat, u: real, n: nat, w: nat)
    requires exp <= FIXED_1 && Fits(load, active, w) && IsFraction(u, exp, FIXED_1)
    ensures Close(LoadSteps(load, exp, active, n, w) as real, Average(load, u, active, n), n as real / 2.0)
  {
    if n > 0 {
      LoadStepsClose(load, exp, active, u, n - 1, w);
      LoadStepsFit(load, exp, active, n - 1, w);
      var before := LoadSteps(load, exp, active, n - 1, w);
      CalcLoadClose(before, exp, active, u, w);
      AverageStep(load, u, active, n, before, LoadSteps(load, exp, active, n, w));
    }
  }

  function Abs(d: real): real { if d < 0.0 then -d else d }

  lemma ScaleAbs(d: real, s: real, e: real)
    requires -e <= s <= e
    ensures -(Abs(d) * e) <= d * s <= Abs(d) * e
  {
    Scale(s, Abs(d), e, Abs(d));
    assert d < 0.0 ==> s * Abs(d) == -(d * s);
  }

  lemma PowerError(d: real, v: real, p: real, q: real, e: real)
    requires Close(v, p, e) && d * p == q * 2048.0
    ensures Close(v / 2048.0 * d, q, Abs(d) * (e / 2048.0))
  {
    ScaleAbs(d, (v - p) / 2048.0, e / 2048.0);
    assert d * ((v - p) / 2048.0) == v / 2048.0 * d - d * p / 2048.0;
  }

  lemma PowerStep(a: real, d: real, v: real, r: real, p: real, t: real, e: real)
    requires Close(v, p, e) && d * p == t * 2048.0 && Close(r, a + v / 2048.0 * d, 0.5)
    ensures Close(r, a + t, 0.5 + Abs(d) * (e / 2048.0))
  {
    PowerError(d, v, p, t, e);
  }

  lemma ShortcutStep(a: real, d: real, v: real, r: real, u: real, n: nat, e: real)
    requires Close(v, Scaled(2048.0, u, n), e) && Close(r, a + v / 2048.0 * d, 0.5)
    ensures Close(r, a + Scaled(d, u, n), 0.5 + Abs(d) * (e / 2048.0))
  {
    var p, t := ScaledSwap(d, u, n);
    PowerStep(a, d, v, r, p, t, e);
  }

  lemma PowerClose(load: nat, power: nat, active: nat, u: real, n: nat, e: real, w: nat)
    requires power <= FIXED_1 && Fits(load, active, w) && Close(power as real, Scaled(2048.0, u, n), e)
    ensures Close(CalcLoad(load, power, active, w) as real, Average(load, u, active, n),
                  0.5 + Abs(load as real - active as real) * (e / 2048.0))
  {
    CalcLoadClose(load, power, active, power as real / 2048.0, w);
    ShortcutStep(active as real, load as real - active as real, power as real, CalcLoad(load, power, active, w) as real,
                 u, n, e);
  }

  lemma LoadAfterClose(load: nat, exp: nat, active: nat, u: real, n: nat, w: nat)
    requires exp <= FIXED_1 && Roomy(FSHIFT, w) && Fits(load, active, w) && n >= 1 && IsFraction(u, exp, FIXED_1)
    ensures Close(LoadAfter(load, exp, active, n, w) as real, Average(load, u, active, n),
                  0.5 + Abs(load as real - active as real) * ((n - 1) as real / 2.0 / 2048.0))
  {
    FixedOne();
    FixedPowerError(exp, u, FSHIFT, n, w);
    PowerClose(load, FixedPower(exp, n, FSHIFT, w), active, u, n, (n - 1) as real / 2.0, w);
  }

  lemma ScaledSwap(d: real, u: real, n: nat) returns (p: real, t: real)
    ensures p == Scaled(2048.0, u, n) && t == Scaled(d, u, n) && d * p == t * 2048.0
  {
    p, t := Scaled(2048.0, u, n), Scaled(d, u, n);
    ScaledProduct(d, 2048.0, u, n, 0);
    ScaledProduct(2048.0, d, u, 0, n);
    ScaledProduct(d, 2048.0, u, 0, n);
  }

  /** The shortcut agrees with the loop it replaces: after n >= 1 steps with the
      same active count the two differ by at most (n + 1) / 2 and
      |load - active| (n - 1) / (2 * 2^FSHIFT). */
  lemma ShortcutAgrees(load: nat, exp: nat, active: nat, n: nat, w: nat)
    requires exp <= FIXED_1 && Roomy(FSHIFT, w) && Fits(load, active, w) && n >= 1
    ensures Close(LoadAfter(load, exp, active, n, w) as real, LoadSteps(load, exp, active, n, w) as real,
                  (n + 1) as real / 2.0
                  + Abs(load as real - active as real) * ((n - 1) as real / 2.0 / 2048.0))
  {
    var u := FractionExists(exp, FIXED_1);
    LoadAfterClose(load, exp, active, u, n, w);
    LoadStepsClose(load, exp, active, u, n, w);
  }
  /** A step from the old load on is the first of n + 1. */
  lemma {:induction false} StepFirst(load: nat, exp: nat, active: nat, n: nat, w: nat)
    requires exp <= FIXED_1 && w >= 1
    ensures LoadSteps(CalcLoad(load, exp, active, w), exp, active, n, w) == LoadSteps(load, exp, active, n + 1, w)
  {
    if n > 0 {
      StepFirst(load, exp, active, n - 1, w);
    } else {
      assert LoadSteps(load, exp, active, 0, w) == load;
    }
  }

  /** How far the shortcut over n steps may be from the loop. */
  ghost function Slip(load: nat, active: nat, n: nat): real
    requires n >= 1
  {
    (n + 1) as real / 2.0 + Abs(load as real - active as real) * ((n - 1) as real / 2.0 / 2048.0)
  }

  lemma ShortcutSlips(load: nat, exp: nat, active: nat, n: nat, w: nat)
    requires exp <= FIXED_1 && Roomy(FSHIFT, w) && Fits(load, active, w) && n >= 1
    ensures Close(LoadAfter(load, exp, active, n, w) as real, LoadSteps(load, exp, active, n, w) as real, Slip(load, active, n))
  {
    ShortcutAgrees(load, exp, active, n, w);
  }

  lemma LargerProduct(d: real, d': real, s: real)
    requires d <= d' && s >= 0.0
    ensures d * s <= d' * s
  {
    NonNegative(d' - d, s);
    assert (d' - d) * s == d' * s - d * s;
  }

  /** It slips less from a load that is nearer to the active count. */
  lemma SlipNearer(load: nat, once: nat, active: nat, n: nat)
    requires n >= 1
    requires load <= active ==> load <= once <= active
    requires active <= load ==> active <= once <= load
    ensures Slip(once, active, n) <= Slip(load, active, n)
  {
    LargerProduct(Abs(once as real - active as real), Abs(load as real - active as real), (n - 1) as real / 2.0 / 2048.0);
  }

  lemma CloseTrans(x: real, y: real, e: real, e': real)
    requires Close(x, y, e) && e <= e'
    ensures Close(x, y, e')
  {
  }

  /** One step, and then the shortcut over n more, against n + 1 steps. */
  lemma CatchUpAgrees(load: nat, exp: nat, active: nat, n: nat, w: nat)
    requires exp <= FIXED_1 && Roomy(FSHIFT, w) && Fits(load, active, w) && n >= 1
    ensures Close(LoadAfter(CalcLoad(load, exp, active, w), exp, active, n, w) as real,
                  LoadSteps(load, exp, active, n + 1, w) as real, Slip(load, active, n))
  {
    var once := CalcLoad(load, exp, active, w);
    CalcLoadBetween(load, exp, active, w);
    ShortcutSlips(once, exp, active, n, w);
    StepFirst(load, exp, active, n, w);
    SlipNearer(load, once, active, n);
    CloseTrans(LoadAfter(once, exp, active, n, w) as real, LoadSteps(load, exp, active, n + 1, w) as real,
               Slip(once, active, n), Slip(load, active, n));
  }
}
