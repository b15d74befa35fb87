/** How accurate the table of decay_load_missed (core.c) is, against the exact decay
    that multiplies a level by (2^i - 1) / 2^i once per missed tick. */
module CpuLoadDecay {
  import opened LoadAverage
  import opened CpuLoad

  // ----- the table holds the powers of the factor, rounded down -----

  /** The exact factor of one tick. */
  ghost function Base(idx: nat): real {
    if idx == 1 then 0.5 else if idx == 2 then 0.75 else if idx == 3 then 0.875 else 0.9375
  }

  /** Bounds on the 2^j-th power of each factor, in units of 10^-7. */
  const LOW: seq<seq<nat>> := [
    [0, 0, 0, 0, 0, 0, 0, 0],
    [5000000, 2500000, 625000, 39062, 152, 0, 0, 0],
    [7500000, 5625000, 3164062, 1001128, 100225, 1004, 0, 0],
    [8750000, 7656250, 5861816, 3436088, 1180670, 139398, 1943, 0],
    [9375000, 8789062, 7724761, 5967193, 3560739, 1267886, 160753, 2584]]

  const HIGH: seq<seq<nat>> := [
    [0, 0, 0, 0, 0, 0, 0, 0],
    [5000000, 2500000, 625000, 39063, 153, 1, 1, 1],
    [7500000, 5625000, 3164063, 1001130, 100227, 1005, 1, 1],
    [8750000, 7656250, 5861817, 3436090, 1180672, 139399, 1944, 1],
    [9375000, 8789063, 7724763, 5967197, 3560745, 1267891, 160755, 2585]]

  const UNIT: nat := 10000000

  lemma BoundsHold(idx: nat, j: nat)
    requires 1 <= idx < CPU_LOAD_IDX_MAX && j <= DEGRADE_SHIFT
    ensures DEGRADE_FACTOR[idx][j] * UNIT <= 128 * LOW[idx][j]
    ensures 128 * HIGH[idx][j] < (DEGRADE_FACTOR[idx][j] + 1) * UNIT
    ensures HIGH[idx][j] <= UNIT
  {
    assert j == 0 || j == 1 || j == 2 || j == 3 || j == 4 || j == 5 || j == 6 || j == 7;
  }

  lemma BoundsChain(idx: nat, j: nat)
    requires 1 <= idx < CPU_LOAD_IDX_MAX && j < DEGRADE_SHIFT
    ensures LOW[idx][j + 1] * UNIT <= LOW[idx][j] * LOW[idx][j]
    ensures HIGH[idx][j] * HIGH[idx][j] <= HIGH[idx][j + 1] * UNIT
  {
    assert j == 0 || j == 1 || j == 2 || j == 3 || j == 4 || j == 5 || j == 6;
  }

  ghost predicate Bounded(q: real, lo: nat, hi: nat) {
    lo as real <= q * 10000000.0 <= hi as real
  }

  lemma SquareReal(q: real, lo: real, hi: real, lo': real, hi': real)
    requires 0.0 <= lo <= q * 10000000.0 <= hi
    requires lo' * 10000000.0 <= lo * lo && hi * hi <= hi' * 10000000.0
    ensures lo' <= (q * q) * 10000000.0 <= hi'
  {
    var p := q * 10000000.0;
    NonNegative(p - lo, p + lo);
    NonNegative(hi - p, hi + p);
    assert (p - lo) * (p + lo) == p * p - lo * lo;
    assert (hi - p) * (hi + p) == hi * hi - p * p;
    assert p * p == (q * q) * 10000000.0 * 10000000.0;
  }

  lemma SquareBounded(q: real, lo: nat, hi: nat, lo': nat, hi': nat)
    requires Bounded(q, lo, hi) && lo' * UNIT <= lo * lo && hi * hi <= hi' * UNIT
    ensures Bounded(q * q, lo', hi')
  {
    assert (lo * lo) as real == lo as real * lo as real;
    assert (hi * hi) as real == hi as real * hi as real;
    SquareReal(q, lo as real, hi as real, lo' as real, hi' as real);
  }

  /** Columns j.. of the row of `idx`, where q is the exact factor of column j. */
  ghost predicate RowFloors(idx: nat, j: nat, q: real)
    requires 1 <= idx < CPU_LOAD_IDX_MAX && j <= DEGRADE_SHIFT
    decreases DEGRADE_SHIFT - j
  {
    && 0.0 <= q <= 1.0
    && DEGRADE_FACTOR[idx][j] as real <= 128.0 * q < DEGRADE_FACTOR[idx][j] as real + 1.0
    && (j < DEGRADE_SHIFT ==> RowFloors(idx, j + 1, q * q))
  }

  lemma {:induction false} RowFrom(idx: nat, j: nat, q: real)
    requires 1 <= idx < CPU_LOAD_IDX_MAX && j <= DEGRADE_SHIFT && Bounded(q, LOW[idx][j], HIGH[idx][j])
    ensures RowFloors(idx, j, q)
    decreases DEGRADE_SHIFT - j
  {
    BoundsHold(idx, j);
    if j < DEGRADE_SHIFT {
      BoundsChain(idx, j);
      SquareBounded(q, LOW[idx][j], HIGH[idx][j], LOW[idx][j + 1], HIGH[idx][j + 1]);
      RowFrom(idx, j + 1, q * q);
    }
  }

  /** Every entry of the table is the exact factor of its 2^j ticks on the 128-point
      scale, rounded down. */
  lemma TableFloors(idx: nat)
    requires 1 <= idx < CPU_LOAD_IDX_MAX
    ensures RowFloors(idx, 0, Base(idx))
  {
    RowFrom(idx, 0, Base(idx));
  }

  // ----- the loop -----

  lemma {:induction false} ScaledSquare(c: real, u: real, n: nat)
    ensures Scaled(c, u * u, n) == Scaled(c, u, 2 * n)
  {
    if n > 0 {
      ScaledSquare(c, u, n - 1);
      assert Scaled(c, u, 2 * n) == u * Scaled(c, u, 2 * n - 1);
      assert Scaled(c, u, 2 * n - 1) == u * Scaled(c, u, 2 * n - 2);
      Associate(u, u, Scaled(c, u, 2 * n - 2));
    }
  }

  lemma {:induction false} ScaledFirst(c: real, u: real, n: nat)
    ensures Scaled(u * c, u, n) == Scaled(c, u, n + 1)
  {
    if n > 0 {
      ScaledFirst(c, u, n - 1);
    } else {
      assert Scaled(c, u, 0) == c;
    }
  }

  /** One bit of the exact decay. */
  lemma ScaledBit(c: real, u: real, n: nat)
    ensures Scaled(c, u, n) == Scaled(if n % 2 == 1 then u * c else c, u * u, n / 2)
  {
    if n % 2 == 1 {
      ScaledSquare(u * c, u, n / 2);
      ScaledFirst(c, u, n - 1);
    } else {
      ScaledSquare(c, u, n / 2);
    }
  }

  lemma MulLeReal(a: real, b: real, c: real)
    requires a <= b && c >= 0.0
    ensures a * c <= b * c
  {
    NonNegative(b - a, c);
    assert (b - a) * c == b * c - a * c;
  }

  lemma EntryBelow(r: real, r': real, q: real, f: real)
    requires 0.0 <= r && f <= 128.0 * q && r' * 128.0 <= r * f
    ensures r' <= q * r
  {
    MulLeReal(f, 128.0 * q, r);
    assert f * r <= 128.0 * q * r;
    assert r * f == f * r;
    assert 128.0 * q * r == 128.0 * (q * r);
  }

  lemma EntryAbove(r: real, r': real, q: real, f: real)
    requires 0.0 <= r && 128.0 * q <= f + 1.0 && r * f < r' * 128.0 + 128.0
    ensures q * r - r' <= r / 128.0 + 1.0
  {
    MulLeReal(128.0 * q, f + 1.0, r);
    assert 128.0 * q * r <= f * r + r;
    assert r * f == f * r;
    assert 128.0 * q * r == 128.0 * (q * r);
  }

  /** A use of the table loses at most one part in 128 of the level, and rounding. */
  lemma DegradeError(exact: real, r: real, r': real, q: real, f: real, e: real, level: real)
    requires 0.0 <= exact - r <= e && 0.0 <= r <= level && 0.0 <= q <= 1.0
    requires f <= 128.0 * q <= f + 1.0 && r' * 128.0 <= r * f < r' * 128.0 + 128.0
    ensures 0.0 <= q * exact - r' <= e + (level / 128.0 + 1.0)
  {
    EntryBelow(r, r', q, f);
    EntryAbove(r, r', q, f);
    GapShrinks(exact, r, q, e);
    var a, b := q * r, q * exact;
    assert r' <= a <= b <= a + e && a - r' <= r / 128.0 + 1.0;
  }

  lemma GapShrinks(exact: real, r: real, q: real, e: real)
    requires 0.0 <= exact - r <= e && 0.0 <= q <= 1.0
    ensures q * r <= q * exact <= q * r + e
  {
    NonNegative(q, exact - r);
    NonNegative(1.0 - q, exact - r);
    assert q * (exact - r) == q * exact - q * r;
    assert (1.0 - q) * (exact - r) == exact - r - q * (exact - r);
  }

  lemma DegradeReal(r: nat, idx: nat, j: nat, w: nat)
    requires idx < CPU_LOAD_IDX_MAX && j <= DEGRADE_SHIFT && r * 128 < w
    ensures var r', f := Degrade(r, idx, j, w) as real, DEGRADE_FACTOR[idx][j] as real;
            r' * 128.0 <= r as real * f < r' * 128.0 + 128.0
  {
    DegradeFloors(r, idx, j, w);
    MulLe(DEGRADE_FACTOR[idx][j], 128, r);
    assert (r * DEGRADE_FACTOR[idx][j]) as real == r as real * DEGRADE_FACTOR[idx][j] as real;
  }

  lemma DegradeClose(r: nat, idx: nat, j: nat, w: nat, exact: real, q: real, e: real, level: real)
    requires 1 <= idx < CPU_LOAD_IDX_MAX && j <= DEGRADE_SHIFT && RowFloors(idx, j, q)
    requires r * 128 < w && r as real <= level && 0.0 <= exact - r as real <= e
    ensures 0.0 <= q * exact - Degrade(r, idx, j, w) as real <= e + (level / 128.0 + 1.0)
  {
    DegradeReal(r, idx, j, w);
    DegradeError(exact, r as real, Degrade(r, idx, j, w) as real, q, DEGRADE_FACTOR[idx][j] as real, e, level);
  }

  /** k uses of the table. */
  ghost function Slack(k: nat, unit: real): real {
    if k == 0 then 0.0 else unit + Slack(k - 1, unit)
  }

  lemma {:induction false} SlackPositive(k: nat, unit: real)
    requires unit >= 0.0
    ensures Slack(k, unit) >= 0.0
  {
    if k > 0 {
      SlackPositive(k - 1, unit);
    }
  }

  lemma {:induction false} LoopClose(r: nat, missed: nat, idx: nat, j: nat, w: nat, exact: real, q: real, e: real, level: nat)
    requires 1 <= idx < CPU_LOAD_IDX_MAX && InTable(missed, j) && RowFloors(idx, j, q)
    requires r <= level && level * 128 < w && 0.0 <= exact - r as real <= e
    ensures var unit := level as real / 128.0 + 1.0;
            0.0 <= Scaled(exact, q, missed) - DegradeBits(r, missed, idx, j, w) as real <= e + Slack(DEGRADE_SHIFT - j, unit)
    decreases missed
  {
    var unit := level as real / 128.0 + 1.0;
    SlackPositive(DEGRADE_SHIFT - j, unit);
    if missed > 0 {
      HalveInTable(missed, j);
      ScaledBit(exact, q, missed);
      if missed % 2 == 1 {
        DegradeBelow(r, idx, j, w);
        DegradeClose(r, idx, j, w, exact, q, e, level as real);
        LoopClose(Degrade(r, idx, j, w), missed / 2, idx, j + 1, w, q * exact, q * q, e + unit, level);
      } else {
        LoopClose(r, missed / 2, idx, j + 1, w, exact, q * q, e + unit, level);
      }
    }
  }

  // ----- the whole decay -----

  /** All of the level is gone, up to one part in 128, after degrade_zero_ticks. */
  lemma ZeroTicks(c: real, idx: nat)
    requires 1 <= idx < CPU_LOAD_IDX_MAX && c >= 0.0
    ensures 0.0 <= Scaled(c, Base(idx), DEGRADE_ZERO_TICKS[idx]) <= c / 128.0
  {
    var j := if idx == 1 then 3 else idx + 3;
    assert DEGRADE_ZERO_TICKS[idx] == Pow2(j) by {
      assert Pow2(3) == 8 && Pow2(5) == 32 && Pow2(6) == 64 && Pow2(7) == 128;
    }
    TableFloors(idx);
    RowPower(c, idx, 0, j, Base(idx));
  }

  lemma {:induction false} RowPower(c: real, idx: nat, j: nat, k: nat, q: real)
    requires 1 <= idx < CPU_LOAD_IDX_MAX && j + k <= DEGRADE_SHIFT && c >= 0.0 && RowFloors(idx, j, q)
    requires DEGRADE_FACTOR[idx][j + k] == 0
    ensures 0.0 <= Scaled(c, q, Pow2(k)) <= c / 128.0
    decreases k
  {
    if k == 0 {
      ScaledOne(c, q);
      NonNegative(c, q);
      MulLeReal(q, 0.0078125, c);
      assert q <= 0.0078125;
      assert c * q <= c * 0.0078125;
    } else {
      ScaledSquare(c, q, Pow2(k - 1));
      RowPower(c, idx, j + 1, k - 1, q * q);
    }
  }

  lemma {:induction false} ScaledSplit(c: real, u: real, m: nat, n: nat)
    ensures Scaled(c, u, m + n) == Scaled(Scaled(c, u, n), u, m)
  {
    if m > 0 {
      ScaledSplit(c, u, m - 1, n);
    }
  }

  lemma DecayedAway(c: real, idx: nat, missed: nat)
    requires 1 <= idx < CPU_LOAD_IDX_MAX && c >= 0.0 && missed >= DEGRADE_ZERO_TICKS[idx]
    ensures 0.0 <= Scaled(c, Base(idx), missed) <= c / 128.0
  {
    var z := DEGRADE_ZERO_TICKS[idx];
    ZeroTicks(c, idx);
    ScaledSplit(c, Base(idx), missed - z, z);
    ScaledPositive(Scaled(c, Base(idx), z), Base(idx), missed - z);
    ScaledUnit(Scaled(c, Base(idx), z), Base(idx), missed - z);
  }

  lemma {:induction false} HalvesClose(x: nat, c: real, n: nat)
    requires 0.0 <= c - x as real <= 1.0
    ensures 0.0 <= Scaled(c, 0.5, n) - Shift(x, n) as real <= 1.0
    decreases n
  {
    if n > 0 {
      HalvesClose(x / 2, 0.5 * c, n - 1);
      ScaledFirst(c, 0.5, n - 1);
    }
  }

  /** The decay over any number of missed ticks never exceeds the exact one, and falls
      short of it by at most seven times one part in 128 of the level, plus seven. */
  lemma DecayAccurate(load: nat, missed: nat, idx: nat, w: nat)
    requires 1 <= idx < CPU_LOAD_IDX_MAX && load * 128 < w
    ensures 0.0 <= Scaled(load as real, Base(idx), missed) - DecayMissed(load, missed, idx, w) as real
                <= 7.0 * (load as real / 128.0 + 1.0)
    ensures idx == 1 && missed < 8 ==>
              Scaled(load as real, 0.5, missed) - DecayMissed(load, missed, 1, w) as real <= 1.0
    ensures missed == 0 ==> DecayMissed(load, missed, idx, w) == load
  {
    var c := load as real;
    if missed == 0 {
      assert Scaled(c, Base(idx), 0) == c;
    } else if missed >= DEGRADE_ZERO_TICKS[idx] {
      DecayedAway(c, idx, missed);
    } else if idx == 1 {
      HalvesClose(load, c, missed);
    } else {
      TableWidth();
      TableFloors(idx);
      LoopClose(load, missed, idx, 0, w, c, Base(idx), 0.0, load);
      SevenUnits(c / 128.0 + 1.0);
    }
  }

  lemma SevenUnits(unit: real)
    ensures Slack(7, unit) == 7.0 * unit
  {
    assert Slack(1, unit) == unit;
    assert Slack(3, unit) == 3.0 * unit;
    assert Slack(5, unit) == 5.0 * unit;
  }
  /** The weighted mean of a level and the weight. */
  ghost function Mean(q: real, level: real, load: real): real {
    q * level + (1.0 - q) * load
  }

  lemma BlendReal(prev: real, load: real, r: real, scale: real)
    requires scale >= 1.0
    requires (scale - 1.0) * prev + load - scale < r * scale < (scale - 1.0) * prev + load + scale
    ensures -1.0 < prev - prev / scale + load / scale - r < 1.0
  {
    var exact := prev - prev / scale + load / scale;
    assert prev / scale * scale == prev && load / scale * scale == load;
    assert exact * scale == (scale - 1.0) * prev + load;
    assert (exact - r) * scale == exact * scale - r * scale;
    if exact - r >= 1.0 {
      MulLeReal(1.0, exact - r, scale);
    }
    if exact - r <= -1.0 {
      MulLeReal(exact - r, -1.0, scale);
    }
  }

  /** A blend is the weighted mean up to less than one. */
  lemma BlendClose(prev: nat, load: nat, i: nat, w: nat)
    requires 1 <= i < CPU_LOAD_IDX_MAX && BlendFits(prev, load, w)
    ensures -1.0 < Mean(Base(i), prev as real, load as real) - Blend(prev, load, i, w) as real < 1.0
  {
    BlendClosesGap(prev, load, i, w);
    BlendReal(prev as real, load as real, Blend(prev, load, i, w) as real, [1, 2, 4, 8, 16][i] as real);
  }

  lemma MeanNear(p: real, d: real, load: real, r: real, q: real, e: real)
    requires 0.0 <= q <= 1.0 && 0.0 <= p - d <= e && -1.0 < Mean(q, d, load) - r < 1.0
    ensures -1.0 < Mean(q, p, load) - r < e + 1.0
  {
    GapShrinks(p, d, q, e);
  }

  /** The level that an update blends in. */
  lemma Decayed(prev: nat, load: nat, i: nat, pending: nat, w: nat) returns (d: nat)
    requires 1 <= i < CPU_LOAD_IDX_MAX && pending >= 1 && prev * 128 < w
    ensures NextLevel(prev, load, i, pending, w) == Blend(d, load, i, w) && d <= prev
    ensures 0.0 <= Scaled(prev as real, Base(i), pending - 1) - d as real <= 7.0 * (prev as real / 128.0 + 1.0)
  {
    d := DecayMissed(prev, pending - 1, i, w);
    DecayBelow(prev, pending - 1, i, w);
    DecayAccurate(prev, pending - 1, i, w);
  }

  /** A whole update: the level is the exact mean of the weight and of the level
      decayed exactly over the ticks that were missed, up to one at the upper side
      and up to the loss of the table, and one, at the lower side. */
  lemma UpdateAccurate(prev: nat, load: nat, i: nat, pending: nat, w: nat)
    requires 1 <= i < CPU_LOAD_IDX_MAX && pending >= 1 && BlendFits(prev, load, w) && prev * 128 < w
    ensures var decayed := Scaled(prev as real, Base(i), pending - 1);
            -1.0 < Mean(Base(i), decayed, load as real) - NextLevel(prev, load, i, pending, w) as real
                 < 7.0 * (prev as real / 128.0 + 1.0) + 1.0
  {
    var d := Decayed(prev, load, i, pending, w);
    BlendClose(d, load, i, w);
    MeanNear(Scaled(prev as real, Base(i), pending - 1), d as real, load as real,
             NextLevel(prev, load, i, pending, w) as real, Base(i), 7.0 * (prev as real / 128.0 + 1.0));
  }
}
