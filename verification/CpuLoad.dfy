/** The per-CPU load levels (core.c): level i averages the queue's weight over about
    2^i ticks; ticks missed while the CPU slept decay a level through a table. */
module CpuLoad {
  import opened LoadAverage

  const CPU_LOAD_IDX_MAX: nat := 5
  const DEGRADE_SHIFT: nat := 7

  const DEGRADE_ZERO_TICKS: seq<nat> := [0, 8, 32, 64, 128]

  const DEGRADE_FACTOR: seq<seq<nat>> := [
    [0, 0, 0, 0, 0, 0, 0, 0],
    [64, 32, 8, 0, 0, 0, 0, 0],
    [96, 72, 40, 12, 1, 0, 0, 0],
    [112, 98, 75, 43, 15, 1, 0, 0],
    [120, 112, 98, 76, 45, 16, 2, 0]]

  lemma {:induction false} WrapShrinks(x: nat, w: nat)
    requires w >= 1
    ensures Wrap(x, w) <= x
  {
    if x >= w {
      WrapShrinks(x - w, w);
    }
  }

  // ----- decay over missed ticks -----

  /** The bits of `missed` that are left leave room in a row of the table. */
  ghost predicate InTable(missed: nat, j: nat) {
    j <= DEGRADE_SHIFT && missed < Pow2(DEGRADE_SHIFT - j)
  }

  lemma HalveInTable(missed: nat, j: nat)
    requires missed > 0 && InTable(missed, j)
    ensures j < DEGRADE_SHIFT && InTable(missed / 2, j + 1)
  {
  }

  /** One use of the table. */
  function Degrade(load: nat, idx: nat, j: nat, w: nat): nat
    requires idx < CPU_LOAD_IDX_MAX && j <= DEGRADE_SHIFT && w >= 1
  {
    Shift(Wrap(load * DEGRADE_FACTOR[idx][j], w), DEGRADE_SHIFT)
  }

  /** The loop of decay_load_missed from column `j`. */
  function DegradeBits(load: nat, missed: nat, idx: nat, j: nat, w: nat): nat
    requires idx < CPU_LOAD_IDX_MAX && InTable(missed, j) && w >= 1
    decreases missed
  {
    if missed == 0 then load else
      HalveInTable(missed, j);
      DegradeBits(if missed % 2 == 1 then Degrade(load, idx, j, w) else load, missed / 2, idx, j + 1, w)
  }

  function DecayMissed(load: nat, missed: nat, idx: nat, w: nat): nat
    requires 1 <= idx < CPU_LOAD_IDX_MAX && w >= 1
  {
    if missed == 0 then load
    else if missed >= DEGRADE_ZERO_TICKS[idx] then 0
    else if idx == 1 then Shift(load, missed)
    else
      TableWidth();
      DegradeBits(load, missed, idx, 0, w)
  }

  lemma TableWidth()
    ensures Pow2(DEGRADE_SHIFT) == 128
  {
    assert Pow2(4) == 16;
  }

  /** decay_load_missed; the bound on the missed ticks keeps the column in the table. */
  method DecayLoadMissed(load0: nat, missed0: nat, idx: nat, w: nat) returns (load: nat)
    requires 1 <= idx < CPU_LOAD_IDX_MAX && w >= 1
    ensures load == DecayMissed(load0, missed0, idx, w)
  {
    load := load0;
    if missed0 == 0 {
      return;
    }
    if missed0 >= DEGRADE_ZERO_TICKS[idx] {
      return 0;
    }
    if idx == 1 {
      return Shift(load, missed0);
    }
    TableWidth();
    var missed, j := missed0, 0;
    while missed != 0
      invariant 0 <= missed && 0 <= j && InTable(missed, j)
      invariant DegradeBits(load, missed, idx, j, w) == DegradeBits(load0, missed0, idx, 0, w)
      decreases missed
    {
      HalveInTable(missed, j);
      if missed % 2 == 1 {
        load := Shift(Wrap(load * DEGRADE_FACTOR[idx][j], w), DEGRADE_SHIFT);
      }
      missed := missed / 2;
      j := j + 1;
    }
  }

  lemma DegradeFloors(load: nat, idx: nat, j: nat, w: nat)
    requires idx < CPU_LOAD_IDX_MAX && j <= DEGRADE_SHIFT && w >= 1
    ensures DEGRADE_FACTOR[idx][j] <= 128
    ensures Degrade(load, idx, j, w) * 128 <= load * DEGRADE_FACTOR[idx][j]
    ensures load * DEGRADE_FACTOR[idx][j] < w ==> load * DEGRADE_FACTOR[idx][j] < Degrade(load, idx, j, w) * 128 + 128
  {
    TableWidth();
    WrapShrinks(load * DEGRADE_FACTOR[idx][j], w);
    ShiftFloors(Wrap(load * DEGRADE_FACTOR[idx][j], w), DEGRADE_SHIFT);
  }

  lemma DegradeBelow(load: nat, idx: nat, j: nat, w: nat)
    requires idx < CPU_LOAD_IDX_MAX && j <= DEGRADE_SHIFT && w >= 1
    ensures Degrade(load, idx, j, w) <= load
  {
    DegradeFloors(load, idx, j, w);
    MulLe(DEGRADE_FACTOR[idx][j], 128, load);
  }

  lemma {:induction false} DegradeBitsBelow(load: nat, missed: nat, idx: nat, j: nat, w: nat)
    requires idx < CPU_LOAD_IDX_MAX && InTable(missed, j) && w >= 1
    ensures DegradeBits(load, missed, idx, j, w) <= load
    decreases missed
  {
    if missed > 0 {
      HalveInTable(missed, j);
      DegradeBelow(load, idx, j, w);
      DegradeBitsBelow(if missed % 2 == 1 then Degrade(load, idx, j, w) else load, missed / 2, idx, j + 1, w);
    }
  }

  lemma {:induction false} ShiftBelow(x: nat, f: nat)
    ensures Shift(x, f) <= x
  {
    if f > 0 {
      ShiftBelow(x / 2, f - 1);
    }
  }

  /** Decay never increases a load, even where the product with the factor wraps. */
  lemma DecayBelow(load: nat, missed: nat, idx: nat, w: nat)
    requires 1 <= idx < CPU_LOAD_IDX_MAX && w >= 1
    ensures DecayMissed(load, missed, idx, w) <= load
  {
    if 0 < missed < DEGRADE_ZERO_TICKS[idx] {
      if idx == 1 {
        ShiftBelow(load, missed);
      } else {
        TableWidth();
        DegradeBitsBelow(load, missed, idx, 0, w);
      }
    }
  }

  // ----- one update -----

  /** The sum an update rounds: up if the level rises, down if it falls. */
  function Weighted(prev: nat, load: nat, scale: nat): nat
    requires scale >= 1
  {
    var rest: nat := scale - 1;
    MulLe(0, prev, rest);
    prev * rest + (if load > prev then load + rest else load)
  }

  /** Level `i` after a tick with weight `load`, from the decayed level `prev`. */
  function Blend(prev: nat, load: nat, i: nat, w: nat): nat
    requires w >= 1
  {
    Shift(Wrap(Weighted(prev, load, Pow2(i)), w), i)
  }

  function NextLevel(prev: nat, load: nat, i: nat, pending: nat, w: nat): nat
    requires i < CPU_LOAD_IDX_MAX && pending >= 1 && w >= 1
  {
    if i == 0 then load else Blend(DecayMissed(prev, pending - 1, i, w), load, i, w)
  }

  function Distance(a: nat, b: nat): nat { if a < b then b - a else a - b }

  /** The level was on one side of the weight; it stays there and closes one part
      in `scale` of its distance, rounding the distance left down. */
  ghost predicate ClosesGap(prev: nat, load: nat, scale: nat, r: nat)
    requires scale >= 1
  {
    && (prev <= load ==> prev <= r <= load) && (prev >= load ==> prev >= r >= load)
    && scale * Distance(r, load) <= (scale - 1) * Distance(prev, load) < scale * Distance(r, load) + scale
  }

  class LoadLevels {
    const cpuLoad: array<nat>
    var lastTick: nat
    var updates: nat
    const w: nat

    ghost predicate Valid() {
      cpuLoad.Length == CPU_LOAD_IDX_MAX && w >= 1
    }

    constructor (now: nat, words: nat)
      requires words >= 1
      ensures Valid() && cpuLoad[..] == [0, 0, 0, 0, 0] && lastTick == now && fresh(cpuLoad)
    {
      cpuLoad := new nat[CPU_LOAD_IDX_MAX](i => 0);
      lastTick, updates, w := now, 0, words;
    }

    /** update_cpu_load. */
    method Update(load: nat, now: nat)
      requires Valid() && now >= lastTick
      modifies `lastTick, `updates, cpuLoad
      ensures lastTick == now && updates == old(updates) + 1
      ensures now == old(lastTick) ==> cpuLoad[..] == old(cpuLoad[..])
      ensures now > old(lastTick) ==>
                forall i :: 0 <= i < CPU_LOAD_IDX_MAX ==>
                  cpuLoad[i] == NextLevel(old(cpuLoad[i]), load, i, now - old(lastTick), w)
      // what that is, where no tick was missed
      ensures now > old(lastTick) ==> cpuLoad[0] == load
      ensures now == old(lastTick) + 1 ==>
                forall i :: 1 <= i < CPU_LOAD_IDX_MAX && BlendFits(old(cpuLoad[i]), load, w) ==>
                  ClosesGap(old(cpuLoad[i]), load, [1, 2, 4, 8, 16][i], cpuLoad[i])
    {
      updates := updates + 1;
      if now == lastTick {
        return;
      }
      var pending := now - lastTick;
      lastTick := now;
      cpuLoad[0] := load;
      var i, scale := 1, 2;
      while i < CPU_LOAD_IDX_MAX
        invariant 1 <= i <= CPU_LOAD_IDX_MAX && scale == Pow2(i)
        invariant lastTick == now && updates == old(updates) + 1
        invariant forall k :: 0 <= k < i ==> cpuLoad[k] == NextLevel(old(cpuLoad[k]), load, k, pending, w)
        invariant forall k :: i <= k < CPU_LOAD_IDX_MAX ==> cpuLoad[k] == old(cpuLoad[k])
      {
        var oldLoad := DecayLoadMissed(cpuLoad[i], pending - 1, i, w);
        var newLoad := load;
        if newLoad > oldLoad {
          newLoad := newLoad + scale - 1;
        }
        cpuLoad[i] := Shift(Wrap(oldLoad * (scale - 1) + newLoad, w), i);
        i, scale := i + 1, scale + scale;
      }
      if pending == 1 {
        forall k | 1 <= k < CPU_LOAD_IDX_MAX && BlendFits(old(cpuLoad[k]), load, w)
          ensures ClosesGap(old(cpuLoad[k]), load, [1, 2, 4, 8, 16][k], cpuLoad[k])
        {
          BlendClosesGap(old(cpuLoad[k]), load, k, w);
        }
      }
    }
  }

  /** The weighted sum of an update fits an unsigned long. */
  ghost predicate BlendFits(prev: nat, load: nat, w: nat) {
    16 * Max(prev, load) + 15 < w
  }

  lemma WeightedSmall(prev: nat, load: nat, scale: nat)
    requires 1 <= scale <= 16
    ensures Weighted(prev, load, scale) <= 16 * Max(prev, load) + 15
  {
    MulLe(prev, Max(prev, load), scale - 1);
    MulLe(scale - 1, 15, Max(prev, load));
  }

  lemma QuotientToward(prev: nat, load: nat, scale: nat, r: nat)
    requires scale >= 1 && r * scale <= Weighted(prev, load, scale) < r * scale + scale
    ensures prev < load ==> prev < r <= load
    ensures prev > load ==> prev > r >= load
    ensures prev == load ==> r == load
  {
    var sum := Weighted(prev, load, scale);
    assert prev * (scale - 1) == prev * scale - prev;
    assert load * (scale - 1) == load * scale - load;
    if prev < load {
      MulLe(prev, load, scale - 1);
      assert (prev + 1) * scale == prev * scale + scale;
      QuotientAbove(r, scale, sum, prev + 1);
      QuotientBelow(r, scale, sum, load);
    } else {
      MulLe(load, prev, scale - 1);
      QuotientAbove(r, scale, sum, load);
      if load < prev {
        assert (prev - 1) * scale == prev * scale - scale;
        QuotientBelow(r, scale, sum, prev - 1);
      } else {
        QuotientBelow(r, scale, sum, load);
      }
    }
  }

  lemma Scales(i: nat)
    requires 1 <= i < CPU_LOAD_IDX_MAX
    ensures 2 <= Pow2(i) <= 16
  {
    assert Pow2(1) == 2 && Pow2(2) == 4 && Pow2(3) == 8 && Pow2(4) == 16;
  }

  /** A blend lies strictly nearer to the weight, and never past it. */
  lemma BlendToward(prev: nat, load: nat, i: nat, w: nat)
    requires 1 <= i < CPU_LOAD_IDX_MAX && BlendFits(prev, load, w)
    ensures prev < load ==> prev < Blend(prev, load, i, w) <= load
    ensures prev > load ==> prev > Blend(prev, load, i, w) >= load
    ensures prev == load ==> Blend(prev, load, i, w) == load
  {
    Scales(i);
    WeightedSmall(prev, load, Pow2(i));
    ShiftFloors(Weighted(prev, load, Pow2(i)), i);
    QuotientToward(prev, load, Pow2(i), Shift(Weighted(prev, load, Pow2(i)), i));
  }

  /** The weighted sum, less that of a level at the weight itself. */
  lemma SumGap(prev: int, load: int, scale: int, r: int)
    ensures prev * (scale - 1) + load - r * scale == scale * (load - r) - (scale - 1) * (load - prev)
  {
    calc {
      scale * (load - r) - (scale - 1) * (load - prev);
      scale * load - scale * r - (scale - 1) * load + (scale - 1) * prev;
      load - r * scale + prev * (scale - 1);
    }
  }

  lemma GapSign(prev: int, load: int, scale: int, r: int)
    ensures scale * (load - r) == -(scale * (r - load))
    ensures (scale - 1) * (load - prev) == -((scale - 1) * (prev - load))
  {
  }

  /** After a tick level i is one part in 2, 4, 8 or 16 of its distance nearer to
      the weight, the distance that is left being rounded down. */
  lemma BlendClosesGap(prev: nat, load: nat, i: nat, w: nat)
    requires 1 <= i < CPU_LOAD_IDX_MAX && BlendFits(prev, load, w)
    ensures ClosesGap(prev, load, [1, 2, 4, 8, 16][i], Blend(prev, load, i, w))
  {
    Scales(i);
    BlendToward(prev, load, i, w);
    WeightedSmall(prev, load, Pow2(i));
    ShiftFloors(Weighted(prev, load, Pow2(i)), i);
    SumGap(prev, load, Pow2(i), Blend(prev, load, i, w));
    GapSign(prev, load, Pow2(i), Blend(prev, load, i, w));
    assert Pow2(1) == 2 && Pow2(2) == 4 && Pow2(3) == 8 && Pow2(4) == 16;
  }

  /** Level i after n consecutive ticks with the same weight. */
  function Ticks(prev: nat, load: nat, i: nat, n: nat, w: nat): nat
    requires 1 <= i < CPU_LOAD_IDX_MAX && w >= 1
    decreases n
  {
    if n == 0 then prev else Ticks(NextLevel(prev, load, i, 1, w), load, i, n - 1, w)
  }

  /** With a constant weight each level reaches it exactly, within |level - weight|
      consecutive ticks, and stays there. */
  lemma {:induction false} Converges(prev: nat, load: nat, i: nat, n: nat, w: nat)
    requires 1 <= i < CPU_LOAD_IDX_MAX && BlendFits(prev, load, w) && n >= Distance(prev, load)
    ensures Ticks(prev, load, i, n, w) == load
    decreases n
  {
    BlendToward(prev, load, i, w);
    if n > 0 {
      Converges(NextLevel(prev, load, i, 1, w), load, i, n - 1, w);
    }
  }

  /** However many ticks were missed, a level ends between its decayed value and the weight. */
  lemma UpdateBounds(prev: nat, load: nat, i: nat, pending: nat, w: nat)
    requires 1 <= i < CPU_LOAD_IDX_MAX && pending >= 1 && BlendFits(prev, load, w)
    ensures NextLevel(prev, load, i, pending, w) <= Max(prev, load)
    ensures load <= DecayMissed(prev, pending - 1, i, w) ==> load <= NextLevel(prev, load, i, pending, w)
    ensures DecayMissed(prev, pending - 1, i, w) < load ==>
              DecayMissed(prev, pending - 1, i, w) < NextLevel(prev, load, i, pending, w) <= load
  {
    DecayBelow(prev, pending - 1, i, w);
    BlendToward(DecayMissed(prev, pending - 1, i, w), load, i, w);
  }
}
