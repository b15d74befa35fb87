/** The real-time budgets of the processors that share one rt_bandwidth (rt.c,
    the branch without CONFIG_RT_GROUP_SCHED, one root domain): what each
    operation does to them, as functions on values. */
module RtBudget {
  import opened SchedConstants

  /** rt_runtime, rt_time and rt_throttled of one rt_rq. */
  datatype Budget = Budget(runtime: int, time: int, throttled: bool)

  /** def_rt_bandwidth and the scheduler feature RT_RUNTIME_SHARE. */
  datatype Settings = Settings(period: int, runtime: int, share: bool)

  type Budgets = seq<Budget>

  predicate Finite(b: Budget) { b.runtime != RUNTIME_INF }

  function Min(a: int, b: int): int { if a < b then a else b }

  // ----- borrowing -----

  /** What processor `c` takes from processor `i` in do_balance_runtime. */
  function Share(s: Budgets, c: nat, i: nat, period: int): int
    requires c < |s| && i < |s|
  {
    var part := (s[i].runtime - s[i].time) / |s|;
    if s[c].runtime + part > period then period - s[c].runtime else part
  }

  predicate Lends(s: Budgets, c: nat, i: nat)
    requires c < |s| && i < |s|
  {
    i != c && Finite(s[i]) && s[i].runtime - s[i].time > 0
  }

  function Transfer(s: Budgets, from: nat, to: nat, amount: int): (t: Budgets)
    requires from < |s| && to < |s| && from != to
    ensures |t| == |s|
  {
    s[from := s[from].(runtime := s[from].runtime - amount)][to := s[to].(runtime := s[to].runtime + amount)]
  }

  /** The loop of do_balance_runtime from processor `i` on. */
  function Borrow(s: Budgets, c: nat, i: nat, period: int): (t: Budgets)
    requires c < |s| && i <= |s|
    ensures |t| == |s|
    decreases |s| - i
  {
    if i == |s| then s
    else if !Lends(s, c, i) then Borrow(s, c, i + 1, period)
    else
      var t := Transfer(s, i, c, Share(s, c, i, period));
      if t[c].runtime == period then t else Borrow(t, c, i + 1, period)
  }

  /** balance_runtime. */
  function Balance(s: Budgets, c: nat, p: Settings): (t: Budgets)
    requires c < |s|
    ensures |t| == |s|
  {
    if p.share && s[c].time > s[c].runtime then Borrow(s, c, 0, p.period) else s
  }

  // ----- charging -----

  /** sched_rt_runtime_exceeded; the second component is its result. */
  function Exceeded(s: Budgets, c: nat, p: Settings): (r: (Budgets, bool))
    requires c < |s|
    ensures |r.0| == |s|
  {
    if s[c].throttled then (s, true)
    else if s[c].runtime >= p.period then (s, false)
    else
      var t := Balance(s, c, p);
      if !Finite(t[c]) || t[c].time <= t[c].runtime then (t, false)
      else if p.runtime != 0 then (t[c := t[c].(throttled := true)], true)
      else (t[c := t[c].(time := 0)], false)
  }

  /** The accounting part of update_curr_rt for a real-time task that ran for
      `delta` on processor `c`. */
  function Charge(s: Budgets, c: nat, delta: nat, p: Settings): (t: Budgets)
    requires c < |s|
    ensures |t| == |s|
  {
    if p.runtime == RUNTIME_INF || !Finite(s[c]) then s
    else Exceeded(s[c := s[c].(time := s[c].time + delta)], c, p).0
  }

  // ----- the period timer -----

  /** The refill of one rt_rq: time is paid back at `runtime` per overrun, in u64
      arithmetic, and the flag is cleared only below the budget. */
  function Refill(b: Budget, overrun: nat): Budget {
    var time := b.time - Min(b.time, overrun * b.runtime % U64);
    b.(time := time, throttled := b.throttled && time >= b.runtime)
  }

  function TimerOne(s: Budgets, c: nat, overrun: nat, p: Settings): (t: Budgets)
    requires c < |s|
    ensures |t| == |s|
  {
    if s[c].time == 0 then s else
      var t := if s[c].throttled then Balance(s, c, p) else s;
      t[c := Refill(t[c], overrun)]
  }

  /** do_sched_rt_period_timer from processor `c` on; it visits the online ones. */
  function Timer(s: Budgets, c: nat, overrun: nat, online: set<nat>, p: Settings): (t: Budgets)
    requires c <= |s|
    ensures |t| == |s|
    decreases |s| - c
  {
    if c == |s| then s
    else Timer(if c in online then TimerOne(s, c, overrun, p) else s, c + 1, overrun, online, p)
  }

  // ----- hotplug -----

  /** The greedy loop of __disable_runtime from processor `i` on, and what is
      still wanted after it. */
  function Reclaim(s: Budgets, c: nat, i: nat, want: int): (r: (Budgets, int))
    requires c < |s| && i <= |s|
    ensures |r.0| == |s|
    decreases |s| - i
  {
    if i == |s| then (s, want)
    else if i == c || !Finite(s[i]) then Reclaim(s, c, i + 1, want)
    else
      var diff := if want > 0 then Min(s[i].runtime, want) else want;
      var t := s[i := s[i].(runtime := s[i].runtime - diff)];
      if want - diff == 0 then (t, 0) else Reclaim(t, c, i + 1, want - diff)
  }

  /** The condition of BUG_ON(want) in __disable_runtime. */
  predicate Leaks(s: Budgets, c: nat, p: Settings)
    requires c < |s|
  {
    Finite(s[c]) && s[c].runtime != p.runtime && Reclaim(s, c, 0, p.runtime - s[c].runtime).1 != 0
  }

  function Disable(s: Budgets, c: nat, p: Settings): (t: Budgets)
    requires c < |s|
    ensures |t| == |s|
  {
    var t := if !Finite(s[c]) || s[c].runtime == p.runtime then s
             else Reclaim(s, c, 0, p.runtime - s[c].runtime).0;
    t[c := t[c].(runtime := RUNTIME_INF)]
  }

  function Enable(s: Budgets, c: nat, p: Settings): (t: Budgets)
    requires c < |s|
    ensures |t| == |s|
  {
    s[c := Budget(p.runtime, 0, false)]
  }

  // ----- sums -----

  function Amount(b: Budget): int { if Finite(b) then b.runtime else 0 }

  function Sum(s: Budgets): int {
    if s == [] then 0 else Amount(s[0]) + Sum(s[1..])
  }

  function Count(s: Budgets): nat {
    if s == [] then 0 else (if Finite(s[0]) then 1 else 0) + Count(s[1..])
  }

  lemma {:induction false} SumUpdate(s: Budgets, i: nat, b: Budget)
    requires i < |s|
    ensures Sum(s[i := b]) == Sum(s) - Amount(s[i]) + Amount(b)
    ensures Count(s[i := b]) == Count(s) - (if Finite(s[i]) then 1 else 0) + (if Finite(b) then 1 else 0)
  {
    if i == 0 {
      assert s[0 := b][1..] == s[1..];
    } else {
      assert s[i := b][1..] == s[1..][i - 1 := b];
      SumUpdate(s[1..], i - 1, b);
    }
  }

  predicate NonNegative(s: Budgets) {
    forall i :: 0 <= i < |s| ==> s[i].runtime >= 0 && s[i].time >= 0
  }

  lemma {:induction false} SumBounds(s: Budgets)
    requires NonNegative(s)
    ensures Sum(s) >= 0 && Count(s) <= |s|
    ensures forall i :: 0 <= i < |s| ==> Amount(s[i]) <= Sum(s) && (Finite(s[i]) ==> Count(s) >= 1)
    ensures forall i, j :: 0 <= i < j < |s| ==> Amount(s[i]) + Amount(s[j]) <= Sum(s)
  {
    if s != [] {
      SumBounds(s[1..]);
      forall i | 0 <= i < |s| ensures Amount(s[i]) <= Sum(s) && (Finite(s[i]) ==> Count(s) >= 1) {
        if i > 0 {
          assert s[i] == s[1..][i - 1];
        }
      }
      forall i, j | 0 <= i < j < |s| ensures Amount(s[i]) + Amount(s[j]) <= Sum(s) {
        assert s[j] == s[1..][j - 1];
        if i > 0 {
          assert s[i] == s[1..][i - 1];
        }
      }
    }
  }

  // ----- conservation -----

  /** Values that the kernel's types can hold without a wrap. */
  predicate Sane(n: nat, p: Settings) {
    0 <= p.runtime && 0 <= p.period <= S64_MAX && n * p.runtime <= S64_MAX
  }

  /** No runtime is created or lost: the finite budgets sum to their number times
      the configured runtime, and none is negative. */
  predicate Conserved(s: Budgets, p: Settings) {
    Sane(|s|, p) && NonNegative(s) && Sum(s) == Count(s) * p.runtime
  }

  lemma TransferConserves(s: Budgets, from: nat, to: nat, amount: int, p: Settings)
    requires Conserved(s, p) && from < |s| && to < |s| && from != to && Finite(s[from]) && Finite(s[to])
    requires amount <= s[from].runtime && s[to].runtime + amount >= 0
    ensures Conserved(Transfer(s, from, to, amount), p)
    ensures forall i :: 0 <= i < |s| ==> Finite(Transfer(s, from, to, amount)[i]) == Finite(s[i])
  {
    SumBounds(s);
    assert Amount(s[from]) + Amount(s[to]) <= Sum(s);
    Multiples(Count(s), |s|, p.runtime);
    var mid := s[from := s[from].(runtime := s[from].runtime - amount)];
    SumUpdate(s, from, mid[from]);
    SumUpdate(mid, to, s[to].(runtime := s[to].runtime + amount));
  }

  lemma Multiples(a: nat, b: nat, r: int)
    requires a <= b && r >= 0
    ensures 0 <= a * r <= b * r
  {
  }

  lemma {:induction false} BorrowConserves(s: Budgets, c: nat, i: nat, p: Settings)
    requires Conserved(s, p) && c < |s| && i <= |s| && Finite(s[c])
    ensures Conserved(Borrow(s, c, i, p.period), p)
    ensures forall k :: 0 <= k < |s| ==> Finite(Borrow(s, c, i, p.period)[k]) == Finite(s[k])
    decreases |s| - i
  {
    if i < |s| {
      if Lends(s, c, i) {
        ShareBounds(s, c, i, p.period);
        TransferConserves(s, i, c, Share(s, c, i, p.period), p);
        BorrowConserves(Transfer(s, i, c, Share(s, c, i, p.period)), c, i + 1, p);
      } else {
        BorrowConserves(s, c, i + 1, p);
      }
    }
  }

  /** The share is at most the lender's spare time, and brings the borrower to at
      most the period. */
  lemma ShareBounds(s: Budgets, c: nat, i: nat, period: int)
    requires c < |s| && i < |s| && Lends(s, c, i) && period >= 0
    ensures Share(s, c, i, period) <= s[i].runtime - s[i].time
    ensures s[c].runtime + Share(s, c, i, period) >= Min(s[c].runtime, period)
    ensures s[c].runtime + Share(s, c, i, period) <= period
    ensures s[c].runtime <= period ==> Share(s, c, i, period) >= 0
  {
    var spare := s[i].runtime - s[i].time;
    DivBounds(spare, |s|);
  }

  lemma DivBounds(a: int, n: int)
    requires a > 0 && n >= 1
    ensures 0 <= a / n <= a
  {
    assert a / n * n <= a;
  }

  lemma BalanceConserves(s: Budgets, c: nat, p: Settings)
    requires Conserved(s, p) && c < |s| && (s[c].time > s[c].runtime ==> Finite(s[c]))
    ensures Conserved(Balance(s, c, p), p)
    ensures forall k :: 0 <= k < |s| ==> Finite(Balance(s, c, p)[k]) == Finite(s[k])
  {
    if p.share && s[c].time > s[c].runtime {
      BorrowConserves(s, c, 0, p);
    }
  }

  lemma SameRuntime(s: Budgets, c: nat, b: Budget, p: Settings)
    requires Conserved(s, p) && c < |s| && b.runtime == s[c].runtime && b.time >= 0
    ensures Conserved(s[c := b], p)
  {
    SumUpdate(s, c, b);
  }

  lemma ChargeConserves(s: Budgets, c: nat, delta: nat, p: Settings)
    requires Conserved(s, p) && c < |s|
    ensures Conserved(Charge(s, c, delta, p), p)
  {
    if p.runtime != RUNTIME_INF && Finite(s[c]) {
      var t := s[c := s[c].(time := s[c].time + delta)];
      SameRuntime(s, c, t[c], p);
      BalanceConserves(t, c, p);
      var u := Balance(t, c, p);
      SameRuntime(u, c, u[c].(throttled := true), p);
      SameRuntime(u, c, u[c].(time := 0), p);
    }
  }

  /** A runtime of RUNTIME_INF is above every time the clock can reach. */
  predicate Clocked(s: Budgets) {
    forall i :: 0 <= i < |s| ==> s[i].time <= S64_MAX
  }

  lemma TimerOneConserves(s: Budgets, c: nat, overrun: nat, p: Settings)
    requires Conserved(s, p) && Clocked(s) && c < |s|
    ensures Conserved(TimerOne(s, c, overrun, p), p) && Clocked(TimerOne(s, c, overrun, p))
  {
    if s[c].time != 0 {
      var t := if s[c].throttled then Balance(s, c, p) else s;
      BalanceConserves(s, c, p);
      BalanceTimes(s, c, p);
      SameRuntime(t, c, Refill(t[c], overrun), p);
    }
  }

  lemma {:induction false} BorrowTimes(s: Budgets, c: nat, i: nat, period: int)
    requires c < |s| && i <= |s|
    ensures forall k :: 0 <= k < |s| ==>
              Borrow(s, c, i, period)[k].time == s[k].time && Borrow(s, c, i, period)[k].throttled == s[k].throttled
    decreases |s| - i
  {
    if i < |s| {
      if Lends(s, c, i) {
        BorrowTimes(Transfer(s, i, c, Share(s, c, i, period)), c, i + 1, period);
      } else {
        BorrowTimes(s, c, i + 1, period);
      }
    }
  }

  /** Borrowing moves runtime and nothing else. */
  lemma BalanceTimes(s: Budgets, c: nat, p: Settings)
    requires c < |s|
    ensures forall k :: 0 <= k < |s| ==>
              Balance(s, c, p)[k].time == s[k].time && Balance(s, c, p)[k].throttled == s[k].throttled
  {
    BorrowTimes(s, c, 0, p.period);
  }

  lemma {:induction false} TimerConserves(s: Budgets, c: nat, overrun: nat, online: set<nat>, p: Settings)
    requires Conserved(s, p) && Clocked(s) && c <= |s|
    ensures Conserved(Timer(s, c, overrun, online, p), p) && Clocked(Timer(s, c, overrun, online, p))
    decreases |s| - c
  {
    if c < |s| {
      TimerOneConserves(s, c, overrun, p);
      TimerConserves(if c in online then TimerOne(s, c, overrun, p) else s, c + 1, overrun, online, p);
    }
  }

  // ----- hotplug conserves -----

  /** What the other finite budgets from `i` on could give back. */
  function Available(s: Budgets, c: nat, i: nat): int
    requires i <= |s|
    decreases |s| - i
  {
    if i == |s| then 0 else (if i == c then 0 else Amount(s[i])) + Available(s, c, i + 1)
  }

  function Others(s: Budgets, c: nat, i: nat): nat
    requires i <= |s|
    decreases |s| - i
  {
    if i == |s| then 0 else (if i != c && Finite(s[i]) then 1 else 0) + Others(s, c, i + 1)
  }

  lemma {:induction false} AvailableIsRest(s: Budgets, c: nat, i: nat)
    requires c < |s| && i <= |s|
    ensures Available(s, c, i) == Sum(s[i..]) - if i <= c then Amount(s[c]) else 0
    ensures Others(s, c, i) == Count(s[i..]) - if i <= c && Finite(s[c]) then 1 else 0
    decreases |s| - i
  {
    if i < |s| {
      assert s[i..][1..] == s[i + 1..];
      AvailableIsRest(s, c, i + 1);
    }
  }

  lemma {:induction false} AvailableSame(s: Budgets, t: Budgets, c: nat, i: nat)
    requires |s| == |t| && i <= |s| && forall k :: i <= k < |s| ==> s[k] == t[k]
    ensures Available(s, c, i) == Available(t, c, i) && Others(s, c, i) == Others(t, c, i)
    decreases |s| - i
  {
    if i < |s| {
      AvailableSame(s, t, c, i + 1);
    }
  }

  lemma {:induction false} AvailablePositive(s: Budgets, c: nat, i: nat)
    requires NonNegative(s) && i <= |s|
    ensures Available(s, c, i) >= 0
    decreases |s| - i
  {
    if i < |s| {
      AvailablePositive(s, c, i + 1);
    }
  }

  /** The greedy loop is exact: it takes what is wanted if that is available, and
      gives back all at once if any other budget is finite. */
  lemma {:induction false} ReclaimExact(s: Budgets, c: nat, i: nat, want: int)
    requires NonNegative(s) && c < |s| && i <= |s| && want != 0
    ensures want > 0 && want <= Available(s, c, i) ==> Reclaim(s, c, i, want).1 == 0
    ensures want > 0 && want > Available(s, c, i) ==> Reclaim(s, c, i, want).1 == want - Available(s, c, i)
    ensures want < 0 ==> Reclaim(s, c, i, want).1 == if Others(s, c, i) > 0 then 0 else want
    decreases |s| - i
  {
    if i < |s| {
      if i == c || !Finite(s[i]) {
        ReclaimExact(s, c, i + 1, want);
      } else {
        var diff := if want > 0 then Min(s[i].runtime, want) else want;
        var t := s[i := s[i].(runtime := s[i].runtime - diff)];
        AvailableSame(s, t, c, i + 1);
        AvailablePositive(s, c, i + 1);
        if want - diff != 0 {
          ReclaimExact(t, c, i + 1, want - diff);
        }
      }
    }
  }

  /** It moves exactly what it stops wanting, and touches no flag and no time. */
  lemma {:induction false} ReclaimMoves(s: Budgets, c: nat, i: nat, want: int, limit: int)
    requires NonNegative(s) && c < |s| && i <= |s|
    requires Sum(s) - Min(want, 0) <= limit < RUNTIME_INF
    ensures var r := Reclaim(s, c, i, want);
            && NonNegative(r.0) && Sum(r.0) == Sum(s) - (want - r.1) && Count(r.0) == Count(s)
            && r.0[c] == s[c] && (want < 0 ==> want <= r.1 <= 0) && (want >= 0 ==> 0 <= r.1 <= want)
            && forall k :: 0 <= k < |s| ==> r.0[k].time == s[k].time && r.0[k].throttled == s[k].throttled
                                            && Finite(r.0[k]) == Finite(s[k])
    decreases |s| - i
  {
    if i < |s| {
      if i == c || !Finite(s[i]) {
        ReclaimMoves(s, c, i + 1, want, limit);
      } else {
        var diff := if want > 0 then Min(s[i].runtime, want) else want;
        var t := s[i := s[i].(runtime := s[i].runtime - diff)];
        SumBounds(s);
        SumUpdate(s, i, t[i]);
        if want - diff != 0 {
          ReclaimMoves(t, c, i + 1, want - diff, limit);
        }
      }
    }
  }

  /** BUG_ON(want) is unreachable while runtime is conserved. */
  lemma NeverLeaks(s: Budgets, c: nat, p: Settings)
    requires Conserved(s, p) && c < |s|
    ensures !Leaks(s, c, p)
  {
    if Finite(s[c]) && s[c].runtime != p.runtime {
      var want := p.runtime - s[c].runtime;
      ReclaimExact(s, c, 0, want);
      AvailableIsRest(s, c, 0);
      assert s[0..] == s;
      SumBounds(s);
      assert Amount(s[c]) <= Sum(s);
      if Count(s) == 1 {
        assert Sum(s) == p.runtime;
      }
      Multiples(1, Count(s), p.runtime);
    }
  }

  lemma DisableConserves(s: Budgets, c: nat, p: Settings)
    requires Conserved(s, p) && c < |s|
    ensures Conserved(Disable(s, c, p), p) && !Finite(Disable(s, c, p)[c])
  {
    NeverLeaks(s, c, p);
    var t := s;
    SumBounds(s);
    Multiples(Count(s), |s|, p.runtime);
    if Finite(s[c]) && s[c].runtime != p.runtime {
      var want := p.runtime - s[c].runtime;
      assert Amount(s[c]) <= Sum(s);
      assert Sum(s) - Min(want, 0) <= 2 * S64_MAX;
      ReclaimMoves(s, c, 0, want, 2 * S64_MAX);
      t := Reclaim(s, c, 0, want).0;
      assert Sum(t) == Sum(s) - want;
    }
    SumUpdate(t, c, t[c].(runtime := RUNTIME_INF));
    OneLess(Count(s), p.runtime);
  }

  lemma OneLess(n: int, r: int)
    ensures (n - 1) * r == n * r - r
  {
  }

  /** Enabling keeps the sum exactly when the runqueue was disabled, or had just
      its configured runtime. */
  lemma EnableConserves(s: Budgets, c: nat, p: Settings)
    requires Conserved(s, p) && c < |s| && p.runtime < RUNTIME_INF
    ensures Conserved(Enable(s, c, p), p) <==> !Finite(s[c]) || s[c].runtime == p.runtime
    ensures var b := Enable(s, c, p)[c]; b.runtime == p.runtime && b.time == 0 && !b.throttled
    ensures forall k :: 0 <= k < |s| && k != c ==> Enable(s, c, p)[k] == s[k]
  {
    SumUpdate(s, c, Budget(p.runtime, 0, false));
    assert (Count(s) + 1) * p.runtime == Count(s) * p.runtime + p.runtime;
  }

  /** Enabling an enabled processor that has borrowed loses the borrowed runtime,
      and two disables later the greedy loop is left wanting. */
  lemma DoubleEnableLeaks()
    ensures var p := Settings(20, 10, true);
            var s := Charge([Budget(10, 0, false), Budget(10, 0, false)], 0, 12, p);
            && Conserved(s, p)
            && !Conserved(Enable(s, 0, p), p)
            && Leaks(Disable(Enable(s, 0, p), 1, p), 0, p)
  {
    var p := Settings(20, 10, true);
    var b := [Budget(10, 12, false), Budget(10, 0, false)];
    var s := [Budget(15, 12, false), Budget(5, 0, false)];
    assert [Budget(10, 0, false), Budget(10, 0, false)][0 := Budget(10, 12, false)] == b;
    assert Transfer(b, 1, 0, 5) == s;
    assert Borrow(s, 0, 2, 20) == s;
    assert Borrow(b, 0, 1, 20) == s;
    assert Borrow(b, 0, 0, 20) == s;
    assert s[1..][0] == Budget(5, 0, false);
    assert Sum(s) == 20 && Count(s) == 2;
    EnableConserves(s, 0, p);
    var t := Enable(s, 0, p);
    assert t == [Budget(10, 0, false), Budget(5, 0, false)];
    assert t[0 := t[0].(runtime := t[0].runtime - Min(10, 5))] == [Budget(5, 0, false), Budget(5, 0, false)];
    assert Reclaim(t, 1, 0, 5) == ([Budget(5, 0, false), Budget(5, 0, false)], 0);
    var u := Disable(t, 1, p);
    assert u == [Budget(5, 0, false), Budget(RUNTIME_INF, 0, false)];
    assert Reclaim(u, 0, 2, 5) == (u, 5);
    assert Reclaim(u, 0, 1, 5) == (u, 5);
    assert Reclaim(u, 0, 0, 5) == (u, 5);
  }

  // ----- runs with hotplug -----

  datatype Event =
    | Ran(c: nat, delta: nat)
    | Period(overrun: nat, online: set<nat>)
    | Offline(c: nat)
    | Online(c: nat)

  /** A processor comes online only after it went offline, and the clock does not
      outrun a signed 64-bit time.  The timer visits any set of processors. */
  predicate Enabled(s: Budgets, v: Event) {
    match v
    case Ran(c, delta) => c < |s| && s[c].time + delta <= S64_MAX
    case Period(_, _) => true
    case Offline(c) => c < |s|
    case Online(c) => c < |s| && !Finite(s[c])
  }

  function Step(s: Budgets, v: Event, p: Settings): (t: Budgets)
    requires Enabled(s, v)
    ensures |t| == |s|
  {
    match v
    case Ran(c, delta) => Charge(s, c, delta, p)
    case Period(overrun, online) => Timer(s, 0, overrun, online, p)
    case Offline(c) => Disable(s, c, p)
    case Online(c) => Enable(s, c, p)
  }

  predicate AllEnabled(s: Budgets, run: seq<Event>, p: Settings)
    decreases |run|
  {
    run == [] || (Enabled(s, run[0]) && AllEnabled(Step(s, run[0], p), run[1..], p))
  }

  function Final(s: Budgets, run: seq<Event>, p: Settings): Budgets
    requires AllEnabled(s, run, p)
    decreases |run|
  {
    if run == [] then s else Final(Step(s, run[0], p), run[1..], p)
  }

  lemma ChargeClocked(s: Budgets, c: nat, delta: nat, p: Settings)
    requires Clocked(s) && c < |s| && s[c].time + delta <= S64_MAX
    ensures Clocked(Charge(s, c, delta, p))
  {
    BalanceTimes(s[c := s[c].(time := s[c].time + delta)], c, p);
  }

  lemma DisableClocked(s: Budgets, c: nat, p: Settings)
    requires Conserved(s, p) && Clocked(s) && c < |s|
    ensures Clocked(Disable(s, c, p))
  {
    SumBounds(s);
    Multiples(Count(s), |s|, p.runtime);
    if Finite(s[c]) && s[c].runtime != p.runtime {
      assert Amount(s[c]) <= Sum(s);
      ReclaimMoves(s, c, 0, p.runtime - s[c].runtime, 2 * S64_MAX);
    }
  }

  lemma StepConserves(s: Budgets, v: Event, p: Settings)
    requires Conserved(s, p) && Clocked(s) && Enabled(s, v) && p.runtime < RUNTIME_INF
    ensures Conserved(Step(s, v, p), p) && Clocked(Step(s, v, p))
  {
    match v
    case Ran(c, delta) =>
      ChargeConserves(s, c, delta, p);
      ChargeClocked(s, c, delta, p);
    case Period(overrun, online) => TimerConserves(s, 0, overrun, online, p);
    case Offline(c) =>
      DisableConserves(s, c, p);
      DisableClocked(s, c, p);
    case Online(c) => EnableConserves(s, c, p);
  }

  /** Over every run of charges, periods, offlines and onlines, runtime is
      conserved and no disable in the final state would leak. */
  lemma {:induction false} RunConserves(s: Budgets, run: seq<Event>, p: Settings)
    requires Conserved(s, p) && Clocked(s) && AllEnabled(s, run, p) && p.runtime < RUNTIME_INF
    ensures Conserved(Final(s, run, p), p)
    ensures forall c: nat :: c < |Final(s, run, p)| ==> !Leaks(Final(s, run, p), c, p)
    decreases |run|
  {
    if run == [] {
      forall c: nat | c < |s| ensures !Leaks(s, c, p) {
        NeverLeaks(s, c, p);
      }
    } else {
      StepConserves(s, run[0], p);
      RunConserves(Step(s, run[0], p), run[1..], p);
    }
  }

  function Boot(n: nat, p: Settings): Budgets {
    seq(n, i => Budget(p.runtime, 0, false))
  }

  lemma {:induction false} BootConserved(n: nat, p: Settings)
    requires Sane(n, p) && p.runtime < RUNTIME_INF
    ensures Conserved(Boot(n, p), p) && Clocked(Boot(n, p))
  {
    if n > 0 {
      Multiples(n - 1, n, p.runtime);
      BootConserved(n - 1, p);
      assert Boot(n, p)[1..] == Boot(n - 1, p);
      assert n * p.runtime == (n - 1) * p.runtime + p.runtime;
      BootCount(n, p);
    }
  }

  lemma {:induction false} BootCount(n: nat, p: Settings)
    requires p.runtime < RUNTIME_INF
    ensures Count(Boot(n, p)) == n
  {
    if n > 0 {
      BootCount(n - 1, p);
      assert Boot(n, p)[1..] == Boot(n - 1, p);
    }
  }
}
