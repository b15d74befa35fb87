/** Exactly how much runtime moves, and where: lending, charging, refilling and
    reclaiming one budget at a time (rt.c), each stated by inequalities on the
    budgets before and after. */
module RtLoans {
  import opened SchedConstants
  import opened RtBudget

  // ----- lending -----

  /** Processor `k` has time to spare and may lend it. */
  predicate Spare(s: Budgets, c: nat, k: nat)
    requires k < |s|
  {
    k != c && s[k].runtime != RUNTIME_INF && s[k].runtime > s[k].time
  }

  /** The loan of `k` is one n-th of its spare time, rounded down. */
  predicate FullShare(s: Budgets, t: Budgets, k: nat)
    requires k < |s| == |t|
  {
    var loan := s[k].runtime - t[k].runtime;
    loan * |s| <= s[k].runtime - s[k].time < (loan + 1) * |s|
  }

  /** The loan of `k` is at most that. */
  predicate PartShare(s: Budgets, t: Budgets, k: nat)
    requires k < |s| == |t|
  {
    var loan := s[k].runtime - t[k].runtime;
    0 <= loan && loan * |s| <= s[k].runtime - s[k].time
  }

  function Total(s: Budgets): int {
    if s == [] then 0 else s[0].runtime + Total(s[1..])
  }

  /** The loans to `c` of the processors from `i` on.  Those before `m` with spare
      time lend their full share; `m` is where the period is reached, if it is,
      and may lend less; those behind it and those without spare time lend
      nothing; and the borrower gains what the others lose. */
  ghost predicate Loans(s: Budgets, t: Budgets, c: nat, i: nat, period: int, m: nat)
    requires c < |s|
  {
    && |t| == |s| && i <= m <= |s| && Total(t) == Total(s) && s[c].runtime <= t[c].runtime <= period
    && (m < |s| ==> t[c].runtime == period && Spare(s, c, m) && PartShare(s, t, m))
    && (forall k: nat :: i <= k < m && Spare(s, c, k) ==> FullShare(s, t, k))
    && (forall k: nat :: k < |s| && k != c && (k < i || k > m || !Spare(s, c, k)) ==> t[k].runtime == s[k].runtime)
  }

  lemma {:induction false} TotalUpdate(s: Budgets, i: nat, b: Budget)
    requires i < |s|
    ensures Total(s[i := b]) == Total(s) - s[i].runtime + b.runtime
  {
    if i == 0 {
      assert s[0 := b][1..] == s[1..];
    } else {
      assert s[i := b][1..] == s[1..][i - 1 := b];
      TotalUpdate(s[1..], i - 1, b);
    }
  }

  lemma TransferTotal(s: Budgets, from: nat, to: nat, amount: int)
    requires from < |s| && to < |s| && from != to
    ensures Total(Transfer(s, from, to, amount)) == Total(s)
  {
    var mid := s[from := s[from].(runtime := s[from].runtime - amount)];
    TotalUpdate(s, from, mid[from]);
    TotalUpdate(mid, to, s[to].(runtime := s[to].runtime + amount));
  }

  lemma Quotient(a: int, n: int)
    requires n >= 1
    ensures a / n * n <= a < (a / n + 1) * n
  {
    assert (a / n + 1) * n == a / n * n + n;
  }

  lemma Smaller(x: int, y: int, n: int)
    requires x <= y && n >= 0
    ensures x * n <= y * n
  {
  }

  /** What one processor lends. */
  lemma ShareExact(s: Budgets, c: nat, i: nat, period: int)
    requires c < |s| && i < |s| && Spare(s, c, i) && s[c].runtime <= period
    ensures var x, spare := Share(s, c, i, period), s[i].runtime - s[i].time;
            && 0 <= x && x * |s| <= spare && s[c].runtime + x <= period
            && (s[c].runtime + x < period ==> spare < (x + 1) * |s|)
  {
    var spare := s[i].runtime - s[i].time;
    Quotient(spare, |s|);
    DivBounds(spare, |s|);
    if s[c].runtime + spare / |s| > period {
      Smaller(period - s[c].runtime, spare / |s|, |s|);
    }
  }

  /** The borrowing loop from processor `i` on. */
  lemma {:induction false} BorrowExact(s: Budgets, c: nat, i: nat, period: int) returns (m: nat)
    requires c < |s| && i <= |s| && s[c].runtime <= period
    ensures Loans(s, Borrow(s, c, i, period), c, i, period, m)
    decreases |s| - i
  {
    if i == |s| {
      m := i;
    } else if !Spare(s, c, i) {
      m := BorrowExact(s, c, i + 1, period);
    } else {
      var t := Transfer(s, i, c, Share(s, c, i, period));
      ShareExact(s, c, i, period);
      TransferTotal(s, i, c, Share(s, c, i, period));
      if t[c].runtime == period {
        m := i;
      } else {
        m := BorrowExact(t, c, i + 1, period);
        LoanFirst(s, t, Borrow(t, c, i + 1, period), c, i, period, m);
      }
    }
  }

  lemma LoanFirst(s: Budgets, t: Budgets, u: Budgets, c: nat, i: nat, period: int, m: nat)
    requires c < |s| == |t| && i < |s| && Spare(s, c, i) && Loans(t, u, c, i + 1, period, m)
    requires Total(t) == Total(s) && s[c].runtime <= t[c].runtime && FullShare(s, t, i)
    requires forall k :: 0 <= k < |s| && k != i && k != c ==> t[k] == s[k]
    ensures Loans(s, u, c, i, period, m)
  {
    forall k: nat | i <= k < m && Spare(s, c, k) ensures FullShare(s, u, k) {
      if k != i {
        assert Spare(t, c, k) && FullShare(t, u, k);
      }
    }
    if m < |s| {
      assert Spare(t, c, m) && PartShare(t, u, m);
    }
  }
  /** A borrower above the period, which only a change of the period can leave,
      gives all above it to the first processor with spare time. */
  lemma {:induction false} BorrowAbove(s: Budgets, c: nat, i: nat, period: int)
    requires c < |s| && i <= |s| && s[c].runtime > period
    ensures (forall k: nat :: i <= k < |s| ==> !Spare(s, c, k)) ==> Borrow(s, c, i, period) == s
    ensures forall k: nat :: i <= k < |s| && Spare(s, c, k) && (forall j: nat :: i <= j < k ==> !Spare(s, c, j)) ==>
              Borrow(s, c, i, period) ==
              s[k := s[k].(runtime := s[k].runtime + (s[c].runtime - period))][c := s[c].(runtime := period)]
    decreases |s| - i
  {
    if i < |s| && Spare(s, c, i) {
      DivBounds(s[i].runtime - s[i].time, |s|);
    } else if i < |s| {
      BorrowAbove(s, c, i + 1, period);
    }
  }

  /** balance_runtime: loans if sharing is on and the time exceeds the runtime, and
      nothing otherwise; the times and flags stay. */
  ghost predicate Balanced(s: Budgets, t: Budgets, c: nat, share: bool, time: int, period: int)
    requires c < |s|
  {
    && |t| == |s|
    && (!(share && time > s[c].runtime) ==> forall k :: 0 <= k < |s| ==> t[k].runtime == s[k].runtime)
    && (share && time > s[c].runtime ==> exists m: nat :: Loans(s, t, c, 0, period, m))
  }

  lemma BalanceExact(s: Budgets, c: nat, p: Settings)
    requires c < |s| && s[c].runtime <= p.period
    ensures Balanced(s, Balance(s, c, p), c, p.share, s[c].time, p.period)
    ensures forall k :: 0 <= k < |s| ==>
              Balance(s, c, p)[k].time == s[k].time && Balance(s, c, p)[k].throttled == s[k].throttled
  {
    BalanceTimes(s, c, p);
    if p.share && s[c].time > s[c].runtime {
      var m := BorrowExact(s, c, 0, p.period);
    }
  }

  /** Loans depend on the runtimes alone, and on the times of the lenders. */
  lemma LoansSame(s: Budgets, t: Budgets, u: Budgets, v: Budgets, c: nat, i: nat, period: int, m: nat)
    requires c < |s| == |u| && |t| == |v| && Loans(s, t, c, i, period, m)
    requires forall k :: 0 <= k < |s| ==> u[k].runtime == s[k].runtime && (k != c ==> u[k].time == s[k].time)
    requires forall k :: 0 <= k < |t| ==> v[k].runtime == t[k].runtime
    ensures Loans(u, v, c, i, period, m)
  {
    TotalSame(s, u);
    TotalSame(t, v);
    forall k: nat | i <= k < m && Spare(u, c, k) ensures FullShare(u, v, k) {
      assert Spare(s, c, k) && FullShare(s, t, k);
    }
    forall k: nat | k < |s| && k != c && (k < i || k > m || !Spare(u, c, k)) ensures v[k].runtime == u[k].runtime {
      assert Spare(s, c, k) == Spare(u, c, k);
    }
    if m < |s| {
      assert Spare(s, c, m) && PartShare(s, t, m);
    }
  }

  lemma {:induction false} TotalSame(s: Budgets, t: Budgets)
    requires |s| == |t| && forall k :: 0 <= k < |s| ==> t[k].runtime == s[k].runtime
    ensures Total(s) == Total(t)
  {
    if s != [] {
      TotalSame(s[1..], t[1..]);
    }
  }

  lemma BalancedSame(s: Budgets, t: Budgets, u: Budgets, v: Budgets, c: nat, share: bool, time: int, period: int)
    requires c < |s| == |u| && |t| == |v| && Balanced(s, t, c, share, time, period)
    requires forall k :: 0 <= k < |s| ==> u[k].runtime == s[k].runtime && (k != c ==> u[k].time == s[k].time)
    requires forall k :: 0 <= k < |t| ==> v[k].runtime == t[k].runtime
    ensures Balanced(u, v, c, share, time, period)
  {
    if share && time > s[c].runtime {
      var m: nat :| Loans(s, t, c, 0, period, m);
      LoansSame(s, t, u, v, c, 0, period, m);
    }
  }

  // ----- charging -----

  /** What a charge of `delta` does.  Without a limit nothing; a throttled processor,
      or one whose budget spans the period, is charged only; any other borrows if
      its time now exceeds its budget, and if it still does it is throttled, or with
      no runtime configured its time is forgotten. */
  ghost predicate Charged(s: Budgets, t: Budgets, c: nat, delta: nat, p: Settings)
    requires c < |s|
  {
    var due := s[c].time + delta;
    && |t| == |s|
    && (p.runtime == RUNTIME_INF || s[c].runtime == RUNTIME_INF ==> t == s)
    && (forall k :: 0 <= k < |s| && k != c ==> t[k].time == s[k].time && t[k].throttled == s[k].throttled)
    && (p.runtime != RUNTIME_INF && s[c].runtime != RUNTIME_INF && (s[c].throttled || s[c].runtime >= p.period) ==>
          t == s[c := Budget(s[c].runtime, due, s[c].throttled)])
    && (p.runtime != RUNTIME_INF && s[c].runtime != RUNTIME_INF && !s[c].throttled && s[c].runtime < p.period ==>
          && Balanced(s, t, c, p.share, due, p.period)
          && (t[c].throttled <==> due > t[c].runtime && p.runtime != 0)
          && t[c].time == if due > t[c].runtime && p.runtime == 0 then 0 else due)
  }

  lemma ChargeExact(s: Budgets, c: nat, delta: nat, p: Settings)
    requires c < |s| && p.period < RUNTIME_INF
    ensures Charged(s, Charge(s, c, delta, p), c, delta, p)
  {
    if p.runtime != RUNTIME_INF && Finite(s[c]) && !s[c].throttled && s[c].runtime < p.period {
      var u := s[c := s[c].(time := s[c].time + delta)];
      BalanceExact(u, c, p);
      BalancedSame(u, Balance(u, c, p), s, Charge(s, c, delta, p), c, p.share, s[c].time + delta, p.period);
    }
  }

  // ----- refilling -----

  /** While the product fits 64 bits, a period timer that fires after `overrun`
      periods pays back as many budgets, as far as there is time to pay back. */
  lemma RefillExact(b: Budget, overrun: nat)
    requires b.time >= 0 && b.runtime >= 0 && overrun * b.runtime < 0x1_0000_0000_0000_0000
    ensures var t := Refill(b, overrun);
            && t.runtime == b.runtime
            && t.time == (if b.time <= overrun * b.runtime then 0 else b.time - overrun * b.runtime)
            && (t.throttled <==> b.throttled && t.time >= b.runtime)
  {
  }

  /** What the timer does on a processor: nothing without time to pay back; or
      else a throttled one first borrows, and then the time is paid back and the
      flag cleared if the time is below the budget. */
  ghost predicate Visited(s: Budgets, t: Budgets, c: nat, overrun: nat, p: Settings)
    requires c < |s|
  {
    && |t| == |s|
    && (forall k :: 0 <= k < |s| && k != c ==> t[k].time == s[k].time && t[k].throttled == s[k].throttled)
    && Balanced(s, t, c, p.share && s[c].throttled, s[c].time, p.period)
    && t[c].time == (if s[c].time <= overrun * t[c].runtime then 0 else s[c].time - overrun * t[c].runtime)
    && (t[c].throttled <==> s[c].throttled && (s[c].time == 0 || t[c].time >= t[c].runtime))
  }

  lemma TimerOneExact(s: Budgets, c: nat, overrun: nat, p: Settings)
    requires c < |s| && s[c].time >= 0 && 0 <= s[c].runtime <= p.period
    requires overrun * p.period < 0x1_0000_0000_0000_0000
    ensures Visited(s, TimerOne(s, c, overrun, p), c, overrun, p)
  {
    var u := if s[c].throttled then Balance(s, c, p) else s;
    BalanceExact(s, c, p);
    BorrowerBelow(s, u, c, p);
    Smaller(u[c].runtime, p.period, overrun);
    assert overrun * u[c].runtime == u[c].runtime * overrun;
    if s[c].time != 0 {
      RefillExact(u[c], overrun);
      BalancedSame(s, u, s, TimerOne(s, c, overrun, p), c, p.share && s[c].throttled, s[c].time, p.period);
    }
  }

  lemma BorrowerBelow(s: Budgets, t: Budgets, c: nat, p: Settings)
    requires c < |s| && 0 <= s[c].runtime <= p.period && (t == s || t == Balance(s, c, p))
    ensures |t| == |s| && 0 <= t[c].runtime <= p.period
  {
    BalanceExact(s, c, p);
  }

  // ----- reclaiming -----

  /** The greedy loop, one budget at a time: wanting runtime it takes from each
      finite budget in turn all of it or what is still wanted; giving back it
      gives everything to the first one. */
  lemma {:induction false} ReclaimEach(s: Budgets, c: nat, i: nat, want: int, k: nat)
    requires NonNegative(s) && c < |s| && i <= |s| && want != 0 && k < |s|
    ensures var taken := s[k].runtime - Reclaim(s, c, i, want).0[k].runtime;
            && (k < i || k == c || s[k].runtime == RUNTIME_INF ==> taken == 0)
            && (i <= k && k != c && s[k].runtime != RUNTIME_INF && want > 0 ==>
                  var rest := want - (Available(s, c, i) - Available(s, c, k));
                  taken == if rest <= 0 then 0 else if rest <= s[k].runtime then rest else s[k].runtime)
            && (i <= k && k != c && s[k].runtime != RUNTIME_INF && want < 0 ==>
                  taken == if Others(s, c, i) == Others(s, c, k) then want else 0)
    decreases |s| - i
  {
    if i < |s| {
      if i == c || !Finite(s[i]) {
        ReclaimEach(s, c, i + 1, want, k);
      } else {
        var diff := if want > 0 then Min(s[i].runtime, want) else want;
        var t := s[i := s[i].(runtime := s[i].runtime - diff)];
        AvailableSame(s, t, c, i + 1);
        if k > i {
          AvailableSame(s, t, c, k);
          AvailableFalls(s, c, i + 1, k);
        }
        if want - diff != 0 {
          ReclaimEach(t, c, i + 1, want - diff, k);
        }
      }
    }
  }

  lemma {:induction false} AvailableFalls(s: Budgets, c: nat, i: nat, k: nat)
    requires NonNegative(s) && i <= k <= |s|
    ensures Available(s, c, i) >= Available(s, c, k) && Others(s, c, i) >= Others(s, c, k)
    decreases k - i
  {
    if i < k {
      AvailableFalls(s, c, i + 1, k);
    }
  }

  /** Disabling: what was borrowed or lent is settled with the others in that way,
      and the budget itself becomes unlimited; no time and no flag changes. */
  predicate Settled(s: Budgets, t: Budgets, c: nat, p: Settings)
    requires c < |s|
  {
    && |t| == |s|
    && t[c] == Budget(0xFFFF_FFFF_FFFF_FFFF, s[c].time, s[c].throttled)
    && (forall k :: 0 <= k < |s| ==> t[k].time == s[k].time && t[k].throttled == s[k].throttled)
    && forall k: nat :: k < |s| && k != c ==>
         var taken, want := s[k].runtime - t[k].runtime, p.runtime - s[c].runtime;
         taken == if s[c].runtime == RUNTIME_INF || want == 0 || s[k].runtime == RUNTIME_INF then 0
                  else if want < 0 then if Others(s, c, 0) == Others(s, c, k) then want else 0
                  else var rest := want - (Available(s, c, 0) - Available(s, c, k));
                    if rest <= 0 then 0 else if rest <= s[k].runtime then rest else s[k].runtime
  }

  lemma DisableExact(s: Budgets, c: nat, p: Settings)
    requires Conserved(s, p) && c < |s|
    ensures Settled(s, Disable(s, c, p), c, p)
  {
    SumBounds(s);
    Multiples(Count(s), |s|, p.runtime);
    if Finite(s[c]) && s[c].runtime != p.runtime {
      var want := p.runtime - s[c].runtime;
      assert Amount(s[c]) <= Sum(s);
      ReclaimMoves(s, c, 0, want, 2 * S64_MAX);
      forall k: nat | k < |s| && k != c
        ensures var taken := s[k].runtime - Reclaim(s, c, 0, want).0[k].runtime;
                taken == if s[k].runtime == RUNTIME_INF then 0
                         else if want < 0 then if Others(s, c, 0) == Others(s, c, k) then want else 0
                         else var rest := want - (Available(s, c, 0) - Available(s, c, k));
                           if rest <= 0 then 0 else if rest <= s[k].runtime then rest else s[k].runtime
      {
        ReclaimEach(s, c, 0, want, k);
      }
    }
  }
}
