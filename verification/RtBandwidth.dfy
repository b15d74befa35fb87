/** The budgets in memory: one rt_rq per processor, updated in place by the loops
    of rt.c, each method proved against its function on values. */
module RtBandwidth {
  import opened SchedConstants
  import opened RtBudget
  import opened RtLoans
  import opened RtThrottle

  class Bandwidth {
    const settings: Settings
    const rq: array<Budget>

    constructor (n: nat, settings: Settings)
      requires Sane(n, settings) && settings.runtime < RUNTIME_INF
      ensures this.settings == settings && fresh(rq)
      ensures rq[..] == Boot(n, settings) && Conserved(rq[..], settings)
      ensures rq.Length == n && forall i :: 0 <= i < n ==> rq[i] == Budget(settings.runtime, 0, false)
    {
      this.settings := settings;
      rq := new Budget[n](i => Budget(settings.runtime, 0, false));
      new;
      assert rq[..] == Boot(n, settings);
      BootConserved(n, settings);
    }

    /** `more` tells whether anything could be borrowed. */
    method DoBalanceRuntime(c: nat) returns (more: bool)
      requires c < rq.Length
      modifies rq
      ensures rq[..] == Borrow(old(rq[..]), c, 0, settings.period)
      // what that is: every lender lends one n-th of its spare time, until the period is reached
      ensures old(rq[c].runtime) <= settings.period ==>
                exists m: nat :: Loans(old(rq[..]), rq[..], c, 0, settings.period, m)
      ensures old(rq[c].runtime) <= settings.period ==>
                forall k: nat :: k < rq.Length && Spare(old(rq[..]), c, k) ==>
                  && (old(rq[k].runtime) - rq[k].runtime) * rq.Length <= old(rq[k].runtime) - old(rq[k].time)
                  && (rq[c].runtime < settings.period ==>
                        old(rq[k].runtime) - old(rq[k].time) < (old(rq[k].runtime) - rq[k].runtime + 1) * rq.Length)
      ensures forall k :: 0 <= k < rq.Length ==> rq[k].time == old(rq[k].time) && rq[k].throttled == old(rq[k].throttled)
      ensures more <==> exists i: nat :: i < rq.Length && Lends(old(rq[..]), c, i)
    {
      ghost var s, goal := rq[..], Borrow(rq[..], c, 0, settings.period);
      Lending(s, c);
      more := false;
      var i := 0;
      while i < rq.Length
        invariant 0 <= i <= rq.Length && Borrow(rq[..], c, i, settings.period) == goal
        invariant !more ==> rq[..] == s && forall j: nat :: j < i ==> !Lends(s, c, j)
        invariant more ==> exists j: nat :: j < rq.Length && Lends(s, c, j)
      {
        if i != c && Finite(rq[i]) {
          var diff := rq[i].runtime - rq[i].time;
          if diff > 0 {
            assert Lends(rq[..], c, i);
            Lend(c, i, diff);
            more := true;
            if rq[c].runtime == settings.period {
              return;
            }
          }
        }
        i := i + 1;
      }
    }

    /** One loan: an n-th of the spare time `diff`, but no more than the period allows. */
    method Lend(c: nat, i: nat, diff: int)
      requires c < rq.Length && i < rq.Length && i != c && diff == rq[i].runtime - rq[i].time
      modifies rq
      ensures rq[..] == Transfer(old(rq[..]), i, c, Share(old(rq[..]), c, i, settings.period))
    {
      var part := diff / rq.Length;
      if rq[c].runtime + part > settings.period {
        part := settings.period - rq[c].runtime;
      }
      ghost var before := rq[..];
      assert part == Share(before, c, i, settings.period);
      rq[i] := rq[i].(runtime := rq[i].runtime - part);
      rq[c] := rq[c].(runtime := rq[c].runtime + part);
      assert rq[..] == Transfer(before, i, c, part);
    }

    /** The loans of the whole loop. */
    lemma Lending(s: Budgets, c: nat)
      requires c < |s|
      ensures var t := Borrow(s, c, 0, settings.period);
              && (forall k :: 0 <= k < |s| ==> t[k].time == s[k].time && t[k].throttled == s[k].throttled)
              && (s[c].runtime <= settings.period ==>
                    && (exists m: nat :: Loans(s, t, c, 0, settings.period, m))
                    && forall k: nat :: k < |s| && Spare(s, c, k) ==>
                         && (s[k].runtime - t[k].runtime) * |s| <= s[k].runtime - s[k].time
                         && (t[c].runtime < settings.period ==>
                               s[k].runtime - s[k].time < (s[k].runtime - t[k].runtime + 1) * |s|))
    {
      BorrowTimes(s, c, 0, settings.period);
      if s[c].runtime <= settings.period {
        var m := BorrowExact(s, c, 0, settings.period);
        forall k: nat | k < |s| && Spare(s, c, k)
          ensures var t := Borrow(s, c, 0, settings.period); k < m ==> FullShare(s, t, k)
        {
        }
      }
    }

    method BalanceRuntime(c: nat) returns (more: bool)
      requires c < rq.Length
      modifies rq
      ensures rq[..] == Balance(old(rq[..]), c, settings)
      ensures old(rq[c].runtime) <= settings.period ==>
                Balanced(old(rq[..]), rq[..], c, settings.share, old(rq[c].time), settings.period)
    {
      if rq[c].runtime <= settings.period {
        BalanceExact(rq[..], c, settings);
      }
      more := false;
      if settings.share && rq[c].time > rq[c].runtime {
        more := DoBalanceRuntime(c);
      }
    }

    /** __disable_runtime: the processor takes back what it lent, or gives back
        what it borrowed, and stops taking part. */
    method DisableRuntime(c: nat)
      requires c < rq.Length && Conserved(rq[..], settings)
      modifies rq
      ensures rq[..] == Disable(old(rq[..]), c, settings) && Conserved(rq[..], settings)
      ensures Settled(old(rq[..]), rq[..], c, settings)
    {
      ghost var s := rq[..];
      DisableExact(s, c, settings);
      NeverLeaks(s, c, settings);
      DisableConserves(s, c, settings);
      if Finite(rq[c]) && rq[c].runtime != settings.runtime {
        var want := settings.runtime - rq[c].runtime;
        want := GreedyReclaim(c, want);
        assert want == 0;  // BUG_ON(want) is unreachable
      }
      rq[c] := rq[c].(runtime := RUNTIME_INF);
    }

    method GreedyReclaim(c: nat, want: int) returns (left: int)
      requires c < rq.Length
      modifies rq
      ensures (rq[..], left) == Reclaim(old(rq[..]), c, 0, want)
    {
      ghost var goal := Reclaim(rq[..], c, 0, want);
      left := want;
      var i := 0;
      while i < rq.Length
        invariant 0 <= i <= rq.Length && Reclaim(rq[..], c, i, left) == goal
      {
        if i != c && Finite(rq[i]) {
          ghost var before := rq[..];
          if left > 0 {
            var diff := Min(rq[i].runtime, left);
            rq[i] := rq[i].(runtime := rq[i].runtime - diff);
            left := left - diff;
          } else {
            rq[i] := rq[i].(runtime := rq[i].runtime - left);
            left := left - left;
          }
          assert rq[..] == before[i := rq[i]];
          if left == 0 {
            return;
          }
        }
        i := i + 1;
      }
    }

    method EnableRuntime(c: nat)
      requires c < rq.Length
      modifies rq
      ensures rq[..] == Enable(old(rq[..]), c, settings)
      ensures rq[c].runtime == settings.runtime && rq[c].time == 0 && !rq[c].throttled
      ensures forall k :: 0 <= k < rq.Length && k != c ==> rq[k] == old(rq[k])
      ensures old(Conserved(rq[..], settings)) && settings.runtime < RUNTIME_INF ==>
                (Conserved(rq[..], settings) <==> !Finite(old(rq[c])) || old(rq[c].runtime) == settings.runtime)
    {
      if Conserved(rq[..], settings) && settings.runtime < RUNTIME_INF {
        EnableConserves(rq[..], c, settings);
      }
      rq[c] := Budget(settings.runtime, 0, false);
    }

    /** sched_rt_runtime_exceeded. */
    method RuntimeExceeded(c: nat) returns (exceeded: bool)
      requires c < rq.Length
      modifies rq
      ensures (rq[..], exceeded) == RtBudget.Exceeded(old(rq[..]), c, settings)
    {
      if rq[c].throttled {
        return true;
      }
      if rq[c].runtime >= settings.period {
        return false;
      }
      BalanceTimes(rq[..], c, settings);
      var _ := BalanceRuntime(c);
      var runtime := rq[c].runtime;
      if runtime == RUNTIME_INF {
        return false;
      }
      if rq[c].time > runtime {
        if settings.runtime != 0 {
          rq[c] := rq[c].(throttled := true);
        } else {
          rq[c] := rq[c].(time := 0);
        }
        if rq[c].throttled {
          return true;
        }
      }
      return false;
    }

    /** update_curr_rt for a real-time task: an accounted processor is asked to
        switch exactly when it is throttled. */
    method UpdateCurr(c: nat, delta: nat) returns (resched: bool)
      requires c < rq.Length
      modifies rq
      ensures rq[..] == Charge(old(rq[..]), c, delta, settings)
      ensures settings.period < RUNTIME_INF ==> Charged(old(rq[..]), rq[..], c, delta, settings)
      ensures old(Steady(rq[..], settings)) ==> Steady(rq[..], settings)
      ensures resched <==> settings.runtime != RUNTIME_INF && Finite(old(rq[c])) && rq[c].throttled
    {
      if Steady(rq[..], settings) {
        ChargeSteady(rq[..], c, delta, settings);
      }
      if settings.period < RUNTIME_INF {
        ChargeExact(rq[..], c, delta, settings);
      }
      if settings.runtime == RUNTIME_INF || rq[c].runtime == RUNTIME_INF {
        return false;
      }
      ghost var charged := rq[..][c := rq[c].(time := rq[c].time + delta)];
      rq[c] := rq[c].(time := rq[c].time + delta);
      assert rq[..] == charged;
      BorrowTimes(charged, c, 0, settings.period);
      resched := RuntimeExceeded(c);
    }

    /** do_sched_rt_period_timer: `online` are the processors it visits, `running`
        those with queued real-time tasks, `enabled` is rt_bandwidth_enabled.  The
        timer may stop exactly when no visited processor has time to pay back or
        tasks queued, or when nothing is throttled and bandwidth is not limited. */
    method PeriodTimer(overrun: nat, online: set<nat>, running: set<nat>, enabled: bool) returns (idle: bool)
      modifies rq
      ensures rq[..] == Timer(old(rq[..]), 0, overrun, online, settings)
      ensures old(Steady(rq[..], settings)) ==> Steady(rq[..], settings)
      ensures idle <==>
                || (forall k: nat :: k in online && k < rq.Length ==> rq[k].time == 0 && k !in running)
                || ((!enabled || settings.runtime == RUNTIME_INF)
                    && forall k: nat :: k in online && k < rq.Length ==> !rq[k].throttled)
    {
      if Steady(rq[..], settings) {
        TimerSteady(rq[..], 0, overrun, online, settings);
      }
      ghost var goal := Timer(rq[..], 0, overrun, online, settings);
      idle := true;
      var throttled := false;
      var i: nat := 0;
      while i < rq.Length
        invariant i <= rq.Length && Timer(rq[..], i, overrun, online, settings) == goal
        invariant idle <==> forall k: nat :: k in online && k < i ==> rq[k].time == 0 && k !in running
        invariant throttled <==> exists k: nat :: k in online && k < i && rq[k].throttled
      {
        if i in online {
          Visit(i, overrun);
          if rq[i].time != 0 || i in running {
            idle := false;
          }
          if rq[i].throttled {
            throttled := true;
          }
        }
        i := i + 1;
      }
      if !throttled && (!enabled || settings.runtime == RUNTIME_INF) {
        idle := true;
      }
    }

    /** What the timer does on one processor; no other one's time or flag changes. */
    method Visit(i: nat, overrun: nat)
      requires i < rq.Length
      modifies rq
      ensures rq[..] == TimerOne(old(rq[..]), i, overrun, settings)
      ensures old(rq[i].time >= 0 && 0 <= rq[i].runtime <= settings.period) && overrun * settings.period < U64 ==>
                Visited(old(rq[..]), rq[..], i, overrun, settings)
      ensures forall k :: 0 <= k < rq.Length && k != i ==> rq[k].time == old(rq[k].time) && rq[k].throttled == old(rq[k].throttled)
    {
      if rq[i].time >= 0 && 0 <= rq[i].runtime <= settings.period && overrun * settings.period < U64 {
        TimerOneExact(rq[..], i, overrun, settings);
      }
      if rq[i].time != 0 {
        BalanceTimes(rq[..], i, settings);
        if rq[i].throttled {
          var _ := BalanceRuntime(i);
        }
        ghost var t := rq[..];
        var runtime := rq[i].runtime;
        rq[i] := rq[i].(time := rq[i].time - Min(rq[i].time, overrun * runtime % U64));
        if rq[i].throttled && rq[i].time < runtime {
          rq[i] := rq[i].(throttled := false);
        }
        assert rq[..] == t[i := Refill(t[i], overrun)];
      }
    }
  }
}
