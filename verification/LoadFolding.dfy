/** The load accounting in memory: global counters and run queues updated in place.
    Each operation is a legal run of the step machine. */
module LoadFolding {
  import opened LoadAverage
  import opened LoadAccounting

  class RunQueue {
    var nrRunning: int
    var nrUninterruptible: int
    var calcLoadActive: int
    var calcLoadUpdate: int

    constructor (update: int)
      ensures nrRunning == 0 && nrUninterruptible == 0 && calcLoadActive == 0 && calcLoadUpdate == update
    {
      nrRunning, nrUninterruptible, calcLoadActive, calcLoadUpdate := 0, 0, 0, update;
    }

    ghost function Abs(): Cpu
      reads this
    {
      Cpu(nrRunning + nrUninterruptible, calcLoadActive, calcLoadUpdate, Still)
    }

    /** calc_load_fold_active. */
    method FoldActive() returns (delta: int)
      modifies `calcLoadActive
      ensures delta == Fold(old(Abs())) && calcLoadActive == nrRunning + nrUninterruptible
      ensures delta == nrRunning + nrUninterruptible - old(calcLoadActive)
    {
      delta := 0;
      var nrActive := nrRunning + nrUninterruptible;
      if nrActive != calcLoadActive {
        delta := nrActive - calcLoadActive;
        calcLoadActive := nrActive;
      }
    }
  }

  lemma RunOne(s: State, a: Step)
    requires s.Sane() && Enabled(s, a)
    ensures Run(s, [a]) && After(s, [a]) == Apply(s, a)
  {
    StepSane(s, a);
    assert [a][1..] == [];
  }

  lemma RunTwo(s: State, a: Step, b: Step)
    requires s.Sane() && Enabled(s, a) && Apply(s, a).Sane() && Enabled(Apply(s, a), b)
    ensures Run(s, [a, b]) && After(s, [a, b]) == Apply(Apply(s, a), b)
  {
    RunOne(Apply(s, a), b);
    assert [a, b][1..] == [b];
  }

  lemma RunThree(s: State, a: Step, b: Step, c: Step)
    requires s.Sane() && Enabled(s, a) && Apply(s, a).Sane() && Enabled(Apply(s, a), b)
    requires Apply(Apply(s, a), b).Sane() && Enabled(Apply(Apply(s, a), b), c)
    ensures Run(s, [a, b, c]) && After(s, [a, b, c]) == Apply(Apply(Apply(s, a), b), c)
  {
    RunTwo(Apply(s, a), b, c);
    assert [a, b, c][1..] == [b, c];
  }

  /** The state after the fold and the update of one window. */
  function Closed(s: State): State
    requires s.Sane()
  {
    Advanced(s, s.tasks + s.idle[s.ReadIdx()], s.idle[s.ReadIdx() := 0])
  }

  function Advanced(s: State, tasks: int, idle: seq<int>): State
    requires s.Sane()
  {
    var missed := Missed(s.jiffies, s.update + s.Freq(), s.Freq());
    s.(tasks := tasks, idle := idle, update := s.update + s.Freq() + missed * s.Freq(),
       idx := s.idx + 1, loads := NextLoads(s.loads, Demand(tasks, s.w), missed, s.w))
  }

  /** What that is: the pending deltas are in, the next window is still open or
      ahead, and this window and the n that were missed are averaged in. */
  ghost predicate WindowClosed(s: State, tasks: int, idle: seq<int>, idx: nat, update: int, loads: seq<nat>)
    requires s.Sane()
  {
    var n := Missed(s.jiffies, s.update + (5 * s.hz + 1), 5 * s.hz + 1);
    && tasks == s.tasks + s.idle[s.idx % 2] && idle == s.idle[s.idx % 2 := 0] && idx == s.idx + 1
    && update == s.update + (n + 1) * (5 * s.hz + 1) && update + 10 - (5 * s.hz + 1) <= s.jiffies < update + 10
    && AllAveraged(s.loads, tasks, n, loads, s.w)
  }

  lemma ClosedExact(s: State)
    requires s.Sane() && s.jiffies >= s.update + 10
    ensures var t := Closed(s); WindowClosed(s, t.tasks, t.idle, t.idx, t.update, t.loads)
  {
    CatchUpTime(s.jiffies, s.update, s.Freq());
    NextLoadsAveraged(s.loads, s.tasks + s.idle[s.ReadIdx()], Missed(s.jiffies, s.update + s.Freq(), s.Freq()), s.w);
  }

  lemma RunWindow(s: State)
    requires s.Sane() && s.folder == Waiting && s.jiffies >= s.update + 10
    ensures Run(s, [Drain, Collect, Advance]) && After(s, [Drain, Collect, Advance]) == Closed(s)
  {
    RunThree(s, Drain, Collect, Advance);
  }

  class Accounts {
    var tasks: int            // calc_load_tasks
    const idle: array<int>    // calc_load_idle
    var idx: nat              // calc_load_idx
    var update: int           // calc_load_update
    var jiffies: int
    const avenrun: array<nat>
    const rqs: seq<RunQueue>
    const hz: nat
    const w: nat

    ghost predicate Valid() {
      && idle.Length == 2 && avenrun.Length == 3 && hz >= 2 && Roomy(FSHIFT, w)
      && (idle as object) != (avenrun as object)
      && (forall i, j :: 0 <= i < j < |rqs| ==> rqs[i] != rqs[j])
    }

    ghost function Rq(c: nat): RunQueue
      requires c < |rqs|
    {
      rqs[c]
    }

    ghost function Cpus(): seq<Cpu>
      reads rqs
    {
      seq(|rqs|, i requires 0 <= i < |rqs| reads rqs => rqs[i].Abs())
    }

    ghost function View(): (s: State)
      requires Valid()
      reads this, idle, avenrun, rqs
      ensures s.Sane()
    {
      State(tasks, idle[..], idx, update, jiffies, Cpus(), Waiting, avenrun[..], hz, w)
    }

    constructor (queues: seq<RunQueue>, now: int, ticks: nat, words: nat)
      requires ticks >= 2 && Roomy(FSHIFT, words)
      requires forall i, j :: 0 <= i < j < |queues| ==> queues[i] != queues[j]
      requires forall r :: r in queues ==> r.calcLoadActive == 0 && r.calcLoadUpdate == now + 5 * ticks + 1
      ensures Valid() && rqs == queues && Boot(View()) && fresh(idle) && fresh(avenrun)
    {
      tasks, idx, update, jiffies := 0, 0, now + 5 * ticks + 1, now;
      idle := new int[2](i => 0);
      avenrun := new nat[3](i => 0);
      rqs, hz, w := queues, ticks, words;
    }

    /** calc_load_write_idx. */
    method WriteIdx() returns (i: nat)
      requires Valid()
      ensures i == View().WriteIdx()
    {
      i := idx;
      if !(jiffies < update) {
        i := i + 1;
      }
      i := i % 2;
    }

    method Tick()
      requires Valid()
      modifies `jiffies
      ensures Run(old(View()), [Step.Tick]) && View() == After(old(View()), [Step.Tick])
      ensures jiffies == old(jiffies) + 1
    {
      RunOne(View(), Step.Tick);
      jiffies := jiffies + 1;
    }

    /** calc_load_enter_idle. */
    method EnterIdle(c: nat)
      requires Valid() && c < |rqs|
      modifies idle, Rq(c)`calcLoadActive
      ensures Run(old(View()), [Sleep(c), Deliver(c)]) && View() == After(old(View()), [Sleep(c), Deliver(c)])
      ensures var i := if jiffies < update then idx % 2 else (idx + 1) % 2;
              && idle[i] == old(idle[i]) + (Rq(c).nrRunning + Rq(c).nrUninterruptible - old(Rq(c).calcLoadActive))
              && idle[1 - i] == old(idle[1 - i])
      ensures Rq(c).calcLoadActive == Rq(c).nrRunning + Rq(c).nrUninterruptible
    {
      RunTwo(View(), Sleep(c), Deliver(c));
      ghost var s := View();
      var delta := rqs[c].FoldActive();
      if delta != 0 {
        var i := WriteIdx();
        idle[i] := idle[i] + delta;
      }
      assert Cpus() == s.cpus[c := s.cpus[c].(active := s.cpus[c].nr)];
      assert idle[..] == s.idle[s.WriteIdx() := s.idle[s.WriteIdx()] + delta];
    }

    /** calc_load_exit_idle. */
    method ExitIdle(c: nat)
      requires Valid() && c < |rqs|
      modifies Rq(c)`calcLoadUpdate
      ensures Run(old(View()), [Wake(c)]) && View() == After(old(View()), [Wake(c)])
      ensures Rq(c).calcLoadUpdate ==
                if jiffies < old(Rq(c).calcLoadUpdate) then old(Rq(c).calcLoadUpdate)
                else if jiffies < update + 10 then update + (5 * hz + 1) else update
    {
      RunOne(View(), Wake(c));
      ghost var s := View();
      var rq := rqs[c];
      if !(jiffies < rq.calcLoadUpdate) {
        rq.calcLoadUpdate := update;
        if jiffies < rq.calcLoadUpdate + 10 {
          rq.calcLoadUpdate := rq.calcLoadUpdate + (5 * hz + 1);
        }
      }
      assert Cpus() == s.cpus[c := Resync(s.cpus[c], s.jiffies, s.update, s.Freq())];
    }

    /** calc_load_account_active. */
    method AccountActive(c: nat)
      requires Valid() && c < |rqs|
      modifies `tasks, Rq(c)`calcLoadActive, Rq(c)`calcLoadUpdate
      ensures old(jiffies < rqs[c].calcLoadUpdate) ==> View() == old(View())
      ensures old(jiffies >= rqs[c].calcLoadUpdate) ==>
                Run(old(View()), [Sample(c), Deliver(c)]) && View() == After(old(View()), [Sample(c), Deliver(c)])
      ensures old(jiffies >= rqs[c].calcLoadUpdate) ==>
                && tasks == old(tasks) + (Rq(c).nrRunning + Rq(c).nrUninterruptible - old(Rq(c).calcLoadActive))
                && Rq(c).calcLoadActive == Rq(c).nrRunning + Rq(c).nrUninterruptible
                && Rq(c).calcLoadUpdate == old(Rq(c).calcLoadUpdate) + (5 * hz + 1)
    {
      ghost var s := View();
      var rq := rqs[c];
      if jiffies < rq.calcLoadUpdate {
        return;
      }
      RunTwo(View(), Sample(c), Deliver(c));
      var delta := rq.FoldActive();
      if delta != 0 {
        tasks := tasks + delta;
      }
      rq.calcLoadUpdate := rq.calcLoadUpdate + (5 * hz + 1);
      assert Cpus() == s.cpus[c := s.cpus[c].(active := s.cpus[c].nr, update := s.cpus[c].update + s.Freq())];
    }

    /** calc_load_fold_idle. */
    method FoldIdle() returns (delta: int)
      requires Valid()
      modifies idle
      ensures delta == old(idle[idx % 2]) && idle[..] == old(idle[..])[idx % 2 := 0]
    {
      var i := idx % 2;
      delta := 0;
      if idle[i] != 0 {
        delta := idle[i];
        idle[i] := 0;
      }
    }

    /** The pending deltas of the read slot are added to the global count. */
    method FoldPending()
      requires Valid()
      modifies `tasks, idle
      ensures var s := old(View()); View() == s.(tasks := s.tasks + s.idle[s.ReadIdx()], idle := s.idle[s.ReadIdx() := 0])
    {
      ghost var s := View();
      var delta := FoldIdle();
      if delta != 0 {
        tasks := tasks + delta;
      }
      assert Cpus() == s.cpus;
    }

    /** Three applications of calc_load. */
    method UpdateLoads(active: nat)
      requires Valid()
      modifies avenrun
      ensures avenrun[..] == NextLoads(old(avenrun[..]), active, 0, w)
      ensures Fits(old(avenrun[0]), active, w) ==> Rounded(old(avenrun[0]), 1884, active, avenrun[0])
      ensures Fits(old(avenrun[1]), active, w) ==> Rounded(old(avenrun[1]), 2014, active, avenrun[1])
      ensures Fits(old(avenrun[2]), active, w) ==> Rounded(old(avenrun[2]), 2037, active, avenrun[2])
    {
      NextLoadAveraged(avenrun[0], EXP_1, active, 0, w);
      NextLoadAveraged(avenrun[1], EXP_5, active, 0, w);
      NextLoadAveraged(avenrun[2], EXP_15, active, 0, w);
      avenrun[0] := CalcLoad(avenrun[0], EXP_1, active, w);
      avenrun[1] := CalcLoad(avenrun[1], EXP_5, active, w);
      avenrun[2] := CalcLoad(avenrun[2], EXP_15, active, w);
    }

    /** Three applications of calc_load_n. */
    method SkipLoads(active: nat, n: nat)
      requires Valid()
      modifies avenrun
      ensures avenrun[..] == [LoadAfter(old(avenrun[0]), EXP_1, active, n, w), LoadAfter(old(avenrun[1]), EXP_5, active, n, w),
                              LoadAfter(old(avenrun[2]), EXP_15, active, n, w)]
    {
      var load := CalcLoadN(avenrun[0], EXP_1, active, n, w);
      avenrun[0] := load;
      load := CalcLoadN(avenrun[1], EXP_5, active, n, w);
      avenrun[1] := load;
      load := CalcLoadN(avenrun[2], EXP_15, active, n, w);
      avenrun[2] := load;
    }

    /** calc_global_nohz, up to the flip of the index. */
    method CatchUp()
      requires Valid()
      modifies `update, avenrun
      ensures var n := Missed(jiffies, old(update), 5 * hz + 1);
              && update == old(update) + n * (5 * hz + 1)
              && (n == 0 ==> avenrun[..] == old(avenrun[..]))
              && (n > 0 ==> avenrun[..] == [LoadAfter(old(avenrun[0]), EXP_1, Demand(tasks, w), n, w),
                                            LoadAfter(old(avenrun[1]), EXP_5, Demand(tasks, w), n, w),
                                            LoadAfter(old(avenrun[2]), EXP_15, Demand(tasks, w), n, w)])
    {
      if !(jiffies < update + 10) {
        var freq := 5 * hz + 1;
        var delta := jiffies - update - 10;
        var n := 1 + delta / freq;
        SkipLoads(Demand(tasks, w), n);
        update := update + n * freq;
      }
    }

    /** The averages and the time of calc_global_load, once the pending deltas are in. */
    method NewWindow()
      requires Valid()
      modifies `update, `idx, avenrun
      ensures var s := old(View()); View() == Advanced(s, s.tasks, s.idle)
    {
      ghost var s := View();
      UpdateLoads(Demand(tasks, w));
      update := update + (5 * hz + 1);
      CatchUp();
      idx := idx + 1;
      assert Cpus() == s.cpus;
    }

    /** calc_global_load. */
    method GlobalLoad()
      requires Valid()
      modifies `tasks, `update, `idx, idle, avenrun
      ensures old(jiffies < update + 10) ==> View() == old(View())
      ensures old(jiffies >= update + 10) ==>
                Run(old(View()), [Drain, Collect, Advance]) && View() == After(old(View()), [Drain, Collect, Advance])
      ensures old(jiffies >= update + 10) ==> WindowClosed(old(View()), tasks, idle[..], idx, update, avenrun[..])
    {
      if !(jiffies < update + 10) {
        RunWindow(View());
        ClosedExact(View());
        CloseWindow();
      }
    }

    /** Its body after the test. */
    method CloseWindow()
      requires Valid() && jiffies >= update + 10
      modifies `tasks, `update, `idx, idle, avenrun
      ensures View() == Closed(old(View()))
    {
      FoldPending();
      NewWindow();
    }

    /** The CPU_UP_PREPARE branch of migration_call. */
    method Prepare(c: nat)
      requires Valid() && c < |rqs|
      modifies Rq(c)`calcLoadUpdate
      ensures Run(old(View()), [Plug(c)]) && View() == After(old(View()), [Plug(c)])
      ensures Rq(c).calcLoadUpdate == update
    {
      RunOne(View(), Plug(c));
      ghost var s := View();
      rqs[c].calcLoadUpdate := update;
      assert Cpus() == s.cpus[c := s.cpus[c].(update := s.update)];
    }

    /** calc_global_load_remove. */
    method Remove(c: nat)
      requires Valid() && c < |rqs|
      modifies `tasks, Rq(c)`calcLoadActive
      ensures Run(old(View()), [Unplug(c)]) && View() == After(old(View()), [Unplug(c)])
      ensures tasks == old(tasks) - old(Rq(c).calcLoadActive) && Rq(c).calcLoadActive == 0
    {
      RunOne(View(), Unplug(c));
      ghost var s := View();
      tasks := tasks - rqs[c].calcLoadActive;
      rqs[c].calcLoadActive := 0;
      assert Cpus() == s.cpus[c := s.cpus[c].(active := 0)];
    }
  }
}
