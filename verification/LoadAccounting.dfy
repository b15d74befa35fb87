/** How the CPUs' counts of active tasks reach the global load average (core.c): a
    step machine whose steps are the atomic accesses to shared counters, so that a
    delta can be in flight between the fold of a CPU's count and its delivery.
    Deltas of CPUs going idle wait in one of two slots, selected by an index that
    flips once per sampling window. */
module LoadAccounting {
  import opened LoadAverage

  const EXP_1: nat := 1884
  const EXP_5: nat := 2014
  const EXP_15: nat := 2037

  /** Where a CPU's folded delta is on its way to. */
  datatype Flight = Still | ToTasks(delta: int) | ToIdle(delta: int)

  /** nr: running and uninterruptible tasks; active and update: calc_load_active and
      calc_load_update of the run queue. */
  datatype Cpu = Cpu(nr: int, active: int, update: int, flight: Flight)

  /** What calc_global_load has done in this window. */
  datatype Folder = Waiting | Drained(delta: int) | Collected

  datatype State = State(
    tasks: int, idle: seq<int>, idx: nat, update: int, jiffies: int,
    cpus: seq<Cpu>, folder: Folder, loads: seq<nat>, hz: nat, w: nat)
  {
    /** LOAD_FREQ, in ticks. */
    function Freq(): int { 5 * hz + 1 }

    /** The index of the slot drained by the next fold. */
    function ReadIdx(): nat { idx % 2 }

    /** The index of the slot a CPU going idle writes. */
    function WriteIdx(): nat {
      if jiffies >= update then (idx + 1) % 2 else idx % 2
    }

    ghost predicate Sane() {
      |idle| == 2 && |loads| == 3 && hz >= 2 && Roomy(FSHIFT, w)
    }
  }

  datatype Step =
    | Tick
    | Change(cpu: nat, nr: int)
    | Sample(cpu: nat)   // the tick of a busy CPU folds its count
    | Sleep(cpu: nat)    // a CPU going idle folds its count
    | Deliver(cpu: nat)  // the folded delta is added to its counter
    | Wake(cpu: nat)
    | Plug(cpu: nat)
    | Unplug(cpu: nat)
    | Drain              // calc_global_load empties the read slot
    | Collect            // and adds what it found
    | Advance            // and updates averages, time and index

  ghost predicate Enabled(s: State, step: Step) {
    match step
    case Tick => true
    case Change(c, _) => c < |s.cpus|
    case Sample(c) => c < |s.cpus| && s.cpus[c].flight == Still && s.jiffies >= s.cpus[c].update
    case Sleep(c) => c < |s.cpus| && s.cpus[c].flight == Still
    case Deliver(c) => c < |s.cpus| && s.cpus[c].flight != Still
    case Wake(c) => c < |s.cpus| && s.cpus[c].flight == Still
    case Plug(c) => c < |s.cpus|
    case Unplug(c) => c < |s.cpus|
    case Drain => s.folder == Waiting && s.jiffies >= s.update + 10
    case Collect => s.folder.Drained?
    case Advance => s.folder == Collected && s.jiffies >= s.update + 10
  }

  /** calc_load_fold_active: what remains to be delivered. */
  function Fold(c: Cpu): int { c.nr - c.active }

  /** calc_load_exit_idle. */
  function Resync(c: Cpu, jiffies: int, update: int, freq: int): Cpu {
    if jiffies < c.update then c
    else c.(update := if jiffies < update + 10 then update + freq else update)
  }

  /** The number of whole windows that passed while nobody updated. */
  function Missed(jiffies: int, update: int, freq: int): nat
    requires freq > 0
  {
    if jiffies < update + 10 then 0 else 1 + (jiffies - update - 10) / freq
  }

  function Demand(tasks: int, w: nat): nat
    requires w >= 1
  {
    if tasks > 0 then Wrap(tasks * FIXED_1, w) else 0
  }

  function NextLoad(load: nat, exp: nat, demand: nat, missed: nat, w: nat): nat
    requires exp <= FIXED_1 && Roomy(FSHIFT, w)
  {
    var once := CalcLoad(load, exp, demand, w);
    if missed == 0 then once else LoadAfter(once, exp, demand, missed, w)
  }

  function NextLoads(loads: seq<nat>, demand: nat, missed: nat, w: nat): seq<nat>
    requires |loads| == 3 && Roomy(FSHIFT, w)
  {
    [NextLoad(loads[0], EXP_1, demand, missed, w), NextLoad(loads[1], EXP_5, demand, missed, w),
     NextLoad(loads[2], EXP_15, demand, missed, w)]
  }

  function Apply(s: State, step: Step): State
    requires s.Sane() && Enabled(s, step)
  {
    match step
    case Tick => s.(jiffies := s.jiffies + 1)
    case Change(c, nr) => s.(cpus := s.cpus[c := s.cpus[c].(nr := nr)])
    case Sample(c) => s.(cpus := s.cpus[c := s.cpus[c].(active := s.cpus[c].nr, flight := ToTasks(Fold(s.cpus[c])))])
    case Sleep(c) => s.(cpus := s.cpus[c := s.cpus[c].(active := s.cpus[c].nr, flight := ToIdle(Fold(s.cpus[c])))])
    case Deliver(c) =>
      var r := s.cpus[c];
      if r.flight.ToTasks? then
        s.(tasks := s.tasks + r.flight.delta, cpus := s.cpus[c := r.(flight := Still, update := r.update + s.Freq())])
      else
        s.(idle := s.idle[s.WriteIdx() := s.idle[s.WriteIdx()] + r.flight.delta], cpus := s.cpus[c := r.(flight := Still)])
    case Wake(c) => s.(cpus := s.cpus[c := Resync(s.cpus[c], s.jiffies, s.update, s.Freq())])
    case Plug(c) => s.(cpus := s.cpus[c := s.cpus[c].(update := s.update)])
    case Unplug(c) => s.(tasks := s.tasks - s.cpus[c].active, cpus := s.cpus[c := s.cpus[c].(active := 0)])
    case Drain => s.(folder := Drained(s.idle[s.ReadIdx()]), idle := s.idle[s.ReadIdx() := 0])
    case Collect => s.(tasks := s.tasks + s.folder.delta, folder := Collected)
    case Advance =>
      var update := s.update + s.Freq();
      var missed := Missed(s.jiffies, update, s.Freq());
      s.(update := update + missed * s.Freq(), idx := s.idx + 1, folder := Waiting,
         loads := NextLoads(s.loads, Demand(s.tasks, s.w), missed, s.w))
  }

  lemma StepSane(s: State, step: Step)
    requires s.Sane() && Enabled(s, step)
    ensures Apply(s, step).Sane() && |Apply(s, step).cpus| == |s.cpus|
    ensures Apply(s, step).w == s.w && Apply(s, step).hz == s.hz
  {
  }

  // ----- runs -----

  ghost predicate Run(s: State, steps: seq<Step>)
    requires s.Sane()
    decreases |steps|
  {
    steps == [] || (Enabled(s, steps[0]) && (StepSane(s, steps[0]); Run(Apply(s, steps[0]), steps[1..])))
  }

  function After(s: State, steps: seq<Step>): State
    requires s.Sane() && Run(s, steps)
    decreases |steps|
  {
    if steps == [] then s else
      StepSane(s, steps[0]);
      After(Apply(s, steps[0]), steps[1..])
  }

  ghost predicate Boot(s: State) {
    && s.Sane()
    && s.tasks == 0 && s.idle == [0, 0] && s.folder == Waiting && s.loads == [0, 0, 0]
    && s.update == s.jiffies + s.Freq()
    && forall c :: 0 <= c < |s.cpus| ==> s.cpus[c].active == 0 && s.cpus[c].flight == Still && s.cpus[c].update == s.update
  }

  // ----- conservation -----

  function Accounted(cpus: seq<Cpu>): int {
    if cpus == [] then 0 else cpus[0].active + Accounted(cpus[1..])
  }

  function Flying(f: Flight): int {
    if f == Still then 0 else f.delta
  }

  function InFlight(cpus: seq<Cpu>): int {
    if cpus == [] then 0 else Flying(cpus[0].flight) + InFlight(cpus[1..])
  }

  function Held(f: Folder): int {
    if f.Drained? then f.delta else 0
  }

  /** Every CPU's accounted count is in the global count, in a slot, or in flight. */
  ghost predicate Conserved(s: State)
    requires s.Sane()
  {
    s.tasks + s.idle[0] + s.idle[1] + InFlight(s.cpus) + Held(s.folder) == Accounted(s.cpus)
  }

  lemma {:induction false} SumsUpdate(cpus: seq<Cpu>, c: nat, r: Cpu)
    requires c < |cpus|
    ensures Accounted(cpus[c := r]) == Accounted(cpus) - cpus[c].active + r.active
    ensures InFlight(cpus[c := r]) == InFlight(cpus) - Flying(cpus[c].flight) + Flying(r.flight)
  {
    if c == 0 {
      assert cpus[c := r][1..] == cpus[1..];
    } else {
      SumsUpdate(cpus[1..], c - 1, r);
      assert cpus[c := r][1..] == cpus[1..][c - 1 := r];
    }
  }

  lemma StepConserves(s: State, step: Step)
    requires s.Sane() && Enabled(s, step) && Conserved(s)
    ensures Apply(s, step).Sane() && Conserved(Apply(s, step))
  {
    StepSane(s, step);
    if step.Change? || step.Sample? || step.Sleep? || step.Deliver? || step.Wake? || step.Plug? || step.Unplug? {
      SumsUpdate(s.cpus, step.cpu, Apply(s, step).cpus[step.cpu]);
    }
  }

  /** Conservation over every run: across ticks, idle entries and exits, folds,
      window updates and the removal of CPUs. */
  lemma {:induction false} RunConserves(s: State, steps: seq<Step>)
    requires s.Sane() && Conserved(s) && Run(s, steps)
    ensures After(s, steps).Sane() && Conserved(After(s, steps))
    decreases |steps|
  {
    if steps != [] {
      StepConserves(s, steps[0]);
      RunConserves(Apply(s, steps[0]), steps[1..]);
    }
  }

  lemma {:induction false} NothingYet(cpus: seq<Cpu>)
    requires forall c :: 0 <= c < |cpus| ==> cpus[c].active == 0 && cpus[c].flight == Still
    ensures Accounted(cpus) == 0 && InFlight(cpus) == 0
  {
    if cpus != [] {
      NothingYet(cpus[1..]);
    }
  }

  lemma BootConserved(s: State)
    requires Boot(s)
    ensures Conserved(s)
  {
    NothingYet(s.cpus);
  }

  function Load(cpus: seq<Cpu>): int {
    if cpus == [] then 0 else cpus[0].nr + Load(cpus[1..])
  }

  /** Once every CPU has been accounted and nothing is in flight, the counters hold
      exactly the number of active tasks of the system. */
  lemma SettledIsExact(boot: State, steps: seq<Step>)
    requires Boot(boot) && Run(boot, steps)
    requires var s := After(boot, steps);
             !s.folder.Drained? && forall c :: 0 <= c < |s.cpus| ==> s.cpus[c].active == s.cpus[c].nr && s.cpus[c].flight == Still
    ensures var s := After(boot, steps); s.Sane() && s.tasks + s.idle[0] + s.idle[1] == Load(s.cpus)
  {
    BootConserved(boot);
    RunConserves(boot, steps);
    Settled(After(boot, steps).cpus);
  }

  lemma {:induction false} Settled(cpus: seq<Cpu>)
    requires forall c :: 0 <= c < |cpus| ==> cpus[c].active == cpus[c].nr && cpus[c].flight == Still
    ensures InFlight(cpus) == 0 && Accounted(cpus) == Load(cpus)
  {
    if cpus != [] {
      Settled(cpus[1..]);
    }
  }

  // ----- the two slots keep the windows apart -----

  /** A ledger without indices: deltas due at the fold of the coming window, and
      those due one window later. */
  datatype Ledger = Ledger(due: int, later: int)

  /** A delta from before the window opened is due in that window; one from inside
      the window is due in the next. */
  function Book(l: Ledger, s: State, step: Step): Ledger
    requires s.Sane() && Enabled(s, step)
  {
    match step
    case Deliver(c) =>
      if s.cpus[c].flight.ToTasks? then l
      else if s.jiffies < s.update then l.(due := l.due + s.cpus[c].flight.delta)
      else l.(later := l.later + s.cpus[c].flight.delta)
    case Drain => l.(due := 0)
    case Advance => Ledger(l.later, 0)
    case _ => l
  }

  function BookAll(l: Ledger, s: State, steps: seq<Step>): Ledger
    requires s.Sane() && Run(s, steps)
    decreases |steps|
  {
    if steps == [] then l else
      StepSane(s, steps[0]);
      BookAll(Book(l, s, steps[0]), Apply(s, steps[0]), steps[1..])
  }

  /** The read slot holds what is due, the other slot what is due later; after the
      fold nothing is due until the index flips. */
  ghost predicate Matches(s: State, l: Ledger)
    requires s.Sane()
  {
    && s.idle[s.idx % 2] == l.due
    && s.idle[(s.idx + 1) % 2] == l.later
    && (s.folder != Waiting ==> l.due == 0 && s.jiffies >= s.update + 10)
  }

  lemma StepMatches(s: State, l: Ledger, step: Step)
    requires s.Sane() && Enabled(s, step) && Matches(s, l)
    ensures Apply(s, step).Sane() && Matches(Apply(s, step), Book(l, s, step))
    ensures step == Drain ==> Apply(s, step).folder == Drained(l.due)
  {
    StepSane(s, step);
    assert (s.idx + 2) % 2 == s.idx % 2;
  }

  /** Over every run the two slots refine the ledger: each fold takes exactly the
      deltas due in its window, and none is lost or taken early. */
  lemma {:induction false} RunMatches(s: State, l: Ledger, steps: seq<Step>)
    requires s.Sane() && Matches(s, l) && Run(s, steps)
    ensures After(s, steps).Sane() && Matches(After(s, steps), BookAll(l, s, steps))
    decreases |steps|
  {
    if steps != [] {
      StepMatches(s, l, steps[0]);
      RunMatches(Apply(s, steps[0]), Book(l, s, steps[0]), steps[1..]);
    }
  }

  lemma BootMatches(s: State)
    requires Boot(s)
    ensures Matches(s, Ledger(0, 0))
  {
  }

  ghost predicate NoAdvance(steps: seq<Step>) {
    forall i :: 0 <= i < |steps| ==> steps[i] != Advance
  }

  lemma {:induction false} WindowKeepsIndex(s: State, steps: seq<Step>)
    requires s.Sane() && Run(s, steps) && NoAdvance(steps)
    ensures After(s, steps).idx == s.idx && After(s, steps).update == s.update && After(s, steps).jiffies >= s.jiffies
    decreases |steps|
  {
    if steps != [] {
      StepSane(s, steps[0]);
      assert steps[0] != Advance;
      WindowKeepsIndex(Apply(s, steps[0]), steps[1..]);
    }
  }

  /** A delta written inside the window goes to a slot that no fold of that window
      reads, and that is the slot read after the flip. */
  lemma WindowWriteSurvives(s: State, steps: seq<Step>)
    requires s.Sane() && Run(s, steps) && NoAdvance(steps) && s.jiffies >= s.update
    ensures After(s, steps).ReadIdx() != s.WriteIdx() == After(s, steps).WriteIdx()
    ensures var t := After(s, steps); t.Sane() && (Enabled(t, Advance) ==> Apply(t, Advance).ReadIdx() == s.WriteIdx())
  {
    WindowKeepsIndex(s, steps);
    RunSane(s, steps);
  }

  lemma {:induction false} RunSane(s: State, steps: seq<Step>)
    requires s.Sane() && Run(s, steps)
    ensures After(s, steps).Sane()
    decreases |steps|
  {
    if steps != [] {
      StepSane(s, steps[0]);
      RunSane(Apply(s, steps[0]), steps[1..]);
    }
  }

  // ----- time -----

  /** The catch-up skips exactly the windows that have closed: by whole periods, to
      the first window that is still open or ahead. */
  lemma AdvanceCatchesUp(s: State)
    requires s.Sane() && Enabled(s, Advance)
    ensures var t := Apply(s, Advance);
            && t.jiffies < t.update + 10
            && t.update + 10 - t.Freq() <= t.jiffies
            && (t.update - s.update) % t.Freq() == 0
  {
    var f := s.Freq();
    var missed := Missed(s.jiffies, s.update + f, f);
    if missed > 0 {
      var d := s.jiffies - (s.update + f) - 10;
      assert missed == 1 + d / f;
      assert d / f * f <= d < d / f * f + f;
      assert missed * f == d / f * f + f;
    }
    assert s.update + f + missed * f - s.update == (missed + 1) * f;
    MultipleOf(missed + 1, f);
  }

  /** The next update time lies a whole number of periods on, and is the first
      one whose window has not been completed. */
  lemma CatchUpTime(jiffies: int, update: int, freq: int)
    requires freq > 0 && jiffies >= update + 10
    ensures var n := Missed(jiffies, update + freq, freq);
            var t := update + (n + 1) * freq;
            t == update + freq + n * freq && t + 10 - freq <= jiffies < t + 10
  {
    var n := Missed(jiffies, update + freq, freq);
    assert (n + 1) * freq == freq + n * freq;
    if n > 0 {
      var d := jiffies - (update + freq) - 10;
      assert n == 1 + d / freq;
      assert d / freq * freq <= d < d / freq * freq + freq;
      assert n * freq == d / freq * freq + freq;
    }
  }

  lemma {:induction false} MultipleOf(k: nat, f: int)
    requires f > 0
    ensures (k * f) % f == 0
  {
    if k > 0 {
      MultipleOf(k - 1, f);
      assert k * f == (k - 1) * f + f;
      SubtractDivisor(k * f, f);
    }
  }

  /** The first window that opens after `now`, when windows open at update, update + freq, ... */
  ghost predicate NextWindow(t: int, now: int, update: int, freq: int) {
    t >= update && t > now && (t == update || t - freq <= now)
  }

  /** Waking a CPU whose sample is overdue puts its next sample at the first window
      to open exactly when the wakeup falls inside the window: a CPU that wakes
      before the window skips that one too, a CPU that wakes after it samples at once. */
  lemma WakeSyncsIff(c: Cpu, jiffies: int, update: int, freq: int)
    requires freq > 10 && jiffies >= c.update
    ensures NextWindow(Resync(c, jiffies, update, freq).update, jiffies, update, freq) <==> update <= jiffies < update + 10
    ensures Resync(c, jiffies, update, freq) == c.(update := if jiffies < update + 10 then update + freq else update)
  {
  }

  lemma {:induction false} RunConcat(s: State, a: seq<Step>, b: seq<Step>)
    requires s.Sane() && Run(s, a) && After(s, a).Sane() && Run(After(s, a), b)
    ensures Run(s, a + b) && After(s, a + b) == After(After(s, a), b)
    decreases |a|
  {
    if a == [] {
      assert a + b == b;
    } else {
      StepSane(s, a[0]);
      assert (a + b)[1..] == a[1..] + b;
      RunConcat(Apply(s, a[0]), a[1..], b);
    }
  }

  lemma RunStep(s: State, a: Step)
    requires s.Sane() && Enabled(s, a)
    ensures Run(s, [a]) && After(s, [a]) == Apply(s, a) && After(s, [a]).Sane()
  {
    StepSane(s, a);
    assert [a][1..] == [];
  }

  /** Extend a run by an enabled step. */
  lemma RunThen(s: State, steps: seq<Step>, a: Step)
    requires s.Sane() && Run(s, steps) && After(s, steps).Sane() && Enabled(After(s, steps), a)
    ensures Run(s, steps + [a]) && After(s, steps + [a]) == Apply(After(s, steps), a) && After(s, steps + [a]).Sane()
  {
    RunStep(After(s, steps), a);
    RunConcat(s, steps, [a]);
  }

  /** Extend a run by a number of ticks. */
  lemma {:induction false} RunTicks(s: State, steps: seq<Step>, n: nat) returns (more: seq<Step>)
    requires s.Sane() && Run(s, steps) && After(s, steps).Sane()
    ensures Run(s, more) && After(s, more).Sane()
    ensures var t := After(s, steps); After(s, more) == t.(jiffies := t.jiffies + n)
    decreases n
  {
    if n == 0 {
      more := steps;
    } else {
      more := RunTicks(s, steps, n - 1);
      RunThen(s, more, Tick);
      more := more + [Tick];
    }
  }

  /** CPU 0 goes idle without any task, and the others complete the first window. */
  lemma SleepThroughWindow(boot: State) returns (steps: seq<Step>)
    requires Boot(boot) && |boot.cpus| > 0
    ensures Run(boot, steps) && After(boot, steps).Sane()
    ensures var t := After(boot, steps);
            && |t.cpus| == |boot.cpus| && t.hz == boot.hz && t.folder == Waiting
            && t.cpus[0] == Cpu(0, 0, boot.update, Still)
            && t.jiffies == boot.update + 10 && t.update == boot.update + boot.Freq()
  {
    steps := [];
    RunThen(boot, steps, Change(0, 0));
    steps := steps + [Change(0, 0)];
    RunThen(boot, steps, Sleep(0));
    steps := steps + [Sleep(0)];
    RunThen(boot, steps, Deliver(0));
    steps := steps + [Deliver(0)];
    steps := RunTicks(boot, steps, boot.Freq() + 10);
    RunThen(boot, steps, Drain);
    steps := steps + [Drain];
    RunThen(boot, steps, Collect);
    steps := steps + [Collect];
    RunThen(boot, steps, Advance);
    steps := steps + [Advance];
  }

  /** From every boot state a run leads to any tick of an open window in which an
      awake CPU, with a task that is not accounted, may not be sampled: it woke after
      the window before had been completed, and is set for the window after. */
  lemma EarlyWakeSkipsWindow(boot: State, n: nat) returns (steps: seq<Step>)
    requires Boot(boot) && |boot.cpus| > 0 && n < boot.Freq()
    ensures Run(boot, steps) && After(boot, steps).Sane()
    ensures var t := After(boot, steps);
            && |t.cpus| > 0 && t.jiffies == t.update + n
            && t.cpus[0] == Cpu(1, 0, t.update + t.Freq(), Still) && !Enabled(t, Sample(0))
  {
    steps := SleepThroughWindow(boot);
    RunThen(boot, steps, Change(0, 1));
    steps := steps + [Change(0, 1)];
    RunThen(boot, steps, Wake(0));
    steps := steps + [Wake(0)];
    steps := RunTicks(boot, steps, boot.Freq() - 10 + n);
  }

  // ----- the averages -----

  /** `r` is the weighted mean of the load and the active count, rounded to the
      nearest: 2048 parts of which `exp` are the load's. */
  ghost predicate Rounded(load: nat, exp: int, active: nat, r: nat) {
    2048 * r <= load * exp + active * (2048 - exp) + 1024 < 2048 * r + 2048
  }

  /** What an average becomes when a window is closed, if its sums fit the word: the
      rounded mean if no further window was missed, and if n were, what n + 1 such
      steps give, up to the slip of the shortcut. */
  ghost predicate Averaged(load: nat, exp: nat, active: nat, n: nat, r: nat, w: nat)
    requires exp <= FIXED_1 && w >= 1
  {
    Fits(load, active, w) ==>
      && (n == 0 ==> Rounded(load, exp, active, r))
      && (n > 0 ==> Close(r as real, LoadSteps(load, exp, active, n + 1, w) as real, Slip(load, active, n)))
  }

  /** The averages over 1, 5 and 15 minutes, with `tasks` accounted tasks. */
  ghost predicate AllAveraged(loads: seq<nat>, tasks: int, n: nat, next: seq<nat>, w: nat)
    requires |loads| == 3 && w >= 1
  {
    var active: nat := if tasks > 0 then tasks * 2048 else 0;
    && |next| == 3 && Averaged(loads[0], 1884, active, n, next[0], w)
    && Averaged(loads[1], 2014, active, n, next[1], w) && Averaged(loads[2], 2037, active, n, next[2], w)
  }

  lemma NextLoadAveraged(load: nat, exp: nat, active: nat, n: nat, w: nat)
    requires exp <= FIXED_1 && Roomy(FSHIFT, w)
    ensures Averaged(load, exp, active, n, NextLoad(load, exp, active, n, w), w)
  {
    if Fits(load, active, w) {
      CalcLoadRounds(load, exp, active, w);
      if n > 0 {
        CatchUpAgrees(load, exp, active, n, w);
      }
    }
  }

  /** Closing a window, after whatever number of windows. */
  lemma NextLoadsAveraged(loads: seq<nat>, tasks: int, n: nat, w: nat)
    requires |loads| == 3 && Roomy(FSHIFT, w)
    ensures AllAveraged(loads, tasks, n, NextLoads(loads, Demand(tasks, w), n, w), w)
  {
    var active: nat := if tasks > 0 then tasks * 2048 else 0;
    if active < w {
      assert Demand(tasks, w) == active;
      NextLoadAveraged(loads[0], EXP_1, active, n, w);
      NextLoadAveraged(loads[1], EXP_5, active, n, w);
      NextLoadAveraged(loads[2], EXP_15, active, n, w);
    } else {
      NothingFits(loads[0], active, w);
      NothingFits(loads[1], active, w);
      NothingFits(loads[2], active, w);
    }
  }

  lemma NothingFits(load: nat, active: nat, w: nat)
    requires active >= w
    ensures !Fits(load, active, w)
  {
  }

  /** The step that closes a window does that to the averages. */
  lemma AdvanceAverages(s: State)
    requires s.Sane() && Enabled(s, Advance)
    ensures var t := Apply(s, Advance);
            var n := Missed(s.jiffies, s.update + s.Freq(), s.Freq());
            && t.update == s.update + (n + 1) * s.Freq() && t.update + 10 - s.Freq() <= s.jiffies < t.update + 10
            && AllAveraged(s.loads, s.tasks, n, t.loads, s.w)
  {
    CatchUpTime(s.jiffies, s.update, s.Freq());
    NextLoadsAveraged(s.loads, s.tasks, Missed(s.jiffies, s.update + s.Freq(), s.Freq()), s.w);
  }

  /** At every update the accounted tasks are at most `peak`. */
  ghost predicate PeakAt(s: State, steps: seq<Step>, peak: nat)
    requires s.Sane() && Run(s, steps)
    decreases |steps|
  {
    steps == [] ||
    (&& (steps[0] == Advance ==> s.tasks <= peak)
     && (StepSane(s, steps[0]); PeakAt(Apply(s, steps[0]), steps[1..], peak)))
  }

  ghost predicate Below(loads: seq<nat>, bound: nat) {
    forall i :: 0 <= i < |loads| ==> loads[i] <= bound
  }

  lemma NextLoadBelow(load: nat, exp: nat, demand: nat, missed: nat, w: nat, bound: nat)
    requires exp <= FIXED_1 && Roomy(FSHIFT, w) && load <= bound && demand <= bound && Fits(bound, bound, w)
    ensures NextLoad(load, exp, demand, missed, w) <= bound
  {
    CalcLoadBetween(load, exp, demand, w);
    if missed > 0 {
      FixedOne();
      PowerNeverWraps(Pow2(FSHIFT), exp, missed, FSHIFT, w, w);
      CalcLoadBetween(CalcLoad(load, exp, demand, w), FixedPower(exp, missed, FSHIFT, w), demand, w);
    }
  }

  /** The averages never exceed the highest accounted number of tasks (in fixed
      point), however many windows are caught up at once. */
  lemma {:induction false} LoadsBelowPeak(s: State, steps: seq<Step>, peak: nat)
    requires s.Sane() && Run(s, steps) && PeakAt(s, steps, peak)
    requires Below(s.loads, peak * FIXED_1) && Fits(peak * FIXED_1, 0, s.w)
    ensures Below(After(s, steps).loads, peak * FIXED_1)
    decreases |steps|
  {
    if steps != [] {
      StepSane(s, steps[0]);
      if steps[0] == Advance {
        var missed := Missed(s.jiffies, s.update + s.Freq(), s.Freq());
        var demand := Demand(s.tasks, s.w);
        NextLoadBelow(s.loads[0], EXP_1, demand, missed, s.w, peak * FIXED_1);
        NextLoadBelow(s.loads[1], EXP_5, demand, missed, s.w, peak * FIXED_1);
        NextLoadBelow(s.loads[2], EXP_15, demand, missed, s.w, peak * FIXED_1);
      }
      LoadsBelowPeak(Apply(s, steps[0]), steps[1..], peak);
    }
  }
}
