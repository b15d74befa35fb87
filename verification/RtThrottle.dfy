/** Throttling over whole runs without hotplug, and the bound it gives on the
    real-time time of a processor. */
module RtThrottle {
  import opened SchedConstants
  import opened RtBudget
  import opened RtLoans

  // ----- the throttling invariant -----

  /** A processor that is not throttled is within its budget, or has a budget
      that is never checked because it spans the whole period. */
  predicate WithinBudget(b: Budget, p: Settings) {
    b.throttled || b.time <= b.runtime || b.runtime >= p.period
  }

  predicate Steady(s: Budgets, p: Settings) {
    && 0 <= p.runtime <= p.period <= S64_MAX
    && forall i :: 0 <= i < |s| ==> s[i].time >= 0 && 0 <= s[i].runtime <= p.period && WithinBudget(s[i], p)
  }

  /** Lending leaves the lender at least the time it has used, and borrowing
      leaves the borrower at most the period. */
  lemma {:induction false} BorrowFair(s: Budgets, c: nat, i: nat, period: int)
    requires c < |s| && i <= |s| && 0 <= s[c].runtime <= period
    ensures var t := Borrow(s, c, i, period);
            && s[c].runtime <= t[c].runtime <= period
            && (forall k :: 0 <= k < |s| && k != c ==>
                  && t[k].runtime <= s[k].runtime
                  && (if s[k].time <= s[k].runtime then t[k].time <= t[k].runtime else t[k] == s[k]))
            && forall k :: 0 <= k < |s| ==> t[k].time == s[k].time && t[k].throttled == s[k].throttled
    decreases |s| - i
  {
    if i < |s| {
      if Lends(s, c, i) {
        ShareBounds(s, c, i, period);
        BorrowFair(Transfer(s, i, c, Share(s, c, i, period)), c, i + 1, period);
      } else {
        BorrowFair(s, c, i + 1, period);
      }
    }
  }

  lemma BalanceFair(s: Budgets, c: nat, p: Settings)
    requires Steady(s, p) && c < |s|
    ensures var t := Balance(s, c, p);
            && s[c].runtime <= t[c].runtime <= p.period && t[c].time == s[c].time && t[c].throttled == s[c].throttled
            && forall k :: 0 <= k < |s| && k != c ==>
                 t[k].time >= 0 && 0 <= t[k].runtime <= p.period && WithinBudget(t[k], p)
  {
    BorrowFair(s, c, 0, p.period);
  }

  /** The check after a charge catches every overrun. */
  lemma ChargeSteady(s: Budgets, c: nat, delta: nat, p: Settings)
    requires Steady(s, p) && c < |s|
    ensures Steady(Charge(s, c, delta, p), p)
  {
    var u := s[c := s[c].(time := s[c].time + delta)];
    if !u[c].throttled && u[c].runtime < p.period {
      BorrowFair(u, c, 0, p.period);
    }
  }

  /** The timer clears the flag exactly when the time left is below the budget. */
  lemma RefillClears(b: Budget, overrun: nat)
    requires b.time >= 0 && b.runtime >= 0
    ensures 0 <= Refill(b, overrun).time <= b.time && Refill(b, overrun).runtime == b.runtime
    ensures Refill(b, overrun).throttled <==> b.throttled && Refill(b, overrun).time >= b.runtime
  {
  }

  lemma TimerOneSteady(s: Budgets, c: nat, overrun: nat, p: Settings)
    requires Steady(s, p) && c < |s|
    ensures Steady(TimerOne(s, c, overrun, p), p)
  {
    BalanceFair(s, c, p);
    var t := if s[c].throttled then Balance(s, c, p) else s;
    RefillClears(t[c], overrun);
  }

  lemma {:induction false} TimerSteady(s: Budgets, c: nat, overrun: nat, online: set<nat>, p: Settings)
    requires Steady(s, p) && c <= |s|
    ensures Steady(Timer(s, c, overrun, online, p), p)
    decreases |s| - c
  {
    if c < |s| {
      TimerOneSteady(s, c, overrun, p);
      TimerSteady(if c in online then TimerOne(s, c, overrun, p) else s, c + 1, overrun, online, p);
    }
  }

  lemma TimerOneOthers(s: Budgets, c: nat, overrun: nat, p: Settings)
    requires c < |s|
    ensures forall k :: 0 <= k < |s| && k != c ==>
              TimerOne(s, c, overrun, p)[k].time == s[k].time && TimerOne(s, c, overrun, p)[k].throttled == s[k].throttled
  {
    BalanceTimes(s, c, p);
  }

  /** A period tick leaves the times and flags of the processors it has passed or
      does not visit alone. */
  lemma {:induction false} TimerSkips(s: Budgets, c: nat, overrun: nat, online: set<nat>, p: Settings, k: nat)
    requires c <= |s| && k < |s| && (k < c || k !in online)
    ensures var t := Timer(s, c, overrun, online, p); t[k].time == s[k].time && t[k].throttled == s[k].throttled
    decreases |s| - c
  {
    if c < |s| {
      TimerOneOthers(s, c, overrun, p);
      TimerSkips(if c in online then TimerOne(s, c, overrun, p) else s, c + 1, overrun, online, p, k);
    }
  }

  /** A period tick visits every online processor once: `u` and `v` are the budgets
      before and after its visit, and its time and flag change in no other. */
  lemma {:induction false} TimerVisits(s: Budgets, c: nat, overrun: nat, online: set<nat>, p: Settings, k: nat)
    returns (u: Budgets, v: Budgets)
    requires Steady(s, p) && c <= k < |s| && k in online && overrun * p.period < 0x1_0000_0000_0000_0000
    ensures |u| == |s| && Steady(u, p) && u[k].time == s[k].time && u[k].throttled == s[k].throttled
    ensures Visited(u, v, k, overrun, p)
    ensures var t := Timer(s, c, overrun, online, p); t[k].time == v[k].time && t[k].throttled == v[k].throttled
    decreases |s| - c
  {
    var next := if c in online then TimerOne(s, c, overrun, p) else s;
    if c == k {
      u, v := s, next;
      TimerOneExact(s, c, overrun, p);
      TimerSkips(next, c + 1, overrun, online, p, k);
    } else {
      TimerOneSteady(s, c, overrun, p);
      TimerOneOthers(s, c, overrun, p);
      u, v := TimerVisits(next, c + 1, overrun, online, p, k);
    }
  }

  predicate NoHotplug(run: seq<Event>) {
    forall i :: 0 <= i < |run| ==> run[i].Ran? || run[i].Period?
  }

  /** Over every run of charges and periods. */
  lemma {:induction false} RunSteady(s: Budgets, run: seq<Event>, p: Settings)
    requires Steady(s, p) && AllEnabled(s, run, p) && NoHotplug(run)
    ensures Steady(Final(s, run, p), p)
    decreases |run|
  {
    if run != [] {
      match run[0] {
        case Ran(c, delta) => ChargeSteady(s, c, delta, p);
        case Period(overrun, online) => TimerSteady(s, 0, overrun, online, p);
      }
      RunSteady(Step(s, run[0], p), run[1..], p);
    }
  }

  lemma BootSteady(n: nat, p: Settings)
    requires 0 <= p.runtime <= p.period <= S64_MAX
    ensures Steady(Boot(n, p), p)
  {
  }

  // ----- what one processor may consume -----

  /** Without sharing, what happens to one budget does not depend on the others. */
  function ChargeAlone(b: Budget, delta: nat, p: Settings): Budget {
    Charge([b], 0, delta, p.(share := false))[0]
  }

  function RefillAlone(b: Budget, overrun: nat): Budget {
    if b.time == 0 then b else Refill(b, overrun)
  }

  lemma ChargeIsLocal(s: Budgets, c: nat, delta: nat, p: Settings)
    requires c < |s| && !p.share
    ensures Charge(s, c, delta, p) == s[c := ChargeAlone(s[c], delta, p)]
  {
    assert s[c := s[c]] == s;
    assert p.(share := false) == p;
  }

  lemma {:induction false} TimerIsLocal(s: Budgets, c: nat, overrun: nat, online: set<nat>, p: Settings)
    requires c <= |s| && !p.share
    ensures forall k: nat :: k < |s| ==>
              Timer(s, c, overrun, online, p)[k] == if k < c || k !in online then s[k] else RefillAlone(s[k], overrun)
    decreases |s| - c
  {
    if c < |s| {
      TimerIsLocal(if c in online then TimerOne(s, c, overrun, p) else s, c + 1, overrun, online, p);
    }
  }

  /** What happens on one processor: a real-time task is picked, runs for a
      while, or is switched out; or the period timer fires. */
  datatype Happening =
    | Pick
    | Run(delta: nat)
    | SwitchOut
    | Tick(overrun: nat)

  /** The budget, whether a real-time task is current, the total time charged,
      the total of the timer overruns, and what was charged since the processor
      was last seen to be within its budget. */
  datatype Account = Account(b: Budget, running: bool, total: int, overruns: int, late: int)

  /** _pick_next_task_rt returns no task while the flag is set, and only a
      current real-time task is charged. */
  predicate Possible(a: Account, h: Happening) {
    match h
    case Pick => !a.b.throttled
    case Run(_) => a.running
    case SwitchOut => a.running
    case Tick(_) => true
  }

  function Next(a: Account, h: Happening, p: Settings): Account {
    match h
    case Pick => a.(running := true, late := 0)
    case Run(delta) =>
      var b := ChargeAlone(a.b, delta, p);
      a.(b := b, total := a.total + delta, late := if b.throttled then a.late + delta else 0)
    case SwitchOut => a.(running := false)
    case Tick(overrun) =>
      var b := RefillAlone(a.b, overrun);
      a.(b := b, overruns := a.overruns + overrun, late := if b.throttled then a.late else 0)
  }

  predicate AllPossible(a: Account, run: seq<Happening>, p: Settings)
    decreases |run|
  {
    run == [] || (Possible(a, run[0]) && AllPossible(Next(a, run[0], p), run[1..], p))
  }

  function After(a: Account, run: seq<Happening>, p: Settings): Account
    decreases |run|
  {
    if run == [] then a else After(Next(a, run[0], p), run[1..], p)
  }

  /** Nowhere in the run is more than `d` charged between the last check that found
      the processor within its budget and the switch. */
  predicate SwitchedWithin(a: Account, run: seq<Happening>, d: int, p: Settings)
    decreases |run|
  {
    a.late <= d && (run == [] || SwitchedWithin(Next(a, run[0], p), run[1..], d, p))
  }

  predicate Bounded(p: Settings) {
    0 < p.runtime < p.period <= S64_MAX
  }

  predicate Sound(a: Account, p: Settings) {
    && a.b.runtime == p.runtime && 0 <= a.b.time <= p.runtime + a.late && 0 <= a.late && 0 <= a.overruns
    && (!a.b.throttled ==> a.b.time <= p.runtime)
    && a.total <= a.b.time + a.overruns * p.runtime
  }

  lemma NextSound(a: Account, h: Happening, p: Settings)
    requires Bounded(p) && Sound(a, p) && Possible(a, h)
    ensures Sound(Next(a, h, p), p)
  {
    match h
    case Tick(overrun) => RefillPays(a, overrun, p);
    case _ =>
  }

  lemma RefillPays(a: Account, overrun: nat, p: Settings)
    requires Bounded(p) && Sound(a, p)
    ensures Sound(Next(a, Tick(overrun), p), p)
  {
    var due := overrun * p.runtime;
    assert due >= 0 && due % U64 <= due;
    assert (a.overruns + overrun) * p.runtime == a.overruns * p.runtime + due;
  }

  /** Over every run from a fresh budget, the real-time time charged is at most
      one budget, one budget per timer overrun, and the switching latency. */
  lemma {:induction false} CumulativeBound(a: Account, run: seq<Happening>, d: int, p: Settings)
    requires Bounded(p) && Sound(a, p) && AllPossible(a, run, p) && SwitchedWithin(a, run, d, p)
    ensures var z := After(a, run, p);
            Sound(z, p) && z.total <= (1 + z.overruns) * p.runtime + d
    decreases |run|
  {
    if run == [] {
      assert (1 + a.overruns) * p.runtime == p.runtime + a.overruns * p.runtime;
    } else {
      NextSound(a, run[0], p);
      CumulativeBound(Next(a, run[0], p), run[1..], d, p);
    }
  }

  /** The number of charges since the processor was last within its budget. */
  function LateCharges(n: nat, h: Happening, next: Account): nat {
    match h
    case Pick => 0
    case Run(_) => if next.b.throttled then n + 1 else 0
    case SwitchOut => n
    case Tick(_) => if next.b.throttled then n else 0
  }

  /** Each charge is at most `t`, and a task is switched out after at most `k`
      charges that find the processor over its budget; `n` counts them. */
  predicate Prompt(a: Account, run: seq<Happening>, n: nat, k: nat, t: nat, p: Settings)
    decreases |run|
  {
    n <= k && (run == [] ||
      var next := Next(a, run[0], p);
      && (run[0].Run? ==> run[0].delta <= t)
      && Prompt(next, run[1..], LateCharges(n, run[0], next), k, t, p))
  }

  /** Then the switching latency is at most `k` charges of `t` each. */
  lemma {:induction false} PromptLatency(a: Account, run: seq<Happening>, n: nat, k: nat, t: nat, p: Settings)
    requires Prompt(a, run, n, k, t, p) && AllPossible(a, run, p) && 0 <= a.late <= n * t
    ensures SwitchedWithin(a, run, k * t, p)
    decreases |run|
  {
    assert n * t + (k - n) * t == k * t;
    assert (k - n) * t >= 0;
    if run != [] {
      assert (n + 1) * t == n * t + t;
      var next := Next(a, run[0], p);
      PromptLatency(next, run[1..], LateCharges(n, run[0], next), k, t, p);
    }
  }

  lemma FreshIsSound(p: Settings)
    requires Bounded(p)
    ensures Sound(Account(Budget(p.runtime, 0, false), false, 0, 0, 0), p)
  {
  }

  // ----- the bound over runs of all processors -----

  /** A charge or a period of the budgets, or a scheduling decision on a processor. */
  datatype Move =
    | Accounted(v: Event)
    | Picked(c: nat)
    | SwitchedOut(c: nat)

  /** The budgets, and the processors whose current task is a real-time task. */
  datatype Machine = Machine(s: Budgets, running: set<nat>)

  /** Only a current real-time task is charged, and none is picked on a processor
      whose flag is set. */
  predicate MoveEnabled(m: Machine, v: Move) {
    match v
    case Accounted(e) => (e.Ran? || e.Period?) && Enabled(m.s, e) && (e.Ran? ==> e.c in m.running)
    case Picked(c) => c < |m.s| && !m.s[c].throttled
    case SwitchedOut(c) => c in m.running
  }

  function Moved(m: Machine, v: Move, p: Settings): Machine
    requires MoveEnabled(m, v)
  {
    match v
    case Accounted(e) => m.(s := Step(m.s, e, p))
    case Picked(c) => m.(running := m.running + {c})
    case SwitchedOut(c) => m.(running := m.running - {c})
  }

  predicate AllMoves(m: Machine, moves: seq<Move>, p: Settings)
    decreases |moves|
  {
    moves == [] || (MoveEnabled(m, moves[0]) && AllMoves(Moved(m, moves[0], p), moves[1..], p))
  }

  function Reached(m: Machine, moves: seq<Move>, p: Settings): Machine
    requires AllMoves(m, moves, p)
    decreases |moves|
  {
    if moves == [] then m else Reached(Moved(m, moves[0], p), moves[1..], p)
  }

  /** The run of the budgets in it. */
  function Events(moves: seq<Move>): seq<Event> {
    if moves == [] then []
    else (if moves[0].Accounted? then [moves[0].v] else []) + Events(moves[1..])
  }

  /** What happens on processor `c` in it. */
  function Seen(v: Move, c: nat): seq<Happening> {
    match v
    case Accounted(Ran(k, delta)) => if k == c then [Run(delta)] else []
    case Accounted(Period(overrun, online)) => if c in online then [Tick(overrun)] else []
    case Accounted(_) => []
    case Picked(k) => if k == c then [Pick] else []
    case SwitchedOut(k) => if k == c then [SwitchOut] else []
  }

  function OnProcessor(moves: seq<Move>, c: nat): seq<Happening> {
    if moves == [] then [] else Seen(moves[0], c) + OnProcessor(moves[1..], c)
  }

  /** The real-time time charged to a processor, and the timer overruns it saw. */
  function ChargedTo(run: seq<Event>, c: nat): nat {
    if run == [] then 0
    else (if run[0].Ran? && run[0].c == c then run[0].delta else 0) + ChargedTo(run[1..], c)
  }

  function OverrunsOn(run: seq<Event>, c: nat): nat {
    if run == [] then 0
    else (if run[0].Period? && c in run[0].online then run[0].overrun else 0) + OverrunsOn(run[1..], c)
  }

  lemma {:induction false} MovesAreEvents(m: Machine, moves: seq<Move>, p: Settings)
    requires AllMoves(m, moves, p)
    ensures AllEnabled(m.s, Events(moves), p) && NoHotplug(Events(moves))
    ensures Reached(m, moves, p).s == Final(m.s, Events(moves), p)
    decreases |moves|
  {
    if moves != [] {
      MovesAreEvents(Moved(m, moves[0], p), moves[1..], p);
      if moves[0].Accounted? {
        var run := Events(moves);
        assert run[0] == moves[0].v && run[1..] == Events(moves[1..]);
      } else {
        assert Events(moves) == Events(moves[1..]);
      }
    }
  }

  /** The account of processor `c` after what it saw of one move. */
  lemma SeenStep(m: Machine, a: Account, v: Move, c: nat, p: Settings)
    requires MoveEnabled(m, v) && c < |m.s| && !p.share && a.b == m.s[c] && a.running == (c in m.running)
    ensures |Moved(m, v, p).s| == |m.s|
    ensures Seen(v, c) == [] ==> Moved(m, v, p).s[c] == m.s[c] && (c in Moved(m, v, p).running <==> c in m.running)
    ensures Seen(v, c) != [] ==>
              && |Seen(v, c)| == 1 && Possible(a, Seen(v, c)[0])
              && Next(a, Seen(v, c)[0], p).b == Moved(m, v, p).s[c]
              && Next(a, Seen(v, c)[0], p).running == (c in Moved(m, v, p).running)
  {
    match v
    case Accounted(Ran(k, delta)) => ChargeIsLocal(m.s, k, delta, p);
    case Accounted(Period(overrun, online)) => TimerIsLocal(m.s, 0, overrun, online, p);
    case _ =>
  }

  /** The account of a processor follows its budget through the run of all of them. */
  lemma {:induction false} AccountFollows(m: Machine, a: Account, moves: seq<Move>, c: nat, p: Settings)
    requires AllMoves(m, moves, p) && c < |m.s| && !p.share && a.b == m.s[c] && a.running == (c in m.running)
    ensures AllPossible(a, OnProcessor(moves, c), p) && |Reached(m, moves, p).s| == |m.s|
    ensures var z := After(a, OnProcessor(moves, c), p);
            && z.b == Reached(m, moves, p).s[c]
            && z.total == a.total + ChargedTo(Events(moves), c)
            && z.overruns == a.overruns + OverrunsOn(Events(moves), c)
    decreases |moves|
  {
    if moves != [] {
      var v, m1 := moves[0], Moved(m, moves[0], p);
      SeenStep(m, a, v, c, p);
      EventsSplit(moves, c);
      if Seen(v, c) == [] {
        assert OnProcessor(moves, c) == OnProcessor(moves[1..], c);
        AccountFollows(m1, a, moves[1..], c, p);
      } else {
        var h := Seen(v, c)[0];
        assert OnProcessor(moves, c)[0] == h && OnProcessor(moves, c)[1..] == OnProcessor(moves[1..], c);
        AccountFollows(m1, Next(a, h, p), moves[1..], c, p);
      }
    }
  }

  lemma EventsSplit(moves: seq<Move>, c: nat)
    requires moves != []
    ensures var v := moves[0];
            && ChargedTo(Events(moves), c) ==
                 (if v.Accounted? && v.v.Ran? && v.v.c == c then v.v.delta else 0) + ChargedTo(Events(moves[1..]), c)
            && OverrunsOn(Events(moves), c) ==
                 (if v.Accounted? && v.v.Period? && c in v.v.online then v.v.overrun else 0) + OverrunsOn(Events(moves[1..]), c)
  {
    if moves[0].Accounted? {
      var run := Events(moves);
      assert run[0] == moves[0].v && run[1..] == Events(moves[1..]);
    } else {
      assert Events(moves) == Events(moves[1..]);
    }
  }

  /** Over every run of all processors without sharing and hotplug that starts with
      processor `c` within its budget, the real-time time charged to `c` is at most
      one budget, one budget per timer overrun it saw, and `d`, where at most `d` is
      charged to it between the last check within budget and the switch. */
  lemma ConsumptionBound(m: Machine, moves: seq<Move>, c: nat, d: int, p: Settings)
    requires Bounded(p) && !p.share && AllMoves(m, moves, p)
    requires c < |m.s| && m.s[c].runtime == p.runtime && 0 <= m.s[c].time <= p.runtime
    requires SwitchedWithin(Account(m.s[c], c in m.running, 0, 0, 0), OnProcessor(moves, c), d, p)
    ensures var run := Events(moves);
            && AllEnabled(m.s, run, p) && Reached(m, moves, p).s == Final(m.s, run, p)
            && ChargedTo(run, c) <= (1 + OverrunsOn(run, c)) * p.runtime + d
  {
    var a := Account(m.s[c], c in m.running, 0, 0, 0);
    MovesAreEvents(m, moves, p);
    AccountFollows(m, a, moves, c, p);
    CumulativeBound(a, OnProcessor(moves, c), d, p);
  }
}
