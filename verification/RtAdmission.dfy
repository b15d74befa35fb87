/** Admission control for real-time bandwidth over the tree of task groups
    (core.c): every accepted configuration is schedulable. */
module RtAdmission {
  import opened SchedConstants
  import opened PrioArrays
  import opened Ratios
  import opened TaskGroups

  // ----- the walk -----

  /** struct rt_schedulable_data: the settings proposed for one group, if any. */
  datatype Proposal = Proposal(tg: TaskGroup?, period: int, runtime: int)

  function Period(t: Tree, d: Proposal): int { if t.tg == d.tg then d.period else t.settings.rtPeriod }
  function Runtime(t: Tree, d: Proposal): int { if t.tg == d.tg then d.runtime else t.settings.rtRuntime }

  predicate Periods(t: Tree, d: Proposal) {
    Period(t, d) > 0 && forall c :: c in t.children ==> Period(c, d) > 0
  }

  /** The sum of the children's ratios as an unsigned long. */
  function ChildSum(ts: seq<Tree>, d: Proposal): int
    requires forall c :: c in ts ==> Period(c, d) > 0
  {
    if ts == [] then 0 else (ToRatio(Period(ts[0], d), Runtime(ts[0], d)) + ChildSum(ts[1..], d)) % ULONG
  }

  /** The global limits as seen by one walk: the ratio, whether bandwidth control
      is on, and the groups that have real-time tasks. */
  datatype Limits = Limits(ratio: int, enabled: bool, rtTasks: set<TaskGroup>)

  /** tg_rt_schedulable. */
  function Schedulable(t: Tree, d: Proposal, g: Limits): int
    requires Periods(t, d)
  {
    var period, runtime := Period(t, d), Runtime(t, d);
    if runtime > period && runtime != RUNTIME_INF then EINVAL
    else if g.enabled && runtime == 0 && t.tg in g.rtTasks then EBUSY
    else
      var total := ToRatio(period, runtime);
      if total > g.ratio then EINVAL
      else if ChildSum(t.children, d) > total then EINVAL
      else 0
  }

  /** The visitor of __rt_schedulable.  A division by a zero period, which no
      caller can propose, is given the error code too. */
  function RtVisitor(d: Proposal, g: Limits): Visitor<()> {
    (t: Tree, s: ()) => (if Periods(t, d) then Schedulable(t, d, g) else EINVAL, ())
  }

  function Nop(): Visitor<()> {
    (t: Tree, s: ()) => (0, ())
  }

  ghost predicate AllSchedulable(t: Tree, d: Proposal, g: Limits)
    decreases t, 1
  {
    Periods(t, d) && Schedulable(t, d, g) == 0 && AllChildren(t.children, d, g)
  }

  ghost predicate AllChildren(ts: seq<Tree>, d: Proposal, g: Limits)
    decreases ts, 0
  {
    ts == [] || (AllSchedulable(ts[0], d, g) && AllChildren(ts[1..], d, g))
  }

  /** __rt_schedulable. */
  ghost function RtSchedulable(t: Tree, d: Proposal, g: Limits): int {
    Walk(t, RtVisitor(d, g), Nop(), ()).0
  }

  /** The walk accepts exactly when every group passes its own test. */
  lemma {:induction false} WalkAccepts(t: Tree, d: Proposal, g: Limits)
    ensures RtSchedulable(t, d, g) == 0 <==> AllSchedulable(t, d, g)
    decreases t, 1
  {
    WalkAcceptsAll(t.children, d, g);
  }

  lemma {:induction false} WalkAcceptsAll(ts: seq<Tree>, d: Proposal, g: Limits)
    ensures WalkAll(ts, RtVisitor(d, g), Nop(), ()).0 == 0 <==> AllChildren(ts, d, g)
    decreases ts, 0
  {
    if ts != [] {
      WalkAccepts(ts[0], d, g);
      WalkAcceptsAll(ts[1..], d, g);
      assert Walk(ts[0], RtVisitor(d, g), Nop(), ()).1 == ();
    }
  }

  // ----- configurations -----

  function Ratio(t: Tree): int
    requires Proper(t.settings.rtPeriod, t.settings.rtRuntime)
  {
    ToRatio(t.settings.rtPeriod, t.settings.rtRuntime)
  }

  ghost predicate ProperTree(t: Tree)
    decreases t, 1
  {
    Proper(t.settings.rtPeriod, t.settings.rtRuntime) && ProperTrees(t.children)
  }

  ghost predicate ProperTrees(ts: seq<Tree>)
    decreases ts, 0
  {
    ts == [] || (ProperTree(ts[0]) && ProperTrees(ts[1..]))
  }

  /** The exact sum of the ratios of a list of groups. */
  ghost function SumRatios(ts: seq<Tree>): int
    requires ProperTrees(ts)
  {
    if ts == [] then 0 else
      assert ProperTree(ts[0]);
      Ratio(ts[0]) + SumRatios(ts[1..])
  }

  /** Every group is within the global ratio, and its children together are within
      its own. */
  ghost predicate Feasible(t: Tree, ratio: int)
    requires ProperTree(t)
    decreases t, 1
  {
    Ratio(t) <= ratio && SumRatios(t.children) <= Ratio(t) && FeasibleAll(t.children, ratio)
  }

  ghost predicate FeasibleAll(ts: seq<Tree>, ratio: int)
    requires ProperTrees(ts)
    decreases ts, 0
  {
    ts == [] || (Feasible(ts[0], ratio) && FeasibleAll(ts[1..], ratio))
  }

  // ----- unrelated groups -----

  ghost function Groups(t: Tree): set<TaskGroup>
    decreases t, 1
  {
    {t.tg} + GroupsOf(t.children)
  }

  ghost function GroupsOf(ts: seq<Tree>): set<TaskGroup>
    decreases ts, 0
  {
    if ts == [] then {} else Groups(ts[0]) + GroupsOf(ts[1..])
  }

  /** No group of `s` lies below another group of `s`. */
  ghost predicate Unrelated(t: Tree, s: set<TaskGroup>)
    decreases t, 1
  {
    (t.tg in s ==> GroupsOf(t.children) !! s) && UnrelatedAll(t.children, s)
  }

  ghost predicate UnrelatedAll(ts: seq<Tree>, s: set<TaskGroup>)
    decreases ts, 0
  {
    ts == [] || (Unrelated(ts[0], s) && UnrelatedAll(ts[1..], s))
  }

  /** The ratios of the groups of `s` in the tree, summed. */
  ghost function SumOver(t: Tree, s: set<TaskGroup>): int
    requires ProperTree(t)
    decreases t, 1
  {
    (if t.tg in s then Ratio(t) else 0) + SumOverAll(t.children, s)
  }

  ghost function SumOverAll(ts: seq<Tree>, s: set<TaskGroup>): int
    requires ProperTrees(ts)
    decreases ts, 0
  {
    if ts == [] then 0 else SumOver(ts[0], s) + SumOverAll(ts[1..], s)
  }

  lemma {:induction false} NoneSum(ts: seq<Tree>, s: set<TaskGroup>)
    requires ProperTrees(ts) && GroupsOf(ts) !! s
    ensures SumOverAll(ts, s) == 0
    decreases ts, 0
  {
    if ts != [] {
      assert ts[0].tg in Groups(ts[0]);
      NoneSum(ts[0].children, s);
      NoneSum(ts[1..], s);
    }
  }

  /** Pairwise unrelated groups together stay within the ratio of the group they
      all lie under, hence within the global ratio. */
  lemma {:induction false} UnrelatedFit(t: Tree, ratio: int, s: set<TaskGroup>)
    requires ProperTree(t) && Feasible(t, ratio) && Unrelated(t, s)
    ensures SumOver(t, s) <= Ratio(t) <= ratio
    decreases t, 1
  {
    ProperRatio(t.settings.rtPeriod, t.settings.rtRuntime);
    if t.tg in s {
      NoneSum(t.children, s);
    } else {
      UnrelatedFitAll(t.children, ratio, s);
    }
  }

  lemma {:induction false} UnrelatedFitAll(ts: seq<Tree>, ratio: int, s: set<TaskGroup>)
    requires ProperTrees(ts) && FeasibleAll(ts, ratio) && UnrelatedAll(ts, s)
    ensures SumOverAll(ts, s) <= SumRatios(ts)
    decreases ts, 0
  {
    if ts != [] {
      UnrelatedFit(ts[0], ratio, s);
      UnrelatedFitAll(ts[1..], ratio, s);
    }
  }

  // ----- accepted proposals -----

  /** The tree after the proposal is written. */
  ghost function Update(t: Tree, d: Proposal): Tree
    decreases t, 1
  {
    Node(t.tg, t.parent, t.settings.(rtPeriod := Period(t, d), rtRuntime := Runtime(t, d)), UpdateAll(t.children, d))
  }

  ghost function UpdateAll(ts: seq<Tree>, d: Proposal): seq<Tree>
    decreases ts, 0
  {
    if ts == [] then [] else [Update(ts[0], d)] + UpdateAll(ts[1..], d)
  }

  ghost function Tgs(ts: seq<Tree>): (gs: seq<TaskGroup>)
    ensures |gs| == |ts|
  {
    if ts == [] then [] else [ts[0].tg] + Tgs(ts[1..])
  }

  /** No group occurs twice in the tree. */
  ghost predicate DistinctTree(t: Tree)
    decreases t, 1
  {
    t.tg !in GroupsOf(t.children) && DistinctTrees(t.children)
  }

  ghost predicate DistinctTrees(ts: seq<Tree>)
    decreases ts, 0
  {
    ts == [] || (DistinctTree(ts[0]) && Groups(ts[0]) !! GroupsOf(ts[1..]) && DistinctTrees(ts[1..]))
  }

  lemma {:induction false} TgsInGroups(ts: seq<Tree>)
    ensures forall g :: g in Tgs(ts) ==> g in GroupsOf(ts)
    decreases |ts|
  {
    if ts != [] {
      assert ts[0].tg in Groups(ts[0]);
      TgsInGroups(ts[1..]);
    }
  }

  lemma {:induction false} DistinctTgs(ts: seq<Tree>)
    requires DistinctTrees(ts)
    ensures NoDup(Tgs(ts))
    decreases |ts|
  {
    if ts != [] {
      assert ts[0].tg in Groups(ts[0]);
      TgsInGroups(ts[1..]);
      DistinctTgs(ts[1..]);
      assert Tgs(ts)[1..] == Tgs(ts[1..]);
    }
  }

  /** What the walk tests of a list of siblings: proper new settings. */
  lemma {:induction false} AcceptedProper(ts: seq<Tree>, d: Proposal, g: Limits)
    requires AllChildren(ts, d, g) && ProperTrees(ts) && Writable(d.runtime)
    ensures ProperTrees(UpdateAll(ts, d))
    decreases ts, 0
  {
    if ts != [] {
      AcceptedProper(ts[0].children, d, g);
      AcceptedProper(ts[1..], d, g);
      assert UpdateAll(ts, d)[1..] == UpdateAll(ts[1..], d);
    }
  }

  lemma {:induction false} SumNonNegative(ts: seq<Tree>)
    requires ProperTrees(ts)
    ensures 0 <= SumRatios(ts)
  {
    if ts != [] {
      ProperRatio(ts[0].settings.rtPeriod, ts[0].settings.rtRuntime);
      SumNonNegative(ts[1..]);
    }
  }

  /** One changed setting moves a sum by at most one unit. */
  lemma {:induction false} SumMoves(ts: seq<Tree>, d: Proposal)
    requires ProperTrees(ts) && ProperTrees(UpdateAll(ts, d)) && NoDup(Tgs(ts))
    ensures SumRatios(UpdateAll(ts, d)) <= SumRatios(ts) + if d.tg in Tgs(ts) then UNIT else 0
  {
    if ts != [] {
      var u := UpdateAll(ts, d);
      assert u[1..] == UpdateAll(ts[1..], d);
      ProperRatio(ts[0].settings.rtPeriod, ts[0].settings.rtRuntime);
      ProperRatio(u[0].settings.rtPeriod, u[0].settings.rtRuntime);
      SumMoves(ts[1..], d);
    }
  }

  /** A sum that fits an unsigned long is computed exactly. */
  lemma {:induction false} ChildSumFits(ts: seq<Tree>, d: Proposal)
    requires ProperTrees(UpdateAll(ts, d)) && (forall c :: c in ts ==> Period(c, d) > 0)
    requires SumRatios(UpdateAll(ts, d)) < ULONG
    ensures ChildSum(ts, d) == SumRatios(UpdateAll(ts, d))
  {
    SumNonNegative(UpdateAll(ts, d));
    if ts != [] {
      var u := UpdateAll(ts, d);
      assert u[1..] == UpdateAll(ts[1..], d);
      RatioPositive(u[0].settings.rtPeriod, u[0].settings.rtRuntime);
      SumNonNegative(u[1..]);
      ChildSumFits(ts[1..], d);
      NoWrap(Ratio(u[0]) + SumRatios(u[1..]));
    }
  }

  lemma RatioPositive(period: int, runtime: int)
    requires Proper(period, runtime)
    ensures 0 <= ToRatio(period, runtime)
  {
    ProperRatio(period, runtime);
  }

  lemma NoWrap(x: int)
    requires 0 <= x < ULONG
    ensures x % ULONG == x
  {
  }

  lemma {:induction false} PeriodsPositive(ts: seq<Tree>, d: Proposal)
    requires ProperTrees(UpdateAll(ts, d))
    ensures forall c :: c in ts ==> Period(c, d) > 0
  {
    if ts != [] {
      assert UpdateAll(ts, d)[1..] == UpdateAll(ts[1..], d);
      PeriodsPositive(ts[1..], d);
    }
  }

  /** One changed setting moves a sum by at most one unit, so that no sum the
      walk computes wraps: it equals the exact sum. */
  lemma SumExact(ts: seq<Tree>, d: Proposal, g: Limits)
    requires AllChildren(ts, d, g) && ProperTrees(ts) && Writable(d.runtime) && NoDup(Tgs(ts))
    requires SumRatios(ts) <= UNIT
    ensures ProperTrees(UpdateAll(ts, d)) && (forall c :: c in ts ==> Period(c, d) > 0)
    ensures ChildSum(ts, d) == SumRatios(UpdateAll(ts, d))
    ensures 0 <= SumRatios(ts) && 0 <= SumRatios(UpdateAll(ts, d)) <= SumRatios(ts) + if d.tg in Tgs(ts) then UNIT else 0
  {
    AcceptedProper(ts, d, g);
    SumNonNegative(ts);
    SumNonNegative(UpdateAll(ts, d));
    SumMoves(ts, d);
    PeriodsPositive(ts, d);
    ChildSumFits(ts, d);
  }

  /** An accepted proposal leaves a feasible tree, whatever the new global ratio. */
  lemma {:induction false} AcceptedFeasible(t: Tree, d: Proposal, g: Limits, ratio: int)
    requires ProperTree(t) && Feasible(t, ratio) && DistinctTree(t) && AllSchedulable(t, d, g) && Writable(d.runtime)
    ensures ProperTree(Update(t, d)) && Feasible(Update(t, d), g.ratio)
    decreases t, 1
  {
    ProperRatio(t.settings.rtPeriod, t.settings.rtRuntime);
    DistinctTgs(t.children);
    SumExact(t.children, d, g);
    AcceptedFeasibleAll(t.children, d, g, ratio);
  }

  lemma {:induction false} AcceptedFeasibleAll(ts: seq<Tree>, d: Proposal, g: Limits, ratio: int)
    requires ProperTrees(ts) && FeasibleAll(ts, ratio) && DistinctTrees(ts) && AllChildren(ts, d, g) && Writable(d.runtime)
    ensures ProperTrees(UpdateAll(ts, d)) && FeasibleAll(UpdateAll(ts, d), g.ratio)
    decreases ts, 0
  {
    if ts != [] {
      AcceptedFeasible(ts[0], d, g, ratio);
      AcceptedFeasibleAll(ts[1..], d, g, ratio);
      assert UpdateAll(ts, d)[1..] == UpdateAll(ts[1..], d);
    }
  }

  // ----- whole runs -----

  /** The tree, the two sysctls in microseconds, and def_rt_bandwidth.rt_period. */
  datatype Config = Config(tree: Tree, sysPeriod: int, sysRuntime: int, defPeriod: int)

  function GlobalRuntime(sysRuntime: int): int {
    if sysRuntime < 0 then RUNTIME_INF else sysRuntime * NSEC_PER_USEC
  }

  function GlobalRatio(sysPeriod: int, sysRuntime: int): int
    requires sysPeriod > 0
  {
    ToRatio(sysPeriod * NSEC_PER_USEC, GlobalRuntime(sysRuntime))
  }

  /** Each group is within the global ratio and its children within its own; the
      global limits are proper themselves. */
  ghost predicate Good(c: Config) {
    && c.sysPeriod > 0 && c.defPeriod > 0
    && Proper(c.sysPeriod * NSEC_PER_USEC, GlobalRuntime(c.sysRuntime))
    && ProperTree(c.tree) && DistinctTree(c.tree)
    && Feasible(c.tree, GlobalRatio(c.sysPeriod, c.sysRuntime))
  }

  /** A change of one group's settings, of the tree, or of the sysctls, with the
      groups that have real-time tasks at that moment. */
  datatype Event =
    | SetBandwidth(tg: TaskGroup, period: int, runtime: int, rtTasks: set<TaskGroup>)
    | Create(parent: TaskGroup, tg: TaskGroup, cfsPeriod: int)
    | Destroy(tg: TaskGroup)
    | Sysctl(period: int, runtime: int, rtTasks: set<TaskGroup>)

  /** Periods are unsigned, runtimes are written in microseconds through a long or
      an int, and a new group is new. */
  ghost predicate Enabled(c: Config, v: Event) {
    match v
    case SetBandwidth(_, period, runtime, _) => period >= 0 && Writable(runtime)
    case Create(_, tg, _) => tg !in Groups(c.tree)
    case Destroy(_) => true
    case Sysctl(period, runtime, _) => period >= 0 && runtime <= LONG_MAX
  }

  /** The new group goes to the head of its parent's list, without any runtime. */
  ghost function AddTo(t: Tree, leaf: Tree): Tree
    decreases t, 1
  {
    var rest := AddToAll(t.children, leaf);
    t.(children := if t.tg == leaf.parent then [leaf] + rest else rest)
  }

  ghost function AddToAll(ts: seq<Tree>, leaf: Tree): seq<Tree>
    decreases ts, 0
  {
    if ts == [] then [] else [AddTo(ts[0], leaf)] + AddToAll(ts[1..], leaf)
  }

  /** Only a group without children can be removed. */
  ghost function Prune(t: Tree, tg: TaskGroup): Tree
    decreases t, 1
  {
    t.(children := PruneAll(t.children, tg))
  }

  ghost function PruneAll(ts: seq<Tree>, tg: TaskGroup): seq<Tree>
    decreases ts, 0
  {
    if ts == [] then []
    else if ts[0].tg == tg && ts[0].children == [] then PruneAll(ts[1..], tg)
    else [Prune(ts[0], tg)] + PruneAll(ts[1..], tg)
  }

  /** A new group: no real-time runtime, and no CFS limit. */
  ghost function Leaf(parent: TaskGroup, tg: TaskGroup, period: int, cfsPeriod: int): Tree {
    Node(tg, parent, Settings(period, 0, cfsPeriod, RUNTIME_INF), [])
  }

  /** tg_set_rt_bandwidth. */
  ghost function SetBandwidthTo(c: Config, d: Proposal, rtTasks: set<TaskGroup>): Config
    requires c.sysPeriod > 0
  {
    var g := Limits(GlobalRatio(c.sysPeriod, c.sysRuntime), c.sysRuntime >= 0, rtTasks);
    if RtSchedulable(c.tree, d, g) == 0 then c.(tree := Update(c.tree, d)) else c
  }

  /** sched_rt_handler: the constraints are tested with the new values in place,
      and the old values are put back if the test fails. */
  ghost function Handle(c: Config, period: int, runtime: int, rtTasks: set<TaskGroup>): Config {
    if period <= 0 then c
    else if GlobalRuntime(runtime) > period * NSEC_PER_USEC && GlobalRuntime(runtime) != RUNTIME_INF then c
    else
      var g := Limits(GlobalRatio(period, runtime), runtime >= 0, rtTasks);
      if RtSchedulable(c.tree, Proposal(null, 0, 0), g) != 0 then c
      else Config(c.tree, period, runtime, period * NSEC_PER_USEC)
  }

  ghost function Step(c: Config, v: Event): Config
    requires c.sysPeriod > 0
  {
    match v
    case SetBandwidth(tg, period, runtime, rtTasks) => SetBandwidthTo(c, Proposal(tg, period, runtime), rtTasks)
    case Create(parent, tg, cfsPeriod) => c.(tree := AddTo(c.tree, Leaf(parent, tg, c.defPeriod, cfsPeriod)))
    case Destroy(tg) => c.(tree := Prune(c.tree, tg))
    case Sysctl(period, runtime, rtTasks) => Handle(c, period, runtime, rtTasks)
  }

  lemma {:induction false} UpdateDistinctTree(t: Tree, d: Proposal)
    ensures Groups(Update(t, d)) == Groups(t) && (DistinctTree(t) ==> DistinctTree(Update(t, d)))
    decreases t, 1
  {
    UpdateDistinct(t.children, d);
  }

  lemma {:induction false} UpdateDistinct(ts: seq<Tree>, d: Proposal)
    ensures GroupsOf(UpdateAll(ts, d)) == GroupsOf(ts) && (DistinctTrees(ts) ==> DistinctTrees(UpdateAll(ts, d)))
    decreases ts, 0
  {
    if ts != [] {
      UpdateDistinctTree(ts[0], d);
      UpdateDistinct(ts[1..], d);
      var us := UpdateAll(ts, d);
      assert us[0] == Update(ts[0], d) && us[1..] == UpdateAll(ts[1..], d);
    }
  }

  lemma {:induction false} UpdateNothing(t: Tree, d: Proposal)
    requires d.tg == null
    ensures Update(t, d) == t
    decreases t, 1
  {
    UpdateNothingAll(t.children, d);
  }

  lemma {:induction false} UpdateNothingAll(ts: seq<Tree>, d: Proposal)
    requires d.tg == null
    ensures UpdateAll(ts, d) == ts
    decreases ts, 0
  {
    if ts != [] {
      UpdateNothing(ts[0], d);
      UpdateNothingAll(ts[1..], d);
    }
  }

  /** A new group joins once. */
  lemma {:induction false} AddDistinct(t: Tree, leaf: Tree)
    requires DistinctTree(t) && leaf.tg !in Groups(t) && leaf.children == [] && leaf.parent != null
    ensures DistinctTree(AddTo(t, leaf))
    ensures Groups(AddTo(t, leaf)) == Groups(t) + if leaf.parent in Groups(t) then {leaf.tg} else {}
    decreases t, 1
  {
    AddDistinctAll(t.children, leaf);
    if t.tg == leaf.parent {
      var rest := AddToAll(t.children, leaf);
      var us := [leaf] + rest;
      assert us[0] == leaf && us[1..] == rest;
      assert Groups(leaf) == {leaf.tg} && DistinctTree(leaf);
      assert AddTo(t, leaf).children == us;
    }
  }

  lemma {:induction false} AddDistinctAll(ts: seq<Tree>, leaf: Tree)
    requires DistinctTrees(ts) && leaf.tg !in GroupsOf(ts) && leaf.children == [] && leaf.parent != null
    ensures DistinctTrees(AddToAll(ts, leaf))
    ensures GroupsOf(AddToAll(ts, leaf)) == GroupsOf(ts) + if leaf.parent in GroupsOf(ts) then {leaf.tg} else {}
    decreases ts, 0
  {
    if ts != [] {
      AddDistinct(ts[0], leaf);
      AddDistinctAll(ts[1..], leaf);
      var us := AddToAll(ts, leaf);
      assert us[0] == AddTo(ts[0], leaf) && us[1..] == AddToAll(ts[1..], leaf);
    }
  }

  /** A new group has ratio zero. */
  lemma {:induction false} AddKeeps(t: Tree, leaf: Tree, ratio: int)
    requires ProperTree(t) && Feasible(t, ratio)
    requires leaf.children == [] && leaf.settings.rtPeriod > 0 && leaf.settings.rtRuntime == 0
    ensures var u := AddTo(t, leaf); ProperTree(u) && Feasible(u, ratio) && Ratio(u) == Ratio(t)
    decreases t, 1
  {
    ProperRatio(t.settings.rtPeriod, t.settings.rtRuntime);
    AddKeepsAll(t.children, leaf, ratio);
    if t.tg == leaf.parent {
      LeafFirst(AddToAll(t.children, leaf), leaf, ratio);
    }
  }

  lemma LeafFirst(ts: seq<Tree>, leaf: Tree, ratio: int)
    requires ProperTrees(ts) && FeasibleAll(ts, ratio) && ratio >= 0
    requires leaf.children == [] && leaf.settings.rtPeriod > 0 && leaf.settings.rtRuntime == 0
    ensures var us := [leaf] + ts; ProperTrees(us) && FeasibleAll(us, ratio) && SumRatios(us) == SumRatios(ts)
  {
    var us := [leaf] + ts;
    assert us[1..] == ts && us[0] == leaf;
    ProperRatio(leaf.settings.rtPeriod, leaf.settings.rtRuntime);
    assert ProperTree(leaf) && Feasible(leaf, ratio);
  }

  lemma {:induction false} AddKeepsAll(ts: seq<Tree>, leaf: Tree, ratio: int)
    requires ProperTrees(ts) && FeasibleAll(ts, ratio)
    requires leaf.children == [] && leaf.settings.rtPeriod > 0 && leaf.settings.rtRuntime == 0
    ensures var us := AddToAll(ts, leaf); ProperTrees(us) && FeasibleAll(us, ratio) && SumRatios(us) == SumRatios(ts)
    decreases ts, 0
  {
    if ts != [] {
      AddKeeps(ts[0], leaf, ratio);
      AddKeepsAll(ts[1..], leaf, ratio);
      var us := AddToAll(ts, leaf);
      assert us[0] == AddTo(ts[0], leaf) && us[1..] == AddToAll(ts[1..], leaf);
    }
  }

  lemma {:induction false} PruneDistinct(t: Tree, tg: TaskGroup)
    ensures Groups(Prune(t, tg)) <= Groups(t) && (DistinctTree(t) ==> DistinctTree(Prune(t, tg)))
    decreases t, 1
  {
    PruneDistinctAll(t.children, tg);
  }

  lemma {:induction false} PruneDistinctAll(ts: seq<Tree>, tg: TaskGroup)
    ensures GroupsOf(PruneAll(ts, tg)) <= GroupsOf(ts) && (DistinctTrees(ts) ==> DistinctTrees(PruneAll(ts, tg)))
    decreases ts, 0
  {
    if ts != [] {
      PruneDistinct(ts[0], tg);
      PruneDistinctAll(ts[1..], tg);
      if !(ts[0].tg == tg && ts[0].children == []) {
        var us := PruneAll(ts, tg);
        assert us[0] == Prune(ts[0], tg) && us[1..] == PruneAll(ts[1..], tg);
      }
    }
  }

  /** Removing a leaf only lowers sums. */
  lemma {:induction false} PruneKeeps(t: Tree, tg: TaskGroup, ratio: int)
    requires ProperTree(t) && Feasible(t, ratio)
    ensures var u := Prune(t, tg); ProperTree(u) && Feasible(u, ratio) && Ratio(u) == Ratio(t)
    decreases t, 1
  {
    PruneKeepsAll(t.children, tg, ratio);
  }

  lemma {:induction false} PruneKeepsAll(ts: seq<Tree>, tg: TaskGroup, ratio: int)
    requires ProperTrees(ts) && FeasibleAll(ts, ratio)
    ensures var us := PruneAll(ts, tg); ProperTrees(us) && FeasibleAll(us, ratio) && SumRatios(us) <= SumRatios(ts)
    decreases ts, 0
  {
    if ts != [] {
      ProperRatio(ts[0].settings.rtPeriod, ts[0].settings.rtRuntime);
      PruneKeepsAll(ts[1..], tg, ratio);
      if !(ts[0].tg == tg && ts[0].children == []) {
        PruneKeeps(ts[0], tg, ratio);
        var us := PruneAll(ts, tg);
        assert us[0] == Prune(ts[0], tg) && us[1..] == PruneAll(ts[1..], tg);
      }
    }
  }

  lemma StepGood(c: Config, v: Event)
    requires Good(c) && Enabled(c, v)
    ensures Good(Step(c, v))
  {
    var ratio := GlobalRatio(c.sysPeriod, c.sysRuntime);
    match v
    case SetBandwidth(tg, period, runtime, rtTasks) =>
      var d, g := Proposal(tg, period, runtime), Limits(ratio, c.sysRuntime >= 0, rtTasks);
      WalkAccepts(c.tree, d, g);
      if AllSchedulable(c.tree, d, g) {
        AcceptedFeasible(c.tree, d, g, ratio);
        UpdateDistinctTree(c.tree, d);
      }
    case Create(parent, tg, cfsPeriod) =>
      AddKeeps(c.tree, Leaf(parent, tg, c.defPeriod, cfsPeriod), ratio);
      AddDistinct(c.tree, Leaf(parent, tg, c.defPeriod, cfsPeriod));
    case Destroy(tg) =>
      PruneKeeps(c.tree, tg, ratio);
      PruneDistinct(c.tree, tg);
    case Sysctl(period, runtime, rtTasks) =>
      if period > 0 {
        var d, g := Proposal(null, 0, 0), Limits(GlobalRatio(period, runtime), runtime >= 0, rtTasks);
        WalkAccepts(c.tree, d, g);
        UpdateNothing(c.tree, d);
        if AllSchedulable(c.tree, d, g) {
          AcceptedFeasible(c.tree, d, g, ratio);
        }
      }
  }

  // ----- what a step stores -----

  /** The settings of every group of the tree. */
  ghost function Table(t: Tree): map<TaskGroup, Settings>
    decreases t, 1
  {
    TableOf(t.children)[t.tg := t.settings]
  }

  ghost function TableOf(ts: seq<Tree>): map<TaskGroup, Settings>
    decreases ts, 0
  {
    if ts == [] then map[] else Table(ts[0]) + TableOf(ts[1..])
  }

  lemma {:induction false} TableKeys(t: Tree)
    ensures Table(t).Keys == Groups(t)
    decreases t, 1
  {
    TableKeysAll(t.children);
  }

  lemma {:induction false} TableKeysAll(ts: seq<Tree>)
    ensures TableOf(ts).Keys == GroupsOf(ts)
    decreases ts, 0
  {
    if ts != [] {
      TableKeys(ts[0]);
      TableKeysAll(ts[1..]);
    }
  }

  ghost function Stored(table: map<TaskGroup, Settings>, tg: TaskGroup, period: int, runtime: int): map<TaskGroup, Settings> {
    map n | n in table :: if n == tg then table[n].(rtPeriod := period, rtRuntime := runtime) else table[n]
  }

  lemma StoredMerge(a: map<TaskGroup, Settings>, b: map<TaskGroup, Settings>, tg: TaskGroup, period: int, runtime: int)
    ensures Stored(a, tg, period, runtime) + Stored(b, tg, period, runtime) == Stored(a + b, tg, period, runtime)
  {
  }

  lemma {:induction false} UpdateTable(t: Tree, tg: TaskGroup, period: int, runtime: int)
    ensures Table(Update(t, Proposal(tg, period, runtime))) == Stored(Table(t), tg, period, runtime)
    decreases t, 1
  {
    UpdateTableAll(t.children, tg, period, runtime);
  }

  lemma {:induction false} UpdateTableAll(ts: seq<Tree>, tg: TaskGroup, period: int, runtime: int)
    ensures TableOf(UpdateAll(ts, Proposal(tg, period, runtime))) == Stored(TableOf(ts), tg, period, runtime)
    decreases ts, 0
  {
    if ts != [] {
      var d := Proposal(tg, period, runtime);
      UpdateTable(ts[0], tg, period, runtime);
      UpdateTableAll(ts[1..], tg, period, runtime);
      StoredMerge(Table(ts[0]), TableOf(ts[1..]), tg, period, runtime);
      assert UpdateAll(ts, d)[1..] == UpdateAll(ts[1..], d);
    }
  }

  lemma {:induction false} AddTable(t: Tree, leaf: Tree)
    requires leaf.tg !in Groups(t) && leaf.children == [] && leaf.parent != null
    ensures Table(AddTo(t, leaf)) == if leaf.parent in Groups(t) then Table(t)[leaf.tg := leaf.settings] else Table(t)
    decreases t, 1
  {
    AddTableAll(t.children, leaf);
    TableKeysAll(t.children);
    if t.tg == leaf.parent {
      LeafTable(AddToAll(t.children, leaf), TableOf(t.children), leaf);
    }
  }

  lemma LeafTable(ts: seq<Tree>, table: map<TaskGroup, Settings>, leaf: Tree)
    requires leaf.children == [] && leaf.tg !in table
    requires TableOf(ts) == table || TableOf(ts) == table[leaf.tg := leaf.settings]
    ensures TableOf([leaf] + ts) == table[leaf.tg := leaf.settings]
  {
    assert ([leaf] + ts)[1..] == ts;
    assert Table(leaf) == map[leaf.tg := leaf.settings];
  }

  lemma {:induction false} AddTableAll(ts: seq<Tree>, leaf: Tree)
    requires leaf.tg !in GroupsOf(ts) && leaf.children == [] && leaf.parent != null
    ensures TableOf(AddToAll(ts, leaf)) ==
            if leaf.parent in GroupsOf(ts) then TableOf(ts)[leaf.tg := leaf.settings] else TableOf(ts)
    decreases ts, 0
  {
    if ts != [] {
      AddTable(ts[0], leaf);
      AddTableAll(ts[1..], leaf);
      TableKeys(ts[0]);
      TableKeysAll(ts[1..]);
      var us := AddToAll(ts, leaf);
      assert us[0] == AddTo(ts[0], leaf) && us[1..] == AddToAll(ts[1..], leaf);
    }
  }

  /** `tg` has no children, wherever it is in the tree. */
  ghost predicate Childless(t: Tree, tg: TaskGroup)
    decreases t, 1
  {
    (t.tg == tg ==> t.children == []) && ChildlessIn(t.children, tg)
  }

  ghost predicate ChildlessIn(ts: seq<Tree>, tg: TaskGroup)
    decreases ts, 0
  {
    ts == [] || (Childless(ts[0], tg) && ChildlessIn(ts[1..], tg))
  }

  lemma MinusMerge(a: map<TaskGroup, Settings>, b: map<TaskGroup, Settings>, tg: TaskGroup)
    ensures (a - {tg}) + (b - {tg}) == (a + b) - {tg}
  {
  }

  lemma {:induction false} PruneTable(t: Tree, tg: TaskGroup)
    requires Childless(t, tg) && t.tg != tg
    ensures Table(Prune(t, tg)) == Table(t) - {tg}
    decreases t, 1
  {
    PruneTableAll(t.children, tg);
  }

  lemma {:induction false} PruneTableAll(ts: seq<Tree>, tg: TaskGroup)
    requires ChildlessIn(ts, tg)
    ensures TableOf(PruneAll(ts, tg)) == TableOf(ts) - {tg}
    decreases ts, 0
  {
    if ts != [] {
      PruneTableAll(ts[1..], tg);
      var us := PruneAll(ts, tg);
      if ts[0].tg == tg {
        assert TableOf([]) == map[];
        assert Table(ts[0]) == map[tg := ts[0].settings];
        assert us == PruneAll(ts[1..], tg);
      } else {
        PruneTable(ts[0], tg);
        assert us[0] == Prune(ts[0], tg) && us[1..] == PruneAll(ts[1..], tg);
      }
      MinusMerge(Table(ts[0]), TableOf(ts[1..]), tg);
    }
  }

  /** What a setting stores: if every group passes its test the group has the
      proposed period and runtime; if not nothing changes; and no other setting
      of any group and no sysctl changes in either case. */
  lemma SetStores(c: Config, tg: TaskGroup, period: int, runtime: int, rtTasks: set<TaskGroup>)
    requires c.sysPeriod > 0
    ensures var z := Step(c, SetBandwidth(tg, period, runtime, rtTasks));
            var ok := AllSchedulable(c.tree, Proposal(tg, period, runtime),
                                     Limits(GlobalRatio(c.sysPeriod, c.sysRuntime), c.sysRuntime >= 0, rtTasks));
            && z.sysPeriod == c.sysPeriod && z.sysRuntime == c.sysRuntime && z.defPeriod == c.defPeriod
            && Table(z.tree).Keys == Table(c.tree).Keys
            && forall n :: n in Table(c.tree) ==>
                 Table(z.tree)[n] == if ok && n == tg then Table(c.tree)[n].(rtPeriod := period, rtRuntime := runtime)
                                     else Table(c.tree)[n]
  {
    var d, g := Proposal(tg, period, runtime), Limits(GlobalRatio(c.sysPeriod, c.sysRuntime), c.sysRuntime >= 0, rtTasks);
    WalkAccepts(c.tree, d, g);
    UpdateTable(c.tree, tg, period, runtime);
  }

  /** What a write of the sysctls stores: both, and the default period, exactly if
      the period is positive, the runtime is negative or within it, and every
      group passes its test under the new global ratio. */
  lemma SysctlStores(c: Config, period: int, runtime: int, rtTasks: set<TaskGroup>)
    requires c.sysPeriod > 0 && runtime <= LONG_MAX
    ensures Step(c, Sysctl(period, runtime, rtTasks)) ==
            if period > 0 && (runtime < 0 || runtime <= period)
               && AllSchedulable(c.tree, Proposal(null, 0, 0), Limits(GlobalRatio(period, runtime), runtime >= 0, rtTasks))
            then Config(c.tree, period, runtime, period * 1000) else c
  {
    if period > 0 {
      WalkAccepts(c.tree, Proposal(null, 0, 0), Limits(GlobalRatio(period, runtime), runtime >= 0, rtTasks));
    }
  }

  /** A new group has the default period and no runtime; removing a group without
      children takes out that group; no setting of any other group changes. */
  lemma TreeStores(c: Config, parent: TaskGroup, tg: TaskGroup, cfsPeriod: int)
    requires c.sysPeriod > 0
    ensures parent in Groups(c.tree) && tg !in Groups(c.tree) ==>
              Table(Step(c, Create(parent, tg, cfsPeriod)).tree)
              == Table(c.tree)[tg := Settings(c.defPeriod, 0, cfsPeriod, 0xFFFF_FFFF_FFFF_FFFF)]
    ensures Childless(c.tree, tg) && tg != c.tree.tg ==> Table(Step(c, Destroy(tg)).tree) == Table(c.tree) - {tg}
  {
    if tg !in Groups(c.tree) {
      AddTable(c.tree, Leaf(parent, tg, c.defPeriod, cfsPeriod));
    }
    if Childless(c.tree, tg) && tg != c.tree.tg {
      PruneTable(c.tree, tg);
    }
  }

  ghost predicate AllEnabled(c: Config, run: seq<Event>)
    requires c.sysPeriod > 0
    decreases |run|
  {
    run == [] || (Enabled(c, run[0]) && Step(c, run[0]).sysPeriod > 0 && AllEnabled(Step(c, run[0]), run[1..]))
  }

  ghost function Final(c: Config, run: seq<Event>): Config
    requires c.sysPeriod > 0 && AllEnabled(c, run)
    decreases |run|
  {
    if run == [] then c else Final(Step(c, run[0]), run[1..])
  }

  /** Every reachable configuration is schedulable. */
  lemma {:induction false} RunGood(c: Config, run: seq<Event>)
    requires Good(c) && AllEnabled(c, run)
    ensures Good(Final(c, run))
    decreases |run|
  {
    if run != [] {
      StepGood(c, run[0]);
      RunGood(Step(c, run[0]), run[1..]);
    }
  }

  /** The boot configuration: a root group with the global settings. */
  ghost function Boot(root: TaskGroup, cfsPeriod: int): Config {
    Config(Node(root, null, Settings(1000000 * NSEC_PER_USEC, 950000 * NSEC_PER_USEC, cfsPeriod, RUNTIME_INF), []),
           1000000, 950000, 1000000 * NSEC_PER_USEC)
  }

  lemma BootGood(root: TaskGroup, cfsPeriod: int)
    ensures Good(Boot(root, cfsPeriod))
  {
    ProperRatio(1000000 * NSEC_PER_USEC, 950000 * NSEC_PER_USEC);
  }

  // ----- what that means for bandwidth -----

  function Share(t: Tree): real
    requires Proper(t.settings.rtPeriod, t.settings.rtRuntime)
  {
    Bandwidth(t.settings.rtPeriod, t.settings.rtRuntime)
  }

  ghost function SumShares(ts: seq<Tree>): real
    requires ProperTrees(ts)
  {
    if ts == [] then 0.0 else
      assert ProperTree(ts[0]);
      Share(ts[0]) + SumShares(ts[1..])
  }

  /** The shares of the groups of `s` in the tree, summed. */
  ghost function Used(t: Tree, s: set<TaskGroup>): real
    requires ProperTree(t)
    decreases t, 1
  {
    (if t.tg in s then Share(t) else 0.0) + UsedAll(t.children, s)
  }

  ghost function UsedAll(ts: seq<Tree>, s: set<TaskGroup>): real
    requires ProperTrees(ts)
    decreases ts, 0
  {
    if ts == [] then 0.0 else Used(ts[0], s) + UsedAll(ts[1..], s)
  }

  /** Every group is within `limit` and its children together are within its own
      share, up to `slack` for each group that is counted. */
  ghost predicate Fits(t: Tree, limit: real, slack: real)
    requires ProperTree(t)
    decreases t, 1
  {
    && Share(t) <= limit + slack
    && SumShares(t.children) <= Share(t) + |t.children| as real * slack
    && FitsAll(t.children, limit, slack)
  }

  ghost predicate FitsAll(ts: seq<Tree>, limit: real, slack: real)
    requires ProperTrees(ts)
    decreases ts, 0
  {
    ts == [] || (Fits(ts[0], limit, slack) && FitsAll(ts[1..], limit, slack))
  }

  lemma {:induction false} SumOfShares(ts: seq<Tree>)
    requires ProperTrees(ts)
    ensures SumRatios(ts) as real <= SumShares(ts) * 1048576.0 <= SumRatios(ts) as real + |ts| as real
  {
    if ts != [] {
      RatioIsBandwidth(ts[0].settings.rtPeriod, ts[0].settings.rtRuntime);
      SumOfShares(ts[1..]);
    }
  }

  /** In a schedulable tree the bandwidths fit, up to a quantum for each group. */
  lemma {:induction false} FeasibleFits(t: Tree, ratio: int, limit: real)
    requires ProperTree(t) && Feasible(t, ratio) && ratio as real <= limit * 1048576.0
    ensures Fits(t, limit, QUANTUM)
    decreases t, 1
  {
    RatioIsBandwidth(t.settings.rtPeriod, t.settings.rtRuntime);
    SumOfShares(t.children);
    FeasibleFitsAll(t.children, ratio, limit);
  }

  lemma {:induction false} FeasibleFitsAll(ts: seq<Tree>, ratio: int, limit: real)
    requires ProperTrees(ts) && FeasibleAll(ts, ratio) && ratio as real <= limit * 1048576.0
    ensures FitsAll(ts, limit, QUANTUM)
    decreases ts, 0
  {
    if ts != [] {
      FeasibleFits(ts[0], ratio, limit);
      FeasibleFitsAll(ts[1..], ratio, limit);
    }
  }

  ghost predicate NobodyStarves(t: Tree, d: Proposal, g: Limits)
    decreases t, 1
  {
    !(g.enabled && Runtime(t, d) == 0 && t.tg in g.rtTasks) && NobodyStarvesIn(t.children, d, g)
  }

  ghost predicate NobodyStarvesIn(ts: seq<Tree>, d: Proposal, g: Limits)
    decreases ts, 0
  {
    ts == [] || (NobodyStarves(ts[0], d, g) && NobodyStarvesIn(ts[1..], d, g))
  }

  /** Conversely a proposal whose bandwidths fit exactly is accepted, unless it
      leaves a group with real-time tasks without runtime. */
  lemma {:induction false} FittingIsAccepted(t: Tree, d: Proposal, g: Limits, limit: real)
    requires ProperTree(Update(t, d)) && Fits(Update(t, d), limit, 0.0) && NobodyStarves(t, d, g)
    requires limit * 1048576.0 < g.ratio as real + 1.0
    ensures AllSchedulable(t, d, g)
    decreases t, 1
  {
    var u := Update(t, d);
    RatioIsBandwidth(u.settings.rtPeriod, u.settings.rtRuntime);
    ProperRatio(u.settings.rtPeriod, u.settings.rtRuntime);
    SumOfShares(u.children);
    PeriodsPositive(t.children, d);
    ChildSumFits(t.children, d);
    FittingAllAccepted(t.children, d, g, limit);
  }

  lemma {:induction false} FittingAllAccepted(ts: seq<Tree>, d: Proposal, g: Limits, limit: real)
    requires ProperTrees(UpdateAll(ts, d)) && FitsAll(UpdateAll(ts, d), limit, 0.0) && NobodyStarvesIn(ts, d, g)
    requires limit * 1048576.0 < g.ratio as real + 1.0
    ensures AllChildren(ts, d, g)
    decreases ts, 0
  {
    if ts != [] {
      var us := UpdateAll(ts, d);
      assert us[0] == Update(ts[0], d) && us[1..] == UpdateAll(ts[1..], d);
      FittingIsAccepted(ts[0], d, g, limit);
      FittingAllAccepted(ts[1..], d, g, limit);
    }
  }

  /** An accepted proposal never does that. */
  lemma {:induction false} AcceptedStarvesNobody(t: Tree, d: Proposal, g: Limits)
    requires AllSchedulable(t, d, g)
    ensures NobodyStarves(t, d, g)
    decreases t, 1
  {
    AcceptedStarvesNobodyIn(t.children, d, g);
  }

  lemma {:induction false} AcceptedStarvesNobodyIn(ts: seq<Tree>, d: Proposal, g: Limits)
    requires AllChildren(ts, d, g)
    ensures NobodyStarvesIn(ts, d, g)
    decreases ts, 0
  {
    if ts != [] {
      AcceptedStarvesNobody(ts[0], d, g);
      AcceptedStarvesNobodyIn(ts[1..], d, g);
    }
  }

  lemma {:induction false} UsedBound(t: Tree, s: set<TaskGroup>)
    requires ProperTree(t) && DistinctTree(t)
    ensures Used(t, s) * 1048576.0 <= SumOver(t, s) as real + |Groups(t) * s| as real
    decreases t, 1
  {
    RatioIsBandwidth(t.settings.rtPeriod, t.settings.rtRuntime);
    UsedBoundAll(t.children, s);
    assert Groups(t) * s == (if t.tg in s then {t.tg} else {}) + GroupsOf(t.children) * s;
  }

  lemma {:induction false} UsedBoundAll(ts: seq<Tree>, s: set<TaskGroup>)
    requires ProperTrees(ts) && DistinctTrees(ts)
    ensures UsedAll(ts, s) * 1048576.0 <= SumOverAll(ts, s) as real + |GroupsOf(ts) * s| as real
    decreases ts, 0
  {
    if ts != [] {
      UsedBound(ts[0], s);
      UsedBoundAll(ts[1..], s);
      assert GroupsOf(ts) * s == Groups(ts[0]) * s + GroupsOf(ts[1..]) * s;
    }
  }

  lemma SubsetSize(a: set<TaskGroup>, b: set<TaskGroup>)
    ensures |a * b| <= |b|
  {
    assert b == a * b + (b - a);
  }

  function GlobalBandwidth(c: Config): real
    requires c.sysPeriod > 0
  {
    Bandwidth(c.sysPeriod * NSEC_PER_USEC, GlobalRuntime(c.sysRuntime))
  }

  /** In every reachable configuration each group is within the global bandwidth and
      the children of each group within its own, up to 2^-20 for each group; and any
      pairwise unrelated groups together are within the global bandwidth, up to 2^-20
      for each of them. */
  lemma BandwidthFits(c: Config, run: seq<Event>, s: set<TaskGroup>)
    requires Good(c) && AllEnabled(c, run)
    ensures var z := Final(c, run);
            && Good(z) && Fits(z.tree, GlobalBandwidth(z), QUANTUM)
            && (Unrelated(z.tree, s) ==> Used(z.tree, s) <= GlobalBandwidth(z) + |s| as real * QUANTUM)
  {
    RunGood(c, run);
    var z := Final(c, run);
    var ratio := GlobalRatio(z.sysPeriod, z.sysRuntime);
    RatioIsBandwidth(z.sysPeriod * NSEC_PER_USEC, GlobalRuntime(z.sysRuntime));
    FeasibleFits(z.tree, ratio, GlobalBandwidth(z));
    if Unrelated(z.tree, s) {
      UnrelatedFit(z.tree, ratio, s);
      UsedBound(z.tree, s);
      SubsetSize(Groups(z.tree), s);
    }
  }
}
