/** Admission control in memory: the tree of task groups and the sysctls, updated
    in place, each method proved against its step on configurations. */
module RtAdmissionControl {
  import opened SchedConstants
  import opened PrioArrays
  import opened Ratios
  import opened TaskGroups
  import opened RtAdmission

  // ----- how a write to the tree shows in a snapshot -----

  ghost function Write(h: Cells, d: Proposal): Cells
    requires d.tg != null && d.tg in h
  {
    h[d.tg := h[d.tg].(settings := h[d.tg].settings.(rtPeriod := d.period, rtRuntime := d.runtime))]
  }

  ghost predicate ParentOk(h: Cells, n: TaskGroup)
    requires n in h
  {
    h[n].parent != null && h[n].parent in h && n in h[h[n].parent].children
  }

  /** Every group but the root is in the list of a parent. */
  ghost predicate Rooted(h: Cells, root: TaskGroup) {
    && root in h && h[root].parent == null
    && forall n {:trigger ParentOk(h, n)} :: n in h && n != root ==> ParentOk(h, n)
  }

  lemma WriteOk(h: Cells, root: TaskGroup, d: Proposal)
    requires TreeOk(h) && Rooted(h, root) && d.tg != null && d.tg in h
    ensures TreeOk(Write(h, d)) && Rooted(Write(h, d), root)
  {
    forall n | n in h && n != root ensures ParentOk(Write(h, d), n) {
      assert ParentOk(h, n);
    }
    forall n | n in h ensures ChildrenOk(Write(h, d), n) {
      assert ChildrenOk(h, n);
    }
  }

  lemma {:induction false} UpdateAbs(h: Cells, n: TaskGroup, d: Proposal)
    requires TreeOk(h) && d.tg != null && d.tg in h && TreeOk(Write(h, d)) && n in h
    ensures Abs(Write(h, d), n) == Update(Abs(h, n), d)
    decreases Deeper(h, n), |h[n].children| + 1
  {
    assert ChildrenOk(h, n);
    UpdateAbsAll(h, n, h[n].children, d);
  }

  lemma {:induction false} UpdateAbsAll(h: Cells, n: TaskGroup, cs: seq<TaskGroup>, d: Proposal)
    requires TreeOk(h) && d.tg != null && d.tg in h && TreeOk(Write(h, d)) && n in h && ChildrenOf(h, n, cs)
    ensures AbsAll(Write(h, d), n, cs) == UpdateAll(AbsAll(h, n, cs), d)
    decreases Deeper(h, n), |cs|
  {
    if cs != [] {
      ChildDeeper(h, n, cs[0]);
      UpdateAbs(h, cs[0], d);
      UpdateAbsAll(h, n, cs[1..], d);
      assert AbsAll(h, n, cs)[1..] == AbsAll(h, n, cs[1..]);
    }
  }

  ghost function Attach(h: Cells, parent: TaskGroup, tg: TaskGroup, settings: Settings): Cells
    requires parent in h
  {
    h[parent := h[parent].(children := [tg] + h[parent].children)][tg := Cell(settings, parent, [])]
  }

  lemma AttachOk(h: Cells, root: TaskGroup, parent: TaskGroup, tg: TaskGroup, settings: Settings)
    requires TreeOk(h) && Rooted(h, root) && parent in h && tg !in h && tg.depth == parent.depth + 1
    ensures TreeOk(Attach(h, parent, tg, settings)) && Rooted(Attach(h, parent, tg, settings), root)
  {
    var h' := Attach(h, parent, tg, settings);
    forall n | n in h' && n != root ensures ParentOk(h', n) {
      if n != tg {
        assert ParentOk(h, n);
      }
    }
    forall n | n in h' ensures ChildrenOk(h', n) {
      if n != tg {
        assert ChildrenOk(h, n);
        assert ([tg] + h[n].children)[1..] == h[n].children;
      }
    }
  }

  lemma {:induction false} AddAbs(h: Cells, n: TaskGroup, parent: TaskGroup, tg: TaskGroup, settings: Settings)
    requires TreeOk(h) && parent in h && tg !in h && tg.depth == parent.depth + 1 && n in h
    requires TreeOk(Attach(h, parent, tg, settings))
    ensures Abs(Attach(h, parent, tg, settings), n) == AddTo(Abs(h, n), Node(tg, parent, settings, []))
    decreases Deeper(h, n), |h[n].children| + 1
  {
    assert ChildrenOk(h, n);
    AddAbsAll(h, n, h[n].children, parent, tg, settings);
    if n == parent {
      var cs := Attach(h, parent, tg, settings)[n].children;
      assert cs[0] == tg && cs[1..] == h[n].children;
    }
  }

  lemma {:induction false} AddAbsAll(h: Cells, n: TaskGroup, cs: seq<TaskGroup>, parent: TaskGroup, tg: TaskGroup, settings: Settings)
    requires TreeOk(h) && parent in h && tg !in h && tg.depth == parent.depth + 1 && n in h && ChildrenOf(h, n, cs)
    requires TreeOk(Attach(h, parent, tg, settings))
    ensures AbsAll(Attach(h, parent, tg, settings), n, cs) == AddToAll(AbsAll(h, n, cs), Node(tg, parent, settings, []))
    decreases Deeper(h, n), |cs|
  {
    if cs != [] {
      ChildDeeper(h, n, cs[0]);
      AddAbs(h, cs[0], parent, tg, settings);
      AddAbsAll(h, n, cs[1..], parent, tg, settings);
      assert AbsAll(h, n, cs)[1..] == AbsAll(h, n, cs[1..]);
    }
  }

  ghost function Detach(h: Cells, parent: TaskGroup, tg: TaskGroup): Cells
    requires parent in h
  {
    h[parent := h[parent].(children := Without(h[parent].children, {tg}))] - {tg}
  }

  lemma DetachOk(h: Cells, root: TaskGroup, parent: TaskGroup, tg: TaskGroup)
    requires TreeOk(h) && Rooted(h, root) && tg in h && tg != root && h[tg].parent == parent && h[tg].children == []
    ensures parent in h && parent != tg
    ensures TreeOk(Detach(h, parent, tg)) && Rooted(Detach(h, parent, tg), root)
  {
    assert ParentOk(h, tg) && ChildrenOk(h, parent);
    DetachChildren(h, parent, tg);
    var h' := Detach(h, parent, tg);
    forall n | n in h' && n != root ensures ParentOk(h', n) {
      assert ParentOk(h, n);
      WithoutMembers(h[h[n].parent].children, {tg});
    }
  }

  lemma DetachChildren(h: Cells, parent: TaskGroup, tg: TaskGroup)
    requires TreeOk(h) && parent in h && tg in h && h[tg].parent == parent && parent != tg
    ensures TreeOk(Detach(h, parent, tg))
    ensures forall n :: n in h && n != tg ==> Detach(h, parent, tg)[n].children == Without(h[n].children, {tg})
  {
    var h' := Detach(h, parent, tg);
    forall n | n in h' ensures ChildrenOk(h', n) && h'[n].children == Without(h[n].children, {tg}) {
      assert ChildrenOk(h, n);
      WithoutOne(h[n].children, tg);
      WithoutMembers(h[n].children, {tg});
      if n != parent {
        WithoutAbsent(h[n].children, {tg});
      }
    }
  }

  lemma {:induction false} PruneAbs(h: Cells, n: TaskGroup, parent: TaskGroup, tg: TaskGroup)
    requires TreeOk(h) && parent in h && tg in h && h[tg].parent == parent && parent != tg && h[tg].children == []
    requires n in h && n != tg && TreeOk(Detach(h, parent, tg))
    ensures Abs(Detach(h, parent, tg), n) == Prune(Abs(h, n), tg)
    decreases Deeper(h, n), |h[n].children| + 1
  {
    assert ChildrenOk(h, n);
    DetachChildren(h, parent, tg);
    PruneAbsAll(h, n, h[n].children, parent, tg);
  }

  lemma {:induction false} PruneAbsAll(h: Cells, n: TaskGroup, cs: seq<TaskGroup>, parent: TaskGroup, tg: TaskGroup)
    requires TreeOk(h) && parent in h && tg in h && h[tg].parent == parent && parent != tg && h[tg].children == []
    requires n in h && n != tg && TreeOk(Detach(h, parent, tg)) && ChildrenOf(h, n, cs)
    ensures ChildrenOf(Detach(h, parent, tg), n, Without(cs, {tg}))
    ensures AbsAll(Detach(h, parent, tg), n, Without(cs, {tg})) == PruneAll(AbsAll(h, n, cs), tg)
    decreases Deeper(h, n), |cs|
  {
    WithoutMembers(cs, {tg});
    if cs != [] {
      ChildDeeper(h, n, cs[0]);
      PruneAbsAll(h, n, cs[1..], parent, tg);
      assert AbsAll(h, n, cs)[1..] == AbsAll(h, n, cs[1..]);
      if cs[0] != tg {
        PruneAbs(h, cs[0], parent, tg);
      }
    }
  }

  lemma {:induction false} GroupsInNodes(h: Cells, n: TaskGroup)
    requires TreeOk(h) && n in h
    ensures Groups(Abs(h, n)) <= h.Keys
    decreases Deeper(h, n), |h[n].children| + 1
  {
    assert ChildrenOk(h, n);
    GroupsInNodesAll(h, n, h[n].children);
  }

  lemma {:induction false} GroupsInNodesAll(h: Cells, n: TaskGroup, cs: seq<TaskGroup>)
    requires TreeOk(h) && n in h && ChildrenOf(h, n, cs)
    ensures GroupsOf(AbsAll(h, n, cs)) <= h.Keys
    decreases Deeper(h, n), |cs|
  {
    if cs != [] {
      ChildDeeper(h, n, cs[0]);
      GroupsInNodes(h, cs[0]);
      GroupsInNodesAll(h, n, cs[1..]);
      assert AbsAll(h, n, cs)[1..] == AbsAll(h, n, cs[1..]);
    }
  }

  // ----- the kernel's globals -----

  class Control {
    const root: TaskGroup
    var sysPeriod: int
    var sysRuntime: int
    var defPeriod: int
    ghost var nodes: set<TaskGroup>

    ghost predicate Valid()
      reads this`nodes, nodes
    {
      TreeOk(Fields(nodes)) && Rooted(Fields(nodes), root)
    }

    ghost function Conf(): Config
      requires Valid()
      reads this, nodes
    {
      Config(Abs(Fields(nodes), root), sysPeriod, sysRuntime, defPeriod)
    }

    constructor (cfsPeriod: int)
      ensures Valid() && fresh(nodes) && Conf() == Boot(root, cfsPeriod) && Good(Conf())
      ensures sysPeriod == 1_000_000 && sysRuntime == 950_000 && defPeriod == 1_000_000_000
      ensures nodes == {root} && root.settings == Settings(1_000_000_000, 950_000_000, cfsPeriod, 0xFFFF_FFFF_FFFF_FFFF)
    {
      var r := new TaskGroup(null, Settings(1000000 * NSEC_PER_USEC, 950000 * NSEC_PER_USEC, cfsPeriod, RUNTIME_INF));
      root := r;
      sysPeriod, sysRuntime, defPeriod := 1000000, 950000, 1000000 * NSEC_PER_USEC;
      nodes := {r};
      new;
      BootGood(root, cfsPeriod);
    }

    /** tg_set_rt_bandwidth, up to its reset of the per-processor budgets. */
    method SetRtBandwidth(tg: TaskGroup, period: int, runtime: int, rtTasks: set<TaskGroup>) returns (err: int)
      requires Valid() && tg in nodes && Good(Conf()) && period >= 0 && Writable(runtime)
      modifies nodes`settings
      ensures Valid() && Conf() == Step(old(Conf()), SetBandwidth(tg, period, runtime, rtTasks)) && Good(Conf())
      ensures err == 0 <==> AllSchedulable(old(Conf()).tree, Proposal(tg, period, runtime),
                                           Limits(GlobalRatio(sysPeriod, sysRuntime), sysRuntime >= 0, rtTasks))
      ensures err == 0 ==> tg.settings == old(tg.settings).(rtPeriod := period, rtRuntime := runtime)
      ensures err != 0 ==> tg.settings == old(tg.settings) && Conf() == old(Conf())
      ensures forall n :: n in nodes && n != tg ==> n.settings == old(n.settings)
    {
      ghost var c := Conf();
      StepGood(c, SetBandwidth(tg, period, runtime, rtTasks));
      var d := Proposal(tg, period, runtime);
      var g := Limits(GlobalRatio(sysPeriod, sysRuntime), sysRuntime >= 0, rtTasks);
      WalkAccepts(c.tree, d, g);
      var ret, _ := WalkTgTreeFrom(nodes, root, RtVisitor(d, g), Nop(), ());
      err := ret;
      if err == 0 {
        ghost var h := Fields(nodes);
        WriteOk(h, root, d);
        UpdateAbs(h, root, d);
        tg.settings := tg.settings.(rtPeriod := period, rtRuntime := runtime);
        assert Fields(nodes) == Write(h, d);
      }
    }

    /** sched_create_group: the new group is the first child of its parent. */
    method CreateGroup(parent: TaskGroup, cfsPeriod: int) returns (tg: TaskGroup)
      requires Valid() && parent in nodes && Good(Conf())
      modifies this`nodes, parent`children
      ensures Valid() && fresh(tg) && nodes == old(nodes) + {tg}
      ensures tg.settings == Settings(defPeriod, 0, cfsPeriod, 0xFFFF_FFFF_FFFF_FFFF)
      ensures tg.parent == parent && tg.children == [] && parent.children == [tg] + old(parent.children)
      ensures Conf() == Step(old(Conf()), Create(parent, tg, cfsPeriod)) && Good(Conf())
    {
      ghost var c := Conf();
      ghost var h := Fields(nodes);
      GroupsInNodes(h, root);
      tg := new TaskGroup(parent, Settings(defPeriod, 0, cfsPeriod, RUNTIME_INF));
      StepGood(c, Create(parent, tg, cfsPeriod));
      AttachOk(h, root, parent, tg, tg.settings);
      AddAbs(h, root, parent, tg, tg.settings);
      parent.children := [tg] + parent.children;
      nodes := nodes + {tg};
      assert Fields(nodes) == Attach(h, parent, tg, tg.settings);
    }

    /** sched_destroy_group, which is called for groups without children only. */
    method DestroyGroup(tg: TaskGroup)
      requires Valid() && tg in nodes && tg != root && tg.children == [] && Good(Conf())
      requires tg.parent != null  // follows from Valid
      modifies this`nodes, tg.parent`children
      ensures Valid() && nodes == old(nodes) - {tg}
      ensures tg.parent.children == Without(old(tg.parent.children), {tg})
      ensures Conf() == Step(old(Conf()), Destroy(tg)) && Good(Conf())
    {
      ghost var c := Conf();
      StepGood(c, Destroy(tg));
      ghost var h := Fields(nodes);
      var parent := tg.parent;
      assert ParentOk(h, tg);
      DetachOk(h, root, parent, tg);
      PruneAbs(h, root, parent, tg);
      parent.children := Without(parent.children, {tg});
      nodes := nodes - {tg};
      assert Fields(nodes) == Detach(h, parent, tg);
    }

    /** sched_rt_handler for a write of new values. */
    method SysctlHandler(period: int, runtime: int, rtTasks: set<TaskGroup>) returns (err: int)
      requires Valid() && Good(Conf()) && period >= 0 && runtime <= LONG_MAX
      modifies this`sysPeriod, this`sysRuntime, this`defPeriod
      ensures Valid() && Conf() == Step(old(Conf()), Sysctl(period, runtime, rtTasks)) && Good(Conf())
      ensures err == 0 <==>
              && period > 0 && (runtime < 0 || runtime <= period)
              && AllSchedulable(old(Conf()).tree, Proposal(null, 0, 0), Limits(GlobalRatio(period, runtime), runtime >= 0, rtTasks))
      ensures err == 0 ==> sysPeriod == period && sysRuntime == runtime && defPeriod == period * 1000
      ensures err != 0 ==> Conf() == old(Conf())
    {
      StepGood(Conf(), Sysctl(period, runtime, rtTasks));
      if period > 0 {
        WalkAccepts(Conf().tree, Proposal(null, 0, 0), Limits(GlobalRatio(period, runtime), runtime >= 0, rtTasks));
      }
      err := WriteSysctl(period, runtime, rtTasks);
    }

    /** The write, its test, and the rollback. */
    method WriteSysctl(period: int, runtime: int, rtTasks: set<TaskGroup>) returns (err: int)
      requires Valid() && sysPeriod > 0 && period >= 0
      modifies this`sysPeriod, this`sysRuntime, this`defPeriod
      ensures Conf() == Handle(old(Conf()), period, runtime, rtTasks)
      ensures err == 0 <==>
              && period > 0 && (GlobalRuntime(runtime) <= period * NSEC_PER_USEC || GlobalRuntime(runtime) == RUNTIME_INF)
              && RtSchedulable(old(Conf()).tree, Proposal(null, 0, 0), Limits(GlobalRatio(period, runtime), runtime >= 0, rtTasks)) == 0
      ensures err == 0 ==> sysPeriod == period && sysRuntime == runtime && defPeriod == period * 1000
      ensures err != 0 ==> Conf() == old(Conf())
    {
      var oldPeriod, oldRuntime := sysPeriod, sysRuntime;
      sysPeriod, sysRuntime := period, runtime;
      err := GlobalConstraints(rtTasks);
      if err != 0 {
        sysPeriod, sysRuntime := oldPeriod, oldRuntime;
      } else {
        defPeriod := sysPeriod * NSEC_PER_USEC;
      }
    }

    /** sched_rt_global_constraints. */
    method GlobalConstraints(rtTasks: set<TaskGroup>) returns (err: int)
      requires Valid() && sysPeriod >= 0
      ensures err == 0 <==>
              && sysPeriod > 0
              && (GlobalRuntime(sysRuntime) <= sysPeriod * NSEC_PER_USEC || GlobalRuntime(sysRuntime) == RUNTIME_INF)
              && RtSchedulable(Conf().tree, Proposal(null, 0, 0),
                               Limits(GlobalRatio(sysPeriod, sysRuntime), sysRuntime >= 0, rtTasks)) == 0
    {
      if sysPeriod <= 0 {
        return EINVAL;
      }
      var runtime, period := GlobalRuntime(sysRuntime), sysPeriod * NSEC_PER_USEC;
      if runtime > period && runtime != RUNTIME_INF {
        return EINVAL;
      }
      var g := Limits(GlobalRatio(sysPeriod, sysRuntime), sysRuntime >= 0, rtTasks);
      var ret, _ := WalkTgTreeFrom(nodes, root, RtVisitor(Proposal(null, 0, 0), g), Nop(), ());
      err := ret;
    }
  }
}
