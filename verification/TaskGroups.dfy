/** The tree of task groups and the walk over it (walk_tg_tree_from). */
module TaskGroups {
  import opened PrioArrays

  /** The bandwidth settings of a group: real-time period and runtime, CFS period
      and quota. */
  datatype Settings = Settings(rtPeriod: int, rtRuntime: int, cfsPeriod: int, cfsQuota: int)

  class TaskGroup {
    var settings: Settings
    var parent: TaskGroup?
    var children: seq<TaskGroup>
    ghost const depth: nat

    constructor (parent: TaskGroup?, settings: Settings)
      ensures this.parent == parent && this.settings == settings && children == []
      ensures depth == if parent == null then 0 else parent.depth + 1
    {
      this.parent, this.settings, children := parent, settings, [];
      depth := if parent == null then 0 else parent.depth + 1;
    }
  }

  /** The fields of one group, and of all groups. */
  datatype Cell = Cell(settings: Settings, parent: TaskGroup?, children: seq<TaskGroup>)

  type Cells = map<TaskGroup, Cell>

  ghost function Fields(nodes: set<TaskGroup>): Cells
    reads nodes
  {
    map n | n in nodes :: Cell(n.settings, n.parent, n.children)
  }

  /** A snapshot of the tree below a group. */
  datatype Tree = Node(tg: TaskGroup, parent: TaskGroup?, settings: Settings, children: seq<Tree>)

  ghost predicate ChildrenOk(h: Cells, n: TaskGroup)
    requires n in h
  {
    && NoDup(h[n].children)
    && forall c :: c in h[n].children ==> c in h && h[c].parent == n && c.depth == n.depth + 1
  }

  /** Parent pointers and lists of children agree and form a tree. */
  ghost predicate TreeOk(h: Cells) {
    forall n {:trigger ChildrenOk(h, n)} :: n in h ==> ChildrenOk(h, n)
  }

  ghost function Deeper(h: Cells, n: TaskGroup): set<TaskGroup> {
    set m | m in h && m.depth > n.depth
  }

  lemma ChildDeeper(h: Cells, n: TaskGroup, c: TaskGroup)
    requires c in h && c.depth == n.depth + 1
    ensures Deeper(h, c) < Deeper(h, n)
  {
    assert c in Deeper(h, n) && c !in Deeper(h, c);
  }

  ghost predicate ChildrenOf(h: Cells, n: TaskGroup, cs: seq<TaskGroup>) {
    forall c :: c in cs ==> c in h && c.depth == n.depth + 1
  }

  ghost function Abs(h: Cells, n: TaskGroup): (t: Tree)
    requires TreeOk(h) && n in h
    ensures t.tg == n && t.parent == h[n].parent && t.settings == h[n].settings && |t.children| == |h[n].children|
    decreases Deeper(h, n), |h[n].children| + 1
  {
    assert ChildrenOk(h, n);
    Node(n, h[n].parent, h[n].settings, AbsAll(h, n, h[n].children))
  }

  ghost function AbsAll(h: Cells, n: TaskGroup, cs: seq<TaskGroup>): (ts: seq<Tree>)
    requires TreeOk(h) && n in h && ChildrenOf(h, n, cs)
    ensures |ts| == |cs|
    decreases Deeper(h, n), |cs|
  {
    if cs == [] then [] else
      ChildDeeper(h, n, cs[0]);
      [Abs(h, cs[0])] + AbsAll(h, n, cs[1..])
  }

  lemma {:induction false} AbsAllAt(h: Cells, n: TaskGroup, cs: seq<TaskGroup>, i: nat)
    requires TreeOk(h) && n in h && ChildrenOf(h, n, cs) && i < |cs|
    ensures AbsAll(h, n, cs)[i] == Abs(h, cs[i])
    decreases |cs|
  {
    if i > 0 {
      AbsAllAt(h, n, cs[1..], i - 1);
    }
  }

  lemma ChildAbs(h: Cells, n: TaskGroup, i: nat)
    requires TreeOk(h) && n in h && i < |h[n].children|
    ensures var c := h[n].children[i];
            c in h && Abs(h, n).children[i] == Abs(h, c) && h[c].parent == n && c.depth == n.depth + 1
  {
    assert ChildrenOk(h, n);
    assert h[n].children[i] in h[n].children;
    AbsAllAt(h, n, h[n].children, i);
  }

  // ----- the order of visits -----

  datatype Visit = Down(t: Tree) | Up(t: Tree)

  /** Down on first entry, then the children in order, then up on final exit. */
  ghost function Tour(t: Tree): seq<Visit>
    decreases t, 1
  {
    [Down(t)] + Tours(t.children) + [Up(t)]
  }

  ghost function Tours(ts: seq<Tree>): seq<Visit>
    decreases ts, 0
  {
    if ts == [] then [] else Tour(ts[0]) + Tours(ts[1..])
  }

  ghost function PreOrder(t: Tree): seq<Tree>
    decreases t, 1
  {
    [t] + PreOrders(t.children)
  }

  ghost function PreOrders(ts: seq<Tree>): seq<Tree>
    decreases ts, 0
  {
    if ts == [] then [] else PreOrder(ts[0]) + PreOrders(ts[1..])
  }

  ghost function PostOrder(t: Tree): seq<Tree>
    decreases t, 1
  {
    PostOrders(t.children) + [t]
  }

  ghost function PostOrders(ts: seq<Tree>): seq<Tree>
    decreases ts, 0
  {
    if ts == [] then [] else PostOrder(ts[0]) + PostOrders(ts[1..])
  }

  ghost function Entered(visits: seq<Visit>): seq<Tree> {
    if visits == [] then [] else (if visits[0].Down? then [visits[0].t] else []) + Entered(visits[1..])
  }

  ghost function Exited(visits: seq<Visit>): seq<Tree> {
    if visits == [] then [] else (if visits[0].Up? then [visits[0].t] else []) + Exited(visits[1..])
  }

  lemma {:induction false} EnteredOnlyConcat(a: seq<Visit>, b: seq<Visit>)
    ensures Entered(a + b) == Entered(a) + Entered(b)
  {
    if a == [] {
      assert a + b == b;
    } else {
      assert (a + b)[1..] == a[1..] + b;
      EnteredOnlyConcat(a[1..], b);
      var h := if a[0].Down? then [a[0].t] else [];
      assert h + (Entered(a[1..]) + Entered(b)) == h + Entered(a[1..]) + Entered(b);
    }
  }

  lemma {:induction false} ExitedOnlyConcat(a: seq<Visit>, b: seq<Visit>)
    ensures Exited(a + b) == Exited(a) + Exited(b)
  {
    if a == [] {
      assert a + b == b;
    } else {
      assert (a + b)[1..] == a[1..] + b;
      ExitedOnlyConcat(a[1..], b);
      var h := if a[0].Up? then [a[0].t] else [];
      assert h + (Exited(a[1..]) + Exited(b)) == h + Exited(a[1..]) + Exited(b);
    }
  }

  lemma EnteredConcat(a: seq<Visit>, b: seq<Visit>)
    ensures Entered(a + b) == Entered(a) + Entered(b) && Exited(a + b) == Exited(a) + Exited(b)
  {
    EnteredOnlyConcat(a, b);
    ExitedOnlyConcat(a, b);
  }

  /** Every group of the subtree is entered once, in pre-order, and exited once,
      in post-order. */
  lemma {:induction false} TourOrder(t: Tree)
    ensures Entered(Tour(t)) == PreOrder(t) && Exited(Tour(t)) == PostOrder(t)
    decreases t, 1
  {
    ToursOrder(t.children);
    EnteredConcat([Down(t)] + Tours(t.children), [Up(t)]);
    EnteredConcat([Down(t)], Tours(t.children));
    assert Entered([Down(t)]) == [t] && Exited([Down(t)]) == [] && Entered([Up(t)]) == [] && Exited([Up(t)]) == [t];
  }

  lemma {:induction false} ToursOrder(ts: seq<Tree>)
    ensures Entered(Tours(ts)) == PreOrders(ts) && Exited(Tours(ts)) == PostOrders(ts)
    decreases ts, 0
  {
    if ts != [] {
      TourOrder(ts[0]);
      ToursOrder(ts[1..]);
      EnteredConcat(Tour(ts[0]), Tours(ts[1..]));
    }
  }

  /** A visitor returns an error code, zero for success, and the state it leaves. */
  type Visitor<!S> = (Tree, S) -> (int, S)

  function Call<S>(v: Visit, down: Visitor<S>, up: Visitor<S>, s: S): (int, S) {
    match v
    case Down(t) => down(t, s)
    case Up(t) => up(t, s)
  }

  /** Make the visits in order, up to the first that does not return zero. */
  function Run<S>(visits: seq<Visit>, down: Visitor<S>, up: Visitor<S>, s: S): (int, S)
    decreases |visits|
  {
    if visits == [] then (0, s) else
      var r := Call(visits[0], down, up, s);
      if r.0 != 0 then r else Run(visits[1..], down, up, r.1)
  }

  lemma {:induction false} RunConcat<S>(a: seq<Visit>, b: seq<Visit>, down: Visitor<S>, up: Visitor<S>, s: S)
    ensures Run(a + b, down, up, s) ==
            var r := Run(a, down, up, s); if r.0 != 0 then r else Run(b, down, up, r.1)
    decreases |a|
  {
    if a == [] {
      assert a + b == b;
    } else {
      assert (a + b)[1..] == a[1..] + b;
      RunConcat(a[1..], b, down, up, Call(a[0], down, up, s).1);
    }
  }

  /** The traversal a recursive program would make. */
  ghost function Walk<S>(t: Tree, down: Visitor<S>, up: Visitor<S>, s: S): (int, S)
    decreases t, 1
  {
    var d := down(t, s);
    if d.0 != 0 then d else
      var r := WalkAll(t.children, down, up, d.1);
      if r.0 != 0 then r else up(t, r.1)
  }

  ghost function WalkAll<S>(ts: seq<Tree>, down: Visitor<S>, up: Visitor<S>, s: S): (int, S)
    decreases ts, 0
  {
    if ts == [] then (0, s) else
      var r := Walk(ts[0], down, up, s);
      if r.0 != 0 then r else WalkAll(ts[1..], down, up, r.1)
  }

  /** The recursive traversal makes exactly the visits of the tour. */
  lemma {:induction false} WalkIsTour<S>(t: Tree, down: Visitor<S>, up: Visitor<S>, s: S)
    ensures Walk(t, down, up, s) == Run(Tour(t), down, up, s)
    decreases t, 1
  {
    var d := down(t, s);
    assert Run([Down(t)], down, up, s) == d by {
      assert [Down(t)][1..] == [];
    }
    RunConcat([Down(t)] + Tours(t.children), [Up(t)], down, up, s);
    RunConcat([Down(t)], Tours(t.children), down, up, s);
    if d.0 == 0 {
      WalkAllIsTours(t.children, down, up, d.1);
      var r := WalkAll(t.children, down, up, d.1);
      assert Run([Up(t)], down, up, r.1) == up(t, r.1) by {
        assert [Up(t)][1..] == [];
      }
    }
  }

  lemma {:induction false} WalkAllIsTours<S>(ts: seq<Tree>, down: Visitor<S>, up: Visitor<S>, s: S)
    ensures WalkAll(ts, down, up, s) == Run(Tours(ts), down, up, s)
    decreases ts, 0
  {
    if ts != [] {
      WalkIsTour(ts[0], down, up, s);
      RunConcat(Tour(ts[0]), Tours(ts[1..]), down, up, s);
      WalkAllIsTours(ts[1..], down, up, Walk(ts[0], down, up, s).1);
    }
  }

  // ----- the walk with gotos -----

  function IndexOf(s: seq<TaskGroup>, x: TaskGroup): (i: nat)
    requires x in s
    ensures i < |s| && s[i] == x
  {
    if s[0] == x then 0 else 1 + IndexOf(s[1..], x)
  }

  lemma {:induction false} IndexAt(s: seq<TaskGroup>, i: nat)
    requires NoDup(s) && i < |s|
    ensures IndexOf(s, s[i]) == i
  {
    if i > 0 {
      IndexAt(s[1..], i - 1);
    }
  }

  /** `n` lies in the subtree of `from`. */
  ghost predicate Under(h: Cells, from: TaskGroup, n: TaskGroup)
    decreases n.depth
  {
    && n in h
    && (n == from || (h[n].parent != null && h[n].parent in h && n in h[h[n].parent].children
                      && n.depth == h[n].parent.depth + 1 && Under(h, from, h[n].parent)))
  }

  /** The visits left once `i` children of `n` are done. */
  ghost function Rest(h: Cells, from: TaskGroup, n: TaskGroup, i: nat): seq<Visit>
    requires TreeOk(h) && Under(h, from, n) && i <= |h[n].children|
    decreases n.depth, 1
  {
    Tours(Abs(h, n).children[i..]) + ([Up(Abs(h, n))] + Later(h, from, n))
  }

  /** The visits left once `n` itself is done. */
  ghost function Later(h: Cells, from: TaskGroup, n: TaskGroup): seq<Visit>
    requires TreeOk(h) && Under(h, from, n)
    decreases n.depth, 0
  {
    if n == from then [] else Rest(h, from, h[n].parent, IndexOf(h[h[n].parent].children, n) + 1)
  }

  /** The visits left when the walk is about to enter `n`, or is in the sibling
      loop of `n` with `i` children done. */
  ghost function Left(h: Cells, from: TaskGroup, n: TaskGroup, i: nat, entering: bool): seq<Visit>
    requires TreeOk(h) && Under(h, from, n) && (entering || i <= |h[n].children|)
  {
    if entering then Tour(Abs(h, n)) + Later(h, from, n) else Rest(h, from, n, i)
  }

  /** walk_tg_tree_from: `entering` is the label down, its absence the place in
      the sibling loop that the label up continues. */
  method WalkTgTreeFrom<S>(ghost nodes: set<TaskGroup>, from: TaskGroup, down: Visitor<S>, up: Visitor<S>, s0: S)
    returns (ret: int, s: S)
    requires TreeOk(Fields(nodes)) && from in nodes
    ensures (ret, s) == Walk(Abs(Fields(nodes), from), down, up, s0)
  {
    ghost var h := Fields(nodes);
    WalkIsTour(Abs(h, from), down, up, s0);
    ghost var goal := Walk(Abs(h, from), down, up, s0);
    assert Left(h, from, from, 0, true) == Tour(Abs(h, from));
    var parent: TaskGroup, i: nat, entering := from, 0, true;
    s := s0;
    while true
      invariant Under(h, from, parent) && (entering || i <= |parent.children|)
      invariant Run(Left(h, from, parent, i, entering), down, up, s) == goal
      decreases |Left(h, from, parent, i, entering)|, if entering then 0 else 1
    {
      if entering {
        EnterRun(h, from, parent, i, down, up, s);
        ret, s := CallVisitor(nodes, parent, down, s);
        if ret != 0 {
          return;
        }
        i, entering := 0, false;
      } else if i < |parent.children| {
        DescendStep(h, from, parent, i);
        parent, entering := parent.children[i], true;
      } else {
        LeaveRun(h, from, parent, down, up, s);
        ret, s := CallVisitor(nodes, parent, up, s);
        if ret != 0 || parent == from {
          return;
        }
        i := IndexOf(parent.parent.children, parent) + 1;
        parent := parent.parent;
      }
    }
  }

  lemma EnterRun<S>(h: Cells, from: TaskGroup, n: TaskGroup, i: nat, down: Visitor<S>, up: Visitor<S>, s: S)
    requires TreeOk(h) && Under(h, from, n)
    ensures Run(Left(h, from, n, i, true), down, up, s) ==
            var r := down(Abs(h, n), s);
            if r.0 != 0 then r else Run(Left(h, from, n, 0, false), down, up, r.1)
    ensures |Left(h, from, n, 0, false)| < |Left(h, from, n, i, true)|
  {
    EnterStep(h, from, n);
  }

  lemma LeaveRun<S>(h: Cells, from: TaskGroup, n: TaskGroup, down: Visitor<S>, up: Visitor<S>, s: S)
    requires TreeOk(h) && Under(h, from, n)
    ensures Run(Left(h, from, n, |h[n].children|, false), down, up, s) ==
            var r := up(Abs(h, n), s);
            if r.0 != 0 || n == from then r
            else Run(Left(h, from, h[n].parent, IndexOf(h[h[n].parent].children, n) + 1, false), down, up, r.1)
    ensures n != from ==> |Left(h, from, h[n].parent, IndexOf(h[h[n].parent].children, n) + 1, false)|
                          < |Left(h, from, n, |h[n].children|, false)|
  {
    LeaveStep(h, from, n);
    RunHead(Rest(h, from, n, |h[n].children|), Up(Abs(h, n)), Later(h, from, n), down, up, s);
  }

  lemma RunHead<S>(visits: seq<Visit>, v: Visit, later: seq<Visit>, down: Visitor<S>, up: Visitor<S>, s: S)
    requires visits != [] && visits[0] == v && visits[1..] == later
    ensures var r := Call(v, down, up, s);
            Run(visits, down, up, s) == if r.0 != 0 then r else if later == [] then (0, r.1) else Run(later, down, up, r.1)
    ensures |later| < |visits|
  {
  }

  /** Call a visitor on a group; it may read the tree but not change it. */
  method CallVisitor<S>(ghost nodes: set<TaskGroup>, tg: TaskGroup, f: Visitor<S>, s: S) returns (ret: int, t: S)
    requires TreeOk(Fields(nodes)) && tg in nodes
    ensures (ret, t) == f(Abs(Fields(nodes), tg), s)
  {
    var snapshot := Snapshot(nodes, tg);
    var r := f(snapshot, s);
    ret, t := r.0, r.1;
  }

  /** What a visitor sees of the tree. */
  method Snapshot(ghost nodes: set<TaskGroup>, tg: TaskGroup) returns (t: Tree)
    requires TreeOk(Fields(nodes)) && tg in nodes
    ensures t == Abs(Fields(nodes), tg)
    decreases Deeper(Fields(nodes), tg)
  {
    assert ChildrenOk(Fields(nodes), tg);
    var ts, i := [], 0;
    while i < |tg.children|
      invariant 0 <= i <= |tg.children| && |ts| == i
      invariant forall j :: 0 <= j < i ==> ts[j] == Abs(Fields(nodes), tg).children[j]
    {
      ChildAbs(Fields(nodes), tg, i);
      ChildDeeper(Fields(nodes), tg, tg.children[i]);
      var c := Snapshot(nodes, tg.children[i]);
      ts := ts + [c];
      i := i + 1;
    }
    t := Node(tg, tg.parent, tg.settings, ts);
  }

  lemma EnterStep(h: Cells, from: TaskGroup, n: TaskGroup)
    requires TreeOk(h) && Under(h, from, n)
    ensures var left := Tour(Abs(h, n)) + Later(h, from, n);
            left != [] && left[0] == Down(Abs(h, n)) && left[1..] == Rest(h, from, n, 0)
  {
    var t := Abs(h, n);
    assert t.children[0..] == t.children;
    assert (Tour(t) + Later(h, from, n))[1..] == Tours(t.children) + ([Up(t)] + Later(h, from, n));
  }

  lemma {:induction false} UnderDepth(h: Cells, from: TaskGroup, n: TaskGroup)
    requires Under(h, from, n)
    ensures n.depth >= from.depth
    decreases n.depth
  {
    if n != from {
      UnderDepth(h, from, h[n].parent);
    }
  }

  lemma DescendStep(h: Cells, from: TaskGroup, n: TaskGroup, i: nat)
    requires TreeOk(h) && Under(h, from, n) && i < |h[n].children|
    ensures Under(h, from, h[n].children[i])
    ensures Rest(h, from, n, i) == Tour(Abs(h, h[n].children[i])) + Later(h, from, h[n].children[i])
  {
    ChildAbs(h, n, i);
    UnderDepth(h, from, n);
    assert ChildrenOk(h, n);
    IndexAt(h[n].children, i);
    var ts := Abs(h, n).children;
    assert ts[i..][0] == ts[i] && ts[i..][1..] == ts[i + 1..];
  }

  lemma LeaveStep(h: Cells, from: TaskGroup, n: TaskGroup)
    requires TreeOk(h) && Under(h, from, n)
    ensures var left := Rest(h, from, n, |h[n].children|);
            left != [] && left[0] == Up(Abs(h, n)) && left[1..] == Later(h, from, n)
  {
    var ts := Abs(h, n).children;
    assert ts[|h[n].children|..] == [];
  }
}
