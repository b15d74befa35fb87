/** The hierarchical run queue as it is in memory: methods that update the
    fields in place, each proved against its function on snapshots. */
module RtRunQueue {
  import opened PrioArrays
  import opened RtHierarchy
  import opened RtInvariant
  import opened RtChains
  import opened RtRuns

  /** `e` and its ancestors, from the bottom up. */
  ghost function Path(s: State, e: SchedRtEntity): seq<SchedRtEntity>
    requires Closed(s) && e in s.se
    decreases e.rtRq.depth
  {
    [e] + if e.parent == null then [] else Path(s, e.parent)
  }

  lemma {:induction false} PathAt(s: State, e: SchedRtEntity, i: nat)
    requires Closed(s) && e in s.se && i < |Path(s, e)|
    ensures var p := Path(s, e);
            && p[i] in s.se && p[i] in Chain(s, e) && p[i].rtRq.depth == e.rtRq.depth - i
            && p[i].parent == if i + 1 < |p| then p[i + 1] else null
    decreases e.rtRq.depth
  {
    if e.parent != null {
      var q := Path(s, e.parent);
      if i == 0 {
        assert q[0] == e.parent;
      } else {
        PathAt(s, e.parent, i - 1);
      }
    }
  }

  /** `back` leads from each of the first `k` entities of the path to the one
      below it. */
  ghost predicate Threaded(path: seq<SchedRtEntity>, k: nat, backs: map<SchedRtEntity, SchedRtEntity?>)
    requires k <= |path|
  {
    k == 0 || (path[k - 1] in backs && backs[path[k - 1]] == (if k > 1 then path[k - 2] else null)
               && Threaded(path, k - 1, backs))
  }

  lemma {:induction false} ThreadedAt(path: seq<SchedRtEntity>, k: nat, backs: map<SchedRtEntity, SchedRtEntity?>, i: nat)
    requires k <= |path| && Threaded(path, k, backs) && i < k
    ensures path[i] in backs && backs[path[i]] == if i > 0 then path[i - 1] else null
  {
    if i < k - 1 {
      ThreadedAt(path, k - 1, backs, i);
    }
  }

  /** Threading one more entity of the path leaves those below it threaded. */
  lemma ThreadNext(s: State, e: SchedRtEntity, k: nat, backs: map<SchedRtEntity, SchedRtEntity?>, below: SchedRtEntity?)
    requires Closed(s) && e in s.se && k < |Path(s, e)| && Threaded(Path(s, e), k, backs)
    requires below == if k > 0 then Path(s, e)[k - 1] else null
    ensures Threaded(Path(s, e), k + 1, backs[Path(s, e)[k] := below])
  {
    ThreadFrame(s, e, k, backs, k, below);
  }

  lemma {:induction false} ThreadFrame(s: State, e: SchedRtEntity, n: nat, backs: map<SchedRtEntity, SchedRtEntity?>,
                                       k: nat, below: SchedRtEntity?)
    requires Closed(s) && e in s.se && n <= k < |Path(s, e)| && Threaded(Path(s, e), n, backs)
    ensures Threaded(Path(s, e), n, backs[Path(s, e)[k] := below])
  {
    if n > 0 {
      PathAt(s, e, n - 1);
      PathAt(s, e, k);
      ThreadFrame(s, e, n - 1, backs, k, below);
    }
  }

  class RunQueue {
    const root: RtRq
    const rtSe: map<RtRq, SchedRtEntity>  // tg->rt_se[cpu]
    ghost const rqs: set<RtRq>
    ghost const ents: set<SchedRtEntity>

    /** A run queue over freshly initialised rt_rqs and entities. */
    constructor (root: RtRq, rtSe: map<RtRq, SchedRtEntity>, ghost rqs: set<RtRq>, ghost ents: set<SchedRtEntity>)
      requires Boot(State(root, map r | r in rqs :: r.Val(), map e | e in ents :: e.Val(), rtSe))
      ensures this.root == root && this.rtSe == rtSe && this.rqs == rqs && this.ents == ents
      ensures Inv(Snap(), {}) && Tasks(Snap()) == {}
    {
      this.root, this.rtSe, this.rqs, this.ents := root, rtSe, rqs, ents;
      BootInvariant(State(root, map r | r in rqs :: r.Val(), map e | e in ents :: e.Val(), rtSe));
    }

    ghost function Snap(): State
      reads rqs`active, rqs`rtNrRunning, rqs`highestPrioCurr, rqs`rtNrBoosted, rqs`rtThrottled
      reads ents`prio, ents`normalPrio, ents`onRq
    {
      State(root, map r | r in rqs :: r.Val(), map e | e in ents :: e.Val(), rtSe)
    }

    lemma Reads(e: SchedRtEntity)
      requires Closed(Snap()) && e in ents
      ensures e.rtRq in rqs && (e.myQ != null ==> e.myQ in rqs)
      ensures e.RtSePrio() == Prio(Snap(), e) && e.RtSeBoosted() == Boosted(Snap(), e)
      ensures Snap().se[e] == e.Val() && Snap().rq[e.rtRq] == e.rtRq.Val()
      ensures e.myQ != null ==> Snap().rq[e.myQ] == e.myQ.Val()
    {
    }

    /** If only one rt_rq and the flag of one entity were written, the snapshot
        changed only there. */
    lemma Touched(s: State, e: SchedRtEntity)
      requires s.root == root && s.rtSe == rtSe && s.rq.Keys == rqs && s.se.Keys == ents
      requires e in ents && e.rtRq in rqs
      requires forall r :: r in rqs && r != e.rtRq ==> r.Val() == s.rq[r]
      requires forall f :: f in ents && f != e ==> f.Val() == s.se[f]
      ensures Snap() == s.(rq := s.rq[e.rtRq := e.rtRq.Val()], se := s.se[e := e.Val()])
    {
    }

    // ----- single entities -----

    /** What the warnings of dec_rt_tasks check, read off the snapshot. */
    ghost predicate MayLeave(v: RqVal, prio: int, boosted: bool) {
      && Shape(v.active) && 0 <= prio < MAX_PRIO && v.nr > 0
      && (v.nr > 1 ==> prio >= v.highest)
      && (v.nr == 1 ==> v.boosted == if boosted then 1 else 0)
    }

    lemma Leaving(s: State, e: SchedRtEntity)
      requires RqsOk(s) && e in s.se && s.se[e].on
      ensures MayLeave(s.rq[e.rtRq], Prio(s, e), Boosted(s, e))
    {
      assert RqOk(s, e.rtRq);
      assert e in Key(s, e.rtRq);
      LeaveCounts(s.rq[e.rtRq], Key(s, e.rtRq), BoostedOn(s, e.rtRq), e);
    }

    method DequeueOne(e: SchedRtEntity)
      requires Closed(Snap()) && e in ents && MayLeave(Snap().rq[e.rtRq], Prio(Snap(), e), Boosted(Snap(), e))
      modifies rqs`active, rqs`rtNrRunning, rqs`highestPrioCurr, rqs`rtNrBoosted, ents`onRq
      ensures Snap() == RtHierarchy.DequeueOne(old(Snap()), e)
    {
      ghost var s := Snap();
      Reads(e);
      var prio, boosted := e.RtSePrio(), e.RtSeBoosted();
      assert prio == Prio(s, e) && boosted == Boosted(s, e) && e.rtRq.Val() == s.rq[e.rtRq];
      e.rtRq.Del(e, prio, boosted);
      assert e.rtRq.Val() == Leave(s.rq[e.rtRq], e, prio, boosted);
      e.onRq := false;
      Touched(s, e);
    }

    method EnqueueOne(e: SchedRtEntity, head: bool)
      requires Closed(Snap()) && e in ents
      requires !Blocked(Snap(), e) ==> Shape(Snap().rq[e.rtRq].active) && 0 <= Prio(Snap(), e) < MAX_PRIO
      modifies rqs`active, rqs`rtNrRunning, rqs`highestPrioCurr, rqs`rtNrBoosted, ents`onRq
      ensures Snap() == RtHierarchy.EnqueueOne(old(Snap()), e, head)
    {
      ghost var s := Snap();
      Reads(e);
      if e.myQ != null && (e.myQ.IsThrottled() || e.myQ.rtNrRunning == 0) {
        return;
      }
      var prio, boosted := e.RtSePrio(), e.RtSeBoosted();
      e.rtRq.Add(e, prio, boosted, head);
      e.onRq := true;
      Touched(s, e);
    }

    lemma Joining(s: State, e: SchedRtEntity)
      requires RqsOk(s) && e in s.se && (e.myQ == null ==> 0 <= s.se[e].prio < MAX_PRIO)
      ensures !Blocked(s, e) ==> Shape(s.rq[e.rtRq].active) && 0 <= Prio(s, e) < MAX_PRIO
    {
      if !Blocked(s, e) {
        LinkablePrio(s, e);
        assert RqOk(s, e.rtRq);
      }
    }

    method RequeueOne(e: SchedRtEntity, head: bool)
      requires Closed(Snap()) && e in ents
      requires e.onRq ==> Shape(Snap().rq[e.rtRq].active) && 0 <= Prio(Snap(), e) < MAX_PRIO
      requires e.onRq ==> Snap().rq[e.rtRq].active.bitmap[Prio(Snap(), e)]
      modifies rqs`active
      ensures Snap() == RtHierarchy.RequeueOne(old(Snap()), e, head)
    {
      ghost var s := Snap();
      Reads(e);
      if e.onRq {
        var rq, prio := e.rtRq, e.RtSePrio();
        assert rq.active.bitmap[prio := true] == rq.active.bitmap;
        rq.active := rq.active.(queue := rq.active.queue[prio := Put(rq.active.queue[prio], e, head)]);
        Touched(s, e);
        assert s.se[e := s.se[e]] == s.se;
      }
    }

    lemma Moving(s: State, e: SchedRtEntity)
      requires RqsOk(s) && e in s.se && s.se[e].on
      ensures Shape(s.rq[e.rtRq].active) && 0 <= Prio(s, e) < MAX_PRIO && s.rq[e.rtRq].active.bitmap[Prio(s, e)]
    {
      assert RqOk(s, e.rtRq);
      assert e in Key(s, e.rtRq);
      PrioArrays.Linked(s.rq[e.rtRq].active, Key(s, e.rtRq), e);
    }

    // ----- chains -----

    ghost function Backs(): map<SchedRtEntity, SchedRtEntity?>
      reads ents`back
    {
      map f | f in ents :: f.back
    }

    method SetBack(e: SchedRtEntity, below: SchedRtEntity?)
      requires e in ents
      modifies e`back
      ensures Backs() == old(Backs())[e := below]
    {
      e.back := below;
    }

    /** The first loop of dequeue_rt_stack: thread `back` up the chain. */
    method ThreadBack(e: SchedRtEntity) returns (top: SchedRtEntity?)
      requires Closed(Snap()) && e in ents
      modifies ents`back
      ensures Snap() == old(Snap())
      ensures var path := Path(old(Snap()), e); top == path[|path| - 1] && Threaded(path, |path|, Backs())
    {
      ghost var s, path := Snap(), Path(Snap(), e);
      var se: SchedRtEntity? := e;
      top := null;
      ghost var k := 0;
      while se != null
        invariant 0 <= k <= |path| && Threaded(path, k, Backs())
        invariant top == (if k > 0 then path[k - 1] else null) && se == (if k < |path| then path[k] else null)
        decreases |path| - k
      {
        PathAt(s, e, k);
        ThreadNext(s, e, k, Backs(), top);
        SetBack(se, top);
        top := se;
        se := se.parent;
        k := k + 1;
      }
    }

    /** dequeue_rt_stack: thread `back` up the chain, then follow it down. */
    method DequeueStack(e: SchedRtEntity, ghost transit: set<SchedRtEntity>)
      requires Inv(Snap(), transit) && e in ents
      modifies rqs`active, rqs`rtNrRunning, rqs`highestPrioCurr, rqs`rtNrBoosted, ents`onRq, ents`back
      ensures Snap() == RtHierarchy.DequeueStack(old(Snap()), e)
    {
      var top := ThreadBack(e);
      FollowBack(e, top, transit);
    }

    /** The second loop of dequeue_rt_stack. */
    method FollowBack(ghost e: SchedRtEntity, top: SchedRtEntity?, ghost transit: set<SchedRtEntity>)
      requires Inv(Snap(), transit) && e in ents
      requires var path := Path(Snap(), e); top == path[|path| - 1] && Threaded(path, |path|, Backs())
      modifies rqs`active, rqs`rtNrRunning, rqs`highestPrioCurr, rqs`rtNrBoosted, ents`onRq
      ensures Snap() == RtHierarchy.DequeueStack(old(Snap()), e)
    {
      ghost var s, path := Snap(), Path(Snap(), e);
      var se: SchedRtEntity? := top;
      ghost var k, backs := |path|, Backs();
      while se != null
        invariant 0 <= k <= |path| && Backs() == backs
        invariant se == if k > 0 then path[k - 1] else null
        invariant k < |path| ==> path[k] in s.se
        invariant Snap() == if k < |path| then RtHierarchy.DequeueStack(s, path[k]) else s
        decreases k
      {
        PathAt(s, e, k - 1);
        ThreadedAt(path, |path|, backs, k - 1);
        assert backs[se] == se.back;
        TakeNext(se, s, transit);
        se := se.back;
        k := k - 1;
      }
    }

    /** One step of the way down: everything above `se` is off already. */
    method TakeNext(se: SchedRtEntity, ghost s: State, ghost transit: set<SchedRtEntity>)
      requires se in ents && Inv(s, transit) && se in s.se
      requires Snap() == if se.parent == null then s else RtHierarchy.DequeueStack(s, se.parent)
      modifies rqs`active, rqs`rtNrRunning, rqs`highestPrioCurr, rqs`rtNrBoosted, ents`onRq
      ensures Snap() == RtHierarchy.DequeueStack(s, se)
    {
      StackBelow(s, se, transit);
      TakeOff(se);
    }

    method TakeOff(e: SchedRtEntity)
      requires RqsOk(Snap()) && e in ents
      modifies rqs`active, rqs`rtNrRunning, rqs`highestPrioCurr, rqs`rtNrBoosted, ents`onRq
      ensures Snap() == var s := old(Snap()); if s.se[e].on then RtHierarchy.DequeueOne(s, e) else s
    {
      Reads(e);
      if e.onRq {
        Leaving(Snap(), e);
        DequeueOne(e);
      }
    }

    /** With everything above it off, `f` may be taken off next. */
    lemma StackBelow(s: State, f: SchedRtEntity, transit: set<SchedRtEntity>)
      requires Inv(s, transit) && f in s.se
      ensures var t := if f.parent == null then s else RtHierarchy.DequeueStack(s, f.parent);
              && Inv(t, if f.parent == null then transit else transit + Chain(s, f.parent))
              && UpperOff(t, f) && (f.parent != null ==> f.parent in transit + Chain(s, f.parent))
    {
      if f.parent != null {
        DequeueStackInv(s, f.parent, transit, Chain(s, f.parent));
      }
    }

    method EnqueueEntity(e: SchedRtEntity, head: bool, ghost transit: set<SchedRtEntity>)
      requires Inv(Snap(), transit) && e in ents && transit <= Chain(Snap(), e)
      requires e.myQ == null ==> 0 <= e.prio < MAX_PRIO
      modifies rqs`active, rqs`rtNrRunning, rqs`highestPrioCurr, rqs`rtNrBoosted, ents`onRq, ents`back
      ensures Snap() == RtHierarchy.EnqueueEntity(old(Snap()), e, head)
      ensures Inv(Snap(), {}) && ChainAt(old(Snap()), Snap(), e, head)
    {
      ghost var s := Snap();
      Reads(e);
      EnqueueEntityInv(s, e, head, transit);
      EnqueueChainAt(s, e, head, transit);
      ghost var c := Chain(s, e);
      DequeueStackInv(s, e, transit, c);
      ChainSame(s, RtHierarchy.DequeueStack(s, e), e);
      DequeueStack(e, transit);
      assert Snap().se[e] == e.Val();
      assert transit + c == c;
      EnqueueUp(e, head, c);
    }

    /** The rebuilding loop of enqueue_rt_entity. */
    method EnqueueUp(e: SchedRtEntity, head: bool, ghost transit: set<SchedRtEntity>)
      requires Inv(Snap(), transit) && e in ents && Chain(Snap(), e) <= transit && AllOff(Snap(), Chain(Snap(), e))
      requires e.myQ == null ==> 0 <= e.prio < MAX_PRIO
      modifies rqs`active, rqs`rtNrRunning, rqs`highestPrioCurr, rqs`rtNrBoosted, ents`onRq
      ensures Snap() == EnqueueChain(old(Snap()), e, head)
    {
      ghost var goal, x := EnqueueChain(Snap(), e, head), transit;
      var se: SchedRtEntity? := e;
      while se != null
        invariant se == null ==> Snap() == goal
        invariant Closed(Snap())
        invariant se != null ==>
                    && se in ents && Inv(Snap(), x) && Chain(Snap(), se) <= x && AllOff(Snap(), Chain(Snap(), se))
                    && EnqueueChain(Snap(), se, head) == goal
                    && (se.myQ == null ==> 0 <= se.prio < MAX_PRIO)
        decreases if se == null then -1 else se.rtRq.depth
      {
        ghost var s := Snap();
        Reads(se);
        EnqueueOneInv(s, se, head, x);
        Joining(s, se);
        EnqueueOne(se, head);
        ChainUp(s, se, head, x);
        x := x - {se};
        se := se.parent;
      }
    }

    lemma ChainUp(s: State, e: SchedRtEntity, head: bool, x: set<SchedRtEntity>)
      requires Inv(s, x) && e in s.se && Chain(s, e) <= x && AllOff(s, Chain(s, e))
      ensures var t := RtHierarchy.EnqueueOne(s, e, head);
              e.parent != null ==>
                && Closed(t) && e.parent in s.se && Chain(t, e.parent) <= x - {e}
                && AllOff(t, Chain(t, e.parent)) && e.parent.myQ != null && e.parent.rtRq.depth < e.rtRq.depth
    {
      if e.parent != null {
        ChainSame(s, RtHierarchy.EnqueueOne(s, e, head), e.parent);
        ChainAbove(s, e.parent);
      }
    }

    method DequeueEntity(e: SchedRtEntity, ghost transit: set<SchedRtEntity>)
      requires Inv(Snap(), transit) && e in ents && transit <= Chain(Snap(), e)
      modifies rqs`active, rqs`rtNrRunning, rqs`highestPrioCurr, rqs`rtNrBoosted, ents`onRq, ents`back
      ensures Snap() == RtHierarchy.DequeueEntity(old(Snap()), e)
      ensures Inv(Snap(), {}) && AtTails(old(Snap()), Snap(), e)
    {
      ghost var s := Snap();
      DequeueEntityInv(s, e, transit);
      DequeueChainAt(s, e, transit);
      ghost var c := Chain(s, e);
      DequeueStackInv(s, e, transit, c);
      ChainSame(s, RtHierarchy.DequeueStack(s, e), e);
      DequeueStack(e, transit);
      assert transit + c == c;
      RejoinUp(e, c);
    }

    /** The rebuilding loop of dequeue_rt_entity. */
    method RejoinUp(e: SchedRtEntity, ghost transit: set<SchedRtEntity>)
      requires Inv(Snap(), transit) && e in ents && Chain(Snap(), e) <= transit && AllOff(Snap(), Chain(Snap(), e))
      modifies rqs`active, rqs`rtNrRunning, rqs`highestPrioCurr, rqs`rtNrBoosted, ents`onRq
      ensures Snap() == RejoinChain(old(Snap()), e)
    {
      ghost var goal, x := RejoinChain(Snap(), e), transit;
      var se: SchedRtEntity? := e;
      while se != null
        invariant se == null ==> Snap() == goal
        invariant Closed(Snap())
        invariant se != null ==>
                    && se in ents && Inv(Snap(), x) && Chain(Snap(), se) <= x && AllOff(Snap(), Chain(Snap(), se))
                    && RejoinChain(Snap(), se) == goal
        decreases if se == null then -1 else se.rtRq.depth
      {
        ghost var s := Snap();
        Reads(se);
        RejoinStep(s, se, x);
        if se.myQ != null && se.myQ.rtNrRunning != 0 {
          Joining(s, se);
          EnqueueOne(se, false);
          x := x - {se};
        }
        se := se.parent;
      }
    }

    lemma RejoinStep(s: State, e: SchedRtEntity, x: set<SchedRtEntity>)
      requires Inv(s, x) && e in s.se && Chain(s, e) <= x && AllOff(s, Chain(s, e))
      ensures var join := e.myQ != null && s.rq[e.myQ].nr != 0;
              var t, y := if join then RtHierarchy.EnqueueOne(s, e, false) else s, if join then x - {e} else x;
              && Inv(t, y)
              && (e.parent != null ==>
                    && e.parent in s.se && Chain(t, e.parent) <= y && AllOff(t, Chain(t, e.parent))
                    && e.parent.rtRq.depth < e.rtRq.depth)
    {
      if e.myQ != null {
        EnqueueOneInv(s, e, false, x);
      }
      ChainUp(s, e, false, x);
    }

    method RequeueTask(e: SchedRtEntity, head: bool)
      requires Inv(Snap(), {}) && e in ents
      modifies rqs`active
      ensures Snap() == RtHierarchy.RequeueTask(old(Snap()), e, head)
      ensures Inv(Snap(), {})
    {
      ghost var goal := RtHierarchy.RequeueTask(Snap(), e, head);
      var se: SchedRtEntity? := e;
      while se != null
        invariant Inv(Snap(), {})
        invariant if se == null then Snap() == goal else se in ents && RtHierarchy.RequeueTask(Snap(), se, head) == goal
        decreases if se == null then -1 else se.rtRq.depth
      {
        RequeueOneInv(Snap(), se, head, Chain(Snap(), se));
        Reads(se);
        if se.onRq {
          Moving(Snap(), se);
        }
        RequeueOne(se, head);
        se := se.parent;
      }
    }

    // ----- throttling -----

    lemma Flagged(s: State, rq: RtRq)
      requires s.root == root && s.rtSe == rtSe && s.rq.Keys == rqs && s.se.Keys == ents && rq in rqs
      requires forall r :: r in rqs && r != rq ==> r.Val() == s.rq[r]
      requires forall f :: f in ents ==> f.Val() == s.se[f]
      ensures Snap() == s.(rq := s.rq[rq := rq.Val()]) && Snap().rq[rq] == rq.Val()
    {
    }

    lemma OnQueue(rq: RtRq)
      requires Closed(Snap()) && rq in rqs
      ensures Snap().rq[rq] == rq.Val()
      ensures rq in rtSe ==> rtSe[rq] in ents && Snap().se[rtSe[rq]] == rtSe[rq].Val()
    {
    }

    method SchedRtRqEnqueue(rq: RtRq)
      requires rq in rqs && Inv(Snap(), Owner(Snap(), rq))
      modifies rqs`active, rqs`rtNrRunning, rqs`highestPrioCurr, rqs`rtNrBoosted, ents`onRq, ents`back
      ensures Snap() == RqEnqueue(old(Snap()), rq)
      ensures old(rq.rtNrRunning == 0 || rq !in rtSe || rtSe[rq].onRq) ==> Snap() == old(Snap())
      ensures old(rq.rtNrRunning != 0 && rq in rtSe && !rtSe[rq].onRq) ==> AtTails(old(Snap()), Snap(), rtSe[rq])
    {
      assert Snap().rq[rq] == rq.Val();
      if rq.rtNrRunning != 0 {
        if rq in rtSe {
          var se := rtSe[rq];
          Reads(se);
          if !se.onRq {
            EnqueueEntity(se, false, Owner(Snap(), rq));
          }
        }
      }
    }

    method SchedRtRqDequeue(rq: RtRq)
      requires rq in rqs && Inv(Snap(), Owner(Snap(), rq))
      modifies rqs`active, rqs`rtNrRunning, rqs`highestPrioCurr, rqs`rtNrBoosted, ents`onRq, ents`back
      ensures Snap() == RqDequeue(old(Snap()), rq)
      ensures old(rq !in rtSe || !rtSe[rq].onRq) ==> Snap() == old(Snap())
      ensures old(rq in rtSe && rtSe[rq].onRq) ==> AtTails(old(Snap()), Snap(), rtSe[rq])
    {
      if rq in rtSe {
        var se := rtSe[rq];
        Reads(se);
        if se.onRq {
          DequeueEntity(se, Owner(Snap(), rq));
        }
      }
    }

    /** The queue side of sched_rt_runtime_exceeded. */
    method Exceeded(rq: RtRq) returns (resched: bool)
      requires rq in rqs && Inv(Snap(), {})
      modifies rqs`active, rqs`rtNrRunning, rqs`highestPrioCurr, rqs`rtNrBoosted, rqs`rtThrottled, ents`onRq, ents`back
      ensures Snap() == Throttle(old(Snap()), rq) && Inv(Snap(), {})
      ensures resched <==> old(rq.rtNrBoosted) == 0
      ensures old(rq !in rtSe || !rtSe[rq].onRq || rq.rtNrBoosted != 0) ==> OnlyFlag(old(Snap()), Snap(), rq, true)
      ensures old(rq in rtSe && rtSe[rq].onRq && rq.rtNrBoosted == 0) ==>
                Rechained(old(Snap()), Snap(), rq, true, rtSe[rq]) && !rtSe[rq].onRq
    {
      ghost var s := Snap();
      OnQueue(rq);
      ThrottleInv(s, rq);
      ThrottlePlaces(s, rq);
      SetThrottledInv(s, rq, true);
      rq.rtThrottled := true;
      Flagged(s, rq);
      resched := rq.IsThrottled();
      if resched {
        SchedRtRqDequeue(rq);
      }
      OnQueue(rq);
    }

    /** The queue side of do_sched_rt_period_timer. */
    method Replenished(rq: RtRq)
      requires rq in rqs && Inv(Snap(), {})
      modifies rqs`active, rqs`rtNrRunning, rqs`highestPrioCurr, rqs`rtNrBoosted, rqs`rtThrottled, ents`onRq, ents`back
      ensures Snap() == Unthrottle(old(Snap()), rq) && Inv(Snap(), {})
      ensures old(rq.rtNrRunning == 0 || rq !in rtSe || rtSe[rq].onRq) ==> OnlyFlag(old(Snap()), Snap(), rq, false)
      ensures old(rq.rtNrRunning != 0 && rq in rtSe && !rtSe[rq].onRq) ==>
                Rechained(old(Snap()), Snap(), rq, false, rtSe[rq]) && rtSe[rq].onRq
    {
      ghost var s := Snap();
      OnQueue(rq);
      UnthrottleInv(s, rq);
      UnthrottlePlaces(s, rq);
      SetThrottledInv(s, rq, false);
      rq.rtThrottled := false;
      Flagged(s, rq);
      SchedRtRqEnqueue(rq);
      OnQueue(rq);
    }

    // ----- picking -----

    /** pick_next_rt_entity: the head of the first non-empty list. */
    method PickNextEntity(rq: RtRq) returns (se: SchedRtEntity)
      requires RqsOk(Snap()) && rq in rqs && rq.rtNrRunning != 0
      ensures se in ents && Shape(rq.active) && First(rq.active) < MAX_PRIO && rq.active.queue[First(rq.active)] != []
      ensures se == rq.active.queue[First(rq.active)][0] && se.rtRq == rq && se.onRq
    {
      ghost var s := Snap();
      assert s.rq[rq] == rq.Val();
      ghost var first := FirstEntity(s, rq);
      var idx := FirstBit(rq.active.bitmap);
      assert idx < MAX_PRIO;  // BUG_ON(idx >= MAX_RT_PRIO) is unreachable
      se := rq.active.queue[idx][0];
      Reads(se);
    }

    /** One step of the descent: a group at the head of its list is not empty. */
    lemma PickStep(s: State, r: RtRq, e: SchedRtEntity, fuel: nat)
      requires Inv(s, {}) && r in s.rq && e in s.se && s.se[e].on && e.rtRq == r
      requires var a := s.rq[r].active;
               Shape(a) && First(a) < MAX_PRIO && a.queue[First(a)] != [] && e == a.queue[First(a)][0]
      ensures e.myQ == null ==> PickFrom(s, r, fuel) == e
      ensures e.myQ != null ==> e.myQ in s.rq && s.rq[e.myQ].nr != 0 && e.myQ.depth == r.depth + 1
      ensures e.myQ != null && fuel > 0 ==> PickFrom(s, r, fuel) == PickFrom(s, e.myQ, fuel - 1)
    {
      assert LinkOk(s, e);
    }

    /** The loop of _pick_next_task_rt. */
    method Descend(ghost bound: nat) returns (p: SchedRtEntity)
      requires Inv(Snap(), {}) && DepthBound(Snap(), bound) && root.rtNrRunning != 0
      ensures PickFrom(Snap(), root, bound) == p && p in ents && p.myQ == null
    {
      ghost var s := Snap();
      var rq := root;
      ghost var fuel := bound;
      while true
        invariant rq in rqs && rq.rtNrRunning != 0 && fuel + rq.depth >= bound
        invariant PickFrom(s, rq, fuel) == PickFrom(s, root, bound)
        decreases fuel
      {
        assert s.rq[rq] == rq.Val();
        var se := PickNextEntity(rq);
        PickStep(s, rq, se, fuel);
        if se.myQ == null {
          return se;
        }
        rq := se.myQ;
        fuel := fuel - 1;
      }
    }

    method PickNext() returns (p: SchedRtEntity?)
      requires Inv(Snap(), {})
      ensures p == null <==> root.rtNrRunning == 0 || root.IsThrottled()
      ensures p != null ==> p in ents && p.myQ == null && Reachable(Snap(), p)
      ensures p != null ==> forall q :: q in ents && q.myQ == null && Reachable(Snap(), q) ==> p.prio <= q.prio
      ensures p != null ==> AtHeads(Snap(), p)
    {
      ghost var s := Snap();
      assert s.rq[root] == root.Val();
      if root.rtNrRunning == 0 || root.IsThrottled() {
        return null;
      }
      ghost var bound := DepthIsBounded(rqs);
      PickIsLeast(s, bound);
      PickHeads(s, bound);
      p := Descend(bound);
      assert forall q :: q in ents ==> s.se[q].prio == q.prio;
    }
  }
}
