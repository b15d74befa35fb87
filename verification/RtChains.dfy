/** Enqueue, dequeue and requeue along a whole ancestor chain. */
module RtChains {
  import opened PrioArrays
  import opened RtHierarchy
  import opened RtInvariant

  ghost function List(s: State, r: RtRq, i: int): seq<SchedRtEntity>
    requires r in s.rq
  {
    var a := s.rq[r].active;
    if 0 <= i < |a.queue| then a.queue[i] else []
  }

  /** Nothing but the linking of the entities of `c` has changed: every other
      entity is linked as before, and in the same order; no priority and no
      throttled flag is touched. */
  ghost predicate Kept(s: State, t: State, c: set<SchedRtEntity>) {
    && SameTree(s, t)
    && (forall e :: e in s.se ==> t.se[e] == if e in c then s.se[e].(on := t.se[e].on) else s.se[e])
    && (forall r :: r in s.rq ==> t.rq[r].throttled == s.rq[r].throttled)
    && (forall r, i {:trigger List(t, r, i)} :: r in s.rq ==> Without(List(t, r, i), c) == Without(List(s, r, i), c))
  }

  ghost predicate AllOff(s: State, c: set<SchedRtEntity>) {
    forall e :: e in c ==> e in s.se && !s.se[e].on
  }

  lemma KeptTrans(s: State, t: State, u: State, c: set<SchedRtEntity>)
    requires Kept(s, t, c) && Kept(t, u, c)
    ensures Kept(s, u, c)
  {
    forall r, i | r in s.rq ensures Without(List(u, r, i), c) == Without(List(s, r, i), c) {
      assert Without(List(t, r, i), c) == Without(List(s, r, i), c);
    }
  }

  /** A step that only links or unlinks `e` keeps everything but `e`. */
  lemma KeptStep(s: State, t: State, e: SchedRtEntity, i: int, head: bool, c: set<SchedRtEntity>)
    requires Local(s, t, e) && e in c && RqOk(s, e.rtRq)
    requires var a, b := s.rq[e.rtRq].active, t.rq[e.rtRq].active;
             b == a || b == Unlinked(a, i, e) || b == RtHierarchy.Linked(a, i, e, head)
    ensures Kept(s, t, c)
  {
    forall r, j | r in s.rq ensures Without(List(t, r, j), c) == Without(List(s, r, j), c) {
      if r == e.rtRq && j == i && 0 <= i < MAX_PRIO {
        var list := List(s, r, i);
        ListAt(s.rq[r].active, Key(s, r), i);
        PutList(list, e, head);
        WithoutTwice(list, {e}, c);
        assert {e} + c == c;
      }
    }
  }

  lemma {:induction false} ChainSame(s: State, t: State, e: SchedRtEntity)
    requires Closed(s) && SameTree(s, t) && e in s.se
    ensures Closed(t) && Chain(t, e) == Chain(s, e)
    decreases e.rtRq.depth
  {
    if e.parent != null {
      ChainSame(s, t, e.parent);
    }
  }

  /** Ancestors are queued strictly higher up. */
  lemma {:induction false} ChainAbove(s: State, e: SchedRtEntity)
    requires Closed(s) && e in s.se
    ensures forall f :: f in Chain(s, e) ==> f in s.se && f.rtRq.depth <= e.rtRq.depth && (f != e ==> f.rtRq.depth < e.rtRq.depth)
    decreases e.rtRq.depth
  {
    if e.parent != null {
      ChainAbove(s, e.parent);
    }
  }

  // ----- taking the chain off -----

  lemma {:induction false} DequeueStackInv(s: State, e: SchedRtEntity, transit: set<SchedRtEntity>, c: set<SchedRtEntity>)
    requires Inv(s, transit) && e in s.se && Chain(s, e) <= c
    ensures Inv(DequeueStack(s, e), transit + Chain(s, e))
    ensures Kept(s, DequeueStack(s, e), c)
    ensures AllOff(DequeueStack(s, e), Chain(s, e))
    decreases e.rtRq.depth
  {
    var upper := if e.parent == null then {} else Chain(s, e.parent);
    var s1 := if e.parent == null then s else DequeueStack(s, e.parent);
    if e.parent != null {
      DequeueStackInv(s, e.parent, transit, c);
    }
    assert Kept(s, s1, c) && AllOff(s1, upper) && Inv(s1, transit + upper);
    assert transit + upper + {e} == transit + Chain(s, e);
    if s1.se[e].on {
      DequeueKept(s1, e, transit + upper, c);
      KeptTrans(s, s1, DequeueOne(s1, e), c);
    } else {
      WiderTransit(s1, transit + upper, transit + Chain(s, e));
    }
  }

  lemma DequeueKept(s: State, e: SchedRtEntity, transit: set<SchedRtEntity>, c: set<SchedRtEntity>)
    requires Inv(s, transit) && e in s.se && s.se[e].on && e in c && UpperOff(s, e)
    requires e.parent != null ==> e.parent in transit
    ensures Inv(DequeueOne(s, e), transit + {e}) && Kept(s, DequeueOne(s, e), c)
  {
    DequeueOneInv(s, e, transit);
    assert RqOk(s, e.rtRq);
    KeptStep(s, DequeueOne(s, e), e, Prio(s, e), false, c);
  }

  lemma WiderTransit(s: State, a: set<SchedRtEntity>, b: set<SchedRtEntity>)
    requires Inv(s, a) && a <= b
    ensures Inv(s, b)
  {
  }

  // ----- putting it back -----

  lemma EnqueueKept(s: State, e: SchedRtEntity, head: bool, transit: set<SchedRtEntity>, c: set<SchedRtEntity>)
    requires Inv(s, transit) && e in s.se && !s.se[e].on && UpperOff(s, e) && e in c
    requires e in transit && (e.parent != null ==> e.parent in transit)
    requires e.myQ == null ==> 0 <= s.se[e].prio < MAX_PRIO
    ensures Inv(EnqueueOne(s, e, head), transit - {e}) && OnlyAt(s, EnqueueOne(s, e, head), e)
    ensures Kept(s, EnqueueOne(s, e, head), c)
  {
    EnqueueOneInv(s, e, head, transit);
    assert RqOk(s, e.rtRq);
    KeptStep(s, EnqueueOne(s, e, head), e, Prio(s, e), head, c);
  }

  lemma {:induction false} EnqueueChainInv(s: State, e: SchedRtEntity, head: bool, transit: set<SchedRtEntity>, c: set<SchedRtEntity>)
    requires Inv(s, transit) && e in s.se && Chain(s, e) <= transit && Chain(s, e) <= c
    requires AllOff(s, Chain(s, e)) && (e.myQ == null ==> 0 <= s.se[e].prio < MAX_PRIO)
    ensures Inv(EnqueueChain(s, e, head), transit - Chain(s, e))
    ensures Kept(s, EnqueueChain(s, e, head), c)
    decreases e.rtRq.depth
  {
    EnqueueKept(s, e, head, transit, c);
    var s1 := EnqueueOne(s, e, head);
    if e.parent == null {
      assert Chain(s, e) == {e};
    } else {
      ChainAbove(s, e.parent);
      ChainSame(s, s1, e.parent);
      EnqueueChainInv(s1, e.parent, head, transit - {e}, c);
      KeptTrans(s, s1, EnqueueChain(s1, e.parent, head), c);
      assert transit - {e} - Chain(s, e.parent) == transit - Chain(s, e);
    }
  }

  /** The rebuilding loop of a dequeue is that of an enqueue without the task. */
  lemma {:induction false} RejoinIsEnqueue(s: State, e: SchedRtEntity)
    requires Closed(s) && e in s.se
    ensures e.myQ != null ==> RejoinChain(s, e) == EnqueueChain(s, e, false)
    ensures e.myQ == null ==> RejoinChain(s, e) == if e.parent == null then s else EnqueueChain(s, e.parent, false)
    decreases e.rtRq.depth
  {
    if e.parent != null {
      RejoinIsEnqueue(s, e.parent);
      RejoinIsEnqueue(EnqueueOne(s, e, false), e.parent);
    }
  }

  // ----- whole operations -----

  ghost function Tasks(s: State): set<SchedRtEntity> {
    set e | e in s.se && e.myQ == null && s.se[e].on
  }

  /** Off the chain nothing changes, so the queued tasks change by `e` at most. */
  lemma TasksKept(s: State, t: State, e: SchedRtEntity)
    requires Closed(s) && e in s.se && Kept(s, t, Chain(s, e))
    ensures e.myQ != null ==> Tasks(t) == Tasks(s)
    ensures e.myQ == null ==> Tasks(t) == if t.se[e].on then Tasks(s) + {e} else Tasks(s) - {e}
  {
    ChainTasks(s, e);
    forall f | f in s.se && f.myQ == null && f != e ensures t.se[f] == s.se[f] {
    }
  }

  /** Taking the chain off and rebuilding from `e` up. */
  lemma Rebuild(s: State, e: SchedRtEntity, head: bool, transit: set<SchedRtEntity>)
    requires Inv(s, transit) && e in s.se && transit <= Chain(s, e)
    requires e.myQ == null ==> 0 <= s.se[e].prio < MAX_PRIO
    ensures Inv(EnqueueEntity(s, e, head), {})
    ensures Kept(s, EnqueueEntity(s, e, head), Chain(s, e))
  {
    var c, s1 := Chain(s, e), DequeueStack(s, e);
    DequeueStackInv(s, e, transit, c);
    ChainSame(s, s1, e);
    assert transit + c == c;
    EnqueueChainInv(s1, e, head, c, c);
    assert c - c == {};
    KeptTrans(s, s1, EnqueueEntity(s, e, head), c);
  }

  /** enqueue_rt_entity keeps the invariant, disturbs nothing off the chain, and
      for a task adds exactly that task. */
  lemma EnqueueEntityInv(s: State, e: SchedRtEntity, head: bool, transit: set<SchedRtEntity>)
    requires Inv(s, transit) && e in s.se && transit <= Chain(s, e)
    requires e.myQ == null ==> 0 <= s.se[e].prio < MAX_PRIO
    ensures Inv(EnqueueEntity(s, e, head), {})
    ensures Kept(s, EnqueueEntity(s, e, head), Chain(s, e))
    ensures Tasks(EnqueueEntity(s, e, head)) == Tasks(s) + if e.myQ == null then {e} else {}
  {
    Rebuild(s, e, head, transit);
    TasksKept(s, EnqueueEntity(s, e, head), e);
    if e.myQ == null {
      TaskLinked(DequeueStack(s, e), e, head);
    }
  }

  /** Only `e` itself can be a task of its chain. */
  lemma ChainTasks(s: State, e: SchedRtEntity)
    requires Closed(s) && e in s.se
    ensures forall f :: f in Chain(s, e) && f.myQ == null ==> f == e
    decreases e.rtRq.depth
  {
    if e.parent != null {
      assert e.parent.myQ == e.rtRq;
      ChainTasks(s, e.parent);
    }
  }

  /** What lies below the chain is not touched by the rebuilding loop. */
  lemma {:induction false} EnqueueChainRq(s: State, e: SchedRtEntity, head: bool, r: RtRq)
    requires Closed(s) && e in s.se && r in s.rq && r.depth > e.rtRq.depth
    ensures EnqueueChain(s, e, head).rq[r] == s.rq[r]
    decreases e.rtRq.depth
  {
    if e.parent != null {
      EnqueueChainRq(EnqueueOne(s, e, head), e.parent, head, r);
    }
  }

  lemma {:induction false} EnqueueChainSe(s: State, e: SchedRtEntity, head: bool, f: SchedRtEntity)
    requires Closed(s) && e in s.se && f in s.se && f.rtRq.depth > e.rtRq.depth
    ensures EnqueueChain(s, e, head).se[f] == s.se[f]
    decreases e.rtRq.depth
  {
    if e.parent != null {
      EnqueueChainSe(EnqueueOne(s, e, head), e.parent, head, f);
    }
  }

  /** Rebuilding a chain touches nothing below it. */
  lemma EnqueueChainBelow(s: State, e: SchedRtEntity, head: bool)
    requires Closed(s) && e in s.se
    ensures forall r :: r in s.rq && r.depth > e.rtRq.depth ==> EnqueueChain(s, e, head).rq[r] == s.rq[r]
    ensures forall f :: f in s.se && f.rtRq.depth > e.rtRq.depth ==> EnqueueChain(s, e, head).se[f] == s.se[f]
  {
    forall r | r in s.rq && r.depth > e.rtRq.depth ensures EnqueueChain(s, e, head).rq[r] == s.rq[r] {
      EnqueueChainRq(s, e, head, r);
    }
    forall f | f in s.se && f.rtRq.depth > e.rtRq.depth ensures EnqueueChain(s, e, head).se[f] == s.se[f] {
      EnqueueChainSe(s, e, head, f);
    }
  }

  lemma TaskLinked(s: State, e: SchedRtEntity, head: bool)
    requires Closed(s) && e in s.se && e.myQ == null
    ensures EnqueueChain(s, e, head).se[e].on
    ensures EnqueueChain(s, e, head).rq[e.rtRq] == EnqueueOne(s, e, head).rq[e.rtRq]
  {
    if e.parent != null {
      EnqueueChainBelow(EnqueueOne(s, e, head), e.parent, head);
    }
  }

  /** dequeue_rt_entity likewise; for a task it removes exactly that task. */
  lemma DequeueEntityInv(s: State, e: SchedRtEntity, transit: set<SchedRtEntity>)
    requires Inv(s, transit) && e in s.se && transit <= Chain(s, e)
    ensures Inv(DequeueEntity(s, e), {})
    ensures Kept(s, DequeueEntity(s, e), Chain(s, e))
    ensures Tasks(DequeueEntity(s, e)) == Tasks(s) - if e.myQ == null then {e} else {}
  {
    RejoinIsEnqueue(DequeueStack(s, e), e);
    if e.myQ != null {
      Rebuild(s, e, false, transit);
    } else {
      DequeueTaskInv(s, e, transit);
    }
    TasksKept(s, DequeueEntity(s, e), e);
  }

  lemma DequeueTaskInv(s: State, e: SchedRtEntity, transit: set<SchedRtEntity>)
    requires Inv(s, transit) && e in s.se && transit <= Chain(s, e) && e.myQ == null
    ensures Inv(DequeueEntity(s, e), {})
    ensures Kept(s, DequeueEntity(s, e), Chain(s, e))
    ensures !DequeueEntity(s, e).se[e].on
  {
    var c, s1, t := Chain(s, e), DequeueStack(s, e), DequeueEntity(s, e);
    DequeueStackInv(s, e, transit, c);
    assert transit + c == c;
    RejoinIsEnqueue(s1, e);
    if e.parent == null {
      TaskTransit(s1, c, e);
      assert c - {e} == {};
    } else {
      ChainSame(s, s1, e.parent);
      EnqueueChainInv(s1, e.parent, false, c, c);
      EnqueueChainBelow(s1, e.parent, false);
      KeptTrans(s, s1, t, c);
      TaskTransit(t, c - Chain(s, e.parent), e);
      assert c - Chain(s, e.parent) - {e} == {};
    }
  }

  /** A task is never wrongly linked. */
  lemma TaskTransit(s: State, transit: set<SchedRtEntity>, e: SchedRtEntity)
    requires Inv(s, transit) && e in s.se && e.myQ == null
    ensures Inv(s, transit - {e})
  {
    forall f | f in s.se && f !in transit - {e} ensures LinkOk(s, f) {
    }
  }
}
