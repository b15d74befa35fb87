/** Whole runs of the hierarchical run queue, and picking. */
module RtRuns {
  import opened PrioArrays
  import opened RtHierarchy
  import opened RtInvariant
  import opened RtChains

  // ----- where the chain ends up -----

  /** After the chain is off, the lists are the old lists without it. */
  lemma StackLists(s: State, e: SchedRtEntity, transit: set<SchedRtEntity>, r: RtRq, i: int)
    requires Inv(s, transit) && e in s.se && r in s.rq && 0 <= i < MAX_PRIO
    ensures List(DequeueStack(s, e), r, i) == Without(List(s, r, i), Chain(s, e))
  {
    var c, t := Chain(s, e), DequeueStack(s, e);
    DequeueStackInv(s, e, transit, c);
    assert RqOk(t, r);
    ListAt(t.rq[r].active, Key(t, r), i);
    WithoutAbsent(List(t, r, i), c);
  }

  /** `f` stands at the head or the tail of its list, before or behind what was
      there, less the entities of `c`. */
  ghost predicate PlacedAt(before: seq<SchedRtEntity>, after: seq<SchedRtEntity>, f: SchedRtEntity, head: bool, c: set<SchedRtEntity>) {
    after == if head then [f] + Without(before, c) else Without(before, c) + [f]
  }

  lemma {:induction false} ChainPlaced(s: State, e: SchedRtEntity, head: bool, transit: set<SchedRtEntity>, f: SchedRtEntity)
    requires Inv(s, transit) && e in s.se && Chain(s, e) <= transit && AllOff(s, Chain(s, e))
    requires e.myQ == null ==> 0 <= s.se[e].prio < MAX_PRIO
    requires f in Chain(s, e) && f in s.se && EnqueueChain(s, e, head).se[f].on
    ensures var t := EnqueueChain(s, e, head);
            && 0 <= Prio(t, f) < MAX_PRIO
            && List(t, f.rtRq, Prio(t, f)) == Put(List(s, f.rtRq, Prio(t, f)), f, head)
    decreases e.rtRq.depth
  {
    if f == e {
      BottomPlaced(s, e, head);
    } else {
      ChainRest(s, e, head, transit, f);
      ChainPlaced(EnqueueOne(s, e, head), e.parent, head, transit - {e}, f);
    }
  }

  /** After the first step the rest of the chain is a chain of the same kind. */
  lemma ChainRest(s: State, e: SchedRtEntity, head: bool, transit: set<SchedRtEntity>, f: SchedRtEntity)
    requires Inv(s, transit) && e in s.se && Chain(s, e) <= transit && AllOff(s, Chain(s, e))
    requires (e.myQ == null ==> 0 <= s.se[e].prio < MAX_PRIO) && f in Chain(s, e) && f != e && f in s.se
    ensures e.parent != null && e.parent in s.se && e.parent.rtRq.depth < e.rtRq.depth
    ensures var s1 := EnqueueOne(s, e, head);
            && Inv(s1, transit - {e}) && e.parent in s1.se && f in s1.se && f in Chain(s1, e.parent)
            && Chain(s1, e.parent) <= transit - {e} && AllOff(s1, Chain(s1, e.parent)) && e.parent.myQ != null
            && s1.rq[f.rtRq] == s.rq[f.rtRq]
  {
    EnqueueOneInv(s, e, head, transit);
    ChainSame(s, EnqueueOne(s, e, head), e.parent);
    ChainAbove(s, e.parent);
  }

  lemma BottomPlaced(s: State, e: SchedRtEntity, head: bool)
    requires RqsOk(s) && e in s.se && !s.se[e].on && EnqueueChain(s, e, head).se[e].on
    requires e.myQ == null ==> 0 <= s.se[e].prio < MAX_PRIO
    ensures var t := EnqueueChain(s, e, head);
            && 0 <= Prio(t, e) < MAX_PRIO
            && List(t, e.rtRq, Prio(t, e)) == Put(List(s, e.rtRq, Prio(t, e)), e, head)
  {
    BottomStays(s, e, head);
    LinkablePrio(s, e);
    LinkedAt(s, e, head);
  }

  lemma BottomSame(s: State, e: SchedRtEntity, head: bool)
    requires Closed(s) && e in s.se
    ensures var s1, t := EnqueueOne(s, e, head), EnqueueChain(s, e, head);
            t.rq[e.rtRq] == s1.rq[e.rtRq] && t.se[e] == s1.se[e]
  {
    if e.parent != null {
      var s1 := EnqueueOne(s, e, head);
      EnqueueChainRq(s1, e.parent, head, e.rtRq);
      EnqueueChainSe(s1, e.parent, head, e);
    }
  }

  lemma BottomStays(s: State, e: SchedRtEntity, head: bool)
    requires Closed(s) && e in s.se
    ensures var s1, t := EnqueueOne(s, e, head), EnqueueChain(s, e, head);
            && t.rq[e.rtRq] == s1.rq[e.rtRq] && t.se[e] == s1.se[e]
            && Closed(t) && Prio(t, e) == Prio(s, e) && Blocked(t, e) == Blocked(s, e)
  {
    BottomSame(s, e, head);
    if e.myQ != null {
      InsideSame(s, e, head);
    }
  }

  /** What is inside a group does not change when the group is enqueued. */
  lemma InsideSame(s: State, e: SchedRtEntity, head: bool)
    requires Closed(s) && e in s.se && e.myQ != null
    ensures e.myQ in s.rq && EnqueueChain(s, e, head).rq[e.myQ] == s.rq[e.myQ]
  {
    if e.parent != null {
      EnqueueChainRq(EnqueueOne(s, e, head), e.parent, head, e.myQ);
    }
  }

  lemma LinkedAt(s: State, e: SchedRtEntity, head: bool)
    requires RqsOk(s) && e in s.se && !Blocked(s, e) && 0 <= Prio(s, e) < MAX_PRIO
    ensures List(EnqueueOne(s, e, head), e.rtRq, Prio(s, e)) == Put(List(s, e.rtRq, Prio(s, e)), e, head)
  {
    assert RqOk(s, e.rtRq);
  }

  /** Every entity of the chain of `e` that is linked in `t` stands at the given
      end of the list of its present priority, before or behind what is there
      in `s`, less the chain. */
  ghost predicate ChainAt(s: State, t: State, e: SchedRtEntity, head: bool)
    requires Closed(s) && SameTree(s, t) && Closed(t) && e in s.se
  {
    forall f :: f in Chain(s, e) && f in s.se && t.se[f].on ==>
      && 0 <= Prio(t, f) < MAX_PRIO
      && PlacedAt(List(s, f.rtRq, Prio(t, f)), List(t, f.rtRq, Prio(t, f)), f, head, Chain(s, e))
  }

  /** After an enqueue every linked entity of the chain stands at the requested
      end of the list of its present priority; `transit` may still be wrongly
      linked before it. */
  lemma EnqueuePlaces(s: State, e: SchedRtEntity, head: bool, transit: set<SchedRtEntity>, f: SchedRtEntity)
    requires Inv(s, transit) && e in s.se && transit <= Chain(s, e) && (e.myQ == null ==> 0 <= s.se[e].prio < MAX_PRIO)
    requires f in Chain(s, e) && f in s.se && EnqueueEntity(s, e, head).se[f].on
    ensures var t := EnqueueEntity(s, e, head);
            && 0 <= Prio(t, f) < MAX_PRIO
            && PlacedAt(List(s, f.rtRq, Prio(t, f)), List(t, f.rtRq, Prio(t, f)), f, head, Chain(s, e))
  {
    var c, s1, t := Chain(s, e), DequeueStack(s, e), EnqueueEntity(s, e, head);
    DequeueStackInv(s, e, transit, c);
    ChainSame(s, s1, e);
    assert transit + c == c;
    ChainPlaced(s1, e, head, c, f);
    StackLists(s, e, transit, f.rtRq, Prio(t, f));
    PutPlaced(List(s, f.rtRq, Prio(t, f)), f, head, c);
  }

  lemma EnqueueChainAt(s: State, e: SchedRtEntity, head: bool, transit: set<SchedRtEntity>)
    requires Inv(s, transit) && e in s.se && transit <= Chain(s, e) && (e.myQ == null ==> 0 <= s.se[e].prio < MAX_PRIO)
    ensures ChainAt(s, EnqueueEntity(s, e, head), e, head)
  {
    var t := EnqueueEntity(s, e, head);
    forall f | f in Chain(s, e) && f in s.se && t.se[f].on
      ensures 0 <= Prio(t, f) < MAX_PRIO
              && PlacedAt(List(s, f.rtRq, Prio(t, f)), List(t, f.rtRq, Prio(t, f)), f, head, Chain(s, e))
    {
      EnqueuePlaces(s, e, head, transit, f);
    }
  }

  /** The rebuilding loop of a dequeue puts what it links at the tail. */
  lemma RejoinPlaced(s: State, e: SchedRtEntity, c: set<SchedRtEntity>, f: SchedRtEntity)
    requires Inv(s, c) && e in s.se && c == Chain(s, e) && AllOff(s, c)
    requires f in c && f in s.se && RejoinChain(s, e).se[f].on
    ensures var t := RejoinChain(s, e);
            && 0 <= Prio(t, f) < MAX_PRIO
            && List(t, f.rtRq, Prio(t, f)) == Put(List(s, f.rtRq, Prio(t, f)), f, false)
  {
    RejoinIsEnqueue(s, e);
    if e.myQ != null {
      ChainPlaced(s, e, false, c, f);
    } else if e.parent != null {
      EnqueueChainSe(s, e.parent, false, e);
      ChainPlaced(s, e.parent, false, c, f);
    }
  }

  /** After a dequeue every linked entity of the chain stands at the tail of the
      list of its present priority. */
  lemma DequeuePlaces(s: State, e: SchedRtEntity, transit: set<SchedRtEntity>, f: SchedRtEntity)
    requires Inv(s, transit) && e in s.se && transit <= Chain(s, e)
    requires f in Chain(s, e) && f in s.se && DequeueEntity(s, e).se[f].on
    ensures var t := DequeueEntity(s, e);
            && 0 <= Prio(t, f) < MAX_PRIO
            && PlacedAt(List(s, f.rtRq, Prio(t, f)), List(t, f.rtRq, Prio(t, f)), f, false, Chain(s, e))
  {
    var c, s1, t := Chain(s, e), DequeueStack(s, e), DequeueEntity(s, e);
    DequeueStackInv(s, e, transit, c);
    ChainSame(s, s1, e);
    assert transit + c == c;
    RejoinPlaced(s1, e, c, f);
    StackLists(s, e, transit, f.rtRq, Prio(t, f));
    PutPlaced(List(s, f.rtRq, Prio(t, f)), f, false, c);
  }

  lemma DequeueChainAt(s: State, e: SchedRtEntity, transit: set<SchedRtEntity>)
    requires Inv(s, transit) && e in s.se && transit <= Chain(s, e)
    ensures ChainAt(s, DequeueEntity(s, e), e, false)
  {
    var t := DequeueEntity(s, e);
    forall f | f in Chain(s, e) && f in s.se && t.se[f].on
      ensures 0 <= Prio(t, f) < MAX_PRIO
              && PlacedAt(List(s, f.rtRq, Prio(t, f)), List(t, f.rtRq, Prio(t, f)), f, false, Chain(s, e))
    {
      DequeuePlaces(s, e, transit, f);
    }
  }

  lemma PutPlaced(list: seq<SchedRtEntity>, f: SchedRtEntity, head: bool, c: set<SchedRtEntity>)
    requires f in c
    ensures PlacedAt(list, Put(Without(list, c), f, head), f, head, c)
  {
    WithoutTwice(list, c, {f});
    assert c + {f} == c;
  }

  // ----- requeue -----

  lemma RequeueOneInv(s: State, e: SchedRtEntity, head: bool, c: set<SchedRtEntity>)
    requires Inv(s, {}) && e in s.se && e in c
    ensures Inv(RequeueOne(s, e, head), {}) && Kept(s, RequeueOne(s, e, head), c)
    ensures RequeueOne(s, e, head).se == s.se
    ensures s.se[e].on ==> 0 <= Prio(s, e) < MAX_PRIO
                           && List(RequeueOne(s, e, head), e.rtRq, Prio(s, e)) == Put(List(s, e.rtRq, Prio(s, e)), e, head)
  {
    if s.se[e].on {
      assert RqOk(s, e.rtRq);
      assert e in Key(s, e.rtRq);
      MoveCounts(s.rq[e.rtRq], Key(s, e.rtRq), BoostedOn(s, e.rtRq), e, head);
      RequeueKeeps(s, RequeueOne(s, e, head), e.rtRq);
      RequeueLists(s, e, head, c);
    }
  }

  lemma RequeueKeepsRqs(s: State, t: State, r0: RtRq)
    requires RqsOk(s) && SameTree(s, t) && t.se == s.se && r0 in s.rq
    requires exists a :: t.rq == s.rq[r0 := s.rq[r0].(active := a)]
    requires Counts(t.rq[r0], Key(s, r0), BoostedOn(s, r0))
    ensures RqsOk(t)
  {
    SameCounters(s, t);
    forall r | r in t.rq ensures RqOk(t, r) {
      assert RqOk(s, r);
    }
  }

  lemma RequeueKeepsLinks(s: State, t: State, r0: RtRq)
    requires LinksOk(s, {}) && SameTree(s, t) && t.se == s.se && r0 in s.rq
    requires exists a :: t.rq == s.rq[r0 := s.rq[r0].(active := a)]
    ensures LinksOk(t, {})
  {
    SameCounters(s, t);
    forall f | f in t.se ensures LinkOk(t, f) {
      assert LinkOk(s, f);
    }
  }

  lemma RequeueKeeps(s: State, t: State, r0: RtRq)
    requires Inv(s, {}) && SameTree(s, t) && t.se == s.se && r0 in s.rq
    requires exists a :: t.rq == s.rq[r0 := s.rq[r0].(active := a)]
    requires Counts(t.rq[r0], Key(s, r0), BoostedOn(s, r0))
    ensures Inv(t, {})
  {
    RequeueKeepsRqs(s, t, r0);
    RequeueKeepsLinks(s, t, r0);
  }

  lemma RequeueLists(s: State, e: SchedRtEntity, head: bool, c: set<SchedRtEntity>)
    requires Inv(s, {}) && e in s.se && e in c && s.se[e].on && 0 <= Prio(s, e) < MAX_PRIO
    ensures Kept(s, RequeueOne(s, e, head), c)
    ensures List(RequeueOne(s, e, head), e.rtRq, Prio(s, e)) == Put(List(s, e.rtRq, Prio(s, e)), e, head)
  {
    assert RqOk(s, e.rtRq);
    assert s.se[e := s.se[e].(on := true)] == s.se;
    KeptStep(s, RequeueOne(s, e, head), e, Prio(s, e), head, c);
  }

  lemma SameCounters(s: State, t: State)
    requires Closed(s) && SameTree(s, t) && t.se == s.se
    requires forall r :: r in s.rq ==> t.rq[r].highest == s.rq[r].highest && t.rq[r].boosted == s.rq[r].boosted
    ensures Closed(t) && forall r :: r in s.rq ==> Key(t, r) == Key(s, r) && BoostedOn(t, r) == BoostedOn(s, r)
  {
  }

  lemma {:induction false} RequeueTaskInv(s: State, e: SchedRtEntity, head: bool, c: set<SchedRtEntity>)
    requires Inv(s, {}) && e in s.se && Chain(s, e) <= c
    ensures Inv(RequeueTask(s, e, head), {}) && Kept(s, RequeueTask(s, e, head), c)
    ensures RequeueTask(s, e, head).se == s.se
    decreases e.rtRq.depth
  {
    RequeueOneInv(s, e, head, c);
    var s1 := RequeueOne(s, e, head);
    if e.parent != null {
      ChainSame(s, s1, e.parent);
      RequeueTaskInv(s1, e.parent, head, c);
      KeptTrans(s, s1, RequeueTask(s1, e.parent, head), c);
    }
  }

  lemma {:induction false} RequeueBelow(s: State, e: SchedRtEntity, head: bool)
    requires Closed(s) && e in s.se
    ensures forall r :: r in s.rq && r.depth > e.rtRq.depth ==> RequeueTask(s, e, head).rq[r] == s.rq[r]
    decreases e.rtRq.depth
  {
    if e.parent != null {
      RequeueBelow(RequeueOne(s, e, head), e.parent, head);
    }
  }

  /** A requeue moves every linked entity of the chain to the requested end of
      its list. */
  lemma {:induction false} RequeuePlaces(s: State, e: SchedRtEntity, head: bool, f: SchedRtEntity)
    requires Inv(s, {}) && e in s.se && f in Chain(s, e) && f in s.se && s.se[f].on
    ensures 0 <= Prio(s, f) < MAX_PRIO
    ensures List(RequeueTask(s, e, head), f.rtRq, Prio(s, f)) == Put(List(s, f.rtRq, Prio(s, f)), f, head)
    decreases e.rtRq.depth
  {
    var s1 := RequeueOne(s, e, head);
    RequeueOneInv(s, e, head, Chain(s, e));
    if e.parent != null {
      RequeueBelow(s1, e.parent, head);
      ChainSame(s, s1, e.parent);
      if f != e {
        RequeueElsewhere(s, e, head, f);
        RequeuePlaces(s1, e.parent, head, f);
      }
    }
  }

  lemma RequeueElsewhere(s: State, e: SchedRtEntity, head: bool, f: SchedRtEntity)
    requires Closed(s) && e in s.se && e.parent != null && f in Chain(s, e.parent)
    ensures f in s.se
    ensures var s1 := RequeueOne(s, e, head);
            Closed(s1) && Prio(s1, f) == Prio(s, f) && s1.rq[f.rtRq] == s.rq[f.rtRq]
  {
    ChainAbove(s, e.parent);
  }

  // ----- throttling -----

  ghost function Owner(s: State, r: RtRq): set<SchedRtEntity> {
    if r in s.rtSe then {s.rtSe[r]} else {}
  }

  lemma SetThrottledRqs(s: State, r: RtRq, b: bool)
    requires RqsOk(s) && r in s.rq
    ensures RqsOk(SetThrottled(s, r, b))
  {
    var t := SetThrottled(s, r, b);
    SameCounters(s, t);
    forall q | q in t.rq ensures RqOk(t, q) {
      assert RqOk(s, q);
    }
  }

  lemma SetThrottledInv(s: State, r: RtRq, b: bool)
    requires Inv(s, {}) && r in s.rq
    ensures Inv(SetThrottled(s, r, b), Owner(s, r))
  {
    var t := SetThrottled(s, r, b);
    SetThrottledRqs(s, r, b);
    forall f | f in t.se && f !in Owner(s, r) ensures LinkOk(t, f) {
      assert LinkOk(s, f);
    }
  }

  lemma OwnerRight(s: State, r: RtRq)
    requires Inv(s, Owner(s, r)) && r in s.rq && (r in s.rtSe ==> LinkOk(s, s.rtSe[r]))
    ensures Inv(s, {})
  {
    forall f | f in s.se ensures LinkOk(s, f) {
      if f in Owner(s, r) {
        assert f == s.rtSe[r];
      }
    }
  }

  /** Nothing but a flag of `r` changed: a list off it, an entity or another
      rt_rq is as it was. */
  ghost predicate OnlyFlag(s: State, t: State, r: RtRq, b: bool)
    requires r in s.rq
  {
    t == s.(rq := s.rq[r := s.rq[r].(throttled := b)])
  }

  /** Apart from the flag of `r`, nothing but the linking of the chain of `e`
      changed, and what is linked of the chain stands at the tails. */
  ghost predicate Rechained(s: State, t: State, r: RtRq, b: bool, e: SchedRtEntity)
    requires Closed(s) && r in s.rq && e in s.se
  {
    && SameTree(s, t) && Closed(t)
    && (forall f :: f in s.se ==> t.se[f] == if f in Chain(s, e) then s.se[f].(on := t.se[f].on) else s.se[f])
    && (forall q :: q in s.rq ==> t.rq[q].throttled == if q == r then b else s.rq[q].throttled)
    && (forall q, i {:trigger List(t, q, i)} :: q in s.rq ==>
          Without(List(t, q, i), Chain(s, e)) == Without(List(s, q, i), Chain(s, e)))
    && AtTails(s, t, e)
  }

  /** Every linked entity of the chain of `e` stands behind everything that was
      in the list of its present priority and is not of the chain. */
  ghost predicate AtTails(s: State, t: State, e: SchedRtEntity)
    requires Closed(s) && SameTree(s, t) && Closed(t) && e in s.se
  {
    forall f :: f in Chain(s, e) && f in s.se && t.se[f].on ==>
      && 0 <= Prio(t, f) < MAX_PRIO
      && List(t, f.rtRq, Prio(t, f)) == Without(List(s, f.rtRq, Prio(t, f)), Chain(s, e)) + [f]
  }

  /** What holds of a chain operation after the flag was set holds of the whole. */
  lemma FlagFirst(s: State, r: RtRq, b: bool, t: State, e: SchedRtEntity)
    requires Closed(s) && r in s.rq && e in s.se && Closed(t) && Closed(SetThrottled(s, r, b))
    requires var s1 := SetThrottled(s, r, b); Kept(s1, t, Chain(s1, e)) && ChainAt(s1, t, e, false)
    ensures Rechained(s, t, r, b, e)
  {
    ChainSame(s, SetThrottled(s, r, b), e);
    FlagTails(s, r, b, t, e);
    FlagLists(s, r, b, t, Chain(s, e));
  }

  lemma FlagLists(s: State, r: RtRq, b: bool, t: State, c: set<SchedRtEntity>)
    requires Closed(s) && r in s.rq && Closed(SetThrottled(s, r, b)) && Kept(SetThrottled(s, r, b), t, c)
    ensures forall q, i {:trigger List(t, q, i)} :: q in s.rq ==> Without(List(t, q, i), c) == Without(List(s, q, i), c)
  {
    var s1 := SetThrottled(s, r, b);
    forall q, i {:trigger List(t, q, i)} | q in s.rq ensures Without(List(t, q, i), c) == Without(List(s, q, i), c) {
      assert List(s1, q, i) == List(s, q, i);
    }
  }

  lemma FlagTails(s: State, r: RtRq, b: bool, t: State, e: SchedRtEntity)
    requires Closed(s) && r in s.rq && e in s.se && Closed(t) && Closed(SetThrottled(s, r, b))
    requires SameTree(s, t) && ChainAt(SetThrottled(s, r, b), t, e, false)
    ensures AtTails(s, t, e)
  {
    var s1 := SetThrottled(s, r, b);
    ChainSame(s, s1, e);
    forall q, i | q in s.rq ensures List(s1, q, i) == List(s, q, i) {
    }
  }

  /** Throttling a group takes it off its parent's queue unless it is boosted,
      and changes the set of queued tasks not at all. */
  lemma ThrottleInv(s: State, r: RtRq)
    requires Inv(s, {}) && r in s.rq
    ensures Inv(Throttle(s, r), {}) && Tasks(Throttle(s, r)) == Tasks(s)
    ensures Throttle(s, r).rq[r].throttled
  {
    var s1 := SetThrottled(s, r, true);
    SetThrottledInv(s, r, true);
    if r in s.rtSe && Throttled(s1.rq[r]) && s1.se[s.rtSe[r]].on {
      DequeueEntityInv(s1, s.rtSe[r], Owner(s, r));
    } else {
      if r in s.rtSe {
        assert LinkOk(s, s.rtSe[r]);
      }
      OwnerRight(s1, r);
    }
  }

  /** Throttling an rt_rq that is boosted, is the root or is not linked sets the
      flag only.  Otherwise its group is off afterwards, and every ancestor that
      is still linked has gone to the tail of the list of its priority. */
  lemma ThrottlePlaces(s: State, r: RtRq)
    requires Inv(s, {}) && r in s.rq
    ensures r !in s.rtSe || !s.se[s.rtSe[r]].on || s.rq[r].boosted != 0 ==> OnlyFlag(s, Throttle(s, r), r, true)
    ensures r in s.rtSe && s.se[s.rtSe[r]].on && s.rq[r].boosted == 0 ==>
              Rechained(s, Throttle(s, r), r, true, s.rtSe[r]) && !Throttle(s, r).se[s.rtSe[r]].on
  {
    var s1 := SetThrottled(s, r, true);
    if r in s.rtSe && s.se[s.rtSe[r]].on && s.rq[r].boosted == 0 {
      var g := s.rtSe[r];
      SetThrottledInv(s, r, true);
      DequeueEntityInv(s1, g, Owner(s, r));
      DequeueChainAt(s1, g, Owner(s, r));
      FlagFirst(s, r, true, DequeueEntity(s1, g), g);
      ThrottledOff(s, r);
    }
  }

  lemma ThrottledOff(s: State, r: RtRq)
    requires Inv(s, {}) && r in s.rtSe && r in s.rq && s.rq[r].boosted == 0
    ensures !Throttle(s, r).se[s.rtSe[r]].on
  {
    var t := Throttle(s, r);
    ThrottleInv(s, r);
    BoostKept(s, r);
    GroupLinked(t, s.rtSe[r]);
  }

  /** Throttling a group does not change what is inside it. */
  lemma BoostKept(s: State, r: RtRq)
    requires Inv(s, {}) && r in s.rtSe && r in s.rq
    ensures Throttle(s, r).rq[r] == s.rq[r].(throttled := true)
  {
    var s1, g := SetThrottled(s, r, true), s.rtSe[r];
    if Throttled(s1.rq[r]) && s1.se[g].on {
      StackInside(s1, g, r);
      RejoinIsEnqueue(DequeueStack(s1, g), g);
      InsideSame(DequeueStack(s1, g), g, false);
    }
  }

  lemma {:induction false} StackInside(s: State, e: SchedRtEntity, r: RtRq)
    requires Closed(s) && e in s.se && r in s.rq && r.depth > e.rtRq.depth
    ensures DequeueStack(s, e).rq[r] == s.rq[r]
    decreases e.rtRq.depth
  {
    if e.parent != null {
      StackInside(s, e.parent, r);
    }
  }

  /** Unthrottling puts a non-empty group back. */
  lemma UnthrottleInv(s: State, r: RtRq)
    requires Inv(s, {}) && r in s.rq
    ensures Inv(Unthrottle(s, r), {}) && Tasks(Unthrottle(s, r)) == Tasks(s)
    ensures !Unthrottle(s, r).rq[r].throttled
  {
    var s1 := SetThrottled(s, r, false);
    SetThrottledInv(s, r, false);
    if s1.rq[r].nr != 0 && r in s.rtSe && !s1.se[s.rtSe[r]].on {
      EnqueueEntityInv(s1, s.rtSe[r], false, Owner(s, r));
    } else {
      if r in s.rtSe {
        assert LinkOk(s, s.rtSe[r]);
      }
      OwnerRight(s1, r);
    }
  }

  /** Unthrottling an rt_rq that is empty, is the root or is linked clears the
      flag only.  Otherwise its group is linked afterwards, and it and every
      linked ancestor stand at the tail of the list of their priority, behind
      everything that was there. */
  lemma UnthrottlePlaces(s: State, r: RtRq)
    requires Inv(s, {}) && r in s.rq
    ensures s.rq[r].nr == 0 || r !in s.rtSe || s.se[s.rtSe[r]].on ==> OnlyFlag(s, Unthrottle(s, r), r, false)
    ensures s.rq[r].nr != 0 && r in s.rtSe && !s.se[s.rtSe[r]].on ==>
              Rechained(s, Unthrottle(s, r), r, false, s.rtSe[r]) && Unthrottle(s, r).se[s.rtSe[r]].on
  {
    var s1 := SetThrottled(s, r, false);
    if s.rq[r].nr != 0 && r in s.rtSe && !s.se[s.rtSe[r]].on {
      var g := s.rtSe[r];
      SetThrottledInv(s, r, false);
      EnqueueEntityInv(s1, g, false, Owner(s, r));
      EnqueueChainAt(s1, g, false, Owner(s, r));
      FlagFirst(s, r, false, EnqueueEntity(s1, g, false), g);
      UnthrottledOn(s, r);
    }
  }

  lemma UnthrottledOn(s: State, r: RtRq)
    requires Inv(s, {}) && r in s.rtSe && r in s.rq && s.rq[r].nr != 0 && !s.se[s.rtSe[r]].on
    ensures Unthrottle(s, r).se[s.rtSe[r]].on
  {
    var s1, g := SetThrottled(s, r, false), s.rtSe[r];
    UnthrottleInv(s, r);
    StackInside(s1, g, r);
    InsideSame(DequeueStack(s1, g), g, false);
    GroupLinked(Unthrottle(s, r), g);
  }

  // ----- runs -----

  datatype Event =
    | Enqueue(e: SchedRtEntity, head: bool)
    | Dequeue(e: SchedRtEntity)
    | Requeue(e: SchedRtEntity, head: bool)
    | SetPrio(e: SchedRtEntity, prio: int, normalPrio: int)
    | Exceeded(r: RtRq)
    | Replenished(r: RtRq)
    | Kicked(r: RtRq)

  /** Tasks are queued at real-time priorities and change priority only while
      they are not queued. */
  ghost predicate Enabled(s: State, v: Event)
    requires Closed(s)
  {
    match v
    case Enqueue(e, _) => e in s.se && e.myQ == null && 0 <= s.se[e].prio < MAX_PRIO
    case Dequeue(e) => e in s.se && e.myQ == null
    case Requeue(e, _) => e in s.se && e.myQ == null
    case SetPrio(e, _, _) => e in s.se && e.myQ == null && !s.se[e].on
    case Exceeded(r) => r in s.rq
    case Replenished(r) => r in s.rq
    case Kicked(r) => r in s.rq && !Throttled(s.rq[r])
  }

  ghost function Step(s: State, v: Event): (t: State)
    requires Closed(s) && Enabled(s, v)
    ensures SameTree(s, t)
  {
    match v
    case Enqueue(e, head) => EnqueueEntity(s, e, head)
    case Dequeue(e) => DequeueEntity(s, e)
    case Requeue(e, head) => RequeueTask(s, e, head)
    case SetPrio(e, prio, normalPrio) => s.(se := s.se[e := SeVal(prio, normalPrio, s.se[e].on)])
    case Exceeded(r) => Throttle(s, r)
    case Replenished(r) => Unthrottle(s, r)
    case Kicked(r) => RqEnqueue(s, r)
  }

  /** The set of queued tasks after an event. */
  ghost function TasksAfter(tasks: set<SchedRtEntity>, v: Event): set<SchedRtEntity> {
    match v
    case Enqueue(e, _) => tasks + {e}
    case Dequeue(e) => tasks - {e}
    case _ => tasks
  }

  lemma SetPrioKeys(s: State, e: SchedRtEntity, prio: int, normalPrio: int, r: RtRq)
    requires Closed(s) && e in s.se && e.myQ == null && !s.se[e].on && r in s.rq
    ensures var t := Step(s, SetPrio(e, prio, normalPrio));
            Closed(t) && Key(t, r) == Key(s, r) && BoostedOn(t, r) == BoostedOn(s, r)
  {
  }

  lemma SetPrioInv(s: State, e: SchedRtEntity, prio: int, normalPrio: int)
    requires Inv(s, {}) && e in s.se && e.myQ == null && !s.se[e].on
    ensures Inv(Step(s, SetPrio(e, prio, normalPrio)), {})
    ensures Step(s, SetPrio(e, prio, normalPrio)) == s.(se := s.se[e := SeVal(prio, normalPrio, false)])
  {
    var t := Step(s, SetPrio(e, prio, normalPrio));
    forall r | r in s.rq ensures Closed(t) && Key(t, r) == Key(s, r) && BoostedOn(t, r) == BoostedOn(s, r) {
      SetPrioKeys(s, e, prio, normalPrio, r);
    }
    RqsSame(s, t);
    LinksSame(s, t, {});
  }

  lemma RqsSame(s: State, t: State)
    requires RqsOk(s) && Closed(t) && t.rq == s.rq
    requires forall r :: r in s.rq ==> Key(t, r) == Key(s, r) && BoostedOn(t, r) == BoostedOn(s, r)
    ensures RqsOk(t)
  {
    forall r | r in t.rq ensures RqOk(t, r) {
      assert RqOk(s, r);
    }
  }

  lemma LinksSame(s: State, t: State, transit: set<SchedRtEntity>)
    requires LinksOk(s, transit) && Closed(t) && SameTree(s, t) && t.rq == s.rq
    requires forall f :: f in s.se && f.myQ != null ==> t.se[f] == s.se[f]
    ensures LinksOk(t, transit)
  {
    forall f | f in t.se && f !in transit ensures LinkOk(t, f) {
      assert LinkOk(s, f);
    }
  }

  lemma StepInvariant(s: State, v: Event)
    requires Inv(s, {}) && Enabled(s, v)
    ensures Inv(Step(s, v), {}) && Tasks(Step(s, v)) == TasksAfter(Tasks(s), v)
  {
    match v
    case Enqueue(e, head) => EnqueueEntityInv(s, e, head, {});
    case Dequeue(e) => DequeueEntityInv(s, e, {});
    case Requeue(e, head) => RequeueTaskInv(s, e, head, Chain(s, e));
    case SetPrio(e, prio, normalPrio) => SetPrioInv(s, e, prio, normalPrio);
    case Exceeded(r) => ThrottleInv(s, r);
    case Replenished(r) => UnthrottleInv(s, r);
    case Kicked(r) => KickedInv(s, r);
  }

  /** Kicking a queue that is not throttled finds it linked already. */
  lemma KickedInv(s: State, r: RtRq)
    requires Inv(s, {}) && r in s.rq && !Throttled(s.rq[r])
    ensures RqEnqueue(s, r) == s
  {
    if r in s.rtSe {
      assert LinkOk(s, s.rtSe[r]);
    }
  }

  ghost predicate AllEnabled(s: State, run: seq<Event>)
    requires Closed(s)
    decreases |run|
  {
    run == [] || (Enabled(s, run[0]) && Closed(Step(s, run[0])) && AllEnabled(Step(s, run[0]), run[1..]))
  }

  ghost function Final(s: State, run: seq<Event>): State
    requires Closed(s) && AllEnabled(s, run)
    decreases |run|
  {
    if run == [] then s else Final(Step(s, run[0]), run[1..])
  }

  ghost function TasksFinal(tasks: set<SchedRtEntity>, run: seq<Event>): set<SchedRtEntity>
    decreases |run|
  {
    if run == [] then tasks else TasksFinal(TasksAfter(tasks, run[0]), run[1..])
  }

  /** Every run keeps the invariant, and the queued tasks are exactly those that
      the enqueues and dequeues of the run leave. */
  lemma {:induction false} RunInvariant(s: State, run: seq<Event>)
    requires Inv(s, {}) && AllEnabled(s, run)
    ensures Inv(Final(s, run), {}) && Tasks(Final(s, run)) == TasksFinal(Tasks(s), run)
    decreases |run|
  {
    if run != [] {
      StepInvariant(s, run[0]);
      RunInvariant(Step(s, run[0]), run[1..]);
    }
  }

  /** Freshly initialised rt_rqs and entities, in a tree of any shape. */
  ghost predicate Boot(s: State) {
    && Closed(s)
    && (forall r :: r in s.rq ==> s.rq[r] == RqVal(Empty(), 0, MAX_PRIO, 0, false))
    && (forall e :: e in s.se ==> !s.se[e].on)
  }

  lemma EmptyCounts()
    ensures Counts(RqVal(Empty(), 0, MAX_PRIO, 0, false), map[], {})
  {
    EmptyRepresents<SchedRtEntity>();
    FirstIsLeast<SchedRtEntity>(Empty(), map[]);
  }

  lemma BootRq(s: State, r: RtRq)
    requires Boot(s) && r in s.rq
    ensures RqOk(s, r)
  {
    EmptyCounts();
    assert Key(s, r) == map[];
    assert BoostedOn(s, r) == {};
  }

  lemma BootInvariant(s: State)
    requires Boot(s)
    ensures Inv(s, {}) && Tasks(s) == {}
  {
    forall r | r in s.rq ensures RqOk(s, r) {
      BootRq(s, r);
    }
    assert LinksOk(s, {});
  }

  /** In a state of any run, rt_nr_running is the total queue length and the
      cached priority is the least set bit. */
  lemma Counters(s: State, r: RtRq)
    requires Inv(s, {}) && r in s.rq
    ensures var v := s.rq[r];
            && Shape(v.active) && v.nr == Total(v.active.queue) && v.highest == FirstBit(v.active.bitmap)
            && (forall i :: 0 <= i < MAX_PRIO ==> (v.active.bitmap[i] <==> v.active.queue[i] != []))
            && (forall i, e :: 0 <= i < MAX_PRIO && e in v.active.queue[i] ==>
                  e in s.se && e.rtRq == r && s.se[e].on && Prio(s, e) == i)
            && (forall e :: e in s.se && e.rtRq == r && s.se[e].on ==>
                  0 <= Prio(s, e) < MAX_PRIO && e in v.active.queue[Prio(s, e)])
            && 0 <= v.boosted <= v.nr
  {
    var v, key := s.rq[r], Key(s, r);
    assert RqOk(s, r);
    TotalLength(v.active, key);
    forall i | 0 <= i < MAX_PRIO ensures ListExact(v.active.queue[i], v.active.bitmap[i], key, i) {
      ListAt(v.active, key, i);
    }
    forall e | e in s.se && e.rtRq == r && s.se[e].on
      ensures 0 <= Prio(s, e) < MAX_PRIO && e in v.active.queue[Prio(s, e)]
    {
      assert e in key;
    }
    Subset(BoostedOn(s, r), key.Keys);
  }

  /** The boost count is the number of linked tasks above their own priority and of
      linked groups that hold such a task. */
  lemma BoostCount(s: State, r: RtRq)
    requires Inv(s, {}) && r in s.rq
    ensures s.rq[r].boosted == |set e | e in s.se && e.rtRq == r && s.se[e].on
                                 && if e.myQ == null then s.se[e].prio != s.se[e].normalPrio else s.rq[e.myQ].boosted != 0|
  {
    assert RqOk(s, r);
    assert BoostedOn(s, r) == set e | e in s.se && e.rtRq == r && s.se[e].on
                                && if e.myQ == null then s.se[e].prio != s.se[e].normalPrio else s.rq[e.myQ].boosted != 0;
  }

  lemma {:induction false} Subset<T>(a: set<T>, b: set<T>)
    requires a <= b
    ensures |a| <= |b|
  {
    if a != {} {
      var x :| x in a;
      Subset(a - {x}, b - {x});
    }
  }

  /** A group is linked in its parent exactly when its own rt_rq is neither empty
      nor throttled, a boosted rt_rq counting as not throttled. */
  lemma GroupLinked(s: State, e: SchedRtEntity)
    requires Inv(s, {}) && e in s.se && e.myQ != null
    ensures e.myQ in s.rq
    ensures s.se[e].on <==> s.rq[e.myQ].nr != 0 && !(s.rq[e.myQ].throttled && s.rq[e.myQ].boosted == 0)
  {
    assert LinkOk(s, e);
  }

  // ----- picking -----

  /** `e` is linked and so is every group around it. */
  ghost predicate Reachable(s: State, e: SchedRtEntity)
    requires Closed(s) && e in s.se
    decreases e.rtRq.depth
  {
    s.se[e].on && (e.parent == null || Reachable(s, e.parent))
  }

  /** The root's cached priority is a lower bound for everything reachable. */
  lemma {:induction false} RootIsLeast(s: State, e: SchedRtEntity)
    requires Inv(s, {}) && e in s.se && Reachable(s, e)
    ensures s.rq[s.root].highest <= Prio(s, e)
    decreases e.rtRq.depth
  {
    assert RqOk(s, e.rtRq);
    assert e in Key(s, e.rtRq);
    FirstIsLeast(s.rq[e.rtRq].active, Key(s, e.rtRq));
    if e.parent != null {
      RootIsLeast(s, e.parent);
    }
  }

  ghost predicate DepthBound(s: State, bound: nat) {
    forall r :: r in s.rq ==> r.depth <= bound
  }

  /** A finite tree has a deepest rt_rq. */
  lemma {:induction false} DepthIsBounded(rqs: set<RtRq>) returns (bound: nat)
    ensures forall r :: r in rqs ==> r.depth <= bound
    decreases |rqs|
  {
    bound := 0;
    if rqs != {} {
      var r :| r in rqs;
      bound := DepthIsBounded(rqs - {r});
      if bound < r.depth {
        bound := r.depth;
      }
    }
  }

  /** From a non-empty rt_rq the descent meets only non-empty ones and ends in a
      task whose priority is the one cached where it started. */
  lemma {:induction false} Descent(s: State, r: RtRq, fuel: nat, bound: nat)
    requires Inv(s, {}) && r in s.rq && s.rq[r].nr != 0
    requires DepthBound(s, bound) && fuel >= bound - r.depth
    requires r in s.rtSe ==> Reachable(s, s.rtSe[r])
    ensures var p := PickFrom(s, r, fuel);
            p != null && p in s.se && p.myQ == null && Reachable(s, p) && Prio(s, p) == s.rq[r].highest
    decreases fuel
  {
    var e := FirstEntity(s, r);
    if e.myQ != null {
      assert LinkOk(s, e);
      Descent(s, e.myQ, fuel - 1, bound);
    }
  }

  /** `e` is the first entity of the first non-empty list of its rt_rq, and so
      is every group around it. */
  ghost predicate AtHeads(s: State, e: SchedRtEntity)
    requires Closed(s) && e in s.se
    decreases e.rtRq.depth
  {
    && 0 <= Prio(s, e) < MAX_PRIO
    && List(s, e.rtRq, Prio(s, e)) != [] && List(s, e.rtRq, Prio(s, e))[0] == e
    && (forall i :: 0 <= i < Prio(s, e) ==> List(s, e.rtRq, i) == [])
    && (e.parent == null || AtHeads(s, e.parent))
  }

  /** The descent takes the head of the first non-empty list at every level. */
  lemma {:induction false} DescentHeads(s: State, r: RtRq, fuel: nat, bound: nat)
    requires Inv(s, {}) && r in s.rq && s.rq[r].nr != 0
    requires DepthBound(s, bound) && fuel >= bound - r.depth
    requires r in s.rtSe ==> AtHeads(s, s.rtSe[r])
    ensures var p := PickFrom(s, r, fuel); p != null && p in s.se && AtHeads(s, p)
    decreases fuel
  {
    var e := FirstEntity(s, r);
    FirstList(s, r);
    assert AtHeads(s, e);
    if e.myQ != null {
      assert LinkOk(s, e);
      DescentHeads(s, e.myQ, fuel - 1, bound);
    }
  }

  /** The lists before the first set bit are empty. */
  lemma FirstList(s: State, r: RtRq)
    requires RqsOk(s) && r in s.rq && s.rq[r].nr != 0
    ensures Shape(s.rq[r].active) && forall i :: 0 <= i < First(s.rq[r].active) ==> List(s, r, i) == []
  {
    assert RqOk(s, r);
    FirstIsLeast(s.rq[r].active, Key(s, r));
    forall i | 0 <= i < First(s.rq[r].active) ensures List(s, r, i) == [] {
      ListAt(s.rq[r].active, Key(s, r), i);
    }
  }

  lemma FirstEntity(s: State, r: RtRq) returns (e: SchedRtEntity)
    requires RqsOk(s) && r in s.rq && s.rq[r].nr != 0
    ensures var a := s.rq[r].active;
            && Shape(a) && First(a) < MAX_PRIO && a.queue[First(a)] != [] && e == a.queue[First(a)][0]
            && e in s.se && e.rtRq == r && s.se[e].on && Prio(s, e) == First(a) == s.rq[r].highest
  {
    assert RqOk(s, r);
    FirstIsLeast(s.rq[r].active, Key(s, r));
    var list := s.rq[r].active.queue[First(s.rq[r].active)];
    assert list[0] in list;
    e := list[0];
    assert e in Key(s, r);
  }

  /** Picking returns a task of the least priority value among all the tasks
      whose enclosing groups are all linked. */
  lemma PickIsLeast(s: State, bound: nat)
    requires Inv(s, {}) && DepthBound(s, bound) && s.rq[s.root].nr != 0
    ensures var p := PickFrom(s, s.root, bound);
            && p != null && p in s.se && p.myQ == null && Reachable(s, p)
            && forall q :: q in s.se && q.myQ == null && Reachable(s, q) ==> s.se[p].prio <= s.se[q].prio
  {
    Descent(s, s.root, bound, bound);
    forall q | q in s.se && q.myQ == null && Reachable(s, q)
      ensures s.se[PickFrom(s, s.root, bound)].prio <= s.se[q].prio
    {
      RootIsLeast(s, q);
    }
  }
  /** An entity that stands first is the one the descent takes. */
  lemma HeadIsFirst(s: State, e: SchedRtEntity)
    requires RqsOk(s) && e in s.se && 0 <= Prio(s, e) < MAX_PRIO
    requires List(s, e.rtRq, Prio(s, e)) != [] && List(s, e.rtRq, Prio(s, e))[0] == e
    requires forall i :: 0 <= i < Prio(s, e) ==> List(s, e.rtRq, i) == []
    ensures var a := s.rq[e.rtRq].active; Shape(a) && First(a) == Prio(s, e) && a.queue[First(a)] != [] && a.queue[First(a)][0] == e
  {
    var r := e.rtRq;
    assert RqOk(s, r);
    ListAt(s.rq[r].active, Key(s, r), Prio(s, e));
    assert e in List(s, r, Prio(s, e));
    assert e in Key(s, r);
    assert s.rq[r].nr != 0;
    var f := FirstEntity(s, r);
    FirstList(s, r);
    assert List(s, r, First(s.rq[r].active)) != [];
  }

  /** So the descent from the root passes through it. */
  lemma {:induction false} PickVia(s: State, e: SchedRtEntity, bound: nat)
    requires Inv(s, {}) && DepthBound(s, bound) && e in s.se && AtHeads(s, e)
    ensures bound + s.root.depth - e.rtRq.depth >= 0
    ensures PickFrom(s, e.rtRq, bound + s.root.depth - e.rtRq.depth) == PickFrom(s, s.root, bound)
    decreases e.rtRq.depth
  {
    if e.parent != null {
      PickVia(s, e.parent, bound);
      HeadIsFirst(s, e.parent);
    }
  }

  lemma OneAtHeads(s: State, q: SchedRtEntity, bound: nat)
    requires Inv(s, {}) && DepthBound(s, bound) && q in s.se && q.myQ == null && AtHeads(s, q)
    ensures q == PickFrom(s, s.root, bound)
  {
    PickVia(s, q, bound);
    HeadIsFirst(s, q);
  }

  /** What is picked stands first at every level, so the pick is determined. */
  lemma PickHeads(s: State, bound: nat)
    requires Inv(s, {}) && DepthBound(s, bound) && s.rq[s.root].nr != 0
    ensures var p := PickFrom(s, s.root, bound); p != null && p in s.se && p.myQ == null && AtHeads(s, p)
    ensures forall q :: q in s.se && q.myQ == null && AtHeads(s, q) ==> q == PickFrom(s, s.root, bound)
  {
    Descent(s, s.root, bound, bound);
    DescentHeads(s, s.root, bound, bound);
    forall q | q in s.se && q.myQ == null && AtHeads(s, q) ensures q == PickFrom(s, s.root, bound) {
      OneAtHeads(s, q, bound);
    }
  }
}
