/** The invariant of the hierarchical run queue and the effect of the single
    linking steps on it. */
module RtInvariant {
  import opened PrioArrays
  import opened RtHierarchy

  /** The linked entities of rt_rq `r` with the priority each has now. */
  ghost function Key(s: State, r: RtRq): map<SchedRtEntity, int>
    requires Closed(s)
  {
    map e | e in s.se && e.rtRq == r && s.se[e].on :: Prio(s, e)
  }

  ghost function BoostedOn(s: State, r: RtRq): set<SchedRtEntity>
    requires Closed(s)
  {
    set e | e in s.se && e.rtRq == r && s.se[e].on && Boosted(s, e)
  }

  /** What the fields of an rt_rq must say about what is linked on it. */
  ghost predicate Counts(v: RqVal, key: map<SchedRtEntity, int>, boosters: set<SchedRtEntity>) {
    && Represents(v.active, key) && v.nr == |key|
    && v.highest == First(v.active)
    && boosters <= key.Keys && v.boosted == |boosters|
  }

  ghost predicate RqOk(s: State, r: RtRq)
    requires Closed(s) && r in s.rq
  {
    Counts(s.rq[r], Key(s, r), BoostedOn(s, r))
  }

  /** A group is linked exactly when it is neither empty nor throttled. */
  ghost predicate LinkOk(s: State, e: SchedRtEntity)
    requires Closed(s) && e in s.se
  {
    e.myQ != null ==> (s.se[e].on <==> !Blocked(s, e))
  }

  ghost predicate RqsOk(s: State) {
    Closed(s) && forall r {:trigger RqOk(s, r)} :: r in s.rq ==> RqOk(s, r)
  }

  ghost predicate LinksOk(s: State, transit: set<SchedRtEntity>) {
    Closed(s) && forall e {:trigger LinkOk(s, e)} :: e in s.se && e !in transit ==> LinkOk(s, e)
  }

  /** The invariant, with the entities of `transit` free to be linked or not. */
  ghost predicate Inv(s: State, transit: set<SchedRtEntity>) {
    RqsOk(s) && LinksOk(s, transit)
  }

  ghost predicate UpperOff(s: State, e: SchedRtEntity)
    requires Closed(s) && e in s.se
  {
    e.parent == null || !s.se[e.parent].on
  }

  // ----- one rt_rq -----

  /** Leaving keeps the counts, and none of the warnings of dec_rt_tasks,
      dec_rt_prio and dec_rt_group fires. */
  lemma LeaveCounts(v: RqVal, key: map<SchedRtEntity, int>, boosters: set<SchedRtEntity>, e: SchedRtEntity)
    requires Counts(v, key, boosters) && e in key
    ensures var w := Leave(v, e, key[e], e in boosters);
            && Counts(w, key - {e}, boosters - {e})
            && 0 <= key[e] < MAX_PRIO && v.nr > 0 && key[e] >= v.highest
            && (w.nr == 0 ==> w.boosted == 0)
  {
    var w := Leave(v, e, key[e], e in boosters);
    UnlinkRepresents(v.active, key, e);
    FirstIsLeast(v.active, key);
    FirstIsLeast(w.active, key - {e});
    if key - {e} == map[] {
      assert key.Keys == {e};
    } else if v.highest < key[e] {
      StaysFirst(v.active, key, e);
    }
    if w.nr == 0 {
      assert boosters - {e} == {};
    }
  }

  lemma StaysFirst(a: PrioArray<SchedRtEntity>, key: map<SchedRtEntity, int>, e: SchedRtEntity)
    requires Represents(a, key) && e in key && First(a) < key[e]
    ensures First(Unlink(a, key[e], e)) == First(a)
  {
    ListAt(a, key, key[e]);
    FirstStays(a.bitmap, key[e], 0);
  }

  lemma {:induction false} FirstStays(bitmap: seq<bool>, i: int, from: nat)
    requires 0 <= i < |bitmap| - 1 && bitmap[|bitmap| - 1] && from < |bitmap| && FirstBit(bitmap, from) < i
    ensures FirstBit(bitmap[i := false], from) == FirstBit(bitmap, from)
    decreases |bitmap| - from
  {
    if !bitmap[from] {
      FirstStays(bitmap, i, from + 1);
    }
  }

  lemma JoinCounts(v: RqVal, key: map<SchedRtEntity, int>, boosters: set<SchedRtEntity>,
                   e: SchedRtEntity, prio: int, boosted: bool, head: bool)
    requires Counts(v, key, boosters) && e !in key && 0 <= prio < MAX_PRIO
    ensures Counts(Join(v, e, prio, boosted, head), key[e := prio], boosters + if boosted then {e} else {})
  {
    var w := Join(v, e, prio, boosted, head);
    LinkRepresents(v.active, key, prio, e, head);
    FirstIsLeast(v.active, key);
    FirstIsLeast(w.active, key[e := prio]);
    FirstSet(v.active.bitmap, prio, 0);
  }

  lemma {:induction false} FirstSet(bitmap: seq<bool>, i: int, from: nat)
    requires 0 <= from <= i < |bitmap| - 1 && bitmap[|bitmap| - 1]
    ensures FirstBit(bitmap[i := true], from) == if i < FirstBit(bitmap, from) then i else FirstBit(bitmap, from)
    decreases |bitmap| - from
  {
    if from < i && !bitmap[from] {
      FirstSet(bitmap, i, from + 1);
    }
  }

  lemma MoveCounts(v: RqVal, key: map<SchedRtEntity, int>, boosters: set<SchedRtEntity>, e: SchedRtEntity, head: bool)
    requires Counts(v, key, boosters) && e in key
    ensures Counts(v.(active := RtHierarchy.Linked(v.active, key[e], e, head)), key, boosters)
    ensures v.active.bitmap[key[e]]
  {
    LinkRepresents(v.active, key, key[e], e, head);
    PrioArrays.Linked(v.active, key, e);
    assert key[e := key[e]] == key;
    assert v.active.bitmap[key[e] := true] == v.active.bitmap;
  }

  // ----- one step and everything it leaves alone -----

  /** `t` differs from `s` only in the rt_rq that `e` is queued on and in
      whether `e` is linked. */
  ghost predicate Local(s: State, t: State, e: SchedRtEntity) {
    && Closed(s) && e in s.se && SameTree(s, t)
    && t.rq == s.rq[e.rtRq := t.rq[e.rtRq]]
    && t.se == s.se[e := s.se[e].(on := t.se[e].on)]
    && t.rq[e.rtRq].throttled == s.rq[e.rtRq].throttled
  }

  /** The same, while the entity above is not linked. */
  ghost predicate OnlyAt(s: State, t: State, e: SchedRtEntity) {
    Local(s, t, e) && UpperOff(s, e)
  }

  lemma PrioSame(s: State, t: State, e: SchedRtEntity, f: SchedRtEntity)
    requires OnlyAt(s, t, e) && f in s.se && f != e.parent
    ensures Closed(t) && Prio(t, f) == Prio(s, f) && Boosted(t, f) == Boosted(s, f) && Blocked(t, f) == Blocked(s, f)
  {
    if f.myQ == e.rtRq {
      assert false;
    }
  }

  lemma OtherRqs(s: State, t: State, e: SchedRtEntity, r: RtRq)
    requires OnlyAt(s, t, e) && r in s.rq && r != e.rtRq
    ensures Closed(t) && Key(t, r) == Key(s, r) && BoostedOn(t, r) == BoostedOn(s, r)
  {
    forall f | f in s.se && f.rtRq == r && s.se[f].on
      ensures Prio(t, f) == Prio(s, f) && Boosted(t, f) == Boosted(s, f)
    {
      PrioSame(s, t, e, f);
    }
  }

  lemma OwnPrios(s: State, t: State, e: SchedRtEntity)
    requires OnlyAt(s, t, e)
    ensures Closed(t)
    ensures forall f :: f in s.se && f.rtRq == e.rtRq ==> Prio(t, f) == Prio(s, f) && Boosted(t, f) == Boosted(s, f)
  {
    forall f | f in s.se && f.rtRq == e.rtRq
      ensures Prio(t, f) == Prio(s, f) && Boosted(t, f) == Boosted(s, f)
    {
      ParentAbove(s, e, f);
      PrioSame(s, t, e, f);
    }
  }

  lemma OwnKey(s: State, t: State, e: SchedRtEntity)
    requires OnlyAt(s, t, e)
    ensures Closed(t)
    ensures Key(t, e.rtRq) == if t.se[e].on then Key(s, e.rtRq)[e := Prio(s, e)] else Key(s, e.rtRq) - {e}
  {
    OwnPrios(s, t, e);
  }

  lemma OwnBoosted(s: State, t: State, e: SchedRtEntity)
    requires OnlyAt(s, t, e)
    ensures Closed(t)
    ensures BoostedOn(t, e.rtRq) == BoostedOn(s, e.rtRq) - {e} + if t.se[e].on && Boosted(s, e) then {e} else {}
  {
    OwnPrios(s, t, e);
  }

  lemma OwnRq(s: State, t: State, e: SchedRtEntity)
    requires OnlyAt(s, t, e)
    ensures Closed(t)
    ensures Key(t, e.rtRq) == if t.se[e].on then Key(s, e.rtRq)[e := Prio(s, e)] else Key(s, e.rtRq) - {e}
    ensures BoostedOn(t, e.rtRq) == BoostedOn(s, e.rtRq) - {e} + if t.se[e].on && Boosted(s, e) then {e} else {}
  {
    OwnKey(s, t, e);
    OwnBoosted(s, t, e);
  }

  lemma ParentAbove(s: State, e: SchedRtEntity, f: SchedRtEntity)
    requires Closed(s) && e in s.se && f in s.se && f.rtRq == e.rtRq
    ensures f != e.parent
  {
    if f == e.parent {
      assert false;
    }
  }

  /** If the touched rt_rq is right again, all are. */
  lemma StepRqs(s: State, t: State, e: SchedRtEntity)
    requires RqsOk(s) && OnlyAt(s, t, e) && Closed(t) && RqOk(t, e.rtRq)
    ensures RqsOk(t)
  {
    forall r | r in t.rq ensures RqOk(t, r) {
      if r != e.rtRq {
        OtherRqs(s, t, e, r);
        assert RqOk(s, r);
      }
    }
  }

  /** Only `e` and the entity above it can become wrongly linked. */
  lemma StepLinks(s: State, t: State, e: SchedRtEntity, transit: set<SchedRtEntity>, after: set<SchedRtEntity>)
    requires LinksOk(s, transit) && OnlyAt(s, t, e) && Closed(t)
    requires e.parent != null ==> e.parent in after
    requires transit <= after + {e} && (e in after || LinkOk(t, e))
    ensures LinksOk(t, after)
  {
    forall f | f in t.se && f !in after ensures LinkOk(t, f) {
      if f != e {
        PrioSame(s, t, e, f);
        assert LinkOk(s, f);
      }
    }
  }

  lemma DequeueOneInv(s: State, e: SchedRtEntity, transit: set<SchedRtEntity>)
    requires Inv(s, transit) && e in s.se && s.se[e].on && UpperOff(s, e)
    requires e.parent != null ==> e.parent in transit
    ensures Inv(DequeueOne(s, e), transit + {e})
    ensures OnlyAt(s, DequeueOne(s, e), e)
  {
    var t := DequeueOne(s, e);
    assert RqOk(s, e.rtRq);
    assert e in Key(s, e.rtRq);
    LeaveCounts(s.rq[e.rtRq], Key(s, e.rtRq), BoostedOn(s, e.rtRq), e);
    OwnRq(s, t, e);
    assert RqOk(t, e.rtRq);
    StepRqs(s, t, e);
    StepLinks(s, t, e, transit, transit + {e});
  }

  /** A task may be linked at any real-time priority; a group that is not blocked
      always has one. */
  lemma EnqueueOneInv(s: State, e: SchedRtEntity, head: bool, transit: set<SchedRtEntity>)
    requires Inv(s, transit) && e in s.se && !s.se[e].on && UpperOff(s, e)
    requires e in transit && (e.parent != null ==> e.parent in transit)
    requires e.myQ == null ==> 0 <= s.se[e].prio < MAX_PRIO
    ensures Inv(EnqueueOne(s, e, head), transit - {e})
    ensures OnlyAt(s, EnqueueOne(s, e, head), e)
    ensures !Blocked(s, e) ==> 0 <= Prio(s, e) < MAX_PRIO
  {
    ParentSelf(s, e);
    if Blocked(s, e) {
      assert s.rq[e.rtRq := s.rq[e.rtRq]] == s.rq && s.se[e := s.se[e].(on := false)] == s.se;
      StepLinks(s, s, e, transit, transit - {e});
    } else {
      LinkablePrio(s, e);
      JoinRq(s, e, head);
      var t := EnqueueOne(s, e, head);
      PrioSame(s, t, e, e);
      StepRqs(s, t, e);
      StepLinks(s, t, e, transit, transit - {e});
    }
  }

  lemma JoinLocal(s: State, e: SchedRtEntity, head: bool)
    requires Closed(s) && e in s.se && !s.se[e].on && UpperOff(s, e)
    requires !Blocked(s, e) && 0 <= Prio(s, e) < MAX_PRIO
    ensures var t := EnqueueOne(s, e, head);
            && OnlyAt(s, t, e) && t.se[e].on
            && t.rq[e.rtRq] == Join(s.rq[e.rtRq], e, Prio(s, e), Boosted(s, e), head)
  {
  }

  lemma JoinRq(s: State, e: SchedRtEntity, head: bool)
    requires RqsOk(s) && e in s.se && !s.se[e].on && UpperOff(s, e)
    requires !Blocked(s, e) && 0 <= Prio(s, e) < MAX_PRIO
    ensures OnlyAt(s, EnqueueOne(s, e, head), e) && RqOk(EnqueueOne(s, e, head), e.rtRq)
  {
    JoinLocal(s, e, head);
    OwnRq(s, EnqueueOne(s, e, head), e);
    assert RqOk(s, e.rtRq);
    assert e !in Key(s, e.rtRq) && e !in BoostedOn(s, e.rtRq);
    assert BoostedOn(s, e.rtRq) - {e} == BoostedOn(s, e.rtRq);
    JoinCounts(s.rq[e.rtRq], Key(s, e.rtRq), BoostedOn(s, e.rtRq), e, Prio(s, e), Boosted(s, e), head);
  }

  lemma LinkablePrio(s: State, e: SchedRtEntity)
    requires RqsOk(s) && e in s.se && !Blocked(s, e)
    requires e.myQ == null ==> 0 <= s.se[e].prio < MAX_PRIO
    ensures 0 <= Prio(s, e) < MAX_PRIO
  {
    if e.myQ != null {
      assert RqOk(s, e.myQ);
      FirstIsLeast(s.rq[e.myQ].active, Key(s, e.myQ));
    }
  }

  lemma ParentSelf(s: State, e: SchedRtEntity)
    requires Closed(s) && e in s.se
    ensures e.parent != e
  {
    ParentAbove(s, e, e);
  }
}
