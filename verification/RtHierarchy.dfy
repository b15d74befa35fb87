/** The hierarchical real-time run queue of one processor (rt.c, the branch with
    CONFIG_RT_GROUP_SCHED): its entities, its tree of rt_rqs, and every operation
    as a function on a snapshot of their fields. */
module RtHierarchy {
  import opened PrioArrays

  datatype RqVal = RqVal(active: PrioArray<SchedRtEntity>, nr: int, highest: int, boosted: int, throttled: bool)

  ghost function Unlinked(a: PrioArray<SchedRtEntity>, i: int, e: SchedRtEntity): PrioArray<SchedRtEntity> {
    if Shape(a) && 0 <= i < MAX_PRIO then Unlink(a, i, e) else a
  }

  ghost function Linked(a: PrioArray<SchedRtEntity>, i: int, e: SchedRtEntity, head: bool): PrioArray<SchedRtEntity> {
    if Shape(a) && 0 <= i < MAX_PRIO then Link(a, i, e, head) else a
  }

  ghost function Highest(a: PrioArray<SchedRtEntity>): int {
    if Shape(a) then First(a) else MAX_PRIO
  }

  /** __dequeue_rt_entity: the new value of the rt_rq that `e` leaves. */
  ghost function Leave(v: RqVal, e: SchedRtEntity, prio: int, boosted: bool): RqVal {
    var a := Unlinked(v.active, prio, e);
    RqVal(a, v.nr - 1,
          if v.nr - 1 == 0 then MAX_PRIO else if prio == v.highest then Highest(a) else v.highest,
          if boosted then v.boosted - 1 else v.boosted,
          v.throttled)
  }

  /** The part of __enqueue_rt_entity after its early return. */
  ghost function Join(v: RqVal, e: SchedRtEntity, prio: int, boosted: bool, head: bool): RqVal {
    RqVal(Linked(v.active, prio, e, head), v.nr + 1,
          if prio < v.highest then prio else v.highest,
          if boosted then v.boosted + 1 else v.boosted,
          v.throttled)
  }

  class RtRq {
    var active: PrioArray<SchedRtEntity>
    var rtNrRunning: int
    var highestPrioCurr: int
    var rtNrBoosted: int
    var rtThrottled: bool
    ghost const depth: nat

    /** init_rt_rq and init_tg_rt_entry: nothing linked, nothing throttled. */
    constructor (ghost depth: nat)
      ensures active == Empty() && rtNrRunning == 0 && highestPrioCurr == MAX_PRIO
      ensures rtNrBoosted == 0 && !rtThrottled && this.depth == depth
    {
      active, rtNrRunning, highestPrioCurr, rtNrBoosted, rtThrottled := Empty(), 0, MAX_PRIO, 0, false;
      this.depth := depth;
    }

    ghost function Val(): RqVal
      reads this`active, this`rtNrRunning, this`highestPrioCurr, this`rtNrBoosted, this`rtThrottled
    {
      RqVal(active, rtNrRunning, highestPrioCurr, rtNrBoosted, rtThrottled)
    }

    function IsThrottled(): bool
      reads this`rtThrottled, this`rtNrBoosted
    {
      rtThrottled && rtNrBoosted == 0
    }

    method IncRtPrio(prio: int)
      modifies this`highestPrioCurr
      ensures highestPrioCurr == if prio < old(highestPrioCurr) then prio else old(highestPrioCurr)
    {
      if prio < highestPrioCurr {
        highestPrioCurr := prio;
      }
    }

    method DecRtPrio(prio: int)
      requires Shape(active)
      requires rtNrRunning != 0 ==> prio >= highestPrioCurr  // the warning never fires
      modifies this`highestPrioCurr
      ensures highestPrioCurr == (if rtNrRunning == 0 then MAX_PRIO
                                  else if prio == old(highestPrioCurr) then First(active) else old(highestPrioCurr))
    {
      if rtNrRunning != 0 {
        if prio == highestPrioCurr {
          highestPrioCurr := FirstBit(active.bitmap);
        }
      } else {
        highestPrioCurr := MAX_PRIO;
      }
    }

    /** The list, bitmap and counter updates of __enqueue_rt_entity. */
    method Add(e: SchedRtEntity, prio: int, boosted: bool, head: bool)
      requires Shape(active) && 0 <= prio < MAX_PRIO  // the warning in inc_rt_tasks never fires
      modifies this`active, this`rtNrRunning, this`highestPrioCurr, this`rtNrBoosted
      ensures Val() == Join(old(Val()), e, prio, boosted, head)
    {
      active := active.(queue := active.queue[prio := Put(active.queue[prio], e, head)]);
      active := active.(bitmap := active.bitmap[prio := true]);
      rtNrRunning := rtNrRunning + 1;
      IncRtPrio(prio);
      if boosted {
        rtNrBoosted := rtNrBoosted + 1;
      }
    }

    /** The list, bitmap and counter updates of __dequeue_rt_entity.  What it
        requires is what its warnings check on the way. */
    method Del(e: SchedRtEntity, prio: int, boosted: bool)
      requires Shape(active) && 0 <= prio < MAX_PRIO && rtNrRunning > 0
      requires rtNrRunning > 1 ==> prio >= highestPrioCurr
      requires rtNrRunning == 1 ==> rtNrBoosted == if boosted then 1 else 0
      modifies this`active, this`rtNrRunning, this`highestPrioCurr, this`rtNrBoosted
      ensures Val() == Leave(old(Val()), e, prio, boosted)
    {
      active := active.(queue := active.queue[prio := Without(active.queue[prio], {e})]);
      if active.queue[prio] == [] {
        active := active.(bitmap := active.bitmap[prio := false]);
      }
      rtNrRunning := rtNrRunning - 1;
      DecRtPrio(prio);
      if boosted {
        rtNrBoosted := rtNrBoosted - 1;
      }
      assert !(rtNrRunning == 0 && rtNrBoosted != 0);  // the warning in dec_rt_group never fires
    }
  }

  /** A task (myQ is null) or a group. */
  class SchedRtEntity {
    var prio: int
    var normalPrio: int
    var onRq: bool  // run_list is not empty
    var back: SchedRtEntity?
    const parent: SchedRtEntity?
    const rtRq: RtRq
    const myQ: RtRq?

    constructor (rtRq: RtRq, parent: SchedRtEntity?, myQ: RtRq?, prio: int)
      ensures this.rtRq == rtRq && this.parent == parent && this.myQ == myQ
      ensures this.prio == prio && normalPrio == prio && !onRq
    {
      this.rtRq, this.parent, this.myQ := rtRq, parent, myQ;
      this.prio, normalPrio, onRq, back := prio, prio, false, null;
    }

    ghost function Val(): SeVal
      reads this`prio, this`normalPrio, this`onRq
    {
      SeVal(prio, normalPrio, onRq)
    }

    /** rt_se_prio. */
    function RtSePrio(): int
      reads this, myQ
    {
      if myQ != null then myQ.highestPrioCurr else prio
    }

    /** rt_se_boosted. */
    function RtSeBoosted(): bool
      reads this, myQ
    {
      if myQ != null then myQ.rtNrBoosted != 0 else prio != normalPrio
    }
  }

  datatype SeVal = SeVal(prio: int, normalPrio: int, on: bool)

  /** The fields of every rt_rq and entity, and the table tg->rt_se[cpu] that
      gives the entity of each group's rt_rq. */
  datatype State = State(root: RtRq, rq: map<RtRq, RqVal>, se: map<SchedRtEntity, SeVal>, rtSe: map<RtRq, SchedRtEntity>)

  // ----- the tree -----

  /** Entities are queued on known rt_rqs; the entity of a group is queued one
      level above the rt_rq it owns; parents are read off the table. */
  ghost predicate Closed(s: State) {
    && s.root in s.rq && s.root !in s.rtSe
    && (forall r :: r in s.rq && r != s.root ==> r in s.rtSe)
    && (forall r :: r in s.rtSe ==> s.rtSe[r] in s.se && s.rtSe[r].myQ == r)
    && (forall e :: e in s.se ==>
          && e.rtRq in s.rq
          && e.parent == (if e.rtRq in s.rtSe then s.rtSe[e.rtRq] else null)
          && (e.myQ != null ==> e.myQ in s.rq && e.myQ in s.rtSe && s.rtSe[e.myQ] == e && e.myQ.depth == e.rtRq.depth + 1))
  }

  ghost predicate SameTree(s: State, t: State) {
    s.root == t.root && s.rq.Keys == t.rq.Keys && s.se.Keys == t.se.Keys && s.rtSe == t.rtSe
  }

  // ----- what the code reads off the fields -----

  ghost function Prio(s: State, e: SchedRtEntity): int
    requires Closed(s) && e in s.se
  {
    if e.myQ != null then s.rq[e.myQ].highest else s.se[e].prio
  }

  ghost predicate Boosted(s: State, e: SchedRtEntity)
    requires Closed(s) && e in s.se
  {
    if e.myQ != null then s.rq[e.myQ].boosted != 0 else s.se[e].prio != s.se[e].normalPrio
  }

  predicate Throttled(v: RqVal) { v.throttled && v.boosted == 0 }

  // ----- single entities -----

  ghost function DequeueOne(s: State, e: SchedRtEntity): (t: State)
    requires Closed(s) && e in s.se
    ensures SameTree(s, t)
  {
    s.(rq := s.rq[e.rtRq := Leave(s.rq[e.rtRq], e, Prio(s, e), Boosted(s, e))],
       se := s.se[e := s.se[e].(on := false)])
  }

  /** A group that is empty or throttled is not linked. */
  ghost predicate Blocked(s: State, e: SchedRtEntity)
    requires Closed(s) && e in s.se
  {
    e.myQ != null && (Throttled(s.rq[e.myQ]) || s.rq[e.myQ].nr == 0)
  }

  ghost function EnqueueOne(s: State, e: SchedRtEntity, head: bool): (t: State)
    requires Closed(s) && e in s.se
    ensures SameTree(s, t)
  {
    if Blocked(s, e) then s else
      s.(rq := s.rq[e.rtRq := Join(s.rq[e.rtRq], e, Prio(s, e), Boosted(s, e), head)],
         se := s.se[e := s.se[e].(on := true)])
  }

  ghost function RequeueOne(s: State, e: SchedRtEntity, head: bool): (t: State)
    requires Closed(s) && e in s.se
    ensures SameTree(s, t)
  {
    if !s.se[e].on then s else
      var v := s.rq[e.rtRq];
      s.(rq := s.rq[e.rtRq := v.(active := Linked(v.active, Prio(s, e), e, head))])
  }

  // ----- ancestor chains -----

  /** `e` and its ancestors. */
  ghost function Chain(s: State, e: SchedRtEntity): set<SchedRtEntity>
    requires Closed(s) && e in s.se
    decreases e.rtRq.depth
  {
    {e} + if e.parent == null then {} else Chain(s, e.parent)
  }

  /** dequeue_rt_stack: take the chain off from the top down. */
  ghost function DequeueStack(s: State, e: SchedRtEntity): (t: State)
    requires Closed(s) && e in s.se
    ensures SameTree(s, t)
    decreases e.rtRq.depth
  {
    var s1 := if e.parent == null then s else DequeueStack(s, e.parent);
    if s1.se[e].on then DequeueOne(s1, e) else s1
  }

  /** The rebuilding loop of enqueue_rt_entity, from the bottom up. */
  ghost function EnqueueChain(s: State, e: SchedRtEntity, head: bool): (t: State)
    requires Closed(s) && e in s.se
    ensures SameTree(s, t)
    decreases e.rtRq.depth
  {
    var s1 := EnqueueOne(s, e, head);
    if e.parent == null then s1 else EnqueueChain(s1, e.parent, head)
  }

  /** The rebuilding loop of dequeue_rt_entity, which skips tasks. */
  ghost function RejoinChain(s: State, e: SchedRtEntity): (t: State)
    requires Closed(s) && e in s.se
    ensures SameTree(s, t)
    decreases e.rtRq.depth
  {
    var s1 := if e.myQ != null && s.rq[e.myQ].nr != 0 then EnqueueOne(s, e, false) else s;
    if e.parent == null then s1 else RejoinChain(s1, e.parent)
  }

  ghost function EnqueueEntity(s: State, e: SchedRtEntity, head: bool): (t: State)
    requires Closed(s) && e in s.se
    ensures SameTree(s, t)
  {
    EnqueueChain(DequeueStack(s, e), e, head)
  }

  ghost function DequeueEntity(s: State, e: SchedRtEntity): (t: State)
    requires Closed(s) && e in s.se
    ensures SameTree(s, t)
  {
    RejoinChain(DequeueStack(s, e), e)
  }

  ghost function RequeueTask(s: State, e: SchedRtEntity, head: bool): (t: State)
    requires Closed(s) && e in s.se
    ensures SameTree(s, t)
    decreases e.rtRq.depth
  {
    var s1 := RequeueOne(s, e, head);
    if e.parent == null then s1 else RequeueTask(s1, e.parent, head)
  }

  // ----- throttling -----

  ghost function SetThrottled(s: State, r: RtRq, b: bool): (t: State)
    requires Closed(s) && r in s.rq
    ensures SameTree(s, t)
  {
    s.(rq := s.rq[r := s.rq[r].(throttled := b)])
  }

  /** sched_rt_rq_enqueue. */
  ghost function RqEnqueue(s: State, r: RtRq): (t: State)
    requires Closed(s) && r in s.rq
    ensures SameTree(s, t)
  {
    if s.rq[r].nr != 0 && r in s.rtSe && !s.se[s.rtSe[r]].on then EnqueueEntity(s, s.rtSe[r], false) else s
  }

  /** sched_rt_rq_dequeue. */
  ghost function RqDequeue(s: State, r: RtRq): (t: State)
    requires Closed(s) && r in s.rq
    ensures SameTree(s, t)
  {
    if r in s.rtSe && s.se[s.rtSe[r]].on then DequeueEntity(s, s.rtSe[r]) else s
  }

  /** The flag is set when the budget is exceeded; a boosted rt_rq stays queued. */
  ghost function Throttle(s: State, r: RtRq): (t: State)
    requires Closed(s) && r in s.rq
    ensures SameTree(s, t)
  {
    var s1 := SetThrottled(s, r, true);
    if Throttled(s1.rq[r]) then RqDequeue(s1, r) else s1
  }

  /** The period timer clears the flag. */
  ghost function Unthrottle(s: State, r: RtRq): (t: State)
    requires Closed(s) && r in s.rq
    ensures SameTree(s, t)
  {
    RqEnqueue(SetThrottled(s, r, false), r)
  }

  // ----- picking -----

  /** _pick_next_task_rt from rt_rq `r` down; `fuel` bounds the depth left. */
  ghost function PickFrom(s: State, r: RtRq, fuel: nat): SchedRtEntity?
    requires Closed(s) && r in s.rq
    decreases fuel
  {
    var a := s.rq[r].active;
    if !(Shape(a) && First(a) < MAX_PRIO && a.queue[First(a)] != []) then null else
      var e := a.queue[First(a)][0];
      if e.myQ == null then e
      else if fuel == 0 || e.myQ !in s.rq then null
      else PickFrom(s, e.myQ, fuel - 1)
  }
}
