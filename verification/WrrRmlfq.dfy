/** The random multilevel feedback variant of the WRR class (wrr_RMLFQ.c).  The
    draw of get_random_bytes is an arbitrary 32-bit input.  UNSIGNED_MAX is an
    unsuffixed decimal constant that does not fit a 32-bit long, hence a 64-bit
    long long (section 6.4.4.1 of ISO/IEC 9899:1999), and so are the products. */
module WrrRmlfq {
  import opened SchedConstants
  import opened PrioArrays

  const LLONG_MAX := 0x7FFF_FFFF_FFFF_FFFF
  const UNSIGNED_MAX := 4294967295

  // ----- the level and the stay counter of one task -----

  /** Where a task is: its level (0 is picked first) and `times`, the number of
      requeues it has spent there. */
  datatype Place = Place(prio: int, times: int)

  datatype Branch = ToLow | Stay | ToHigh

  /** The operands of the two thresholds, computed in unsigned int arithmetic. */
  function LowFactor(p: Place): int { (p.times + p.prio / 20) % UINT }
  function HighFactor(p: Place): int { (5 - p.times + p.prio / 20) % UINT }

  function LowBound(p: Place): int { LowFactor(p) * UNSIGNED_MAX / 10 }
  function HighBound(p: Place): int { HighFactor(p) * UNSIGNED_MAX / 10 }

  function Choose(p: Place, r: int): Branch {
    if r < LowBound(p) then ToLow
    else if r > HighBound(p) then ToHigh
    else Stay
  }

  function Move(p: Place, r: int): Place {
    match Choose(p, r)
    case ToLow => Place(if p.prio > 9 then p.prio - 10 else p.prio, 1)
    case ToHigh => Place(if p.prio < 90 then p.prio + 10 else p.prio, 1)
    case Stay => Place(p.prio, (p.times + 1) % UINT)
  }

  function MoveAll(p: Place, draws: seq<int>): Place
    decreases |draws|
  {
    if draws == [] then p else MoveAll(Move(p, draws[0]), draws[1..])
  }

  predicate Draws(draws: seq<int>) {
    forall i :: 0 <= i < |draws| ==> 0 <= draws[i] < UINT
  }

  predicate InRange(p: Place) {
    0 <= p.prio < MAX_PRIO && 1 <= p.times <= 3
  }

  /** The counter stays in 1..3, nothing wraps, and the level stays in its
      residue class modulo ten. */
  lemma MoveInRange(p: Place, r: int)
    requires InRange(p) && 0 <= r < UINT
    ensures InRange(Move(p, r)) && Move(p, r).prio % 10 == p.prio % 10
    ensures LowFactor(p) == p.times + p.prio / 20 && HighFactor(p) == 5 - p.times + p.prio / 20
    ensures 0 <= LowFactor(p) * UNSIGNED_MAX <= LLONG_MAX && 0 <= HighFactor(p) * UNSIGNED_MAX <= LLONG_MAX
    ensures p.times == 3 ==> Choose(p, r) != Stay
  {
  }

  /** Over any run of draws. */
  lemma {:induction false} RunInRange(p: Place, draws: seq<int>)
    requires InRange(p) && Draws(draws)
    ensures InRange(MoveAll(p, draws)) && MoveAll(p, draws).prio % 10 == p.prio % 10
    decreases |draws|
  {
    if draws != [] {
      MoveInRange(p, draws[0]);
      RunInRange(Move(p, draws[0]), draws[1..]);
    }
  }

  /** Of any three consecutive requeues of a task at least one leaves the stay
      branch, wherever in a run from `times == 1` they happen. */
  lemma StaysAtMostTwice(p: Place, before: seq<int>, a: int, b: int, c: int)
    requires 0 <= p.prio < MAX_PRIO && p.times == 1
    requires Draws(before) && Draws([a, b, c])
    ensures var q := MoveAll(p, before);
            Choose(q, a) != Stay || Choose(Move(q, a), b) != Stay || Choose(Move(Move(q, a), b), c) != Stay
  {
    RunInRange(p, before);
    var q := MoveAll(p, before);
    assert [a, b, c][0] == a && [a, b, c][1] == b && [a, b, c][2] == c;
    MoveInRange(q, a);
    MoveInRange(Move(q, a), b);
    MoveInRange(Move(Move(q, a), b), c);
  }

  /** The stay interval at a place: it shrinks with the counter, is not empty the
      first two times, and is empty the third time because the bounds cross.
      Each of the other two moves is always possible. */
  lemma StayInterval(p: Place)
    requires InRange(p)
    ensures 0 < LowBound(p) < UINT && 0 < HighBound(p) < UNSIGNED_MAX
    ensures Choose(p, 0) == ToLow && Choose(p, UNSIGNED_MAX) == ToHigh
    ensures (exists r :: 0 <= r < UINT && Choose(p, r) == Stay) <==> p.times < 3
    ensures p.times < 3 ==> LowBound(p) < LowBound(p.(times := p.times + 1))
                            && HighBound(p.(times := p.times + 1)) < HighBound(p)
  {
    if p.times < 3 {
      assert Choose(p, LowBound(p)) == Stay;
    } else {
      forall r | 0 <= r < UINT ensures Choose(p, r) != Stay {
        MoveInRange(p, r);
      }
    }
  }

  /** Which draws move a task which way, without the roundings of the bounds: a
      draw below `times + prio / 20` tenths of the range sends it down ten levels,
      one above `5 - times + prio / 20` tenths up ten levels, and any other only
      counts.  At the ends of the range of levels only the counter restarts. */
  lemma MoveExact(p: Place, r: int)
    requires InRange(p) && 0 <= r < UINT
    ensures 10 * (r + 1) <= (p.times + p.prio / 20) * 4294967295 ==>
              Move(p, r) == Place(if p.prio <= 9 then p.prio else p.prio - 10, 1)
    ensures 10 * (r + 1) > (p.times + p.prio / 20) * 4294967295 && 10 * r > (5 - p.times + p.prio / 20) * 4294967295 ==>
              Move(p, r) == Place(if p.prio >= 90 then p.prio else p.prio + 10, 1)
    ensures 10 * (r + 1) > (p.times + p.prio / 20) * 4294967295 && 10 * r <= (5 - p.times + p.prio / 20) * 4294967295 ==>
              Move(p, r) == Place(p.prio, p.times + 1)
  {
    MoveInRange(p, r);
  }

  /** A greater draw never leaves the task on a lower level. */
  lemma MoveMonotone(p: Place, r: int, u: int)
    requires InRange(p) && 0 <= r <= u < UINT
    ensures Move(p, r).prio <= Move(p, u).prio
  {
    MoveExact(p, r);
    MoveExact(p, u);
  }

  /** So over a run the draws 0 take a task down fastest, ten levels a draw until
      no lower level of its residue class is left. */
  lemma {:induction false} Fastest(p: Place, draws: seq<int>)
    requires InRange(p) && Draws(draws)
    ensures MoveAll(p, draws).prio >= (if p.prio < 10 * |draws| then p.prio % 10 else p.prio - 10 * |draws|)
    ensures (forall i :: 0 <= i < |draws| ==> draws[i] == 0) ==>
              MoveAll(p, draws).prio == if p.prio < 10 * |draws| then p.prio % 10 else p.prio - 10 * |draws|
    decreases |draws|
  {
    if draws != [] {
      MoveInRange(p, draws[0]);
      MoveExact(p, draws[0]);
      MoveMonotone(p, 0, draws[0]);
      MoveExact(p, 0);
      RunInRange(p, draws);
      Fastest(Move(p, draws[0]), draws[1..]);
    }
  }

  // ----- the runqueue -----

  class Task {
    var rtPriority: int
    var times: int
    var timeSlice: int
    const background: bool

    /** __setscheduler resets the counter when it makes a task a WRR task. */
    constructor (prio: int, background: bool)
      ensures rtPriority == prio && times == 1 && this.background == background
    {
      rtPriority, times, timeSlice, this.background := prio, 1, 0, background;
    }

    function Level(): int
      reads this`rtPriority
    {
      99 - rtPriority
    }

    function Where(): Place
      reads this`rtPriority, this`times
    {
      Place(Level(), times)
    }
  }

  function Relinked(a: PrioArray<Task>, from: int, t: Task, to: int, head: bool): PrioArray<Task>
    requires Shape(a) && 0 <= from < MAX_PRIO && 0 <= to < MAX_PRIO
  {
    Link(if from == to then a else Unlink(a, from, t), to, t, head)
  }

  /** The list and bitmap updates of one requeue: the bitmap is rewritten only
      if the list changes, and the old bit is cleared after the new link. */
  method MoveEntry(a: PrioArray<Task>, prio: int, t: Task, to: int, head: bool) returns (b: PrioArray<Task>)
    requires Shape(a) && 0 <= prio < MAX_PRIO && 0 <= to < MAX_PRIO
    requires to == prio ==> a.bitmap[prio]
    ensures b == Relinked(a, prio, t, to, head)
  {
    var queue, bitmap := a.queue, a.bitmap;
    if to == prio {
      queue := queue[prio := Put(queue[prio], t, head)];
    } else {
      queue := queue[prio := Without(queue[prio], {t})];
      queue := queue[to := Put(queue[to], t, head)];
      if queue[prio] == [] {
        bitmap := bitmap[prio := false];
      }
      bitmap := bitmap[to := true];
    }
    b := PrioArray(queue, bitmap);
  }

  lemma RelinkedRepresents(a: PrioArray<Task>, key: map<Task, int>, t: Task, to: int, head: bool)
    requires Represents(a, key) && t in key && 0 <= to < MAX_PRIO
    ensures Represents(Relinked(a, key[t], t, to, head), key[t := to])
    ensures a.bitmap[key[t]]
  {
    Linked(a, key, t);
    if to == key[t] {
      LinkRepresents(a, key, to, t, head);
    } else {
      UnlinkRepresents(a, key, t);
      LinkRepresents(Unlink(a, key[t], t), key - {t}, to, t, head);
      assert (key - {t})[t := to] == key[t := to];
    }
  }

  ghost function Levels(places: map<Task, Place>): map<Task, int> {
    map t | t in places :: places[t].prio
  }

  lemma LevelsUpdate(places: map<Task, Place>, t: Task, p: Place)
    ensures Levels(places[t := p]) == Levels(places)[t := p.prio]
    ensures Levels(places - {t}) == Levels(places) - {t}
  {
  }

  /** The slice of a task at a level: foreground slices grow with the stage. */
  function Refill(hz: nat, background: bool, level: int): int {
    if background then BackSlice(hz) else ForeSlice(hz) * (level / 10 + 1)
  }

  /** A background slice is 10 ms in ticks at every level; a foreground slice is
      100 ms for each stage of ten levels from the first one on. */
  lemma RefillExact(hz: nat, background: bool, level: int)
    requires 0 <= level < MAX_PRIO
    ensures background ==> Refill(hz, background, level) == 10 * hz / 1000
    ensures !background && level < 10 ==> Refill(hz, background, level) == 100 * hz / 1000
    ensures !background && level >= 10 ==>
              Refill(hz, background, level) == Refill(hz, background, level - 10) + 100 * hz / 1000
  {
    if !background && level >= 10 {
      assert (level - 10) / 10 + 1 == level / 10;
      StageStep(ForeSlice(hz), level / 10);
    }
  }

  lemma StageStep(slice: int, stage: int)
    ensures slice * (stage + 1) == slice * stage + slice
  {
  }

  class WrrRq {
    var active: PrioArray<Task>
    var wrrNrRunning: nat
    var needResched: bool
    const hz: nat
    ghost var queued: set<Task>

    ghost function Places(): map<Task, Place>
      reads this`queued, queued`rtPriority, queued`times
    {
      map t | t in queued :: t.Where()
    }

    ghost predicate Valid()
      reads this`active, this`wrrNrRunning, this`queued, queued`rtPriority, queued`times
    {
      && Represents(active, Levels(Places())) && wrrNrRunning == |queued|
      && forall t :: t in queued ==> InRange(Places()[t])
    }

    lemma RunningIsTotal()
      requires Valid()
      ensures wrrNrRunning == Total(active.queue)
    {
      TotalLength(active, Levels(Places()));
      assert Levels(Places()).Keys == queued;
    }

    constructor (hz: nat)
      ensures Valid() && queued == {} && this.hz == hz
    {
      active, wrrNrRunning, needResched, this.hz := Empty(), 0, false, hz;
      queued := {};
      new;
      EmptyRepresents<Task>();
      assert Levels(Places()) == map[];
    }

    method EnqueueEntity(t: Task, head: bool)
      requires Valid() && t !in queued && InRange(t.Where())
      modifies this`active, this`wrrNrRunning, this`queued
      ensures Valid() && queued == old(queued) + {t}
      ensures active == Link(old(active), t.Level(), t, head)
      ensures Shape(old(active)) && Shape(active)
      ensures active.queue[99 - t.rtPriority] ==
                if head then [t] + old(active.queue[99 - t.rtPriority]) else old(active.queue[99 - t.rtPriority]) + [t]
      ensures forall i :: 0 <= i < MAX_PRIO && i != 99 - t.rtPriority ==> active.queue[i] == old(active.queue[i])
    {
      var prio := t.Level();
      ghost var places := Places();
      LinkRepresents(active, Levels(places), prio, t, head);
      AbsentFrom(active, Levels(places), prio, t);
      LevelsUpdate(places, t, t.Where());
      active := active.(queue := active.queue[prio := Put(active.queue[prio], t, head)]);
      active := active.(bitmap := active.bitmap[prio := true]);
      wrrNrRunning := wrrNrRunning + 1;
      queued := queued + {t};
      assert Places() == places[t := t.Where()];
    }

    method DequeueEntity(t: Task)
      requires Valid() && t in queued
      modifies this`active, this`wrrNrRunning, this`queued
      ensures Valid() && queued == old(queued) - {t}
      ensures active == Unlink(old(active), t.Level(), t)
      ensures Shape(old(active)) && Shape(active)
      ensures forall i :: 0 <= i < MAX_PRIO ==>
                active.queue[i] == if i == t.Level() then Without(old(active.queue[i]), {t}) else old(active.queue[i])
    {
      var prio := t.Level();
      ghost var places := Places();
      assert places[t] == t.Where();
      UnlinkRepresents(active, Levels(places), t);
      LevelsUpdate(places, t, t.Where());
      active := active.(queue := active.queue[prio := Without(active.queue[prio], {t})]);
      if active.queue[prio] == [] {
        active := active.(bitmap := active.bitmap[prio := false]);
      }
      assert active == Unlink(old(active), prio, t);
      assert wrrNrRunning != 0;  // the warning in dequeue_wrr_entity never fires
      wrrNrRunning := wrrNrRunning - 1;
      queued := queued - {t};
      assert Places() == places - {t};
    }

    /** Link `t` on list `to` with the counter set to `times`. */
    method Relink(t: Task, to: int, times: int, head: bool)
      requires Valid() && t in queued && InRange(Place(to, times))
      modifies this`active, t`rtPriority, t`times
      ensures Valid() && Places() == old(Places())[t := Place(to, times)]
      ensures active == Relinked(old(active), old(t.Level()), t, to, head)
    {
      var prio := t.Level();
      MoveToList(t, to, head);
      SetPlace(t, t.rtPriority + (prio - to), times, Place(to, times));
    }

    /** The lists and the bitmap of such a move; they then represent the new levels. */
    method MoveToList(t: Task, to: int, head: bool)
      requires Valid() && t in queued && 0 <= to < MAX_PRIO
      modifies this`active
      ensures 0 <= t.Level() < MAX_PRIO && Shape(old(active)) && active == Relinked(old(active), t.Level(), t, to, head)
      ensures Represents(active, Levels(Places())[t := to])
    {
      assert Places()[t] == t.Where();
      RelinkedRepresents(active, Levels(Places()), t, to, head);
      active := MoveEntry(active, t.Level(), t, to, head);
    }

    /** Rewrite the priority and the counter of `t`. */
    method SetPlace(t: Task, rtPriority: int, times: int, ghost place: Place)
      requires t in queued && place == Place(99 - rtPriority, times) && InRange(place)
      requires forall u :: u in queued ==> InRange(Places()[u])
      modifies t`rtPriority, t`times
      ensures t.rtPriority == rtPriority && t.times == times
      ensures Places() == old(Places())[t := place] && forall u :: u in queued ==> InRange(Places()[u])
      ensures Levels(Places()) == Levels(old(Places()))[t := place.prio]
    {
      ghost var places := Places();
      t.rtPriority, t.times := rtPriority, times;
      assert Places() == places[t := place];
      LevelsUpdate(places, t, place);
    }

    /** requeue_task_wrr with the draw `r`. */
    method RequeueTask(t: Task, head: bool, r: int)
      requires Valid() && t in queued && 0 <= r < UINT
      modifies this`active, t`rtPriority, t`times
      ensures Valid()
      ensures Places() == old(Places())[t := Move(old(t.Where()), r)]
      ensures active == Relinked(old(active), old(t.Level()), t, t.Level(), head)
      // which way it went
      ensures var prio, times := old(t.Level()), old(t.times);
              && t.Level() == (if 10 * (r + 1) <= (times + prio / 20) * 4294967295 then if prio <= 9 then prio else prio - 10
                               else if 10 * r > (5 - times + prio / 20) * 4294967295 then if prio >= 90 then prio else prio + 10
                               else prio)
              && t.times == (if 10 * (r + 1) <= (times + prio / 20) * 4294967295
                                || 10 * r > (5 - times + prio / 20) * 4294967295 then 1 else times + 1)
      // and where it stands
      ensures Shape(old(active)) && Shape(active) && 0 <= t.Level() < MAX_PRIO && 0 <= old(t.Level()) < MAX_PRIO
      ensures var rest := Without(old(active.queue)[t.Level()], {t});
              active.queue[t.Level()] == if head then [t] + rest else rest + [t]
      ensures old(t.Level()) != t.Level() ==>
                active.queue[old(t.Level())] == Without(old(active.queue)[old(t.Level())], {t})
      ensures forall i :: 0 <= i < MAX_PRIO && i != t.Level() && i != old(t.Level()) ==>
                active.queue[i] == old(active.queue[i])
    {
      assert Places()[t] == t.Where();
      MoveInRange(t.Where(), r);
      MoveExact(t.Where(), r);
      ghost var place, places := Move(t.Where(), r), Places();
      var prio, times := t.Level(), t.times;
      var high := if prio < 90 then prio + 10 else prio;
      var low := if prio > 9 then prio - 10 else prio;
      if r < (times + prio / 20) % UINT * UNSIGNED_MAX / 10 {
        assert place == Place(low, 1);
        Relink(t, low, 1, head);
      } else if r > (5 - times + prio / 20) % UINT * UNSIGNED_MAX / 10 {
        assert place == Place(high, 1);
        Relink(t, high, 1, head);
      } else {
        assert place == Place(prio, (times + 1) % UINT);
        Relink(t, prio, (times + 1) % UINT, head);
      }
      assert Places() == places[t := place];
      assert t.Where() == Places()[t];
    }

    /** yield_task_wrr. */
    method YieldTask(curr: Task, r: int)
      requires Valid() && curr in queued && 0 <= r < UINT
      modifies this`active, curr`rtPriority, curr`times
      ensures Valid() && Places() == old(Places())[curr := Move(old(curr.Where()), r)]
    {
      RequeueTask(curr, false, r);
    }

    method PickNext() returns (p: Task?)
      requires Valid()
      ensures p == null <==> queued == {}
      ensures p != null ==> p in queued && forall q :: q in queued ==> p.Level() <= q.Level()
      ensures p != null ==> 0 <= p.Level() < MAX_PRIO && Shape(active) && active.queue[p.Level()] != []
                            && p == active.queue[p.Level()][0]
    {
      ghost var places := Places();
      FirstIsLeast(active, Levels(places));
      assert Levels(places).Keys == queued;
      if wrrNrRunning == 0 {
        return null;
      }
      var idx := FirstBit(active.bitmap);
      assert idx < MAX_PRIO;  // BUG_ON(idx >= MAX_WRR_PRIO) is unreachable
      p := active.queue[idx][0];
      assert p in active.queue[idx];
      assert forall q :: q in queued ==> q.Level() == Levels(places)[q];
    }

    /** check_preempt_curr_wrr: a waking task preempts exactly when the next pick
        would prefer its level, so with it queued the running task is not picked. */
    method CheckPreempt(t: Task, curr: Task) returns (resched: bool)
      requires Valid() && t in queued && curr in queued
      ensures resched <==> t.Level() < curr.Level()
      ensures resched ==> exists q :: q in queued && q.Level() < curr.Level()
    {
      resched := t.Level() < curr.Level();
    }

    /** task_tick_wrr.  The slice is refilled for the level the task had before
        the requeue that follows. */
    method TaskTick(t: Task, r: int)
      requires Valid() && t in queued && 0 <= r < UINT
      modifies this`active, this`needResched, t`timeSlice, t`rtPriority, t`times
      ensures Valid()
      ensures var left := (old(t.timeSlice) - 1) % UINT;
              if left != 0 then
                && t.timeSlice == left && active == old(active) && Places() == old(Places())
                && needResched == old(needResched)
              else
                && t.timeSlice == (if t.background then 10 * hz / 1000 else 100 * hz / 1000 * (old(t.Level()) / 10 + 1))
                && needResched && Places() == old(Places())[t := Move(old(t.Where()), r)]
                && active == Relinked(old(active), old(t.Level()), t, t.Level(), false)
    {
      ghost var place, places := Move(t.Where(), r), Places();
      t.timeSlice := (t.timeSlice - 1) % UINT;
      if t.timeSlice == 0 {
        t.timeSlice := Refill(hz, t.background, t.Level());
        needResched := true;
        assert Places() == places && Move(t.Where(), r) == place;
        RequeueTask(t, false, r);
        assert Places() == places[t := place];
      }
    }
  }

  /** Any number of requeues of queued tasks: the structure, the set of queued
      tasks and every residue class are kept, and each task ends where its own
      draws take it. */
  method RequeueMany(rq: WrrRq, who: seq<Task>, draws: seq<int>)
    requires rq.Valid() && |who| == |draws| && Draws(draws)
    requires forall t :: t in who ==> t in rq.queued
    modifies rq`active, rq.queued`rtPriority, rq.queued`times
    ensures rq.Valid()
    ensures forall t :: t in rq.queued ==>
              && t.Where() == MoveAll(old(t.Where()), DrawsOf(t, who, draws))
              && t.Level() % 10 == old(t.Level()) % 10
  {
    ghost var start := rq.Places();
    var i := 0;
    assert rq.Places() == Moved(start, who[..0], draws[..0]);
    while i < |who|
      invariant 0 <= i <= |who| && rq.Valid()
      invariant rq.Places() == Moved(start, who[..i], draws[..i])
    {
      ghost var places := rq.Places();
      assert who[i] in rq.queued && places[who[i]] == who[i].Where();
      MovedStep(start, who, draws, i);
      rq.YieldTask(who[i], draws[i]);
      assert rq.Places() == places[who[i] := Move(places[who[i]], draws[i])];
      i := i + 1;
    }
    assert who[..i] == who && draws[..i] == draws;
    forall t | t in rq.queued
      ensures t.Where() == MoveAll(start[t], DrawsOf(t, who, draws)) && t.Level() % 10 == start[t].prio % 10
    {
      assert rq.Places()[t] == t.Where();
      DrawsOfValid(t, who, draws);
      RunInRange(start[t], DrawsOf(t, who, draws));
    }
  }

  ghost function Moved(start: map<Task, Place>, who: seq<Task>, draws: seq<int>): map<Task, Place>
    requires |who| == |draws|
  {
    map t | t in start :: MoveAll(start[t], DrawsOf(t, who, draws))
  }

  lemma MovedStep(start: map<Task, Place>, who: seq<Task>, draws: seq<int>, i: nat)
    requires |who| == |draws| && i < |who| && who[i] in start
    ensures var before := Moved(start, who[..i], draws[..i]);
            Moved(start, who[..i + 1], draws[..i + 1]) == before[who[i] := Move(before[who[i]], draws[i])]
  {
    assert who[..i + 1] == who[..i] + [who[i]] && draws[..i + 1] == draws[..i] + [draws[i]];
    forall t | t in start
      ensures MoveAll(start[t], DrawsOf(t, who[..i + 1], draws[..i + 1])) ==
              var was := MoveAll(start[t], DrawsOf(t, who[..i], draws[..i]));
              if t == who[i] then Move(was, draws[i]) else was
    {
      DrawsOfSnoc(t, who[..i], draws[..i], who[i], draws[i]);
      assert DrawsOf(t, who[..i], draws[..i]) + [] == DrawsOf(t, who[..i], draws[..i]);
      MoveAllSnoc(start[t], DrawsOf(t, who[..i], draws[..i]), draws[i]);
    }
  }

  ghost function DrawsOf(t: Task, who: seq<Task>, draws: seq<int>): seq<int>
    requires |who| == |draws|
  {
    if who == [] then []
    else (if who[0] == t then [draws[0]] else []) + DrawsOf(t, who[1..], draws[1..])
  }

  lemma {:induction false} DrawsOfSnoc(t: Task, who: seq<Task>, draws: seq<int>, u: Task, r: int)
    requires |who| == |draws|
    ensures DrawsOf(t, who + [u], draws + [r]) == DrawsOf(t, who, draws) + (if u == t then [r] else [])
  {
    if who == [] {
      assert who + [u] == [u] && draws + [r] == [r];
    } else {
      assert (who + [u])[1..] == who[1..] + [u] && (draws + [r])[1..] == draws[1..] + [r];
      DrawsOfSnoc(t, who[1..], draws[1..], u, r);
    }
  }

  lemma {:induction false} DrawsOfValid(t: Task, who: seq<Task>, draws: seq<int>)
    requires |who| == |draws| && Draws(draws)
    ensures Draws(DrawsOf(t, who, draws))
  {
    if who != [] {
      DrawsOfValid(t, who[1..], draws[1..]);
    }
  }

  lemma {:induction false} MoveAllSnoc(p: Place, draws: seq<int>, r: int)
    ensures MoveAll(p, draws + [r]) == Move(MoveAll(p, draws), r)
    decreases |draws|
  {
    if draws == [] {
      assert draws + [r] == [r];
    } else {
      assert (draws + [r])[1..] == draws[1..] + [r];
      MoveAllSnoc(Move(p, draws[0]), draws[1..], r);
    }
  }
}
