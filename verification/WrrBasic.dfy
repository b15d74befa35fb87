/** The basic weighted round robin class (wrr_basic.c) on one runqueue. */
module WrrBasic {
  import opened SchedConstants
  import opened PrioArrays
  import opened WrrFairness

  /** A time slice is a C unsigned int. */
  class Task {
    var rtPriority: int
    var timeSlice: int
    const background: bool

    constructor (prio: int, background: bool)
      ensures rtPriority == prio && this.background == background
    {
      rtPriority, timeSlice, this.background := prio, 0, background;
    }
  }

  /** get_rr_interval_wrr for a task. */
  function Interval(hz: nat, t: Task): nat {
    if t.background then BackSlice(hz) else ForeSlice(hz)
  }

  class WrrRq {
    var active: PrioArray<Task>
    var wrrNrRunning: nat
    var curr: Task?
    var needResched: bool
    const hz: nat
    ghost var queued: set<Task>

    ghost function Key(): map<Task, int>
      reads this`queued, queued`rtPriority
    {
      map t | t in queued :: t.rtPriority
    }

    ghost predicate Valid()
      reads this`active, this`wrrNrRunning, this`queued, queued`rtPriority
    {
      && Represents(active, Key()) && wrrNrRunning == |queued|
      && forall t :: t in queued ==> 0 <= t.rtPriority < MAX_PRIO
    }

    /** wrr_nr_running is the total length of the hundred lists. */
    lemma RunningIsTotal()
      requires Valid()
      ensures wrrNrRunning == Total(active.queue)
    {
      TotalLength(active, Key());
      assert Key().Keys == queued;
    }

    constructor (hz: nat)
      ensures Valid() && queued == {} && curr == null && this.hz == hz
    {
      active, wrrNrRunning, curr, needResched := Empty(), 0, null, false;
      this.hz := hz;
      queued := {};
      new;
      EmptyRepresents<Task>();
      assert Key() == map[];
    }

    method EnqueueEntity(t: Task, head: bool)
      requires Valid() && t !in queued && 0 <= t.rtPriority < MAX_PRIO
      modifies this`active, this`wrrNrRunning, this`queued
      ensures Valid() && queued == old(queued) + {t}
      ensures active == Link(old(active), t.rtPriority, t, head)
      ensures Shape(old(active)) && Shape(active)
      ensures active.queue[t.rtPriority] ==
                if head then [t] + old(active.queue[t.rtPriority]) else old(active.queue[t.rtPriority]) + [t]
      ensures forall i :: 0 <= i < MAX_PRIO && i != t.rtPriority ==> active.queue[i] == old(active.queue[i])
    {
      var prio := t.rtPriority;
      AbsentFrom(active, Key(), prio, t);
      LinkRepresents(active, Key(), prio, t, head);
      ghost var key := Key()[t := prio];
      active := active.(queue := active.queue[prio := Put(active.queue[prio], t, head)]);
      active := active.(bitmap := active.bitmap[prio := true]);
      wrrNrRunning := wrrNrRunning + 1;
      queued := queued + {t};
      assert Key() == key;
    }

    method DequeueEntity(t: Task)
      requires Valid() && t in queued
      modifies this`active, this`wrrNrRunning, this`queued
      ensures Valid() && queued == old(queued) - {t}
      ensures active == Unlink(old(active), t.rtPriority, t)
      ensures Shape(old(active)) && Shape(active)
      ensures forall i :: 0 <= i < MAX_PRIO ==>
                active.queue[i] == if i == t.rtPriority then Without(old(active.queue[i]), {t}) else old(active.queue[i])
    {
      var prio := t.rtPriority;
      assert t in Key() && Key()[t] == prio;
      UnlinkRepresents(active, Key(), t);
      ghost var key := Key() - {t};
      active := active.(queue := active.queue[prio := Without(active.queue[prio], {t})]);
      if active.queue[prio] == [] {
        active := active.(bitmap := active.bitmap[prio := false]);
      }
      assert active == Unlink(old(active), prio, t);
      assert wrrNrRunning != 0;  // the warning in dequeue_wrr_entity never fires
      wrrNrRunning := wrrNrRunning - 1;
      queued := queued - {t};
      assert Key() == key;
    }

    method RequeueTask(t: Task, head: bool)
      requires Valid() && t in queued
      modifies this`active
      ensures Valid()
      ensures active == Link(old(active), t.rtPriority, t, head) && active.bitmap == old(active.bitmap)
      ensures Shape(old(active)) && Shape(active)
      ensures var rest := Without(old(active.queue[t.rtPriority]), {t});
              active.queue[t.rtPriority] == if head then [t] + rest else rest + [t]
      ensures forall i :: 0 <= i < MAX_PRIO && i != t.rtPriority ==> active.queue[i] == old(active.queue[i])
    {
      var prio := t.rtPriority;
      assert t in Key() && Key()[t] == prio;
      LinkRepresents(active, Key(), prio, t, head);
      assert Key()[t := prio] == Key();
      Linked(active, Key(), t);
      assert active.bitmap[prio := true] == active.bitmap;
      active := active.(queue := active.queue[prio := Put(active.queue[prio], t, head)]);
      assert active == Link(old(active), prio, t, head);
      assert Key() == old(Key());
    }

    /** The list that tasks are picked from. */
    ghost function Lowest(): seq<Task>
      reads this`active
    {
      if Shape(active) && First(active) < MAX_PRIO then active.queue[First(active)] else []
    }

    lemma LowestList()
      requires Valid()
      ensures Lowest() != [] <==> queued != {}
      ensures NoDup(Lowest()) && forall t :: t in Lowest() ==> t in queued && t.rtPriority == First(active)
      ensures forall t :: t in queued ==> First(active) <= t.rtPriority
    {
      FirstIsLeast(active, Key());
      assert Key().Keys == queued;
      forall t | t in queued ensures First(active) <= t.rtPriority {
        assert t in Key();
      }
    }

    method PickNext() returns (p: Task?)
      requires Valid()
      ensures p == null <==> queued == {}
      ensures p != null ==> Lowest() != [] && p == Lowest()[0] && p in queued
      ensures p != null ==> forall q :: q in queued ==> p.rtPriority <= q.rtPriority
    {
      LowestList();
      if wrrNrRunning == 0 {
        return null;
      }
      var idx := FirstBit(active.bitmap);
      assert idx < MAX_PRIO;  // BUG_ON(idx >= MAX_WRR_PRIO) is unreachable
      p := active.queue[idx][0];
    }

    /** task_tick_wrr.  `run_list.prev != run_list.next` holds exactly when the
        list holds a second task, since the list head closes the circle. */
    method TaskTick(t: Task)
      requires Valid() && t in queued
      modifies this`active, this`needResched, t`timeSlice
      ensures Valid()
      ensures var left := (old(t.timeSlice) - 1) % UINT;
              var alone := |old(active).queue[t.rtPriority]| == 1;
              && t.timeSlice == (if left != 0 then left else if t.background then 10 * hz / 1000 else 100 * hz / 1000)
              && (left != 0 || alone ==> active == old(active))
              && (left == 0 && !alone ==> active == Link(old(active), t.rtPriority, t, false))
              && active.bitmap == old(active.bitmap)
              && needResched == (old(needResched) || (left == 0 && !alone))
    {
      t.timeSlice := (t.timeSlice - 1) % UINT;
      assert Key() == old(Key());
      Linked(active, Key(), t);
      if t.timeSlice != 0 {
        return;
      }
      t.timeSlice := Interval(hz, t);
      assert Key() == old(Key());
      assert Represents(active, Key());
      if |active.queue[t.rtPriority]| != 1 {
        RequeueTask(t, false);
        needResched := true;
      }
    }

    // ----- whole runs of one level -----

    ghost function Slices(): map<Task, int>
      reads this`queued, queued`timeSlice
    {
      map t | t in queued :: t.timeSlice
    }

    ghost function Full(): map<Task, int>
      reads this`queued
    {
      map t | t in queued :: Interval(hz, t)
    }

    /** The round robin machine that the lowest occupied level implements. */
    ghost function Level(): Round<Task>
      reads this`active, this`queued, queued`timeSlice
    {
      Round(Lowest(), Slices())
    }

    /** At least two tasks share the lowest level, the head runs, and every slice
        is a positive unsigned int. */
    ghost predicate Rotating()
      reads this`active, this`wrrNrRunning, this`queued, this`curr, this`needResched, queued
    {
      && Valid() && Steady(Level(), Full())
      && |Lowest()| >= 2 && curr == Lowest()[0] && !needResched
    }

    /** The tick handler moves the machine of the lowest level by one tick. */
    method TickHead(t: Task)
      requires Valid() && |Lowest()| >= 2 && t == Lowest()[0] && !needResched
      requires Steady(Level(), Full())
      modifies this`active, this`needResched, t`timeSlice
      ensures Valid() && Level() == Tick(old(Level()), Full())
      ensures !needResched ==> Lowest() == old(Lowest())
    {
      LowestList();
      ghost var list, slices, full := Lowest(), Slices(), Full();
      assert t in list;
      TaskTick(t);
      RotateHead(list);
      assert Slices() == slices[t := t.timeSlice];
      assert Full() == full;
    }

    /** The tick of the current task leaves a queue on which to go on. */
    method TickCurrent()
      requires Rotating()
      modifies this`active, this`needResched, queued`timeSlice
      ensures Valid() && Steady(Level(), Full()) && |Lowest()| >= 2 && (needResched || curr == Lowest()[0])
      ensures Level() == Tick(old(Level()), Full()) && Full() == old(Full())
    {
      ghost var full, level := Full(), Tick(Level(), Full());
      TickSteady(Level(), full);
      TickHead(curr);
      assert Full() == full && Level() == level;
    }

    /** scheduler_tick followed by the pick that a set need_resched flag causes. */
    method SchedulerTick()
      requires Rotating()
      modifies this`active, this`needResched, this`curr, queued`timeSlice
      ensures Rotating()
      ensures Level() == Tick(old(Level()), Full())
    {
      TickCurrent();
      Reschedule();
    }

    method Reschedule()
      requires Valid() && Lowest() != [] && (needResched || curr == Lowest()[0])
      modifies this`needResched, this`curr
      ensures curr == Lowest()[0] && !needResched
    {
      LowestList();
      if needResched {
        curr := PickNext();
        needResched := false;
      }
    }

    /** `n` consecutive ticks without arrivals or departures. */
    method Run(n: nat)
      requires Rotating()
      modifies this`active, this`needResched, this`curr, queued`timeSlice
      ensures Rotating() && Ready(old(Level()), Full())
      ensures Level() == After(old(Level()), Full(), n)
    {
      ghost var start, full := Level(), Full();
      SteadyIsReady(start, full);
      if n > 0 {
        Run(n - 1);
        assert Full() == full;
        SchedulerTick();
        AfterNext(start, full, n - 1);
      }
    }
  }

  /** Every slice in the map is a positive unsigned int. */
  ghost predicate Positive(order: seq<Task>, slice: map<Task, int>) {
    order == [] || (order[0] in slice && 1 <= slice[order[0]] < UINT && Positive(order[1..], slice))
  }

  ghost predicate Steady(s: Round<Task>, full: map<Task, int>) {
    s.order != [] && NoDup(s.order) && Positive(s.order, s.left) && Positive(s.order, full)
  }

  lemma {:induction false} PositiveAt(order: seq<Task>, slice: map<Task, int>)
    requires Positive(order, slice)
    ensures forall t :: t in order ==> t in slice && 1 <= slice[t] < UINT
  {
    if order != [] {
      PositiveAt(order[1..], slice);
    }
  }

  lemma {:induction false} PositiveAll(order: seq<Task>, slice: map<Task, int>)
    requires forall t :: t in order ==> t in slice && 1 <= slice[t] < UINT
    ensures Positive(order, slice)
  {
    if order != [] {
      PositiveAll(order[1..], slice);
    }
  }

  lemma SteadyIsReady(s: Round<Task>, full: map<Task, int>)
    requires Steady(s, full)
    ensures Ready(s, full)
  {
    PositiveAt(s.order, s.left);
    PositiveAt(s.order, full);
  }

  lemma TickSteady(s: Round<Task>, full: map<Task, int>)
    requires Steady(s, full)
    ensures Steady(Tick(s, full), full)
  {
    var r := Tick(s, full);
    SteadyIsReady(s, full);
    TickReady(s, full);
    PositiveAt(s.order, s.left);
    PositiveAt(s.order, full);
    forall t | t in r.order ensures t in s.order {
      assert t in multiset(r.order);
    }
    PositiveAll(r.order, r.left);
    PositiveAll(r.order, full);
  }

  lemma RotateHead(list: seq<Task>)
    requires list != [] && NoDup(list)
    ensures Put(list, list[0], false) == list[1..] + [list[0]]
  {
    assert list == [list[0]] + list[1..];
    WithoutConcat([list[0]], list[1..], {list[0]});
    WithoutAbsent(list[1..], {list[0]});
  }

  ghost function Intervals(order: seq<Task>, hz: nat): map<Task, int> {
    map t | t in order :: Interval(hz, t)
  }

  /** Over any number of full rotations the foreground and background shares are
      in the ratio of the two slices, and that ratio is ten when a hundred
      divides the tick rate. */
  lemma ForegroundRatio(s: Round<Task>, hz: nat, fore: Task, back: Task, rounds: nat)
    requires Refreshed(s, Intervals(s.order, hz))
    requires fore in s.order && back in s.order && !fore.background && back.background
    ensures rounds * Sum(s.order, Intervals(s.order, hz)) >= 0
    ensures var given := t => Charged(s, Intervals(s.order, hz), t, rounds * Sum(s.order, Intervals(s.order, hz)));
            && given(fore) == rounds * (100 * hz / 1000)
            && given(back) == rounds * (10 * hz / 1000)
            && (hz % 100 == 0 ==> given(fore) == 10 * given(back))
  {
    var full := Intervals(s.order, hz);
    FairShares(s, full, rounds, fore);
    FairShares(s, full, rounds, back);
    if hz % 100 == 0 {
      TenToOne(hz);
      TenFold(rounds, ForeSlice(hz), BackSlice(hz));
    }
  }

  lemma TenToOne(hz: nat)
    requires hz % 100 == 0
    ensures ForeSlice(hz) == 10 * BackSlice(hz)
  {
  }

  lemma TenFold(rounds: nat, f: nat, b: nat)
    requires f == 10 * b
    ensures rounds * f == 10 * (rounds * b)
  {
  }
}
