# Verification of the scheduler core

A Dafny model of the hard parts of this repository's kernel scheduler, with proofs.
`dafny verify dfyconfig.toml` checks all of it.

## What is modelled

Every public function is one step of a state machine, as it runs under a run queue lock or
a mutex (see the assumption about the real-time sysctls). Code that updates memory is modelled by classes whose methods
update fields in place; each such method is proved equal to a function on values, and the
theorems are about those functions and their runs. What an operation stores, and where a task
or a group stands after it, is also stated outright on the fields before and after.

- **Hierarchical real-time run queue** (`PrioArray`, `RtHierarchy`, `RtInvariant`,
  `RtChains`, `RtRuns`, `RtRunQueue`): the tree of `rt_rq`s of the configuration with real-time group scheduling.
  A group is queued in its parent at an index derived from what is queued inside it, so
  every change pulls the ancestor chain off and rebuilds it. The invariant holds over every
  run, chain operations are exact, and picking returns a task of globally least priority value.
- **Real-time bandwidth** (`RtBudget`, `RtLoans`, `RtThrottle`, `RtBandwidth`): per-CPU budgets that
  borrow, lend, throttle and refill, in the configuration without group scheduling. Every
  lender lends one n-th of its spare time, runtime is conserved, the greedy reclaim loop cannot
  be left wanting, throttling holds over every run, and consumption is bounded by the number
  of periods.
- **Admission control** (`TaskGroups`, `Ratios`, `RtAdmission`, `RtAdmissionControl`, `CfsQuota`):
  the tree walk with gotos, and on top of it the real-time and CFS quota tests. In every
  reachable configuration runtime per period fits at every level of the tree, and quota per
  period does where no ratio wraps, each up to 2^-20 for a group.
- **Load averages** (`LoadAverage`, `LoadAccounting`, `LoadFolding`): fixed-point powers and
  averages with error bounds in real arithmetic, and the folding of per-CPU deltas through two
  flipping idle counters, with an access to a shared counter as one step. Closing a window
  gives the rounded averages, or after missed windows ones within a stated distance of them.
- **Per-CPU load levels** (`CpuLoad`, `CpuLoadDecay`): convergence of the levels, and the
  accuracy of the decay table and of a whole update.
- **Weighted round robin** (`WrrFairness`, `WrrBasic`, `WrrRmlfq`): whole-run fairness of the
  basic class, and the random level moves of the RMLFQ class.

## Assumptions

- `UNSIGNED_MAX` in `wrr_RMLFQ.c` is a 64-bit `long long`, as section 6.4.4.1 of ISO/IEC
  9899:1999 makes an unsuffixed decimal constant of that size on a 32-bit target. With a
  32-bit unsigned product the thresholds would be different ones.
- HZ is at least 100 where both round robin slices have to be positive (the fairness results
  require positive slices), and at least 2 for the load average.
- The foreground or background test of a task is an arbitrary boolean per task. The random
  draw is an arbitrary 32-bit value.
- Where the width of an unsigned long matters it is 32 bits for admission control and a
  parameter `w`, the number of its values, for load averages and load levels.
- Real-time runtimes and CFS quotas are written in microseconds through a 32-bit long, and the
  real-time sysctls are ints.
- A write of the real-time sysctls and a setting of a group's real-time bandwidth do not overlap.
  `sched_rt_handler` changes the sysctls under a mutex of its own, so a setting accepted before a
  rejected write is rolled back would be tested against the wrong limits.
- `init_cfs_bandwidth` is not part of this model: a new group starts without a CFS limit and with
  any period.
- Budgets: all CPUs share one root domain; times and the sum of all configured runtimes fit a
  signed 64-bit integer; the settings do not change during a run. A clock or a timer overrun
  is an argument of the operation that uses it.
- Hierarchy: the tree does not change during a run, and a task's `prio` and `normal_prio`
  change only while it is off the queue. Linked lists are sequences, and the priority array
  is a value in a field that methods reassign.
- Load accounting: jiffies do not wrap; the update of averages, time and index is one step, and
  so is selecting the idle slot and adding to it.
- A tree of groups is given to visitors as a value; visitors return their new state.

## Where code and promise differ

- Enabling a runqueue that is already enabled loses what it has borrowed
  (`RtBudget.EnableConserves` gives the exact condition, `RtBudget.DoubleEnableLeaks` an
  instance).
- `calc_load_exit_idle` is documented to sync a waking CPU up for the next window; a CPU that wakes before
  the window opens skips that window (`LoadAccounting.WakeSyncsIff` gives the exact condition,
  `LoadAccounting.EarlyWakeSkipsWindow` an instance).
- The sum of `calc_load` can exceed the word; `LoadAverage.CalcLoadExactIff` says exactly when,
  `LoadAverage.CalcLoadCollapses` gives an instance.
- The CFS quota check is documented to keep a child's quota within its parent's. It compares
  32-bit ratios, which wrap from 4096 periods on, and so accepts larger quotas below smaller ones
  (`CfsQuota.WrappedQuotaAccepted` gives an instance). A limit is accepted only below
  settable parents that it exceeds by less than 2^-20, exactly when it is below 4096 periods
  (`Ratios.SafeIff`; for trees and runs `CfsQuota.CfsVerdict` and `CfsQuota.RunWithinRates`).
- Below 4096 periods the ratios are still rounded down to multiples of 2^-20, so that a limit can be
  accepted below a slightly smaller one (`CfsQuota.RoundedQuotaAccepted` gives an instance). It is
  never accepted below a smaller one, of whatever positive period, exactly when its own ratio is not
  rounded (`Ratios.ExactlySafeIff`); for the periods that can be set this is sufficient.

## Model

| member | source | states |
|---|---|---|
| PrioArrays.LinkRepresents | Source Code/Basic/src/kernel/rt.c:1071-1097 | Linking an element at either end of the list of its key and setting that bit keeps the array exact: each list holds exactly the elements of its key, once, and bit i is set exactly when list i is not empty |
| PrioArrays.UnlinkRepresents | Source Code/Basic/src/kernel/rt.c:1099-1111 | Unlinking from the list of the element's key, with the bit cleared exactly when that list becomes empty, keeps the array exact for one element less |
| PrioArrays.FirstIsLeast | Source Code/Basic/src/kernel/rt.c:1329-1344 | The first set bit is the least key of any linked element, its list is not empty, and it is the delimiter exactly when nothing is linked |
| PrioArrays.TotalLength | Source Code/Basic/src/kernel/rt.c:1046-1069 | The lengths of the hundred lists add up to the number of linked elements |
| RtHierarchy.RtRq.Add | Source Code/Basic/src/kernel/rt.c:1046-1057 | The list, bit, running count, cached best priority and boost count updates of an enqueue, in place, are those of the value function the invariant is proved about |
| RtHierarchy.RtRq.Del | Source Code/Basic/src/kernel/rt.c:1060-1069 | The same for a dequeue; its preconditions are what the WARN_ONs test |
| RtInvariant.JoinCounts | Source Code/Basic/src/kernel/rt.c:1046-1057 | Counting an entity in leaves running count, cached priority and boost count equal to what the lists say |
| RtInvariant.LeaveCounts | Source Code/Basic/src/kernel/rt.c:1025-1031 | Counting an entity out does so too, the cached priority is recomputed exactly when it has to be, and none of the warnings of dec_rt_tasks, dec_rt_prio and dec_rt_group can fire |
| RtInvariant.DequeueOneInv | Source Code/Basic/src/kernel/rt.c:1099-1111 | With its ancestors off, taking one entity off keeps the invariant of the whole hierarchy and touches only the rt_rq it was on |
| RtInvariant.EnqueueOneInv | Source Code/Basic/src/kernel/rt.c:1071-1097 | With its ancestors off, linking one entity (or leaving it off when its group is throttled or empty) makes it right again; a group that is linked always has a real-time priority |
| RtChains.DequeueStackInv | Source Code/Basic/src/kernel/rt.c:1117-1130 | Pulling a chain off from the top keeps the invariant for everything else, ends with the whole chain off, and leaves every list the same up to members of the chain: each ancestor leaves the very list it was on |
| RtChains.EnqueueChainInv | Source Code/Basic/src/kernel/rt.c:1132-1137 | Rebuilding a chain from the bottom restores the full invariant and keeps everything off the chain in its order |
| RtChains.RejoinIsEnqueue | Source Code/Basic/src/kernel/rt.c:1139-1149 | The rebuilding loop of a dequeue, which re-adds only non-empty groups, does what the loop of an enqueue does for the ancestors |
| RtChains.EnqueueEntityInv | Source Code/Basic/src/kernel/rt.c:1132-1137 | enqueue_rt_entity keeps the hierarchy invariant, keeps entities off the chain in order, and adds exactly the task to the set of queued tasks |
| RtChains.DequeueEntityInv | Source Code/Basic/src/kernel/rt.c:1139-1149 | dequeue_rt_entity keeps the invariant, keeps entities off the chain in order, and removes exactly the task |
| RtRuns.EnqueuePlaces | Source Code/Basic/src/kernel/rt.c:1132-1137 | After an enqueue every linked entity of the chain stands at the requested end of the list of its present priority, before or behind what was there |
| RtRuns.DequeuePlaces | Source Code/Basic/src/kernel/rt.c:1139-1149 | After a dequeue every ancestor that is still linked stands at the tail of the list of its present priority, behind what was there |
| RtRuns.RequeueTaskInv | Source Code/Basic/src/kernel/rt.c:1187-1210 | A requeue keeps the invariant and everything that is not on the chain |
| RtRuns.RequeuePlaces | Source Code/Basic/src/kernel/rt.c:1187-1210 | A requeue moves every linked entity of the chain to the requested end of its own list |
| RtRuns.ThrottleInv | Source Code/Basic/src/kernel/rt.c:866-887 | Setting the throttled flag and dequeueing the group keeps the invariant and the set of queued tasks |
| RtRuns.ThrottlePlaces | Source Code/Basic/src/kernel/rt.c:866-887 | Throttling an rt_rq that is boosted, the root or not linked sets its flag only. Otherwise its group is off, every ancestor that is still linked has gone to the tail of the list of its present priority, and nothing off the chain changes |
| RtRuns.UnthrottleInv | Source Code/Basic/src/kernel/rt.c:798-822 | Clearing the flag and enqueueing the group does too |
| RtRuns.UnthrottlePlaces | Source Code/Basic/src/kernel/rt.c:419-434 | Unthrottling an rt_rq that is empty, the root or linked clears its flag only. Otherwise its group is linked, it and every linked ancestor stand at the tail of the list of their present priority behind everything that was there, and nothing off the chain changes |
| RtRuns.KickedInv | Source Code/Basic/src/kernel/rt.c:813-824 | Enqueueing a group that is not throttled, as the period timer does for every such queue, changes nothing |
| RtRuns.StepInvariant | Source Code/Basic/src/kernel/rt.c:1154-1210 | Every enqueue, dequeue, requeue, throttle, unthrottle, and priority change of a task that is off the queue keeps the invariant, and changes the set of queued tasks as named |
| RtRuns.RunInvariant | Source Code/Basic/src/kernel/rt.c:1154-1210 | The same over every run; the queued tasks are exactly those the enqueues and dequeues of the run leave |
| RtRuns.BootInvariant | Source Code/Basic/src/kernel/rt.c:60-85 | Freshly initialised run queues satisfy the invariant with nothing queued |
| RtRuns.Counters | Source Code/Basic/src/kernel/rt.c:969-1003 | What the invariant says of one rt_rq: bit i is set exactly when list i is not empty, list i holds exactly the linked entities of priority i, the running count is the total length, and the cached priority is the first set bit |
| RtRuns.BoostCount | Source Code/Basic/src/kernel/rt.c:1014-1031 | The boost count of an rt_rq is the number of linked tasks above their own priority and of linked groups that hold such a task |
| RtRuns.GroupLinked | Source Code/Basic/src/kernel/rt.c:832-842 | A group is linked in its parent exactly when its own rt_rq is not empty and not effectively throttled |
| RtRuns.RootIsLeast | Source Code/Basic/src/kernel/rt.c:832-842 | The root's cached priority is a lower bound for every entity whose enclosing groups are all linked |
| RtRuns.Descent | Source Code/Basic/src/kernel/rt.c:1346-1370 | The descent of a pick terminates, meets no empty bitmap, and ends in a task whose priority is the one cached where it started |
| RtRuns.PickIsLeast | Source Code/Basic/src/kernel/rt.c:1346-1370 | The picked task has the least priority value among all tasks whose enclosing groups are all linked |
| RtRuns.PickHeads | Source Code/Basic/src/kernel/rt.c:1329-1370 | The picked task and every group around it stand at the head of the first non-empty list of their rt_rq, and no other task does: the pick is determined |
| RtRunQueue.RunQueue.constructor | Source Code/Basic/src/kernel/rt.c:60-85 | A run queue over freshly initialised rt_rqs, with nothing queued |
| RtRunQueue.RunQueue.DequeueOne | Source Code/Basic/src/kernel/rt.c:1099-1111 | __dequeue_rt_entity in place: the new heap is exactly the specified one |
| RtRunQueue.RunQueue.EnqueueOne | Source Code/Basic/src/kernel/rt.c:1071-1097 | __enqueue_rt_entity in place, with its early return for an empty or throttled group |
| RtRunQueue.RunQueue.RequeueOne | Source Code/Basic/src/kernel/rt.c:1187-1198 | requeue_rt_entity in place |
| RtRunQueue.RunQueue.ThreadBack | Source Code/Basic/src/kernel/rt.c:1117-1124 | The first loop of dequeue_rt_stack: `back` leads from the root entity down the chain, and nothing else changes |
| RtRunQueue.RunQueue.DequeueStack | Source Code/Basic/src/kernel/rt.c:1117-1130 | Both loops of dequeue_rt_stack: the chain is pulled off as specified |
| RtRunQueue.RunQueue.FollowBack | Source Code/Basic/src/kernel/rt.c:1126-1129 | The second loop: it follows `back` down and takes off every linked entity |
| RtRunQueue.RunQueue.Descend | Source Code/Basic/src/kernel/rt.c:1359-1363 | The loop of _pick_next_task_rt ends in the task of the specified descent |
| RtRunQueue.RunQueue.EnqueueEntity | Source Code/Basic/src/kernel/rt.c:1132-1137 | enqueue_rt_entity: the specified heap, with the invariant and every linked entity of the chain at the requested end of its list |
| RtRunQueue.RunQueue.EnqueueUp | Source Code/Basic/src/kernel/rt.c:1135-1136 | The rebuilding loop of enqueue_rt_entity |
| RtRunQueue.RunQueue.DequeueEntity | Source Code/Basic/src/kernel/rt.c:1139-1149 | dequeue_rt_entity: the specified heap, with the invariant and every linked ancestor at the tail of its list |
| RtRunQueue.RunQueue.RejoinUp | Source Code/Basic/src/kernel/rt.c:1143-1148 | The rebuilding loop of dequeue_rt_entity |
| RtRunQueue.RunQueue.RequeueTask | Source Code/Basic/src/kernel/rt.c:1201-1210 | requeue_task_rt: the loop over the chain |
| RtRunQueue.RunQueue.SchedRtRqEnqueue | Source Code/Basic/src/kernel/rt.c:419-434 | sched_rt_rq_enqueue on queues: a non-empty unlinked group and its linked ancestors go to the tails, in any other case nothing changes |
| RtRunQueue.RunQueue.SchedRtRqDequeue | Source Code/Basic/src/kernel/rt.c:436-445 | sched_rt_rq_dequeue on queues: of a linked group the ancestors that stay linked go to the tails, in any other case nothing changes |
| RtRunQueue.RunQueue.Exceeded | Source Code/Basic/src/kernel/rt.c:866-887 | The queue side of sched_rt_runtime_exceeded keeps the invariant, does what ThrottlePlaces says, and asks for a switch exactly when the group is not boosted |
| RtRunQueue.RunQueue.Replenished | Source Code/Basic/src/kernel/rt.c:798-822 | The queue side of the period timer keeps the invariant and does what UnthrottlePlaces says |
| RtRunQueue.RunQueue.PickNextEntity | Source Code/Basic/src/kernel/rt.c:1329-1344 | pick_next_rt_entity returns the head of the first non-empty list; its BUG_ON is unreachable |
| RtRunQueue.RunQueue.PickNext | Source Code/Basic/src/kernel/rt.c:1346-1370 | _pick_next_task_rt returns null exactly when the root is empty or throttled, and otherwise a task of least priority value among the reachable ones, at the head of the first non-empty list on every level |
| RtBudget.ShareBounds | Source Code/Basic/src/kernel/rt.c:587-596 | One loan is at most the lender's spare time and takes the borrower to at most the period |
| RtLoans.ShareExact | Source Code/Basic/src/kernel/rt.c:587-596 | One loan is one n-th of the spare time, rounded down, unless that would take the borrower past the period, and then what is missing to the period |
| RtLoans.BorrowExact | Source Code/Basic/src/kernel/rt.c:571-606 | Over the whole loop each processor with spare time lends one n-th of it, rounded down, until the period is reached; only the last lender may lend less, those behind it lend nothing, and the borrower gains what the others lose |
| RtLoans.BorrowAbove | Source Code/Basic/src/kernel/rt.c:591-596 | A borrower above the period gives all above it to the first processor with spare time |
| RtLoans.BalanceExact | Source Code/Basic/src/kernel/rt.c:757-771 | Nothing moves unless sharing is on and the time exceeds the runtime; times and flags never change |
| RtLoans.ChargeExact | Source Code/Basic/src/kernel/rt.c:844-935 | A charge adds the time; a processor that is not throttled and below the period borrows if its time exceeds its budget, and is throttled exactly if it still does and a runtime is configured; with none its time is forgotten |
| RtLoans.RefillExact | Source Code/Basic/src/kernel/rt.c:795-804 | While the product fits 64 bits, the time left is what exceeds one budget per overrun, and the flag stays exactly if that is not below the budget |
| RtLoans.TimerOneExact | Source Code/Basic/src/kernel/rt.c:789-804 | On one processor the timer does nothing without time to pay back; it lets a throttled one borrow, pays back one budget per overrun, and clears the flag exactly below the budget |
| RtLoans.ReclaimEach | Source Code/Basic/src/kernel/rt.c:646-674 | Wanting runtime, the greedy loop takes from each finite budget in turn all of it or what is still wanted; giving back, it gives everything to the first one |
| RtLoans.DisableExact | Source Code/Basic/src/kernel/rt.c:615-691 | Disabling settles with the others in that way and makes the budget unlimited; no time and no flag changes |
| RtBudget.BorrowConserves | Source Code/Basic/src/kernel/rt.c:560-610 | The borrowing loop conserves runtime: the finite budgets still sum to their number times the configured runtime, and none is negative |
| RtBudget.ReclaimExact | Source Code/Basic/src/kernel/rt.c:646-674 | The greedy loop ends with exactly the part of `want` that is not available, and gives everything back as soon as one other budget is finite |
| RtBudget.ReclaimMoves | Source Code/Basic/src/kernel/rt.c:646-674 | It moves exactly what it stops wanting, keeps budgets non-negative, and touches no time and no flag |
| RtBudget.NeverLeaks | Source Code/Basic/src/kernel/rt.c:676-681 | BUG_ON(want) is unreachable while runtime is conserved |
| RtBudget.DisableConserves | Source Code/Basic/src/kernel/rt.c:615-691 | Disabling a runqueue conserves runtime for the remaining ones |
| RtBudget.EnableConserves | Source Code/Basic/src/kernel/rt.c:702-724 | An enabled runqueue has the configured runtime, no time used and no flag, and no other one changes; runtime is conserved exactly when it was disabled or held just its configured runtime |
| RtBudget.DoubleEnableLeaks | Source Code/Basic/src/kernel/rt.c:735-755 | A concrete state in which enabling an enabled runqueue, which two callers can do, loses borrowed runtime, after which a disable reaches BUG_ON(want) |
| RtBudget.ChargeConserves | Source Code/Basic/src/kernel/rt.c:844-891 | Charging execution time, with the borrowing it triggers, conserves runtime |
| RtBudget.TimerConserves | Source Code/Basic/src/kernel/rt.c:779-830 | A period tick, with the borrowing it triggers, conserves runtime, whichever CPUs are online and visited |
| RtBudget.RunConserves | Source Code/Basic/src/kernel/rt.c:560-724 | Over every run of charges, period ticks on any set of online CPUs, disables, and enables of disabled runqueues, runtime is conserved and no disable could reach BUG_ON(want) |
| RtBudget.BootConserved | Source Code/Basic/src/kernel/core.c:7252 | The initial budgets are conserved |
| RtThrottle.BorrowFair | Source Code/Basic/src/kernel/rt.c:571-606 | Lending never takes a lender below the time it has used, and borrowing never takes the borrower past the period |
| RtThrottle.ChargeSteady | Source Code/Basic/src/kernel/rt.c:844-891 | After a charge an unthrottled finite runqueue is within its budget or has a budget of a whole period |
| RtThrottle.RefillClears | Source Code/Basic/src/kernel/rt.c:791-804 | The timer clears the flag exactly when the time left is below the budget, and never makes the time negative |
| RtThrottle.TimerSteady | Source Code/Basic/src/kernel/rt.c:779-830 | A period tick keeps the throttling invariant |
| RtThrottle.TimerSkips | Source Code/Basic/src/kernel/rt.c:779-830 | A period tick leaves the time and flag of a processor that it does not visit alone |
| RtThrottle.TimerVisits | Source Code/Basic/src/kernel/rt.c:779-830 | A period tick visits every online processor once, and its time and flag change in that visit only, which does what TimerOneExact says |
| RtThrottle.RunSteady | Source Code/Basic/src/kernel/rt.c:779-935 | The throttling invariant over every run without hotplug |
| RtThrottle.ChargeIsLocal | Source Code/Basic/src/kernel/rt.c:757-771 | With sharing off a charge touches one runqueue only, as the account machine has it |
| RtThrottle.TimerIsLocal | Source Code/Basic/src/kernel/rt.c:779-830 | With sharing off a period tick is one refill per visited runqueue, as the account machine has it |
| RtThrottle.NextSound | Source Code/Basic/src/kernel/rt.c:844-935 | Each step of the account of one runqueue keeps: time charged is at most the time in hand plus one budget per overrun |
| RtThrottle.CumulativeBound | Source Code/Basic/src/kernel/rt.c:757-935 | Over every run, the real-time time charged is at most (1 + timer overruns) budgets plus the time charged between the last check within budget and the switch; nothing is picked while throttled |
| RtThrottle.MovesAreEvents | Source Code/Basic/src/kernel/rt.c:757-935 | A run of charges, periods and scheduling decisions on all CPUs is a run of the budgets without hotplug |
| RtThrottle.AccountFollows | Source Code/Basic/src/kernel/rt.c:757-935 | Through such a run the account of each CPU follows its budget, the time charged to it and the overruns it saw |
| RtThrottle.ConsumptionBound | Source Code/Basic/src/kernel/rt.c:757-935 | Over every run of all CPUs without sharing and hotplug, the time charged to a CPU that starts within its budget is at most (1 + the timer overruns it saw) budgets plus what is charged between the last check within budget and the switch |
| RtThrottle.PromptLatency | Source Code/Basic/src/kernel/rt.c:925-935 | If the task is switched out within k charges of at most t each, that last part is at most k * t |
| RtThrottle.BootSteady | Source Code/Basic/src/kernel/core.c:7252 | The initial budgets satisfy the throttling invariant |
| RtThrottle.FreshIsSound | Source Code/Basic/src/kernel/rt.c:779-830 | The account of a fresh budget is one the bound applies to |
| RtBandwidth.Bandwidth.DoBalanceRuntime | Source Code/Basic/src/kernel/rt.c:560-610 | do_balance_runtime in place: each lender lends at most, and if the period is not reached exactly, one n-th of its spare time, the borrower gains what they lose, and `more` is set exactly when some runqueue had time to lend |
| RtBandwidth.Bandwidth.Lend | Source Code/Basic/src/kernel/rt.c:587-596 | One loan in place |
| RtBandwidth.Bandwidth.BalanceRuntime | Source Code/Basic/src/kernel/rt.c:757-771 | balance_runtime in place: loans if sharing is on and the time exceeds the runtime, and nothing otherwise |
| RtBandwidth.Bandwidth.DisableRuntime | Source Code/Basic/src/kernel/rt.c:615-691 | __disable_runtime in place: every budget is settled as DisableExact says; the assertion in the place of BUG_ON(want) is proved |
| RtBandwidth.Bandwidth.GreedyReclaim | Source Code/Basic/src/kernel/rt.c:646-674 | The greedy loop in place |
| RtBandwidth.Bandwidth.EnableRuntime | Source Code/Basic/src/kernel/rt.c:702-724 | __enable_runtime in place: the configured runtime, no time and no flag, the others unchanged; conserved runtime stays conserved exactly when the runqueue was disabled or held just its configured runtime |
| RtBandwidth.Bandwidth.RuntimeExceeded | Source Code/Basic/src/kernel/rt.c:844-891 | sched_rt_runtime_exceeded in place |
| RtBandwidth.Bandwidth.UpdateCurr | Source Code/Basic/src/kernel/rt.c:897-935 | update_curr_rt in place: it does what ChargeExact says, asks for a switch exactly when an accounted runqueue is throttled, and keeps the throttling invariant |
| RtBandwidth.Bandwidth.PeriodTimer | Source Code/Basic/src/kernel/rt.c:779-830 | do_sched_rt_period_timer in place on the online CPUs, keeping the throttling invariant; it lets the timer stop exactly when no visited CPU has time to pay back or tasks queued, or bandwidth is unlimited and nothing throttled |
| RtBandwidth.Bandwidth.Visit | Source Code/Basic/src/kernel/rt.c:789-804 | What it does on one CPU, as TimerOneExact says: the other CPUs keep their time and flag |
| RtBandwidth.Bandwidth.constructor | Source Code/Basic/src/kernel/core.c:7252 | The initial budgets, conserved |
| TaskGroups.WalkTgTreeFrom | Source Code/Basic/src/kernel/core.c:658-687 | The walk with gotos returns and leaves exactly what the recursive traversal does, from any group and with any two visitors, and terminates on every finite tree |
| TaskGroups.WalkIsTour | Source Code/Basic/src/kernel/core.c:658-687 | The recursive traversal calls the visitors in the order of the tour, stopping at the first result that is not zero and returning it |
| TaskGroups.TourOrder | Source Code/Basic/src/kernel/core.c:658-687 | The tour enters every group once, in pre-order, and leaves every group once, in post-order |
| TaskGroups.Snapshot | Source Code/Basic/src/kernel/core.c:658-687 | What a visitor is given is the tree as it is in memory |
| TaskGroups.CallVisitor | Source Code/Basic/src/kernel/core.c:658-687 | Calling a visitor through the walk is calling it on the tree in memory |
| Ratios.RatioExactIff | Source Code/Basic/src/kernel/core.c:7611-7618 | to_ratio is the quotient of amount * 2^20 by the period, modulo 2^32: it is the exact quotient exactly when the amount is below 4096 periods, and smaller otherwise |
| Ratios.ProperRatio | Source Code/Basic/src/kernel/core.c:7611-7618 | The ratio of a runtime within its period is the exact quotient rounded down, between 0 and one unit |
| Ratios.RatioIsBandwidth | Source Code/Basic/src/kernel/core.c:7611-7618 | The ratio is the real quotient of runtime and period on a scale of 2^20, rounded down |
| Ratios.ExactIsSafe | Source Code/Basic/src/kernel/core.c:8173-8184 | A CFS quota below 4096 periods that is accepted below a parent's limit exceeds it, per period, by less than 2^-20, even if the parent's own ratio wraps |
| Ratios.SafeIff | Source Code/Basic/src/kernel/core.c:8173-8184 | A settable quota is accepted only below settable parents that it exceeds, per period, by less than 2^-20, exactly when it is below 4096 periods |
| Ratios.ExactlySafeIff | Source Code/Basic/src/kernel/core.c:8173-8184 | Of the quotas below 4096 periods exactly those whose ratio is not rounded are never accepted below a parent, of any positive period and a quota below 2^44, that is smaller per period |
| Ratios.RatesCompare | Source Code/Basic/src/kernel/core.c:7611-7618 | Comparing quotients rounded down compares quota per period up to 2^-20, and exactly where the smaller one is not rounded |
| RtAdmission.WalkAccepts | Source Code/Basic/src/kernel/core.c:7701-7716 | __rt_schedulable accepts exactly when every group of the tree passes its own test |
| RtAdmission.SumExact | Source Code/Basic/src/kernel/core.c:7680-7694 | The sum of child ratios that the test forms in an unsigned long never wraps: it is the exact sum after the change |
| RtAdmission.AcceptedFeasible | Source Code/Basic/src/kernel/core.c:7645-7699 | An accepted proposal leaves every group within the global ratio and every set of siblings within its parent's ratio, for a new global ratio too |
| RtAdmission.AddKeeps | Source Code/Basic/src/kernel/core.c:7505-7538 | Adding a group with runtime 0 keeps the tree schedulable |
| RtAdmission.PruneKeeps | Source Code/Basic/src/kernel/core.c:7548-7563 | Removing a leaf keeps the tree schedulable |
| RtAdmission.UnrelatedFit | Source Code/Basic/src/kernel/core.c:7645-7699 | The ratios of pairwise unrelated groups sum to at most the ratio of the group above them, hence to at most the global ratio (in bandwidth: see BandwidthFits) |
| RtAdmission.StepGood | Source Code/Basic/src/kernel/core.c:7718-7887 | Every bandwidth setting, group creation, removal and sysctl write, accepted or rejected, leaves a schedulable configuration |
| RtAdmission.SetStores | Source Code/Basic/src/kernel/core.c:7718-7746 | An accepted setting, which is one after which every group passes its test, stores the period and the runtime in its group; a rejected one stores nothing; no other setting and no sysctl changes |
| RtAdmission.SysctlStores | Source Code/Basic/src/kernel/core.c:7859-7887 | A write of the sysctls is accepted exactly if the period is positive, the runtime negative or within it, and every group passes its test under the new global ratio; then it stores both and the default period, and otherwise nothing |
| RtAdmission.TreeStores | Source Code/Basic/src/kernel/core.c:7505-7563 | A new group gets the default period and no runtime, removing a leaf takes it out, and no setting of another group changes |
| RtAdmission.RunGood | Source Code/Basic/src/kernel/core.c:7718-7887 | So does every run |
| RtAdmission.FeasibleFits | Source Code/Basic/src/kernel/core.c:7645-7699 | In a schedulable tree runtime per period of every group is within the global one, and that of its children together within its own, up to 2^-20 for each group |
| RtAdmission.FittingIsAccepted | Source Code/Basic/src/kernel/core.c:7645-7699 | Conversely a proposal after which runtime per period fits exactly is accepted, unless a group with real-time tasks is left without runtime |
| RtAdmission.AcceptedStarvesNobody | Source Code/Basic/src/kernel/core.c:7669-7670 | An accepted proposal leaves no group with real-time tasks without runtime while bandwidth is limited |
| RtAdmission.BandwidthFits | Source Code/Basic/src/kernel/core.c:7718-7887 | After every run runtime per period fits as above, and that of any pairwise unrelated groups sums to at most the global runtime per period, up to 2^-20 for each of them |
| RtAdmission.BootGood | Source Code/Basic/src/kernel/core.c:7193-7198 | The boot configuration is schedulable |
| RtAdmissionControl.UpdateAbs | Source Code/Basic/src/kernel/core.c:7727-7731 | Writing a group's settings in memory changes the tree in that group only |
| RtAdmissionControl.AddAbs | Source Code/Basic/src/kernel/core.c:7525-7531 | Linking a new group in memory adds it as the first child of its parent and changes nothing else |
| RtAdmissionControl.PruneAbs | Source Code/Basic/src/kernel/core.c:7557-7561 | Unlinking a leaf in memory removes it and changes nothing else |
| RtAdmissionControl.Control.constructor | Source Code/Basic/src/kernel/core.c:7193-7198 | The boot configuration with its literal values, schedulable |
| RtAdmissionControl.Control.SetRtBandwidth | Source Code/Basic/src/kernel/core.c:7718-7746 | tg_set_rt_bandwidth in place: it returns 0 exactly when every group passes its test, and then the group has the period and the runtime; on error nothing changes, no other group ever does, and the configuration is schedulable either way |
| RtAdmissionControl.Control.CreateGroup | Source Code/Basic/src/kernel/core.c:7505-7538 | sched_create_group in place: the default period, no runtime, no CFS limit, first in the list of its parent |
| RtAdmissionControl.Control.DestroyGroup | Source Code/Basic/src/kernel/core.c:7548-7563 | sched_destroy_group in place: the group leaves the list of its parent, the others keep their order |
| RtAdmissionControl.Control.SysctlHandler | Source Code/Basic/src/kernel/core.c:7859-7887 | sched_rt_handler in place: it returns 0 exactly when the values are proper and every group passes its test, and then both sysctls and the default period are stored; on a rejected write both are rolled back |
| RtAdmissionControl.Control.GlobalConstraints | Source Code/Basic/src/kernel/core.c:7794-7818 | sched_rt_global_constraints accepts exactly when the period is positive, the runtime is within it or unlimited, and every group fits the new global ratio |
| CfsQuota.WalkAssigns | Source Code/Basic/src/kernel/core.c:8163-8189 | The walk accepts exactly the acceptable trees, and then leaves each group its own normalised quota if it is limited and its parent's value otherwise |
| CfsQuota.StaleValuesDoNotMatter | Source Code/Basic/src/kernel/core.c:8163-8210 | Neither the verdict nor the quotas left depend on values that an earlier, rejected walk left behind |
| CfsQuota.NearestSuffices | Source Code/Basic/src/kernel/core.c:8173-8184 | Comparing a group's ratio with the parent's inherited quota compares it with the ratio of every limited ancestor; ratios are the 32-bit values of the code |
| CfsQuota.CfsSchedulableExact | Source Code/Basic/src/kernel/core.c:8191-8210 | __cfs_schedulable accepts exactly when no limited group has a ratio above that of a limited ancestor |
| CfsQuota.RatiosBoundRates | Source Code/Basic/src/kernel/core.c:8163-8189 | In an accepted tree no limited group with a quota below 4096 periods has a quotient of quota and period, rounded down to a multiple of 2^-20, above that of any limited ancestor, whether or not ancestors' ratios wrap |
| CfsQuota.RatiosAreRates | Source Code/Basic/src/kernel/core.c:8163-8189 | Where every quota is below 4096 periods, accepting ratios is exactly accepting the quotients rounded down to multiples of 2^-20 |
| CfsQuota.RatesBoundQuotas | Source Code/Basic/src/kernel/core.c:8163-8189 | Where the rounded quotients fit, quota per period fits below every limited ancestor up to 2^-20, and exactly for groups whose quotient is not rounded |
| CfsQuota.QuotasBoundRates | Source Code/Basic/src/kernel/core.c:8163-8189 | Where quota per period fits exactly, the rounded quotients fit |
| CfsQuota.CfsVerdict | Source Code/Basic/src/kernel/core.c:8191-8210 | The verdict of __cfs_schedulable against quota per period: what is accepted fits up to 2^-20 for every group with a quota below 4096 periods; when that holds for all limited groups, all of them fit up to 2^-20, and whatever fits exactly is accepted |
| CfsQuota.WrappedQuotaAccepted | Source Code/Basic/src/kernel/core.c:8163-8189 | A concrete tree in which a quota of 5000 ms per ms is accepted below a parent limited to 1000 ms per ms |
| CfsQuota.RoundedQuotaAccepted | Source Code/Basic/src/kernel/core.c:8163-8189 | A concrete tree of quotas below their periods in which 999999 us per 1000000 us is accepted below a parent limited to the smaller 999998 us per 999999 us |
| CfsQuota.WrittenLimits | Source Code/Basic/src/kernel/core.c:8003-8040 | The ratios tested for a proposal are those of the tree once it is written |
| CfsQuota.SetCfsStores | Source Code/Basic/src/kernel/core.c:8003-8070 | A setting with a period of 1 ms to 1 s and a quota of at least 1 ms, of another group than the root, after which no limited group has a ratio above that of a limited ancestor, stores period and quota in its group; any other stores nothing; no other setting changes |
| CfsQuota.SetCfsKeeps | Source Code/Basic/src/kernel/core.c:8003-8070 | No setting of a quota, accepted or rejected, leaves a limited group with a ratio above that of a limited ancestor |
| CfsQuota.CfsStepGood | Source Code/Basic/src/kernel/core.c:8003-8070 | Every quota setting, group creation and removal keeps the tree linked, its limits settable, and its ratios within those of limited ancestors |
| CfsQuota.RunWithinRates | Source Code/Basic/src/kernel/core.c:8003-8210 | Over every such run no limited group with a quota below 4096 periods gets more quota per period than a limited ancestor, up to 2^-20, and no limited group at all does while all quotas are below 4096 periods |
| CfsQuota.BootCfs | Source Code/Basic/src/kernel/core.c:7248 | The tree at boot is such a tree |
| CfsQuota.WriteAbs | Source Code/Basic/src/kernel/core.c:8036-8038 | Writing a group's CFS settings in memory changes the tree at that group only |
| CfsQuota.CfsControl.CfsSchedulable | Source Code/Basic/src/kernel/core.c:8191-8210 | The walk in memory returns and leaves what the recursive traversal does; while all quotas are below 4096 periods its verdict accepts every tree in which quota per period fits, and only trees in which it fits up to 2^-20 |
| CfsQuota.CfsControl.SetCfsBandwidth | Source Code/Basic/src/kernel/core.c:8003-8070 | tg_set_cfs_bandwidth in place: it returns 0 exactly when the range tests pass and no limited group has a ratio above that of a limited ancestor, and then the group has the period and the quota; on error no setting changes, and no other group's ever does |
| LoadAverage.FixedPowerInt | Source Code/Basic/src/kernel/core.c:2408-2428 | The squaring loop computes the specified power, wrapping products included |
| LoadAverage.WrapIsModulo | Source Code/Basic/src/kernel/core.c:2266-2273 | What an unsigned long keeps of a sum or product is its remainder modulo the number of words |
| LoadAverage.ShiftFloors | Source Code/Basic/src/kernel/core.c:2272 | A right shift by f is the quotient by 2^f, rounded down |
| LoadAverage.PowerNeverWraps | Source Code/Basic/src/kernel/core.c:2408-2428 | For a base up to 2^f every intermediate product is at most 2^(2f), so the result does not depend on the word size, and it is at most 2^f |
| LoadAverage.MulRoundFits | Source Code/Basic/src/kernel/core.c:2415-2424 | A product of two numbers up to 2^f fits, is rounded to the nearest multiple, and stays at most 2^f; the factor 2^f is exact |
| LoadAverage.FixedPowerError | Source Code/Basic/src/kernel/core.c:2408-2428 | The result stays at most 2^f and for n >= 1 differs from the exact power by at most (n - 1) / 2 units in the last place |
| LoadAverage.CalcLoadBetween | Source Code/Basic/src/kernel/core.c:2266-2273 | A step lands between the old load and the active count, so the next one fits as well |
| LoadAverage.CalcLoadMonotone | Source Code/Basic/src/kernel/core.c:2266-2273 | A step is monotone in the load and in the active count |
| LoadAverage.CalcLoadExactIff | Source Code/Basic/src/kernel/core.c:2266-2273 | A step computes the rounded average exactly when its sum fits the word |
| LoadAverage.CalcLoadCollapses | Source Code/Basic/src/kernel/core.c:2266-2273 | A concrete step on 32 bits: a load of 1025 with as many active tasks becomes 1 |
| LoadAverage.CalcLoadClose | Source Code/Basic/src/kernel/core.c:2266-2273 | A step errs by at most a half from the exact weighted average |
| LoadAverage.LoadStepsClose | Source Code/Basic/src/kernel/core.c:2436-2451 | n steps err by at most n / 2 from the exact geometric average |
| LoadAverage.LoadAfterClose | Source Code/Basic/src/kernel/core.c:2453-2459 | The n-step shortcut errs by at most a half and |load - active| (n - 1) / (2 * 2^FSHIFT) |
| LoadAverage.CalcLoadN | Source Code/Basic/src/kernel/core.c:2453-2459 | calc_load_n computes the shortcut |
| LoadAverage.ShortcutAgrees | Source Code/Basic/src/kernel/core.c:2436-2459 | The shortcut and the loop it replaces differ by at most (n + 1) / 2 + |load - active| (n - 1) / (2 * 2^FSHIFT) |
| LoadAverage.CatchUpAgrees | Source Code/Basic/src/kernel/core.c:2526-2538 | One step followed by the shortcut over n missed windows differs from n + 1 steps by at most (n + 1) / 2 + |load - active| (n - 1) / (2 * 2^FSHIFT) |
| LoadAccounting.StepConserves | Source Code/Basic/src/kernel/core.c:2248-2391 | One atomic access keeps: global count, both idle slots and what is in flight sum to the accounted counts of all CPUs |
| LoadAccounting.RunConserves | Source Code/Basic/src/kernel/core.c:2248-2557 | The same over every run of ticks, count changes, samples, idle entries and exits, folds, window updates, and CPUs coming and going |
| LoadAccounting.BootConserved | Source Code/Basic/src/kernel/core.c:7221-7222 | It holds at boot |
| LoadAccounting.SettledIsExact | Source Code/Basic/src/kernel/core.c:2248-2557 | Once every CPU is accounted and nothing is in flight, the counters hold exactly the number of active tasks of the system |
| LoadAccounting.StepMatches | Source Code/Basic/src/kernel/core.c:2321-2391 | The two slots and the index refine a ledger without indices in every step; a fold takes exactly what is due in its window |
| LoadAccounting.RunMatches | Source Code/Basic/src/kernel/core.c:2321-2391 | The same over every run: no idle delta is lost, or taken a window early |
| LoadAccounting.BootMatches | Source Code/Basic/src/kernel/core.c:2318-2319 | The refinement holds at boot |
| LoadAccounting.WindowWriteSurvives | Source Code/Basic/src/kernel/core.c:2321-2344 | A delta written inside the window goes to a slot that no fold of that window reads, and to the slot read after the flip |
| LoadAccounting.AdvanceCatchesUp | Source Code/Basic/src/kernel/core.c:2470-2500 | The catch-up moves the update time by whole periods, to the first window that is still open or ahead |
| LoadAccounting.CatchUpTime | Source Code/Basic/src/kernel/core.c:2470-2489 | The update time moves by n + 1 periods, to the one window that is not completed yet and not more than one period ahead |
| LoadAccounting.NextLoadAveraged | Source Code/Basic/src/kernel/core.c:2526-2538 | Where its sums fit the word, an average becomes the weighted mean with the factors 1884, 2014 or 2037 of 2048, rounded to the nearest, if the window is closed on time, and after n missed windows what n + 1 such steps give, up to the slip of CatchUpAgrees |
| LoadAccounting.NextLoadsAveraged | Source Code/Basic/src/kernel/core.c:2526-2538 | All three averages do, with 2048 times the number of accounted tasks, or 0 if it is negative, as the active count |
| LoadAccounting.AdvanceAverages | Source Code/Basic/src/kernel/core.c:2526-2538 | The step that closes a window does that to the averages and moves the update time by the n + 1 windows it averages in |
| LoadAccounting.WakeSyncsIff | Source Code/Basic/src/kernel/core.c:2362-2380 | Waking a CPU whose sample is overdue puts its next sample at the first window to open exactly when it wakes inside the window: then one period after the update time, later at the update time itself |
| LoadAccounting.SleepThroughWindow | Source Code/Basic/src/kernel/core.c:2346-2539 | From every boot state a run in which a CPU goes idle and the first window is completed without it |
| LoadAccounting.EarlyWakeSkipsWindow | Source Code/Basic/src/kernel/core.c:2362-2380 | From every boot state a run to any tick of an open window in which an awake CPU with an unaccounted task may not be sampled, because it woke before that window opened |
| LoadAccounting.LoadsBelowPeak | Source Code/Basic/src/kernel/core.c:2512-2539 | Over every run the averages never exceed the highest accounted number of tasks, however many windows are caught up at once |
| LoadFolding.RunQueue.FoldActive | Source Code/Basic/src/kernel/core.c:2248-2261 | calc_load_fold_active in place: the difference is returned once, and accounted |
| LoadFolding.ClosedExact | Source Code/Basic/src/kernel/core.c:2512-2539 | What closing a window does to counts, slots, index, time and averages, stated on the state before and after |
| LoadFolding.Accounts.constructor | Source Code/Basic/src/kernel/core.c:7315 | The global counters at boot |
| LoadFolding.Accounts.WriteIdx | Source Code/Basic/src/kernel/core.c:2321-2339 | calc_load_write_idx |
| LoadFolding.Accounts.Tick | Source Code/Basic/src/kernel/core.c:2321-2339 | A tick of the clock is a legal step |
| LoadFolding.Accounts.EnterIdle | Source Code/Basic/src/kernel/core.c:2346-2360 | calc_load_enter_idle in place is the run fold, deliver: the difference goes to the slot of the current window before it opens and to the other one from then on |
| LoadFolding.Accounts.ExitIdle | Source Code/Basic/src/kernel/core.c:2362-2380 | calc_load_exit_idle in place is a legal step, with the three cases of the next sample time stated |
| LoadFolding.Accounts.AccountActive | Source Code/Basic/src/kernel/core.c:2545-2557 | calc_load_account_active in place does nothing before the CPU's sample time and is the run fold, deliver after it: the difference is in the global count and the next sample is one period on |
| LoadFolding.Accounts.FoldIdle | Source Code/Basic/src/kernel/core.c:2382-2391 | calc_load_fold_idle in place empties the read slot only |
| LoadFolding.Accounts.FoldPending | Source Code/Basic/src/kernel/core.c:2519-2524 | The deltas of the read slot go to the global count |
| LoadFolding.Accounts.SkipLoads | Source Code/Basic/src/kernel/core.c:2484-2486 | The three averages after n missed windows |
| LoadFolding.Accounts.CloseWindow | Source Code/Basic/src/kernel/core.c:2519-2538 | The body of calc_global_load after its test |
| LoadFolding.Accounts.UpdateLoads | Source Code/Basic/src/kernel/core.c:2529-2531 | The three averages after one punctual step, each the weighted mean rounded to the nearest where its sum fits the word |
| LoadFolding.Accounts.CatchUp | Source Code/Basic/src/kernel/core.c:2470-2489 | The catch-up part of calc_global_nohz in place |
| LoadFolding.Accounts.NewWindow | Source Code/Basic/src/kernel/core.c:2526-2538 | Averages, time and index after a fold |
| LoadFolding.Accounts.GlobalLoad | Source Code/Basic/src/kernel/core.c:2512-2539 | calc_global_load in place does nothing before the end of the window and is the run drain, collect, advance after it: the pending deltas are in the global count, the other slot is read next, the update time has caught up, and the averages are the rounded means or, after missed windows, within the slip of the steps |
| LoadFolding.Accounts.Prepare | Source Code/Basic/src/kernel/core.c:5567-5569 | The next sample of a CPU that comes up is at the global update time, a legal step |
| LoadFolding.Accounts.Remove | Source Code/Basic/src/kernel/core.c:5298-5302 | calc_global_load_remove in place is a legal step that takes the accounted count out |
| CpuLoad.DecayLoadMissed | Source Code/Basic/src/kernel/core.c:2606-2628 | The loop over the bits of the missed ticks computes the specified decay and never leaves the table |
| CpuLoad.DecayBelow | Source Code/Basic/src/kernel/core.c:2606-2628 | Decay never increases a load, even where a product wraps |
| CpuLoad.LoadLevels.constructor | Source Code/Basic/src/kernel/core.c:7263-7265 | All levels start at zero |
| CpuLoad.LoadLevels.Update | Source Code/Basic/src/kernel/core.c:2635-2673 | update_cpu_load in place: every level is decayed and blended as specified, at most once per tick; level 0 is the weight, and without missed ticks level i closes 1/2^i of its distance |
| CpuLoad.BlendToward | Source Code/Basic/src/kernel/core.c:2658-2669 | A level moves strictly toward the weight and never past it |
| CpuLoad.BlendClosesGap | Source Code/Basic/src/kernel/core.c:2653-2670 | In one tick level i closes 1/2^i of its distance to the weight, the distance left being rounded down, and stays on its side |
| CpuLoad.Converges | Source Code/Basic/src/kernel/core.c:2653-2670 | With a constant weight a level reaches it exactly within |level - weight| consecutive ticks and stays there |
| CpuLoad.UpdateBounds | Source Code/Basic/src/kernel/core.c:2653-2670 | However many ticks were missed, a level ends between its decayed value and the weight |
| CpuLoadDecay.TableFloors | Source Code/Basic/src/kernel/core.c:2590-2599 | Every entry of the table is the exact factor of its power-of-two ticks on the 128-point scale, rounded down to an integer |
| CpuLoadDecay.ZeroTicks | Source Code/Basic/src/kernel/core.c:2591-2592 | After degrade_zero_ticks the exact decay leaves at most one part in 128 |
| CpuLoadDecay.DegradeError | Source Code/Basic/src/kernel/core.c:2621-2622 | One use of the table loses at most one part in 128 of the level, and rounding |
| CpuLoadDecay.DecayAccurate | Source Code/Basic/src/kernel/core.c:2572-2628 | The decay over any number of missed ticks never exceeds the exact decay and falls short of it by at most 7 (load / 128 + 1) |
| CpuLoadDecay.BlendClose | Source Code/Basic/src/kernel/core.c:2653-2670 | A blend is the weighted mean of level and weight up to less than one |
| CpuLoadDecay.UpdateAccurate | Source Code/Basic/src/kernel/core.c:2653-2670 | A whole update after any number of missed ticks gives the exact mean of the weight and of the exactly decayed level, up to one above it and 7 (load / 128 + 1) + 1 below it |
| WrrFairness.HeadRuns | Source Code/Basic/src/kernel/wrr_basic.c:227-259 | The head keeps the processor for exactly what is left of its slice, is the only task charged, and is then refilled at the tail |
| WrrFairness.Rotation | Source Code/Basic/src/kernel/wrr_basic.c:149-259 | After exactly the remaining slices of the first k tasks the queue has rotated by k, with those tasks refilled |
| WrrFairness.WaitingTime | Source Code/Basic/src/kernel/wrr_basic.c:149-259 | The task at position k first runs after exactly the sum of the remaining slices ahead of it |
| WrrFairness.FullRotation | Source Code/Basic/src/kernel/wrr_basic.c:149-259 | A full rotation restores the order and refills every slice |
| WrrFairness.RefreshedRotation | Source Code/Basic/src/kernel/wrr_basic.c:149-259 | From then on a rotation ends in the state it started from and gives each task exactly its slice |
| WrrFairness.FairShares | Source Code/Basic/src/kernel/wrr_basic.c:149-259 | Any number N of such rotations gives each task exactly N slices |
| WrrBasic.ForegroundRatio | Source Code/Basic/src/linux/sched.h:1272-1273 | N rotations give a foreground task N slices of 100 HZ / 1000 ticks and a background task N of 10 HZ / 1000, a ratio of ten when 100 divides HZ |
| WrrBasic.WrrRq.constructor | Source Code/Basic/src/kernel/core.c:7085-7100 | init_wrr_rq: a hundred empty lists, and the delimiter bit set |
| WrrBasic.WrrRq.EnqueueEntity | Source Code/Basic/src/kernel/wrr_basic.c:112-129 | enqueue_wrr_entity in place keeps the structure and adds exactly the task, at the requested end of its list |
| WrrBasic.WrrRq.DequeueEntity | Source Code/Basic/src/kernel/wrr_basic.c:78-92 | dequeue_wrr_entity in place keeps the structure and removes exactly the task; its warning cannot fire |
| WrrBasic.WrrRq.RequeueTask | Source Code/Basic/src/kernel/wrr_basic.c:149-162 | requeue_task_wrr in place moves the task to the requested end of its own list and leaves the bitmap alone |
| WrrBasic.WrrRq.PickNext | Source Code/Basic/src/kernel/wrr_basic.c:183-210 | pick_next_task_wrr returns null exactly when nothing is queued, and otherwise the head of the lowest set level |
| WrrBasic.WrrRq.TaskTick | Source Code/Basic/src/kernel/wrr_basic.c:227-259 | task_tick_wrr in place: slice, refill, requeue and rescheduling flag, for a lone task too |
| WrrBasic.WrrRq.TickCurrent | Source Code/Basic/src/kernel/wrr_basic.c:227-259 | The tick of the current task moves the round robin machine by one tick and leaves a queue to go on with |
| WrrBasic.WrrRq.SchedulerTick | Source Code/Basic/src/kernel/core.c:3164-3190 | A tick and the pick it causes act on the lowest level as the round robin machine does |
| WrrBasic.WrrRq.Run | Source Code/Basic/src/kernel/core.c:3164-3190 | So do any number of ticks without arrivals or departures |
| WrrBasic.WrrRq.RunningIsTotal | Source Code/Basic/src/kernel/wrr_basic.c:112-129 | wrr_nr_running is the total length of the lists |
| WrrRmlfq.MoveInRange | Source Code/Bonus/RevisedWRR/wrr_RMLFQ.c:163-229 | For every draw the counter stays in 1..3, no product wraps in 64 bits, and the level stays in 0..99 and in its residue class modulo 10; at 3 the task does not stay |
| WrrRmlfq.MoveExact | Source Code/Bonus/RevisedWRR/wrr_RMLFQ.c:182-226 | A draw below times + prio / 20 tenths of the range moves the task ten levels down, one above 5 - times + prio / 20 tenths ten levels up, each with the counter at 1 and only as far as the range goes; any other draw only counts |
| WrrRmlfq.MoveMonotone | Source Code/Bonus/RevisedWRR/wrr_RMLFQ.c:185-203 | A greater draw never leaves the task on a lower level |
| WrrRmlfq.Fastest | Source Code/Bonus/RevisedWRR/wrr_RMLFQ.c:185-227 | Over n requeues a task falls by at most 10 n levels, and by that many, as far as its residue class goes, if every draw is 0 |
| WrrRmlfq.RunInRange | Source Code/Bonus/RevisedWRR/wrr_RMLFQ.c:163-229 | The same over every run of draws |
| WrrRmlfq.StaysAtMostTwice | Source Code/Bonus/RevisedWRR/wrr_RMLFQ.c:185-227 | Starting from `times` 1, of any three consecutive requeues at least one leaves the stay branch |
| WrrRmlfq.StayInterval | Source Code/Bonus/RevisedWRR/wrr_RMLFQ.c:185-227 | The thresholds approach each other with the counter and cross at 3: a draw that stays exists exactly below 3, and both moves are always possible |
| WrrRmlfq.MoveEntry | Source Code/Bonus/RevisedWRR/wrr_RMLFQ.c:163-229 | The list and bitmap updates of one move, in the order of the code |
| WrrRmlfq.RefillExact | Source Code/Bonus/RevisedWRR/wrr_RMLFQ.c:312-317 | A background slice is 10 HZ / 1000 ticks at every level; a foreground slice is 100 HZ / 1000 ticks for each stage of ten levels, the first included |
| WrrRmlfq.WrrRq.constructor | Source Code/Bonus/RevisedWRR/wrr_RMLFQ.c:127-144 | An empty run queue |
| WrrRmlfq.WrrRq.EnqueueEntity | Source Code/Bonus/RevisedWRR/wrr_RMLFQ.c:127-144 | enqueue_wrr_entity in place keeps the structure and adds exactly the task, at the requested end of list 99 - rt_priority |
| WrrRmlfq.WrrRq.DequeueEntity | Source Code/Bonus/RevisedWRR/wrr_RMLFQ.c:93-107 | dequeue_wrr_entity in place keeps the structure and removes exactly the task |
| WrrRmlfq.WrrRq.Relink | Source Code/Bonus/RevisedWRR/wrr_RMLFQ.c:187-226 | Moving a queued task between lists while rewriting its priority keeps every queued task on the list of its own level |
| WrrRmlfq.WrrRq.MoveToList | Source Code/Bonus/RevisedWRR/wrr_RMLFQ.c:187-226 | The lists and the bitmap after the move represent the new levels |
| WrrRmlfq.WrrRq.SetPlace | Source Code/Bonus/RevisedWRR/wrr_RMLFQ.c:187-226 | Rewriting a task's priority and counter moves that task only |
| WrrRmlfq.WrrRq.RequeueTask | Source Code/Bonus/RevisedWRR/wrr_RMLFQ.c:163-229 | requeue_task_wrr in place for every draw: bit i is set exactly when list i is not empty, the set and number of queued tasks are kept, the level and the counter after the draw are stated outright, and the task stands at the requested end of the list of its new level |
| WrrRmlfq.WrrRq.YieldTask | Source Code/Bonus/RevisedWRR/wrr_RMLFQ.c:231-235 | yield_task_wrr requeues the running task |
| WrrRmlfq.WrrRq.PickNext | Source Code/Bonus/RevisedWRR/wrr_RMLFQ.c:250-279 | pick_next_task_wrr returns a task of the least occupied level |
| WrrRmlfq.WrrRq.CheckPreempt | Source Code/Bonus/RevisedWRR/wrr_RMLFQ.c:240-248 | check_preempt_curr_wrr asks for a switch exactly when the woken task's level is lower, and then the running task is not the next pick |
| WrrRmlfq.WrrRq.TaskTick | Source Code/Bonus/RevisedWRR/wrr_RMLFQ.c:296-323 | task_tick_wrr in place: the slice is refilled, with its length in ticks stated, for the level before the requeue |
| WrrRmlfq.WrrRq.RunningIsTotal | Source Code/Bonus/RevisedWRR/wrr_RMLFQ.c:127-144 | wrr_nr_running is the total length of the lists |
| WrrRmlfq.RequeueMany | Source Code/Bonus/RevisedWRR/wrr_RMLFQ.c:163-229 | Over any run of requeues the structure, the queued tasks and every residue class are kept, and each task ends where its own draws take it |

## Left out

- LoadAverage.FixedPowerError: states the exact value as 2^f times the n-th power of the fraction u with 2^f * u = x, which is x^n / 2^(f (n - 1)).
- LoadAverage.CalcLoadN: the number of steps is an unbounded natural number, while the code passes it as a 32-bit unsigned int.
- LoadAccounting.RunMatches: does not model another access between selecting the idle slot and adding to it, or between the update of time and index.
- RtThrottle.ConsumptionBound: is about runs with runtime sharing off and a runtime strictly between 0 and the period; what is charged between the last check within budget and the switch is a parameter.
- WrrRmlfq.WrrRq.TaskTick: does not claim that the refilled slice matches the level after the move, because the code computes it before the move.
- RtAdmissionControl.Control.SetRtBandwidth: does not model the reset of the per-CPU budgets that follows an accepted setting.
- RtAdmissionControl.Control.DestroyGroup: is called for groups without children, as the control group core guarantees.
- `wrr_group.c`: where a group entity is queued is not decided by that code.
- Hotplug inside the hierarchy: enabling clears the throttled flag without requeueing the group.
- Preemption in `wrr_basic.c`: the preemption test and the pick order point in opposite directions.
- CPU masks, migration, pushable tasks, cpupri, plists and scheduling domains.
- Starting and reprogramming the period timer.
- Leaf lists, execution statistics, clocks and tracing.
- The CFS and idle classes, autogroups, control group plumbing, permission checks and memory allocation failures.
- Locks, memory barriers, interrupts and context switches.
- Benchmarks, test programs, makefiles and data files.
