/** CFS quota checking over the tree of task groups (core.c): what the walk of
    __cfs_schedulable accepts and what it leaves in hierarchal_quota. */
module CfsQuota {
  import opened SchedConstants
  import opened Ratios
  import opened TaskGroups
  import opened RtAdmission

  const NSEC_PER_MSEC := 1_000_000
  const NSEC_PER_SEC := 1_000_000_000

  /** RUNTIME_INF read as an s64, the value of an absent limit. */
  const NO_LIMIT := -1

  /** hierarchal_quota of every group. */
  type Quotas = map<TaskGroup, int>

  /** struct cfs_schedulable_data, in microseconds; the quota of a proposal
      without a limit is RUNTIME_INF. */
  datatype CfsProposal = CfsProposal(tg: TaskGroup?, period: int, quota: int)

  /** The period and the quota that normalize_cfs_quota looks at, in microseconds. */
  function QuotaPeriod(t: Tree, d: CfsProposal): int {
    if t.tg == d.tg then d.period else t.settings.cfsPeriod / NSEC_PER_USEC
  }

  function Quota(t: Tree, d: CfsProposal): int {
    if t.tg == d.tg then d.quota
    else if t.settings.cfsQuota == RUNTIME_INF then RUNTIME_INF
    else t.settings.cfsQuota / NSEC_PER_USEC
  }

  /** normalize_cfs_quota as an s64: the ratio of quota to period, if limited.  A
      period below a microsecond, which no caller can set, counts as no limit
      where the code would divide by zero. */
  function Limit(t: Tree, d: CfsProposal): int {
    if Quota(t, d) == RUNTIME_INF || QuotaPeriod(t, d) <= 0 then NO_LIMIT else ToRatio(QuotaPeriod(t, d), Quota(t, d))
  }

  function Get(q: Quotas, tg: TaskGroup?): int {
    if tg != null && tg in q then q[tg] else NO_LIMIT
  }

  /** tg_cfs_schedulable_down. */
  function Down(t: Tree, q: Quotas, d: CfsProposal): (int, Quotas) {
    if t.parent == null then (0, q[t.tg := NO_LIMIT])
    else
      var quota, parentQuota := Limit(t, d), Get(q, t.parent);
      if quota == NO_LIMIT then (0, q[t.tg := parentQuota])
      else if parentQuota != NO_LIMIT && quota > parentQuota then (EINVAL, q)
      else (0, q[t.tg := quota])
  }

  function DownVisitor(d: CfsProposal): Visitor<Quotas> {
    (t: Tree, q: Quotas) => Down(t, q, d)
  }

  function UpVisitor(): Visitor<Quotas> {
    (t: Tree, q: Quotas) => (0, q)
  }

  // ----- what the walk must establish -----

  /** The quota a group gets from its own limit and its parent's quota `above`. */
  function Effective(t: Tree, d: CfsProposal, above: int): int {
    if t.parent == null then NO_LIMIT else if Limit(t, d) == NO_LIMIT then above else Limit(t, d)
  }

  ghost function Assigned(t: Tree, d: CfsProposal, above: int): Quotas
    decreases t, 1
  {
    map[t.tg := Effective(t, d, above)] + AssignedAll(t.children, d, Effective(t, d, above))
  }

  ghost function AssignedAll(ts: seq<Tree>, d: CfsProposal, above: int): Quotas
    decreases ts, 0
  {
    if ts == [] then map[] else Assigned(ts[0], d, above) + AssignedAll(ts[1..], d, above)
  }

  ghost predicate Accepted(t: Tree, d: CfsProposal, above: int)
    decreases t, 1
  {
    && (t.parent == null || Limit(t, d) == NO_LIMIT || above == NO_LIMIT || Limit(t, d) <= above)
    && AcceptedAll(t.children, d, Effective(t, d, above))
  }

  ghost predicate AcceptedAll(ts: seq<Tree>, d: CfsProposal, above: int)
    decreases ts, 0
  {
    ts == [] || (Accepted(ts[0], d, above) && AcceptedAll(ts[1..], d, above))
  }

  /** Parent pointers are right and no group lies below itself. */
  ghost predicate Linked(t: Tree)
    decreases t, 1
  {
    t.tg !in GroupsOf(t.children) && LinkedAll(t.children, t.tg)
  }

  ghost predicate LinkedAll(ts: seq<Tree>, parent: TaskGroup)
    decreases ts, 0
  {
    ts == [] || (ts[0].parent == parent && Linked(ts[0]) && LinkedAll(ts[1..], parent))
  }

  /** The walk accepts exactly the acceptable trees, and then leaves every group
      its own limit if it has one and its parent's quota otherwise.  Nothing
      depends on the quotas that were there before, for the parent's quota is
      rewritten before any child looks at it. */
  lemma {:induction false} WalkAssigns(t: Tree, d: CfsProposal, q: Quotas, above: int)
    requires Linked(t) && (t.parent != null ==> Get(q, t.parent) == above && t.parent !in Groups(t))
    ensures var r := Walk(t, DownVisitor(d), UpVisitor(), q);
            && r.0 == (if Accepted(t, d, above) then 0 else EINVAL)
            && (Accepted(t, d, above) ==> r.1 == q + Assigned(t, d, above))
    decreases t, 1
  {
    var e := Effective(t, d, above);
    var r := Down(t, q, d);
    if r.0 == 0 {
      assert r.1 == q[t.tg := e];
      WalkAssignsAll(t.children, d, r.1, t.tg, e);
      assert q[t.tg := e] + AssignedAll(t.children, d, e) == q + Assigned(t, d, above);
    }
  }

  lemma {:induction false} WalkAssignsAll(ts: seq<Tree>, d: CfsProposal, q: Quotas, parent: TaskGroup, above: int)
    requires LinkedAll(ts, parent) && parent !in GroupsOf(ts) && Get(q, parent) == above
    ensures var r := WalkAll(ts, DownVisitor(d), UpVisitor(), q);
            && r.0 == (if AcceptedAll(ts, d, above) then 0 else EINVAL)
            && (AcceptedAll(ts, d, above) ==> r.1 == q + AssignedAll(ts, d, above))
    decreases ts, 0
  {
    if ts != [] {
      WalkAssigns(ts[0], d, q, above);
      if Accepted(ts[0], d, above) {
        AssignedKeys(ts[0], d, above);
        WalkAssignsAll(ts[1..], d, q + Assigned(ts[0], d, above), parent, above);
        MergeAssociates(q, Assigned(ts[0], d, above), AssignedAll(ts[1..], d, above));
      }
    }
  }

  lemma MergeAssociates(a: Quotas, b: Quotas, c: Quotas)
    ensures (a + b) + c == a + (b + c)
  {
  }

  lemma {:induction false} AssignedKeys(t: Tree, d: CfsProposal, above: int)
    ensures Assigned(t, d, above).Keys == Groups(t)
    decreases t, 1
  {
    AssignedKeysAll(t.children, d, Effective(t, d, above));
  }

  lemma {:induction false} AssignedKeysAll(ts: seq<Tree>, d: CfsProposal, above: int)
    ensures AssignedAll(ts, d, above).Keys == GroupsOf(ts)
    decreases ts, 0
  {
    if ts != [] {
      AssignedKeys(ts[0], d, above);
      AssignedKeysAll(ts[1..], d, above);
    }
  }

  /** __cfs_schedulable on the whole tree: neither its verdict nor, if it accepts,
      any quota it leaves in a group depends on what an earlier walk left. */
  lemma StaleValuesDoNotMatter(t: Tree, d: CfsProposal, p: Quotas, q: Quotas)
    requires Linked(t) && t.parent == null
    ensures var a, b := Walk(t, DownVisitor(d), UpVisitor(), p), Walk(t, DownVisitor(d), UpVisitor(), q);
            a.0 == b.0 && (a.0 == 0 ==> forall g :: g in Groups(t) ==> g in a.1 && g in b.1 && a.1[g] == b.1[g])
  {
    WalkAssigns(t, d, p, NO_LIMIT);
    WalkAssigns(t, d, q, NO_LIMIT);
    AssignedKeys(t, d, NO_LIMIT);
  }

  // ----- limits against all ancestors -----

  /** No limited group has a ratio above that of a limited ancestor, `above` being
      the ratios of those outside the tree.  The root's own limit does not count. */
  ghost predicate WithinAncestors(t: Tree, d: CfsProposal, above: seq<int>)
    decreases t, 1
  {
    var limited := t.parent != null && Limit(t, d) != NO_LIMIT;
    && (limited ==> forall b :: b in above ==> Limit(t, d) <= b)
    && WithinAncestorsAll(t.children, d, if limited then above + [Limit(t, d)] else above)
  }

  ghost predicate WithinAncestorsAll(ts: seq<Tree>, d: CfsProposal, above: seq<int>)
    decreases ts, 0
  {
    ts == [] || (WithinAncestors(ts[0], d, above) && WithinAncestorsAll(ts[1..], d, above))
  }

  /** The nearest limit is the least of the limits above. */
  ghost predicate Nearest(above: seq<int>, limit: int) {
    if limit == NO_LIMIT then above == [] else limit in above && forall b :: b in above ==> limit <= b
  }

  /** Comparing each ratio with the parent's quota alone compares it with that of
      every limited ancestor. */
  lemma {:induction false} NearestSuffices(t: Tree, d: CfsProposal, above: seq<int>, limit: int)
    requires Nearest(above, limit) && Linked(t) && (t.parent == null ==> above == [])
    ensures Accepted(t, d, limit) <==> WithinAncestors(t, d, above)
    decreases t, 1
  {
    if t.parent != null && Limit(t, d) != NO_LIMIT {
      if forall b :: b in above ==> Limit(t, d) <= b {
        NearestSufficesAll(t.children, d, above + [Limit(t, d)], Limit(t, d), t.tg);
      }
    } else {
      NearestSufficesAll(t.children, d, above, limit, t.tg);
    }
  }

  lemma {:induction false} NearestSufficesAll(ts: seq<Tree>, d: CfsProposal, above: seq<int>, limit: int, parent: TaskGroup)
    requires Nearest(above, limit) && LinkedAll(ts, parent)
    ensures AcceptedAll(ts, d, limit) <==> WithinAncestorsAll(ts, d, above)
    decreases ts, 0
  {
    if ts != [] {
      NearestSuffices(ts[0], d, above, limit);
      NearestSufficesAll(ts[1..], d, above, limit, parent);
    }
  }

  /** The verdict of the whole walk. */
  lemma CfsSchedulableExact(t: Tree, d: CfsProposal, q: Quotas)
    requires Linked(t) && t.parent == null
    ensures Walk(t, DownVisitor(d), UpVisitor(), q).0 == 0 <==> WithinAncestors(t, d, [])
  {
    WalkAssigns(t, d, q, NO_LIMIT);
    NearestSuffices(t, d, [], NO_LIMIT);
  }

  // ----- accepted settings -----

  const NOTHING := CfsProposal(null, 0, RUNTIME_INF)

  /** tg_set_cfs_bandwidth, in nanoseconds: the new settings if it succeeds. */
  ghost function SetCfs(t: Tree, tg: TaskGroup, period: int, quota: int, q: Quotas): Tree {
    if tg == t.tg || quota < NSEC_PER_MSEC || period < NSEC_PER_MSEC || period > NSEC_PER_SEC then t
    else if Walk(t, DownVisitor(Proposed(tg, period, quota)), UpVisitor(), q).0 != 0 then t
    else Write(t, tg, period, quota)
  }

  /** The division of __cfs_schedulable, left out for an absent limit. */
  function Proposed(tg: TaskGroup, period: int, quota: int): CfsProposal {
    if quota != RUNTIME_INF then CfsProposal(tg, period / NSEC_PER_USEC, quota / NSEC_PER_USEC)
    else CfsProposal(tg, period, quota)
  }

  ghost function Write(t: Tree, tg: TaskGroup, period: int, quota: int): Tree
    decreases t, 1
  {
    Node(t.tg, t.parent, if t.tg == tg then t.settings.(cfsPeriod := period, cfsQuota := quota) else t.settings,
         WriteAll(t.children, tg, period, quota))
  }

  ghost function WriteAll(ts: seq<Tree>, tg: TaskGroup, period: int, quota: int): seq<Tree>
    decreases ts, 0
  {
    if ts == [] then [] else [Write(ts[0], tg, period, quota)] + WriteAll(ts[1..], tg, period, quota)
  }

  lemma {:induction false} WrittenLimits(t: Tree, tg: TaskGroup, period: int, quota: int, above: seq<int>)
    requires period >= NSEC_PER_USEC && 0 <= quota <= RUNTIME_INF
    ensures WithinAncestors(Write(t, tg, period, quota), NOTHING, above) <==>
            WithinAncestors(t, Proposed(tg, period, quota), above)
    decreases t, 1
  {
    var d := Proposed(tg, period, quota);
    assert Limit(Write(t, tg, period, quota), NOTHING) == Limit(t, d);
    var limited := t.parent != null && Limit(t, d) != NO_LIMIT;
    WrittenLimitsAll(t.children, tg, period, quota, if limited then above + [Limit(t, d)] else above);
  }

  lemma {:induction false} WrittenLimitsAll(ts: seq<Tree>, tg: TaskGroup, period: int, quota: int, above: seq<int>)
    requires period >= NSEC_PER_USEC && 0 <= quota <= RUNTIME_INF
    ensures WithinAncestorsAll(WriteAll(ts, tg, period, quota), NOTHING, above) <==>
            WithinAncestorsAll(ts, Proposed(tg, period, quota), above)
    decreases ts, 0
  {
    if ts != [] {
      WrittenLimits(ts[0], tg, period, quota, above);
      WrittenLimitsAll(ts[1..], tg, period, quota, above);
      var us := WriteAll(ts, tg, period, quota);
      assert us[0] == Write(ts[0], tg, period, quota) && us[1..] == WriteAll(ts[1..], tg, period, quota);
    }
  }

  /** No setting, accepted or rejected, leaves a limited group with a ratio above
      that of a limited ancestor. */
  lemma SetCfsKeeps(t: Tree, tg: TaskGroup, period: int, quota: int, q: Quotas)
    requires Linked(t) && t.parent == null && WithinAncestors(t, NOTHING, []) && 0 <= quota <= RUNTIME_INF
    ensures WithinAncestors(SetCfs(t, tg, period, quota, q), NOTHING, [])
  {
    if SetCfs(t, tg, period, quota, q) != t {
      CfsSchedulableExact(t, Proposed(tg, period, quota), q);
      WrittenLimits(t, tg, period, quota, []);
    }
  }

  ghost function Stored(table: map<TaskGroup, Settings>, tg: TaskGroup, period: int, quota: int): map<TaskGroup, Settings> {
    map n | n in table :: if n == tg then table[n].(cfsPeriod := period, cfsQuota := quota) else table[n]
  }

  lemma StoredMerge(a: map<TaskGroup, Settings>, b: map<TaskGroup, Settings>, tg: TaskGroup, period: int, quota: int)
    ensures Stored(a, tg, period, quota) + Stored(b, tg, period, quota) == Stored(a + b, tg, period, quota)
  {
  }

  lemma {:induction false} WriteTable(t: Tree, tg: TaskGroup, period: int, quota: int)
    ensures Table(Write(t, tg, period, quota)) == Stored(Table(t), tg, period, quota)
    decreases t, 1
  {
    WriteTableAll(t.children, tg, period, quota);
  }

  lemma {:induction false} WriteTableAll(ts: seq<Tree>, tg: TaskGroup, period: int, quota: int)
    ensures TableOf(WriteAll(ts, tg, period, quota)) == Stored(TableOf(ts), tg, period, quota)
    decreases ts, 0
  {
    if ts != [] {
      WriteTable(ts[0], tg, period, quota);
      WriteTableAll(ts[1..], tg, period, quota);
      StoredMerge(Table(ts[0]), TableOf(ts[1..]), tg, period, quota);
      assert WriteAll(ts, tg, period, quota)[1..] == WriteAll(ts[1..], tg, period, quota);
    }
  }

  /** When a setting is accepted. */
  ghost predicate CfsOk(t: Tree, tg: TaskGroup, period: int, quota: int) {
    && tg != t.tg && quota >= 1_000_000 && 1_000_000 <= period <= 1_000_000_000
    && WithinAncestors(t, Proposed(tg, period, quota), [])
  }

  /** What a setting stores: an accepted one the period and the quota of its group,
      a rejected one nothing; no other setting changes in either case. */
  lemma SetCfsStores(t: Tree, tg: TaskGroup, period: int, quota: int, q: Quotas)
    requires Linked(t) && t.parent == null
    ensures Table(SetCfs(t, tg, period, quota, q)).Keys == Table(t).Keys
    ensures forall n :: n in Table(t) ==>
              Table(SetCfs(t, tg, period, quota, q))[n] ==
              if n == tg && CfsOk(t, tg, period, quota) then Table(t)[n].(cfsPeriod := period, cfsQuota := quota)
              else Table(t)[n]
  {
    CfsSchedulableExact(t, Proposed(tg, period, quota), q);
    WriteTable(t, tg, period, quota);
  }

  // ----- ratios against quotas -----

  predicate Limited(t: Tree, d: CfsProposal) {
    t.parent != null && Limit(t, d) != NO_LIMIT
  }

  /** Quota per period on the scale of the ratios, rounded down but never wrapped. */
  function ExactRate(t: Tree, d: CfsProposal): int {
    if QuotaPeriod(t, d) > 0 then Rate(QuotaPeriod(t, d), Quota(t, d)) else 0
  }

  /** The ratio of such a limit fits an unsigned long. */
  predicate Unwrapped(t: Tree, d: CfsProposal) {
    Quota(t, d) < 4096 * QuotaPeriod(t, d)
  }

  ghost predicate AllUnwrapped(t: Tree, d: CfsProposal)
    decreases t, 1
  {
    (Limited(t, d) ==> Unwrapped(t, d)) && AllUnwrappedIn(t.children, d)
  }

  ghost predicate AllUnwrappedIn(ts: seq<Tree>, d: CfsProposal)
    decreases ts, 0
  {
    ts == [] || (AllUnwrapped(ts[0], d) && AllUnwrappedIn(ts[1..], d))
  }

  /** Every limit is one that tg_set_cfs_bandwidth lets through. */
  ghost predicate SettableTree(t: Tree, d: CfsProposal)
    decreases t, 1
  {
    (Limited(t, d) ==> Settable(QuotaPeriod(t, d), Quota(t, d))) && SettableTrees(t.children, d)
  }

  ghost predicate SettableTrees(ts: seq<Tree>, d: CfsProposal)
    decreases ts, 0
  {
    ts == [] || (SettableTree(ts[0], d) && SettableTrees(ts[1..], d))
  }

  /** No limited group has a rounded rate above that of a limited ancestor; unless
      `all`, only groups whose own ratio is unwrapped are looked at. */
  ghost predicate RatesWithin(t: Tree, d: CfsProposal, above: seq<int>, all: bool)
    decreases t, 1
  {
    && (Limited(t, d) && (all || Unwrapped(t, d)) ==> forall b :: b in above ==> ExactRate(t, d) <= b)
    && RatesWithinAll(t.children, d, if Limited(t, d) then above + [ExactRate(t, d)] else above, all)
  }

  ghost predicate RatesWithinAll(ts: seq<Tree>, d: CfsProposal, above: seq<int>, all: bool)
    decreases ts, 0
  {
    ts == [] || (RatesWithin(ts[0], d, above, all) && RatesWithinAll(ts[1..], d, above, all))
  }

  ghost predicate Dominated(ratios: seq<int>, rates: seq<int>) {
    |ratios| == |rates| && forall i :: 0 <= i < |ratios| ==> ratios[i] <= rates[i]
  }

  lemma RateOfLimit(t: Tree, d: CfsProposal)
    requires Limited(t, d) && Settable(QuotaPeriod(t, d), Quota(t, d))
    ensures Limit(t, d) <= ExactRate(t, d) && (Limit(t, d) == ExactRate(t, d) <==> Unwrapped(t, d))
  {
    RatioExactIff(QuotaPeriod(t, d), Quota(t, d));
  }

  /** An accepted group whose own ratio is unwrapped has no higher rounded rate than
      any limited ancestor, whether or not the ancestors' ratios wrap. */
  lemma {:induction false} RatiosBoundRates(t: Tree, d: CfsProposal, ratios: seq<int>, rates: seq<int>)
    requires SettableTree(t, d) && WithinAncestors(t, d, ratios) && Dominated(ratios, rates)
    ensures RatesWithin(t, d, rates, false)
    decreases t, 1
  {
    if Limited(t, d) {
      RateOfLimit(t, d);
      forall b | b in rates && Unwrapped(t, d) ensures ExactRate(t, d) <= b {
        var i :| 0 <= i < |rates| && rates[i] == b;
        assert ratios[i] in ratios;
      }
      RatiosBoundRatesAll(t.children, d, ratios + [Limit(t, d)], rates + [ExactRate(t, d)]);
    } else {
      RatiosBoundRatesAll(t.children, d, ratios, rates);
    }
  }

  lemma {:induction false} RatiosBoundRatesAll(ts: seq<Tree>, d: CfsProposal, ratios: seq<int>, rates: seq<int>)
    requires SettableTrees(ts, d) && WithinAncestorsAll(ts, d, ratios) && Dominated(ratios, rates)
    ensures RatesWithinAll(ts, d, rates, false)
    decreases ts, 0
  {
    if ts != [] {
      RatiosBoundRates(ts[0], d, ratios, rates);
      RatiosBoundRatesAll(ts[1..], d, ratios, rates);
    }
  }

  /** Where no ratio wraps, comparing ratios is comparing rounded rates. */
  lemma {:induction false} RatiosAreRates(t: Tree, d: CfsProposal, above: seq<int>)
    requires SettableTree(t, d) && AllUnwrapped(t, d)
    ensures WithinAncestors(t, d, above) <==> RatesWithin(t, d, above, true)
    decreases t, 1
  {
    if Limited(t, d) {
      RateOfLimit(t, d);
      RatiosAreRatesAll(t.children, d, above + [Limit(t, d)]);
    } else {
      RatiosAreRatesAll(t.children, d, above);
    }
  }

  lemma {:induction false} RatiosAreRatesAll(ts: seq<Tree>, d: CfsProposal, above: seq<int>)
    requires SettableTrees(ts, d) && AllUnwrappedIn(ts, d)
    ensures WithinAncestorsAll(ts, d, above) <==> RatesWithinAll(ts, d, above, true)
    decreases ts, 0
  {
    if ts != [] {
      RatiosAreRates(ts[0], d, above);
      RatiosAreRatesAll(ts[1..], d, above);
    }
  }

  // ----- quota per period -----

  function Granted(t: Tree, d: CfsProposal): real {
    if QuotaPeriod(t, d) > 0 then PerPeriod(QuotaPeriod(t, d), Quota(t, d)) else 0.0
  }

  /** How far the limit may exceed one above it: not at all if its rate is not rounded. */
  function Slack(t: Tree, d: CfsProposal, slack: real): real {
    if QuotaPeriod(t, d) > 0 && Whole(QuotaPeriod(t, d), Quota(t, d)) then 0.0 else slack
  }

  /** No limited group gets more quota per period than a limited ancestor, up to
      `slack` where its rate is rounded; unless `all`, only groups whose own ratio
      is unwrapped are looked at. */
  ghost predicate QuotasWithin(t: Tree, d: CfsProposal, above: seq<real>, slack: real, all: bool)
    decreases t, 1
  {
    && (Limited(t, d) && (all || Unwrapped(t, d)) ==> forall b :: b in above ==> Granted(t, d) <= b + Slack(t, d, slack))
    && QuotasWithinAll(t.children, d, if Limited(t, d) then above + [Granted(t, d)] else above, slack, all)
  }

  ghost predicate QuotasWithinAll(ts: seq<Tree>, d: CfsProposal, above: seq<real>, slack: real, all: bool)
    decreases ts, 0
  {
    ts == [] || (QuotasWithin(ts[0], d, above, slack, all) && QuotasWithinAll(ts[1..], d, above, slack, all))
  }

  /** Each rate is the amount per period on a scale of 2^20, rounded down. */
  ghost predicate Floors(rates: seq<int>, quotas: seq<real>) {
    |rates| == |quotas| && forall i :: 0 <= i < |rates| ==> IsFloor(rates[i], quotas[i])
  }

  ghost predicate IsFloor(rate: int, quota: real) {
    rate as real <= quota * 1048576.0 < rate as real + 1.0
  }

  lemma GrantedFloor(t: Tree, d: CfsProposal)
    requires Limited(t, d)
    ensures IsFloor(ExactRate(t, d), Granted(t, d))
    ensures Slack(t, d, QUANTUM) == 0.0 ==> ExactRate(t, d) as real == Granted(t, d) * 1048576.0
  {
    RateIsFloor(QuotaPeriod(t, d), Quota(t, d));
    WholeIsExact(QuotaPeriod(t, d), Quota(t, d));
  }

  /** Rounded rates within those above give quotas per period within those above, up
      to a quantum where something was rounded. */
  lemma {:induction false} RatesBoundQuotas(t: Tree, d: CfsProposal, rates: seq<int>, quotas: seq<real>, all: bool)
    requires RatesWithin(t, d, rates, all) && Floors(rates, quotas)
    ensures QuotasWithin(t, d, quotas, QUANTUM, all)
    decreases t, 1
  {
    if Limited(t, d) {
      GrantedFloor(t, d);
      forall b | b in quotas && (all || Unwrapped(t, d)) ensures Granted(t, d) <= b + Slack(t, d, QUANTUM) {
        var i :| 0 <= i < |quotas| && quotas[i] == b;
        assert rates[i] in rates && IsFloor(rates[i], quotas[i]);
      }
      RatesBoundQuotasAll(t.children, d, rates + [ExactRate(t, d)], quotas + [Granted(t, d)], all);
    } else {
      RatesBoundQuotasAll(t.children, d, rates, quotas, all);
    }
  }

  lemma {:induction false} RatesBoundQuotasAll(ts: seq<Tree>, d: CfsProposal, rates: seq<int>, quotas: seq<real>, all: bool)
    requires RatesWithinAll(ts, d, rates, all) && Floors(rates, quotas)
    ensures QuotasWithinAll(ts, d, quotas, QUANTUM, all)
    decreases ts, 0
  {
    if ts != [] {
      RatesBoundQuotas(ts[0], d, rates, quotas, all);
      RatesBoundQuotasAll(ts[1..], d, rates, quotas, all);
    }
  }

  /** Quotas per period exactly within those above have rounded rates within those above. */
  lemma {:induction false} QuotasBoundRates(t: Tree, d: CfsProposal, rates: seq<int>, quotas: seq<real>, all: bool)
    requires QuotasWithin(t, d, quotas, 0.0, all) && Floors(rates, quotas)
    ensures RatesWithin(t, d, rates, all)
    decreases t, 1
  {
    if Limited(t, d) {
      GrantedFloor(t, d);
      forall b | b in rates && (all || Unwrapped(t, d)) ensures ExactRate(t, d) <= b {
        var i :| 0 <= i < |rates| && rates[i] == b;
        assert quotas[i] in quotas && IsFloor(rates[i], quotas[i]);
      }
      QuotasBoundRatesAll(t.children, d, rates + [ExactRate(t, d)], quotas + [Granted(t, d)], all);
    } else {
      QuotasBoundRatesAll(t.children, d, rates, quotas, all);
    }
  }

  lemma {:induction false} QuotasBoundRatesAll(ts: seq<Tree>, d: CfsProposal, rates: seq<int>, quotas: seq<real>, all: bool)
    requires QuotasWithinAll(ts, d, quotas, 0.0, all) && Floors(rates, quotas)
    ensures RatesWithinAll(ts, d, rates, all)
    decreases ts, 0
  {
    if ts != [] {
      QuotasBoundRates(ts[0], d, rates, quotas, all);
      QuotasBoundRatesAll(ts[1..], d, rates, quotas, all);
    }
  }

  /** The verdict of the walk in terms of quotas and periods: up to 2^-20 it rejects
      every excess of a group whose quota is below 4096 periods.  When that is so for
      all limited groups it compares exactly the rounded rates: an accepted tree has
      no excess of 2^-20, and a tree without any excess is accepted. */
  lemma CfsVerdict(t: Tree, d: CfsProposal, q: Quotas)
    requires Linked(t) && t.parent == null && SettableTree(t, d)
    ensures var accepted := Walk(t, DownVisitor(d), UpVisitor(), q).0 == 0;
            && (accepted ==> RatesWithin(t, d, [], false) && QuotasWithin(t, d, [], QUANTUM, false))
            && (AllUnwrapped(t, d) ==> (accepted <==> RatesWithin(t, d, [], true)))
            && (AllUnwrapped(t, d) && accepted ==> QuotasWithin(t, d, [], QUANTUM, true))
            && (AllUnwrapped(t, d) && QuotasWithin(t, d, [], 0.0, true) ==> accepted)
  {
    CfsSchedulableExact(t, d, q);
    if WithinAncestors(t, d, []) {
      RatiosBoundRates(t, d, [], []);
      RatesBoundQuotas(t, d, [], [], false);
    }
    if AllUnwrapped(t, d) {
      RatiosAreRates(t, d, []);
      if RatesWithin(t, d, [], true) {
        RatesBoundQuotas(t, d, [], [], true);
      }
      if QuotasWithin(t, d, [], 0.0, true) {
        QuotasBoundRates(t, d, [], [], true);
      }
    }
  }

  /** A tree of one group under a limited one. */
  function Chain(root: TaskGroup, parent: TaskGroup, child: TaskGroup, upper: Settings, lower: Settings): Tree {
    Node(root, null, Settings(1, 0, 0, RUNTIME_INF), [Node(parent, root, upper, [Node(child, parent, lower, [])])])
  }

  /** The ratio of a quota of 4096 periods or more wraps: below a parent limited to
      1000 ms per ms the code accepts 5000 ms per ms. */
  lemma WrappedQuotaAccepted(root: TaskGroup, parent: TaskGroup, child: TaskGroup, q: Quotas)
    requires root != parent && root != child && parent != child
    ensures var upper, lower := Settings(1, 0, NSEC_PER_MSEC, NSEC_PER_SEC), Settings(1, 0, NSEC_PER_MSEC, 5 * NSEC_PER_SEC);
            var t := Chain(root, parent, child, upper, Settings(1, 0, NSEC_PER_MSEC, RUNTIME_INF));
            && WithinAncestors(t, NOTHING, []) && RatesWithin(t, NOTHING, [], true) && SettableTree(t, NOTHING)
            && SetCfs(t, child, NSEC_PER_MSEC, 5 * NSEC_PER_SEC, q) == Chain(root, parent, child, upper, lower)
            && SettableTree(SetCfs(t, child, NSEC_PER_MSEC, 5 * NSEC_PER_SEC, q), NOTHING)
            && !RatesWithin(SetCfs(t, child, NSEC_PER_MSEC, 5 * NSEC_PER_SEC, q), NOTHING, [], true)
  {
    var upper, lower := Settings(1, 0, NSEC_PER_MSEC, NSEC_PER_SEC), Settings(1, 0, NSEC_PER_MSEC, 5 * NSEC_PER_SEC);
    var unlimited := Settings(1, 0, NSEC_PER_MSEC, RUNTIME_INF);
    var t, u := Chain(root, parent, child, upper, unlimited), Chain(root, parent, child, upper, lower);
    var p, c, c' := t.children[0], t.children[0].children[0], u.children[0].children[0];
    var d := Proposed(child, NSEC_PER_MSEC, 5 * NSEC_PER_SEC);
    Acceptance();
    ChainLinked(root, parent, child, upper, unlimited);
    ChainWithin(t, p, c, NOTHING);
    ChainRates(t, p, c, NOTHING);
    ChainSettable(t, p, c, NOTHING);
    ChainWithin(t, p, c, d);
    ChainRates(u, u.children[0], c', NOTHING);
    ChainSettable(u, u.children[0], c', NOTHING);
    CfsSchedulableExact(t, d, q);
    ChainWrite(t, p, c, child, NSEC_PER_MSEC, 5 * NSEC_PER_SEC);
  }

  /** Rounding lets a limit through below one that is smaller by less than 2^-20: below
      a parent limited to 999998 us per 999999 us the code accepts 999999 us per second. */
  lemma RoundedQuotaAccepted(root: TaskGroup, parent: TaskGroup, child: TaskGroup, q: Quotas)
    requires root != parent && root != child && parent != child
    ensures var t := Chain(root, parent, child, Settings(1, 0, 999_999_000, 999_998_000), Settings(1, 0, NSEC_PER_SEC, RUNTIME_INF));
            var u := Chain(root, parent, child, Settings(1, 0, 999_999_000, 999_998_000), Settings(1, 0, NSEC_PER_SEC, 999_999_000));
            && SetCfs(t, child, NSEC_PER_SEC, 999_999_000, q) == u
            && SettableTree(u, NOTHING) && AllUnwrapped(u, NOTHING)
            && !QuotasWithin(u, NOTHING, [], 0.0, true)
  {
    var upper, unlimited := Settings(1, 0, 999_999_000, 999_998_000), Settings(1, 0, NSEC_PER_SEC, RUNTIME_INF);
    var t, u := Chain(root, parent, child, upper, unlimited), Chain(root, parent, child, upper, Settings(1, 0, NSEC_PER_SEC, 999_999_000));
    var p, c, c' := t.children[0], t.children[0].children[0], u.children[0].children[0];
    var d := Proposed(child, NSEC_PER_SEC, 999_999_000);
    CloseRatios();
    ChainLinked(root, parent, child, upper, unlimited);
    ChainWithin(t, p, c, d);
    CfsSchedulableExact(t, d, q);
    ChainWrite(t, p, c, child, NSEC_PER_SEC, 999_999_000);
    ChainSettable(u, p.(children := [c']), c', NOTHING);
    ChainUnwrapped(u, p.(children := [c']), c', NOTHING);
    ChainExcess(u, p.(children := [c']), c', NOTHING);
  }

  lemma CloseRatios()
    ensures ToRatio(1_000_000, 999_999) == ToRatio(999_999, 999_998) == 1_048_574
    ensures PerPeriod(1_000_000, 999_999) > PerPeriod(999_999, 999_998)
  {
  }

  lemma ChainUnwrapped(t: Tree, p: Tree, c: Tree, d: CfsProposal)
    requires t.parent == null && t.children == [p] && p.children == [c] && c.children == []
    requires Unwrapped(p, d) && Unwrapped(c, d)
    ensures AllUnwrapped(t, d)
  {
    assert [p][1..] == [] && [c][1..] == [];
    assert AllUnwrappedIn(c.children, d) && AllUnwrapped(c, d);
    assert AllUnwrappedIn([c][1..], d) && AllUnwrappedIn([c], d) && AllUnwrapped(p, d);
    assert AllUnwrappedIn([p][1..], d) && AllUnwrappedIn([p], d);
  }

  lemma ChainExcess(t: Tree, p: Tree, c: Tree, d: CfsProposal)
    requires t.parent == null && t.children == [p] && p.children == [c] && Limited(p, d) && Limited(c, d)
    requires Granted(c, d) > Granted(p, d)
    ensures !QuotasWithin(t, d, [], 0.0, true)
  {
    assert [] + [Granted(p, d)] == [Granted(p, d)];
    assert Granted(p, d) in [Granted(p, d)];
    assert !QuotasWithin(c, d, [Granted(p, d)], 0.0, true);
    assert !QuotasWithinAll([c], d, [Granted(p, d)], 0.0, true);
    assert !QuotasWithin(p, d, [], 0.0, true);
    assert !QuotasWithinAll([p], d, [], 0.0, true);
  }

  lemma Acceptance()
    ensures ToRatio(1000, 5_000_000) == 904 * UNIT && ToRatio(1000, 1_000_000) == 1000 * UNIT
    ensures Rate(1000, 5_000_000) == 5000 * UNIT && Rate(1000, 1_000_000) == 1000 * UNIT
  {
  }

  lemma ChainWrite(t: Tree, p: Tree, c: Tree, child: TaskGroup, period: int, quota: int)
    requires t.children == [p] && p.children == [c] && c.children == [] && t.tg != child && p.tg != child && c.tg == child
    ensures var c' := c.(settings := c.settings.(cfsPeriod := period, cfsQuota := quota));
            Write(t, child, period, quota) == t.(children := [p.(children := [c'])])
  {
    var c' := c.(settings := c.settings.(cfsPeriod := period, cfsQuota := quota));
    assert [c][1..] == [] && [p][1..] == [];
    assert WriteAll([], child, period, quota) == [];
    assert Write(c, child, period, quota) == c';
    assert WriteAll([c], child, period, quota) == [c'];
    assert Write(p, child, period, quota) == p.(children := [c']);
    assert WriteAll([p], child, period, quota) == [p.(children := [c'])];
  }

  lemma ChainLinked(root: TaskGroup, parent: TaskGroup, child: TaskGroup, upper: Settings, lower: Settings)
    requires root != parent && root != child && parent != child
    ensures Linked(Chain(root, parent, child, upper, lower))
  {
    var t := Chain(root, parent, child, upper, lower);
    var p := t.children[0];
    var c := p.children[0];
    assert Groups(c) == {child} && GroupsOf(p.children) == {child};
    assert Groups(p) == {parent, child} && GroupsOf(t.children) == {parent, child};
    assert LinkedAll(c.children, child) && Linked(c) && LinkedAll(p.children, parent) && Linked(p);
  }

  lemma WithinSingle(c: Tree, d: CfsProposal, above: seq<int>)
    ensures WithinAncestorsAll([c], d, above) <==> WithinAncestors(c, d, above)
  {
    assert [c][1..] == [];
    assert WithinAncestorsAll([c][1..], d, above);
  }

  lemma RatesSingle(c: Tree, d: CfsProposal, above: seq<int>, all: bool)
    ensures RatesWithinAll([c], d, above, all) <==> RatesWithin(c, d, above, all)
  {
    assert [c][1..] == [];
    assert RatesWithinAll([c][1..], d, above, all);
  }

  lemma SettableSingle(c: Tree, d: CfsProposal)
    ensures SettableTrees([c], d) <==> SettableTree(c, d)
  {
    assert [c][1..] == [];
    assert SettableTrees([c][1..], d);
  }

  /** What the predicates say of a chain under a limited parent. */
  lemma ChainWithin(t: Tree, p: Tree, c: Tree, d: CfsProposal)
    requires t.parent == null && t.children == [p] && p.children == [c] && c.children == [] && Limited(p, d)
    ensures WithinAncestors(t, d, []) <==> (Limited(c, d) ==> Limit(c, d) <= Limit(p, d))
  {
    WithinSingle(p, d, []);
    WithinSingle(c, d, [Limit(p, d)]);
    assert [] + [Limit(p, d)] == [Limit(p, d)];
    assert WithinAncestors(p, d, []) <==> WithinAncestorsAll(p.children, d, [] + [Limit(p, d)]);
    LeafWithin(c, d, Limit(p, d));
  }

  lemma LeafWithin(c: Tree, d: CfsProposal, x: int)
    requires c.children == []
    ensures WithinAncestors(c, d, [x]) <==> (Limited(c, d) ==> Limit(c, d) <= x)
  {
    assert x in [x];
    if Limited(c, d) {
      assert WithinAncestorsAll(c.children, d, [x] + [Limit(c, d)]);
    } else {
      assert WithinAncestorsAll(c.children, d, [x]);
    }
  }

  lemma ChainRates(t: Tree, p: Tree, c: Tree, d: CfsProposal)
    requires t.parent == null && t.children == [p] && p.children == [c] && c.children == [] && Limited(p, d)
    ensures RatesWithin(t, d, [], true) <==> (Limited(c, d) ==> ExactRate(c, d) <= ExactRate(p, d))
  {
    RatesSingle(p, d, [], true);
    RatesSingle(c, d, [ExactRate(p, d)], true);
    assert [] + [ExactRate(p, d)] == [ExactRate(p, d)];
    assert RatesWithin(p, d, [], true) <==> RatesWithinAll(p.children, d, [] + [ExactRate(p, d)], true);
    LeafRates(c, d, ExactRate(p, d));
  }

  lemma LeafRates(c: Tree, d: CfsProposal, x: int)
    requires c.children == []
    ensures RatesWithin(c, d, [x], true) <==> (Limited(c, d) ==> ExactRate(c, d) <= x)
  {
    assert x in [x];
    if Limited(c, d) {
      assert RatesWithinAll(c.children, d, [x] + [ExactRate(c, d)], true);
    } else {
      assert RatesWithinAll(c.children, d, [x], true);
    }
  }

  lemma ChainSettable(t: Tree, p: Tree, c: Tree, d: CfsProposal)
    requires t.parent == null && t.children == [p] && p.children == [c] && c.children == []
    requires Limited(p, d) ==> Settable(QuotaPeriod(p, d), Quota(p, d))
    requires Limited(c, d) ==> Settable(QuotaPeriod(c, d), Quota(c, d))
    ensures SettableTree(t, d)
  {
    SettableSingle(p, d);
    SettableSingle(c, d);
    assert SettableTrees(c.children, d);
  }

  // ----- whole runs -----

  /** The tree and what the walks have left in hierarchal_quota. */
  datatype CfsState = CfsState(tree: Tree, quotas: Quotas)

  datatype CfsEvent =
    | SetQuota(tg: TaskGroup, period: int, quota: int)
    | CreateGroup(parent: TaskGroup, tg: TaskGroup, rtPeriod: int, cfsPeriod: int)
    | RemoveGroup(tg: TaskGroup)

  /** A quota is no limit or a number of microseconds in a long, and a new group is
      new. */
  ghost predicate CfsEnabled(s: CfsState, v: CfsEvent) {
    match v
    case SetQuota(_, _, quota) => Writable(quota)
    case CreateGroup(_, tg, _, _) => tg !in Groups(s.tree)
    case RemoveGroup(_) => true
  }

  ghost function CfsStep(s: CfsState, v: CfsEvent): CfsState {
    match v
    case SetQuota(tg, period, quota) =>
      CfsState(SetCfs(s.tree, tg, period, quota, s.quotas), QuotasAfter(s, tg, period, quota))
    case CreateGroup(parent, tg, rtPeriod, cfsPeriod) => s.(tree := AddTo(s.tree, Leaf(parent, tg, rtPeriod, cfsPeriod)))
    case RemoveGroup(tg) => s.(tree := Prune(s.tree, tg))
  }

  /** Also a rejected walk leaves quotas behind. */
  ghost function QuotasAfter(s: CfsState, tg: TaskGroup, period: int, quota: int): Quotas {
    if tg == s.tree.tg || quota < NSEC_PER_MSEC || period < NSEC_PER_MSEC || period > NSEC_PER_SEC then s.quotas
    else Walk(s.tree, DownVisitor(Proposed(tg, period, quota)), UpVisitor(), s.quotas).1
  }

  ghost predicate CfsGood(t: Tree) {
    Linked(t) && t.parent == null && SettableTree(t, NOTHING) && WithinAncestors(t, NOTHING, [])
  }

  lemma {:induction false} WriteKeeps(t: Tree, tg: TaskGroup, period: int, quota: int)
    requires NSEC_PER_MSEC <= period <= NSEC_PER_SEC && NSEC_PER_MSEC <= quota && Writable(quota)
    ensures Groups(Write(t, tg, period, quota)) == Groups(t)
    ensures Linked(t) ==> Linked(Write(t, tg, period, quota))
    ensures SettableTree(t, NOTHING) ==> SettableTree(Write(t, tg, period, quota), NOTHING)
    decreases t, 1
  {
    WriteKeepsAll(t.children, tg, period, quota, t.tg);
  }

  lemma {:induction false} WriteKeepsAll(ts: seq<Tree>, tg: TaskGroup, period: int, quota: int, parent: TaskGroup)
    requires NSEC_PER_MSEC <= period <= NSEC_PER_SEC && NSEC_PER_MSEC <= quota && Writable(quota)
    ensures var us := WriteAll(ts, tg, period, quota);
            && GroupsOf(us) == GroupsOf(ts) && (LinkedAll(ts, parent) ==> LinkedAll(us, parent))
            && (SettableTrees(ts, NOTHING) ==> SettableTrees(us, NOTHING))
    decreases ts, 0
  {
    if ts != [] {
      WriteKeeps(ts[0], tg, period, quota);
      WriteKeepsAll(ts[1..], tg, period, quota, parent);
      var us := WriteAll(ts, tg, period, quota);
      assert us[0] == Write(ts[0], tg, period, quota) && us[1..] == WriteAll(ts[1..], tg, period, quota);
    }
  }

  /** A new group without a limit changes nothing for the others. */
  lemma {:induction false} AddKeepsCfs(t: Tree, leaf: Tree, above: seq<int>)
    requires Linked(t) && leaf.tg !in Groups(t) && leaf.children == [] && leaf.settings.cfsQuota == RUNTIME_INF
    requires SettableTree(t, NOTHING) && WithinAncestors(t, NOTHING, above)
    ensures var u := AddTo(t, leaf);
            && Linked(u) && Groups(u) <= Groups(t) + {leaf.tg}
            && SettableTree(u, NOTHING) && WithinAncestors(u, NOTHING, above)
    decreases t, 1
  {
    var u := AddTo(t, leaf);
    assert Limit(u, NOTHING) == Limit(t, NOTHING);
    var below := if Limited(t, NOTHING) then above + [Limit(t, NOTHING)] else above;
    AddKeepsCfsAll(t.children, leaf, below, t.tg);
    if t.tg == leaf.parent {
      var rest := AddToAll(t.children, leaf);
      assert ([leaf] + rest)[1..] == rest && ([leaf] + rest)[0] == leaf;
      assert Groups(leaf) == {leaf.tg} && LinkedAll(leaf.children, leaf.tg) && Linked(leaf);
      assert SettableTree(leaf, NOTHING) && WithinAncestors(leaf, NOTHING, below);
    }
  }

  lemma {:induction false} AddKeepsCfsAll(ts: seq<Tree>, leaf: Tree, above: seq<int>, parent: TaskGroup)
    requires LinkedAll(ts, parent) && leaf.tg !in GroupsOf(ts) && leaf.children == [] && leaf.settings.cfsQuota == RUNTIME_INF
    requires SettableTrees(ts, NOTHING) && WithinAncestorsAll(ts, NOTHING, above)
    ensures var us := AddToAll(ts, leaf);
            && LinkedAll(us, parent) && GroupsOf(us) <= GroupsOf(ts) + {leaf.tg}
            && SettableTrees(us, NOTHING) && WithinAncestorsAll(us, NOTHING, above)
    decreases ts, 0
  {
    if ts != [] {
      AddKeepsCfs(ts[0], leaf, above);
      AddKeepsCfsAll(ts[1..], leaf, above, parent);
      var us := AddToAll(ts, leaf);
      assert us[0] == AddTo(ts[0], leaf) && us[1..] == AddToAll(ts[1..], leaf);
    }
  }

  lemma {:induction false} PruneKeepsCfs(t: Tree, tg: TaskGroup, above: seq<int>)
    requires Linked(t) && SettableTree(t, NOTHING) && WithinAncestors(t, NOTHING, above)
    ensures var u := Prune(t, tg);
            Linked(u) && Groups(u) <= Groups(t) && SettableTree(u, NOTHING) && WithinAncestors(u, NOTHING, above)
    decreases t, 1
  {
    assert Limit(Prune(t, tg), NOTHING) == Limit(t, NOTHING);
    PruneKeepsCfsAll(t.children, tg, if Limited(t, NOTHING) then above + [Limit(t, NOTHING)] else above, t.tg);
  }

  lemma {:induction false} PruneKeepsCfsAll(ts: seq<Tree>, tg: TaskGroup, above: seq<int>, parent: TaskGroup)
    requires LinkedAll(ts, parent) && SettableTrees(ts, NOTHING) && WithinAncestorsAll(ts, NOTHING, above)
    ensures var us := PruneAll(ts, tg);
            && LinkedAll(us, parent) && GroupsOf(us) <= GroupsOf(ts)
            && SettableTrees(us, NOTHING) && WithinAncestorsAll(us, NOTHING, above)
    decreases ts, 0
  {
    if ts != [] {
      PruneKeepsCfs(ts[0], tg, above);
      PruneKeepsCfsAll(ts[1..], tg, above, parent);
      if !(ts[0].tg == tg && ts[0].children == []) {
        var us := PruneAll(ts, tg);
        assert us[0] == Prune(ts[0], tg) && us[1..] == PruneAll(ts[1..], tg);
      }
    }
  }

  lemma CfsStepGood(s: CfsState, v: CfsEvent)
    requires CfsGood(s.tree) && CfsEnabled(s, v)
    ensures CfsGood(CfsStep(s, v).tree)
  {
    match v
    case SetQuota(tg, period, quota) =>
      SetCfsKeeps(s.tree, tg, period, quota, s.quotas);
      if NSEC_PER_MSEC <= period <= NSEC_PER_SEC && NSEC_PER_MSEC <= quota {
        WriteKeeps(s.tree, tg, period, quota);
      }
    case CreateGroup(parent, tg, rtPeriod, cfsPeriod) => AddKeepsCfs(s.tree, Leaf(parent, tg, rtPeriod, cfsPeriod), []);
    case RemoveGroup(tg) => PruneKeepsCfs(s.tree, tg, []);
  }

  ghost predicate CfsAllEnabled(s: CfsState, run: seq<CfsEvent>)
    decreases |run|
  {
    run == [] || (CfsEnabled(s, run[0]) && CfsAllEnabled(CfsStep(s, run[0]), run[1..]))
  }

  ghost function CfsFinal(s: CfsState, run: seq<CfsEvent>): CfsState
    decreases |run|
  {
    if run == [] then s else CfsFinal(CfsStep(s, run[0]), run[1..])
  }

  /** Over every run of quota settings, group creations and removals, no limited
      group whose quota is below 4096 periods gets more quota per period than a
      limited ancestor, up to 2^-20; and no limited group at all does while all of
      them are. */
  lemma {:induction false} RunWithinRates(s: CfsState, run: seq<CfsEvent>)
    requires CfsGood(s.tree) && CfsAllEnabled(s, run)
    ensures var t := CfsFinal(s, run).tree;
            && CfsGood(t) && RatesWithin(t, NOTHING, [], false) && QuotasWithin(t, NOTHING, [], QUANTUM, false)
            && (AllUnwrapped(t, NOTHING) ==> RatesWithin(t, NOTHING, [], true) && QuotasWithin(t, NOTHING, [], QUANTUM, true))
    decreases |run|
  {
    if run == [] {
      GoodMeansWithin(s.tree);
    } else {
      CfsStepGood(s, run[0]);
      RunWithinRates(CfsStep(s, run[0]), run[1..]);
    }
  }

  lemma GoodMeansWithin(t: Tree)
    requires CfsGood(t)
    ensures RatesWithin(t, NOTHING, [], false) && QuotasWithin(t, NOTHING, [], QUANTUM, false)
    ensures AllUnwrapped(t, NOTHING) ==> RatesWithin(t, NOTHING, [], true) && QuotasWithin(t, NOTHING, [], QUANTUM, true)
  {
    RatiosBoundRates(t, NOTHING, [], []);
    RatesBoundQuotas(t, NOTHING, [], [], false);
    if AllUnwrapped(t, NOTHING) {
      RatiosAreRates(t, NOTHING, []);
      RatesBoundQuotas(t, NOTHING, [], [], true);
    }
  }

  lemma BootCfs(root: TaskGroup, settings: Settings)
    ensures CfsGood(Node(root, null, settings, []))
  {
  }

  // ----- in memory -----

  lemma {:induction false} AbsLinked(h: Cells, n: TaskGroup)
    requires TreeOk(h) && n in h
    ensures Linked(Abs(h, n)) && forall g :: g in Groups(Abs(h, n)) ==> g.depth >= n.depth
    decreases Deeper(h, n), |h[n].children| + 1
  {
    assert ChildrenOk(h, n);
    AbsLinkedAll(h, n, h[n].children);
  }

  lemma {:induction false} AbsLinkedAll(h: Cells, n: TaskGroup, cs: seq<TaskGroup>)
    requires TreeOk(h) && n in h && ChildrenOf(h, n, cs) && forall c :: c in cs ==> h[c].parent == n
    ensures LinkedAll(AbsAll(h, n, cs), n) && forall g :: g in GroupsOf(AbsAll(h, n, cs)) ==> g.depth > n.depth
    decreases Deeper(h, n), |cs|
  {
    if cs != [] {
      ChildDeeper(h, n, cs[0]);
      AbsLinked(h, cs[0]);
      AbsLinkedAll(h, n, cs[1..]);
      assert AbsAll(h, n, cs)[1..] == AbsAll(h, n, cs[1..]);
    }
  }

  class CfsControl {
    const root: TaskGroup
    ghost const nodes: set<TaskGroup>
    var hierarchalQuota: Quotas

    constructor (root: TaskGroup, ghost nodes: set<TaskGroup>)
      ensures this.root == root && this.nodes == nodes
    {
      this.root, this.nodes, hierarchalQuota := root, nodes, map[];
    }

    /** __cfs_schedulable: the verdict, and the quotas the walk leaves behind. */
    method CfsSchedulable(tg: TaskGroup, period: int, quota: int) returns (ret: int)
      requires TreeOk(Fields(nodes)) && root in nodes && root.parent == null
      modifies this`hierarchalQuota
      ensures var t, d := Abs(Fields(nodes), root), Proposed(tg, period, quota);
              && (ret, hierarchalQuota) == Walk(t, DownVisitor(d), UpVisitor(), old(hierarchalQuota))
              && (ret == 0 ==> hierarchalQuota == old(hierarchalQuota) + Assigned(t, d, NO_LIMIT))
              && (SettableTree(t, d) && AllUnwrapped(t, d) ==>
                    && (ret == 0 <==> RatesWithin(t, d, [], true))
                    && (ret == 0 ==> QuotasWithin(t, d, [], QUANTUM, true))
                    && (QuotasWithin(t, d, [], 0.0, true) ==> ret == 0))
    {
      ghost var t, d := Abs(Fields(nodes), root), Proposed(tg, period, quota);
      AbsLinked(Fields(nodes), root);
      WalkAssigns(t, d, hierarchalQuota, NO_LIMIT);
      if SettableTree(t, d) {
        CfsVerdict(t, d, hierarchalQuota);
      }
      ret, hierarchalQuota := WalkTgTreeFrom(nodes, root, DownVisitor(Proposed(tg, period, quota)), UpVisitor(), hierarchalQuota);
    }

    /** tg_set_cfs_bandwidth on the settings of the group. */
    method SetCfsBandwidth(tg: TaskGroup, period: int, quota: int) returns (err: int)
      requires TreeOk(Fields(nodes)) && root in nodes && root.parent == null && tg in nodes
      modifies this`hierarchalQuota, nodes`settings
      ensures TreeOk(Fields(nodes))
      ensures var s := CfsState(old(Abs(Fields(nodes), root)), old(hierarchalQuota));
              CfsState(Abs(Fields(nodes), root), hierarchalQuota) == CfsStep(s, SetQuota(tg, period, quota))
      ensures err == 0 <==>
              && tg != root && quota >= 1_000_000 && 1_000_000 <= period <= 1_000_000_000
              && WithinAncestors(old(Abs(Fields(nodes), root)), Proposed(tg, period, quota), [])
      ensures err == 0 ==> tg.settings == old(tg.settings).(cfsPeriod := period, cfsQuota := quota)
      ensures err != 0 ==> tg.settings == old(tg.settings) && Abs(Fields(nodes), root) == old(Abs(Fields(nodes), root))
      ensures forall n :: n in nodes && n != tg ==> n.settings == old(n.settings)
    {
      AbsLinked(Fields(nodes), root);
      CfsSchedulableExact(Abs(Fields(nodes), root), Proposed(tg, period, quota), hierarchalQuota);
      if tg == root || quota < NSEC_PER_MSEC || period < NSEC_PER_MSEC || period > NSEC_PER_SEC {
        return EINVAL;
      }
      err := CfsSchedulable(tg, period, quota);
      if err == 0 {
        ghost var h := Fields(nodes);
        Writing(h, tg, period, quota);
        WriteAbs(h, root, tg, period, quota);
        tg.settings := tg.settings.(cfsPeriod := period, cfsQuota := quota);
        assert Fields(nodes) == Written(h, tg, period, quota);
      }
    }
  }

  ghost function Written(h: Cells, tg: TaskGroup, period: int, quota: int): Cells
    requires tg in h
  {
    h[tg := h[tg].(settings := h[tg].settings.(cfsPeriod := period, cfsQuota := quota))]
  }

  lemma Writing(h: Cells, tg: TaskGroup, period: int, quota: int)
    requires TreeOk(h) && tg in h
    ensures TreeOk(Written(h, tg, period, quota))
  {
    forall n | n in h ensures ChildrenOk(Written(h, tg, period, quota), n) {
      assert ChildrenOk(h, n);
    }
  }

  lemma {:induction false} WriteAbs(h: Cells, n: TaskGroup, tg: TaskGroup, period: int, quota: int)
    requires TreeOk(h) && tg in h && TreeOk(Written(h, tg, period, quota)) && n in h
    ensures Abs(Written(h, tg, period, quota), n) == Write(Abs(h, n), tg, period, quota)
    decreases Deeper(h, n), |h[n].children| + 1
  {
    assert ChildrenOk(h, n);
    WriteAbsAll(h, n, h[n].children, tg, period, quota);
  }

  lemma {:induction false} WriteAbsAll(h: Cells, n: TaskGroup, cs: seq<TaskGroup>, tg: TaskGroup, period: int, quota: int)
    requires TreeOk(h) && tg in h && TreeOk(Written(h, tg, period, quota)) && n in h && ChildrenOf(h, n, cs)
    ensures AbsAll(Written(h, tg, period, quota), n, cs) == WriteAll(AbsAll(h, n, cs), tg, period, quota)
    decreases Deeper(h, n), |cs|
  {
    if cs != [] {
      ChildDeeper(h, n, cs[0]);
      WriteAbs(h, cs[0], tg, period, quota);
      WriteAbsAll(h, n, cs[1..], tg, period, quota);
      assert AbsAll(h, n, cs)[1..] == AbsAll(h, n, cs[1..]);
    }
  }
}
