/** Weighted round robin as a machine on values: the order of the tasks of one
    priority level and what is left of each one's time slice.  The head of the
    order is the running task; a tick charges it, and refills it and sends it
    to the tail when its slice is used up. */
module WrrFairness {
  import opened PrioArrays

  datatype Round<T> = Round(order: seq<T>, left: map<T, int>)

  ghost predicate Ready<T>(s: Round<T>, full: map<T, int>) {
    && s.order != [] && NoDup(s.order)
    && (forall t :: t in s.order ==> t in s.left && t in full && s.left[t] >= 1 && full[t] >= 1)
  }

  function Tick<T(==)>(s: Round<T>, full: map<T, int>): Round<T>
    requires s.order != [] && s.order[0] in s.left && s.order[0] in full
  {
    var t := s.order[0];
    if s.left[t] != 1 then s.(left := s.left[t := s.left[t] - 1])
    else Round(s.order[1..] + [t], s.left[t := full[t]])
  }

  lemma TickReady<T>(s: Round<T>, full: map<T, int>)
    requires Ready(s, full)
    ensures Ready(Tick(s, full), full) && multiset(Tick(s, full).order) == multiset(s.order)
  {
    var t := s.order[0];
    assert s.order == [t] + s.order[1..];
    NoDupSnoc(s.order[1..], t);
    forall u | u in Tick(s, full).order ensures u in s.order {
      assert u in multiset(s.order);
    }
  }

  /** The machine after `n` ticks. */
  ghost function After<T>(s: Round<T>, full: map<T, int>, n: nat): (r: Round<T>)
    requires Ready(s, full)
    ensures Ready(r, full)
    decreases n
  {
    if n == 0 then s else
      TickReady(s, full);
      After(Tick(s, full), full, n - 1)
  }

  /** Of the first `n` ticks, those charged to `t`. */
  ghost function Charged<T>(s: Round<T>, full: map<T, int>, t: T, n: nat): nat
    requires Ready(s, full)
    decreases n
  {
    if n == 0 then 0 else
      TickReady(s, full);
      (if s.order[0] == t then 1 else 0) + Charged(Tick(s, full), full, t, n - 1)
  }

  lemma {:induction false} AfterSplit<T>(s: Round<T>, full: map<T, int>, m: nat, n: nat)
    requires Ready(s, full)
    ensures After(s, full, m + n) == After(After(s, full, m), full, n)
    ensures forall t :: Charged(s, full, t, m + n) == Charged(s, full, t, m) + Charged(After(s, full, m), full, t, n)
    decreases m
  {
    if m > 0 {
      TickReady(s, full);
      AfterSplit(Tick(s, full), full, m - 1, n);
    }
  }

  lemma AfterNext<T>(s: Round<T>, full: map<T, int>, n: nat)
    requires Ready(s, full)
    ensures After(s, full, n + 1) == Tick(After(s, full, n), full)
  {
    AfterSplit(s, full, n, 1);
    var r := After(s, full, n);
    TickReady(r, full);
    assert After(r, full, 1) == After(Tick(r, full), full, 0);
  }

  ghost function Sum<T>(order: seq<T>, amount: map<T, int>): int
    requires forall t :: t in order ==> t in amount
  {
    if order == [] then 0 else amount[order[0]] + Sum(order[1..], amount)
  }

  lemma {:induction false} SumPositive<T>(order: seq<T>, amount: map<T, int>)
    requires forall t :: t in order ==> t in amount && amount[t] >= 1
    ensures Sum(order, amount) >= |order|
  {
    if order != [] {
      SumPositive(order[1..], amount);
    }
  }

  lemma {:induction false} SumSnoc<T>(order: seq<T>, t: T, amount: map<T, int>)
    requires t in amount && forall u :: u in order ==> u in amount
    ensures Sum(order + [t], amount) == Sum(order, amount) + amount[t]
  {
    if order == [] {
      assert order + [t] == [t];
    } else {
      SumSnoc(order[1..], t, amount);
      assert (order + [t])[1..] == order[1..] + [t];
    }
  }

  lemma {:induction false} SumSame<T>(order: seq<T>, a: map<T, int>, b: map<T, int>)
    requires forall t :: t in order ==> t in a && t in b && a[t] == b[t]
    ensures Sum(order, a) == Sum(order, b)
  {
    if order != [] {
      SumSame(order[1..], a, b);
    }
  }

  /** The head keeps the processor for exactly what is left of its slice, is
      the only task charged, and is then refilled at the tail. */
  lemma {:induction false} HeadRuns<T>(s: Round<T>, full: map<T, int>)
    requires Ready(s, full)
    ensures var t := s.order[0];
            && After(s, full, s.left[t]) == Round(s.order[1..] + [t], s.left[t := full[t]])
            && (forall n: nat :: n < s.left[t] ==> After(s, full, n).order == s.order)
            && (forall u :: Charged(s, full, u, s.left[t]) == if u == t then s.left[t] else 0)
    decreases s.left[s.order[0]]
  {
    var t := s.order[0];
    TickReady(s, full);
    var s' := Tick(s, full);
    if s.left[t] != 1 {
      HeadRuns(s', full);
      assert s.left[t := s.left[t] - 1][t := full[t]] == s.left[t := full[t]];
      forall n: nat | n < s.left[t] ensures After(s, full, n).order == s.order {
        if n > 0 {
          assert After(s, full, n) == After(s', full, n - 1);
        }
      }
    } else {
      assert After(s, full, 1) == After(s', full, 0);
      forall u ensures Charged(s, full, u, 1) == if u == t then 1 else 0 {
        assert Charged(s', full, u, 0) == 0;
      }
    }
  }

  /** Refilled slices for the first `k` tasks of the order. */
  ghost function Refilled<T>(s: Round<T>, full: map<T, int>, k: nat): map<T, int>
    requires Ready(s, full) && k <= |s.order|
  {
    map t | t in s.left :: if t in s.order[..k] then full[t] else s.left[t]
  }

  lemma RefilledStep<T>(s: Round<T>, full: map<T, int>, k: nat)
    requires Ready(s, full) && 0 < k <= |s.order|
    ensures Refilled(s, full, k - 1)[s.order[k - 1] := full[s.order[k - 1]]] == Refilled(s, full, k)
    ensures (s.order[k - 1..] + s.order[..k - 1])[1..] + [s.order[k - 1]] == s.order[k..] + s.order[..k]
  {
    assert s.order[..k] == s.order[..k - 1] + [s.order[k - 1]];
  }

  /** After exactly the remaining slices of the first `k` tasks the order has
      rotated by `k`, with those tasks refilled. */
  lemma {:induction false} Rotation<T>(s: Round<T>, full: map<T, int>, k: nat)
    requires Ready(s, full) && k <= |s.order|
    ensures Sum(s.order[..k], s.left) >= k
    ensures After(s, full, Sum(s.order[..k], s.left)) == Round(s.order[k..] + s.order[..k], Refilled(s, full, k))
    decreases k
  {
    if k == 0 {
      assert s.order[0..] + s.order[..0] == s.order;
      assert Refilled(s, full, 0) == s.left;
    } else {
      var m, t := RotationStep(s, full, k);
      var mid := After(s, full, m);
      RefilledStep(s, full, k);
      HeadRuns(mid, full);
      assert After(mid, full, s.left[t]) == Round(mid.order[1..] + [t], mid.left[t := full[t]]);
      AfterSplit(s, full, m, s.left[t]);
    }
  }

  /** The tick at which the task at position k-1 becomes the head. */
  lemma RotationStep<T>(s: Round<T>, full: map<T, int>, k: nat) returns (m: nat, t: T)
    requires Ready(s, full) && 0 < k <= |s.order|
    ensures m == Sum(s.order[..k - 1], s.left) && m >= k - 1 && t == s.order[k - 1] && t !in s.order[..k - 1]
    ensures Sum(s.order[..k], s.left) == m + s.left[t]
    ensures After(s, full, m) == Round(s.order[k - 1..] + s.order[..k - 1], Refilled(s, full, k - 1))
    ensures After(s, full, m).order[0] == t && After(s, full, m).left[t] == s.left[t]
    decreases k, 0
  {
    NoDupIndices(s.order);
    Rotation(s, full, k - 1);
    t := s.order[k - 1];
    m := Sum(s.order[..k - 1], s.left);
    assert s.order[..k] == s.order[..k - 1] + [t];
    SumSnoc(s.order[..k - 1], t, s.left);
  }

  /** Until then only those tasks were at the head. */
  lemma {:induction false} RotationHeads<T>(s: Round<T>, full: map<T, int>, k: nat, n: nat)
    requires Ready(s, full) && k <= |s.order| && n < Sum(s.order[..k], s.left)
    ensures After(s, full, n).order[0] in s.order[..k]
    decreases k
  {
    if k > 0 {
      var m, t := RotationStep(s, full, k);
      if n < m {
        RotationHeads(s, full, k - 1, n);
        assert s.order[..k] == s.order[..k - 1] + [t];
      } else {
        AfterSplit(s, full, m, n - m);
        HeadRuns(After(s, full, m), full);
      }
    }
  }

  /** And each of them was charged exactly its remaining slice. */
  lemma {:induction false} RotationCharges<T>(s: Round<T>, full: map<T, int>, k: nat, u: T)
    requires Ready(s, full) && k <= |s.order|
    ensures Sum(s.order[..k], s.left) >= 0
    ensures Charged(s, full, u, Sum(s.order[..k], s.left)) == if u in s.order[..k] then s.left[u] else 0
    decreases k
  {
    if k > 0 {
      var m, t := RotationStep(s, full, k);
      RotationCharges(s, full, k - 1, u);
      AfterSplit(s, full, m, s.left[t]);
      HeadRuns(After(s, full, m), full);
      assert s.order[..k] == s.order[..k - 1] + [t];
    }
  }

  /** The task at position `k` first runs after exactly the sum of the remaining
      slices ahead of it, with its own remaining slice untouched. */
  lemma WaitingTime<T>(s: Round<T>, full: map<T, int>, k: nat)
    requires Ready(s, full) && k < |s.order|
    ensures var wait := Sum(s.order[..k], s.left);
            && wait >= 0
            && After(s, full, wait).order[0] == s.order[k]
            && After(s, full, wait).left[s.order[k]] == s.left[s.order[k]]
            && forall n: nat :: n < wait ==> After(s, full, n).order[0] != s.order[k]
  {
    Rotation(s, full, k);
    NoDupIndices(s.order);
    assert s.order[k] !in s.order[..k];
    var wait := Sum(s.order[..k], s.left);
    forall n: nat | n < wait ensures After(s, full, n).order[0] != s.order[k] {
      RotationHeads(s, full, k, n);
    }
  }

  /** A full rotation restores the order and refills every slice. */
  lemma FullRotation<T>(s: Round<T>, full: map<T, int>)
    requires Ready(s, full)
    ensures Sum(s.order, s.left) >= 1
    ensures var r := After(s, full, Sum(s.order, s.left));
            && r.order == s.order
            && forall t :: t in s.order ==> r.left[t] == full[t]
  {
    Rotation(s, full, |s.order|);
    assert s.order[..|s.order|] == s.order;
    assert s.order[|s.order|..] + s.order == s.order;
  }

  ghost predicate Refreshed<T>(s: Round<T>, full: map<T, int>) {
    Ready(s, full) && forall t :: t in s.order ==> s.left[t] == full[t]
  }

  lemma RefreshedRotation<T>(s: Round<T>, full: map<T, int>)
    requires Refreshed(s, full)
    ensures Sum(s.order, full) >= 1 && After(s, full, Sum(s.order, full)) == s
    ensures forall t :: t in s.order ==> Charged(s, full, t, Sum(s.order, full)) == full[t]
  {
    SumPositive(s.order, full);
    SumSame(s.order, s.left, full);
    Rotation(s, full, |s.order|);
    assert s.order[..|s.order|] == s.order;
    assert s.order[|s.order|..] + s.order == s.order;
    assert Refilled(s, full, |s.order|) == s.left;
    forall t | t in s.order ensures Charged(s, full, t, Sum(s.order, full)) == full[t] {
      RotationCharges(s, full, |s.order|, t);
    }
  }

  /** From the first full rotation on, `rounds` rotations give a task exactly
      `rounds` full slices and end in the very state they started from. */
  lemma {:induction false} FairShares<T>(s: Round<T>, full: map<T, int>, rounds: nat, t: T)
    requires Refreshed(s, full) && t in s.order
    ensures rounds * Sum(s.order, full) >= 0
    ensures After(s, full, rounds * Sum(s.order, full)) == s
    ensures Charged(s, full, t, rounds * Sum(s.order, full)) == rounds * full[t]
  {
    RefreshedRotation(s, full);
    if rounds > 0 {
      var m := Sum(s.order, full);
      FairShares(s, full, rounds - 1, t);
      var n := (rounds - 1) * m;
      assert n + m == rounds * m;
      AfterSplit(s, full, n, m);
      assert (rounds - 1) * full[t] + full[t] == rounds * full[t];
    }
  }
}
