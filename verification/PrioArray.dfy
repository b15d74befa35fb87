/** The priority array shared by the real-time and the WRR classes
    (struct rt_prio_array, struct wrr_prio_array): one hundred linked lists and
    a bitmap with a delimiter bit that is always set.  A list is a sequence;
    an array is described by the finite map that gives, for each linked
    element, the index of the list it is linked on. */
module PrioArrays {

  const MAX_PRIO := 100

  datatype PrioArray<E> = PrioArray(queue: seq<seq<E>>, bitmap: seq<bool>)

  // ----- lists -----

  ghost predicate NoDup<E>(s: seq<E>) {
    s == [] || (s[0] !in s[1..] && NoDup(s[1..]))
  }

  lemma {:induction false} NoDupIndices<E>(s: seq<E>)
    requires NoDup(s)
    ensures forall i, j :: 0 <= i < j < |s| ==> s[i] != s[j]
  {
    if s != [] {
      NoDupIndices(s[1..]);
      forall i, j | 0 <= i < j < |s| ensures s[i] != s[j] {
        assert s[j] == s[1..][j - 1];
        if i > 0 {
          assert s[i] == s[1..][i - 1];
        }
      }
    }
  }

  lemma {:induction false} NoDupSnoc<E>(s: seq<E>, e: E)
    requires NoDup(s) && e !in s
    ensures NoDup(s + [e])
  {
    if s != [] {
      NoDupSnoc(s[1..], e);
      assert (s + [e])[1..] == s[1..] + [e];
    }
  }

  /** `s` without the elements of `gone`, in the same order. */
  function Without<E(==)>(s: seq<E>, gone: set<E>): seq<E> {
    if s == [] then []
    else if s[0] in gone then Without(s[1..], gone)
    else [s[0]] + Without(s[1..], gone)
  }

  lemma {:induction false} WithoutMembers<E>(s: seq<E>, gone: set<E>)
    ensures forall x :: x in s && x !in gone ==> x in Without(s, gone)
    ensures forall x :: x in Without(s, gone) ==> x in s && x !in gone
  {
    if s != [] {
      WithoutMembers(s[1..], gone);
    }
  }

  lemma {:induction false} WithoutConcat<E>(s: seq<E>, t: seq<E>, gone: set<E>)
    ensures Without(s + t, gone) == Without(s, gone) + Without(t, gone)
  {
    if s == [] {
      assert s + t == t;
    } else {
      assert (s + t)[1..] == s[1..] + t;
      WithoutConcat(s[1..], t, gone);
    }
  }

  lemma {:induction false} WithoutTwice<E>(s: seq<E>, a: set<E>, b: set<E>)
    ensures Without(Without(s, a), b) == Without(s, a + b)
  {
    if s != [] {
      WithoutTwice(s[1..], a, b);
      if s[0] !in a {
        WithoutConcat([s[0]], Without(s[1..], a), b);
        assert s == [s[0]] + s[1..];
      }
    }
  }

  lemma {:induction false} WithoutAbsent<E>(s: seq<E>, gone: set<E>)
    requires forall x :: x in gone ==> x !in s
    ensures Without(s, gone) == s
  {
    if s != [] {
      WithoutAbsent(s[1..], gone);
    }
  }

  lemma {:induction false} WithoutOne<E>(s: seq<E>, e: E)
    requires NoDup(s)
    ensures NoDup(Without(s, {e}))
    ensures e !in Without(s, {e})
    ensures |Without(s, {e})| == |s| - (if e in s then 1 else 0)
  {
    WithoutMembers(s, {e});
    if s != [] {
      WithoutOne(s[1..], e);
      WithoutMembers(s[1..], {e});
      if s[0] == e {
        WithoutAbsent(s[1..], {e});
      }
    }
  }

  /** list_add (head) or list_add_tail of an unlinked element, and also
      list_move and list_move_tail of a linked one. */
  function Put<E(==)>(s: seq<E>, e: E, head: bool): seq<E> {
    if head then [e] + Without(s, {e}) else Without(s, {e}) + [e]
  }

  lemma PutList<E>(s: seq<E>, e: E, head: bool)
    requires NoDup(s)
    ensures NoDup(Put(s, e, head))
    ensures e in Put(s, e, head) && forall x :: x in s ==> x in Put(s, e, head)
    ensures forall x :: x in Put(s, e, head) ==> x in s || x == e
    ensures forall gone: set<E> :: e in gone ==> Without(Put(s, e, head), gone) == Without(s, gone)
  {
    WithoutOne(s, e);
    WithoutMembers(s, {e});
    NoDupSnoc(Without(s, {e}), e);
    assert ([e] + Without(s, {e}))[1..] == Without(s, {e});
    forall gone: set<E> | e in gone
      ensures Without(Put(s, e, head), gone) == Without(s, gone)
    {
      var rest := Without(s, {e});
      WithoutTwice(s, {e}, gone);
      assert {e} + gone == gone;
      if head { WithoutConcat([e], rest, gone); } else { WithoutConcat(rest, [e], gone); }
    }
  }

  // ----- arrays -----

  predicate Shape<E>(a: PrioArray<E>) {
    |a.queue| == MAX_PRIO && |a.bitmap| == MAX_PRIO + 1 && a.bitmap[MAX_PRIO]
  }

  /** List `i` links exactly the elements with key `i`, each once, and its bit is
      set exactly when it is not empty. */
  ghost predicate ListExact<E>(list: seq<E>, bit: bool, key: map<E, int>, i: int) {
    && (bit <==> list != []) && NoDup(list)
    && (forall e :: e in list ==> e in key && key[e] == i)
    && (forall e :: e in key && key[e] == i ==> e in list)
  }

  ghost predicate ListsExact<E>(a: PrioArray<E>, key: map<E, int>, n: nat)
    requires Shape(a) && n <= MAX_PRIO
  {
    n == 0 || (ListsExact(a, key, n - 1) && ListExact(a.queue[n - 1], a.bitmap[n - 1], key, n - 1))
  }

  /** `a` links exactly the elements of `key`, each once, each on the list that
      `key` names, and bit i is set exactly when list i is not empty. */
  ghost predicate Represents<E>(a: PrioArray<E>, key: map<E, int>) {
    Shape(a) && ListsExact(a, key, MAX_PRIO) && forall e :: e in key ==> 0 <= key[e] < MAX_PRIO
  }

  lemma {:induction false} ListAt<E>(a: PrioArray<E>, key: map<E, int>, i: int, n: nat := MAX_PRIO)
    requires Shape(a) && n <= MAX_PRIO && ListsExact(a, key, n) && 0 <= i < n
    ensures ListExact(a.queue[i], a.bitmap[i], key, i)
  {
    if i < n - 1 {
      ListAt(a, key, i, n - 1);
    }
  }

  lemma {:induction false} AllLists<E>(a: PrioArray<E>, key: map<E, int>, n: nat := MAX_PRIO)
    requires Shape(a) && n <= MAX_PRIO
    requires forall i :: 0 <= i < n ==> ListExact(a.queue[i], a.bitmap[i], key, i)
    ensures ListsExact(a, key, n)
  {
    if n > 0 {
      AllLists(a, key, n - 1);
    }
  }

  function Empty<E>(): PrioArray<E> {
    PrioArray(seq(MAX_PRIO, i => []), seq(MAX_PRIO + 1, i => i == MAX_PRIO))
  }

  lemma EmptyRepresents<E>()
    ensures Represents(Empty<E>(), map[])
  {
    AllLists(Empty<E>(), map[]);
  }

  /** Link `e` on list `i` and set the bit. */
  function Link<E(==)>(a: PrioArray<E>, i: int, e: E, head: bool): PrioArray<E>
    requires Shape(a) && 0 <= i < MAX_PRIO
  {
    a.(queue := a.queue[i := Put(a.queue[i], e, head)], bitmap := a.bitmap[i := true])
  }

  /** Unlink `e` from list `i` and clear the bit if the list became empty. */
  function Unlink<E(==)>(a: PrioArray<E>, i: int, e: E): PrioArray<E>
    requires Shape(a) && 0 <= i < MAX_PRIO
  {
    var rest := Without(a.queue[i], {e});
    a.(queue := a.queue[i := rest], bitmap := if rest == [] then a.bitmap[i := false] else a.bitmap)
  }

  lemma LinkRepresents<E>(a: PrioArray<E>, key: map<E, int>, i: int, e: E, head: bool)
    requires Represents(a, key) && 0 <= i < MAX_PRIO && (e in key ==> key[e] == i)
    ensures Represents(Link(a, i, e, head), key[e := i])
  {
    var b, key' := Link(a, i, e, head), key[e := i];
    forall j | 0 <= j < MAX_PRIO ensures ListExact(b.queue[j], b.bitmap[j], key', j) {
      ListAt(a, key, j);
      if j == i {
        PutList(a.queue[i], e, head);
      }
    }
    AllLists(b, key');
  }

  lemma UnlinkRepresents<E>(a: PrioArray<E>, key: map<E, int>, e: E)
    requires Represents(a, key) && e in key
    ensures Represents(Unlink(a, key[e], e), key - {e})
  {
    var i := key[e];
    var b, key' := Unlink(a, i, e), key - {e};
    forall j | 0 <= j < MAX_PRIO ensures ListExact(b.queue[j], b.bitmap[j], key', j) {
      ListAt(a, key, j);
      if j == i {
        WithoutOne(a.queue[i], e);
        WithoutMembers(a.queue[i], {e});
      }
    }
    AllLists(b, key');
  }

  lemma Linked<E>(a: PrioArray<E>, key: map<E, int>, e: E)
    requires Represents(a, key) && e in key
    ensures e in a.queue[key[e]] && a.bitmap[key[e]] && NoDup(a.queue[key[e]])
  {
    ListAt(a, key, key[e]);
  }

  /** An element that is not linked is on no list. */
  lemma AbsentFrom<E>(a: PrioArray<E>, key: map<E, int>, i: int, e: E)
    requires Represents(a, key) && e !in key && 0 <= i < MAX_PRIO
    ensures Without(a.queue[i], {e}) == a.queue[i]
  {
    ListAt(a, key, i);
    WithoutAbsent(a.queue[i], {e});
  }

  // ----- the first set bit -----

  /** sched_find_first_bit: the least index at or after `from` whose bit is set. */
  function FirstBit(bitmap: seq<bool>, from: nat := 0): (i: nat)
    requires from < |bitmap| && bitmap[|bitmap| - 1]
    ensures from <= i < |bitmap| && bitmap[i]
    ensures forall j :: from <= j < i ==> !bitmap[j]
    decreases |bitmap| - from
  {
    if bitmap[from] then from else FirstBit(bitmap, from + 1)
  }

  function First<E>(a: PrioArray<E>): nat
    requires Shape(a)
  {
    FirstBit(a.bitmap)
  }

  /** The first set bit is the least key, and the delimiter if there is none. */
  lemma FirstIsLeast<E>(a: PrioArray<E>, key: map<E, int>)
    requires Represents(a, key)
    ensures key == map[] <==> First(a) == MAX_PRIO
    ensures First(a) < MAX_PRIO ==> a.queue[First(a)] != [] && ListExact(a.queue[First(a)], true, key, First(a))
    ensures forall e :: e in key ==> First(a) <= key[e]
  {
    var i := First(a);
    if i < MAX_PRIO {
      ListAt(a, key, i);
      assert a.queue[i][0] in a.queue[i];
    }
    forall e | e in key ensures i <= key[e] {
      Linked(a, key, e);
    }
    if key != map[] {
      assert key.Keys != {};
      var e :| e in key;
      assert i <= key[e];
    }
  }

  // ----- the total length -----

  function Total<E>(q: seq<seq<E>>): nat {
    if q == [] then 0 else |q[0]| + Total(q[1..])
  }

  ghost function Below<E>(key: map<E, int>, n: int): set<E> {
    set e | e in key && key[e] < n
  }

  lemma BelowStep<E>(list: seq<E>, bit: bool, key: map<E, int>, n: int)
    requires ListExact(list, bit, key, n - 1)
    ensures |Below(key, n)| == |Below(key, n - 1)| + |list|
  {
    var here := set e | e in list;
    ListSize(list);
    assert Below(key, n) == Below(key, n - 1) + here;
    assert Below(key, n - 1) !! here;
  }

  /** The elements of the first `n` lists are as many as the keys below `n`. */
  lemma {:induction false} TotalBelow<E>(a: PrioArray<E>, key: map<E, int>, n: nat)
    requires Represents(a, key) && n <= MAX_PRIO
    ensures Total(a.queue[..n]) == |Below(key, n)|
  {
    if n > 0 {
      TotalBelow(a, key, n - 1);
      ListAt(a, key, n - 1);
      BelowStep(a.queue[n - 1], a.bitmap[n - 1], key, n);
      TotalSnoc(a.queue[..n - 1], a.queue[n - 1]);
      assert a.queue[..n] == a.queue[..n - 1] + [a.queue[n - 1]];
    } else {
      assert Below(key, n) == {};
    }
  }

  lemma {:induction false} TotalSnoc<E>(q: seq<seq<E>>, l: seq<E>)
    ensures Total(q + [l]) == Total(q) + |l|
  {
    if q == [] {
      assert q + [l] == [l];
    } else {
      TotalSnoc(q[1..], l);
      assert (q + [l])[1..] == q[1..] + [l];
    }
  }

  lemma {:induction false} ListSize<E>(s: seq<E>)
    requires NoDup(s)
    ensures |set e | e in s| == |s|
  {
    if s != [] {
      ListSize(s[1..]);
      assert (set e | e in s) == {s[0]} + (set e | e in s[1..]);
    }
  }

  /** The total length of the lists is the number of linked elements. */
  lemma TotalLength<E>(a: PrioArray<E>, key: map<E, int>)
    requires Represents(a, key)
    ensures Total(a.queue) == |key|
  {
    TotalBelow(a, key, MAX_PRIO);
    assert a.queue[..MAX_PRIO] == a.queue;
    assert Below(key, MAX_PRIO) == key.Keys;
  }
}
