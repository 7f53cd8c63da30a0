/** The ordering step shared by both `sortByDate` functions
    (app/utils/post.ts and app/utils/mdx.ts): `Array.prototype.sort` with
    a comparator that subtracts one timestamp from the other.  Since
    ECMAScript 2019 that sort is stable, so its result is fully determined:
    ordered by key and, among equal keys, in input order.  `Sort` is that
    result written as an insertion sort; `SortUnique` shows that it is the
    only sequence with those two properties, so it is the result of any
    stable sort.  `SortInPlace` computes it in place on an array. */
module StableSort {

  /** The two values of `orderBy`. */
  datatype Order = Asc | Desc

  /** Where a key puts an element: ascending keys come first for `Asc`,
      descending keys for `Desc`. */
  function Rank(order: Order, k: int): int {
    if order == Desc then -k else k
  }

  /** The comparator of `sortByDate`: `second - first` for `'desc'`,
      `first - second` otherwise.  A negative result puts `first` before
      `second`.  (The timestamps are doubles in the source; the sign of a
      difference of two doubles is the sign of the exact difference, so
      unbounded integers lose nothing here.) */
  function Compare(order: Order, first: int, second: int): int {
    if order == Desc then second - first else first - second
  }

  /** The comparator is the difference of ranks, so a negative result means
      the later date first for `'desc'` and the earlier date first for
      `'asc'`. */
  lemma CompareMeaning(order: Order, first: int, second: int)
    ensures Compare(order, first, second) == Rank(order, first) - Rank(order, second)
    ensures Compare(order, first, second) < 0 <==> (if order == Desc then first > second else first < second)
  {
  }

  /** `s` is ordered by the comparator: no pair of elements is out of order. */
  ghost predicate Sorted<T>(s: seq<T>, key: T -> int, order: Order) {
    forall i, j :: 0 <= i < j < |s| ==> Rank(order, key(s[i])) <= Rank(order, key(s[j]))
  }

  /** The elements of `s` whose key is `k`, in their order in `s`. */
  function WithKey<T>(s: seq<T>, key: T -> int, k: int): seq<T> {
    if s == [] then []
    else WithKey(s[..|s| - 1], key, k) + (if key(s[|s| - 1]) == k then [s[|s| - 1]] else [])
  }

  /** Equal keys appear in the same relative order in `t` as in `s`, and
      with the same multiplicity: what a stable sort keeps. */
  ghost predicate SameOrderPerKey<T>(t: seq<T>, s: seq<T>, key: T -> int) {
    forall k :: WithKey(t, key, k) == WithKey(s, key, k)
  }

  /** One step of a stable insertion sort: `x` moves left past every element
      the comparator puts strictly after it, and no further. */
  function Insert<T>(s: seq<T>, x: T, key: T -> int, order: Order): seq<T>
    decreases |s|
  {
    if s == [] || Compare(order, key(s[|s| - 1]), key(x)) <= 0 then s + [x]
    else Insert(s[..|s| - 1], x, key, order) + [s[|s| - 1]]
  }

  /** The stable sort of `s` by `key` in direction `order`. */
  function Sort<T>(s: seq<T>, key: T -> int, order: Order): seq<T>
    decreases |s|
  {
    if s == [] then []
    else Insert(Sort(s[..|s| - 1], key, order), s[|s| - 1], key, order)
  }

  // ---------------------------------------------------------------------
  // Insert

  lemma {:induction false} InsertPermutes<T>(s: seq<T>, x: T, key: T -> int, order: Order)
    ensures multiset(Insert(s, x, key, order)) == multiset(s) + multiset{x}
    decreases |s|
  {
    if s == [] || Compare(order, key(s[|s| - 1]), key(x)) <= 0 {
    } else {
      var init, last := s[..|s| - 1], s[|s| - 1];
      InsertPermutes(init, x, key, order);
      assert s == init + [last];
    }
  }

  lemma {:induction false} InsertKeepsSorted<T>(s: seq<T>, x: T, key: T -> int, order: Order)
    requires Sorted(s, key, order)
    ensures Sorted(Insert(s, x, key, order), key, order)
    decreases |s|
  {
    if s == [] || Compare(order, key(s[|s| - 1]), key(x)) <= 0 {
      var r := s + [x];
      forall i, j | 0 <= i < j < |r|
        ensures Rank(order, key(r[i])) <= Rank(order, key(r[j]))
      {
        if j == |s| {
          assert Rank(order, key(s[i])) <= Rank(order, key(s[|s| - 1]));
        }
      }
    } else {
      var init, last := s[..|s| - 1], s[|s| - 1];
      InsertKeepsSorted(init, x, key, order);
      var bound := Rank(order, key(last));
      forall i | 0 <= i < |init| ensures Rank(order, key(init[i])) <= bound {
        assert init[i] == s[i];
      }
      InsertBounded(init, x, key, order, bound);
      var m := Insert(init, x, key, order);
      var r := m + [last];
      forall i, j | 0 <= i < j < |r|
        ensures Rank(order, key(r[i])) <= Rank(order, key(r[j]))
      {
        if j == |m| {
          assert r[i] == m[i];
        } else {
          assert r[i] == m[i] && r[j] == m[j];
        }
      }
    }
  }

  /** A bound on the ranks of `s` and of `x` bounds the ranks of `Insert(s, x)`. */
  lemma {:induction false} InsertBounded<T>(s: seq<T>, x: T, key: T -> int, order: Order, bound: int)
    requires forall i :: 0 <= i < |s| ==> Rank(order, key(s[i])) <= bound
    requires Rank(order, key(x)) <= bound
    ensures forall i :: 0 <= i < |Insert(s, x, key, order)| ==> Rank(order, key(Insert(s, x, key, order)[i])) <= bound
    decreases |s|
  {
    if s == [] || Compare(order, key(s[|s| - 1]), key(x)) <= 0 {
    } else {
      var init := s[..|s| - 1];
      forall i | 0 <= i < |init| ensures Rank(order, key(init[i])) <= bound {
        assert init[i] == s[i];
      }
      InsertBounded(init, x, key, order, bound);
    }
  }

  /** Inserting `x` adds it after every element with the same key. */
  lemma {:induction false} InsertWithKey<T>(s: seq<T>, x: T, key: T -> int, order: Order, k: int)
    ensures WithKey(Insert(s, x, key, order), key, k)
         == WithKey(s, key, k) + (if key(x) == k then [x] else [])
    decreases |s|
  {
    if s == [] || Compare(order, key(s[|s| - 1]), key(x)) <= 0 {
      assert (s + [x])[..|s|] == s;
    } else {
      var init, last := s[..|s| - 1], s[|s| - 1];
      InsertWithKey(init, x, key, order, k);
      var m := Insert(init, x, key, order);
      assert (m + [last])[..|m|] == m;
    }
  }

  /** `Insert` places `x` exactly between a prefix that may precede it and a
      suffix that the comparator puts after it. */
  lemma {:induction false} InsertBetween<T>(a: seq<T>, b: seq<T>, x: T, key: T -> int, order: Order)
    requires a == [] || Compare(order, key(a[|a| - 1]), key(x)) <= 0
    requires forall i :: 0 <= i < |b| ==> Compare(order, key(b[i]), key(x)) > 0
    ensures Insert(a + b, x, key, order) == a + [x] + b
    decreases |b|
  {
    if b == [] {
      assert a + b == a;
    } else {
      var init, last := b[..|b| - 1], b[|b| - 1];
      var ab := a + b;
      assert ab == (a + init) + [last];
      assert Insert(ab, x, key, order) == Insert(a + init, x, key, order) + [last] by {
        assert ab[..|ab| - 1] == a + init;
        assert Compare(order, key(ab[|ab| - 1]), key(x)) > 0;
      }
      InsertBetween(a, init, x, key, order);
      assert (a + [x] + init) + [last] == a + [x] + b;
    }
  }

  // ---------------------------------------------------------------------
  // Sort: ordered, a permutation, stable, and unique with those properties

  lemma {:induction false} SortPermutes<T>(s: seq<T>, key: T -> int, order: Order)
    ensures multiset(Sort(s, key, order)) == multiset(s)
    decreases |s|
  {
    if s != [] {
      var init := s[..|s| - 1];
      SortPermutes(init, key, order);
      InsertPermutes(Sort(init, key, order), s[|s| - 1], key, order);
      assert s == init + [s[|s| - 1]];
    }
  }

  lemma {:induction false} SortIsSorted<T>(s: seq<T>, key: T -> int, order: Order)
    ensures Sorted(Sort(s, key, order), key, order)
    decreases |s|
  {
    if s != [] {
      SortIsSorted(s[..|s| - 1], key, order);
      InsertKeepsSorted(Sort(s[..|s| - 1], key, order), s[|s| - 1], key, order);
    }
  }

  /** Elements with equal keys keep their input order. */
  lemma {:induction false} SortIsStable<T>(s: seq<T>, key: T -> int, order: Order, k: int)
    ensures WithKey(Sort(s, key, order), key, k) == WithKey(s, key, k)
    decreases |s|
  {
    if s != [] {
      SortIsStable(s[..|s| - 1], key, order, k);
      InsertWithKey(Sort(s[..|s| - 1], key, order), s[|s| - 1], key, order, k);
    }
  }

  /** For the results the source relies on: `'desc'` gives non-increasing
      keys, `'asc'` non-decreasing ones, nothing is added or dropped, and
      equal keys keep their input order. */
  lemma SortContract<T>(s: seq<T>, key: T -> int, order: Order)
    ensures var r := Sort(s, key, order);
      && |r| == |s|
      && multiset(r) == multiset(s)
      && SameOrderPerKey(r, s, key)
      && (order == Desc ==> forall i, j :: 0 <= i < j < |r| ==> key(r[i]) >= key(r[j]))
      && (order == Asc ==> forall i, j :: 0 <= i < j < |r| ==> key(r[i]) <= key(r[j]))
  {
    SortPermutes(s, key, order);
    SortIsSorted(s, key, order);
    var r := Sort(s, key, order);
    assert |r| == |multiset(r)| == |multiset(s)| == |s|;
    forall k ensures WithKey(r, key, k) == WithKey(s, key, k) {
      SortIsStable(s, key, order, k);
    }
    if order == Desc {
      forall i, j | 0 <= i < j < |r| ensures key(r[i]) >= key(r[j]) {
        assert Rank(order, key(r[i])) <= Rank(order, key(r[j]));
      }
    } else {
      forall i, j | 0 <= i < j < |r| ensures key(r[i]) <= key(r[j]) {
        assert Rank(order, key(r[i])) <= Rank(order, key(r[j]));
      }
    }
  }

  /** The last element of `t` with key `k`, or -1.  */
  function LastWithKey<T>(t: seq<T>, key: T -> int, k: int): (j: int)
    ensures -1 <= j < |t|
    ensures j >= 0 ==> key(t[j]) == k
    ensures forall i :: j < i < |t| ==> key(t[i]) != k
    decreases |t|
  {
    if t == [] then -1
    else if key(t[|t| - 1]) == k then |t| - 1
    else LastWithKey(t[..|t| - 1], key, k)
  }

  lemma {:induction false} WithKeyEmptyOnlyWhenAbsent<T>(t: seq<T>, key: T -> int)
    requires t != []
    ensures WithKey(t, key, key(t[|t| - 1])) != []
  {
  }

  /** Removing the last element with key `k` removes the last element of
      `WithKey(t, key, k)` and leaves every other key's elements alone. */
  lemma {:induction false} RemoveLastWithKey<T>(t: seq<T>, key: T -> int, k: int)
    requires WithKey(t, key, k) != []
    ensures var j := LastWithKey(t, key, k);
      var w := WithKey(t, key, k);
      && 0 <= j
      && t[j] == w[|w| - 1]
      && WithKey(t[..j] + t[j + 1..], key, k) == w[..|w| - 1]
      && forall k' :: k' != k ==> WithKey(t[..j] + t[j + 1..], key, k') == WithKey(t, key, k')
    decreases |t|
  {
    var init, last := t[..|t| - 1], t[|t| - 1];
    if key(last) == k {
      assert t[..|t| - 1] + t[|t|..] == init;
    } else {
      RemoveLastWithKey(init, key, k);
      var j := LastWithKey(init, key, k);
      assert t[..j] + t[j + 1..] == (init[..j] + init[j + 1..]) + [last];
      var rest := init[..j] + init[j + 1..];
      assert (rest + [last])[..|rest|] == rest;
    }
  }

  lemma RemoveKeepsSorted<T>(t: seq<T>, j: nat, key: T -> int, order: Order)
    requires j < |t|
    requires Sorted(t, key, order)
    ensures Sorted(t[..j] + t[j + 1..], key, order)
  {
    var t' := t[..j] + t[j + 1..];
    forall p, q | 0 <= p < q < |t'|
      ensures Rank(order, key(t'[p])) <= Rank(order, key(t'[q]))
    {
      var p1 := if p < j then p else p + 1;
      var q1 := if q < j then q else q + 1;
      assert t'[p] == t[p1] && t'[q] == t[q1] && p1 < q1;
    }
  }

  /** A stable sort's result is determined: a sequence ordered by the
      comparator that keeps each key's elements in input order is `Sort(s)`.
      So `Sort` is what ECMAScript's stable `Array.prototype.sort` returns. */
  lemma {:induction false} SortUnique<T>(t: seq<T>, s: seq<T>, key: T -> int, order: Order)
    requires Sorted(t, key, order)
    requires SameOrderPerKey(t, s, key)
    ensures t == Sort(s, key, order)
    decreases |s|
  {
    if s == [] {
      if t != [] {
        WithKeyEmptyOnlyWhenAbsent(t, key);
        assert false;
      }
    } else {
      var init, x := s[..|s| - 1], s[|s| - 1];
      var k := key(x);
      assert WithKey(s, key, k) == WithKey(init, key, k) + [x];
      RemoveLastWithKey(t, key, k);
      var j := LastWithKey(t, key, k);
      var t' := t[..j] + t[j + 1..];
      RemoveKeepsSorted(t, j, key, order);
      forall k' ensures WithKey(t', key, k') == WithKey(init, key, k') {
        if k' != k {
          assert WithKey(s, key, k') == WithKey(init, key, k');
        }
      }
      SortUnique(t', init, key, order);
      ReinsertLastWithKey(t, key, order, k);
    }
  }

  /** Putting the last element with key `k` back with `Insert` restores a
      sorted sequence. */
  lemma ReinsertLastWithKey<T>(t: seq<T>, key: T -> int, order: Order, k: int)
    requires Sorted(t, key, order)
    requires 0 <= LastWithKey(t, key, k)
    ensures var j := LastWithKey(t, key, k);
      Insert(t[..j] + t[j + 1..], t[j], key, order) == t
  {
    var j := LastWithKey(t, key, k);
    var a, x, b := t[..j], t[j], t[j + 1..];
    forall i | 0 <= i < |b| ensures Compare(order, key(b[i]), key(x)) > 0 {
      assert b[i] == t[j + 1 + i];
      assert Rank(order, key(t[j])) <= Rank(order, key(t[j + 1 + i]));
    }
    if a != [] {
      assert a[|a| - 1] == t[j - 1];
      assert Rank(order, key(t[j - 1])) <= Rank(order, key(t[j]));
    }
    InsertBetween(a, b, x, key, order);
    assert t == a + [x] + b by {
      assert |a + [x] + b| == |t|;
      forall i | 0 <= i < |t| ensures (a + [x] + b)[i] == t[i] { }
    }
  }

  // ---------------------------------------------------------------------
  // In place

  /** `Insert` puts `x` right after the last element that may precede it:
      at `j` when everything from `j` on must follow `x` and `done[j - 1]`
      may precede it. */
  lemma {:induction false} InsertAt<T>(done: seq<T>, j: nat, x: T, key: T -> int, order: Order)
    requires j <= |done|
    requires j == 0 || Compare(order, key(done[j - 1]), key(x)) <= 0
    requires forall k :: j <= k < |done| ==> Compare(order, key(done[k]), key(x)) > 0
    ensures Insert(done, x, key, order) == done[..j] + [x] + done[j..]
    decreases |done|
  {
    if j == |done| {
      assert done[..j] == done && done[j..] == [];
    } else {
      var init, last := done[..|done| - 1], done[|done| - 1];
      assert j == 0 || init[j - 1] == done[j - 1];
      forall k | j <= k < |init| ensures Compare(order, key(init[k]), key(x)) > 0 {
        assert init[k] == done[k];
      }
      InsertAt(init, j, x, key, order);
      assert init[..j] == done[..j];
      assert init[j..] + [last] == done[j..];
    }
  }

  /** One insertion step in place: `a[i]` moves left into the sorted
      prefix `a[..i]`, shifting the elements it passes one place right. */
  method InsertInPlace<T>(a: array<T>, i: nat, key: T -> int, order: Order)
    requires i < a.Length
    modifies a
    ensures a[..i + 1] == Insert(old(a[..i]), old(a[i]), key, order)
    ensures a[i + 1..] == old(a[i + 1..])
  {
    ghost var done := a[..i];
    var x := a[i];
    var j := i;
    while j > 0 && Compare(order, key(a[j - 1]), key(x)) > 0
      invariant 0 <= j <= i
      invariant forall k :: 0 <= k < j ==> a[k] == done[k]
      invariant forall k :: j < k <= i ==> a[k] == done[k - 1]
      invariant forall k :: i < k < a.Length ==> a[k] == old(a[k])
      invariant forall k :: j <= k < i ==> Compare(order, key(done[k]), key(x)) > 0
    {
      a[j] := a[j - 1];
      j := j - 1;
    }
    InsertAt(done, j, x, key, order);
    a[j] := x;
    Placed(a[..], done, j, x);
  }

  /** The array contents when `InsertInPlace` has put `x` at `j`. */
  lemma Placed<T>(after: seq<T>, done: seq<T>, j: nat, x: T)
    requires j <= |done| < |after|
    requires forall k :: 0 <= k < j ==> after[k] == done[k]
    requires after[j] == x
    requires forall k :: j < k <= |done| ==> after[k] == done[k - 1]
    ensures after[..|done| + 1] == done[..j] + [x] + done[j..]
  {
    var r := done[..j] + [x] + done[j..];
    forall k | 0 <= k <= |done| ensures after[k] == r[k] {
      if k < j {
      } else if k == j {
      } else {
        assert r[k] == done[j..][k - j - 1];
      }
    }
  }

  lemma SortExtends<T>(s: seq<T>, i: nat, key: T -> int, order: Order)
    requires i < |s|
    ensures Sort(s[..i + 1], key, order) == Insert(Sort(s[..i], key, order), s[i], key, order)
  {
    assert s[..i + 1][..i] == s[..i];
  }

  /** `Array.prototype.sort` on `a` with the comparator of `sortByDate`:
      afterwards `a` holds the stable sort of what it held before. */
  method SortInPlace<T>(a: array<T>, key: T -> int, order: Order)
    modifies a
    ensures a[..] == Sort(old(a[..]), key, order)
  {
    ghost var input := a[..];
    var i := 0;
    while i < a.Length
      invariant 0 <= i <= a.Length
      invariant a[..i] == Sort(input[..i], key, order)
      invariant a[i..] == input[i..]
    {
      assert a[i] == input[i];
      ghost var rest := a[i + 1..];
      assert rest == input[i + 1..] by {
        assert a[i + 1..] == a[i..][1..] && input[i + 1..] == input[i..][1..];
      }
      InsertInPlace(a, i, key, order);
      SortExtends(input, i, key, order);
      i := i + 1;
    }
    assert input[..a.Length] == input;
  }
}
