/** Python's `sorted(xs, key=...)`, which the merge engine uses twice: a
    stable sort, so that elements with equal keys keep their original order.
    `sorted(..., reverse=True)` is also stable, and equals this sort under
    the negated key. */
module StableSort {

  /** x placed after every element whose key is not greater than its own. */
  function Insert<T>(x: T, xs: seq<T>, key: T -> int): seq<T>
    decreases |xs|
  {
    if xs == [] then [x]
    else if key(x) < key(xs[0]) then [x] + xs
    else [xs[0]] + Insert(x, xs[1..], key)
  }

  /** Insertion sort, taking the elements first to last. */
  function SortBy<T>(xs: seq<T>, key: T -> int): seq<T>
    decreases |xs|
  {
    if xs == [] then []
    else Insert(xs[|xs| - 1], SortBy(xs[..|xs| - 1], key), key)
  }

  predicate Ordered<T>(s: seq<T>, key: T -> int) {
    forall i, j :: 0 <= i < j < |s| ==> key(s[i]) <= key(s[j])
  }

  /** The elements of s whose key is v, in order. */
  function WithKey<T>(s: seq<T>, key: T -> int, v: int): seq<T>
    decreases |s|
  {
    if s == [] then []
    else (if key(s[0]) == v then [s[0]] else []) + WithKey(s[1..], key, v)
  }

  lemma {:induction false} WithKeyAppend<T>(a: seq<T>, b: seq<T>, key: T -> int, v: int)
    ensures WithKey(a + b, key, v) == WithKey(a, key, v) + WithKey(b, key, v)
    decreases |a|
  {
    if a != [] {
      assert (a + b)[1..] == a[1..] + b;
      WithKeyAppend(a[1..], b, key, v);
    } else {
      assert a + b == b;
    }
  }

  /** The elements of a one-element sequence with key v. */
  lemma WithKeySingle<T>(x: T, key: T -> int, v: int)
    ensures WithKey([x], key, v) == if key(x) == v then [x] else []
  {
    assert [x][1..] == [];
  }

  /** Insertion adds exactly the element. */
  lemma {:induction false} InsertPermutes<T>(x: T, xs: seq<T>, key: T -> int)
    ensures multiset(Insert(x, xs, key)) == multiset(xs) + multiset{x}
    decreases |xs|
  {
    if xs != [] && key(x) >= key(xs[0]) {
      InsertPermutes(x, xs[1..], key);
      assert xs == [xs[0]] + xs[1..];
    }
  }

  /** A lower bound on every key survives insertion of an element above it. */
  lemma {:induction false} InsertBounded<T>(x: T, xs: seq<T>, key: T -> int, lo: int)
    requires lo <= key(x)
    requires forall i :: 0 <= i < |xs| ==> lo <= key(xs[i])
    ensures forall i :: 0 <= i < |Insert(x, xs, key)| ==> lo <= key(Insert(x, xs, key)[i])
    decreases |xs|
  {
    if xs != [] && key(x) >= key(xs[0]) {
      InsertBounded(x, xs[1..], key, lo);
    }
  }

  /** Insertion into a sorted list keeps it sorted. */
  lemma {:induction false} InsertOrdered<T>(x: T, xs: seq<T>, key: T -> int)
    requires Ordered(xs, key)
    ensures Ordered(Insert(x, xs, key), key)
    decreases |xs|
  {
    if xs != [] && key(x) >= key(xs[0]) {
      var rest := Insert(x, xs[1..], key);
      InsertOrdered(x, xs[1..], key);
      InsertBounded(x, xs[1..], key, key(xs[0]));
      assert Insert(x, xs, key) == [xs[0]] + rest;
    }
  }

  /** Inserting x into an ordered sequence: the elements with key v are
      those of xs, followed by x when its key is v. */
  lemma {:induction false} InsertWithKey<T>(x: T, xs: seq<T>, key: T -> int, v: int)
    requires Ordered(xs, key)
    ensures WithKey(Insert(x, xs, key), key, v)
            == WithKey(xs, key, v) + (if key(x) == v then [x] else [])
    decreases |xs|
  {
    if xs == [] {
      WithKeySingle(x, key, v);
    } else if key(x) < key(xs[0]) {
      WithKeyAppend([x], xs, key, v);
      if key(x) == v {
        NoneWithKey(xs, key, v);
      }
      WithKeySingle(x, key, v);
    } else {
      InsertWithKey(x, xs[1..], key, v);
    }
  }

  /** An ordered sequence whose first key exceeds v has no element with key v. */
  lemma {:induction false} NoneWithKey<T>(xs: seq<T>, key: T -> int, v: int)
    requires Ordered(xs, key)
    requires xs != [] ==> v < key(xs[0])
    ensures WithKey(xs, key, v) == []
    decreases |xs|
  {
    if xs != [] {
      if |xs| > 1 {
        assert key(xs[0]) <= key(xs[1]);
      }
      NoneWithKey(xs[1..], key, v);
    }
  }

  /** The result is ordered by key. */
  lemma {:induction false} SortByOrdered<T>(xs: seq<T>, key: T -> int)
    ensures Ordered(SortBy(xs, key), key)
    decreases |xs|
  {
    if xs != [] {
      SortByOrdered(xs[..|xs| - 1], key);
      InsertOrdered(xs[|xs| - 1], SortBy(xs[..|xs| - 1], key), key);
    }
  }

  /** The result is a permutation of the input. */
  lemma {:induction false} SortByPermutes<T>(xs: seq<T>, key: T -> int)
    ensures multiset(SortBy(xs, key)) == multiset(xs)
    decreases |xs|
  {
    if xs != [] {
      var init := xs[..|xs| - 1];
      SortByPermutes(init, key);
      InsertPermutes(xs[|xs| - 1], SortBy(init, key), key);
      assert xs == init + [xs[|xs| - 1]];
    }
  }

  /** Stability: elements with equal keys keep their relative order. */
  lemma {:induction false} SortByStable<T>(xs: seq<T>, key: T -> int, v: int)
    ensures WithKey(SortBy(xs, key), key, v) == WithKey(xs, key, v)
    decreases |xs|
  {
    if xs != [] {
      var init, last := xs[..|xs| - 1], xs[|xs| - 1];
      assert SortBy(xs, key) == Insert(last, SortBy(init, key), key);
      SortByOrdered(init, key);
      SortByStable(init, key, v);
      InsertWithKey(last, SortBy(init, key), key, v);
      assert xs == init + [last];
      WithKeyAppend(init, [last], key, v);
      WithKeySingle(last, key, v);
    }
  }
}
