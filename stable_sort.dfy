/** JavaScript's `Array.prototype.sort` with a numeric comparator
    `(a, b) => key(a) - key(b)`. The language requires this sort to be stable,
    so it is modelled as a stable insertion sort, specified by three facts:
    the result is ordered by key, it is a permutation of the input, and the
    elements sharing a key keep their input order. */
module StableSort {

  predicate SortedBy<T>(s: seq<T>, key: T -> int) {
    forall i, j :: 0 <= i < j < |s| ==> key(s[i]) <= key(s[j])
  }

  /** The elements of `s` whose key is `k`, in their order in `s`. */
  function WithKey<T>(s: seq<T>, key: T -> int, k: int): seq<T> {
    if s == [] then []
    else WithKey(s[..|s| - 1], key, k) + (if key(s[|s| - 1]) == k then [s[|s| - 1]] else [])
  }

  /** Insert `x` after every element whose key is not greater than its own. */
  function InsertLast<T>(s: seq<T>, x: T, key: T -> int): (r: seq<T>)
    ensures |r| == |s| + 1
  {
    if s == [] || key(s[|s| - 1]) <= key(x) then s + [x]
    else InsertLast(s[..|s| - 1], x, key) + [s[|s| - 1]]
  }

  /** `s.slice().sort((a, b) => key(a) - key(b))`. */
  function Sort<T>(s: seq<T>, key: T -> int): (r: seq<T>)
    ensures |r| == |s|
  {
    if s == [] then [] else InsertLast(Sort(s[..|s| - 1], key), s[|s| - 1], key)
  }

  lemma {:induction false} WithKeyAppend<T>(a: seq<T>, b: seq<T>, key: T -> int, k: int)
    ensures WithKey(a + b, key, k) == WithKey(a, key, k) + WithKey(b, key, k)
    decreases |b|
  {
    if b == [] {
      assert a + b == a;
    } else {
      assert (a + b)[..|a + b| - 1] == a + b[..|b| - 1];
      WithKeyAppend(a, b[..|b| - 1], key, k);
    }
  }

  lemma {:induction false} InsertLastPermutes<T>(s: seq<T>, x: T, key: T -> int)
    ensures multiset(InsertLast(s, x, key)) == multiset(s) + multiset{x}
    decreases |s|
  {
    if !(s == [] || key(s[|s| - 1]) <= key(x)) {
      var init, last := s[..|s| - 1], s[|s| - 1];
      assert s == init + [last];
      InsertLastPermutes(init, x, key);
    }
  }

  /** Every element of the result is either `x` or an element of `s` (and so
      its key is bounded by the keys it is placed among). */
  lemma {:induction false} InsertLastElements<T>(s: seq<T>, x: T, key: T -> int)
    ensures forall y :: y in InsertLast(s, x, key) ==> y in s || y == x
    decreases |s|
  {
    if !(s == [] || key(s[|s| - 1]) <= key(x)) {
      InsertLastElements(s[..|s| - 1], x, key);
    }
  }

  lemma {:induction false} InsertLastSorted<T>(s: seq<T>, x: T, key: T -> int)
    requires SortedBy(s, key)
    ensures SortedBy(InsertLast(s, x, key), key)
    decreases |s|
  {
    if !(s == [] || key(s[|s| - 1]) <= key(x)) {
      var init, last := s[..|s| - 1], s[|s| - 1];
      assert SortedBy(init, key);
      InsertLastSorted(init, x, key);
      InsertLastElements(init, x, key);
      var r' := InsertLast(init, x, key);
      forall i | 0 <= i < |r'| ensures key(r'[i]) <= key(last) {
        if r'[i] in init {
          var j :| 0 <= j < |init| && init[j] == r'[i];
          assert s[j] == init[j];
        }
      }
    }
  }

  lemma {:induction false} InsertLastStable<T>(s: seq<T>, x: T, key: T -> int, k: int)
    ensures WithKey(InsertLast(s, x, key), key, k) == WithKey(s, key, k) + WithKey([x], key, k)
    decreases |s|
  {
    assert WithKey([x], key, k) == WithKey([], key, k) + (if key(x) == k then [x] else []);
    if s == [] || key(s[|s| - 1]) <= key(x) {
      WithKeyAppend(s, [x], key, k);
    } else {
      var init, last := s[..|s| - 1], s[|s| - 1];
      assert s == init + [last];
      InsertLastStable(init, x, key, k);
      var r' := InsertLast(init, x, key);
      WithKeyAppend(r', [last], key, k);
      WithKeyAppend(init, [last], key, k);
      assert WithKey([last], key, k) == WithKey([], key, k) + (if key(last) == k then [last] else []);
    }
  }

  /** The sort orders by key, permutes its input, and is stable. */
  lemma {:induction false} SortFacts<T>(s: seq<T>, key: T -> int)
    ensures SortedBy(Sort(s, key), key)
    ensures multiset(Sort(s, key)) == multiset(s)
    ensures |Sort(s, key)| == |s|
    ensures forall k :: WithKey(Sort(s, key), key, k) == WithKey(s, key, k)
    decreases |s|
  {
    if s != [] {
      var init, last := s[..|s| - 1], s[|s| - 1];
      assert s == init + [last];
      SortFacts(init, key);
      InsertLastPermutes(Sort(init, key), last, key);
      InsertLastSorted(Sort(init, key), last, key);
      forall k ensures WithKey(Sort(s, key), key, k) == WithKey(s, key, k) {
        InsertLastStable(Sort(init, key), last, key, k);
        WithKeyAppend(init, [last], key, k);
      }
      assert |multiset(Sort(s, key))| == |multiset(s)|;
    }
  }

  /** Sorting a sequence that is already ordered leaves it as it is (the
      calendar sorts each day's events a second time before drawing them). */
  lemma {:induction false} SortSortedIsIdentity<T>(s: seq<T>, key: T -> int)
    requires SortedBy(s, key)
    ensures Sort(s, key) == s
    decreases |s|
  {
    if s != [] {
      var init := s[..|s| - 1];
      assert SortedBy(init, key);
      SortSortedIsIdentity(init, key);
      assert s == init + [s[|s| - 1]];
    }
  }
}
