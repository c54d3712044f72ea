/**
 * Python's `sorted(xs, key=k)`: a stable sort on the value of a key.
 * Every key the OCR service sorts by is an integer or a pair of integers
 * compared lexicographically, so keys are modelled as pairs (an integer
 * key `k` is the pair `(k, 0)`).
 */
module Sorting {

  type Key = (int, int)

  /** Lexicographic order on pairs, the order Python uses on tuples. */
  predicate KeyLe(a: Key, b: Key) {
    a.0 < b.0 || (a.0 == b.0 && a.1 <= b.1)
  }

  ghost predicate SortedBy<T>(s: seq<T>, key: T -> Key) {
    forall i, j :: 0 <= i < j < |s| ==> KeyLe(key(s[i]), key(s[j]))
  }

  /** The elements of `s` whose key is `k`, in their order in `s`. */
  function WithKey<T>(s: seq<T>, key: T -> Key, k: Key): seq<T> {
    if s == [] then []
    else WithKey(s[..|s| - 1], key, k) + (if key(s[|s| - 1]) == k then [s[|s| - 1]] else [])
  }

  /** Puts `x` after every element whose key is not greater than its own. */
  function Insert<T>(x: T, s: seq<T>, key: T -> Key): (r: seq<T>)
    ensures |r| == |s| + 1
  {
    if s == [] || KeyLe(key(s[|s| - 1]), key(x)) then s + [x]
    else Insert(x, s[..|s| - 1], key) + [s[|s| - 1]]
  }

  /** Insertion sort, one element at a time from the left: stable. */
  function SortBy<T>(s: seq<T>, key: T -> Key): (r: seq<T>)
    ensures |r| == |s|
  {
    if s == [] then [] else Insert(s[|s| - 1], SortBy(s[..|s| - 1], key), key)
  }

  lemma {:induction false} InsertPerm<T>(x: T, s: seq<T>, key: T -> Key)
    ensures multiset(Insert(x, s, key)) == multiset(s) + multiset{x}
  {
    if s == [] || KeyLe(key(s[|s| - 1]), key(x)) {
    } else {
      var init, last := s[..|s| - 1], s[|s| - 1];
      InsertPerm(x, init, key);
      assert s == init + [last];
    }
  }

  lemma {:induction false} InsertSorted<T>(x: T, s: seq<T>, key: T -> Key)
    requires SortedBy(s, key)
    ensures SortedBy(Insert(x, s, key), key)
  {
    if s == [] || KeyLe(key(s[|s| - 1]), key(x)) {
    } else {
      var init, last := s[..|s| - 1], s[|s| - 1];
      InsertSorted(x, init, key);
      InsertPerm(x, init, key);
      var r := Insert(x, init, key);
      forall i | 0 <= i < |r| ensures KeyLe(key(r[i]), key(last)) {
        assert r[i] in multiset(r);
        assert r[i] == x || r[i] in multiset(init);
        if r[i] != x {
          var j :| 0 <= j < |init| && init[j] == r[i];
          assert s[j] == init[j];
        }
      }
    }
  }

  lemma WithKeyAppend<T>(s: seq<T>, t: seq<T>, key: T -> Key, k: Key)
    ensures WithKey(s + t, key, k) == WithKey(s, key, k) + WithKey(t, key, k)
    decreases |t|
  {
    if t == [] {
      assert s + t == s;
    } else {
      var t', y := t[..|t| - 1], t[|t| - 1];
      assert (s + t)[..|s + t| - 1] == s + t';
      WithKeyAppend(s, t', key, k);
    }
  }

  lemma {:induction false} InsertWithKey<T>(x: T, s: seq<T>, key: T -> Key, k: Key)
    ensures WithKey(Insert(x, s, key), key, k)
         == WithKey(s, key, k) + (if key(x) == k then [x] else [])
  {
    if s == [] || KeyLe(key(s[|s| - 1]), key(x)) {
      WithKeyAppend(s, [x], key, k);
    } else {
      var init, last := s[..|s| - 1], s[|s| - 1];
      InsertWithKey(x, init, key, k);
      WithKeyAppend(Insert(x, init, key), [last], key, k);
      assert key(last) != key(x);
    }
  }

  /** The sort is a permutation of its input. */
  lemma {:induction false} SortByPerm<T>(s: seq<T>, key: T -> Key)
    ensures multiset(SortBy(s, key)) == multiset(s)
  {
    if s != [] {
      var init, last := s[..|s| - 1], s[|s| - 1];
      SortByPerm(init, key);
      InsertPerm(last, SortBy(init, key), key);
      assert s == init + [last];
    }
  }

  /** The result is in non-decreasing key order. */
  lemma {:induction false} SortBySorted<T>(s: seq<T>, key: T -> Key)
    ensures SortedBy(SortBy(s, key), key)
  {
    if s != [] {
      SortBySorted(s[..|s| - 1], key);
      InsertSorted(s[|s| - 1], SortBy(s[..|s| - 1], key), key);
    }
  }

  /** Sorting a list already in key order gives it back unchanged. */
  lemma {:induction false} SortBySortedInput<T>(s: seq<T>, key: T -> Key)
    requires SortedBy(s, key)
    ensures SortBy(s, key) == s
  {
    if s != [] {
      var init := s[..|s| - 1];
      assert SortedBy(init, key);
      SortBySortedInput(init, key);
      if |init| > 0 {
        assert KeyLe(key(init[|init| - 1]), key(s[|s| - 1]));
      }
    }
  }

  /** Stability: elements with equal keys keep their relative order. */
  lemma {:induction false} SortByStable<T>(s: seq<T>, key: T -> Key, k: Key)
    ensures WithKey(SortBy(s, key), key, k) == WithKey(s, key, k)
  {
    if s != [] {
      var init, last := s[..|s| - 1], s[|s| - 1];
      SortByStable(init, key, k);
      InsertWithKey(last, SortBy(init, key), key, k);
    }
  }
}
