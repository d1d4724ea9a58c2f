/** `Array.prototype.sort` with a comparator `(a, b) => key(a) - key(b)`: since
    ECMAScript 2019 the sort is stable, so it is modelled as a stable insertion
    sort by an integer key. */
module Sorting {

  /** Keys never decrease along the sequence. */
  predicate SortedBy<T>(s: seq<T>, key: T -> int) {
    forall i, j :: 0 <= i < j < |s| ==> key(s[i]) <= key(s[j])
  }

  /** The elements of `s` whose key is `k`, in their order in `s`. */
  function WithKey<T>(s: seq<T>, key: T -> int, k: int): seq<T> {
    if s == [] then []
    else if key(s[0]) == k then [s[0]] + WithKey(s[1..], key, k)
    else WithKey(s[1..], key, k)
  }

  /** `x` placed in front of the first element whose key is not smaller. */
  function Insert<T>(x: T, s: seq<T>, key: T -> int): seq<T> {
    if s == [] || key(x) <= key(s[0]) then [x] + s
    else [s[0]] + Insert(x, s[1..], key)
  }

  function SortBy<T>(s: seq<T>, key: T -> int): seq<T> {
    if s == [] then [] else Insert(s[0], SortBy(s[1..], key), key)
  }

  lemma {:induction false} InsertPermutation<T>(x: T, s: seq<T>, key: T -> int)
    ensures multiset(Insert(x, s, key)) == multiset{x} + multiset(s)
  {
    if s != [] && key(x) > key(s[0]) {
      InsertPermutation(x, s[1..], key);
      assert s == [s[0]] + s[1..];
    }
  }

  /** The sort returns a permutation of its input. */
  lemma {:induction false} SortByPermutation<T>(s: seq<T>, key: T -> int)
    ensures multiset(SortBy(s, key)) == multiset(s)
    ensures |SortBy(s, key)| == |s|
  {
    if s != [] {
      SortByPermutation(s[1..], key);
      InsertPermutation(s[0], SortBy(s[1..], key), key);
      assert s == [s[0]] + s[1..];
    }
    assert |SortBy(s, key)| == |multiset(SortBy(s, key))|;
  }

  /** The length part of `SortByPermutation`, for callers that need no more. */
  lemma SortByLength<T>(s: seq<T>, key: T -> int)
    ensures |SortBy(s, key)| == |s|
  {
    SortByPermutation(s, key);
  }

  /** Every input element has a position in the sorted sequence. */
  lemma SortByHolds<T>(s: seq<T>, key: T -> int, j: nat) returns (i: nat)
    requires j < |s|
    ensures i < |SortBy(s, key)| && SortBy(s, key)[i] == s[j]
  {
    SortByPermutation(s, key);
    assert s[j] in multiset(SortBy(s, key));
    i :| 0 <= i < |SortBy(s, key)| && SortBy(s, key)[i] == s[j];
  }

  lemma {:induction false} InsertSorted<T>(x: T, s: seq<T>, key: T -> int)
    requires SortedBy(s, key)
    ensures SortedBy(Insert(x, s, key), key)
  {
    if s != [] && key(x) > key(s[0]) {
      var t := s[1..];
      assert SortedBy(t, key) by {
        forall i, j | 0 <= i < j < |t| ensures key(t[i]) <= key(t[j]) {
          assert t[i] == s[i + 1] && t[j] == s[j + 1];
        }
      }
      InsertSorted(x, t, key);
      InsertPermutation(x, t, key);
      var r := Insert(x, t, key);
      forall j | 0 <= j < |r| ensures key(s[0]) <= key(r[j]) {
        assert r[j] in multiset(r);
        if r[j] != x {
          assert r[j] in t;
          var m :| 0 <= m < |t| && t[m] == r[j];
          assert t[m] == s[m + 1];
        }
      }
    }
  }

  /** The sort returns its input in ascending key order. */
  lemma {:induction false} SortBySorted<T>(s: seq<T>, key: T -> int)
    ensures SortedBy(SortBy(s, key), key)
  {
    if s != [] {
      SortBySorted(s[1..], key);
      InsertSorted(s[0], SortBy(s[1..], key), key);
    }
  }

  lemma {:induction false} InsertWithKey<T>(x: T, s: seq<T>, key: T -> int, k: int)
    ensures WithKey(Insert(x, s, key), key, k) ==
            if key(x) == k then [x] + WithKey(s, key, k) else WithKey(s, key, k)
  {
    if s != [] && key(x) > key(s[0]) {
      InsertWithKey(x, s[1..], key, k);
      assert Insert(x, s, key)[1..] == Insert(x, s[1..], key);
    } else {
      assert Insert(x, s, key)[1..] == s;
    }
  }

  /** Stability: among elements with equal keys, the sort keeps the input
      order. */
  lemma {:induction false} SortByStable<T>(s: seq<T>, key: T -> int, k: int)
    ensures WithKey(SortBy(s, key), key, k) == WithKey(s, key, k)
  {
    if s != [] {
      SortByStable(s[1..], key, k);
      InsertWithKey(s[0], SortBy(s[1..], key), key, k);
    }
  }

  /** The last element of the sorted sequence comes from the input and has the
      largest key. */
  lemma SortByLast<T>(s: seq<T>, key: T -> int)
    requires s != []
    ensures var r := SortBy(s, key);
            |r| == |s| && r[|r| - 1] in s &&
            forall j :: 0 <= j < |s| ==> key(s[j]) <= key(r[|r| - 1])
  {
    var r := SortBy(s, key);
    SortByPermutation(s, key);
    SortBySorted(s, key);
    assert |r| == |multiset(r)| == |multiset(s)| == |s|;
    assert r[|r| - 1] in multiset(r);
    forall j | 0 <= j < |s| ensures key(s[j]) <= key(r[|r| - 1]) {
      assert s[j] in multiset(r);
      var m :| 0 <= m < |r| && r[m] == s[j];
    }
  }
}
