/** Sequence facts used by the reconciliation proofs: mapping a function over a
    sequence, and distinctness, both moved across permutations. */
module Seqs {

  /** The sequence of `f` applied to each element of `s`, in order. */
  function Map<A, B>(f: A -> B, s: seq<A>): seq<B> {
    seq(|s|, i requires 0 <= i < |s| => f(s[i]))
  }

  /** No element occurs twice. */
  predicate Distinct<T(==)>(s: seq<T>) {
    forall i, j :: 0 <= i < j < |s| ==> s[i] != s[j]
  }

  /** `Map` distributes over concatenation. */
  lemma MapConcat<A, B>(f: A -> B, a: seq<A>, b: seq<A>)
    ensures Map(f, a + b) == Map(f, a) + Map(f, b)
  {
  }

  /** Taking out the element at position k removes one occurrence of it, and
      one occurrence of its image under `Map`. */
  lemma MapRemoveAt<A, B>(f: A -> B, b: seq<A>, k: nat)
    requires k < |b|
    ensures multiset(b[..k] + b[k + 1..]) == multiset(b) - multiset{b[k]}
    ensures multiset(Map(f, b)) == multiset{f(b[k])} + multiset(Map(f, b[..k] + b[k + 1..]))
  {
    var left, right := b[..k], b[k + 1..];
    assert b == left + ([b[k]] + right);
    assert multiset(b) == multiset(left) + multiset{b[k]} + multiset(right);
    MapConcat(f, left, [b[k]] + right);
    MapConcat(f, [b[k]], right);
    MapConcat(f, left, right);
    assert Map(f, [b[k]]) == [f(b[k])];
  }

  /** A permutation of a non-empty sequence holds its head somewhere. */
  lemma FindHead<A>(a: seq<A>, b: seq<A>) returns (k: nat)
    requires a != [] && multiset(a) == multiset(b)
    ensures k < |b| && b[k] == a[0]
  {
    assert a[0] in multiset(b);
    k :| 0 <= k < |b| && b[k] == a[0];
  }

  /** Two sequences that are permutations of each other stay permutations of
      each other under `Map`. */
  lemma {:induction false} MapPreservesMultiset<A, B>(f: A -> B, a: seq<A>, b: seq<A>)
    requires multiset(a) == multiset(b)
    ensures multiset(Map(f, a)) == multiset(Map(f, b))
  {
    if a == [] {
      assert |b| == |multiset(b)| == 0;
    } else {
      var k := FindHead(a, b);
      var rest := b[..k] + b[k + 1..];
      MapRemoveAt(f, b, k);
      MapRemoveHead(f, a);
      MapPreservesMultiset(f, a[1..], rest);
    }
  }

  /** `MapRemoveAt` at the head. */
  lemma MapRemoveHead<A, B>(f: A -> B, a: seq<A>)
    requires a != []
    ensures multiset(a[1..]) == multiset(a) - multiset{a[0]}
    ensures multiset(Map(f, a)) == multiset{f(a[0])} + multiset(Map(f, a[1..]))
  {
    MapRemoveAt(f, a, 0);
    assert a[..0] + a[1..] == a[1..];
  }

  /** In a sequence without repetitions every value occurs at most once. */
  lemma {:induction false} DistinctCount<T>(s: seq<T>, x: T)
    requires Distinct(s)
    ensures multiset(s)[x] <= 1
  {
    if s != [] {
      assert s == [s[0]] + s[1..];
      assert Distinct(s[1..]) by {
        forall i, j | 0 <= i < j < |s[1..]| ensures s[1..][i] != s[1..][j] {
          assert s[1..][i] == s[i + 1] && s[1..][j] == s[j + 1];
        }
      }
      DistinctCount(s[1..], x);
      if x == s[0] {
        forall i | 0 <= i < |s[1..]| ensures s[1..][i] != x {
          assert s[1..][i] == s[i + 1];
        }
        assert x !in s[1..];
      }
    }
  }

  /** Two equal elements at different positions make a count of at least two;
      stated the other way round: a count of at most one separates them. */
  lemma SeparatedByCount<T>(s: seq<T>, i: nat, j: nat)
    requires i < j < |s|
    requires multiset(s)[s[i]] <= 1
    ensures s[i] != s[j]
  {
    assert s == s[..j] + s[j..];
    assert s[i] in s[..j];
    assert multiset(s)[s[i]] == multiset(s[..j])[s[i]] + multiset(s[j..])[s[i]];
    assert s[j] in s[j..];
  }

  /** Distinctness is a property of the multiset of elements. */
  lemma DistinctPermutation<T>(a: seq<T>, b: seq<T>)
    requires multiset(a) == multiset(b)
    requires Distinct(a)
    ensures Distinct(b)
  {
    forall i, j | 0 <= i < j < |b| ensures b[i] != b[j] {
      DistinctCount(a, b[i]);
      SeparatedByCount(b, i, j);
    }
  }
}
