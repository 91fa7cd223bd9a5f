/** Finite counting facts shared by the table models. */
module Counting {

  /** The set of the first n natural numbers. */
  function Range(n: nat): (r: set<nat>)
    ensures |r| == n
    ensures forall j :: j in r <==> 0 <= j < n
  {
    if n == 0 then {} else Range(n - 1) + {n - 1}
  }

  function Elements<T(==,!new)>(s: seq<T>): (r: set<T>)
    ensures forall x :: x in r <==> x in s
  {
    set x | x in s
  }

  predicate Distinct<T(==)>(s: seq<T>) {
    forall i, j :: 0 <= i < j < |s| ==> s[i] != s[j]
  }

  lemma {:induction false} DistinctSize<T(!new)>(s: seq<T>)
    requires Distinct(s)
    ensures |Elements(s)| == |s|
  {
    if s != [] {
      var n := |s| - 1;
      DistinctSize(s[..n]);
      assert s == s[..n] + [s[n]];
      assert s[n] !in s[..n];
      assert Elements(s) == Elements(s[..n]) + {s[n]};
    }
  }

  lemma SubsetSize<T>(a: set<T>, b: set<T>)
    requires a <= b
    ensures |a| <= |b|
    ensures |a| == |b| ==> a == b
  {
    assert b == a + (b - a);
  }

  /** A list without repetitions drawn from a set is no longer than the set is large. */
  lemma DistinctWithin<T(!new)>(s: seq<T>, b: set<T>)
    requires Distinct(s)
    requires forall x :: x in s ==> x in b
    ensures |s| <= |b|
    ensures |s| == |b| ==> forall x :: x in b ==> x in s
  {
    DistinctSize(s);
    SubsetSize(Elements(s), b);
  }

  /** A repetition-free list of numbers below n has at most n entries, and n exactly when it lists them all. */
  lemma DistinctFills(s: seq<nat>, n: nat)
    requires Distinct(s)
    requires forall t :: 0 <= t < |s| ==> s[t] < n
    ensures |s| <= n
    ensures |s| == n <==> forall j :: 0 <= j < n ==> j in s
  {
    DistinctSize(s);
    SubsetSize(Elements(s), Range(n));
    if |s| == n {
      forall j | 0 <= j < n ensures j in s {
        assert j in Range(n);
      }
    }
    if forall j :: 0 <= j < n ==> j in s {
      assert Elements(s) == Range(n);
    }
  }
}
