/** Counting facts used where a bounded structure must be exhausted. */
module Pigeonhole {

  ghost predicate Distinct<T(!new)>(s: seq<T>) {
    forall i, j :: 0 <= i < j < |s| ==> s[i] != s[j]
  }

  ghost function Range(n: nat): (r: set<int>)
    ensures forall x :: x in r <==> 0 <= x < n
  {
    if n == 0 then {} else Range(n - 1) + {n - 1}
  }

  lemma {:induction false} RangeSize(n: nat)
    ensures |Range(n)| == n
  {
    if n > 0 {
      RangeSize(n - 1);
    }
  }

  ghost function Elements<T(!new)>(s: seq<T>): (r: set<T>)
    ensures forall x :: x in r <==> x in s
  {
    set x | x in s
  }

  lemma {:induction false} DistinctSize<T(!new)>(s: seq<T>)
    requires Distinct(s)
    ensures |Elements(s)| == |s|
  {
    if s == [] {
      assert Elements(s) == {};
    } else {
      var rest, last := s[..|s| - 1], s[|s| - 1];
      assert s == rest + [last];
      assert last !in rest;
      assert Elements(s) == Elements(rest) + {last};
      DistinctSize(rest);
    }
  }

  lemma SubsetSize<T>(a: set<T>, b: set<T>)
    requires a <= b
    ensures |a| <= |b|
    ensures |a| == |b| ==> a == b
  {
    var rest := b - a;
    assert b == a + rest && a !! rest;
  }

  /** Distinct values below n, n of them, are all the values below n. */
  lemma DistinctCoversRange(s: seq<int>, n: nat)
    requires Distinct(s) && |s| == n && forall x :: x in s ==> 0 <= x < n
    ensures forall c :: 0 <= c < n ==> c in s
  {
    DistinctSize(s);
    RangeSize(n);
    SubsetSize(Elements(s), Range(n));
    assert forall c :: 0 <= c < n ==> c in Range(n);
  }
}
