/** Latency histograms: per-bucket counts, the sparse deltas children report, and the
    percentile read off the counts (bridge/livecommon.py:34-77). */
module Histogram {
  import opened Wrappers

  const BUCKETS: int := 200

  /** A sparse delta: bucket to count. */
  type Delta = map<int, int>

  function Get(d: Delta, k: int): (v: int) {
    if k in d then d[k] else 0
  }

  ghost predicate InRange(d: Delta) {
    forall k :: k in d ==> 0 <= k < BUCKETS
  }

  // ---- merging ------------------------------------------------------------------

  function Zeros(): (c: seq<int>)
    ensures |c| == BUCKETS
  {
    seq(BUCKETS, _ => 0)
  }

  /** Counts plus a delta; keys outside the buckets are ignored. */
  function Merged(counts: seq<int>, d: Delta): (c: seq<int>)
    ensures |c| == |counts|
  {
    seq(|counts|, i requires 0 <= i < |counts| => counts[i] + Get(d, i))
  }

  method AnyOf(s: set<int>) returns (k: int)
    requires s != {}
    ensures k in s
  {
    assert (forall x :: x !in s) ==> s == {};
    k :| k in s;
  }

  /** The part of a delta whose keys are not in `rest`. */
  ghost function Visited(d: Delta, rest: set<int>): Delta {
    map k | k in d && k !in rest :: d[k]
  }

  lemma VisitOne(counts: seq<int>, d: Delta, rest: set<int>, k: int)
    requires k in rest && rest <= d.Keys
    ensures Merged(counts, Visited(d, rest - {k})) ==
            var m := Merged(counts, Visited(d, rest)); if 0 <= k < |counts| then m[k := m[k] + d[k]] else m
  {
    assert Visited(d, rest - {k}) == Visited(d, rest)[k := d[k]];
  }

  method AddAt(counts: array<int>, k: int, v: int)
    requires 0 <= k < counts.Length
    modifies counts
    ensures counts[..] == old(counts[..])[k := old(counts[k]) + v]
  {
    counts[k] := counts[k] + v;
  }

  /** `merge_into`: the delta is visited key by key, in any order. */
  method MergeInto(counts: array<int>, d: Delta)
    requires counts.Length == BUCKETS
    modifies counts
    ensures counts[..] == Merged(old(counts[..]), d)
  {
    ghost var start := counts[..];
    var rest := d.Keys;
    assert Visited(d, rest) == map[];
    assert Merged(start, map[]) == start;
    while rest != {}
      invariant rest <= d.Keys
      invariant counts[..] == Merged(start, Visited(d, rest))
      decreases |rest|
    {
      var k := AnyOf(rest);
      VisitOne(start, d, rest, k);
      if 0 <= k < BUCKETS {
        AddAt(counts, k, d[k]);
      }
      rest := rest - {k};
    }
    assert Visited(d, {}) == d;
  }

  // ---- the recording side ----------------------------------------------------------

  /** Everything recorded, the delta not yet handed out, and (for the proofs) the sum
      of the deltas handed out so far. */
  class LogHistogram {
    var counts: seq<int>
    var delta: Delta
    ghost var reported: seq<int>

    /** Merging every delta handed out, and the pending one, gives the counts. */
    ghost predicate Valid()
      reads this
    {
      |counts| == BUCKETS && |reported| == BUCKETS && InRange(delta) && counts == Merged(reported, delta)
    }

    constructor ()
      ensures Valid() && counts == Zeros() && delta == map[] && reported == Zeros()
    {
      counts, delta, reported := Zeros(), map[], Zeros();
    }

    /** `record`, for a sample that falls in bucket i. */
    method Record(i: int)
      requires Valid() && 0 <= i < BUCKETS
      modifies this
      ensures Valid() && reported == old(reported)
      ensures counts == old(counts)[i := old(counts)[i] + 1]
      ensures delta == old(delta)[i := Get(old(delta), i) + 1]
    {
      counts := counts[i := counts[i] + 1];
      delta := delta[i := Get(delta, i) + 1];
      assert counts == Merged(reported, delta);
    }

    /** `take_delta`: a window that merges it can always take it out again. */
    method TakeDelta() returns (d: Delta)
      requires Valid()
      modifies this
      ensures Valid() && d == old(delta) && InRange(d) && delta == map[]
      ensures counts == old(counts) && reported == Merged(old(reported), d)
    {
      d := delta;
      delta := map[];
      reported := Merged(reported, d);
      assert Merged(reported, delta) == reported;
    }
  }

  // ---- percentiles -------------------------------------------------------------------

  function Sum(counts: seq<int>): int {
    if counts == [] then 0 else Sum(counts[..|counts| - 1]) + counts[|counts| - 1]
  }

  ghost predicate NonNegative(counts: seq<int>) {
    forall i :: 0 <= i < |counts| ==> counts[i] >= 0
  }

  /** Every recorded sample, by bucket, in increasing order. */
  ghost function Samples(counts: seq<int>): (s: seq<int>)
    requires NonNegative(counts)
  {
    if counts == [] then [] else
      var n := |counts| - 1;
      Samples(counts[..n]) + seq(counts[n], _ => n)
  }

  lemma {:induction false} SamplesLength(counts: seq<int>)
    requires NonNegative(counts)
    ensures |Samples(counts)| == Sum(counts)
  {
    if counts != [] {
      SamplesLength(counts[..|counts| - 1]);
    }
  }

  function TimesIn(s: seq<int>, b: int): (n: nat) {
    if s == [] then 0 else TimesIn(s[..|s| - 1], b) + (if s[|s| - 1] == b then 1 else 0)
  }

  lemma {:induction false} TimesInRepeat(s: seq<int>, n: nat, x: int, b: int)
    ensures TimesIn(s + seq(n, _ => x), b) == TimesIn(s, b) + (if x == b then n else 0)
  {
    var t := s + seq(n, _ => x);
    if n == 0 {
      assert t == s;
    } else {
      TimesInRepeat(s, n - 1, x, b);
      assert t[..|t| - 1] == s + seq(n - 1, _ => x);
    }
  }

  /** The samples are listed in increasing order. */
  lemma {:induction false} SamplesSorted(counts: seq<int>)
    requires NonNegative(counts)
    ensures forall i :: 0 <= i < |Samples(counts)| ==> 0 <= Samples(counts)[i] < |counts|
    ensures forall i, j :: 0 <= i < j < |Samples(counts)| ==> Samples(counts)[i] <= Samples(counts)[j]
  {
    if counts != [] {
      var n := |counts| - 1;
      SamplesSorted(counts[..n]);
    }
  }

  /** Bucket b is listed counts[b] times. */
  lemma {:induction false} SamplesOfBucket(counts: seq<int>, b: nat)
    requires NonNegative(counts) && b < |counts|
    ensures TimesIn(Samples(counts), b) == counts[b]
  {
    var n := |counts| - 1;
    var rest := counts[..n];
    TimesInRepeat(Samples(rest), counts[n], n, b);
    if b == n {
      SamplesSorted(rest);
      NoneAbove(Samples(rest), n);
    } else {
      SamplesOfBucket(rest, b);
    }
  }

  lemma {:induction false} NoneAbove(s: seq<int>, n: int)
    requires forall i :: 0 <= i < |s| ==> s[i] < n
    ensures TimesIn(s, n) == 0
  {
    if s != [] {
      NoneAbove(s[..|s| - 1], n);
    }
  }

  /** Sample number k lies in the bucket whose prefix sums enclose k. */
  lemma {:induction false} SampleAt(counts: seq<int>, i: nat, k: nat)
    requires NonNegative(counts) && i < |counts| && Sum(counts[..i]) <= k < Sum(counts[..i]) + counts[i]
    ensures k < |Samples(counts)| && Samples(counts)[k] == i
  {
    var n := |counts| - 1;
    var rest := counts[..n];
    SamplesLength(rest);
    if i < n {
      assert rest[..i] == counts[..i];
      SampleAt(rest, i, k);
    }
  }

  function Ceil(x: real): (n: int)
    ensures n as real >= x > (n - 1) as real
  {
    -((-x).Floor)
  }

  /** The rank that `target` asks for: the first one that reaches it, and at least 1. */
  function Rank(target: real): (k: int)
    ensures k >= 1 && k as real >= target && (k == 1 || (k - 1) as real < target)
  {
    if Ceil(target) < 1 then 1 else Ceil(target)
  }

  lemma {:induction false} SumMonotone(counts: seq<int>, i: nat)
    requires NonNegative(counts) && i <= |counts|
    ensures 0 <= Sum(counts[..i]) <= Sum(counts)
  {
    if i == |counts| {
      assert counts[..i] == counts;
      if i > 0 {
        SumMonotone(counts[..i - 1], i - 1);
        assert counts[..i - 1][..i - 1] == counts[..i - 1];
      }
    } else {
      var rest := counts[..|counts| - 1];
      SumMonotone(rest, i);
      assert rest[..i] == counts[..i];
    }
  }

  /** The bucket at which the running sum first reaches the target holds the sample
      of the rank asked for. */
  lemma RankFound(counts: seq<int>, i: nat, target: real)
    requires NonNegative(counts) && i < |counts| && counts[i] > 0 && Sum(counts[..i]) >= 0
    requires Sum(counts[..i]) as real < target || Sum(counts[..i]) == 0
    requires (Sum(counts[..i]) + counts[i]) as real >= target
    ensures Rank(target) <= |Samples(counts)| && Samples(counts)[Rank(target) - 1] == i
  {
    var before := Sum(counts[..i]);
    assert before < Rank(target) <= before + counts[i];
    SampleAt(counts, i, Rank(target) - 1);
  }

  function Target(q: real, total: int): real {
    q * (total as real)
  }

  lemma Share(q: real, total: int)
    requires total > 0
    ensures q <= 1.0 <==> Target(q, total) <= total as real
  {
  }

  /** Bucket i is counted and the running sum has reached the target there. */
  predicate Hit(counts: seq<int>, target: real, i: nat)
    requires i < |counts|
  {
    counts[i] > 0 && Sum(counts[..i + 1]) as real >= target
  }

  /** The bucket a scan stops at: the first hit, or the last bucket without one. */
  ghost predicate StopsAt(counts: seq<int>, target: real, r: nat) {
    && r < |counts| && (forall i: nat :: i < r ==> !Hit(counts, target, i))
    && (Hit(counts, target, r) || r == |counts| - 1)
  }

  /** Until a scan stops, the running sum is zero or below the target. */
  lemma {:induction false} BeforeHit(counts: seq<int>, target: real, n: nat)
    requires NonNegative(counts) && n <= |counts| && forall i: nat :: i < n ==> !Hit(counts, target, i)
    ensures Sum(counts[..n]) >= 0 && (Sum(counts[..n]) as real < target || Sum(counts[..n]) == 0)
  {
    if n > 0 {
      BeforeHit(counts, target, n - 1);
      SumStep(counts, n - 1);
      assert !Hit(counts, target, n - 1);
    }
  }

  /** Where no count is negative, the scan stops at the sample of the rank asked for,
      or at the last bucket when the target exceeds every sample. */
  lemma StopIsRank(counts: seq<int>, target: real, r: nat)
    requires NonNegative(counts) && Sum(counts) > 0 && StopsAt(counts, target, r)
    ensures target <= Sum(counts) as real ==>
              Rank(target) <= |Samples(counts)| && Samples(counts)[Rank(target) - 1] == r
    ensures target > Sum(counts) as real ==> r == |counts| - 1
  {
    BeforeHit(counts, target, r);
    SumStep(counts, r);
    if Hit(counts, target, r) {
      RankFound(counts, r, target);
      SumMonotone(counts, r + 1);
    } else {
      BeforeHit(counts, target, r + 1);
      assert counts[..r + 1] == counts;
    }
  }

  /** The scan of `percentile`. */
  method Scan(counts: seq<int>, target: real) returns (r: nat)
    requires |counts| == BUCKETS
    ensures StopsAt(counts, target, r)
  {
    var seen := 0;
    for i := 0 to BUCKETS
      invariant seen == Sum(counts[..i])
      invariant forall j: nat :: j < i ==> !Hit(counts, target, j)
    {
      SumStep(counts, i);
      seen := seen + counts[i];
      if seen as real >= target && counts[i] > 0 {
        return i;
      }
    }
    return BUCKETS - 1;
  }

  lemma SumStep(counts: seq<int>, i: nat)
    requires i < |counts|
    ensures Sum(counts[..i + 1]) == Sum(counts[..i]) + counts[i]
  {
    assert counts[..i + 1][..i] == counts[..i];
  }

  /** `percentile`, returning the bucket: none exactly when the counts sum to zero, else
      where the scan stops. Where no count is negative that is, for q <= 1, the bucket
      of the max(1, ceil(q * n))-th smallest sample, and beyond that the last bucket. */
  method Percentile(counts: seq<int>, q: real) returns (r: Option<nat>)
    requires |counts| == BUCKETS
    ensures r.None? <==> Sum(counts) == 0
    ensures r.Some? ==> StopsAt(counts, Target(q, Sum(counts)), r.value)
    ensures r.Some? && NonNegative(counts) ==>
              if q <= 1.0 then
                var k := Rank(Target(q, Sum(counts))); k <= |Samples(counts)| && r.value == Samples(counts)[k - 1]
              else r.value == BUCKETS - 1
  {
    var total := Sum(counts);
    if total == 0 {
      return None;
    }
    var b := Scan(counts, Target(q, total));
    if NonNegative(counts) {
      SumMonotone(counts, |counts|);
      Share(q, total);
      StopIsRank(counts, Target(q, total), b);
    }
    return Some(b);
  }
}
