/** The sliding latency window: a histogram kept as a cache of the deltas received
    within the window (bridge/windows.py:51-75). */
module LatencyWindows {
  import opened Wrappers
  import opened Histogram

  /** A delta with the time it was received. */
  datatype Part = Part(t: int, delta: Delta)

  datatype Window = Window(parts: seq<Part>, counts: seq<int>)

  // ---- taking a delta out again ----------------------------------------------------

  /** Every key is an index Python accepts for the counts; a negative one counts from
      the end of the list. */
  ghost predicate Indexable(d: Delta) {
    forall k :: k in d ==> -BUCKETS <= k < BUCKETS
  }

  /** Counts minus a delta, keys used as list indices. */
  function Subtracted(counts: seq<int>, d: Delta): (c: seq<int>)
    ensures |c| == |counts|
  {
    seq(|counts|, i requires 0 <= i < |counts| => counts[i] - Get(d, i) - Get(d, i - BUCKETS))
  }

  /** Dropping a delta undoes merging it exactly when its keys are buckets: merging
      ignores other keys, but dropping takes a negative one from the wrong bucket (and
      raises for the rest). */
  lemma DropUndoesMergeIff(counts: seq<int>, d: Delta)
    requires |counts| == BUCKETS
    ensures Indexable(d) && Subtracted(Merged(counts, d), d) == counts
      <==> forall k :: k in d ==> 0 <= k < BUCKETS || (-BUCKETS <= k < 0 && d[k] == 0)
  {
    var m := Subtracted(Merged(counts, d), d);
    assert forall i :: 0 <= i < BUCKETS ==> m[i] == counts[i] - Get(d, i - BUCKETS);
    if m == counts {
      forall k | k in d && -BUCKETS <= k < 0
        ensures d[k] == 0
      {
        assert m[k + BUCKETS] == counts[k + BUCKETS] - Get(d, k);
      }
    }
  }

  // ---- push --------------------------------------------------------------------------

  /** The parts left, and their counts, after dropping those older than `cut` from the
      front; None when a dropped key is no index. */
  ghost function DropOld(w: Window, cut: int): (r: Option<Window>)
    decreases |w.parts|
  {
    if w.parts == [] || w.parts[0].t >= cut then Some(w)
    else if !Indexable(w.parts[0].delta) then None
    else DropOld(Window(w.parts[1..], Subtracted(w.counts, w.parts[0].delta)), cut)
  }

  /** The window with a new delta in it, before anything is dropped. */
  ghost function Taken(w: Window, t: int, d: Delta): Window {
    if d == map[] then w else Window(w.parts + [Part(t, d)], Merged(w.counts, d))
  }

  ghost function Push(w: Window, window: int, t: int, d: Delta): (r: Option<Window>) {
    DropOld(Taken(w, t, d), t - window)
  }

  /** Where dropping stops when a key of the first part is no index. */
  ghost function Stuck(w: Window, cut: int): (r: Window)
    requires DropOld(w, cut).None?
    ensures r.parts != [] && !Indexable(r.parts[0].delta)
    decreases |w.parts|
  {
    if !Indexable(w.parts[0].delta) then w
    else Stuck(Window(w.parts[1..], Subtracted(w.counts, w.parts[0].delta)), cut)
  }

  /** A delta with bucket -1, pushed and dropped again: the window is empty, and the
      last bucket holds -1. */
  lemma NegativeKeyBreaksWindow(window: nat)
    ensures var d: Delta := map[-1 := 1]; var full := Window([Part(0, d)], Zeros());
            && Push(Window([], Zeros()), window, 0, d) == Some(full)
            && Push(full, window, window + 1, map[]) == Some(Window([], Subtracted(Zeros(), d)))
            && Subtracted(Zeros(), d)[BUCKETS - 1] == -1
  {
    var d: Delta := map[-1 := 1];
    assert -1 in d && d != map[];
    assert Merged(Zeros(), d) == Zeros();
    var empty: seq<Part> := [];
    assert empty + [Part(0, d)] == [Part(0, d)];
    var full := Window([Part(0, d)], Zeros());
    assert full.parts[1..] == [] && Indexable(d);
    assert Subtracted(Zeros(), d)[BUCKETS - 1] == 0 - Get(d, BUCKETS - 1) - Get(d, -1);
  }

  // ---- the plain definition -----------------------------------------------------------

  /** The received parts that are not empty and not older than `cut`. */
  function Recent(log: seq<Part>, cut: int): (r: seq<Part>) {
    if log == [] then [] else
      var rest := Recent(log[..|log| - 1], cut);
      var p := log[|log| - 1];
      if p.t >= cut && p.delta != map[] then rest + [p] else rest
  }

  /** The sum of all deltas of some parts. */
  function Total(parts: seq<Part>): (c: seq<int>)
    ensures |c| == BUCKETS
  {
    if parts == [] then Zeros() else Merged(Total(parts[1..]), parts[0].delta)
  }

  ghost predicate Sorted(log: seq<Part>) {
    forall i, j :: 0 <= i < j < |log| ==> log[i].t <= log[j].t
  }

  ghost predicate AllInRange(log: seq<Part>) {
    forall i :: 0 <= i < |log| ==> InRange(log[i].delta)
  }

  lemma {:induction false} TotalAppend(parts: seq<Part>, p: Part)
    ensures Total(parts + [p]) == Merged(Total(parts), p.delta)
  {
    if parts == [] {
      assert ([p])[1..] == [];
    } else {
      TotalAppend(parts[1..], p);
      assert (parts + [p])[1..] == parts[1..] + [p];
      MergeCommutes(Total(parts[1..]), parts[0].delta, p.delta);
    }
  }

  lemma MergeCommutes(counts: seq<int>, a: Delta, b: Delta)
    ensures Merged(Merged(counts, a), b) == Merged(Merged(counts, b), a)
  {
  }

  /** Parts with bucket keys only are dropped without error, and the counts stay the
      sum of what is left. */
  lemma {:induction false} DropOldTotal(w: Window, cut: int)
    requires AllInRange(w.parts) && w.counts == Total(w.parts)
    ensures DropOld(w, cut).Some? && DropOld(w, cut).value.counts == Total(DropOld(w, cut).value.parts)
    decreases |w.parts|
  {
    if w.parts != [] && w.parts[0].t < cut {
      var rest, d := w.parts[1..], w.parts[0].delta;
      DropUndoesMergeIff(Total(rest), d);
      assert Subtracted(w.counts, d) == Total(rest);
      DropOldTotal(Window(rest, Total(rest)), cut);
    }
  }

  /** What is dropped from a sorted list is what is older than the cut. */
  lemma {:induction false} DropOldParts(w: Window, cut: int)
    requires Sorted(w.parts) && NonEmpty(w.parts) && DropOld(w, cut).Some?
    ensures DropOld(w, cut).value.parts == Recent(w.parts, cut)
    decreases |w.parts|
  {
    if w.parts == [] {
    } else if w.parts[0].t >= cut {
      RecentAll(w.parts, cut);
    } else {
      var rest := w.parts[1..];
      DropOldParts(Window(rest, Subtracted(w.counts, w.parts[0].delta)), cut);
      RecentSkip(w.parts, cut);
    }
  }

  ghost predicate NonEmpty(parts: seq<Part>) {
    forall i :: 0 <= i < |parts| ==> parts[i].delta != map[]
  }

  lemma {:induction false} RecentAll(parts: seq<Part>, cut: int)
    requires NonEmpty(parts) && forall i :: 0 <= i < |parts| ==> parts[i].t >= cut
    ensures Recent(parts, cut) == parts
  {
    if parts != [] {
      RecentAll(parts[..|parts| - 1], cut);
    }
  }

  lemma {:induction false} RecentSkip(parts: seq<Part>, cut: int)
    requires parts != [] && parts[0].t < cut
    ensures Recent(parts, cut) == Recent(parts[1..], cut)
  {
    var n := |parts| - 1;
    if n == 0 {
      assert parts[..0] == [];
    } else {
      RecentSkip(parts[..n], cut);
      assert parts[..n][1..] == parts[1..][..n - 1];
    }
  }

  /** Narrowing the window twice is narrowing it once. */
  lemma {:induction false} RecentTwice(log: seq<Part>, cut: int, later: int)
    requires cut <= later
    ensures Recent(Recent(log, cut), later) == Recent(log, later)
  {
    if log != [] {
      var n := |log| - 1;
      RecentTwice(log[..n], cut, later);
      var rest := Recent(log[..n], cut);
      assert (rest + [log[n]])[..|rest|] == rest;
    }
  }

  /** Recent keeps the order, the range of the keys, and only non-empty deltas. */
  lemma {:induction false} RecentShape(log: seq<Part>, cut: int)
    requires Sorted(log) && AllInRange(log)
    ensures Sorted(Recent(log, cut)) && AllInRange(Recent(log, cut)) && NonEmpty(Recent(log, cut))
    ensures log != [] ==> forall i :: 0 <= i < |Recent(log, cut)| ==> Recent(log, cut)[i].t <= log[|log| - 1].t
  {
    if log != [] {
      RecentShape(log[..|log| - 1], cut);
    }
  }

  /** The window caches the plain definition: its parts are exactly the non-empty
      deltas received within the window, and its counts their sum. */
  ghost predicate Caches(w: Window, log: seq<Part>, cut: int) {
    w.parts == Recent(log, cut) && w.counts == Total(w.parts)
  }

  /** Appending a report to the log, before anything is dropped. */
  lemma Appended(w: Window, log: seq<Part>, cut: int, p: Part)
    requires Sorted(log + [p]) && AllInRange(log + [p]) && Caches(w, log, cut) && p.t >= cut
    ensures Caches(Taken(w, p.t, p.delta), log + [p], cut)
  {
    assert (log + [p])[..|log|] == log;
    TotalAppend(w.parts, p);
  }

  lemma {:induction false} RecentNone(log: seq<Part>, cut: int)
    requires forall i :: 0 <= i < |log| ==> log[i].t < cut
    ensures Recent(log, cut) == []
  {
    if log != [] {
      RecentNone(log[..|log| - 1], cut);
    }
  }

  /** Every push with a time no earlier than the ones before and with bucket keys
      succeeds and keeps the window equal to its plain definition. */
  lemma PushCaches(w: Window, log: seq<Part>, window: int, before: int, t: int, d: Delta)
    requires Sorted(log + [Part(t, d)]) && AllInRange(log + [Part(t, d)])
    requires before <= t && Caches(w, log, before - window)
    ensures Push(w, window, t, d).Some?
    ensures Caches(Push(w, window, t, d).value, log + [Part(t, d)], t - window)
  {
    var p := Part(t, d);
    if before - window <= t {
      KeepsCache(w, log, before - window, p, t - window);
    } else {
      EmptyCache(w, log, before - window, p, t - window);
    }
  }

  /** The new delta lies within the window as it was. */
  lemma KeepsCache(w: Window, log: seq<Part>, cut: int, p: Part, later: int)
    requires Sorted(log + [p]) && AllInRange(log + [p]) && Caches(w, log, cut) && cut <= p.t && cut <= later
    ensures var r := DropOld(Taken(w, p.t, p.delta), later); r.Some? && Caches(r.value, log + [p], later)
  {
    var w' := Taken(w, p.t, p.delta);
    Appended(w, log, cut, p);
    RecentShape(log + [p], cut);
    DropOldTotal(w', later);
    DropOldParts(w', later);
    RecentTwice(log + [p], cut, later);
  }

  /** A delta already older than the cut is taken in and dropped at once. */
  lemma DropsAtOnce(p: Part, later: int)
    requires InRange(p.delta) && p.t < later
    ensures DropOld(Taken(Window([], Zeros()), p.t, p.delta), later) == Some(Window([], Zeros()))
  {
    if p.delta != map[] {
      DropUndoesMergeIff(Zeros(), p.delta);
      var empty: seq<Part> := [];
      assert empty + [p] == [p] && [p][1..] == empty;
    }
  }

  lemma NothingRecent(log: seq<Part>, p: Part, cut: int)
    requires Sorted(log + [p]) && p.t < cut
    ensures Recent(log, cut) == [] && Recent(log + [p], cut) == []
  {
    var all := log + [p];
    assert forall i :: 0 <= i < |log| ==> log[i] == all[i] && all[i].t <= all[|log|].t;
    RecentNone(log, cut);
    RecentNone(all, cut);
  }

  /** With a negative length the window is always empty. */
  lemma EmptyCache(w: Window, log: seq<Part>, cut: int, p: Part, later: int)
    requires Sorted(log + [p]) && AllInRange(log + [p]) && Caches(w, log, cut) && p.t < cut && p.t < later
    ensures var r := DropOld(Taken(w, p.t, p.delta), later); r.Some? && Caches(r.value, log + [p], later)
  {
    NothingRecent(log, p, cut);
    NothingRecent(log, p, later);
    assert (log + [p])[|log|] == p;
    DropsAtOnce(p, later);
  }

  datatype Run = Run(window: int, log: seq<Part>, states: seq<Window>)

  ghost predicate StepAt(r: Run, i: nat)
    requires i < |r.log| && |r.states| == |r.log| + 1
  {
    Push(r.states[i], r.window, r.log[i].t, r.log[i].delta) == Some(r.states[i + 1])
  }

  /** After every push of every run, the counts are the sum of exactly the deltas
      received within the window before the latest push. */
  lemma {:induction false} WindowLaw(r: Run, n: nat)
    requires |r.states| == |r.log| + 1 && 0 < n <= |r.log|
    requires r.states[0] == Window([], Zeros()) && Sorted(r.log) && AllInRange(r.log)
    requires forall i: nat :: i < |r.log| ==> StepAt(r, i)
    ensures Caches(r.states[n], r.log[..n], r.log[n - 1].t - r.window)
  {
    var p := r.log[n - 1];
    assert r.log[..n] == r.log[..n - 1] + [p];
    assert StepAt(r, n - 1);
    if n == 1 {
      assert r.log[..0] == [];
      PushCaches(r.states[0], [], r.window, p.t, p.t, p.delta);
    } else {
      WindowLaw(r, n - 1);
      PushCaches(r.states[n - 1], r.log[..n - 1], r.window, r.log[n - 2].t, p.t, p.delta);
    }
  }

  ghost predicate CountsUp(log: seq<Part>) {
    forall i, k :: 0 <= i < |log| && k in log[i].delta ==> log[i].delta[k] >= 0
  }

  lemma {:induction false} TotalNonNegative(parts: seq<Part>)
    requires CountsUp(parts)
    ensures NonNegative(Total(parts))
  {
    if parts != [] {
      var rest := parts[1..];
      assert forall i :: 0 <= i < |rest| ==> rest[i] == parts[i + 1];
      TotalNonNegative(rest);
    }
  }

  /** The counts minus the part of a delta already visited. */
  lemma SubtractOne(counts: seq<int>, d: Delta, rest: set<int>, k: int)
    requires |counts| == BUCKETS && k in rest && rest <= d.Keys && -BUCKETS <= k < BUCKETS
    ensures Subtracted(counts, Visited(d, rest - {k})) ==
            var m, i := Subtracted(counts, Visited(d, rest)), if k < 0 then k + BUCKETS else k; m[i := m[i] - d[k]]
  {
    var was, now := Visited(d, rest), Visited(d, rest - {k});
    var m, i := Subtracted(counts, was), if k < 0 then k + BUCKETS else k;
    assert now == was[k := d[k]] && k !in was;
    forall j | 0 <= j < BUCKETS
      ensures Subtracted(counts, now)[j] == m[i := m[i] - d[k]][j]
    {
      assert m[j] == counts[j] - Get(was, j) - Get(was, j - BUCKETS);
      assert Subtracted(counts, now)[j] == counts[j] - Get(now, j) - Get(now, j - BUCKETS);
    }
  }

  lemma SubtractNothing(counts: seq<int>)
    ensures Subtracted(counts, map[]) == counts
  {
    forall j | 0 <= j < |counts|
      ensures Subtracted(counts, map[])[j] == counts[j]
    {
      assert Subtracted(counts, map[])[j] == counts[j] - Get(map[], j) - Get(map[], j - BUCKETS);
    }
  }

  ghost predicate PartOf(done: Delta, d: Delta) {
    forall k :: k in done ==> k in d && done[k] == d[k]
  }

  class LatencyWindow {
    const window: int
    var parts: seq<Part>
    const counts: array<int>

    ghost function Abs(): (w: Window)
      reads this, counts
    {
      Window(parts, counts[..])
    }

    constructor (window: int)
      ensures this.window == window && counts.Length == BUCKETS && fresh(counts) && Abs() == Window([], Zeros())
    {
      this.window := window;
      parts := [];
      counts := new int[BUCKETS](_ => 0);
      new;
      assert counts[..] == Zeros();
    }

    /** Takes a dropped delta out of the counts; false when a key is no index. */
    method TakeOut(d: Delta) returns (ok: bool)
      requires counts.Length == BUCKETS
      modifies counts
      ensures ok <==> Indexable(d)
      ensures ok ==> counts[..] == Subtracted(old(counts[..]), d)
      ensures !ok ==> exists done ::
                PartOf(done, d) && Indexable(done) && counts[..] == Subtracted(old(counts[..]), done)
    {
      ghost var start := counts[..];
      var rest := d.Keys;
      assert Visited(d, rest) == map[];
      SubtractNothing(start);
      while rest != {}
        invariant rest <= d.Keys
        invariant forall k :: k in d && k !in rest ==> -BUCKETS <= k < BUCKETS
        invariant counts[..] == Subtracted(start, Visited(d, rest))
        decreases |rest|
      {
        var k := AnyOf(rest);
        if !(-BUCKETS <= k < BUCKETS) {
          assert PartOf(Visited(d, rest), d) && Indexable(Visited(d, rest));
          return false;
        }
        SubtractOne(start, d, rest, k);
        AddAt(counts, if k < 0 then k + BUCKETS else k, -d[k]);
        rest := rest - {k};
      }
      assert Visited(d, {}) == d;
      return true;
    }

    /** `push`; false when Python would raise on a dropped key. Then the part with that
        key is gone from the window, and some of its keys from the counts. */
    method Receive(t: int, d: Delta) returns (ok: bool)
      requires counts.Length == BUCKETS
      modifies this, counts
      ensures ok <==> Push(old(Abs()), window, t, d).Some?
      ensures ok ==> Push(old(Abs()), window, t, d) == Some(Abs())
      ensures !ok ==> var w := Stuck(Taken(old(Abs()), t, d), t - window);
                      && parts == w.parts[1..]
                      && exists done :: PartOf(done, w.parts[0].delta) && Indexable(done)
                                        && counts[..] == Subtracted(w.counts, done)
    {
      ghost var target, start := Push(Abs(), window, t, d), Taken(Abs(), t, d);
      if d != map[] {
        parts := parts + [Part(t, d)];
        MergeInto(counts, d);
      }
      while parts != [] && parts[0].t < t - window
        invariant DropOld(Abs(), t - window) == target
        invariant target.None? ==> Stuck(Abs(), t - window) == Stuck(start, t - window)
        decreases |parts|
      {
        var first := parts[0].delta;
        parts := parts[1..];
        ok := TakeOut(first);
        if !ok {
          return;
        }
      }
      return true;
    }

    /** A percentile of `summary`: where the counts are the sum of the deltas in the
        window, as every push leaves them, it is that of all samples in the window. */
    method Quantile(q: real) returns (r: Option<nat>)
      requires counts.Length == BUCKETS
      ensures r.None? <==> Sum(counts[..]) == 0
      ensures r.Some? ==> StopsAt(counts[..], Target(q, Sum(counts[..])), r.value)
      ensures counts[..] == Total(parts) && CountsUp(parts) ==>
                && NonNegative(Total(parts))
                && (r.Some? && q <= 1.0 ==>
                      var k := Rank(Target(q, Sum(Total(parts))));
                      k <= |Samples(Total(parts))| && r.value == Samples(Total(parts))[k - 1])
    {
      if CountsUp(parts) {
        TotalNonNegative(parts);
      }
      r := Percentile(counts[..], q);
    }
  }
}
