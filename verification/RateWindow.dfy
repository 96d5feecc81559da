/** The sliding rate window: cumulative counters sampled over about a second, and the
    rate between its two ends (bridge/windows.py:11-39). */
module RateWindows {

  type Counters = map<string, int>

  datatype Sample = Sample(t: int, counters: Counters)

  function Get(c: Counters, key: string): (v: int) {
    if key in c then c[key] else 0
  }

  /** A counter the last sample had went backwards: a restart or a reset. */
  predicate Backwards(last: Counters, next: Counters) {
    exists k :: k in last && Get(next, k) < last[k]
  }

  function Trim(samples: seq<Sample>, cut: int): (r: seq<Sample>) {
    if |samples| > 2 && samples[1].t <= cut then Trim(samples[1..], cut) else samples
  }

  /** The samples with one more; a counter going backwards starts them over. */
  function Next(samples: seq<Sample>, s: Sample): (r: seq<Sample>) {
    if samples != [] && Backwards(samples[|samples| - 1].counters, s.counters) then [s] else samples + [s]
  }

  /** `push`. */
  function Push(samples: seq<Sample>, window: int, s: Sample): (r: seq<Sample>) {
    Trim(Next(samples, s), s.t - window)
  }

  // ---- the samples never go backwards -----------------------------------------------

  ghost predicate CountsUp(c: Counters) {
    forall k :: k in c ==> c[k] >= 0
  }

  /** No counter of the first sample exceeds that of the second; an absent counter
      reads as zero. */
  ghost predicate NoLess(a: Counters, b: Counters) {
    forall k :: Get(a, k) <= Get(b, k)
  }

  /** The samples never fall, counter by counter. */
  ghost predicate Rising(samples: seq<Sample>) {
    forall i, j :: 0 <= i < j < |samples| ==> NoLess(samples[i].counters, samples[j].counters)
  }

  /** Counters that the last sample did not have start at zero or above. */
  ghost predicate StartsUp(last: Counters, next: Counters) {
    forall k :: k in next && k !in last ==> next[k] >= 0
  }

  /** A sample that passes the restart test falls nowhere exactly when its new counters
      start at zero or above. */
  lemma RestartTestIff(last: Counters, next: Counters)
    requires !Backwards(last, next)
    ensures NoLess(last, next) <==> StartsUp(last, next)
  {
    if NoLess(last, next) {
      forall k | k in next && k !in last
        ensures next[k] >= 0
      {
        assert Get(last, k) <= Get(next, k);
      }
    }
  }

  lemma {:induction false} TrimTail(samples: seq<Sample>, cut: int)
    ensures |Trim(samples, cut)| <= |samples| && Trim(samples, cut) == samples[|samples| - |Trim(samples, cut)|..]
    ensures |samples| >= 2 ==> |Trim(samples, cut)| >= 2
    ensures samples != [] ==> Trim(samples, cut) != []
  {
    if |samples| > 2 && samples[1].t <= cut {
      TrimTail(samples[1..], cut);
    }
  }

  lemma RisingAppend(samples: seq<Sample>, s: Sample)
    requires Rising(samples) && samples != [] && NoLess(samples[|samples| - 1].counters, s.counters)
    ensures Rising(samples + [s])
  {
    var last := samples[|samples| - 1];
    forall i | 0 <= i < |samples|
      ensures NoLess(samples[i].counters, s.counters)
    {
      assert i < |samples| - 1 ==> NoLess(samples[i].counters, last.counters);
      assert forall k :: Get(samples[i].counters, k) <= Get(last.counters, k);
    }
  }

  /** The new sample may follow the last one: it starts the window over, or its new
      counters start at zero or above. */
  ghost predicate Follows(last: Counters, next: Counters) {
    Backwards(last, next) || StartsUp(last, next)
  }

  /** A push keeps the samples rising exactly when the new sample may follow the last. */
  lemma PushRisingIff(samples: seq<Sample>, window: int, s: Sample)
    requires Rising(samples)
    ensures Rising(Push(samples, window, s)) <==>
            samples == [] || Follows(samples[|samples| - 1].counters, s.counters)
  {
    var next := Next(samples, s);
    var trimmed := Trim(next, s.t - window);
    TrimTail(next, s.t - window);
    if samples != [] {
      var last := samples[|samples| - 1];
      if !Backwards(last.counters, s.counters) {
        RestartTestIff(last.counters, s.counters);
        assert trimmed[|trimmed| - 2] == last && trimmed[|trimmed| - 1] == s;
        if StartsUp(last.counters, s.counters) {
          RisingAppend(samples, s);
        }
      }
    }
  }

  // ---- what trimming keeps -------------------------------------------------------------

  /** The part of the first n samples since the last restart. */
  function SinceRestart(log: seq<Sample>, n: nat): (r: seq<Sample>)
    requires n <= |log|
    ensures n > 0 ==> r != []
  {
    if n == 0 then [] else Next(SinceRestart(log, n - 1), log[n - 1])
  }

  ghost predicate Sorted(samples: seq<Sample>) {
    forall i, j :: 0 <= i < j < |samples| ==> samples[i].t <= samples[j].t
  }

  /** `samples` is the end of `log` with one sample older than the cut as its base:
      nothing was dropped, or the first sample is at or before the cut; and every sample
      after the first is later than the cut, if there are more than two. */
  ghost predicate Based(samples: seq<Sample>, log: seq<Sample>, cut: int) {
    && samples != []
    && |samples| <= |log| && samples == log[|log| - |samples|..]
    && (|samples| < |log| ==> samples[0].t <= cut)
    && (|samples| > 2 ==> samples[1].t > cut)
  }

  lemma {:induction false} TrimBased(samples: seq<Sample>, log: seq<Sample>, cut: int)
    requires samples != [] && |samples| <= |log| && samples == log[|log| - |samples|..]
    requires |samples| < |log| ==> samples[0].t <= cut
    ensures Based(Trim(samples, cut), log, cut)
    decreases |samples|
  {
    if |samples| > 2 && samples[1].t <= cut {
      TrimBased(samples[1..], log, cut);
    }
  }

  /** Every push keeps exactly one sample at or before the start of the window as the
      base of the rate, as soon as there is one. */
  lemma PushBased(samples: seq<Sample>, since: seq<Sample>, cut: int, window: int, s: Sample)
    requires if since == [] then samples == [] else Based(samples, since, cut)
    requires cut <= s.t - window
    ensures Based(Push(samples, window, s), Next(since, s), s.t - window)
  {
    if since != [] {
      assert samples[|samples| - 1] == since[|since| - 1];
      NextSuffix(samples, since, s);
    }
    TrimBased(Next(samples, s), Next(since, s), s.t - window);
  }

  lemma NextSuffix(samples: seq<Sample>, since: seq<Sample>, s: Sample)
    requires samples != [] && |samples| <= |since| && samples == since[|since| - |samples|..]
    ensures |Next(samples, s)| <= |Next(since, s)|
    ensures Next(samples, s) == Next(since, s)[|Next(since, s)| - |Next(samples, s)|..]
    ensures |Next(samples, s)| < |Next(since, s)| ==> |samples| < |since| && Next(samples, s)[0] == samples[0]
  {
    assert samples[|samples| - 1] == since[|since| - 1];
  }

  datatype Run = Run(window: int, log: seq<Sample>, states: seq<seq<Sample>>)

  ghost predicate StepAt(r: Run, i: nat)
    requires i < |r.log| && |r.states| == |r.log| + 1
  {
    r.states[i + 1] == Push(r.states[i], r.window, r.log[i])
  }

  ghost predicate IsRun(r: Run) {
    |r.states| == |r.log| + 1 && r.states[0] == [] && forall i: nat :: i < |r.log| ==> StepAt(r, i)
  }

  ghost predicate FollowsAt(log: seq<Sample>, i: nat)
    requires i < |log|
  {
    i > 0 ==> Follows(log[i - 1].counters, log[i].counters)
  }

  ghost predicate AllFollow(log: seq<Sample>, n: nat)
    requires n <= |log|
  {
    forall i: nat :: i < n ==> FollowsAt(log, i)
  }

  ghost predicate RisingAt(r: Run, i: nat)
    requires i < |r.states|
  {
    Rising(r.states[i])
  }

  ghost predicate AllRise(r: Run, n: nat)
    requires n < |r.states|
  {
    forall i: nat :: i <= n ==> RisingAt(r, i)
  }

  lemma LastIsPushed(r: Run, n: nat)
    requires IsRun(r) && 0 < n <= |r.log|
    ensures r.states[n] != [] && r.states[n][|r.states[n]| - 1] == r.log[n - 1]
  {
    assert StepAt(r, n - 1);
    TrimTail(Next(r.states[n - 1], r.log[n - 1]), r.log[n - 1].t - r.window);
  }

  lemma RisesNextIff(r: Run, n: nat)
    requires IsRun(r) && n < |r.log| && RisingAt(r, n)
    ensures RisingAt(r, n + 1) <==> FollowsAt(r.log, n)
  {
    assert StepAt(r, n);
    PushRisingIff(r.states[n], r.window, r.log[n]);
    if n > 0 {
      LastIsPushed(r, n);
    }
  }

  /** The samples rise after every one of the first n pushes exactly when each pushed
      sample may follow the one before it. */
  lemma {:induction false} RisingIff(r: Run, n: nat)
    requires IsRun(r) && n <= |r.log|
    ensures AllRise(r, n) <==> AllFollow(r.log, n)
  {
    if n == 0 {
      assert RisingAt(r, 0);
    } else {
      RisingIff(r, n - 1);
      assert AllRise(r, n) <==> AllRise(r, n - 1) && RisingAt(r, n);
      assert AllFollow(r.log, n) <==> AllFollow(r.log, n - 1) && FollowsAt(r.log, n - 1);
      if AllRise(r, n - 1) {
        assert RisingAt(r, n - 1);
        RisesNextIff(r, n - 1);
      }
    }
  }

  /** Counters that are never negative always may follow one another. */
  lemma CountersRise(r: Run, n: nat)
    requires IsRun(r) && n <= |r.log| && forall i :: 0 <= i < |r.log| ==> CountsUp(r.log[i].counters)
    ensures Rising(r.states[n])
  {
    forall i: nat | i < n
      ensures FollowsAt(r.log, i)
    {
      assert CountsUp(r.log[i].counters);
    }
    RisingIff(r, n);
    assert RisingAt(r, n);
  }

  lemma BaseStep(r: Run, n: nat, cut: int)
    requires IsRun(r) && n < |r.log| && cut <= r.log[n].t - r.window
    requires if n == 0 then r.states[n] == [] else Based(r.states[n], SinceRestart(r.log, n), cut)
    ensures Based(r.states[n + 1], SinceRestart(r.log, n + 1), r.log[n].t - r.window)
  {
    assert StepAt(r, n);
    PushBased(r.states[n], SinceRestart(r.log, n), cut, r.window, r.log[n]);
  }

  /** After every push of every run with a clock that never goes back, the samples are
      the end of the log since the last restart, cut at one base sample. */
  lemma {:induction false} BaseLaw(r: Run, n: nat)
    requires IsRun(r) && 0 < n <= |r.log| && Sorted(r.log)
    ensures Based(r.states[n], SinceRestart(r.log, n), r.log[n - 1].t - r.window)
  {
    if n == 1 {
      BaseStep(r, 0, r.log[0].t - r.window);
    } else {
      BaseLaw(r, n - 1);
      BaseStep(r, n - 1, r.log[n - 2].t - r.window);
    }
  }

  // ---- the rate ------------------------------------------------------------------------

  /** The rate between the two ends, with no clamp at zero. */
  function PlainRate(samples: seq<Sample>, key: string): real {
    if |samples| < 2 then 0.0 else
      var first, last := samples[0], samples[|samples| - 1];
      if last.t - first.t <= 0 then 0.0
      else (Get(last.counters, key) - Get(first.counters, key)) as real * 1000.0 / ((last.t - first.t) as real)
  }

  lemma PlainRateUp(samples: seq<Sample>, key: string)
    requires Rising(samples)
    ensures PlainRate(samples, key) >= 0.0
  {
    if |samples| >= 2 {
      var first, last := samples[0], samples[|samples| - 1];
      assert NoLess(first.counters, last.counters);
      assert Get(first.counters, key) <= Get(last.counters, key);
    }
  }

  /** A counter that appears with a negative value passes the restart test, and then
      the rate is negative before the clamp. */
  lemma NegativeCounterFalls()
    ensures var samples := Push(Push([], 1000, Sample(0, map[])), 1000, Sample(1, map["x" := -1]));
            |samples| == 2 && PlainRate(samples, "x") < 0.0
  {
    var one := Push([], 1000, Sample(0, map[]));
    assert one == [Sample(0, map[])];
    var next: Counters := map["x" := -1];
    assert !Backwards(map[], next);
    var two := Push(one, 1000, Sample(1, next));
    assert two == [Sample(0, map[]), Sample(1, next)];
    assert Get(next, "x") == -1;
  }

  class RateWindow {
    const window: int
    var samples: seq<Sample>

    constructor (window: int)
      ensures this.window == window && samples == []
    {
      this.window, samples := window, [];
    }

    /** The reset test of `push`, counter by counter. */
    method WentBackwards(last: Counters, next: Counters) returns (b: bool)
      ensures b <==> Backwards(last, next)
    {
      var rest := last.Keys;
      while rest != {}
        invariant rest <= last.Keys
        invariant forall k :: k in last && k !in rest ==> Get(next, k) >= last[k]
        decreases |rest|
      {
        var k :| k in rest;
        if Get(next, k) < last[k] {
          return true;
        }
        rest := rest - {k};
      }
      return false;
    }

    method Receive(s: Sample)
      modifies this
      ensures samples == Push(old(samples), window, s)
    {
      ghost var goal := Push(samples, window, s);
      if samples != [] {
        var back := WentBackwards(samples[|samples| - 1].counters, s.counters);
        if back {
          samples := [];
        }
      }
      samples := samples + [s];
      while |samples| > 2 && samples[1].t <= s.t - window
        invariant Trim(samples, s.t - window) == goal
        decreases |samples|
      {
        samples := samples[1..];
      }
    }

    /** `rate`: for rising samples the clamp at zero never acts. */
    method Rate(key: string) returns (r: real)
      ensures Rising(samples) ==> r == PlainRate(samples, key)
      ensures r == if PlainRate(samples, key) < 0.0 then 0.0 else PlainRate(samples, key)
    {
      r := PlainRate(samples, key);
      if r < 0.0 {
        r := 0.0;
      }
      if Rising(samples) {
        PlainRateUp(samples, key);
      }
    }
  }
}
