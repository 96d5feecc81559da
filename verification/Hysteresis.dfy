/** Health hysteresis (src/backend/health_checker.c:128-162): saturating counters
    against the plain "last k results" rule, for one backend's probe history. */
module Hysteresis {

  /** What the health checker keeps for a backend, and the health it has set. */
  datatype Tracker = Tracker(ok: nat, fail: nat, healthy: bool)

  /** The counter update of `record_result`. */
  function Bump(t: Tracker, rise: nat, fall: nat, ok: bool): (r: Tracker) {
    if ok then
      var n := if t.ok < rise then t.ok + 1 else t.ok;
      Tracker(n, 0, if t.ok < rise && n == rise then true else t.healthy)
    else
      var n := if t.fail < fall then t.fail + 1 else t.fail;
      Tracker(0, n, if t.fail < fall && n == fall then false else t.healthy)
  }

  /** The tracker after a history, starting healthy with zero counters. */
  function After(rise: nat, fall: nat, h: seq<bool>): (t: Tracker) {
    if h == [] then Tracker(0, 0, true) else Bump(After(rise, fall, h[..|h| - 1]), rise, fall, h[|h| - 1])
  }

  /** The last n results exist and all equal v. */
  predicate LastAll(h: seq<bool>, n: nat, v: bool) {
    |h| >= n && forall i :: |h| - n <= i < |h| ==> h[i] == v
  }

  /** The rule: up after `rise` successes in a row, down after `fall` failures in
      a row, otherwise unchanged; up to begin with. */
  function Rule(rise: nat, fall: nat, h: seq<bool>): (healthy: bool) {
    if h == [] then true
    else if LastAll(h, rise, true) then true
    else if LastAll(h, fall, false) then false
    else Rule(rise, fall, h[..|h| - 1])
  }

  /** How many results at the end equal v. */
  function Streak(h: seq<bool>, v: bool): (n: nat)
    ensures n <= |h|
    ensures forall i :: |h| - n <= i < |h| ==> h[i] == v
    ensures n < |h| ==> h[|h| - n - 1] != v
  {
    if h == [] || h[|h| - 1] != v then 0 else 1 + Streak(h[..|h| - 1], v)
  }

  function Min(a: nat, b: nat): nat {
    if a < b then a else b
  }

  lemma StreakLastAll(h: seq<bool>, n: nat, v: bool)
    ensures LastAll(h, n, v) <==> n <= Streak(h, v)
  {
    var s := Streak(h, v);
    if s < n <= |h| {
      assert h[|h| - s - 1] != v;
    }
  }

  /** The counters are the current streaks, cut off at the thresholds, and the
      health they have set is what the rule says. */
  lemma {:induction false} CountersImplementRule(rise: nat, fall: nat, h: seq<bool>)
    requires rise >= 1 && fall >= 1
    ensures After(rise, fall, h)
            == Tracker(Min(Streak(h, true), rise), Min(Streak(h, false), fall), Rule(rise, fall, h))
  {
    if h != [] {
      var p := h[..|h| - 1];
      CountersImplementRule(rise, fall, p);
      StreakLastAll(h, rise, true);
      StreakLastAll(h, fall, false);
      StreakLastAll(p, rise, true);
      StreakLastAll(p, fall, false);
    }
  }

  /** Health changes at the last result of h. */
  predicate Flips(rise: nat, fall: nat, h: seq<bool>) {
    h != [] && Rule(rise, fall, h) != Rule(rise, fall, h[..|h| - 1])
  }

  /** A flip ends a streak of at least the threshold in its own direction. */
  lemma FlipEndsStreak(rise: nat, fall: nat, h: seq<bool>)
    requires rise >= 1 && fall >= 1 && Flips(rise, fall, h)
    ensures LastAll(h, if Rule(rise, fall, h) then rise else fall, Rule(rise, fall, h))
  {
  }

  /** Good results never take health down, bad ones never bring it up. */
  lemma {:induction false} HealthMovesWithResults(rise: nat, fall: nat, h: seq<bool>, i: nat, v: bool)
    requires rise >= 1 && fall >= 1 && i <= |h| && Rule(rise, fall, h[..i]) == v
    requires forall k :: i <= k < |h| ==> h[k] == v
    ensures Rule(rise, fall, h) == v
  {
    if i < |h| {
      var p := h[..|h| - 1];
      assert p[..i] == h[..i];
      HealthMovesWithResults(rise, fall, p, i, v);
      assert h[|h| - 1] == v;
      assert !LastAll(h, if v then fall else rise, !v);
    } else {
      assert h[..i] == h;
    }
  }

  /** Flapping bound: after any flip, the next flip up (down) needs at least
      `rise` (`fall`) more probes. */
  lemma FlipSpacing(rise: nat, fall: nat, h: seq<bool>, i: nat)
    requires rise >= 1 && fall >= 1 && i < |h|
    requires Flips(rise, fall, h[..i]) && Flips(rise, fall, h)
    ensures |h| - i >= if Rule(rise, fall, h) then rise else fall
  {
    var v := Rule(rise, fall, h);
    var n := if v then rise else fall;
    FlipEndsStreak(rise, fall, h);
    FlipEndsStreak(rise, fall, h[..i]);
    if Rule(rise, fall, h[..i]) != v {
      assert h[i - 1] != v;
    } else if |h| - i < n {
      var p := h[..|h| - 1];
      assert p[..i] == h[..i];
      HealthMovesWithResults(rise, fall, p, i, v);
      assert false;
    }
  }
}
