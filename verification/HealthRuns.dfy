/** Hysteresis for a whole pool: probe results interleaved with the additions,
    removals, admin commands and address updates that happen between them. */
module HealthRuns {
  import opened MachineInts
  import opened Wrappers
  import opened Pigeonhole
  import opened BackendPool
  import opened Hysteresis
  import opened HealthChecker

  function HealthOf(slots: Slots, id: u32): (healthy: bool)
    requires Live(slots, id)
  {
    BackendOf(slots, id).healthy
  }

  // ------------------------------------------------------------ one result

  lemma WithHealthFinds(slots: Slots, id: u32, healthy: bool, x: u32)
    ensures FindSlot(WithHealth(slots, id, healthy), x) == FindSlot(slots, x)
    ensures Live(slots, x) ==>
              HealthOf(WithHealth(slots, id, healthy), x) == if x == id then healthy else HealthOf(slots, x)
  {
    var after, k := WithHealth(slots, id, healthy), FindSlot(slots, x);
    assert forall i :: 0 <= i < |slots| ==> after[i].Some? == slots[i].Some?;
    assert forall i :: 0 <= i < |slots| && slots[i].Some? ==> after[i].value.id == slots[i].value.id;
    var k' := FindSlot(after, x);
    assert k' == k;
  }

  /** In-use probe states have distinct ids. */
  ghost predicate Tidy(ps: Probes) {
    forall i, j :: 0 <= i < j < |ps| && ps[i].inUse && ps[j].inUse ==> ps[i].id != ps[j].id
  }

  /** The ids that have a probe state. */
  ghost function Used(ps: Probes): (s: set<u32>) {
    set i | 0 <= i < |ps| && ps[i].inUse :: ps[i].id
  }

  lemma UsedHasState(ps: Probes, x: u32)
    ensures x in Used(ps) <==> StateFrom(ps, x, 0) < |ps|
  {
    var k := StateFrom(ps, x, 0);
    if k < |ps| {
      assert ps[k].inUse && ps[k].id == x;
    }
  }

  lemma UsedWrite(ps: Probes, k: nat, st: ProbeState)
    requires k < |ps| && st.inUse && (!ps[k].inUse || ps[k].id == st.id)
    ensures Used(ps[k := st]) == Used(ps) + {st.id}
  {
    var qs := ps[k := st];
    assert qs[k].inUse && qs[k].id == st.id;
    forall x | x in Used(ps)
      ensures x in Used(qs)
    {
      var i :| 0 <= i < |ps| && ps[i].inUse && ps[i].id == x;
      assert i != k ==> qs[i] == ps[i];
    }
    forall x | x in Used(qs) && x != st.id
      ensures x in Used(ps)
    {
      var i :| 0 <= i < |qs| && qs[i].inUse && qs[i].id == x;
      assert i != k && qs[i] == ps[i];
    }
  }

  lemma StateUnique(ps: Probes, id: u32, k: nat)
    requires Tidy(ps) && k < |ps| && ps[k].inUse && ps[k].id == id
    ensures StateFrom(ps, id, 0) == k
  {
    var j := StateFrom(ps, id, 0);
    assert j <= k;
  }

  /** Writing slot k leaves every other id's state where it was. */
  lemma OtherState(ps: Probes, k: nat, st: ProbeState, x: u32)
    requires k < |ps| && !(ps[k].inUse && ps[k].id == x) && !(st.inUse && st.id == x)
    ensures StateFrom(ps[k := st], x, 0) == StateFrom(ps, x, 0)
  {
    var qs := ps[k := st];
    var a, b := StateFrom(ps, x, 0), StateFrom(qs, x, 0);
    assert forall i :: 0 <= i < |ps| ==> (qs[i].inUse && qs[i].id == x) == (ps[i].inUse && ps[i].id == x);
  }

  lemma LocatedTidy(ps: Probes, id: u32)
    requires Tidy(ps) && Located(ps, id).1 < |ps|
    ensures var (qs, k) := Located(ps, id);
            && Tidy(qs) && qs[k].inUse && qs[k].id == id
            && forall x, healthy :: TrackerOf(qs, x, healthy) == TrackerOf(ps, x, healthy)
  {
    var (qs, k) := Located(ps, id);
    if StateFrom(ps, id, 0) == |ps| {
      assert qs == ps[k := ProbeState(id, 0, 0, true)];
      StateUnique(qs, id, k);
      forall x: u32, healthy: bool
        ensures TrackerOf(qs, x, healthy) == TrackerOf(ps, x, healthy)
      {
        if x != id {
          OtherState(ps, k, ProbeState(id, 0, 0, true), x);
        }
      }
    }
  }

  lemma UpdateTracker(ps: Probes, k: nat, st: ProbeState, x: u32, healthy: bool)
    requires Tidy(ps) && k < |ps| && ps[k].inUse && st.inUse && st.id == ps[k].id
    ensures Tidy(ps[k := st])
    ensures TrackerOf(ps[k := st], x, healthy) ==
            if x == st.id then Tracker(st.ok, st.fail, healthy) else TrackerOf(ps, x, healthy)
    ensures x == st.id ==> TrackerOf(ps, x, healthy) == Tracker(ps[k].ok, ps[k].fail, healthy)
  {
    if x == st.id {
      StateUnique(ps, x, k);
      StateUnique(ps[k := st], x, k);
    } else {
      OtherState(ps, k, st, x);
    }
  }

  /** A result of a backend that has a state, or can get one, moves exactly that
      backend's tracker, by one bump, and notifies exactly when its health changes. */
  lemma RecordTracks(ps: Probes, slots: Slots, rise: u32, fall: u32, id: u32, ok: bool, x: u32)
    requires Tidy(ps) && Live(slots, x) && Located(ps, id).1 < |ps|
    ensures var (ps', slots', notified) := Record(ps, slots, rise, fall, id, ok);
            && Tidy(ps') && Live(slots', x)
            && var t := TrackerOf(ps, x, HealthOf(slots, x));
               && TrackerOf(ps', x, HealthOf(slots', x)) == (if x == id then Bump(t, rise, fall, ok) else t)
               && (x == id ==> (notified <==> HealthOf(slots', x) != HealthOf(slots, x)))
  {
    LocatedTidy(ps, id);
    var (qs, k) := Located(ps, id);
    var (ps', slots', notified) := Record(ps, slots, rise, fall, id, ok);
    UpdateTracker(qs, k, ps'[k], x, HealthOf(slots, x));
    WithHealthFinds(slots, id, ok, x);
    UpdateTracker(qs, k, ps'[k], x, HealthOf(slots', x));
  }

  /** A result uses the id's own state, or takes a free one, or is ignored. */
  lemma RecordUses(ps: Probes, slots: Slots, rise: u32, fall: u32, id: u32, ok: bool)
    ensures var ps' := Record(ps, slots, rise, fall, id, ok).0;
            && Used(ps') == (if Located(ps, id).1 < |ps| then Used(ps) + {id} else Used(ps))
            && (FreeFrom(ps', 0) < |ps| ==> FreeFrom(ps, 0) < |ps|)
  {
    var ps' := Record(ps, slots, rise, fall, id, ok).0;
    var k := Located(ps, id).1;
    if k < |ps| {
      UsedWrite(ps, k, ps'[k]);
      assert ps' == ps[k := ps'[k]];
      StillFull(ps, k, ps'[k]);
    }
  }

  lemma StillFull(ps: Probes, k: nat, st: ProbeState)
    requires k < |ps| && st.inUse
    ensures FreeFrom(ps[k := st], 0) < |ps| ==> FreeFrom(ps, 0) < |ps|
  {
    var qs := ps[k := st];
    var f := FreeFrom(qs, 0);
    if f < |ps| {
      assert f != k && qs[f] == ps[f];
    }
  }

  // ------------------------------------------------------------ how many have a state

  lemma {:induction false} UsedBound(ps: Probes)
    ensures |Used(ps)| <= |ps|
    ensures (exists i :: 0 <= i < |ps| && !ps[i].inUse) ==> |Used(ps)| < |ps|
  {
    if ps != [] {
      var n := |ps| - 1;
      var rest := ps[..n];
      UsedBound(rest);
      UsedLast(ps);
      if i :| 0 <= i < n && !ps[i].inUse {
        assert !rest[i].inUse;
      }
    }
  }

  lemma UsedLast(ps: Probes)
    requires ps != []
    ensures Used(ps) == Used(ps[..|ps| - 1]) + (if ps[|ps| - 1].inUse then {ps[|ps| - 1].id} else {})
  {
    var n := |ps| - 1;
    var rest := ps[..n];
    forall x | x in Used(rest)
      ensures x in Used(ps)
    {
      var i :| 0 <= i < n && rest[i].inUse && rest[i].id == x;
      assert ps[i] == rest[i];
    }
    forall x | x in Used(ps) && !(ps[n].inUse && ps[n].id == x)
      ensures x in Used(rest)
    {
      var i :| 0 <= i < |ps| && ps[i].inUse && ps[i].id == x;
      assert ps[i] == rest[i];
    }
  }

  lemma FullUses(ps: Probes)
    requires Tidy(ps) && FreeFrom(ps, 0) == |ps|
    ensures |Used(ps)| == |ps|
  {
    var taken := seq(|ps|, i requires 0 <= i < |ps| => ps[i].id);
    DistinctSize(taken);
    forall x | x in Elements(taken)
      ensures x in Used(ps)
    {
      var i :| 0 <= i < |taken| && taken[i] == x;
      assert ps[i].inUse && ps[i].id == x;
    }
    forall x | x in Used(ps)
      ensures x in Elements(taken)
    {
      var i :| 0 <= i < |ps| && ps[i].inUse && ps[i].id == x;
      assert taken[i] == x;
    }
    assert Used(ps) == Elements(taken);
  }

  lemma StepTidy(ps: Probes, slots: Slots, rise: u32, fall: u32, id: u32, ok: bool)
    requires Tidy(ps)
    ensures Tidy(Record(ps, slots, rise, fall, id, ok).0)
  {
    if Located(ps, id).1 < |ps| {
      LocatedTidy(ps, id);
      var (qs, k) := Located(ps, id);
      UpdateTracker(qs, k, Record(ps, slots, rise, fall, id, ok).0[k], id, true);
    }
  }

  /** Only probed ids have a state; all of them do while a state is free. */
  ghost predicate Allotted(ps: Probes, probed: set<u32>) {
    && |ps| == BACKEND_MAX && Tidy(ps) && Used(ps) <= probed
    && (FreeFrom(ps, 0) < BACKEND_MAX ==> Used(ps) == probed)
  }

  lemma RecordAllots(ps: Probes, slots: Slots, rise: u32, fall: u32, id: u32, ok: bool, probed: set<u32>)
    requires Allotted(ps, probed)
    ensures Allotted(Record(ps, slots, rise, fall, id, ok).0, probed + {id})
  {
    StepTidy(ps, slots, rise, fall, id, ok);
    RecordUses(ps, slots, rise, fall, id, ok);
  }

  /** A first result finds a free state exactly when fewer than 64 ids were probed. */
  lemma FirstResult(ps: Probes, probed: set<u32>, x: u32)
    requires Allotted(ps, probed) && x !in probed
    ensures x !in Used(ps) && (Located(ps, x).1 < |ps| <==> |probed| < BACKEND_MAX)
  {
    UsedBound(ps);
    UsedHasState(ps, x);
    if FreeFrom(ps, 0) == |ps| {
      FullUses(ps);
      SubsetSize(Used(ps), probed);
    }
  }

  // ------------------------------------------------------------ runs

  datatype Event = Result(id: u32, ok: bool) | Change(op: PoolOp)

  datatype State = State(ps: Probes, pool: Pool)

  function Start(): State {
    State(seq(BACKEND_MAX, _ => ProbeState(0, 0, 0, false)), Pool(seq(BACKEND_MAX, _ => None), 0))
  }

  /** A probe round records results of backends that were in the pool when it began.
      Health changes only through results; ids run out after 2^32 - 1 additions. */
  predicate Enabled(s: State, e: Event) {
    match e
    case Result(id, _) => id < s.pool.nextId
    case Change(op) => !op.SetHealth? && (op.Add? ==> s.pool.nextId < U32_MAX)
  }

  /** The next state, and whether a result notified the subscriber. */
  function Next(rise: u32, fall: u32, s: State, e: Event): (State, bool) {
    match e
    case Result(id, ok) =>
      var (ps, slots, notified) := Record(s.ps, s.pool.slots, rise, fall, id, ok);
      (State(ps, s.pool.(slots := slots)), notified)
    case Change(op) => (s.(pool := Apply(s.pool, op)), false)
  }

  datatype Run = Run(events: seq<Event>, states: seq<State>, notified: seq<bool>)

  ghost predicate Shape(r: Run) {
    |r.states| == |r.events| + 1 && |r.notified| == |r.events|
  }

  ghost predicate StepAt(r: Run, rise: u32, fall: u32, i: nat)
    requires Shape(r) && i < |r.events|
  {
    Enabled(r.states[i], r.events[i]) && (r.states[i + 1], r.notified[i]) == Next(rise, fall, r.states[i], r.events[i])
  }

  ghost predicate IsRun(r: Run, rise: u32, fall: u32) {
    && Shape(r) && r.states[0] == Start()
    && forall i: nat :: i < |r.events| ==> StepAt(r, rise, fall, i)
  }

  ghost predicate LiveAt(r: Run, x: u32, i: nat)
    requires i < |r.states|
  {
    Live(r.states[i].pool.slots, x)
  }

  function HealthAt(r: Run, x: u32, i: nat): bool
    requires i < |r.states| && LiveAt(r, x, i)
  {
    HealthOf(r.states[i].pool.slots, x)
  }

  /** The results of one backend among the first i events. */
  function History(es: seq<Event>, id: u32, i: nat): (h: seq<bool>)
    requires i <= |es|
  {
    if i == 0 then []
    else if es[i - 1].Result? && es[i - 1].id == id then History(es, id, i - 1) + [es[i - 1].ok]
    else History(es, id, i - 1)
  }

  /** The ids probed before event i. */
  ghost function Probed(es: seq<Event>, i: nat): (s: set<u32>)
    requires i <= |es|
  {
    if i == 0 then {} else if es[i - 1].Result? then Probed(es, i - 1) + {es[i - 1].id} else Probed(es, i - 1)
  }

  /** If event k is the first result of x, fewer than 64 other ids had been probed. */
  ghost predicate AdmittedAt(es: seq<Event>, x: u32, k: nat)
    requires k < |es|
  {
    es[k].Result? && es[k].id == x && x !in Probed(es, k) ==> |Probed(es, k)| < BACKEND_MAX
  }

  /** At its first result, if it comes before i, fewer than 64 others had been probed. */
  ghost predicate Admitted(es: seq<Event>, x: u32, i: nat)
    requires i <= |es|
  {
    forall k: nat :: k < i ==> AdmittedAt(es, x, k)
  }

  lemma {:induction false} UnprobedHistory(es: seq<Event>, x: u32, i: nat)
    requires i <= |es| && x !in Probed(es, i)
    ensures History(es, x, i) == []
  {
    if i > 0 {
      UnprobedHistory(es, x, i - 1);
    }
  }

  // ------------------------------------------------------------ the pool over a run

  /** The pool keeps its ids in order, and only ids handed out have been probed. */
  ghost predicate PoolOk(p: Pool, probed: set<u32>) {
    |p.slots| == BACKEND_MAX && IdsOk(p.slots, p.nextId) && forall x :: x in probed ==> x < p.nextId
  }

  /** A result changes the pool as one health update of a live backend, or not at all. */
  lemma ResultPool(rise: u32, fall: u32, s: State, e: Event)
    requires e.Result?
    ensures var q := Next(rise, fall, s, e).0.pool; q == s.pool || q == Apply(s.pool, SetHealth(e.id, e.ok))
  {
  }

  lemma NextPool(rise: u32, fall: u32, s: State, e: Event, probed: set<u32>)
    requires Enabled(s, e) && PoolOk(s.pool, probed)
    ensures PoolOk(Next(rise, fall, s, e).0.pool, if e.Result? then probed + {e.id} else probed)
    ensures s.pool.nextId <= Next(rise, fall, s, e).0.pool.nextId
  {
    match e
    case Result(id, ok) =>
      ResultPool(rise, fall, s, e);
      ApplyKeepsIds(s.pool, SetHealth(id, ok));
    case Change(op) => ApplyKeepsIds(s.pool, op);
  }

  /** Which ids are live after an event, and their health. */
  lemma NextLive(rise: u32, fall: u32, s: State, e: Event, probed: set<u32>, x: u32)
    requires Enabled(s, e) && PoolOk(s.pool, probed)
    ensures var after := Next(rise, fall, s, e).0.pool.slots;
            && (Live(after, x) && !Live(s.pool.slots, x) ==>
                  e.Change? && x == s.pool.nextId && HealthOf(after, x))
            && (Live(after, x) && Live(s.pool.slots, x) && (e.Result? ==> e.id != x || Located(s.ps, x).1 == |s.ps|) ==>
                  HealthOf(after, x) == HealthOf(s.pool.slots, x))
            && (e.Result? && Live(s.pool.slots, x) ==> Live(after, x))
  {
    var after := Next(rise, fall, s, e).0.pool;
    match e
    case Result(id, ok) =>
      ResultPool(rise, fall, s, e);
      WithHealthFinds(s.pool.slots, id, ok, x);
    case Change(op) =>
      if Live(after.slots, x) {
        if Live(s.pool.slots, x) {
          if op == Remove(x) {
            RemovedNotLive(s.pool, x);
          } else {
            ApplyKeepsLive(s.pool, op, x);
          }
        } else {
          ApplyMakesLive(s.pool, op, x);
        }
      }
  }

  lemma {:induction false} RunOk(r: Run, rise: u32, fall: u32, i: nat)
    requires IsRun(r, rise, fall) && i <= |r.events|
    ensures PoolOk(r.states[i].pool, Probed(r.events, i)) && Allotted(r.states[i].ps, Probed(r.events, i))
  {
    if i > 0 {
      RunOk(r, rise, fall, i - 1);
      assert StepAt(r, rise, fall, i - 1);
      var s, e := r.states[i - 1], r.events[i - 1];
      NextPool(rise, fall, s, e, Probed(r.events, i - 1));
      if e.Result? {
        RecordAllots(s.ps, s.pool.slots, rise, fall, e.id, e.ok, Probed(r.events, i - 1));
      }
    }
  }

  lemma RunNextLive(r: Run, rise: u32, fall: u32, x: u32, i: nat)
    requires IsRun(r, rise, fall) && i < |r.events| && LiveAt(r, x, i + 1)
    ensures !LiveAt(r, x, i) ==> x !in Probed(r.events, i + 1) && HealthAt(r, x, i + 1)
    ensures var e := r.events[i];
            LiveAt(r, x, i) && (e.Result? ==> e.id != x || Located(r.states[i].ps, x).1 == |r.states[i].ps|) ==>
              HealthAt(r, x, i + 1) == HealthAt(r, x, i)
  {
    RunOk(r, rise, fall, i);
    assert StepAt(r, rise, fall, i);
    NextLive(rise, fall, r.states[i], r.events[i], Probed(r.events, i), x);
  }

  // ------------------------------------------------------------ backends that have a state

  /** An admitted backend has a state from its first result on. */
  lemma {:induction false} RunKeepsState(r: Run, rise: u32, fall: u32, x: u32, i: nat)
    requires IsRun(r, rise, fall) && i <= |r.events| && Admitted(r.events, x, i)
    ensures x in Probed(r.events, i) ==> x in Used(r.states[i].ps)
  {
    if i > 0 {
      RunKeepsState(r, rise, fall, x, i - 1);
      assert StepAt(r, rise, fall, i - 1);
      assert AdmittedAt(r.events, x, i - 1);
      var s, e := r.states[i - 1], r.events[i - 1];
      if e.Result? {
        RecordUses(s.ps, s.pool.slots, rise, fall, e.id, e.ok);
        if e.id == x && x !in Probed(r.events, i - 1) {
          RunOk(r, rise, fall, i - 1);
          FirstResult(s.ps, Probed(r.events, i - 1), x);
        }
      }
    }
  }

  /** A result of an admitted backend always finds a state. */
  lemma FindsState(r: Run, rise: u32, fall: u32, x: u32, i: nat)
    requires IsRun(r, rise, fall) && i < |r.events| && r.events[i].Result? && r.events[i].id == x
    requires Admitted(r.events, x, i + 1)
    ensures Located(r.states[i].ps, x).1 < |r.states[i].ps|
  {
    RunKeepsState(r, rise, fall, x, i);
    RunOk(r, rise, fall, i);
    UsedHasState(r.states[i].ps, x);
    assert AdmittedAt(r.events, x, i);
    if x !in Probed(r.events, i) {
      FirstResult(r.states[i].ps, Probed(r.events, i), x);
    }
  }

  function TrackerAt(r: Run, x: u32, i: nat): Tracker
    requires i < |r.states| && LiveAt(r, x, i)
  {
    TrackerOf(r.states[i].ps, x, HealthAt(r, x, i))
  }

  /** A result: the tracker of x bumps if the result is x's, and only then. */
  lemma ResultStep(r: Run, rise: u32, fall: u32, x: u32, i: nat)
    requires IsRun(r, rise, fall) && i < |r.events| && r.events[i].Result? && Admitted(r.events, x, i + 1)
    requires LiveAt(r, x, i)
    ensures LiveAt(r, x, i + 1)
    ensures TrackerAt(r, x, i + 1)
            == if x == r.events[i].id then Bump(TrackerAt(r, x, i), rise, fall, r.events[i].ok) else TrackerAt(r, x, i)
    ensures x == r.events[i].id ==> (r.notified[i] <==> HealthAt(r, x, i + 1) != HealthAt(r, x, i))
  {
    assert StepAt(r, rise, fall, i);
    RunOk(r, rise, fall, i);
    var s, e := r.states[i], r.events[i];
    if e.id == x {
      FindsState(r, rise, fall, x, i);
    }
    if Located(s.ps, e.id).1 < |s.ps| {
      RecordTracks(s.ps, s.pool.slots, rise, fall, e.id, e.ok, x);
    }
  }

  lemma {:induction false} RunTracks(r: Run, rise: u32, fall: u32, x: u32, i: nat)
    requires IsRun(r, rise, fall) && i <= |r.events| && Admitted(r.events, x, i) && LiveAt(r, x, i)
    ensures TrackerAt(r, x, i) == After(rise, fall, History(r.events, x, i))
  {
    if i > 0 {
      RunNextLive(r, rise, fall, x, i - 1);
      var h, e := History(r.events, x, i - 1), r.events[i - 1];
      if !LiveAt(r, x, i - 1) {
        RunOk(r, rise, fall, i);
        UnprobedHistory(r.events, x, i);
        UsedHasState(r.states[i].ps, x);
      } else {
        RunTracks(r, rise, fall, x, i - 1);
        if e.Result? {
          ResultStep(r, rise, fall, x, i - 1);
          assert (h + [e.ok])[..|h|] == h;
        } else {
          assert StepAt(r, rise, fall, i - 1);
        }
      }
    }
  }

  lemma HealthIsRule(r: Run, rise: u32, fall: u32, x: u32, i: nat)
    requires rise >= 1 && fall >= 1
    requires IsRun(r, rise, fall) && i <= |r.events| && Admitted(r.events, x, i) && LiveAt(r, x, i)
    ensures HealthAt(r, x, i) == Rule(rise, fall, History(r.events, x, i))
  {
    RunTracks(r, rise, fall, x, i);
    CountersImplementRule(rise, fall, History(r.events, x, i));
  }

  /** In any run, the health of a backend in the pool that was among the first 64
      probed is what the rule says of its own results since it was added, whatever
      else happened in between; and a result notifies the subscriber exactly when it
      flips that backend. */
  lemma HealthFollowsRule(r: Run, rise: u32, fall: u32, x: u32, i: nat)
    requires rise >= 1 && fall >= 1
    requires IsRun(r, rise, fall) && i <= |r.events| && Admitted(r.events, x, i) && LiveAt(r, x, i)
    ensures HealthAt(r, x, i) == Rule(rise, fall, History(r.events, x, i))
    ensures i > 0 && r.events[i - 1].Result? && r.events[i - 1].id == x ==>
              (r.notified[i - 1] <==> Flips(rise, fall, History(r.events, x, i)))
  {
    HealthIsRule(r, rise, fall, x, i);
    if i > 0 && r.events[i - 1].Result? && r.events[i - 1].id == x {
      RunNextLive(r, rise, fall, x, i - 1);
      HealthIsRule(r, rise, fall, x, i - 1);
      ResultStep(r, rise, fall, x, i - 1);
      var h, ok := History(r.events, x, i - 1), r.events[i - 1].ok;
      assert (h + [ok])[..|h|] == h;
    }
  }

  // ------------------------------------------------------------ backends that have none

  /** A backend first probed after 64 others is healthy for as long as it is in the
      pool, whatever its results. */
  lemma {:induction false} LatecomerIgnored(r: Run, rise: u32, fall: u32, x: u32, i: nat)
    requires IsRun(r, rise, fall) && i <= |r.events| && !Admitted(r.events, x, i)
    ensures x !in Used(r.states[i].ps) && x in Probed(r.events, i)
    ensures FreeFrom(r.states[i].ps, 0) == |r.states[i].ps|
    ensures LiveAt(r, x, i) ==> HealthAt(r, x, i)
  {
    assert i > 0;
    assert StepAt(r, rise, fall, i - 1);
    var s, e := r.states[i - 1], r.events[i - 1];
    if Admitted(r.events, x, i - 1) {
      FirstTurnedAway(r, rise, fall, x, i - 1);
    } else {
      LatecomerIgnored(r, rise, fall, x, i - 1);
    }
    UsedHasState(s.ps, x);
    if e.Result? {
      RecordUses(s.ps, s.pool.slots, rise, fall, e.id, e.ok);
    }
    if LiveAt(r, x, i) {
      RunNextLive(r, rise, fall, x, i - 1);
    }
  }

  lemma FirstTurnedAway(r: Run, rise: u32, fall: u32, x: u32, i: nat)
    requires IsRun(r, rise, fall) && i < |r.events| && Admitted(r.events, x, i) && !Admitted(r.events, x, i + 1)
    ensures (LiveAt(r, x, i) ==> HealthAt(r, x, i)) && r.events[i].Result? && r.events[i].id == x
    ensures x !in Used(r.states[i].ps) && FreeFrom(r.states[i].ps, 0) == |r.states[i].ps|
  {
    RunOk(r, rise, fall, i);
    assert StepAt(r, rise, fall, i);
    FirstResult(r.states[i].ps, Probed(r.events, i), x);
    if LiveAt(r, x, i) {
      RunTracks(r, rise, fall, x, i);
      UnprobedHistory(r.events, x, i);
    }
  }

  /** Exactly when the health of a backend in the pool is what the rule says: it was
      among the first 64 probed, or its results alone leave it up. */
  lemma RuleFollowedIff(r: Run, rise: u32, fall: u32, x: u32, i: nat)
    requires rise >= 1 && fall >= 1
    requires IsRun(r, rise, fall) && i <= |r.events| && LiveAt(r, x, i)
    ensures HealthAt(r, x, i) == Rule(rise, fall, History(r.events, x, i))
            <==> Admitted(r.events, x, i) || Rule(rise, fall, History(r.events, x, i))
  {
    if Admitted(r.events, x, i) {
      HealthFollowsRule(r, rise, fall, x, i);
    } else {
      LatecomerIgnored(r, rise, fall, x, i);
    }
  }

  // ------------------------------------------------------------ pools that only grow

  ghost function LiveIds(slots: Slots): (s: set<u32>) {
    set i | 0 <= i < |slots| && slots[i].Some? :: slots[i].value.id
  }

  lemma LiveIsListed(slots: Slots, x: u32)
    requires Live(slots, x)
    ensures x in LiveIds(slots)
  {
    var k := FindSlot(slots, x);
    assert slots[k].Some? && slots[k].value.id == x;
  }

  lemma {:induction false} LiveIdsBound(slots: Slots)
    ensures |LiveIds(slots)| <= |slots|
  {
    if slots != [] {
      var n := |slots| - 1;
      LiveIdsBound(slots[..n]);
      var last := if slots[n].Some? then {slots[n].value.id} else {};
      forall x | x in LiveIds(slots)
        ensures x in LiveIds(slots[..n]) + last
      {
        var i :| 0 <= i < |slots| && slots[i].Some? && slots[i].value.id == x;
        if i < n {
          assert slots[..n][i] == slots[i];
        }
      }
      SubsetSize(LiveIds(slots), LiveIds(slots[..n]) + last);
    }
  }

  ghost predicate NothingRemoved(es: seq<Event>, i: nat)
    requires i <= |es|
  {
    forall k :: 0 <= k < i && es[k].Change? ==> !es[k].op.Remove?
  }

  lemma {:induction false} HandedOutStayLive(r: Run, rise: u32, fall: u32, x: u32, i: nat)
    requires IsRun(r, rise, fall) && i <= |r.events| && NothingRemoved(r.events, i) && x < r.states[i].pool.nextId
    ensures LiveAt(r, x, i)
  {
    assert i > 0;
    RunOk(r, rise, fall, i - 1);
    assert StepAt(r, rise, fall, i - 1);
    var s, e := r.states[i - 1], r.events[i - 1];
    if x < s.pool.nextId {
      HandedOutStayLive(r, rise, fall, x, i - 1);
      if e.Result? {
        NextLive(rise, fall, s, e, Probed(r.events, i - 1), x);
      } else {
        ApplyKeepsLive(s.pool, e.op, x);
      }
    } else {
      var k := FreeSlotFrom(s.pool.slots, 0);
      RunOk(r, rise, fall, i);
      assert r.states[i].pool.slots[k] == Some(NewBackend(x, e.op.addr, e.op.port));
    }
  }

  /** While nothing is removed, every backend in the pool is among the first 64 probed. */
  lemma GrowingPoolAdmits(r: Run, rise: u32, fall: u32, x: u32, i: nat)
    requires IsRun(r, rise, fall) && i <= |r.events| && NothingRemoved(r.events, i)
    ensures Admitted(r.events, x, i)
  {
    forall k: nat | k < i && r.events[k].Result? && r.events[k].id == x && x !in Probed(r.events, k)
      ensures |Probed(r.events, k)| < BACKEND_MAX
    {
      assert StepAt(r, rise, fall, k);
      RunOk(r, rise, fall, k);
      HandedOutStayLive(r, rise, fall, x, k);
      var slots, probed := r.states[k].pool.slots, Probed(r.events, k);
      forall y | y in probed + {x}
        ensures y in LiveIds(slots)
      {
        if y != x {
          HandedOutStayLive(r, rise, fall, y, k);
        }
        LiveIsListed(slots, y);
      }
      LiveIdsBound(slots);
      SubsetSize(probed + {x}, LiveIds(slots));
    }
  }

  /** In a run that removes nothing, as every run of the program is, health is the
      rise and fall rule of each backend's own results. */
  lemma HealthInGrowingPool(r: Run, rise: u32, fall: u32, x: u32, i: nat)
    requires rise >= 1 && fall >= 1
    requires IsRun(r, rise, fall) && i <= |r.events| && NothingRemoved(r.events, i) && LiveAt(r, x, i)
    ensures HealthAt(r, x, i) == Rule(rise, fall, History(r.events, x, i))
    ensures i > 0 && r.events[i - 1].Result? && r.events[i - 1].id == x ==>
              (r.notified[i - 1] <==> Flips(rise, fall, History(r.events, x, i)))
  {
    GrowingPoolAdmits(r, rise, fall, x, i);
    HealthFollowsRule(r, rise, fall, x, i);
  }
}
