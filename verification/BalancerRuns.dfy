/** The whole balancer as one machine: pool operations by one thread, rebuilds that
    install a snapshot of the pool as it is, packets and reaper ticks, in any order.
    What the datapath runs assume of installed snapshots is proved here. */
module BalancerRuns {
  import opened Wrappers
  import opened MachineInts
  import opened BitMask
  import opened Primes
  import opened MaglevTable
  import opened RoutingSnapshot
  import opened BackendPool
  import opened Rebuild
  import opened ConntrackSpec
  import opened ConntrackMap
  import DP = DatapathSpec
  import opened DatapathCounts
  import opened DatapathRuns

  datatype Setup = Setup(cfg: DP.Config, m: u32, h1: NameHash, h2: NameHash, buckets: nat, capacity: nat)

  ghost predicate SetupOk(u: Setup) {
    IsPrime(u.m) && IsPow2(u.buckets) && u.capacity < TWO64
  }

  datatype Balancer = Balancer(pool: Pool, dp: DP.State)

  datatype Event = Change(op: PoolOp) | Rebuild(generation: u64) | Forward(e: DP.Event)

  function Start(u: Setup): Balancer {
    Balancer(Pool(seq(BACKEND_MAX, _ => None), 0), DP.InitialState(u.buckets, u.capacity, u.cfg.maxBackends))
  }

  /** Fewer than 2^31 backends are ever added; snapshots come from rebuilds only. */
  predicate Enabled(b: Balancer, e: Event) {
    match e
    case Change(op) => op.Add? ==> b.pool.nextId < 0x8000_0000
    case Rebuild(_) => true
    case Forward(e) => !e.Install?
  }

  ghost predicate Fit(u: Setup, b: Balancer) {
    IdsOk(b.pool.slots, b.pool.nextId) && b.pool.nextId <= 0x8000_0000 && DP.Ready(u.cfg, b.dp)
  }

  /** What the datapath sees of an event. */
  ghost function Seen(u: Setup, b: Balancer, e: Event): (o: Option<DP.Event>)
    requires SetupOk(u) && Fit(u, b) && Enabled(b, e)
    ensures o.Some? ==> DP.EventOk(o.value)
  {
    match e
    case Change(op) => None
    case Rebuild(generation) =>
      PoolSnapshotServes(b.pool.slots, b.pool.nextId, u.m, u.h1, u.h2, generation);
      Some(DP.Install(SnapshotFrom(b.pool.slots, b.pool.slots, u.m, u.h1, u.h2, generation)))
    case Forward(e) => Some(e)
  }

  function PoolAfter(p: Pool, e: Event): Pool {
    if e.Change? then Apply(p, e.op) else p
  }

  ghost function After(u: Setup, b: Balancer, e: Event): (b': Balancer)
    requires SetupOk(u) && Fit(u, b) && Enabled(b, e)
  {
    var o := Seen(u, b, e);
    Balancer(PoolAfter(b.pool, e), if o.None? then b.dp else DP.Step(u.cfg, b.dp, o.value).0)
  }

  /** The backends whose flows the event evicts. */
  ghost function EvictedBy(u: Setup, b: Balancer, e: Event): (ids: seq<i32>)
    requires SetupOk(u) && Fit(u, b) && Enabled(b, e)
  {
    var o := Seen(u, b, e);
    if o.None? then [] else DP.Step(u.cfg, b.dp, o.value).1
  }

  datatype Run = Run(events: seq<Event>, states: seq<Balancer>, evicted: seq<multiset<i32>>)

  ghost predicate Shape(r: Run) {
    |r.states| == |r.evicted| == |r.events| + 1
  }

  /** One event, from state b with evictions ev so far. */
  ghost predicate Moves(u: Setup, b: Balancer, ev: multiset<i32>, e: Event, b': Balancer, ev': multiset<i32>)
    requires SetupOk(u)
  {
    Enabled(b, e) && (Fit(u, b) ==> b' == After(u, b, e) && ev' == ev + multiset(EvictedBy(u, b, e)))
  }

  ghost predicate StepAt(u: Setup, r: Run, i: nat)
    requires SetupOk(u) && Shape(r) && i < |r.events|
  {
    Moves(u, r.states[i], r.evicted[i], r.events[i], r.states[i + 1], r.evicted[i + 1])
  }

  ghost predicate IsRun(u: Setup, r: Run) {
    && SetupOk(u) && Shape(r) && r.states[0] == Start(u) && r.evicted[0] == multiset{}
    && forall i: nat :: i < |r.events| ==> StepAt(u, r, i)
  }

  lemma AfterFit(u: Setup, b: Balancer, e: Event)
    requires SetupOk(u) && Fit(u, b) && Enabled(b, e)
    ensures Fit(u, After(u, b, e))
  {
    if e.Change? {
      ApplyKeepsIds(b.pool, e.op);
    }
  }

  /** Every state of a run is fit, so every step is what the events say. */
  lemma {:induction false} RunFit(u: Setup, r: Run, i: nat)
    requires IsRun(u, r) && i <= |r.events|
    ensures Fit(u, r.states[i])
  {
    if i == 0 {
      InitialBalanced(u.cfg, u.buckets, u.capacity);
    } else {
      RunFit(u, r, i - 1);
      assert StepAt(u, r, i - 1);
      AfterFit(u, r.states[i - 1], r.events[i - 1]);
    }
  }

  // ------------------------------------------------------------ the datapath's share

  /** Installed tables resolve and name ids below n. */
  ghost predicate InstallServes(e: DP.Event, n: nat) {
    e.Install? ==> TableResolves(e.snap) && InstallInRange(e, n)
  }

  ghost predicate InstallsServe(es: seq<DP.Event>, n: nat) {
    forall k: nat :: k < |es| ==> InstallServes(es[k], n)
  }

  lemma SeenServes(u: Setup, b: Balancer, e: Event)
    requires SetupOk(u) && Fit(u, b) && Enabled(b, e)
    ensures Seen(u, b, e).Some? ==> InstallServes(Seen(u, b, e).value, b.pool.nextId)
  {
    if e.Rebuild? {
      PoolSnapshotServes(b.pool.slots, b.pool.nextId, u.m, u.h1, u.h2, e.generation);
    }
  }

  function Extended(d: DP.Run, e: DP.Event, s: DP.State, ev: multiset<i32>): DP.Run {
    DP.Run(d.events + [e], d.states + [s], d.evicted + [ev])
  }

  lemma ExtendedRun(cfg: DP.Config, d: DP.Run, e: DP.Event)
    requires DP.IsRun(cfg, d) && DP.EventOk(e) && DP.Ready(cfg, d.states[|d.events|])
    ensures var n := |d.events|; var next := DP.Step(cfg, d.states[n], e);
            DP.IsRun(cfg, Extended(d, e, next.0, d.evicted[n] + multiset(next.1)))
  {
    var n := |d.events|;
    var next := DP.Step(cfg, d.states[n], e);
    var d' := Extended(d, e, next.0, d.evicted[n] + multiset(next.1));
    forall i: nat | i < |d'.events|
      ensures DP.StepAt(cfg, d', i)
    {
      assert i < n ==> DP.StepAt(cfg, d, i);
    }
  }

  /** The balancer's datapath goes through a datapath run in which every installed
      table resolves and names ids handed out. */
  lemma {:induction false} Project(u: Setup, r: Run, n: nat) returns (d: DP.Run)
    requires IsRun(u, r) && n <= |r.events|
    ensures DP.IsRun(u.cfg, d) && d.states[0] == Start(u).dp
    ensures d.states[|d.events|] == r.states[n].dp && d.evicted[|d.events|] == r.evicted[n]
    ensures InstallsServe(d.events, r.states[n].pool.nextId)
  {
    RunFit(u, r, n);
    if n == 0 {
      d := DP.Run([], [r.states[0].dp], [multiset{}]);
    } else {
      var p := Project(u, r, n - 1);
      RunFit(u, r, n - 1);
      assert StepAt(u, r, n - 1);
      var b, e := r.states[n - 1], r.events[n - 1];
      IdsGrow(b.pool, e);
      var o := Seen(u, b, e);
      if o.None? {
        d := p;
        assert r.evicted[n] == r.evicted[n - 1];
      } else {
        SeenServes(u, b, e);
        ExtendedRun(u.cfg, p, o.value);
        d := Extended(p, o.value, r.states[n].dp, r.evicted[n]);
      }
      forall k: nat | k < |d.events|
        ensures InstallServes(d.events[k], r.states[n].pool.nextId)
      {
        assert k < |p.events| ==> InstallServes(p.events[k], b.pool.nextId);
      }
    }
  }

  lemma IdsGrow(p: Pool, e: Event)
    requires IdsOk(p.slots, p.nextId) && (e.Change? && e.op.Add? ==> p.nextId < 0x8000_0000)
    ensures p.nextId <= PoolAfter(p, e).nextId
  {
    if e.Change? {
      ApplyKeepsIds(p, e.op);
    }
  }

  // ------------------------------------------------------------ what every run keeps

  /** Conservation, with no condition on snapshots: as long as no more backends were
      added than the counters have room for, as in the program, which sizes them by the
      backends it adds. */
  lemma BalancerCounts(u: Setup, r: Run, n: nat, id: i32)
    requires IsRun(u, r) && n <= |r.events| && 0 <= id < u.cfg.maxBackends
    requires r.states[n].pool.nextId <= u.cfg.maxBackends
    ensures var s, ev := r.states[n].dp, r.evicted[n];
            && |s.stats.backends| == u.cfg.maxBackends
            && s.stats.backends[id].activeFlows == PinnedTo(s.ct.buckets, id)
            && s.stats.backends[id].flowsAssigned == s.stats.backends[id].activeFlows + ev[id]
            && s.stats.evictions == |ev|
            && s.stats.misses == AssignedTotal(s.stats.backends) + s.stats.dropsNoBackend + s.stats.dropsConntrackFull
  {
    var d := Project(u, r, n);
    forall k | 0 <= k < |d.events|
      ensures InstallInRange(d.events[k], u.cfg.maxBackends)
    {
      assert InstallServes(d.events[k], r.states[n].pool.nextId);
    }
    ListedRun(u.cfg, d, |d.events|);
    ConservationLaws(u.cfg, u.buckets, u.capacity, d, |d.events|, id);
  }

  lemma RunSnapResolves(u: Setup, r: Run, n: nat)
    requires IsRun(u, r) && n <= |r.events|
    ensures SnapResolves(r.states[n].dp)
  {
    var d := Project(u, r, n);
    forall k | 0 <= k < |d.events| && d.events[k].Install?
      ensures TableResolves(d.events[k].snap)
    {
      assert InstallServes(d.events[k], r.states[n].pool.nextId);
    }
    RunResolves(u.cfg, d, |d.events|);
  }

  /** A packet dropped as unhealthy always belongs to a flow pinned before it arrived:
      a new flow resolves in the snapshot it was looked up in. */
  lemma NewFlowNeverUnhealthy(u: Setup, r: Run, n: nat, key: FlowKey)
    requires IsRun(u, r) && n < |r.events| && r.events[n].Forward? && r.events[n].e.Packet?
    requires DP.KeyOf(u.cfg, r.events[n].e.buf) == Some(key)
    ensures DP.Ready(u.cfg, r.states[n].dp)
    ensures var e := r.events[n].e;
            DP.Handle(u.cfg, r.states[n].dp, e.buf, e.now, e.sent).1 == Some(DP.Unhealthy) ==>
              Find(r.states[n].dp.ct, u.cfg.hash, key).Some?
  {
    RunFit(u, r, n);
    RunSnapResolves(u, r, n);
    var s, e := r.states[n].dp, r.events[n].e;
    HandleTable(u.cfg, s, e.buf, e.now, e.sent);
    if s.snap.Some? {
      UnhealthyOnlyOnHit(u.cfg, DP.Received(s, e.buf), key, e.now);
    }
  }

  // ------------------------------------------------------------ draining

  /** The pool holds the backend draining, healthy and resolved. */
  predicate DrainsInPool(p: Pool, id: u32) {
    Live(p.slots, id) && var b := BackendOf(p.slots, id); b.admin == Draining && b.healthy && b.macResolved
  }

  lemma RunCapacity(u: Setup, r: Run, n: nat)
    requires IsRun(u, r) && n <= |r.events|
    ensures r.states[n].dp.ct.capacity < TWO64
  {
    var d := Project(u, r, n);
    InitialBalanced(u.cfg, u.buckets, u.capacity);
    RunBalanced(u.cfg, d, |d.events|);
  }

  lemma DrainStep(u: Setup, r: Run, id: u32, k: nat)
    requires IsRun(u, r) && k < |r.events| && id < 0x8000_0000
    requires DrainsInPool(r.states[k].pool, id) && Drains(r.states[k].dp.snap, id)
    ensures var s, s' := r.states[k].dp, r.states[k + 1].dp;
            && Drains(s'.snap, id)
            && PinnedTo(s'.ct.buckets, id) <= PinnedTo(s.ct.buckets, id)
            && AssignedTo(s', id) == AssignedTo(s, id)
  {
    RunFit(u, r, k);
    RunCapacity(u, r, k);
    assert StepAt(u, r, k);
    var b, e := r.states[k], r.events[k];
    var o := Seen(u, b, e);
    if o.Some? {
      StepDrained(u.cfg, b.dp, o.value, id);
      SnapAfter(u.cfg, b.dp, o.value);
      if e.Rebuild? {
        PoolSnapshotDrains(b.pool.slots, b.pool.nextId, u.m, u.h1, u.h2, e.generation, BackendOf(b.pool.slots, id));
      }
    }
  }

  lemma RebuildDrains(u: Setup, r: Run, id: u32, i: nat)
    requires IsRun(u, r) && i < |r.events| && id < 0x8000_0000 && r.events[i].Rebuild?
    requires DrainsInPool(r.states[i].pool, id)
    ensures Drains(r.states[i + 1].dp.snap, id)
  {
    RunFit(u, r, i);
    assert StepAt(u, r, i);
    var p := r.states[i].pool;
    PoolSnapshotDrains(p.slots, p.nextId, u.m, u.h1, u.h2, r.events[i].generation, BackendOf(p.slots, id));
  }

  /** From the first rebuild after a backend was set draining, and for as long as it
      stays draining, healthy and resolved: it is assigned no flow, its pinned flows
      only dwindle, and packets of flows pinned to it are forwarded to it. */
  lemma {:induction false} DrainLaw(u: Setup, r: Run, id: u32, i: nat, j: nat)
    requires IsRun(u, r) && i < j <= |r.events| && id < 0x8000_0000 && r.events[i].Rebuild?
    requires forall k :: i <= k <= j ==> DrainsInPool(r.states[k].pool, id)
    ensures var s, s' := r.states[i + 1].dp, r.states[j].dp;
            && Drains(s'.snap, id)
            && PinnedTo(s'.ct.buckets, id) <= PinnedTo(s.ct.buckets, id)
            && AssignedTo(s', id) == AssignedTo(s, id)
    decreases j
  {
    if j == i + 1 {
      assert DrainsInPool(r.states[i].pool, id);
      RebuildDrains(u, r, id, i);
    } else {
      DrainLaw(u, r, id, i, j - 1);
      assert DrainsInPool(r.states[j - 1].pool, id);
      DrainStep(u, r, id, j - 1);
    }
  }

  /** And each packet of a flow pinned to it goes to it. */
  lemma DrainedPacketServed(u: Setup, r: Run, id: u32, i: nat, j: nat, key: FlowKey)
    requires IsRun(u, r) && i < j < |r.events| && id < 0x8000_0000 && r.events[i].Rebuild?
    requires forall k :: i <= k <= j ==> DrainsInPool(r.states[k].pool, id)
    requires r.events[j].Forward? && r.events[j].e.Packet? && DP.KeyOf(u.cfg, r.events[j].e.buf) == Some(key)
    ensures DP.Ready(u.cfg, r.states[j].dp)
    ensures var e, pin := r.events[j].e, Find(r.states[j].dp.ct, u.cfg.hash, key);
            var v := DP.Handle(u.cfg, r.states[j].dp, e.buf, e.now, e.sent).1;
            pin.Some? && pin.value.backend == id ==> v.Some? && v.value.To? && v.value.id == id
  {
    DrainLaw(u, r, id, i, j);
    RunFit(u, r, j);
    RunCapacity(u, r, j);
    StepDrained(u.cfg, r.states[j].dp, r.events[j].e, id);
  }
}
