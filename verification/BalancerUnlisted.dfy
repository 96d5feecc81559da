/** Ids beyond the counters: how a miss goes unrecorded, and a run that gets there. */
module BalancerUnlisted {
  import opened Wrappers
  import opened MachineInts
  import opened Primes
  import opened MaglevTable
  import opened RoutingSnapshot
  import opened BackendPool
  import opened Rebuild
  import opened ConntrackSpec
  import opened Ipv4
  import DP = DatapathSpec
  import opened DatapathCounts
  import opened DatapathRuns
  import opened BalancerRuns

  /** The only eligible backend has an id the counters have no room for. */
  ghost predicate OnlyUnlisted(p: Pool, b: Backend, maxBackends: nat) {
    && Some(b) in p.slots && IsEligible(b) && b.id >= maxBackends
    && forall c :: c in Select(p.slots, IsEligible) ==> c == b
  }

  lemma TableOfOne(p: Pool, b: Backend, maxBackends: nat, m: u32, h1: NameHash, h2: NameHash, generation: u64, v: i32)
    requires IdsOk(p.slots, p.nextId) && p.nextId <= 0x8000_0000 && IsPrime(m) && OnlyUnlisted(p, b, maxBackends)
    ensures SignedIds(Views(Select(p.slots, IsEligible)))
    ensures v in SnapshotFrom(p.slots, p.slots, m, h1, h2, generation).table ==> v == b.id
  {
    SnapshotListsAgree(p.slots, p.nextId);
    var es := Select(p.slots, IsEligible);
    var eligible := Views(es);
    var table := SnapshotFrom(p.slots, p.slots, m, h1, h2, generation).table;
    assert b in es && eligible != [];
    if v in table {
      var i: nat :| i < |table| && table[i] == v;
      TableNamesCandidates(eligible, m, h1, h2, i);
      var c :| c in eligible && c.id == v;
      var j :| 0 <= j < |eligible| && eligible[j] == c;
      assert es[j] in es;
    }
  }

  /** The first packet, when every slot of the table names an unlisted id. */
  lemma FirstUnlistedPacket(cfg: DP.Config, s: DP.State, buf: Bytes, now: u64, sent: int)
    requires Balanced(cfg, s, multiset{}, 0) && Size(s.ct.buckets) == 0 && s.ct.capacity > 0 && s.snap.Some?
    requires forall v :: v in s.snap.value.table ==> v >= cfg.maxBackends
    requires DP.KeyOf(cfg, buf).Some? && s.stats.dropsNoBackend == 0 && s.stats.dropsConntrackFull == 0
    ensures var t := DP.Handle(cfg, s, buf, now, sent).0.stats;
            AssignedTotal(t.backends) == 0 && t.misses == 1 + t.dropsNoBackend + t.dropsConntrackFull
  {
    var key := DP.KeyOf(cfg, buf).value;
    EmptyTableChains(s.ct.buckets, BucketOf(cfg.hash, key, |s.ct.buckets|));
    assert LookupSlot(s.snap.value.table, cfg.hash, key) in s.snap.value.table;
    assert OpensUnlisted(cfg, s, key) == 1;
    HandleBalanced(cfg, s, buf, now, sent, multiset{}, 0);
    HandleTable(cfg, s, buf, now, sent);
    ReceivedReady(cfg, s, buf, key);
    RouteCounts(cfg, DP.Received(s, buf), key, now, 0);
  }

  /** The state after the first install. */
  ghost function Installed(u: Setup, p: Pool, generation: u64): (s: DP.State)
    requires SetupOk(u) && IdsOk(p.slots, p.nextId) && p.nextId <= 0x8000_0000
  {
    PoolSnapshotServes(p.slots, p.nextId, u.m, u.h1, u.h2, generation);
    Start(u).dp.(snap := Some(SnapshotFrom(p.slots, p.slots, u.m, u.h1, u.h2, generation)))
  }

  lemma InstalledBalanced(u: Setup, p: Pool, generation: u64)
    requires SetupOk(u) && IdsOk(p.slots, p.nextId) && p.nextId <= 0x8000_0000
    ensures Balanced(u.cfg, Installed(u, p, generation), multiset{}, 0)
    ensures Size(Start(u).dp.ct.buckets) == 0
  {
    PoolSnapshotServes(p.slots, p.nextId, u.m, u.h1, u.h2, generation);
    var e := DP.Install(SnapshotFrom(p.slots, p.slots, u.m, u.h1, u.h2, generation));
    InitialBalanced(u.cfg, u.buckets, u.capacity);
    var none: multiset<i32> := multiset{};
    StepBalanced(u.cfg, Start(u).dp, e, none, 0);
    assert none + multiset([]) == none;
    TotalEmpty(u.buckets, Length);
  }

  /** Install the table of such a pool and let one packet for the VIP arrive: it is a
      miss that no drop counter explains, and flows_assigned does not show it. */
  lemma UnlistedBackendHidesMiss(u: Setup, p: Pool, b: Backend, generation: u64, buf: Bytes, now: u64, sent: int)
    requires SetupOk(u) && u.capacity > 0 && DP.KeyOf(u.cfg, buf).Some?
    requires IdsOk(p.slots, p.nextId) && p.nextId <= 0x8000_0000 && OnlyUnlisted(p, b, u.cfg.maxBackends)
    ensures DP.Ready(u.cfg, Installed(u, p, generation))
    ensures var t := DP.Handle(u.cfg, Installed(u, p, generation), buf, now, sent).0.stats;
            AssignedTotal(t.backends) == 0 && t.misses == 1 + t.dropsNoBackend + t.dropsConntrackFull
  {
    var s := Installed(u, p, generation);
    InstalledBalanced(u, p, generation);
    forall v | v in s.snap.value.table
      ensures v >= u.cfg.maxBackends
    {
      TableOfOne(p, b, u.cfg.maxBackends, u.m, u.h1, u.h2, generation, v);
    }
    FirstUnlistedPacket(u.cfg, s, buf, now, sent);
  }

  // ------------------------------------------------------------ a run that gets there

  function Last(r: BalancerRuns.Run): Balancer
    requires |r.states| > 0
  {
    r.states[|r.states| - 1]
  }

  function Grown(r: BalancerRuns.Run, e: BalancerRuns.Event, b: Balancer, ev: multiset<i32>): BalancerRuns.Run {
    BalancerRuns.Run(r.events + [e], r.states + [b], r.evicted + [ev])
  }

  lemma GrownStep(u: Setup, r: BalancerRuns.Run, e: BalancerRuns.Event, b: Balancer, ev: multiset<i32>, i: nat)
    requires BalancerRuns.IsRun(u, r) && i <= |r.events|
    requires Moves(u, Last(r), r.evicted[|r.events|], e, b, ev)
    ensures BalancerRuns.StepAt(u, Grown(r, e, b, ev), i)
  {
    if i < |r.events| {
      assert BalancerRuns.StepAt(u, r, i);
    }
  }

  /** A run goes on with any event that is enabled. */
  lemma Grow(u: Setup, r: BalancerRuns.Run, e: BalancerRuns.Event) returns (r': BalancerRuns.Run)
    requires BalancerRuns.IsRun(u, r) && BalancerRuns.Enabled(Last(r), e)
    ensures BalancerRuns.IsRun(u, r') && r'.events == r.events + [e]
    ensures Fit(u, Last(r)) && Last(r') == After(u, Last(r), e)
  {
    RunFit(u, r, |r.events|);
    var b, ev := After(u, Last(r), e), r.evicted[|r.events|] + multiset(EvictedBy(u, Last(r), e));
    r' := Grown(r, e, b, ev);
    forall i: nat | i < |r'.events|
      ensures BalancerRuns.StepAt(u, r', i)
    {
      GrownStep(u, r, e, b, ev, i);
    }
  }

  lemma GrowTwice(u: Setup, r: BalancerRuns.Run, e: BalancerRuns.Event, e': BalancerRuns.Event)
    returns (r': BalancerRuns.Run)
    requires BalancerRuns.IsRun(u, r) && !e.Change? && !e'.Change?
    requires BalancerRuns.Enabled(Last(r), e) && BalancerRuns.Enabled(Last(r), e')
    ensures BalancerRuns.IsRun(u, r') && r'.events == r.events + [e, e']
    ensures Fit(u, Last(r)) && Fit(u, After(u, Last(r), e)) && Last(r') == After(u, After(u, Last(r), e), e')
  {
    var mid := Grow(u, r, e);
    r' := Grow(u, mid, e');
  }

  /** Two backends added to the empty pool. */
  function TwoAdded(first: PoolOp, second: PoolOp): Pool {
    Apply(Apply(Pool(seq(BACKEND_MAX, _ => None), 0), first), second)
  }

  lemma TwoAddedSlots(first: PoolOp, second: PoolOp)
    requires first.Add? && second.Add?
    ensures var p := TwoAdded(first, second);
            && p.nextId == 2 && |p.slots| == BACKEND_MAX
            && p.slots[0] == Some(NewBackend(0, first.addr, first.port))
            && p.slots[1] == Some(NewBackend(1, second.addr, second.port))
            && forall i :: 2 <= i < BACKEND_MAX ==> p.slots[i] == None
  {
    var none: Slots := seq(BACKEND_MAX, _ => None);
    var p1 := Apply(Pool(none, 0), first);
    assert FreeSlotFrom(none, 0) == 0;
    assert FreeSlotFrom(p1.slots, 0) == 1;
  }

  /** Once the address of the second is resolved, it is the only eligible one. */
  lemma SecondIsUnlisted(first: PoolOp, second: PoolOp, mac: Mac)
    requires first.Add? && second.Add?
    ensures var b := NewBackend(1, second.addr, second.port).(mac := mac, macResolved := true);
            OnlyUnlisted(Apply(TwoAdded(first, second), SetMac(1, mac)), b, 1)
  {
    TwoAddedSlots(first, second);
    var p := TwoAdded(first, second);
    var b := NewBackend(1, second.addr, second.port).(mac := mac, macResolved := true);
    assert FindSlot(p.slots, 1) == 1;
    assert Apply(p, SetMac(1, mac)).slots == p.slots[1 := Some(b)];
    assert Apply(p, SetMac(1, mac)).slots[1] == Some(b);
  }

  lemma TwoAddedReached(u: Setup, first: PoolOp, second: PoolOp, mac: Mac) returns (r: BalancerRuns.Run)
    requires SetupOk(u) && first.Add? && second.Add?
    ensures BalancerRuns.IsRun(u, r) && r.events == [Change(first), Change(second), Change(SetMac(1, mac))]
    ensures Last(r) == Balancer(Apply(TwoAdded(first, second), SetMac(1, mac)), Start(u).dp)
  {
    var r0 := BalancerRuns.Run([], [Start(u)], [multiset{}]);
    var r1 := Grow(u, r0, Change(first));
    assert FreeSlotFrom(Start(u).pool.slots, 0) == 0;
    var r2 := Grow(u, r1, Change(second));
    r := Grow(u, r2, Change(SetMac(1, mac)));
  }

  /** The first rebuild finds such a pool and a packet for the VIP follows. */
  lemma HiddenAfter(u: Setup, b: Balancer, unlisted: Backend, generation: u64, packet: DP.Event)
    requires SetupOk(u) && u.capacity > 0 && Fit(u, b) && b.dp == Start(u).dp
    requires OnlyUnlisted(b.pool, unlisted, u.cfg.maxBackends)
    requires packet.Packet? && DP.KeyOf(u.cfg, packet.buf).Some?
    ensures Fit(u, After(u, b, Rebuild(generation)))
    ensures var t := After(u, After(u, b, Rebuild(generation)), Forward(packet)).dp.stats;
            AssignedTotal(t.backends) == 0 && t.misses == 1 + t.dropsNoBackend + t.dropsConntrackFull
  {
    AfterFit(u, b, Rebuild(generation));
    assert After(u, b, Rebuild(generation)).dp == Installed(u, b.pool, generation);
    UnlistedBackendHidesMiss(u, b.pool, unlisted, generation, packet.buf, packet.now, packet.sent);
  }

  /** From the start, with counters for one backend: add two, resolve the second, rebuild,
      and one packet for the VIP is a miss that neither flows_assigned nor a drop explains. */
  lemma HiddenMissReached(u: Setup, first: PoolOp, second: PoolOp, mac: Mac, generation: u64, packet: DP.Event)
    returns (r: BalancerRuns.Run)
    requires SetupOk(u) && u.capacity > 0 && u.cfg.maxBackends == 1 && first.Add? && second.Add?
    requires packet.Packet? && DP.KeyOf(u.cfg, packet.buf).Some?
    ensures BalancerRuns.IsRun(u, r)
    ensures r.events == [Change(first), Change(second), Change(SetMac(1, mac)), Rebuild(generation), Forward(packet)]
    ensures var t := Last(r).dp.stats;
            AssignedTotal(t.backends) == 0 && t.misses == 1 + t.dropsNoBackend + t.dropsConntrackFull
  {
    var r3 := TwoAddedReached(u, first, second, mac);
    r := GrowTwice(u, r3, Rebuild(generation), Forward(packet));
    SecondIsUnlisted(first, second, mac);
    HiddenAfter(u, Last(r3), NewBackend(1, second.addr, second.port).(mac := mac, macResolved := true),
                generation, packet);
  }
}
