/** Stickiness in the whole balancer: a pinned flow's packets, with pool changes, rebuilds
    and reaper ticks in between, and the pool as the last rebuild saw it. */
module BalancerSticky {
  import opened Wrappers
  import opened MachineInts
  import opened BitMask
  import opened MaglevTable
  import opened RoutingSnapshot
  import opened BackendPool
  import opened ConntrackSpec
  import opened ConntrackMap
  import DP = DatapathSpec
  import opened DatapathCounts
  import opened DatapathRuns
  import opened BalancerRuns

  // ------------------------------------------------------------ the pin

  /** The flow of this record is pinned, by exactly this record. */
  ghost predicate Pinned(u: Setup, b: Balancer, rec: Rec) {
    IsPow2(|b.dp.ct.buckets|) && Find(b.dp.ct, u.cfg.hash, rec.key) == Some(rec)
  }

  function MarkFor(cfg: DP.Config, e: BalancerRuns.Event, k: FlowKey): (m: Mark) {
    if e.Forward? then MarkOf(cfg, e.e, k) else Untimed
  }

  /** The events from index i0 on, as flow k sees them. */
  function Timeline(cfg: DP.Config, es: seq<BalancerRuns.Event>, i0: nat, k: FlowKey): (ms: seq<Mark>)
    requires i0 <= |es|
    ensures |ms| == |es| - i0
  {
    seq(|es| - i0, i requires 0 <= i < |es| - i0 => MarkFor(cfg, es[i0 + i], k))
  }

  /** A sweep before one of the flow's packets finds its pin not expired. */
  lemma SweepSpares(ms: seq<Mark>, pin: Rec, i: nat, j: nat, lim: Timeouts)
    requires Monotone(ms, pin.lastSeen) && i < j < |ms| && ms[i].Sweep? && ms[j].Mine?
    requires GapsWithin(ms, pin.lastSeen, j + 1, TimeoutOf(pin.key, lim))
    ensures !Expired(pin.(lastSeen := LastSeen(ms, pin.lastSeen, i)), ms[i].t, lim)
  {
    SweepWithinTimeout(ms, pin.lastSeen, i, j, TimeoutOf(pin.key, lim));
    WithinNotExpired(pin.(lastSeen := LastSeen(ms, pin.lastSeen, i)), ms[i].t, lim);
  }

  lemma PinStep(u: Setup, r: BalancerRuns.Run, i: nat, rec: Rec, m: Mark)
    requires BalancerRuns.IsRun(u, r) && i < |r.events|
    requires m == MarkFor(u.cfg, r.events[i], rec.key) && Pinned(u, r.states[i], rec)
    requires m.Sweep? ==> !Expired(rec, m.t, u.cfg.lim)
    ensures Pinned(u, r.states[i + 1], if m.Mine? then rec.(lastSeen := m.t) else rec)
  {
    RunFit(u, r, i);
    assert BalancerRuns.StepAt(u, r, i);
    var o := Seen(u, r.states[i], r.events[i]);
    if o.Some? {
      StickyStep(u.cfg, r.states[i].dp, o.value, rec.key, rec);
    }
  }

  /** While its gaps stay within the timeout, a pinned flow keeps its pin up to each of
      its packets, whatever the pool does. */
  lemma {:induction false} PinKept(u: Setup, r: BalancerRuns.Run, i0: nat, ms: seq<Mark>, pin: Rec, i: nat, j: nat)
    requires BalancerRuns.IsRun(u, r) && i0 <= |r.events| && ms == Timeline(u.cfg, r.events, i0, pin.key)
    requires Pinned(u, r.states[i0], pin) && Monotone(ms, pin.lastSeen)
    requires i <= j < |ms| && ms[j].Mine? && GapsWithin(ms, pin.lastSeen, j + 1, TimeoutOf(pin.key, u.cfg.lim))
    ensures Pinned(u, r.states[i0 + i], pin.(lastSeen := LastSeen(ms, pin.lastSeen, i)))
  {
    if i > 0 {
      PinKept(u, r, i0, ms, pin, i - 1, j);
      var rec := pin.(lastSeen := LastSeen(ms, pin.lastSeen, i - 1));
      if ms[i - 1].Sweep? {
        SweepSpares(ms, pin, i - 1, j, u.cfg.lim);
      }
      PinStep(u, r, i0 + i - 1, rec, ms[i - 1]);
    }
  }

  // ------------------------------------------------------------ the snapshot in force

  /** The rebuild at q is the last one before event j. */
  ghost predicate LastRebuild(r: BalancerRuns.Run, q: nat, j: nat) {
    && q < j <= |r.events| && r.events[q].Rebuild?
    && forall i: nat :: q < i < j ==> !r.events[i].Rebuild?
  }

  lemma SnapshotAfter(u: Setup, r: BalancerRuns.Run, i: nat)
    requires BalancerRuns.IsRun(u, r) && i < |r.events|
    ensures var snap, snap' := r.states[i].dp.snap, r.states[i + 1].dp.snap;
            if r.events[i].Rebuild? then ResolvesIn(r.states[i + 1], r.states[i].pool.slots) else snap' == snap
  {
    RunFit(u, r, i);
    assert BalancerRuns.StepAt(u, r, i);
    var o := Seen(u, r.states[i], r.events[i]);
    if o.Some? {
      SnapAfter(u.cfg, r.states[i].dp, o.value);
    }
  }

  ghost predicate ResolvesIn(b: Balancer, slots: Slots) {
    b.dp.snap.Some? && b.dp.snap.value.backends == Views(Select(slots, IsRoutable))
  }

  /** The datapath resolves ids in the pool as the last rebuild found it. */
  lemma {:induction false} SnapshotInForce(u: Setup, r: BalancerRuns.Run, q: nat, j: nat)
    requires BalancerRuns.IsRun(u, r) && LastRebuild(r, q, j)
    ensures ResolvesIn(r.states[j], r.states[q].pool.slots)
    decreases j
  {
    SnapshotAfter(u, r, j - 1);
    if q < j - 1 {
      SnapshotInForce(u, r, q, j - 1);
    }
  }

  /** The backend the pool has under this id, if it is routable. */
  function RoutableView(slots: Slots, id: i32): (v: Option<BackendView>) {
    if 0 <= id && Live(slots, id) && IsRoutable(BackendOf(slots, id)) then Some(View(BackendOf(slots, id))) else None
  }

  lemma ListedIff(slots: Slots, nextId: nat, id: i32)
    requires IdsOk(slots, nextId) && nextId <= 0x8000_0000
    ensures FirstWithId(Views(Select(slots, IsRoutable)), id) == RoutableView(slots, id)
  {
    var rs := Select(slots, IsRoutable);
    var v := FirstWithId(Views(rs), id);
    if v.Some? {
      var i :| 0 <= i < |rs| && View(rs[i]) == v.value;
      assert rs[i] in rs;
      var a :| 0 <= a < |slots| && slots[a] == Some(rs[i]);
      FoundAt(slots, nextId, rs[i].id, a);
    } else if RoutableView(slots, id).Some? {
      LiveBackendListed(slots, nextId, BackendOf(slots, id));
    }
  }

  // ------------------------------------------------------------ the law

  /** What a packet of a flow pinned to id gets, by the pool the last rebuild saw. */
  function VerdictByPool(slots: Slots, id: i32): (v: DP.Verdict) {
    var view := RoutableView(slots, id);
    if view.None? then DP.Unhealthy else DP.To(id, view.value)
  }

  lemma VerdictInForce(u: Setup, r: BalancerRuns.Run, q: nat, j: nat, id: i32)
    requires BalancerRuns.IsRun(u, r) && LastRebuild(r, q, j)
    ensures PinnedVerdict(r.states[j].dp.snap, id) == VerdictByPool(r.states[q].pool.slots, id)
  {
    RunFit(u, r, q);
    SnapshotInForce(u, r, q, j);
    ListedIff(r.states[q].pool.slots, r.states[q].pool.nextId, id);
  }

  lemma PinnedPacket(u: Setup, r: BalancerRuns.Run, j: nat, rec: Rec)
    requires BalancerRuns.IsRun(u, r) && j < |r.events| && Pinned(u, r.states[j], rec)
    requires r.events[j].Forward? && IsFor(u.cfg, r.events[j].e, rec.key)
    ensures DP.Ready(u.cfg, r.states[j].dp)
    ensures var e := r.events[j].e;
            DP.Handle(u.cfg, r.states[j].dp, e.buf, e.now, e.sent).1
            == Some(PinnedVerdict(r.states[j].dp.snap, rec.backend))
  {
    RunFit(u, r, j);
    PacketKeepsPin(u.cfg, r.states[j].dp, r.events[j].e, rec.key);
  }

  /** Stickiness of the balancer: a packet of a pinned flow, its gaps within the timeout,
      is forwarded to the backend the flow was pinned to if and only if the last rebuild
      found that backend in the pool and routable; otherwise it is dropped, and in no case
      does another backend get it. */
  lemma BalancerStickiness(u: Setup, r: BalancerRuns.Run, i0: nat, q: nat, j: nat, pin: Rec)
    requires BalancerRuns.IsRun(u, r) && i0 <= j < |r.events| && LastRebuild(r, q, j)
    requires Pinned(u, r.states[i0], pin)
    requires r.events[j].Forward? && IsFor(u.cfg, r.events[j].e, pin.key)
    requires Monotone(Timeline(u.cfg, r.events, i0, pin.key), pin.lastSeen)
    requires GapsWithin(Timeline(u.cfg, r.events, i0, pin.key), pin.lastSeen, j - i0 + 1, TimeoutOf(pin.key, u.cfg.lim))
    ensures DP.Ready(u.cfg, r.states[j].dp) && r.events[j].e.Packet?
    ensures var e := r.events[j].e;
            DP.Handle(u.cfg, r.states[j].dp, e.buf, e.now, e.sent).1
            == Some(VerdictByPool(r.states[q].pool.slots, pin.backend))
  {
    var ms := Timeline(u.cfg, r.events, i0, pin.key);
    assert ms[j - i0] == MarkFor(u.cfg, r.events[j], pin.key);
    PinKept(u, r, i0, ms, pin, j - i0, j - i0);
    PinnedPacket(u, r, j, pin.(lastSeen := LastSeen(ms, pin.lastSeen, j - i0)));
    VerdictInForce(u, r, q, j, pin.backend);
  }
}
