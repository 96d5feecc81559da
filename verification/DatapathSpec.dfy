/** The datapath as a state machine over packets, reaper ticks and snapshot
    installs (src/forward/datapath.c, src/stats/stats_registry.c). */
module DatapathSpec {
  import opened Wrappers
  import opened MachineInts
  import opened BitMask
  import opened MaglevTable
  import opened RoutingSnapshot
  import opened ConntrackSpec
  import opened ConntrackMap
  import opened Ipv4
  import opened Gre
  import opened Flow

  const BUF_LEN: nat := 2048

  datatype PerBackend = PerBackend(packets: nat, bytes: nat, activeFlows: u64, flowsAssigned: nat)

  datatype Stats = Stats(
    rxPackets: nat, rxBytes: nat, txPackets: nat, txBytes: nat,
    dropsParseError: nat, dropsNoBackend: nat, dropsBackendUnhealthy: nat, dropsConntrackFull: nat,
    hits: nat, misses: nat, evictions: nat,
    backends: seq<PerBackend>)

  datatype Config = Config(hash: FlowHash, vip: u32, directorIp: u32, ttl: u8, ownMac: Mac,
                           lim: Timeouts, bucketsPerTick: nat, maxBackends: nat)

  datatype State = State(ct: Table, stats: Stats, snap: Option<Snapshot>)

  // ------------------------------------------------------------ per-backend counters

  /** `stats_backend_flow_opened`: ids beyond the registry are ignored. */
  function Opened(bs: seq<PerBackend>, id: nat): (r: seq<PerBackend>)
    ensures |r| == |bs|
  {
    if id >= |bs| then bs
    else bs[id := bs[id].(activeFlows := (bs[id].activeFlows + 1) % TWO64, flowsAssigned := bs[id].flowsAssigned + 1)]
  }

  /** `stats_backend_flow_closed`, with the unsigned decrement wrapping. */
  function Closed(bs: seq<PerBackend>, id: nat): (r: seq<PerBackend>)
    ensures |r| == |bs|
  {
    if id >= |bs| then bs else bs[id := bs[id].(activeFlows := (bs[id].activeFlows - 1) % TWO64)]
  }

  /** `on_flow_evicted`, for each evicted id. */
  function ClosedAll(bs: seq<PerBackend>, ids: seq<i32>): (r: seq<PerBackend>)
    ensures |r| == |bs|
  {
    if ids == [] then bs else
      var rest, id := ClosedAll(bs, ids[..|ids| - 1]), ids[|ids| - 1];
      if id < 0 then rest else Closed(rest, id)
  }

  function Recorded(bs: seq<PerBackend>, id: nat, n: nat): (r: seq<PerBackend>)
    ensures |r| == |bs|
  {
    if id >= |bs| then bs else bs[id := bs[id].(packets := bs[id].packets + 1, bytes := bs[id].bytes + n)]
  }

  // ------------------------------------------------------------ one packet

  datatype Verdict = NoBackend | TableFull | Unhealthy | To(id: i32, view: BackendView)

  ghost predicate Ready(cfg: Config, s: State) {
    WellFormed(s.ct, cfg.hash) && (s.snap.Some? ==> |s.snap.value.table| > 0)
  }

  /** Lines 112-123: pin a flow that missed. */
  function PinNew(cfg: Config, s: State, snap: Snapshot, key: FlowKey, now: u64): (r: (State, Option<Verdict>, i32))
    requires IsPow2(|s.ct.buckets|) && |snap.table| > 0
  {
    var id := LookupSlot(snap.table, cfg.hash, key);
    if id < 0 then (s.(stats := s.stats.(dropsNoBackend := s.stats.dropsNoBackend + 1)), Some(NoBackend), id) else
      var (ct, ok) := Insert(s.ct, cfg.hash, key, id, now);
      if !ok then (s.(stats := s.stats.(dropsConntrackFull := s.stats.dropsConntrackFull + 1)), Some(TableFull), id)
      else (s.(ct := ct, stats := s.stats.(backends := Opened(s.stats.backends, id))), None, id)
  }

  /** Lines 125-132: resolve the pinned backend in the snapshot. */
  function Resolve(s: State, snap: Snapshot, id: i32): (r: (State, Verdict)) {
    var view := FirstWithId(snap.backends, id);
    if view.None?
    then (s.(stats := s.stats.(dropsBackendUnhealthy := s.stats.dropsBackendUnhealthy + 1)), Unhealthy)
    else (s, To(id, view.value))
  }

  /** Lines 100-104: the conntrack lookup and its hit or miss. */
  function Track(cfg: Config, s: State, key: FlowKey, now: u64): (r: (State, Option<i32>))
    requires IsPow2(|s.ct.buckets|)
  {
    var (ct, hit) := Lookup(s.ct, cfg.hash, key, now);
    var st := if hit.Some? then s.stats.(hits := s.stats.hits + 1) else s.stats.(misses := s.stats.misses + 1);
    (State(ct, st, s.snap), hit)
  }

  function RouteNew(cfg: Config, s: State, snap: Snapshot, key: FlowKey, now: u64): (r: (State, Verdict))
    requires IsPow2(|s.ct.buckets|) && |snap.table| > 0
  {
    var (s', drop, id) := PinNew(cfg, s, snap, key, now);
    if drop.Some? then (s', drop.value) else Resolve(s', snap, id)
  }

  /** Lines 106-132: what becomes of a packet, given the conntrack answer. */
  function Judge(cfg: Config, s: State, hit: Option<i32>, key: FlowKey, now: u64): (r: (State, Verdict))
    requires IsPow2(|s.ct.buckets|) && (s.snap.Some? ==> |s.snap.value.table| > 0)
  {
    if s.snap.None? then (s.(stats := s.stats.(dropsNoBackend := s.stats.dropsNoBackend + 1)), NoBackend)
    else if hit.Some? then Resolve(s, s.snap.value, hit.value)
    else RouteNew(cfg, s, s.snap.value, key, now)
  }

  /** Lines 100-132: conntrack first, then Maglev for a new flow. */
  function Route(cfg: Config, s: State, key: FlowKey, now: u64): (r: (State, Verdict))
    requires IsPow2(|s.ct.buckets|) && (s.snap.Some? ==> |s.snap.value.table| > 0)
  {
    var (s1, hit) := Track(cfg, s, key, now);
    Judge(cfg, s1, hit, key, now)
  }

  function EncapFor(cfg: Config, view: BackendView): Encap {
    Encap(view.mac, cfg.ownMac, cfg.directorIp, view.addr, cfg.ttl)
  }

  /** Lines 134-148: encapsulate and send; `sent` is what the socket returned. */
  function Transmit(cfg: Config, s: State, v: Verdict, inner: Bytes, sent: int): (r: (State, Option<Bytes>))
  {
    if !v.To? then (s, None)
    else if ENCAP_LEN + |inner| > BUF_LEN
    then (s.(stats := s.stats.(dropsParseError := s.stats.dropsParseError + 1)), None)
    else
      var frame := Frame(EncapFor(cfg, v.view), inner);
      if sent <= 0 then (s, Some(frame))
      else
        var st := s.stats;
        (s.(stats := st.(txPackets := st.txPackets + 1, txBytes := st.txBytes + sent,
                         backends := if v.id < 0 then st.backends else Recorded(st.backends, v.id, sent))),
         Some(frame))
  }

  /** The flow a received frame belongs to, if it is for the VIP. */
  function KeyOf(cfg: Config, buf: Bytes): (r: Option<FlowKey>) {
    var x := ExtractFlow(buf);
    if x.Flow? && x.key.dstIp == cfg.vip then Some(x.key) else None
  }

  function Received(s: State, buf: Bytes): State {
    s.(stats := s.stats.(rxPackets := s.stats.rxPackets + 1, rxBytes := s.stats.rxBytes + |buf|))
  }

  /** `handle_packet` for a received frame. */
  function Handle(cfg: Config, s: State, buf: Bytes, now: u64, sent: int): (r: (State, Option<Verdict>, Option<Bytes>))
    requires IsPow2(|s.ct.buckets|) && (s.snap.Some? ==> |s.snap.value.table| > 0)
  {
    if buf == [] then (s, None, None) else
      var s0 := Received(s, buf);
      if KeyOf(cfg, buf).None? then
        (if ExtractFlow(buf).Truncated?
         then s0.(stats := s0.stats.(dropsParseError := s0.stats.dropsParseError + 1)) else s0,
         None, None)
      else
        var (s1, v) := Route(cfg, s0, KeyOf(cfg, buf).value, now);
        var (s2, frame) := Transmit(cfg, s1, v, InnerPacket(buf), sent);
        (s2, Some(v), frame)
  }

  /** The reaper tick of `datapath_run`. */
  function Tick(cfg: Config, s: State, now: u64): (r: (State, seq<i32>))
    requires s.ct.cursor < |s.ct.buckets|
  {
    var (ct, ev) := Reap(s.ct, now, cfg.lim, cfg.bucketsPerTick);
    var st := s.stats.(backends := ClosedAll(s.stats.backends, ev), evictions := s.stats.evictions + |ev|);
    (State(ct, st, s.snap), ev)
  }

  // ------------------------------------------------------------ runs

  datatype Event =
    | Packet(buf: Bytes, now: u64, sent: int)
    | TimerFired(now: u64)
    | Install(snap: Snapshot)

  predicate EventOk(e: Event) {
    e.Install? ==> |e.snap.table| > 0
  }

  /** The next state and the backends whose flows were evicted. */
  function Step(cfg: Config, s: State, e: Event): (r: (State, seq<i32>))
    requires Ready(cfg, s) && EventOk(e)
    ensures Ready(cfg, r.0)
  {
    match e
    case Packet(buf, now, sent) =>
      HandleReady(cfg, s, buf, now, sent);
      (Handle(cfg, s, buf, now, sent).0, [])
    case TimerFired(now) =>
      ReapCounts(s.ct, cfg.hash, now, cfg.lim, cfg.bucketsPerTick, 0);
      Tick(cfg, s, now)
    case Install(snap) => (s.(snap := Some(snap)), [])
  }

  lemma RouteReady(cfg: Config, s: State, key: FlowKey, now: u64)
    requires Ready(cfg, s)
    ensures Ready(cfg, Route(cfg, s, key, now).0) && Route(cfg, s, key, now).0.snap == s.snap
  {
    LookupEffect(s.ct, cfg.hash, key, now);
    if Find(s.ct, cfg.hash, key).None? && s.snap.Some? {
      InsertEffect(s.ct, cfg.hash, key, LookupSlot(s.snap.value.table, cfg.hash, key), now);
    }
  }

  lemma HandleReady(cfg: Config, s: State, buf: Bytes, now: u64, sent: int)
    requires Ready(cfg, s)
    ensures Ready(cfg, Handle(cfg, s, buf, now, sent).0)
  {
    if KeyOf(cfg, buf).Some? {
      var s0 := Received(s, buf);
      RouteReady(cfg, s0, KeyOf(cfg, buf).value, now);
    }
  }

  /** A run: the state before each event and after the last, and the evictions
      reported so far at each point. */
  datatype Run = Run(events: seq<Event>, states: seq<State>, evicted: seq<multiset<i32>>)

  ghost predicate Shape(r: Run) {
    |r.states| == |r.evicted| == |r.events| + 1
  }

  ghost predicate StepAt(cfg: Config, r: Run, i: nat)
    requires Shape(r) && i < |r.events|
  {
    && Ready(cfg, r.states[i]) && EventOk(r.events[i])
    && r.states[i + 1] == Step(cfg, r.states[i], r.events[i]).0
    && r.evicted[i + 1] == r.evicted[i] + multiset(Step(cfg, r.states[i], r.events[i]).1)
  }

  ghost predicate IsRun(cfg: Config, r: Run) {
    && Shape(r) && Ready(cfg, r.states[0]) && r.evicted[0] == multiset{}
    && forall i: nat :: i < |r.events| ==> StepAt(cfg, r, i)
  }

  /** Every event sequence has a run from every ready state. */
  lemma {:induction false} RunExists(cfg: Config, s: State, es: seq<Event>) returns (r: Run)
    requires Ready(cfg, s) && forall i :: 0 <= i < |es| ==> EventOk(es[i])
    ensures IsRun(cfg, r) && r.events == es && r.states[0] == s && Ready(cfg, r.states[|es|])
  {
    if es == [] {
      r := Run([], [s], [multiset{}]);
    } else {
      var k := |es| - 1;
      var p := RunExists(cfg, s, es[..k]);
      var next := Step(cfg, p.states[k], es[k]);
      r := Run(es, p.states + [next.0], p.evicted + [p.evicted[k] + multiset(next.1)]);
      forall i: nat | i < |es|
        ensures StepAt(cfg, r, i)
      {
        assert i < k ==> StepAt(cfg, p, i);
      }
    }
  }

  function InitialState(buckets: nat, capacity: nat, backends: nat): (s: State) {
    State(Table(seq(buckets, _ => []), 0, capacity),
          Stats(0, 0, 0, 0, 0, 0, 0, 0, 0, 0, 0, seq(backends, _ => PerBackend(0, 0, 0, 0))), None)
  }
}
