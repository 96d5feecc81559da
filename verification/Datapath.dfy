/** The datapath object (src/forward/datapath.c) and its counters
    (src/stats/stats_registry.c), updated step by step and proved equal to the
    state machine in DatapathSpec. */
module Datapath {
  import opened Wrappers
  import opened MachineInts
  import opened BitMask
  import opened RoutingSnapshot
  import CS = ConntrackSpec
  import opened ConntrackSlab
  import opened Conntrack
  import opened Ipv4
  import opened Gre
  import opened Flow
  import opened DatapathSpec

  /** `struct lb_stats` */
  class LbStats {
    var rxPackets: nat
    var rxBytes: nat
    var txPackets: nat
    var txBytes: nat
    var dropsParseError: nat
    var dropsNoBackend: nat
    var dropsBackendUnhealthy: nat
    var dropsConntrackFull: nat
    var hits: nat
    var misses: nat
    var evictions: nat
    const backends: array<PerBackend>

    ghost function Abs(): (s: Stats)
      reads this, backends
    {
      Stats(rxPackets, rxBytes, txPackets, txBytes, dropsParseError, dropsNoBackend, dropsBackendUnhealthy,
            dropsConntrackFull, hits, misses, evictions, backends[..])
    }

    constructor (maxBackends: nat)
      ensures fresh(backends)
      ensures Abs() == Stats(0, 0, 0, 0, 0, 0, 0, 0, 0, 0, 0, seq(maxBackends, _ => PerBackend(0, 0, 0, 0)))
    {
      rxPackets, rxBytes, txPackets, txBytes := 0, 0, 0, 0;
      dropsParseError, dropsNoBackend, dropsBackendUnhealthy, dropsConntrackFull := 0, 0, 0, 0;
      hits, misses, evictions := 0, 0, 0;
      backends := new PerBackend[maxBackends](_ => PerBackend(0, 0, 0, 0));
    }

    method CountLookup(hit: bool)
      modifies this`hits, this`misses
      ensures Abs() == if hit then old(Abs()).(hits := old(hits) + 1) else old(Abs()).(misses := old(misses) + 1)
    {
      if hit {
        hits := hits + 1;
      } else {
        misses := misses + 1;
      }
    }

    method CountNoBackend()
      modifies this`dropsNoBackend
      ensures Abs() == old(Abs()).(dropsNoBackend := old(dropsNoBackend) + 1)
    {
      dropsNoBackend := dropsNoBackend + 1;
    }

    method FlowOpened(id: nat)
      modifies backends
      ensures backends[..] == Opened(old(backends[..]), id)
    {
      if id >= backends.Length {
        return;
      }
      var b := backends[id];
      backends[id] := b.(activeFlows := (b.activeFlows + 1) % CS.TWO64, flowsAssigned := b.flowsAssigned + 1);
    }

    method FlowClosed(id: nat)
      modifies backends
      ensures backends[..] == Closed(old(backends[..]), id)
    {
      if id >= backends.Length {
        return;
      }
      var b := backends[id];
      backends[id] := b.(activeFlows := (b.activeFlows - 1) % CS.TWO64);
    }

    method RecordPacket(id: nat, n: nat)
      modifies backends
      ensures backends[..] == Recorded(old(backends[..]), id, n)
    {
      if id >= backends.Length {
        return;
      }
      var b := backends[id];
      backends[id] := b.(packets := b.packets + 1, bytes := b.bytes + n);
    }

    /** The counters of a frame the socket took. */
    method CountSent(id: i32, sent: nat)
      modifies this`txPackets, this`txBytes, backends
      ensures Abs() == old(Abs()).(txPackets := old(txPackets) + 1, txBytes := old(txBytes) + sent,
                                   backends := if id >= 0 then Recorded(old(backends[..]), id, sent)
                                               else old(backends[..]))
    {
      txPackets := txPackets + 1;
      txBytes := txBytes + sent;
      if id >= 0 {
        RecordPacket(id, sent);
      }
    }

    /** `on_flow_evicted`, once per evicted entry. */
    method FlowsEvicted(ids: seq<i32>)
      modifies backends
      ensures backends[..] == ClosedAll(old(backends[..]), ids)
    {
      assert ids[..0] == [];
      for i := 0 to |ids|
        invariant backends[..] == ClosedAll(old(backends[..]), ids[..i])
      {
        assert ids[..i + 1][..i] == ids[..i];
        if ids[i] >= 0 {
          FlowClosed(ids[i]);
        }
      }
      assert ids[..|ids|] == ids;
    }
  }

  class DatapathLoop {
    const cfg: Config
    const ct: ConntrackTable
    const stats: LbStats
    const txBuf: array<u8>
    var active: Option<Snapshot>

    ghost predicate Valid()
      reads this, ct, ct.buckets, ct.slab
    {
      && ct.Valid() && ct.hash == cfg.hash && txBuf.Length == BUF_LEN && ct.buckets as object != txBuf
      && (active.Some? ==> |active.value.table| > 0)
    }

    ghost function Abs(): (s: State)
      reads this, ct, stats, stats.backends
    {
      State(ct.table, stats.Abs(), active)
    }

    lemma TableShape()
      requires Valid()
      ensures |ct.table.buckets| == ct.buckets.Length
      ensures IsPow2(|ct.table.buckets|) && ct.table.cursor < |ct.table.buckets|
    {
      ContentsShape(ct.layout, ct.sweepCursor, ct.active, ct.table);
    }

    constructor (cfg: Config, ct: ConntrackTable, stats: LbStats)
      requires ct.Valid() && ct.hash == cfg.hash
      ensures Valid() && this.cfg == cfg && this.ct == ct && this.stats == stats && fresh(txBuf) && active == None
    {
      this.cfg, this.ct, this.stats, active := cfg, ct, stats, None;
      txBuf := new u8[BUF_LEN](_ => 0);
    }

    /** A flow that missed: Maglev lookup, then pin. */
    method Pin(key: FlowKey, now: u64) returns (drop: Option<Verdict>, id: i32)
      requires Valid() && active.Some? && IsPow2(|ct.table.buckets|)
      modifies ct, ct.buckets, ct.slab, stats, stats.backends
      ensures Valid() && (Abs(), drop, id) == PinNew(cfg, old(Abs()), active.value, key, now)
    {
      id := LookupSlot(active.value.table, cfg.hash, key);
      if id < 0 {
        stats.CountNoBackend();
        return Some(NoBackend), id;
      }
      var ok := ct.Insert(key, id, now);
      if !ok {
        stats.dropsConntrackFull := stats.dropsConntrackFull + 1;
        return Some(TableFull), id;
      }
      stats.FlowOpened(id);
      return None, id;
    }

    method TrackFlow(key: FlowKey, now: u64) returns (hit: Option<i32>)
      requires Valid() && IsPow2(|ct.table.buckets|)
      modifies ct`layout, ct`table, ct.slab, stats`hits, stats`misses
      ensures Valid() && (Abs(), hit) == Track(cfg, old(Abs()), key, now)
    {
      hit := ct.Lookup(key, now);
      stats.CountLookup(hit.Some?);
    }

    method ResolvePinned(id: i32) returns (v: Verdict)
      requires Valid() && active.Some?
      modifies stats
      ensures Valid() && (Abs(), v) == Resolve(old(Abs()), active.value, id)
    {
      var view := FindBackend(active.value, id);
      if view.None? {
        stats.dropsBackendUnhealthy := stats.dropsBackendUnhealthy + 1;
        return Unhealthy;
      }
      return To(id, view.value);
    }

    method RouteMissed(key: FlowKey, now: u64) returns (v: Verdict)
      requires Valid() && active.Some? && IsPow2(|ct.table.buckets|)
      modifies ct, ct.buckets, ct.slab, stats, stats.backends
      ensures Valid() && (Abs(), v) == RouteNew(cfg, old(Abs()), active.value, key, now)
    {
      var drop, id := Pin(key, now);
      if drop.Some? {
        return drop.value;
      }
      v := ResolvePinned(id);
    }

    /** Lines 106-132 of datapath.c. */
    method JudgePacket(hit: Option<i32>, key: FlowKey, now: u64) returns (v: Verdict)
      requires Valid() && IsPow2(|ct.table.buckets|)
      modifies ct, ct.buckets, ct.slab, stats, stats.backends
      ensures Valid() && (Abs(), v) == Judge(cfg, old(Abs()), hit, key, now)
    {
      if active.None? {
        stats.CountNoBackend();
        return NoBackend;
      }
      if hit.Some? {
        v := ResolvePinned(hit.value);
      } else {
        v := RouteMissed(key, now);
      }
    }

    /** Lines 100-132 of datapath.c. */
    method RoutePacket(key: FlowKey, now: u64) returns (v: Verdict)
      requires Valid() && IsPow2(|ct.table.buckets|)
      modifies ct, ct.buckets, ct.slab, stats, stats.backends
      ensures Valid() && (Abs(), v) == Route(cfg, old(Abs()), key, now)
    {
      var hit := TrackFlow(key, now);
      TableShape();
      v := JudgePacket(hit, key, now);
    }

    /** Lines 134-140: the frame at the start of the transmit buffer, or 0. */
    method Encapsulate(e: Encap, inner: Bytes) returns (n: nat)
      requires Valid()
      modifies txBuf
      ensures Valid() && Abs() == old(Abs())
      ensures n == if ENCAP_LEN + |inner| > BUF_LEN then 0 else ENCAP_LEN + |inner|
      ensures n > 0 ==> n <= txBuf.Length && txBuf[..n] == Frame(e, inner)
    {
      n := EncapBuild(txBuf, e, inner);
      if n > 0 {
        assert txBuf[..n] == Frame(e, inner);
      }
    }

    /** Lines 134-148; `sent` stands for the socket's answer. The returned frame is
        what was written to the transmit buffer and offered to the socket. */
    method Send(v: Verdict, inner: Bytes, sent: int) returns (frame: Option<Bytes>)
      requires Valid() && v.To?
      modifies txBuf, stats, stats.backends
      ensures Valid() && (Abs(), frame) == Transmit(cfg, old(Abs()), v, inner, sent)
      ensures frame.Some? ==> frame.value <= txBuf[..]
    {
      var n := Encapsulate(EncapFor(cfg, v.view), inner);
      if n == 0 {
        stats.dropsParseError := stats.dropsParseError + 1;
        return None;
      }
      frame := Some(txBuf[..n]);
      if sent > 0 {
        stats.CountSent(v.id, sent);
      }
    }

    method Receive(buf: Bytes) returns (x: Extracted)
      requires Valid()
      modifies stats
      ensures Valid() && x == ExtractFlow(buf)
      ensures var s0 := Received(old(Abs()), buf);
              Abs() == if x.Truncated?
                       then s0.(stats := s0.stats.(dropsParseError := s0.stats.dropsParseError + 1)) else s0
    {
      stats.rxPackets := stats.rxPackets + 1;
      stats.rxBytes := stats.rxBytes + |buf|;
      x := ExtractFlow(buf);
      if x.Truncated? {
        stats.dropsParseError := stats.dropsParseError + 1;
      }
    }

    /** `handle_packet` on a received frame. */
    method HandlePacket(buf: Bytes, now: u64, sent: int) returns (v: Option<Verdict>, frame: Option<Bytes>)
      requires Valid()
      modifies ct, ct.buckets, ct.slab, stats, stats.backends, txBuf
      ensures Valid() && IsPow2(old(|ct.table.buckets|))
      ensures (Abs(), v, frame) == Handle(cfg, old(Abs()), buf, now, sent)
    {
      TableShape();
      if |buf| == 0 {
        return None, None;
      }
      var x := Receive(buf);
      if !x.Flow? || x.key.dstIp != cfg.vip {
        return None, None;
      }
      var verdict := RoutePacket(x.key, now);
      frame := None;
      if verdict.To? {
        frame := Send(verdict, InnerPacket(buf), sent);
      }
      v := Some(verdict);
    }

    /** The timer branch of `datapath_run`. */
    method OnTimer(now: u64)
      requires Valid()
      modifies ct, ct.buckets, ct.slab, stats, stats.backends
      ensures Valid() && old(ct.table.cursor < |ct.table.buckets|)
      ensures Abs() == Tick(cfg, old(Abs()), now).0
    {
      TableShape();
      var evicted := ct.ReapSlice(now, cfg.lim, cfg.bucketsPerTick);
      stats.FlowsEvicted(evicted);
      stats.evictions := stats.evictions + |evicted|;
    }
  }
}
