/** What a flow experiences over a whole run: stickiness, the sweep bound,
    draining, and the frames that leave. */
module DatapathRuns {
  import opened Wrappers
  import opened MachineInts
  import opened BitMask
  import opened MaglevTable
  import opened RoutingSnapshot
  import opened ConntrackSpec
  import opened ConntrackMap
  import opened Ipv4
  import opened Gre
  import opened Flow
  import opened DatapathSpec
  import opened DatapathCounts
  import opened Primes
  import opened BackendPool
  import opened Rebuild

  // ------------------------------------------------------------ one event, one pin

  predicate IsFor(cfg: Config, e: Event, k: FlowKey) {
    e.Packet? && KeyOf(cfg, e.buf) == Some(k)
  }

  /** What routing a pinned flow decides. */
  function PinnedVerdict(snap: Option<Snapshot>, id: i32): (v: Verdict) {
    if snap.None? then NoBackend else
      var view := FirstWithId(snap.value.backends, id);
      if view.None? then Unhealthy else To(id, view.value)
  }

  lemma RoutePin(cfg: Config, s: State, key: FlowKey, now: u64)
    requires Ready(cfg, s)
    ensures var (s', v) := Route(cfg, s, key, now);
            var f := Find(s.ct, cfg.hash, key);
            && |s'.ct.buckets| == |s.ct.buckets| && s'.ct.cursor == s.ct.cursor && IsPow2(|s'.ct.buckets|)
            && (f.Some? ==>
                  && Find(s'.ct, cfg.hash, key) == Some(f.value.(lastSeen := now))
                  && v == PinnedVerdict(s.snap, f.value.backend))
            && (forall k :: k != key ==> Find(s'.ct, cfg.hash, k) == Find(s.ct, cfg.hash, k))
  {
    LookupEffect(s.ct, cfg.hash, key, now);
    if Find(s.ct, cfg.hash, key).None? && s.snap.Some? {
      InsertEffect(s.ct, cfg.hash, key, LookupSlot(s.snap.value.table, cfg.hash, key), now);
    }
  }

  /** The packet handler, on the table: routing if the frame is for the VIP. */
  lemma HandleTable(cfg: Config, s: State, buf: Bytes, now: u64, sent: int)
    requires Ready(cfg, s)
    ensures Ready(cfg, Received(s, buf))
    ensures var (s', v, _) := Handle(cfg, s, buf, now, sent);
            if KeyOf(cfg, buf).None? then s'.ct == s.ct && v == None
            else var r := Route(cfg, Received(s, buf), KeyOf(cfg, buf).value, now); s'.ct == r.0.ct && v == Some(r.1)
  {
  }

  /** The pin of flow k across one event. */
  ghost function PinAfter(cfg: Config, s: State, e: Event, k: FlowKey): (f: Option<Rec>)
    requires Ready(cfg, s) && EventOk(e)
  {
    Find(Step(cfg, s, e).0.ct, cfg.hash, k)
  }

  lemma PacketKeepsPin(cfg: Config, s: State, e: Event, k: FlowKey)
    requires Ready(cfg, s) && e.Packet?
    ensures var f := Find(s.ct, cfg.hash, k);
            && |Step(cfg, s, e).0.ct.buckets| == |s.ct.buckets| && Step(cfg, s, e).0.ct.cursor == s.ct.cursor
            && (!IsFor(cfg, e, k) ==> PinAfter(cfg, s, e, k) == f)
            && (IsFor(cfg, e, k) && f.Some? ==>
                  && PinAfter(cfg, s, e, k) == Some(f.value.(lastSeen := e.now))
                  && Handle(cfg, s, e.buf, e.now, e.sent).1 == Some(PinnedVerdict(s.snap, f.value.backend)))
  {
    HandleTable(cfg, s, e.buf, e.now, e.sent);
    if KeyOf(cfg, e.buf).Some? {
      RoutePin(cfg, Received(s, e.buf), KeyOf(cfg, e.buf).value, e.now);
    }
  }

  lemma TickEffect(cfg: Config, s: State, e: Event, k: FlowKey)
    requires Ready(cfg, s) && e.TimerFired?
    ensures var f, n := Find(s.ct, cfg.hash, k), |s.ct.buckets|;
            var scan := if cfg.bucketsPerTick > n then n else cfg.bucketsPerTick;
            && |Step(cfg, s, e).0.ct.buckets| == n && Step(cfg, s, e).0.ct.cursor == (s.ct.cursor + scan) % n
            && PinAfter(cfg, s, e, k) ==
               if Visited(s.ct, cfg.hash, k, scan) && f.Some? && Expired(f.value, e.now, cfg.lim) then None else f
  {
    var n := |s.ct.buckets|;
    SweepRefines(s.ct, cfg.hash, e.now, cfg.lim, if cfg.bucketsPerTick > n then n else cfg.bucketsPerTick);
  }

  // ------------------------------------------------------------ a flow's timeline

  /** What an event is to flow k. */
  datatype Mark = Mine(t: u64) | Other(t: u64) | Sweep(t: u64) | Untimed

  function MarkOf(cfg: Config, e: Event, k: FlowKey): (m: Mark) {
    match e
    case Packet(_, now, _) => if IsFor(cfg, e, k) then Mine(now) else Other(now)
    case TimerFired(now) => Sweep(now)
    case Install(_) => Untimed
  }

  function Marks(cfg: Config, es: seq<Event>, k: FlowKey): (ms: seq<Mark>)
    ensures |ms| == |es| && forall i :: 0 <= i < |es| ==> ms[i] == MarkOf(cfg, es[i], k)
  {
    seq(|es|, i requires 0 <= i < |es| => MarkOf(cfg, es[i], k))
  }

  /** Event i is not before t0, and event j not before event i. */
  predicate NotBefore(ms: seq<Mark>, t0: u64, i: nat, j: nat)
    requires i <= j < |ms|
  {
    !ms[j].Untimed? ==> t0 <= ms[j].t && (!ms[i].Untimed? ==> ms[i].t <= ms[j].t)
  }

  /** The clock never runs backwards, and starts at or after t0. */
  ghost predicate Monotone(ms: seq<Mark>, t0: u64) {
    forall i: nat, j: nat :: i <= j < |ms| ==> NotBefore(ms, t0, i, j)
  }

  /** When the flow was last seen before event i. */
  function LastSeen(ms: seq<Mark>, t0: u64, i: nat): (t: u64)
    requires i <= |ms|
  {
    if i == 0 then t0 else if ms[i - 1].Mine? then ms[i - 1].t else LastSeen(ms, t0, i - 1)
  }

  /** If event i is a packet of the flow, it comes within the timeout of the last one. */
  predicate GapAt(ms: seq<Mark>, t0: u64, i: nat, timeout: u64)
    requires i < |ms|
  {
    ms[i].Mine? ==> ms[i].t - LastSeen(ms, t0, i) <= timeout
  }

  /** Before event j, no packet of the flow comes later than its timeout allows. */
  ghost predicate GapsWithin(ms: seq<Mark>, t0: u64, j: nat, timeout: u64)
    requires j <= |ms|
  {
    forall i: nat :: i < j ==> GapAt(ms, t0, i, timeout)
  }

  lemma {:induction false} LastSeenBefore(ms: seq<Mark>, t0: u64, i: nat)
    requires Monotone(ms, t0) && i < |ms| && !ms[i].Untimed?
    ensures LastSeen(ms, t0, i) <= ms[i].t
  {
    LastSeenUpTo(ms, t0, i, i);
  }

  lemma {:induction false} LastSeenUpTo(ms: seq<Mark>, t0: u64, i: nat, j: nat)
    requires Monotone(ms, t0) && i <= j < |ms| && !ms[j].Untimed?
    ensures LastSeen(ms, t0, i) <= ms[j].t
  {
    assert NotBefore(ms, t0, j, j);
    if i > 0 {
      assert NotBefore(ms, t0, i - 1, j);
      if !ms[i - 1].Mine? {
        LastSeenUpTo(ms, t0, i - 1, j);
      }
    }
  }

  /** The next packet of the flow at or after i, given that event j is one. */
  lemma {:induction false} NextPacket(ms: seq<Mark>, t0: u64, i: nat, j: nat) returns (n: nat)
    requires i <= j < |ms| && ms[j].Mine?
    ensures i <= n <= j && ms[n].Mine?
    ensures LastSeen(ms, t0, n) == LastSeen(ms, t0, i)
    decreases j - i
  {
    if ms[i].Mine? {
      n := i;
    } else {
      n := NextPacket(ms, t0, i + 1, j);
    }
  }

  /** A sweep between two packets within the timeout is within the timeout. */
  lemma SweepWithinTimeout(ms: seq<Mark>, t0: u64, i: nat, j: nat, timeout: u64)
    requires Monotone(ms, t0) && i < j < |ms| && ms[i].Sweep? && ms[j].Mine? && GapsWithin(ms, t0, j + 1, timeout)
    ensures 0 <= ms[i].t - LastSeen(ms, t0, i) <= timeout
  {
    var n := NextPacket(ms, t0, i, j);
    LastSeenBefore(ms, t0, i);
    assert GapAt(ms, t0, n, timeout);
    assert NotBefore(ms, t0, i, n);
  }

  // ------------------------------------------------------------ stickiness

  lemma StickyStep(cfg: Config, s: State, e: Event, k: FlowKey, rec: Rec)
    requires Ready(cfg, s) && EventOk(e) && Find(s.ct, cfg.hash, k) == Some(rec)
    requires e.TimerFired? ==> !Expired(rec, e.now, cfg.lim)
    ensures Find(Step(cfg, s, e).0.ct, cfg.hash, k) == Some(if IsFor(cfg, e, k) then rec.(lastSeen := e.now) else rec)
  {
    match e
    case Packet(_, _, _) => PacketKeepsPin(cfg, s, e, k);
    case TimerFired(_) => TickEffect(cfg, s, e, k);
    case Install(_) =>
  }

  lemma WithinNotExpired(rec: Rec, now: u64, lim: Timeouts)
    requires 0 <= now - rec.lastSeen <= TimeoutOf(rec.key, lim)
    ensures !Expired(rec, now, lim)
  {
    SmallMod(now - rec.lastSeen, TWO64);
  }

  /** While its gaps stay within the timeout, a pinned flow keeps its pin up to
      each of its packets. */
  lemma {:induction false} StickyPin(cfg: Config, r: Run, ms: seq<Mark>, pin: Rec, i: nat, j: nat)
    requires IsRun(cfg, r) && ms == Marks(cfg, r.events, pin.key) && Monotone(ms, pin.lastSeen)
    requires Find(r.states[0].ct, cfg.hash, pin.key) == Some(pin)
    requires i <= j < |ms| && ms[j].Mine? && GapsWithin(ms, pin.lastSeen, j + 1, TimeoutOf(pin.key, cfg.lim))
    ensures Ready(cfg, r.states[i])
    ensures Find(r.states[i].ct, cfg.hash, pin.key) == Some(pin.(lastSeen := LastSeen(ms, pin.lastSeen, i)))
  {
    if i > 0 {
      StickyPin(cfg, r, ms, pin, i - 1, j);
      var rec := pin.(lastSeen := LastSeen(ms, pin.lastSeen, i - 1));
      if ms[i - 1].Sweep? {
        SweepWithinTimeout(ms, pin.lastSeen, i - 1, j, TimeoutOf(pin.key, cfg.lim));
        WithinNotExpired(rec, ms[i - 1].t, cfg.lim);
      }
      StickyNext(cfg, r, rec, i - 1, ms[i - 1]);
    }
  }

  lemma StickyNext(cfg: Config, r: Run, rec: Rec, i: nat, m: Mark)
    requires IsRun(cfg, r) && i < |r.events| && m == MarkOf(cfg, r.events[i], rec.key)
    requires Ready(cfg, r.states[i]) && Find(r.states[i].ct, cfg.hash, rec.key) == Some(rec)
    requires m.Sweep? ==> !Expired(rec, m.t, cfg.lim)
    ensures Ready(cfg, r.states[i + 1])
    ensures Find(r.states[i + 1].ct, cfg.hash, rec.key) == Some(if m.Mine? then rec.(lastSeen := m.t) else rec)
  {
    assert StepAt(cfg, r, i);
    StickyStep(cfg, r.states[i], r.events[i], rec.key, rec);
  }

  /** Stickiness: every packet of the flow that is forwarded goes to the pinned
      backend; the only other outcome is a drop while that backend is unroutable. */
  lemma StickyVerdict(cfg: Config, r: Run, pin: Rec, j: nat)
    requires IsRun(cfg, r) && Find(r.states[0].ct, cfg.hash, pin.key) == Some(pin)
    requires j < |r.events| && IsFor(cfg, r.events[j], pin.key)
    requires Monotone(Marks(cfg, r.events, pin.key), pin.lastSeen)
    requires GapsWithin(Marks(cfg, r.events, pin.key), pin.lastSeen, j + 1, TimeoutOf(pin.key, cfg.lim))
    ensures Ready(cfg, r.states[j]) && r.events[j].Packet?
    ensures var e := r.events[j];
            Handle(cfg, r.states[j], e.buf, e.now, e.sent).1 == Some(PinnedVerdict(r.states[j].snap, pin.backend))
  {
    StickyPin(cfg, r, Marks(cfg, r.events, pin.key), pin, j, j);
    PacketKeepsPin(cfg, r.states[j], r.events[j], pin.key);
  }

  // ------------------------------------------------------------ the sweep bound

  function Ticks(ms: seq<Mark>, lo: nat, hi: nat): (n: nat)
    requires lo <= hi <= |ms|
  {
    if lo == hi then 0 else Ticks(ms, lo, hi - 1) + if ms[hi - 1].Sweep? then 1 else 0
  }

  /** How far the sweep cursor travels, in buckets. */
  function Travel(ms: seq<Mark>, lo: nat, hi: nat, step: nat): (n: nat)
    requires lo <= hi <= |ms|
  {
    if lo == hi then 0 else Travel(ms, lo, hi - 1, step) + if ms[hi - 1].Sweep? then step else 0
  }

  lemma {:induction false} TravelIsTicks(ms: seq<Mark>, lo: nat, hi: nat, step: nat)
    requires lo <= hi <= |ms|
    ensures Travel(ms, lo, hi, step) == step * Ticks(ms, lo, hi)
  {
    if lo < hi {
      TravelIsTicks(ms, lo, hi - 1, step);
      var t := Ticks(ms, lo, hi - 1);
      assert step * (t + 1) == step * t + step;
    }
  }

  lemma CursorApproaches(cursor: nat, b: nat, n: nat, step: nat)
    requires cursor < n && b < n && step <= Distance(cursor, b, n)
    ensures Distance((cursor + step) % n, b, n) == Distance(cursor, b, n) - step
  {
    if cursor + step < n {
      DivModUnique(cursor + step, n, 0, cursor + step);
    } else {
      DivModUnique(cursor + step, n, 1, cursor + step - n);
    }
  }

  predicate SilentAt(ms: seq<Mark>, i: nat, t: u64)
    requires i < |ms|
  {
    !ms[i].Mine? && (ms[i].Sweep? ==> t <= ms[i].t)
  }

  /** The flow is silent from lo to hi, and every sweep there is at or after t. */
  ghost predicate Silent(ms: seq<Mark>, lo: nat, hi: nat, t: u64)
    requires lo <= hi <= |ms|
  {
    forall i: nat :: lo <= i < hi ==> SilentAt(ms, i, t)
  }

  lemma StaysExpired(rec: Rec, t: u64, now: u64, lim: Timeouts)
    requires rec.lastSeen <= t <= now && Expired(rec, t, lim)
    ensures Expired(rec, now, lim)
  {
    SmallMod(t - rec.lastSeen, TWO64);
    SmallMod(now - rec.lastSeen, TWO64);
  }

  /** How far the cursor is from flow k's bucket. */
  function Ahead(cfg: Config, s: State, k: FlowKey): (d: nat)
    requires IsPow2(|s.ct.buckets|) && s.ct.cursor < |s.ct.buckets|
  {
    Distance(s.ct.cursor, BucketOf(cfg.hash, k, |s.ct.buckets|), |s.ct.buckets|)
  }

  /** One silent event: an expired pin disappears, or the cursor is one slice closer. */
  lemma SilentStep(cfg: Config, s: State, e: Event, k: FlowKey, rec: Rec, t: u64)
    requires Ready(cfg, s) && EventOk(e) && !IsFor(cfg, e, k) && (e.TimerFired? ==> t <= e.now)
    requires rec.lastSeen <= t && Expired(rec, t, cfg.lim) && cfg.bucketsPerTick <= |s.ct.buckets|
    ensures var s' := Step(cfg, s, e).0;
            && |s'.ct.buckets| == |s.ct.buckets|
            && (Find(s.ct, cfg.hash, k).None? ==> Find(s'.ct, cfg.hash, k).None?)
            && (Find(s.ct, cfg.hash, k) == Some(rec) && Find(s'.ct, cfg.hash, k).Some? ==>
                  && Find(s'.ct, cfg.hash, k) == Some(rec)
                  && Ahead(cfg, s', k) == Ahead(cfg, s, k) - if e.TimerFired? then cfg.bucketsPerTick else 0)
  {
    match e
    case Packet(_, _, _) => PacketKeepsPin(cfg, s, e, k);
    case TimerFired(now) =>
      TickEffect(cfg, s, e, k);
      StaysExpired(rec, t, now, cfg.lim);
      if cfg.bucketsPerTick <= Ahead(cfg, s, k) {
        CursorApproaches(s.ct.cursor, BucketOf(cfg.hash, k, |s.ct.buckets|), |s.ct.buckets|, cfg.bucketsPerTick);
      }
    case Install(_) =>
  }

  lemma {:induction false} SilentRun(cfg: Config, r: Run, ms: seq<Mark>, rec: Rec, t: u64, lo: nat, hi: nat)
    requires IsRun(cfg, r) && ms == Marks(cfg, r.events, rec.key) && lo <= hi <= |ms| && Silent(ms, lo, hi, t)
    requires Ready(cfg, r.states[lo]) && Find(r.states[lo].ct, cfg.hash, rec.key) == Some(rec)
    requires rec.lastSeen <= t && Expired(rec, t, cfg.lim) && cfg.bucketsPerTick <= |r.states[lo].ct.buckets|
    ensures Ready(cfg, r.states[hi]) && |r.states[hi].ct.buckets| == |r.states[lo].ct.buckets|
    ensures Find(r.states[hi].ct, cfg.hash, rec.key).Some? ==>
              && Find(r.states[hi].ct, cfg.hash, rec.key) == Some(rec)
              && Travel(ms, lo, hi, cfg.bucketsPerTick)
                 == Ahead(cfg, r.states[lo], rec.key) - Ahead(cfg, r.states[hi], rec.key)
    decreases hi - lo
  {
    if lo < hi {
      SilentRun(cfg, r, ms, rec, t, lo, hi - 1);
      assert StepAt(cfg, r, hi - 1);
      assert SilentAt(ms, hi - 1, t) && ms[hi - 1] == MarkOf(cfg, r.events[hi - 1], rec.key);
      SilentStep(cfg, r.states[hi - 1], r.events[hi - 1], rec.key, rec, t);
    }
  }

  lemma SixtyTicksCover(n: nat, ticks: nat)
    requires n > 0 && ticks >= 60
    ensures (n / 60 + 1) * ticks >= n
    ensures n / 60 + 1 <= n
  {
    MulMono(n / 60 + 1, 60, ticks);
  }

  lemma SixtyTicksTravel(ms: seq<Mark>, lo: nat, hi: nat, n: nat)
    requires lo <= hi <= |ms| && n > 0 && Ticks(ms, lo, hi) >= 60
    ensures Travel(ms, lo, hi, n / 60 + 1) >= n && n / 60 + 1 <= n
  {
    SixtyTicksCover(n, Ticks(ms, lo, hi));
    TravelIsTicks(ms, lo, hi, n / 60 + 1);
  }

  /** An expired pin that is not refreshed is gone after 60 ticks, wherever the
      cursor stood. */
  lemma SweepBound(cfg: Config, r: Run, rec: Rec, t: u64, lo: nat, hi: nat)
    requires IsRun(cfg, r) && lo <= hi <= |r.events| && Silent(Marks(cfg, r.events, rec.key), lo, hi, t)
    requires Ready(cfg, r.states[lo]) && Find(r.states[lo].ct, cfg.hash, rec.key) == Some(rec)
    requires rec.lastSeen <= t && Expired(rec, t, cfg.lim)
    requires cfg.bucketsPerTick == |r.states[lo].ct.buckets| / 60 + 1
    requires Ticks(Marks(cfg, r.events, rec.key), lo, hi) >= 60
    ensures Ready(cfg, r.states[hi]) && Find(r.states[hi].ct, cfg.hash, rec.key).None?
  {
    var ms := Marks(cfg, r.events, rec.key);
    SixtyTicksTravel(ms, lo, hi, |r.states[lo].ct.buckets|);
    SilentRun(cfg, r, ms, rec, t, lo, hi);
  }

  // ------------------------------------------------------------ draining

  /** The snapshot of a backend that drains: routable, but without table slots. */
  ghost predicate Drains(snap: Option<Snapshot>, id: i32) {
    snap.Some? && id !in snap.value.table && Resolves(snap.value.backends, id)
  }

  function AssignedTo(s: State, id: i32): (n: nat) {
    if 0 <= id < |s.stats.backends| then s.stats.backends[id].flowsAssigned else 0
  }

  lemma {:induction false} ClosedAllAssignedTo(bs: seq<PerBackend>, ids: seq<i32>, id: i32)
    requires 0 <= id < |bs|
    ensures ClosedAll(bs, ids)[id].flowsAssigned == bs[id].flowsAssigned
  {
    if ids != [] {
      ClosedAllAssignedTo(bs, ids[..|ids| - 1], id);
    }
  }

  lemma RouteDrained(cfg: Config, s: State, key: FlowKey, now: u64, id: i32)
    requires Ready(cfg, s) && s.ct.capacity < TWO64 && Drains(s.snap, id)
    ensures var (s', v) := Route(cfg, s, key, now);
            && PinnedTo(s'.ct.buckets, id) == PinnedTo(s.ct.buckets, id)
            && AssignedTo(s', id) == AssignedTo(s, id)
            && (Find(s.ct, cfg.hash, key).Some? && Find(s.ct, cfg.hash, key).value.backend == id ==>
                  v.To? && v.id == id)
  {
    RouteCounts(cfg, s, key, now, id);
    RoutePin(cfg, s, key, now);
    var v := LookupSlot(s.snap.value.table, cfg.hash, key);
    assert v != id;
  }

  /** One event while id drains: it gains no flow, its pins never grow, and its
      pinned packets are never dropped as unhealthy. */
  lemma StepDrained(cfg: Config, s: State, e: Event, id: i32)
    requires Ready(cfg, s) && EventOk(e) && s.ct.capacity < TWO64 && Drains(s.snap, id)
    ensures var s' := Step(cfg, s, e).0;
            && s'.ct.capacity == s.ct.capacity
            && PinnedTo(s'.ct.buckets, id) <= PinnedTo(s.ct.buckets, id)
            && AssignedTo(s', id) == AssignedTo(s, id)
    ensures e.Packet? && KeyOf(cfg, e.buf).Some? ==>
              var f := Find(s.ct, cfg.hash, KeyOf(cfg, e.buf).value);
              var v := Handle(cfg, s, e.buf, e.now, e.sent).1;
              f.Some? && f.value.backend == id ==> v.Some? && v.value.To? && v.value.id == id
  {
    match e
    case Packet(buf, now, sent) =>
      HandleTable(cfg, s, buf, now, sent);
      if KeyOf(cfg, buf).Some? {
        RouteDrained(cfg, Received(s, buf), KeyOf(cfg, buf).value, now, id);
        RouteCounts(cfg, Received(s, buf), KeyOf(cfg, buf).value, now, id);
      }
    case TimerFired(now) =>
      ReapCounts(s.ct, cfg.hash, now, cfg.lim, cfg.bucketsPerTick, id);
      if 0 <= id < |s.stats.backends| {
        ClosedAllAssignedTo(s.stats.backends, Tick(cfg, s, now).1, id);
      }
    case Install(_) =>
  }

  /** A whole drain: while every snapshot drains id, its pinned flows only
      dwindle and it is assigned nothing. */
  lemma {:induction false} DrainRun(cfg: Config, r: Run, id: i32, i: nat, j: nat)
    requires IsRun(cfg, r) && i <= j <= |r.events| && r.states[i].ct.capacity < TWO64
    requires forall k :: i <= k <= j ==> Drains(r.states[k].snap, id)
    ensures PinnedTo(r.states[j].ct.buckets, id) <= PinnedTo(r.states[i].ct.buckets, id)
    ensures AssignedTo(r.states[j], id) == AssignedTo(r.states[i], id)
    ensures r.states[j].ct.capacity == r.states[i].ct.capacity
    decreases j - i
  {
    if i < j {
      DrainRun(cfg, r, id, i, j - 1);
      assert StepAt(cfg, r, j - 1);
      StepDrained(cfg, r.states[j - 1], r.events[j - 1], id);
    }
  }

  /** When the table resolves in its own snapshot, only a conntrack hit can be
      dropped as unhealthy. */
  lemma UnhealthyOnlyOnHit(cfg: Config, s: State, key: FlowKey, now: u64)
    requires Ready(cfg, s) && s.snap.Some? && TableResolves(s.snap.value)
    ensures var (s', v) := Route(cfg, s, key, now);
            && (v == Unhealthy ==> Find(s.ct, cfg.hash, key).Some?)
            && s'.stats.dropsBackendUnhealthy - s.stats.dropsBackendUnhealthy == (if v == Unhealthy then 1 else 0)
  {
    LookupEffect(s.ct, cfg.hash, key, now);
  }

  ghost predicate SnapResolves(s: State) {
    s.snap.Some? ==> TableResolves(s.snap.value)
  }

  lemma {:induction false} RunResolves(cfg: Config, r: Run, i: nat)
    requires IsRun(cfg, r) && i <= |r.events| && SnapResolves(r.states[0])
    requires forall k :: 0 <= k < |r.events| && r.events[k].Install? ==> TableResolves(r.events[k].snap)
    ensures SnapResolves(r.states[i])
  {
    if i > 0 {
      RunResolves(cfg, r, i - 1);
      assert StepAt(cfg, r, i - 1);
      SnapAfter(cfg, r.states[i - 1], r.events[i - 1]);
    }
  }

  /** Over a run whose installed tables resolve, every packet that is dropped as
      unhealthy belongs to a flow pinned before it arrived; a new flow never is. */
  lemma UnhealthyMeansPinned(cfg: Config, r: Run, i: nat)
    requires IsRun(cfg, r) && i < |r.events| && SnapResolves(r.states[0])
    requires forall k :: 0 <= k < |r.events| && r.events[k].Install? ==> TableResolves(r.events[k].snap)
    requires r.events[i].Packet? && KeyOf(cfg, r.events[i].buf).Some?
    ensures Ready(cfg, r.states[i])
    ensures var e := r.events[i];
            Handle(cfg, r.states[i], e.buf, e.now, e.sent).1 == Some(Unhealthy) ==>
              Find(r.states[i].ct, cfg.hash, KeyOf(cfg, e.buf).value).Some?
  {
    RunResolves(cfg, r, i);
    assert StepAt(cfg, r, i);
    var s, e := r.states[i], r.events[i];
    HandleTable(cfg, s, e.buf, e.now, e.sent);
    if s.snap.Some? {
      UnhealthyOnlyOnHit(cfg, Received(s, e.buf), KeyOf(cfg, e.buf).value, e.now);
    }
  }

  /** A rebuild by the single mutating thread gives snapshots whose slots resolve and
      stay within the ids handed out. */
  lemma PoolSnapshotServes(slots: Slots, nextId: nat, m: u32, h1: NameHash, h2: NameHash, generation: u64)
    requires IdsOk(slots, nextId) && nextId <= 0x8000_0000 && IsPrime(m)
    ensures SignedIds(Views(Select(slots, IsEligible)))
    ensures var s := SnapshotFrom(slots, slots, m, h1, h2, generation);
            EventOk(Install(s)) && TableResolves(s) && InstallInRange(Install(s), nextId)
  {
    SnapshotListsAgree(slots, nextId);
    var s := SnapshotFrom(slots, slots, m, h1, h2, generation);
    var eligible := Views(Select(slots, IsEligible));
    NewFlowResolves(Views(Select(slots, IsRoutable)), eligible, m, h1, h2, generation);
    forall v | v in s.table
      ensures v < nextId
    {
      var i: nat :| i < |s.table| && s.table[i] == v;
      TableNamesCandidates(eligible, m, h1, h2, i);
      if eligible != [] {
        var c :| c in eligible && c.id == v;
        var j :| 0 <= j < |eligible| && eligible[j] == c;
        assert Select(slots, IsEligible)[j] in Select(slots, IsEligible);
      }
    }
  }

  /** Such a snapshot drains a draining but healthy and resolved backend. */
  lemma PoolSnapshotDrains(slots: Slots, nextId: nat, m: u32, h1: NameHash, h2: NameHash, generation: u64, b: Backend)
    requires IdsOk(slots, nextId) && nextId <= 0x8000_0000 && IsPrime(m) && Some(b) in slots
    requires b.admin == Draining && b.healthy && b.macResolved
    ensures SignedIds(Views(Select(slots, IsEligible)))
    ensures Drains(Some(SnapshotFrom(slots, slots, m, h1, h2, generation)), b.id)
  {
    OneMutatorSnapshot(slots, nextId, m, h1, h2, generation, b);
  }

  // ------------------------------------------------------------ frames that leave

  /** Every frame handed to the socket decapsulates, at the backend the verdict
      names, to exactly the IP packet that was received. */
  lemma SentFrameDecapsulates(cfg: Config, s: State, buf: Bytes, now: u64, sent: int)
    requires Ready(cfg, s)
    ensures var (_, v, frame) := Handle(cfg, s, buf, now, sent);
            frame.Some? ==>
              && v.Some? && v.value.To? && KeyOf(cfg, buf).Some? && |frame.value| <= BUF_LEN
              && Decap(frame.value) == Some(Decapped(v.value.view.mac, cfg.ownMac, cfg.directorIp, v.value.view.addr,
                                                     InnerPacket(buf)))
  {
    var (_, v, frame) := Handle(cfg, s, buf, now, sent);
    if frame.Some? {
      DecapFits(EncapFor(cfg, v.value.view), InnerPacket(buf));
    }
  }
}
