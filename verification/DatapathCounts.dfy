/** Conservation: what the counters say about the connection table in every run. */
module DatapathCounts {
  import opened Wrappers
  import opened MachineInts
  import opened BitMask
  import opened RoutingSnapshot
  import opened ConntrackSpec
  import opened ConntrackMap
  import opened Ipv4
  import opened Flow
  import opened DatapathSpec

  // ------------------------------------------------------------ counting pins

  lemma {:induction false} TouchCount(chain: Chain, i: nat, now: u64, id: i32)
    requires i < |chain|
    ensures CountChain(chain[i := chain[i].(lastSeen := now)], id) == CountChain(chain, id)
  {
    var chain' := chain[i := chain[i].(lastSeen := now)];
    if i == 0 {
      assert chain'[1..] == chain[1..];
    } else {
      assert chain'[1..] == chain[1..][i - 1 := chain[1..][i - 1].(lastSeen := now)];
      TouchCount(chain[1..], i - 1, now, id);
    }
  }

  lemma LookupCounts(t: Table, hash: FlowHash, key: FlowKey, now: u64, id: i32)
    requires WellFormed(t, hash)
    ensures var t' := Lookup(t, hash, key, now).0;
            PinnedTo(t'.buckets, id) == PinnedTo(t.buckets, id) && Size(t'.buckets) == Size(t.buckets)
  {
    var b := BucketOf(hash, key, |t.buckets|);
    var chain := t.buckets[b];
    var i := KeyIndex(chain, key);
    if i < |chain| {
      var chain' := chain[i := chain[i].(lastSeen := now)];
      TouchCount(chain, i, now, id);
      TotalUpdate(t.buckets, Length, b, chain');
      TotalUpdate(t.buckets, c => CountChain(c, id), b, chain');
    }
  }

  lemma InsertCounts(t: Table, hash: FlowHash, key: FlowKey, backend: i32, now: u64, id: i32)
    requires WellFormed(t, hash)
    ensures var (t', ok) := Insert(t, hash, key, backend, now);
            PinnedTo(t'.buckets, id) == PinnedTo(t.buckets, id) + if ok && id == backend then 1 else 0
  {
    var b := BucketOf(hash, key, |t.buckets|);
    var chain, r := t.buckets[b], Rec(key, backend, now);
    assert ([r] + chain)[1..] == chain;
    TotalUpdate(t.buckets, c => CountChain(c, id), b, [r] + chain);
  }

  lemma {:induction false} CountBound(chain: Chain, id: i32)
    ensures CountChain(chain, id) <= |chain|
  {
    if chain != [] {
      CountBound(chain[1..], id);
    }
  }

  lemma {:induction false} PinnedBound(buckets: seq<Chain>, id: i32)
    ensures PinnedTo(buckets, id) <= Size(buckets)
  {
    if buckets != [] {
      PinnedBound(buckets[..|buckets| - 1], id);
      CountBound(buckets[|buckets| - 1], id);
    }
  }

  lemma {:induction false} EmptyTableChains(buckets: seq<Chain>, b: nat)
    requires Size(buckets) == 0 && b < |buckets|
    ensures buckets[b] == []
  {
    if b < |buckets| - 1 {
      EmptyTableChains(buckets[..|buckets| - 1], b);
    }
  }

  // ------------------------------------------------------------ per-backend counters

  ghost predicate Counts(bs: seq<PerBackend>, id: i32, pinned: nat, evicted: nat) {
    0 <= id < |bs| ==> bs[id].activeFlows == pinned && bs[id].flowsAssigned == pinned + evicted
  }

  lemma {:induction false} ClosedAllCounts(bs: seq<PerBackend>, ids: seq<i32>, id: i32, pinned: nat, evicted: nat)
    requires Counts(bs, id, pinned, evicted) && multiset(ids)[id] <= pinned
    ensures Counts(ClosedAll(bs, ids), id, pinned - multiset(ids)[id], evicted + multiset(ids)[id])
  {
    if ids != [] {
      var rest: seq<i32>, last: i32 := ids[..|ids| - 1], ids[|ids| - 1];
      assert ids == rest + [last];
      assert multiset(ids)[id] == multiset(rest)[id] + if last == id then 1 else 0;
      ClosedAllCounts(bs, rest, id, pinned, evicted);
    }
  }

  /** Flows ever assigned, over all registered backends. */
  function AssignedTotal(bs: seq<PerBackend>): (n: nat) {
    if bs == [] then 0 else AssignedTotal(bs[..|bs| - 1]) + bs[|bs| - 1].flowsAssigned
  }

  lemma {:induction false} AssignedUpdate(bs: seq<PerBackend>, i: nat, b: PerBackend)
    requires i < |bs|
    ensures AssignedTotal(bs[i := b]) == AssignedTotal(bs) - bs[i].flowsAssigned + b.flowsAssigned
  {
    var k := |bs| - 1;
    if i == k {
      assert bs[i := b][..k] == bs[..k];
    } else {
      assert bs[i := b][..k] == bs[..k][i := b];
      AssignedUpdate(bs[..k], i, b);
    }
  }

  lemma {:induction false} ClosedAllAssigned(bs: seq<PerBackend>, ids: seq<i32>)
    ensures AssignedTotal(ClosedAll(bs, ids)) == AssignedTotal(bs)
  {
    if ids != [] {
      var rest: seq<i32>, last: i32 := ids[..|ids| - 1], ids[|ids| - 1];
      ClosedAllAssigned(bs, rest);
      var c := ClosedAll(bs, rest);
      if 0 <= last < |c| {
        AssignedUpdate(c, last, c[last].(activeFlows := (c[last].activeFlows - 1) % TWO64));
      }
    }
  }

  // ------------------------------------------------------------ the invariant

  ghost predicate Account(s: State, ev: multiset<i32>, id: i32) {
    Counts(s.stats.backends, id, PinnedTo(s.ct.buckets, id), ev[id])
  }

  ghost predicate CountsAll(s: State, ev: multiset<i32>) {
    forall id: i32 :: Account(s, ev, id)
  }

  /** The global laws; `ev` is the multiset of evictions so far, `unlisted` the number
      of flows pinned so far to ids the per-backend counters have no room for. */
  ghost predicate Totals(s: State, ev: multiset<i32>, unlisted: nat) {
    && s.stats.evictions == |ev|
    && s.stats.misses == Size(s.ct.buckets) + |ev| + s.stats.dropsNoBackend + s.stats.dropsConntrackFull
    && (s.snap.None? ==> Size(s.ct.buckets) == 0)
    && AssignedTotal(s.stats.backends) + unlisted == Size(s.ct.buckets) + |ev|
  }

  /** The state agrees with the evictions so far and the unlisted flows so far. */
  ghost predicate Balanced(cfg: Config, s: State, ev: multiset<i32>, unlisted: nat) {
    && Ready(cfg, s) && |s.stats.backends| == cfg.maxBackends && s.ct.capacity < TWO64
    && CountsAll(s, ev) && Totals(s, ev, unlisted)
  }

  lemma OpenedCounts(bs: seq<PerBackend>, newFlows: nat, id: i32, pinned: nat, evicted: nat)
    requires Counts(bs, id, pinned, evicted) && pinned + 1 < TWO64
    ensures Counts(Opened(bs, newFlows), id, pinned + (if id == newFlows then 1 else 0), evicted)
  {
  }

  lemma OpenedAssigned(bs: seq<PerBackend>, id: nat)
    ensures AssignedTotal(Opened(bs, id)) == AssignedTotal(bs) + if id < |bs| then 1 else 0
  {
    if id < |bs| {
      AssignedUpdate(bs, id, Opened(bs, id)[id]);
    }
  }

  lemma RecordedKeeps(bs: seq<PerBackend>, id: nat, n: nat, x: i32, pinned: nat, evicted: nat)
    requires Counts(bs, x, pinned, evicted)
    ensures Counts(Recorded(bs, id, n), x, pinned, evicted)
    ensures AssignedTotal(Recorded(bs, id, n)) == AssignedTotal(bs)
  {
    if id < |bs| {
      AssignedUpdate(bs, id, Recorded(bs, id, n)[id]);
    }
  }

  /** Routing this key pins a new flow: it misses, the snapshot has a backend for it
      and the table has room. */
  ghost predicate OpensFlow(cfg: Config, s: State, key: FlowKey)
    requires Ready(cfg, s)
  {
    && Find(s.ct, cfg.hash, key).None? && s.snap.Some? && LookupSlot(s.snap.value.table, cfg.hash, key) >= 0
    && Size(s.ct.buckets) < s.ct.capacity
  }

  /** 1 when routing this key pins a flow to an id beyond the counters, else 0. */
  ghost function OpensUnlisted(cfg: Config, s: State, key: FlowKey): (n: nat)
    requires Ready(cfg, s)
  {
    if OpensFlow(cfg, s, key) && LookupSlot(s.snap.value.table, cfg.hash, key) >= cfg.maxBackends then 1 else 0
  }

  /** What routing does to the table and the counters, whichever branch it takes. */
  lemma RouteCounts(cfg: Config, s: State, key: FlowKey, now: u64, id: i32)
    requires Ready(cfg, s) && s.ct.capacity < TWO64
    ensures var s' := Route(cfg, s, key, now).0;
            var newFlows := Size(s'.ct.buckets) - Size(s.ct.buckets);
            && 0 <= newFlows <= 1
            && (newFlows == 1 <==> OpensFlow(cfg, s, key))
            && s'.ct.capacity == s.ct.capacity
            && (newFlows == 0 ==>
                  s'.stats.backends == s.stats.backends && PinnedTo(s'.ct.buckets, id) == PinnedTo(s.ct.buckets, id))
            && (newFlows == 1 ==>
                  && s.snap.Some?
                  && var v := LookupSlot(s.snap.value.table, cfg.hash, key);
                     && v >= 0 && s'.stats.backends == Opened(s.stats.backends, v)
                     && PinnedTo(s'.ct.buckets, id) == PinnedTo(s.ct.buckets, id) + if id == v then 1 else 0)
  {
    LookupEffect(s.ct, cfg.hash, key, now);
    LookupCounts(s.ct, cfg.hash, key, now, id);
    if Find(s.ct, cfg.hash, key).None? && s.snap.Some? {
      var v := LookupSlot(s.snap.value.table, cfg.hash, key);
      InsertEffect(s.ct, cfg.hash, key, v, now);
      InsertCounts(s.ct, cfg.hash, key, v, now, id);
    }
  }

  /** Each miss is opened, dropped for want of a backend, or dropped on a full table. */
  lemma RouteMisses(cfg: Config, s: State, key: FlowKey, now: u64)
    requires Ready(cfg, s) && (s.snap.None? ==> Size(s.ct.buckets) == 0)
    ensures var (s', _) := Route(cfg, s, key, now);
            && s'.stats.misses - s.stats.misses
               == (Size(s'.ct.buckets) - Size(s.ct.buckets))
                  + (s'.stats.dropsNoBackend - s.stats.dropsNoBackend)
                  + (s'.stats.dropsConntrackFull - s.stats.dropsConntrackFull)
            && s'.stats.evictions == s.stats.evictions
            && (s.snap.None? ==> Size(s'.ct.buckets) == 0)
  {
    LookupEffect(s.ct, cfg.hash, key, now);
    LookupCounts(s.ct, cfg.hash, key, now, 0);
    if s.snap.None? {
      EmptyTableChains(s.ct.buckets, BucketOf(cfg.hash, key, |s.ct.buckets|));
    } else if Find(s.ct, cfg.hash, key).None? {
      InsertEffect(s.ct, cfg.hash, key, LookupSlot(s.snap.value.table, cfg.hash, key), now);
    }
  }

  lemma RouteBalanced(cfg: Config, s: State, key: FlowKey, now: u64, ev: multiset<i32>, unlisted: nat)
    requires Balanced(cfg, s, ev, unlisted)
    ensures Ready(cfg, s)
    ensures Balanced(cfg, Route(cfg, s, key, now).0, ev, unlisted + OpensUnlisted(cfg, s, key))
  {
    var s' := Route(cfg, s, key, now).0;
    RouteReady(cfg, s, key, now);
    RouteMisses(cfg, s, key, now);
    RouteCounts(cfg, s, key, now, 0);
    forall id: i32
      ensures Account(s', ev, id)
    {
      RouteCounts(cfg, s, key, now, id);
      assert Account(s, ev, id);
      PinnedBound(s'.ct.buckets, id);
      if Size(s'.ct.buckets) > Size(s.ct.buckets) {
        PinnedBound(s.ct.buckets, id);
        OpenedCounts(s.stats.backends, LookupSlot(s.snap.value.table, cfg.hash, key), id,
                     PinnedTo(s.ct.buckets, id), ev[id]);
      }
    }
    if Size(s'.ct.buckets) > Size(s.ct.buckets) {
      OpenedAssigned(s.stats.backends, LookupSlot(s.snap.value.table, cfg.hash, key));
    }
  }

  lemma TransmitBalanced(cfg: Config, s: State, v: Verdict, inner: Bytes, sent: int, ev: multiset<i32>, unlisted: nat)
    requires Balanced(cfg, s, ev, unlisted)
    ensures Balanced(cfg, Transmit(cfg, s, v, inner, sent).0, ev, unlisted)
  {
    var s' := Transmit(cfg, s, v, inner, sent).0;
    if s'.stats.backends != s.stats.backends {
      forall id: i32
        ensures Account(s', ev, id)
      {
        assert Account(s, ev, id);
        RecordedKeeps(s.stats.backends, v.id, sent, id, PinnedTo(s.ct.buckets, id), ev[id]);
      }
      assert Counts(s.stats.backends, -1, 0, 0);
      RecordedKeeps(s.stats.backends, v.id, sent, -1, 0, 0);
    } else {
      OtherCounters(cfg, s, s', ev, unlisted);
    }
  }

  lemma TickBalanced(cfg: Config, s: State, now: u64, ev: multiset<i32>, unlisted: nat)
    requires Balanced(cfg, s, ev, unlisted)
    ensures Balanced(cfg, Tick(cfg, s, now).0, ev + multiset(Tick(cfg, s, now).1), unlisted)
  {
    var (s', out) := Tick(cfg, s, now);
    ReapCounts(s.ct, cfg.hash, now, cfg.lim, cfg.bucketsPerTick, 0);
    ClosedAllAssigned(s.stats.backends, out);
    forall id: i32
      ensures Account(s', ev + multiset(out), id)
    {
      assert Account(s, ev, id);
      ReapCounts(s.ct, cfg.hash, now, cfg.lim, cfg.bucketsPerTick, id);
      ClosedAllCounts(s.stats.backends, out, id, PinnedTo(s.ct.buckets, id), ev[id]);
    }
  }

  /** Counters outside the laws may move freely. */
  lemma OtherCounters(cfg: Config, s: State, s': State, ev: multiset<i32>, unlisted: nat)
    requires Balanced(cfg, s, ev, unlisted)
    requires s'.ct == s.ct && s'.snap == s.snap && s'.stats.backends == s.stats.backends
    requires s'.stats.misses == s.stats.misses && s'.stats.evictions == s.stats.evictions
    requires s'.stats.dropsNoBackend == s.stats.dropsNoBackend
    requires s'.stats.dropsConntrackFull == s.stats.dropsConntrackFull
    ensures Balanced(cfg, s', ev, unlisted)
  {
    assert forall id: i32 :: Account(s, ev, id) ==> Account(s', ev, id);
  }

  /** Receiving counts bytes and nothing else. */
  lemma ReceivedReady(cfg: Config, s: State, buf: Bytes, key: FlowKey)
    requires Ready(cfg, s)
    ensures Ready(cfg, Received(s, buf)) && OpensUnlisted(cfg, Received(s, buf), key) == OpensUnlisted(cfg, s, key)
  {
  }

  lemma HandleBalanced(cfg: Config, s: State, buf: Bytes, now: u64, sent: int, ev: multiset<i32>, unlisted: nat)
    requires Balanced(cfg, s, ev, unlisted)
    ensures Ready(cfg, s)
    ensures Balanced(cfg, Handle(cfg, s, buf, now, sent).0, ev,
                  unlisted + if KeyOf(cfg, buf).Some? then OpensUnlisted(cfg, s, KeyOf(cfg, buf).value) else 0)
  {
    var s0 := Received(s, buf);
    OtherCounters(cfg, s, s0, ev, unlisted);
    if KeyOf(cfg, buf).Some? {
      var key := KeyOf(cfg, buf).value;
      ReceivedReady(cfg, s, buf, key);
      RouteBalanced(cfg, s0, key, now, ev, unlisted);
      var (s1, v) := Route(cfg, s0, key, now);
      TransmitBalanced(cfg, s1, v, InnerPacket(buf), sent, ev, unlisted + OpensUnlisted(cfg, s, key));
    } else {
      OtherCounters(cfg, s, Handle(cfg, s, buf, now, sent).0, ev, unlisted);
    }
  }

  ghost function StepUnlisted(cfg: Config, s: State, e: Event): (n: nat)
    requires Ready(cfg, s)
  {
    if e.Packet? && KeyOf(cfg, e.buf).Some? then OpensUnlisted(cfg, s, KeyOf(cfg, e.buf).value) else 0
  }

  lemma StepBalanced(cfg: Config, s: State, e: Event, ev: multiset<i32>, unlisted: nat)
    requires Balanced(cfg, s, ev, unlisted) && EventOk(e)
    ensures Ready(cfg, s)
    ensures Balanced(cfg, Step(cfg, s, e).0, ev + multiset(Step(cfg, s, e).1), unlisted + StepUnlisted(cfg, s, e))
  {
    assert ev + multiset([]) == ev;
    match e
    case Packet(buf, now, sent) => HandleBalanced(cfg, s, buf, now, sent, ev, unlisted);
    case TimerFired(now) => TickBalanced(cfg, s, now, ev, unlisted);
    case Install(snap) => assert forall id: i32 :: Account(s, ev, id) ==> Account(Step(cfg, s, e).0, ev, id);
  }

  lemma InitialBalanced(cfg: Config, buckets: nat, capacity: nat)
    requires IsPow2(buckets) && capacity < TWO64
    ensures Balanced(cfg, InitialState(buckets, capacity, cfg.maxBackends), multiset{}, 0)
  {
    var s := InitialState(buckets, capacity, cfg.maxBackends);
    TotalEmpty(buckets, Length);
    forall id: i32
      ensures Account(s, multiset{}, id)
    {
      TotalEmpty(buckets, c => CountChain(c, id));
    }
    NothingAssigned(cfg.maxBackends);
  }

  lemma {:induction false} NothingAssigned(n: nat)
    ensures AssignedTotal(seq(n, _ => PerBackend(0, 0, 0, 0))) == 0
  {
    var s := seq(n, _ => PerBackend(0, 0, 0, 0));
    if n > 0 {
      assert s[..n - 1] == seq(n - 1, _ => PerBackend(0, 0, 0, 0));
      NothingAssigned(n - 1);
    }
  }

  /** How many of the first i steps of a run pin a flow to an unlisted id. */
  ghost function UnlistedFlows(cfg: Config, r: Run, i: nat): (n: nat)
    requires IsRun(cfg, r) && i <= |r.events|
  {
    if i == 0 then 0 else
      assert StepAt(cfg, r, i - 1);
      UnlistedFlows(cfg, r, i - 1) + StepUnlisted(cfg, r.states[i - 1], r.events[i - 1])
  }

  /** Every run from a balanced state keeps the books balanced. */
  lemma {:induction false} RunBalanced(cfg: Config, r: Run, i: nat)
    requires IsRun(cfg, r) && i <= |r.events|
    requires Balanced(cfg, r.states[0], multiset{}, 0)
    ensures Balanced(cfg, r.states[i], r.evicted[i], UnlistedFlows(cfg, r, i))
  {
    if i > 0 {
      RunBalanced(cfg, r, i - 1);
      assert StepAt(cfg, r, i - 1);
      StepBalanced(cfg, r.states[i - 1], r.events[i - 1], r.evicted[i - 1], UnlistedFlows(cfg, r, i - 1));
    }
  }

  /** The laws a reader of the counters may rely on, at every point of every run
      from start-up. The per-backend laws always hold; the total of flows_assigned
      accounts for every miss exactly when no flow was pinned to an unlisted id. */
  lemma ConservationLaws(cfg: Config, buckets: nat, capacity: nat, r: Run, i: nat, id: i32)
    requires IsPow2(buckets) && capacity < TWO64 && 0 <= id < cfg.maxBackends
    requires IsRun(cfg, r) && r.states[0] == InitialState(buckets, capacity, cfg.maxBackends) && i <= |r.events|
    ensures var s, ev := r.states[i], r.evicted[i];
            && |s.stats.backends| == cfg.maxBackends
            && s.stats.backends[id].activeFlows == PinnedTo(s.ct.buckets, id)
            && s.stats.backends[id].flowsAssigned == s.stats.backends[id].activeFlows + ev[id]
            && s.stats.evictions == |ev|
            && (s.stats.misses == AssignedTotal(s.stats.backends) + s.stats.dropsNoBackend + s.stats.dropsConntrackFull
                <==> UnlistedFlows(cfg, r, i) == 0)
  {
    InitialBalanced(cfg, buckets, capacity);
    RunBalanced(cfg, r, i);
    assert Account(r.states[i], r.evicted[i], id);
  }

  /** Table ids are ids the counters were sized for. */
  ghost predicate InstallInRange(e: Event, n: nat) {
    e.Install? ==> forall v :: v in e.snap.table ==> v < n
  }

  ghost predicate SnapInRange(s: State, n: nat) {
    s.snap.Some? ==> forall v :: v in s.snap.value.table ==> v < n
  }

  /** While every installed table names listed ids only, no flow is unlisted. */
  lemma {:induction false} ListedRun(cfg: Config, r: Run, i: nat)
    requires IsRun(cfg, r) && i <= |r.events| && SnapInRange(r.states[0], cfg.maxBackends)
    requires forall k :: 0 <= k < |r.events| ==> InstallInRange(r.events[k], cfg.maxBackends)
    ensures SnapInRange(r.states[i], cfg.maxBackends) && UnlistedFlows(cfg, r, i) == 0
  {
    if i > 0 {
      ListedRun(cfg, r, i - 1);
      assert StepAt(cfg, r, i - 1);
      SnapAfter(cfg, r.states[i - 1], r.events[i - 1]);
    }
  }

  /** Only an installation changes the snapshot. */
  lemma SnapAfter(cfg: Config, s: State, e: Event)
    requires Ready(cfg, s) && EventOk(e)
    ensures Step(cfg, s, e).0.snap == if e.Install? then Some(e.snap) else s.snap
  {
    if e.Packet? && KeyOf(cfg, e.buf).Some? {
      var s0 := Received(s, e.buf);
      RouteReady(cfg, s0, KeyOf(cfg, e.buf).value, e.now);
    }
  }
}
