/** `routing_snapshot_create`, `routing_snapshot_find_backend` and
    `maglev_table_lookup` (src/maglev/maglev_table.c). */
module RoutingSnapshot {
  import opened Wrappers
  import opened MachineInts
  import opened Primes
  import opened MaglevTable

  /** A flow's 5-tuple. */
  datatype FlowKey = FlowKey(srcIp: u32, dstIp: u32, srcPort: u16, dstPort: u16, proto: u8)

  type FlowHash = FlowKey -> u64

  datatype Snapshot = Snapshot(table: seq<i32>, backends: seq<BackendView>, generation: u64)

  /** (int32_t)id */
  function AsI32(id: u32): (r: i32)
    ensures id < 0x8000_0000 <==> r >= 0
    ensures id < 0x8000_0000 ==> r == id
  {
    if id < 0x8000_0000 then id else id - 0x1_0000_0000
  }

  predicate Resolves(backends: seq<BackendView>, id: i32) {
    exists i :: 0 <= i < |backends| && AsI32(backends[i].id) == id
  }

  function FirstWithId(backends: seq<BackendView>, id: i32): (r: Option<BackendView>)
    ensures r.Some? <==> Resolves(backends, id)
    ensures r.Some? ==> r.value in backends && AsI32(r.value.id) == id
  {
    if backends == [] then None
    else if AsI32(backends[0].id) == id then Some(backends[0])
    else
      assert backends == [backends[0]] + backends[1..];
      FirstWithId(backends[1..], id)
  }

  /** `routing_snapshot_find_backend`. */
  method FindBackend(snap: Snapshot, id: i32) returns (r: Option<BackendView>)
    ensures r == FirstWithId(snap.backends, id)
  {
    for i := 0 to |snap.backends|
      invariant FirstWithId(snap.backends, id) == FirstWithId(snap.backends[i..], id)
    {
      if AsI32(snap.backends[i].id) == id {
        return Some(snap.backends[i]);
      }
      assert snap.backends[i..][1..] == snap.backends[i + 1..];
    }
    return None;
  }

  /** `maglev_table_lookup`. */
  function LookupSlot(table: seq<i32>, hash: FlowHash, key: FlowKey): (r: i32)
    requires |table| > 0
    ensures r in table
  {
    table[hash(key) % |table|]
  }

  ghost predicate IdSubset(candidates: seq<BackendView>, routable: seq<BackendView>) {
    forall c :: c in candidates ==> Resolves(routable, AsI32(c.id))
  }

  function SnapshotSpec(routable: seq<BackendView>, candidates: seq<BackendView>, m: u32,
                        h1: NameHash, h2: NameHash, generation: u64): (s: Snapshot)
    requires m >= 2 && SignedIds(candidates)
  {
    Snapshot(TableSpec(candidates, m, h1, h2), routable, generation)
  }

  /** `routing_snapshot_create`: the table comes from the candidates, the
      resolvable backends are a copy of the routable set. */
  method Create(routable: seq<BackendView>, candidates: seq<BackendView>, m: u32,
                h1: NameHash, h2: NameHash, generation: u64) returns (s: Snapshot)
    requires IsPrime(m) && SignedIds(candidates) && DistinctBackendIds(candidates)
    ensures s == SnapshotSpec(routable, candidates, m, h1, h2, generation)
  {
    var lookup;
    ghost var probes;
    lookup, probes := Generate(candidates, m, h1, h2);
    s := Snapshot(lookup[..], routable, generation);
  }

  /** Every slot value is either "no backend" or resolvable in the same snapshot. */
  ghost predicate TableResolves(s: Snapshot) {
    forall v :: v in s.table && v >= 0 ==> Resolves(s.backends, v)
  }

  /** When the candidates are routable, whatever the table returns for a new flow
      resolves in the same snapshot; it returns "no backend" only when there is
      no candidate. */
  lemma NewFlowResolves(routable: seq<BackendView>, candidates: seq<BackendView>, m: u32,
                        h1: NameHash, h2: NameHash, generation: u64)
    requires IsPrime(m) && SignedIds(candidates) && IdSubset(candidates, routable)
    ensures var s := SnapshotSpec(routable, candidates, m, h1, h2, generation);
            && |s.table| == m
            && TableResolves(s)
            && forall v :: v in s.table ==> (v < 0 <==> candidates == [])
  {
    var s := SnapshotSpec(routable, candidates, m, h1, h2, generation);
    TableNamesCandidates(candidates, m, h1, h2, 0);
    forall v | v in s.table
      ensures v < 0 <==> candidates == []
      ensures v >= 0 ==> Resolves(s.backends, v)
    {
      var i: nat :| i < |s.table| && s.table[i] == v;
      TableNamesCandidates(candidates, m, h1, h2, i);
    }
  }

  /** A backend outside the candidate set holds no slot. */
  lemma NonCandidateHoldsNoSlot(routable: seq<BackendView>, candidates: seq<BackendView>, m: u32,
                                h1: NameHash, h2: NameHash, generation: u64, id: i32)
    requires IsPrime(m) && SignedIds(candidates) && id >= 0
    requires forall c :: c in candidates ==> c.id != id
    ensures id !in SnapshotSpec(routable, candidates, m, h1, h2, generation).table
  {
    var t := SnapshotSpec(routable, candidates, m, h1, h2, generation).table;
    TableNamesCandidates(candidates, m, h1, h2, 0);
    forall i | 0 <= i < |t|
      ensures t[i] != id
    {
      TableNamesCandidates(candidates, m, h1, h2, i);
    }
  }
}
