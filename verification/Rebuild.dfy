/** What a rebuild puts into a snapshot (src/backend/table_generator.c:78-97). */
module Rebuild {
  import opened Wrappers
  import opened MachineInts
  import opened Primes
  import opened MaglevSpec
  import opened MaglevTable
  import opened RoutingSnapshot
  import opened BackendPool

  /** The snapshot built when the routable list was read from `first` and the
      eligible list, under a second lock acquisition, from `second`. */
  function SnapshotFrom(first: Slots, second: Slots, m: u32, h1: NameHash, h2: NameHash, generation: u64): (s: Snapshot)
    requires m >= 2 && SignedIds(Views(Select(second, IsEligible)))
  {
    SnapshotSpec(Views(Select(first, IsRoutable)), Views(Select(second, IsEligible)), m, h1, h2, generation)
  }

  method CopyViews(bs: seq<Backend>) returns (r: seq<BackendView>)
    ensures r == Views(bs)
  {
    r := [];
    for i := 0 to |bs|
      invariant |r| == i && forall k :: 0 <= k < i ==> r[k] == View(bs[k])
    {
      r := r + [View(bs[i])];
    }
  }

  /** The two queries, with no mutation between them. */
  method ReadLists(bm: BackendManager) returns (routable: seq<BackendView>, eligible: seq<BackendView>)
    requires bm.Valid()
    ensures routable == Views(Select(bm.Slots(), IsRoutable))
    ensures eligible == Views(Select(bm.Slots(), IsEligible))
  {
    var r := bm.Snapshot(IsRoutable);
    var e := bm.Snapshot(IsEligible);
    routable := CopyViews(r);
    eligible := CopyViews(e);
  }

  /** The build part of `table_generator_rebuild_and_install`. */
  method Build(bm: BackendManager, m: u32, h1: NameHash, h2: NameHash, generation: u64)
    returns (s: Snapshot)
    requires bm.Valid() && IdsOk(bm.Slots(), bm.nextId) && bm.nextId <= 0x8000_0000 && IsPrime(m)
    ensures SignedIds(Views(Select(bm.Slots(), IsEligible)))
    ensures s == SnapshotFrom(bm.Slots(), bm.Slots(), m, h1, h2, generation)
  {
    SnapshotListsAgree(bm.Slots(), bm.nextId);
    var routable, eligible := ReadLists(bm);
    s := Create(routable, eligible, m, h1, h2, generation);
  }

  /** What the datapath relies on, for a snapshot built from one pool state:
      every slot of the table resolves in the snapshot; a live backend resolves
      iff it is routable; it holds a slot only if it is eligible. */
  lemma OneMutatorSnapshot(slots: Slots, nextId: nat, m: u32, h1: NameHash, h2: NameHash, generation: u64, b: Backend)
    requires IdsOk(slots, nextId) && nextId <= 0x8000_0000 && IsPrime(m) && Some(b) in slots
    ensures SignedIds(Views(Select(slots, IsEligible)))
    ensures var s := SnapshotFrom(slots, slots, m, h1, h2, generation);
            && |s.table| == m && TableResolves(s)
            && (Resolves(s.backends, b.id) <==> IsRoutable(b))
            && (!IsEligible(b) ==> b.id !in s.table)
  {
    SnapshotListsAgree(slots, nextId);
    LiveBackendListed(slots, nextId, b);
    var routable, eligible := Views(Select(slots, IsRoutable)), Views(Select(slots, IsEligible));
    NewFlowResolves(routable, eligible, m, h1, h2, generation);
    if !IsEligible(b) {
      NonCandidateHoldsNoSlot(routable, eligible, m, h1, h2, generation, b.id);
    }
  }

  /** With n candidates and m slots, a candidate holds a slot exactly when its rank by
      id is below m; so with n <= m every one does. */
  lemma HoldsSlotIff(bs: seq<BackendView>, m: u32, h1: NameHash, h2: NameHash, b: BackendView)
    requires IsPrime(m) && SignedIds(bs) && DistinctBackendIds(bs) && b in bs
    ensures b.id in TableSpec(bs, m, h1, h2) <==> RankById(bs, b) < m
    ensures |bs| <= m ==> RankById(bs, b) < m
  {
    TableShare(bs, m, h1, h2, b);
    if |bs| <= m {
      DivideAtLeastOne(m, |bs|);
    } else {
      DivModUnique(m, |bs|, 0, m);
    }
    var t := TableSpec(bs, m, h1, h2);
    var s := SlotsHolding(t, b.id);
    if s == {} {
      assert forall i :: 0 <= i < |t| ==> t[i] != b.id;
    } else {
      SomeSlot(t, b.id);
    }
  }

  lemma SomeSlot(t: seq<i32>, id: i32)
    requires SlotsHolding(t, id) != {}
    ensures id in t
  {
    var i :| i in SlotsHolding(t, id);
    assert t[i] == id;
  }

  lemma DivideAtLeastOne(m: nat, n: nat)
    requires 1 <= n <= m
    ensures m / n >= 1
  {
    var q := m / n;
    assert m == n * q + m % n;
    if q <= 0 {
      MulMono(n, q, 0);
    }
  }

  /** Whatever two lists a rebuild reads, its table resolves in its own snapshot
      exactly when every eligible id that holds a slot is among the routable ids. */
  lemma TableResolvesIff(routable: seq<BackendView>, eligible: seq<BackendView>, m: u32,
                         h1: NameHash, h2: NameHash, generation: u64)
    requires IsPrime(m) && SignedIds(eligible) && DistinctBackendIds(eligible)
    ensures TableResolves(SnapshotSpec(routable, eligible, m, h1, h2, generation)) <==>
            forall c :: c in eligible && RankById(eligible, c) < m ==> Resolves(routable, AsI32(c.id))
  {
    var s := SnapshotSpec(routable, eligible, m, h1, h2, generation);
    if TableResolves(s) {
      forall c | c in eligible && RankById(eligible, c) < m
        ensures Resolves(routable, AsI32(c.id))
      {
        HoldsSlotIff(eligible, m, h1, h2, c);
      }
    }
    if forall c :: c in eligible && RankById(eligible, c) < m ==> Resolves(routable, AsI32(c.id)) {
      forall v | v in s.table && v >= 0
        ensures Resolves(routable, v)
      {
        var i :| 0 <= i < |s.table| && s.table[i] == v;
        TableNamesCandidates(eligible, m, h1, h2, i);
        var c :| c in eligible && c.id == v;
        HoldsSlotIff(eligible, m, h1, h2, c);
      }
    }
  }

  /** A mutation between the two queries breaks it: a backend that turns healthy in
      between is given slots but is not in the list that resolves them. */
  lemma MutationBetweenQueriesBreaks(p: Pool, x: u32, m: u32, h1: NameHash, h2: NameHash, generation: u64)
    requires IdsOk(p.slots, p.nextId) && p.nextId <= 0x8000_0000 && IsPrime(m)
    requires Live(p.slots, x) && !BackendOf(p.slots, x).healthy
    requires IsEligible(BackendOf(p.slots, x).(healthy := true))
    requires RankById(Views(Select(Apply(p, SetHealth(x, true)).slots, IsEligible)), View(BackendOf(p.slots, x))) < m
    ensures var second := Apply(p, SetHealth(x, true)).slots;
            && SignedIds(Views(Select(second, IsEligible)))
            && !TableResolves(SnapshotFrom(p.slots, second, m, h1, h2, generation))
  {
    var b, q := BackendOf(p.slots, x), Apply(p, SetHealth(x, true));
    var routable, eligible := Views(Select(p.slots, IsRoutable)), Views(Select(q.slots, IsEligible));
    ApplyKeepsIds(p, SetHealth(x, true));
    ApplyKeepsLive(p, SetHealth(x, true), x);
    SnapshotListsAgree(q.slots, q.nextId);
    LiveBackendListed(p.slots, p.nextId, b);
    LiveBackendListed(q.slots, q.nextId, BackendOf(q.slots, x));
    var c :| c in eligible && c.id == x;
    assert RankById(eligible, c) == RankById(eligible, View(b));
    HoldsSlotIff(eligible, m, h1, h2, c);
    TableResolvesIff(routable, eligible, m, h1, h2, generation);
  }

  lemma RankOfLeast(bs: seq<BackendView>, b: BackendView)
    requires b.id == 0
    ensures RankById(bs, b) == 0
  {
    assert (set x | x in bs && x.id < b.id) == {};
  }

  /** A backend that has been added, resolved and found unhealthy. */
  function RecoveringPool(addr: u32, port: u16, mac: Mac): Pool {
    Apply(Apply(Added(Pool(seq(BACKEND_MAX, _ => None), 0), addr, port), SetMac(0, mac)), SetHealth(0, false))
  }

  /** Such a mutation, from the empty pool on: the backend recovers between the two
      queries of a rebuild. */
  lemma RecoveryBetweenQueriesBreaks(addr: u32, port: u16, mac: Mac, m: u32, h1: NameHash, h2: NameHash)
    requires IsPrime(m)
    ensures var p := RecoveringPool(addr, port, mac); var second := Apply(p, SetHealth(0, true)).slots;
            && SignedIds(Views(Select(second, IsEligible)))
            && !TableResolves(SnapshotFrom(p.slots, second, m, h1, h2, 1))
  {
    var p0 := Pool(seq(BACKEND_MAX, _ => None), 0);
    var p1 := Added(p0, addr, port);
    assert FreeSlotFrom(p0.slots, 0) == 0;
    assert p1.slots[0] == Some(NewBackend(0, addr, port));
    ApplyKeepsIds(p0, Add(addr, port));
    FoundAt(p1.slots, 1, 0, 0);
    var p2 := Apply(p1, SetMac(0, mac));
    ApplyKeepsIds(p1, SetMac(0, mac));
    ApplyKeepsLive(p1, SetMac(0, mac), 0);
    ApplyKeepsIds(p2, SetHealth(0, false));
    ApplyKeepsLive(p2, SetHealth(0, false), 0);
    RankOfLeast(Views(Select(Apply(RecoveringPool(addr, port, mac), SetHealth(0, true)).slots, IsEligible)),
                View(BackendOf(RecoveringPool(addr, port, mac).slots, 0)));
    MutationBetweenQueriesBreaks(RecoveringPool(addr, port, mac), 0, m, h1, h2, 1);
  }
}
