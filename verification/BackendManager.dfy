/** The backend pool (src/backend/backend_manager.c): a value-level account of
    every operation, and the class that updates the arrays in place. */
module BackendPool {
  import opened Wrappers
  import opened MachineInts
  import opened MaglevTable
  import opened RoutingSnapshot

  const BACKEND_MAX: nat := 64

  datatype AdminState = Enabled | Draining | Disabled

  datatype Backend = Backend(id: u32, addr: u32, port: u16, mac: Mac,
                             macResolved: bool, healthy: bool, admin: AdminState)

  type Slots = seq<Option<Backend>>

  /** Live ids are distinct and were handed out before `nextId`. */
  ghost predicate IdsOk(slots: Slots, nextId: nat) {
    && (forall i :: 0 <= i < |slots| && slots[i].Some? ==> slots[i].value.id < nextId)
    && DistinctLive(slots)
  }

  ghost predicate DistinctLive(slots: Slots) {
    forall i, j :: 0 <= i < j < |slots| && slots[i].Some? && slots[j].Some? ==> slots[i].value.id != slots[j].value.id
  }

  /** The first used slot with this id, or |slots|. */
  function FindSlot(slots: Slots, id: u32): (k: nat)
    ensures k <= |slots|
    ensures k < |slots| ==> slots[k].Some? && slots[k].value.id == id
    ensures forall i :: 0 <= i < k ==> !(slots[i].Some? && slots[i].value.id == id)
  {
    FindSlotFrom(slots, id, 0)
  }

  function FindSlotFrom(slots: Slots, id: u32, from: nat): (k: nat)
    requires from <= |slots|
    ensures from <= k <= |slots|
    ensures k < |slots| ==> slots[k].Some? && slots[k].value.id == id
    ensures forall i :: from <= i < k ==> !(slots[i].Some? && slots[i].value.id == id)
    decreases |slots| - from
  {
    if from == |slots| || (slots[from].Some? && slots[from].value.id == id) then from
    else FindSlotFrom(slots, id, from + 1)
  }

  function FreeSlotFrom(slots: Slots, from: nat): (k: nat)
    requires from <= |slots|
    ensures from <= k <= |slots|
    ensures k < |slots| ==> slots[k].None?
    ensures forall i :: from <= i < k ==> slots[i].Some?
    decreases |slots| - from
  {
    if from == |slots| || slots[from].None? then from else FreeSlotFrom(slots, from + 1)
  }

  function NewBackend(id: u32, addr: u32, port: u16): Backend {
    Backend(id, addr, port, [0, 0, 0, 0, 0, 0], false, true, Enabled)
  }

  // ------------------------------------------------------------ operations on values

  datatype Pool = Pool(slots: Slots, nextId: u32)

  datatype PoolOp =
    | Add(addr: u32, port: u16)
    | Remove(id: u32)
    | SetHealth(id: u32, healthy: bool)
    | SetAdmin(id: u32, admin: AdminState)
    | SetMac(id: u32, mac: Mac)

  /** The first free slot takes the next id; the 32-bit id counter wraps. */
  function Added(p: Pool, addr: u32, port: u16): Pool {
    var k := FreeSlotFrom(p.slots, 0);
    if k == |p.slots| then p else
      Pool(p.slots[k := Some(NewBackend(p.nextId, addr, port))], if p.nextId == U32_MAX then 0 else p.nextId + 1)
  }

  /** The id `add` returns, UINT32_MAX for a full pool, and whether it notifies. */
  function AddResult(p: Pool): (r: (u32, bool)) {
    var id := if FreeSlotFrom(p.slots, 0) == |p.slots| then U32_MAX else p.nextId;
    (id, id != U32_MAX)
  }

  function Removed(slots: Slots, id: u32): Slots {
    var k := FindSlot(slots, id);
    if k < |slots| then slots[k := None] else slots
  }

  /** What an operation does to a backend that stays. */
  function Updated(b: Backend, op: PoolOp): Backend {
    match op
    case SetHealth(id, healthy) => if b.id == id then b.(healthy := healthy) else b
    case SetAdmin(id, admin) => if b.id == id then b.(admin := admin) else b
    case SetMac(id, mac) => if b.id == id then b.(mac := mac, macResolved := true) else b
    case _ => b
  }

  /** `set_health`, `set_admin_state` and `set_mac` on the slot that has the id. */
  function Stored(slots: Slots, id: u32, op: PoolOp): (r: Slots)
    ensures |r| == |slots|
  {
    var k := FindSlot(slots, id);
    if k < |slots| then slots[k := Some(Updated(slots[k].value, op))] else slots
  }

  function Apply(p: Pool, op: PoolOp): (q: Pool)
    ensures |q.slots| == |p.slots|
  {
    match op
    case Add(addr, port) => Added(p, addr, port)
    case Remove(id) => p.(slots := Removed(p.slots, id))
    case SetHealth(id, _) => p.(slots := Stored(p.slots, id, op))
    case SetAdmin(id, _) => p.(slots := Stored(p.slots, id, op))
    case SetMac(id, _) => p.(slots := Stored(p.slots, id, op))
  }

  predicate Live(slots: Slots, id: u32) {
    FindSlot(slots, id) < |slots|
  }

  function BackendOf(slots: Slots, id: u32): (b: Backend)
    requires Live(slots, id)
    ensures b.id == id && Some(b) in slots
  {
    slots[FindSlot(slots, id)].value
  }

  lemma FoundAt(slots: Slots, nextId: nat, x: u32, k: nat)
    requires IdsOk(slots, nextId) && k < |slots| && slots[k].Some? && slots[k].value.id == x
    ensures FindSlot(slots, x) == k
  {
    var j := FindSlot(slots, x);
    assert j <= k;
  }

  /** Ids stay distinct and below the counter until it wraps. */
  lemma ApplyKeepsIds(p: Pool, op: PoolOp)
    requires IdsOk(p.slots, p.nextId) && (op.Add? ==> p.nextId < U32_MAX)
    ensures IdsOk(Apply(p, op).slots, Apply(p, op).nextId) && p.nextId <= Apply(p, op).nextId
  {
  }

  /** A live id stays live unless it is removed, and only the fields an operation
      names change. */
  lemma ApplyKeepsLive(p: Pool, op: PoolOp, x: u32)
    requires IdsOk(p.slots, p.nextId) && (op.Add? ==> p.nextId < U32_MAX) && Live(p.slots, x) && op != Remove(x)
    ensures Live(Apply(p, op).slots, x) && BackendOf(Apply(p, op).slots, x) == Updated(BackendOf(p.slots, x), op)
  {
    var k, q := FindSlot(p.slots, x), Apply(p, op);
    ApplyKeepsIds(p, op);
    if op.Remove? && FindSlot(p.slots, op.id) < |p.slots| {
      assert FindSlot(p.slots, op.id) != k;
    }
    assert q.slots[k] == Some(Updated(p.slots[k].value, op));
    FoundAt(q.slots, q.nextId, x, k);
  }

  lemma RemovedNotLive(p: Pool, x: u32)
    requires IdsOk(p.slots, p.nextId)
    ensures !Live(Apply(p, Remove(x)).slots, x)
  {
    var q := Apply(p, Remove(x));
    if Live(p.slots, x) {
      var k := FindSlot(p.slots, x);
      assert forall i :: 0 <= i < |p.slots| && i != k && p.slots[i].Some? ==> p.slots[i].value.id != x;
    }
  }

  /** The last id before the counter wraps: `add` answers as for a full pool, yet the
      backend is in the pool, and the next addition takes id 0 again. */
  lemma LastIdLooksFull(p: Pool, addr: u32, port: u16)
    requires p.nextId == U32_MAX && FreeSlotFrom(p.slots, 0) < |p.slots|
    ensures AddResult(p) == (U32_MAX, false)
    ensures Live(Added(p, addr, port).slots, U32_MAX) && Added(p, addr, port).nextId == 0
  {
    var k, q := FreeSlotFrom(p.slots, 0), Added(p, addr, port);
    assert q.slots[k].Some? && q.slots[k].value.id == U32_MAX;
  }

  /** So ids stay distinct over an addition exactly when the counter has not wrapped
      onto one that is still in the pool. */
  lemma AddKeepsDistinctIff(p: Pool, addr: u32, port: u16)
    requires DistinctLive(p.slots) && FreeSlotFrom(p.slots, 0) < |p.slots|
    ensures DistinctLive(Added(p, addr, port).slots) <==> !Live(p.slots, p.nextId)
  {
    var k, q := FreeSlotFrom(p.slots, 0), Added(p, addr, port);
    if Live(p.slots, p.nextId) {
      var j := FindSlot(p.slots, p.nextId);
      assert q.slots[j].Some? && q.slots[j].value.id == p.nextId == q.slots[k].value.id;
      assert j != k;
    }
  }

  /** An id that becomes live is the one just handed out, healthy and enabled. */
  lemma ApplyMakesLive(p: Pool, op: PoolOp, x: u32)
    requires IdsOk(p.slots, p.nextId) && (op.Add? ==> p.nextId < U32_MAX)
    requires !Live(p.slots, x) && Live(Apply(p, op).slots, x)
    ensures op.Add? && x == p.nextId && BackendOf(Apply(p, op).slots, x) == NewBackend(x, op.addr, op.port)
  {
    var q := Apply(p, op);
    var k := FindSlot(q.slots, x);
    assert !(p.slots[k].Some? && p.slots[k].value.id == x);
  }

  predicate IsEligible(b: Backend) {
    b.admin == Enabled && b.healthy && b.macResolved
  }

  predicate IsRoutable(b: Backend) {
    b.admin != Disabled && b.healthy && b.macResolved
  }

  /** The backends a snapshot query copies out, in slot order. */
  function Select(slots: Slots, p: Backend -> bool): (r: seq<Backend>)
    ensures forall b :: b in r <==> Some(b) in slots && p(b)
    ensures |r| <= |slots|
  {
    if slots == [] then [] else
      var last := slots[|slots| - 1];
      var rest := Select(slots[..|slots| - 1], p);
      assert slots == slots[..|slots| - 1] + [last];
      if last.Some? && p(last.value) then rest + [last.value] else rest
  }

  lemma SelectNext(slots: Slots, p: Backend -> bool, i: nat)
    requires i < |slots|
    ensures var s := slots[i];
            Select(slots[..i + 1], p) == Select(slots[..i], p) + if s.Some? && p(s.value) then [s.value] else []
  {
    assert slots[..i + 1][..i] == slots[..i];
  }

  ghost predicate DistinctIds(bs: seq<Backend>) {
    forall i, j :: 0 <= i < j < |bs| ==> bs[i].id != bs[j].id
  }

  lemma {:induction false} SelectKeepsDistinct(slots: Slots, nextId: nat, p: Backend -> bool)
    requires IdsOk(slots, nextId)
    ensures DistinctIds(Select(slots, p))
  {
    if slots != [] {
      var k := |slots| - 1;
      var rest := Select(slots[..k], p);
      assert IdsOk(slots[..k], nextId);
      SelectKeepsDistinct(slots[..k], nextId, p);
      forall i | 0 <= i < |rest| && slots[k].Some?
        ensures rest[i].id != slots[k].value.id
      {
        assert rest[i] in rest;
        var a :| 0 <= a < k && slots[a] == Some(rest[i]);
      }
      if slots[k].Some? && p(slots[k].value) {
        assert Select(slots, p) == rest + [slots[k].value];
      }
    }
  }

  function View(b: Backend): BackendView {
    BackendView(b.id, b.addr, b.port, b.mac)
  }

  function Views(bs: seq<Backend>): (r: seq<BackendView>)
    ensures |r| == |bs| && forall i :: 0 <= i < |bs| ==> r[i] == View(bs[i])
  {
    seq(|bs|, i requires 0 <= i < |bs| => View(bs[i]))
  }

  /** Eligible backends are routable, and both lists have distinct ids. */
  lemma SnapshotListsAgree(slots: Slots, nextId: nat)
    requires IdsOk(slots, nextId) && nextId <= 0x8000_0000
    ensures var e, r := Views(Select(slots, IsEligible)), Views(Select(slots, IsRoutable));
            && IdSubset(e, r) && SignedIds(e) && SignedIds(r)
            && DistinctBackendIds(e) && DistinctBackendIds(r)
  {
    var es, rs := Select(slots, IsEligible), Select(slots, IsRoutable);
    var e, r := Views(es), Views(rs);
    SelectKeepsDistinct(slots, nextId, IsEligible);
    SelectKeepsDistinct(slots, nextId, IsRoutable);
    forall c | c in e
      ensures c.id < 0x8000_0000 && Resolves(r, AsI32(c.id))
    {
      var i :| 0 <= i < |es| && View(es[i]) == c;
      assert es[i] in es && es[i] in rs;
      var j :| 0 <= j < |rs| && rs[j] == es[i];
      assert AsI32(r[j].id) == AsI32(c.id);
    }
    forall c | c in r
      ensures c.id < 0x8000_0000
    {
      var i :| 0 <= i < |rs| && View(rs[i]) == c;
      assert rs[i] in rs;
    }
  }

  /** A live backend, by its own state: in the routable list iff not disabled,
      healthy and resolved; in the eligible list iff also not draining. */
  lemma LiveBackendListed(slots: Slots, nextId: nat, b: Backend)
    requires IdsOk(slots, nextId) && nextId <= 0x8000_0000 && Some(b) in slots
    ensures Resolves(Views(Select(slots, IsRoutable)), b.id) <==> IsRoutable(b)
    ensures (exists c :: c in Views(Select(slots, IsEligible)) && c.id == b.id) <==> IsEligible(b)
  {
    var es, rs := Select(slots, IsEligible), Select(slots, IsRoutable);
    var e, r := Views(es), Views(rs);
    var k :| 0 <= k < |slots| && slots[k] == Some(b);
    forall i | 0 <= i < |rs| && AsI32(rs[i].id) == b.id
      ensures rs[i] == b
    {
      assert rs[i] in rs;
      var a :| 0 <= a < |slots| && slots[a] == Some(rs[i]);
      assert a == k;
    }
    forall i | 0 <= i < |es| && es[i].id == b.id
      ensures es[i] == b
    {
      assert es[i] in es;
      var a :| 0 <= a < |slots| && slots[a] == Some(es[i]);
      assert a == k;
    }
    if IsRoutable(b) {
      var i :| 0 <= i < |rs| && rs[i] == b;
      assert AsI32(r[i].id) == b.id;
    } else {
      forall i | 0 <= i < |r|
        ensures AsI32(r[i].id) != b.id
      {
        assert rs[i] in rs;
      }
    }
    if IsEligible(b) {
      var i :| 0 <= i < |es| && es[i] == b;
      assert e[i] in e && e[i].id == b.id;
    } else {
      forall c | c in e
        ensures c.id != b.id
      {
        var i :| 0 <= i < |e| && e[i] == c;
        assert es[i] in es;
      }
    }
  }

  /** `struct backend_manager`. Each mutating operation returns whether the
      subscriber is notified. */
  class BackendManager {
    const backends: array<Backend>
    const slotUsed: array<bool>
    var nextId: u32

    ghost predicate Valid()
      reads this, backends, slotUsed
    {
      backends.Length == slotUsed.Length == BACKEND_MAX
    }

    ghost function Abs(): (p: Pool)
      reads this, backends, slotUsed
    {
      Pool(Slots(), nextId)
    }

    ghost function Slots(): (s: Slots)
      reads this, backends, slotUsed
    {
      seq(if backends.Length == slotUsed.Length then backends.Length else 0,
          i requires 0 <= i && backends.Length == slotUsed.Length && i < backends.Length
            reads this, backends, slotUsed =>
            if slotUsed[i] then Some(backends[i]) else None)
    }

    constructor ()
      ensures Valid() && fresh(backends) && fresh(slotUsed)
      ensures Abs() == Pool(seq(BACKEND_MAX, _ => None), 0)
    {
      backends := new Backend[BACKEND_MAX](_ => NewBackend(0, 0, 0));
      slotUsed := new bool[BACKEND_MAX](_ => false);
      nextId := 0;
    }

    /** `find_slot` */
    method FindIndex(id: u32) returns (k: nat)
      requires Valid()
      ensures k == FindSlot(Slots(), id)
    {
      k := 0;
      while k < BACKEND_MAX
        invariant k <= BACKEND_MAX
        invariant FindSlot(Slots(), id) == FindSlotFrom(Slots(), id, k)
      {
        if slotUsed[k] && backends[k].id == id {
          return;
        }
        k := k + 1;
      }
    }

    /** Returns UINT32_MAX when the pool is full. The id UINT32_MAX itself, the last
        before the counter wraps, is stored without notifying anyone. */
    method Add(addr: u32, port: u16) returns (id: u32, notified: bool)
      requires Valid()
      modifies this, backends, slotUsed
      ensures Valid() && Abs() == Added(old(Abs()), addr, port)
      ensures (id, notified) == AddResult(old(Abs()))
    {
      var i := 0;
      while i < BACKEND_MAX
        invariant i <= BACKEND_MAX
        invariant FreeSlotFrom(Slots(), 0) == FreeSlotFrom(Slots(), i)
        invariant Abs() == old(Abs())
      {
        if !slotUsed[i] {
          id := nextId;
          slotUsed[i] := true;
          nextId := if nextId == U32_MAX then 0 else nextId + 1;
          backends[i] := NewBackend(id, addr, port);
          assert Slots() == old(Slots())[i := Some(NewBackend(id, addr, port))];
          return id, id != U32_MAX;
        }
        i := i + 1;
      }
      return U32_MAX, false;
    }

    method Remove(id: u32) returns (notified: bool)
      requires Valid()
      modifies slotUsed
      ensures Valid() && Abs() == Apply(old(Abs()), PoolOp.Remove(id))
      ensures notified <==> Live(old(Slots()), id)
    {
      var k := FindIndex(id);
      if k < BACKEND_MAX {
        slotUsed[k] := false;
        assert Slots() == old(Slots())[k := None];
      }
      return k < BACKEND_MAX;
    }

    method Store(k: nat, b: Backend)
      requires Valid() && k < BACKEND_MAX && slotUsed[k]
      modifies backends
      ensures Valid() && Slots() == old(Slots())[k := Some(b)]
    {
      backends[k] := b;
      assert Slots() == old(Slots())[k := Some(b)];
    }

    /** Notifies exactly when the health of a known id really changes. */
    method SetHealth(id: u32, healthy: bool) returns (changed: bool)
      requires Valid()
      modifies backends
      ensures Valid() && Abs() == Apply(old(Abs()), PoolOp.SetHealth(id, healthy))
      ensures changed <==> Live(old(Slots()), id) && BackendOf(old(Slots()), id).healthy != healthy
    {
      var k := FindIndex(id);
      changed := k < BACKEND_MAX && backends[k].healthy != healthy;
      if changed {
        Store(k, backends[k].(healthy := healthy));
      }
      assert k < BACKEND_MAX && !changed ==> Slots()[k] == Some(Slots()[k].value.(healthy := healthy));
    }

    /** Notifies exactly when the admin state of a known id really changes. */
    method SetAdminState(id: u32, state: AdminState) returns (changed: bool)
      requires Valid()
      modifies backends
      ensures Valid() && Abs() == Apply(old(Abs()), PoolOp.SetAdmin(id, state))
      ensures changed <==> Live(old(Slots()), id) && BackendOf(old(Slots()), id).admin != state
    {
      var k := FindIndex(id);
      changed := k < BACKEND_MAX && backends[k].admin != state;
      if changed {
        Store(k, backends[k].(admin := state));
      }
      assert k < BACKEND_MAX && !changed ==> Slots()[k] == Some(Slots()[k].value.(admin := state));
    }

    method SetMac(id: u32, mac: Mac) returns (changed: bool)
      requires Valid()
      modifies backends
      ensures Valid() && Abs() == Apply(old(Abs()), PoolOp.SetMac(id, mac))
      ensures changed <==> Live(old(Slots()), id)
    {
      var k := FindIndex(id);
      changed := k < BACKEND_MAX;
      if changed {
        Store(k, backends[k].(mac := mac, macResolved := true));
      }
    }

    /** The copy loop of the snapshot queries, with room for every slot. */
    method Snapshot(p: Backend -> bool) returns (out: seq<Backend>)
      requires Valid()
      ensures out == Select(Slots(), p)
    {
      out := [];
      ghost var slots := Slots();
      for i := 0 to BACKEND_MAX
        invariant out == Select(slots[..i], p)
      {
        SelectNext(slots, p, i);
        if slotUsed[i] && p(backends[i]) {
          out := out + [backends[i]];
        }
      }
      assert slots[..BACKEND_MAX] == slots;
    }
  }
}
