/** The health checker's probe states (src/backend/health_checker.c:104-162) over a
    pool of backends. */
module HealthChecker {
  import opened MachineInts
  import opened BackendPool
  import opened Hysteresis

  datatype ProbeState = ProbeState(id: u32, ok: u32, fail: u32, inUse: bool)

  type Probes = seq<ProbeState>

  /** The slot in use for this id, or |ps|. */
  function StateFrom(ps: Probes, id: u32, from: nat): (k: nat)
    requires from <= |ps|
    ensures from <= k <= |ps|
    ensures k < |ps| ==> ps[k].inUse && ps[k].id == id
    ensures forall i :: from <= i < k ==> !(ps[i].inUse && ps[i].id == id)
    decreases |ps| - from
  {
    if from == |ps| || (ps[from].inUse && ps[from].id == id) then from else StateFrom(ps, id, from + 1)
  }

  function FreeFrom(ps: Probes, from: nat): (k: nat)
    requires from <= |ps|
    ensures from <= k <= |ps|
    ensures k < |ps| ==> !ps[k].inUse
    ensures forall i :: from <= i < k ==> ps[i].inUse
    decreases |ps| - from
  {
    if from == |ps| || !ps[from].inUse then from else FreeFrom(ps, from + 1)
  }

  /** `find_or_create_state`: the states afterwards and the slot, or |ps|. */
  function Located(ps: Probes, id: u32): (r: (Probes, nat))
    ensures |r.0| == |ps| && r.1 <= |ps|
  {
    var k := StateFrom(ps, id, 0);
    if k < |ps| then (ps, k) else
      var f := FreeFrom(ps, 0);
      if f < |ps| then (ps[f := ProbeState(id, 0, 0, true)], f) else (ps, f)
  }

  /** The tracker of an id, given the health the pool holds for it. */
  function TrackerOf(ps: Probes, id: u32, healthy: bool): Tracker {
    var k := StateFrom(ps, id, 0);
    if k < |ps| then Tracker(ps[k].ok, ps[k].fail, healthy) else Tracker(0, 0, healthy)
  }

  /** `backend_manager_set_health` on the slots. */
  function WithHealth(slots: Slots, id: u32, healthy: bool): (r: Slots)
    ensures |r| == |slots|
  {
    Stored(slots, id, SetHealth(id, healthy))
  }

  /** `record_result`: the new probe states, the new pool, and whether the
      subscriber was notified. */
  function Record(ps: Probes, slots: Slots, rise: u32, fall: u32, id: u32, ok: bool): (r: (Probes, Slots, bool))
    ensures |r.0| == |ps| && |r.1| == |slots|
  {
    var (qs, k) := Located(ps, id);
    if k == |qs| then (ps, slots, false) else
      var st := qs[k];
      var n := if ok then (if st.ok < rise then st.ok + 1 else st.ok)
               else (if st.fail < fall then st.fail + 1 else st.fail);
      var reached := if ok then st.ok < rise && n == rise else st.fail < fall && n == fall;
      var s := FindSlot(slots, id);
      (qs[k := if ok then st.(ok := n, fail := 0) else st.(ok := 0, fail := n)],
       if reached then WithHealth(slots, id, ok) else slots,
       reached && s < |slots| && slots[s].value.healthy != ok)
  }

  class Checker {
    const bm: BackendManager
    const rise: u32
    const fall: u32
    const states: array<ProbeState>

    ghost predicate Valid()
      reads this, bm, bm.backends, bm.slotUsed
    {
      bm.Valid() && states.Length == BACKEND_MAX
    }

    constructor (bm: BackendManager, rise: u32, fall: u32)
      requires bm.Valid()
      ensures Valid() && this.bm == bm && this.rise == rise && this.fall == fall && fresh(states)
      ensures forall i :: 0 <= i < states.Length ==> !states[i].inUse
    {
      this.bm, this.rise, this.fall := bm, rise, fall;
      states := new ProbeState[BACKEND_MAX](_ => ProbeState(0, 0, 0, false));
    }

    /** `find_or_create_state`: one pass remembers the first free slot. */
    method FindOrCreate(id: u32) returns (k: nat)
      requires Valid()
      modifies states
      ensures (states[..], k) == Located(old(states[..]), id)
    {
      ghost var ps := states[..];
      var free: nat := BACKEND_MAX;
      var i := 0;
      while i < BACKEND_MAX
        invariant i <= BACKEND_MAX && states[..] == ps
        invariant StateFrom(ps, id, 0) == StateFrom(ps, id, i)
        invariant free == BACKEND_MAX ==> FreeFrom(ps, 0) == FreeFrom(ps, i)
        invariant free < BACKEND_MAX ==> free == FreeFrom(ps, 0)
        invariant free <= BACKEND_MAX
      {
        if states[i].inUse && states[i].id == id {
          return i;
        }
        if !states[i].inUse && free == BACKEND_MAX {
          free := i;
        }
        i := i + 1;
      }
      if free < BACKEND_MAX {
        states[free] := ProbeState(id, 0, 0, true);
      }
      return free;
    }

    /** `record_result` */
    method RecordResult(id: u32, ok: bool) returns (notified: bool)
      requires Valid()
      modifies states, bm.backends
      ensures Valid()
      ensures (states[..], bm.Slots(), notified) == Record(old(states[..]), old(bm.Slots()), rise, fall, id, ok)
    {
      notified := false;
      var k := FindOrCreate(id);
      if k == BACKEND_MAX {
        return;
      }
      var st := states[k];
      var reached := false;
      if ok {
        st := st.(fail := 0);
        if st.ok < rise {
          st := st.(ok := st.ok + 1);
          reached := st.ok == rise;
        }
      } else {
        st := st.(ok := 0);
        if st.fail < fall {
          st := st.(fail := st.fail + 1);
          reached := st.fail == fall;
        }
      }
      states[k] := st;
      if reached {
        notified := bm.SetHealth(id, ok);
      }
    }
  }
}
