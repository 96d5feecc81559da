/** Removal safety and progress over reconciler runs. */
module ReconcilerRemoval {
  import opened Wrappers
  import opened ReconcilerSlot
  import opened ReconcilerFleet

  // ------------------------------------------------------------ one tick, one owned slot

  lemma AddOneKeepsOwned(f: Fleet, id: Id, k: nat)
    requires Sound(f) && id in f.desired && k < |f.cells| && f.cells[k].s.owner.Some?
    ensures AddOne(f, id).cells[k] == f.cells[k]
  {
    assert CellAt(f, k);
  }

  lemma {:induction false} AddAllKeepsOwned(f: Fleet, ids: seq<Id>, k: nat)
    requires Sound(f) && k < |f.cells| && f.cells[k].s.owner.Some?
    requires forall id :: id in ids ==> id in f.desired
    ensures AddAll(f, ids).cells[k] == f.cells[k]
  {
    if ids != [] {
      var rest := ids[..|ids| - 1];
      AddAllKeepsOwned(f, rest, k);
      AddAllSound(f, rest);
      AddOneKeepsOwned(AddAll(f, rest), ids[|ids| - 1], k);
    }
  }

  /** A tick takes an owned slot through its own removal and progress passes only. */
  lemma TickCell(f: Fleet, e: Event, k: nat)
    requires Sound(f) && EventOk(f, e) && e.Tick? && k < |f.cells| && f.cells[k].s.owner.Some?
    ensures CellOk(Removal(f.cells[k], f.desired, e.now, e.obs[k]))
    ensures Next(f, e).cells[k]
            == Progress(Removal(f.cells[k], f.desired, e.now, e.obs[k]), f.desired, e.now, e.obs[k])
  {
    var g := RemovalPass(f, e.now, e.obs);
    assert CellAt(f, k);
    RemovalOk(f.cells[k], f.desired, e.now, e.obs[k]);
    RemovalPassSound(f, e.now, e.obs);
    AddAllKeepsOwned(g, e.order, k);
  }

  /** The processes of a slot are gone, its current one for certain. */
  ghost predicate ProcessGone(c: Cell, handle: Option<nat>) {
    && handle.Some? && handle.value < |c.w.procs| && c.w.procs[handle.value] == Dead
    && forall p :: 0 <= p < |c.w.procs| ==> c.w.procs[p] != Running
  }

  /** Removal safety: UNDRAIN reaches a slot under removal, and any owned slot in a
      tick, only when re-adding its id cancels the drain, or when the slot is
      freed with its process dead and the load balancer reporting it down. */
  lemma UndrainUnderRemoval(r: Run, i: nat, k: nat)
    requires IsRun(r) && i < |r.events| && Sound(r.fleets[0])
    requires k < |r.fleets[i].cells| && r.fleets[i].cells[k].s.owner.Some?
    requires r.fleets[i].cells[k].s.removing || r.events[i].Tick?
    ensures k < |r.fleets[i + 1].cells|
    ensures var c, c', e := r.fleets[i].cells[k], r.fleets[i + 1].cells[k], r.events[i];
            c'.w.undrains != c.w.undrains ==>
              && e.Tick? && k < |e.obs|
              && ((c.s.removing && c.s.phase == Draining && Active(r.fleets[i].desired, c.s.owner.value)
                   && !c'.s.removing)
                  || (c'.s.phase == Free && !e.obs[k].up && ProcessGone(c', c.s.handle)))
  {
    RunSound(r, i);
    assert StepAt(r, i);
    var f, e := r.fleets[i], r.events[i];
    assert CellAt(f, k);
    if e.Tick? {
      TickCell(f, e, k);
      TickUndrain(f.cells[k], f.desired, e.now, e.obs[k]);
    } else {
      OtherEventsKeepRemoval(f, e, k);
    }
  }

  /** Commands and exits leave a slot under removal to the ticks. */
  lemma OtherEventsKeepRemoval(f: Fleet, e: Event, k: nat)
    requires EventOk(f, e) && !e.Tick? && k < |f.cells| && f.cells[k].s.removing
    ensures Next(f, e).cells[k].s == f.cells[k].s && Next(f, e).cells[k].w.undrains == f.cells[k].w.undrains
  {
  }

  lemma TickUndrain(c: Cell, desired: Desired, now: int, o: Obs)
    requires CellOk(c) && c.s.owner.Some? && CellOk(Removal(c, desired, now, o))
    ensures var c' := Progress(Removal(c, desired, now, o), desired, now, o);
            c'.w.undrains != c.w.undrains ==>
              && ((c.s.removing && c.s.phase == Draining && Active(desired, c.s.owner.value) && !c'.s.removing)
                  || (c'.s.phase == Free && !o.up && ProcessGone(c', c.s.handle)))
  {
    RemovalUndrain(c, desired, now, o);
    ProgressUndrain(Removal(c, desired, now, o), desired, now, o);
    RemovalKeepsHandle(c, desired, now, o);
    FreedIsGone(Removal(c, desired, now, o), desired, now, o);
    if !Removal(c, desired, now, o).s.removing {
      CancelledStays(c, desired, now, o);
    }
  }

  lemma RemovalKeepsHandle(c: Cell, desired: Desired, now: int, o: Obs)
    ensures Removal(c, desired, now, o).s.handle == c.s.handle
    ensures Removal(c, desired, now, o).s.owner == c.s.owner
  {
  }

  /** A slot that a progress pass frees has no running process, its own is dead. */
  lemma FreedIsGone(c: Cell, desired: Desired, now: int, o: Obs)
    requires CellOk(c) && c.s.owner.Some?
    ensures var c' := Progress(c, desired, now, o);
            c'.s.phase == Free ==> ProcessGone(c', c.s.handle)
  {
    PollOk(c, o.exitedAtProgress);
  }

  /** A cancelled drain is not under removal after the tick. */
  lemma CancelledStays(c: Cell, desired: Desired, now: int, o: Obs)
    requires CellOk(c) && !Removal(c, desired, now, o).s.removing
    ensures !Progress(Removal(c, desired, now, o), desired, now, o).s.removing
  {
  }

  // ------------------------------------------------------------ drains end, stops kill

  predicate DrainsFor(c: Cell, since: int) {
    c.s.removing && c.s.phase == Draining && c.s.drainSince == Some(since)
  }

  lemma DrainTick(c: Cell, desired: Desired, now: int, o: Obs, since: int)
    requires CellOk(c) && DrainsFor(c, since)
    ensures var c' := Progress(Removal(c, desired, now, o), desired, now, o);
            c'.s.removing && c'.s.phase == Draining ==> DrainsFor(c', since) && now - since < DRAIN_MAX_MS
  {
    var mid := Removal(c, desired, now, o);
    if mid.s.removing && now - since >= DRAIN_MAX_MS {
      DrainEnds(mid, desired, now, o);
    }
  }

  /** While a removal keeps draining, the time it began does not move. */
  lemma DrainSinceStable(r: Run, i: nat, k: nat, since: int)
    requires IsRun(r) && i < |r.events| && Sound(r.fleets[0]) && k < |r.fleets[i].cells|
    requires DrainsFor(r.fleets[i].cells[k], since)
    ensures k < |r.fleets[i + 1].cells|
    ensures var c' := r.fleets[i + 1].cells[k];
            c'.s.removing && c'.s.phase == Draining ==> DrainsFor(c', since)
    ensures var c', e := r.fleets[i + 1].cells[k], r.events[i];
            c'.s.removing && c'.s.phase == Draining && e.Tick? ==> e.now - since < DRAIN_MAX_MS
  {
    RunSound(r, i);
    assert StepAt(r, i);
    var f, e := r.fleets[i], r.events[i];
    assert CellAt(f, k);
    if !e.Tick? {
      OtherEventsKeepRemoval(f, e, k);
    } else {
      TickCell(f, e, k);
      DrainTick(f.cells[k], f.desired, e.now, e.obs[k], since);
    }
  }

  /** Removal progress: a removal that is draining in every state from i to j saw
      no tick at or after DRAIN_MAX_MS past its start. */
  lemma {:induction false} DrainBounded(r: Run, i: nat, j: nat, k: nat, since: int)
    requires IsRun(r) && Sound(r.fleets[0]) && i <= j <= |r.events|
    requires forall t :: i <= t <= j ==>
               k < |r.fleets[t].cells| && r.fleets[t].cells[k].s.removing && r.fleets[t].cells[k].s.phase == Draining
    requires r.fleets[i].cells[k].s.drainSince == Some(since)
    ensures DrainsFor(r.fleets[j].cells[k], since)
    ensures forall t :: i <= t < j && r.events[t].Tick? ==> r.events[t].now - since < DRAIN_MAX_MS
    decreases j - i
  {
    if i < j {
      DrainBounded(r, i, j - 1, k, since);
      DrainSinceStable(r, j - 1, k, since);
    }
  }

  /** A stopping process still alive STOP_KILL_AFTER_MS after its stop is killed by
      the tick that sees it. */
  lemma TickKills(r: Run, i: nat, k: nat)
    requires IsRun(r) && i < |r.events| && Sound(r.fleets[0]) && k < |r.fleets[i].cells|
    requires r.events[i].Tick? && r.fleets[i].cells[k].s.phase == Stopping && r.fleets[i].cells[k].s.stopSince.Some?
    requires r.events[i].now - r.fleets[i].cells[k].s.stopSince.value >= STOP_KILL_AFTER_MS
    requires k < |r.events[i].obs| && Alive(Poll(r.fleets[i].cells[k], r.events[i].obs[k].exitedAtProgress))
    ensures k < |r.fleets[i + 1].cells|
    ensures var c, c' := r.fleets[i].cells[k], r.fleets[i + 1].cells[k];
            c.s.handle.Some? && c.s.handle.value < |c'.w.procs| && c'.w.procs[c.s.handle.value] == Killed
  {
    RunSound(r, i);
    assert StepAt(r, i);
    var f, e := r.fleets[i], r.events[i];
    assert CellAt(f, k);
    TickCell(f, e, k);
    var mid := Removal(f.cells[k], f.desired, e.now, e.obs[k]);
    assert mid == f.cells[k];
    StopKills(mid, f.desired, e.now, e.obs[k]);
  }

  // ------------------------------------------------------------ a whole removal

  predicate StoppingSince(c: Cell, id: Id, stop: int) {
    c.s.owner == Some(id) && c.s.removing && c.s.phase == Stopping && c.s.stopSince == Some(stop)
  }

  /** The slot is being taken from this id: still draining since `since`, or stopping
      since `bound` at the latest. */
  predicate Leaving(c: Cell, id: Id, since: int, bound: int) {
    && c.s.owner == Some(id)
    && (DrainsFor(c, since) || (c.s.stopSince.Some? && c.s.stopSince.value <= bound
                                && StoppingSince(c, id, c.s.stopSince.value)))
  }

  lemma DrainingTick(c: Cell, desired: Desired, now: int, o: Obs, id: Id, since: int)
    requires CellOk(c) && c.s.owner == Some(id) && DrainsFor(c, since) && !Active(desired, id)
    ensures var c' := Progress(Removal(c, desired, now, o), desired, now, o);
            || StoppingSince(c', id, now)
            || (c'.s.owner == Some(id) && DrainsFor(c', since) && now - since < DRAIN_MAX_MS)
  {
    var c0 := Poll(c, o.exitedAtProgress);
    assert Removal(c, desired, now, o) == c;
    assert Progress(c, desired, now, o) == ProgressDrain(c0, now, o);
  }

  /** Re-adding the id does not take back a stop. */
  lemma StoppingTick(c: Cell, desired: Desired, now: int, o: Obs, id: Id, stop: int)
    requires CellOk(c) && StoppingSince(c, id, stop)
    ensures var c' := Progress(Removal(c, desired, now, o), desired, now, o);
            || c'.s.phase == Free
            || (StoppingSince(c', id, stop) && (now - stop >= STOP_KILL_AFTER_MS ==> CurrentGone(c')))
    ensures !Alive(Poll(c, o.exitedAtProgress)) && !o.up ==>
              Progress(Removal(c, desired, now, o), desired, now, o).s.phase == Free
  {
    var c0 := Poll(c, o.exitedAtProgress);
    assert Removal(c, desired, now, o) == c;
    assert Progress(c, desired, now, o) == ProgressStop(c0, now, o);
  }

  predicate FreeAt(r: Run, k: nat, s: nat) {
    s < |r.fleets| && k < |r.fleets[s].cells| && r.fleets[s].cells[k].s.phase == Free
  }

  /** The slot was free at some point after i and up to t. */
  ghost predicate FreedBy(r: Run, k: nat, i: nat, t: nat) {
    exists s: nat :: i < s <= t && FreeAt(r, k, s)
  }

  /** A tick at t, if it is one, finds the id not wanted and happens by `bound`. */
  predicate UnwantedAt(r: Run, t: nat, id: Id, bound: int)
    requires t < |r.events| && t < |r.fleets|
  {
    r.events[t].Tick? ==> !Active(r.fleets[t].desired, id) && r.events[t].now <= bound
  }

  lemma LeavingStep(r: Run, t: nat, k: nat, id: Id, since: int, bound: int)
    requires IsRun(r) && Sound(r.fleets[0]) && t < |r.events| && k < |r.fleets[t].cells|
    requires Leaving(r.fleets[t].cells[k], id, since, bound) && UnwantedAt(r, t, id, bound)
    ensures k < |r.fleets[t + 1].cells|
    ensures var c' := r.fleets[t + 1].cells[k];
            || c'.s.phase == Free
            || (Leaving(c', id, since, bound)
                && (r.events[t].Tick? && r.events[t].now - since >= DRAIN_MAX_MS ==> c'.s.phase == Stopping))
  {
    RunSound(r, t);
    assert StepAt(r, t);
    var f, e := r.fleets[t], r.events[t];
    assert CellAt(f, k);
    if e.Tick? {
      TickCell(f, e, k);
      if DrainsFor(f.cells[k], since) {
        DrainingTick(f.cells[k], f.desired, e.now, e.obs[k], id, since);
      } else {
        StoppingTick(f.cells[k], f.desired, e.now, e.obs[k], id, f.cells[k].s.stopSince.value);
      }
    } else {
      OtherEventsKeepRemoval(f, e, k);
    }
  }

  lemma {:induction false} StillLeaving(r: Run, i: nat, t: nat, k: nat, id: Id, since: int, bound: int)
    requires IsRun(r) && Sound(r.fleets[0]) && i <= t <= |r.events| && k < |r.fleets[i].cells|
    requires Leaving(r.fleets[i].cells[k], id, since, bound)
    requires forall s: nat :: i <= s < t ==> UnwantedAt(r, s, id, bound)
    ensures k < |r.fleets[t].cells|
    ensures FreedBy(r, k, i, t) || Leaving(r.fleets[t].cells[k], id, since, bound)
    decreases t
  {
    if i < t {
      StillLeaving(r, i, t - 1, k, id, since, bound);
      assert UnwantedAt(r, t - 1, id, bound);
      if Leaving(r.fleets[t - 1].cells[k], id, since, bound) {
        LeavingStep(r, t - 1, k, id, since, bound);
        assert r.fleets[t].cells[k].s.phase == Free ==> FreeAt(r, k, t);
      } else {
        assert StepAt(r, t - 1);
      }
    }
  }

  lemma StoppingStep(r: Run, t: nat, k: nat, id: Id, stop: int)
    requires IsRun(r) && Sound(r.fleets[0]) && t < |r.events| && k < |r.fleets[t].cells|
    requires StoppingSince(r.fleets[t].cells[k], id, stop)
    ensures k < |r.fleets[t + 1].cells|
    ensures var c' := r.fleets[t + 1].cells[k];
            || c'.s.phase == Free
            || (StoppingSince(c', id, stop)
                && (r.events[t].Tick? && r.events[t].now - stop >= STOP_KILL_AFTER_MS ==> CurrentGone(c')))
    ensures SeenDown(r, t, k) ==> r.fleets[t + 1].cells[k].s.phase == Free
  {
    RunSound(r, t);
    assert StepAt(r, t);
    var f, e := r.fleets[t], r.events[t];
    assert CellAt(f, k);
    if e.Tick? {
      TickCell(f, e, k);
      StoppingTick(f.cells[k], f.desired, e.now, e.obs[k], id, stop);
    } else {
      OtherEventsKeepRemoval(f, e, k);
    }
  }

  lemma {:induction false} StillStopping(r: Run, i: nat, t: nat, k: nat, id: Id, stop: int)
    requires IsRun(r) && Sound(r.fleets[0]) && i <= t <= |r.events| && k < |r.fleets[i].cells|
    requires StoppingSince(r.fleets[i].cells[k], id, stop)
    ensures k < |r.fleets[t].cells|
    ensures FreedBy(r, k, i, t) || StoppingSince(r.fleets[t].cells[k], id, stop)
    decreases t
  {
    if i < t {
      StillStopping(r, i, t - 1, k, id, stop);
      if StoppingSince(r.fleets[t - 1].cells[k], id, stop) {
        StoppingStep(r, t - 1, k, id, stop);
        assert r.fleets[t].cells[k].s.phase == Free ==> FreeAt(r, k, t);
      } else {
        assert StepAt(r, t - 1);
      }
    }
  }

  lemma {:induction false} SameSlots(r: Run, i: nat, t: nat)
    requires IsRun(r) && i <= t <= |r.events|
    ensures |r.fleets[t].cells| == |r.fleets[i].cells|
  {
    if i < t {
      SameSlots(r, i, t - 1);
      assert StepAt(r, t - 1);
    }
  }

  lemma FreedLater(r: Run, k: nat, i: nat, i': nat, t: nat, t': nat)
    requires i <= i' && t <= t' && FreedBy(r, k, i', t)
    ensures FreedBy(r, k, i, t')
  {
    var s: nat :| i' < s <= t && FreeAt(r, k, s);
    assert i < s <= t';
  }

  /** A drain that is not cancelled has become a stop, at the latest, after the first
      step DRAIN_MAX_MS past its start. */
  lemma DrainStops(r: Run, i: nat, a: nat, k: nat, id: Id, since: int)
    requires IsRun(r) && Sound(r.fleets[0]) && i <= a < |r.events| && k < |r.fleets[i].cells|
    requires r.fleets[i].cells[k].s.owner == Some(id) && DrainsFor(r.fleets[i].cells[k], since)
    requires r.events[a].Tick? && r.events[a].now - since >= DRAIN_MAX_MS
    requires forall s: nat :: i <= s <= a ==> UnwantedAt(r, s, id, r.events[a].now)
    ensures k < |r.fleets[a + 1].cells|
    ensures var c := r.fleets[a + 1].cells[k];
            || FreedBy(r, k, i, a + 1)
            || (c.s.stopSince.Some? && c.s.stopSince.value <= r.events[a].now
                && StoppingSince(c, id, c.s.stopSince.value))
  {
    var bound := r.events[a].now;
    StillLeaving(r, i, a, k, id, since, bound);
    if Leaving(r.fleets[a].cells[k], id, since, bound) {
      assert UnwantedAt(r, a, id, bound);
      LeavingStep(r, a, k, id, since, bound);
      assert r.fleets[a + 1].cells[k].s.phase == Free ==> FreeAt(r, k, a + 1);
    } else {
      FreedLater(r, k, i, i, a, a + 1);
      SameSlots(r, a, a + 1);
    }
  }

  /** Removal progress as a whole: if the id stays unwanted while it drains, a step at
      least DRAIN_MAX_MS after its drain began, followed by one at least
      STOP_KILL_AFTER_MS later, leaves the slot freed or its process dead or killed. */
  lemma RemovalBound(r: Run, i: nat, a: nat, b: nat, k: nat, id: Id, since: int)
    requires IsRun(r) && Sound(r.fleets[0]) && i <= a < b < |r.events| && k < |r.fleets[i].cells|
    requires r.fleets[i].cells[k].s.owner == Some(id) && DrainsFor(r.fleets[i].cells[k], since)
    requires r.events[a].Tick? && r.events[a].now - since >= DRAIN_MAX_MS
    requires forall s: nat :: i <= s <= a ==> UnwantedAt(r, s, id, r.events[a].now)
    requires r.events[b].Tick? && r.events[b].now - r.events[a].now >= STOP_KILL_AFTER_MS
    ensures k < |r.fleets[b + 1].cells|
    ensures var c := r.fleets[b + 1].cells[k];
            || FreedBy(r, k, i, b + 1)
            || (c.s.stopSince.Some? && StoppingSince(c, id, c.s.stopSince.value) && CurrentGone(c))
  {
    DrainStops(r, i, a, k, id, since);
    if FreedBy(r, k, i, a + 1) {
      FreedLater(r, k, i, i, a + 1, b + 1);
      SameSlots(r, a + 1, b + 1);
    } else {
      var stop := r.fleets[a + 1].cells[k].s.stopSince.value;
      StillStopping(r, a + 1, b, k, id, stop);
      if StoppingSince(r.fleets[b].cells[k], id, stop) {
        StoppingStep(r, b, k, id, stop);
        assert r.fleets[b + 1].cells[k].s.phase == Free ==> FreeAt(r, k, b + 1);
      } else {
        FreedLater(r, k, i, a + 1, b, b + 1);
        SameSlots(r, b, b + 1);
      }
    }
  }

  /** A step that sees the process dead and the load balancer reporting the slot down. */
  predicate SeenDown(r: Run, t: nat, k: nat) {
    && t < |r.events| && t < |r.fleets| && k < |r.fleets[t].cells|
    && r.events[t].Tick? && k < |r.events[t].obs| && !r.events[t].obs[k].up
    && !Alive(Poll(r.fleets[t].cells[k], r.events[t].obs[k].exitedAtProgress))
  }

  /** And the first such step after the stop frees the slot, even if the id is wanted
      again by then. */
  lemma RemovalFrees(r: Run, i: nat, t: nat, k: nat, id: Id, stop: int)
    requires IsRun(r) && Sound(r.fleets[0]) && i <= t < |r.events| && k < |r.fleets[i].cells|
    requires StoppingSince(r.fleets[i].cells[k], id, stop) && SeenDown(r, t, k)
    ensures FreedBy(r, k, i, t + 1)
  {
    StillStopping(r, i, t, k, id, stop);
    if StoppingSince(r.fleets[t].cells[k], id, stop) {
      StoppingStep(r, t, k, id, stop);
      assert FreeAt(r, k, t + 1);
    } else {
      FreedLater(r, k, i, i, t, t + 1);
    }
  }
}
