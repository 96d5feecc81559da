/** Two runs from the empty one-slot fleet: an id that loses its remembered slot to a
    smaller one, and a backend that a restart does not revive; and how long a backend
    stays beyond revival. */
module ReconcilerRuns {
  import opened Wrappers
  import opened ReconcilerSlot
  import opened ReconcilerFleet
  import ReconcilerRemoval

  /** The load balancer reports the slot down; no poll finds an exit. */
  const DOWN: Obs := Obs(false, false, false, false, false, true, true)

  const WANTED: Backend := Backend(true, 0)

  function One(s: Slot, undrains: nat, procs: seq<Proc>, memory: map<Id, nat>, desired: Desired,
               pending: set<Id>): Fleet
  {
    Fleet([Cell(s, World(false, undrains, true, procs))], memory, desired, pending)
  }

  /** A slot that has just been given to an id. */
  function Spawned(id: Id, handle: nat): Slot {
    Cleared().(owner := Some(id), phase := Starting, handle := Some(handle), config := Some(0))
  }

  // ------------------------------------------------------------ a remembered slot is taken

  function StolenEvent(i: nat): Event {
    if i == 0 then SetDesired(map[1 := WANTED])
    else if i == 1 then Tick(0, [1], [DOWN])
    else if i == 2 then Exits(0, 0)
    else if i == 3 then SetDesired(map[])
    else if i == 4 then Tick(1, [], [DOWN])
    else if i == 5 then SetDesired(map[0 := WANTED, 1 := WANTED])
    else Tick(2, [0, 1], [DOWN])
  }

  function StolenFleet(i: nat): Fleet {
    if i == 0 then One(Cleared(), 0, [], map[], map[], {})
    else if i == 1 then One(Cleared(), 0, [], map[], map[1 := WANTED], {})
    else if i == 2 then One(Spawned(1, 0), 0, [Running], map[1 := 0], map[1 := WANTED], {})
    else if i == 3 then One(Spawned(1, 0), 0, [Dead], map[1 := 0], map[1 := WANTED], {})
    else if i == 4 then One(Spawned(1, 0), 0, [Dead], map[1 := 0], map[], {})
    else if i == 5 then One(Cleared(), 1, [Dead], map[1 := 0], map[], {})
    else if i == 6 then One(Cleared(), 1, [Dead], map[1 := 0], map[0 := WANTED, 1 := WANTED], {})
    else One(Spawned(0, 1), 1, [Dead, Running], map[0 := 0, 1 := 0], map[0 := WANTED, 1 := WANTED], {1})
  }

  function StolenRun(): (r: Run) {
    Run(seq(7, i requires 0 <= i => StolenEvent(i)), seq(8, i requires 0 <= i => StolenFleet(i)))
  }

  lemma ExitStep(s: Slot, memory: map<Id, nat>, desired: Desired)
    ensures ExitProc(One(s, 0, [Running], memory, desired, {}), 0, 0) == One(s, 0, [Dead], memory, desired, {})
  {
    var f := One(s, 0, [Running], memory, desired, {});
    assert f.cells[0].w.procs[0 := Dead] == [Dead];
    assert ExitProc(f, 0, 0).cells == One(s, 0, [Dead], memory, desired, {}).cells;
  }

  lemma FirstTick(now: int)
    ensures var f := One(Cleared(), 0, [], map[], map[1 := WANTED], {}); var e := Tick(now, [1], [DOWN]);
            EventOk(f, e) && Next(f, e) == One(Spawned(1, 0), 0, [Running], map[1 := 0], map[1 := WANTED], {})
  {
    var f, e := One(Cleared(), 0, [], map[], map[1 := WANTED], {}), Tick(now, [1], [DOWN]);
    assert ActiveIds(f.desired) == {1};
    var g := RemovalPass(f, now, [DOWN]);
    assert g.cells == f.cells;
    assert e.order[..0] == [];
    var h := One(Spawned(1, 0), 0, [Running], map[1 := 0], map[1 := WANTED], {});
    assert AddAll(g, []) == g;
    assert AddOne(g, 1) == h by {
      assert Pick(g.cells, g.memory, 1) == 0;
      assert [] + [Running] == [Running];
    }
    assert ProgressPass(h, now, [DOWN]).cells == h.cells;
  }

  lemma FreeingTick()
    ensures var f := One(Spawned(1, 0), 0, [Dead], map[1 := 0], map[], {}); var e := Tick(1, [], [DOWN]);
            EventOk(f, e) && Next(f, e) == One(Cleared(), 1, [Dead], map[1 := 0], map[], {})
  {
    var f := One(Spawned(1, 0), 0, [Dead], map[1 := 0], map[], {});
    assert ActiveIds(f.desired) == {};
    var stopping := Spawned(1, 0).(removing := true, phase := Stopping, stopSince := Some(1));
    var g := One(stopping, 0, [Dead], map[1 := 0], map[], {});
    assert RemovalPass(f, 1, [DOWN]).cells == g.cells;
    assert ProgressPass(g, 1, [DOWN]).cells == One(Cleared(), 1, [Dead], map[1 := 0], map[], {}).cells;
  }

  lemma StealingAdditions(want: Desired)
    requires want == map[0 := WANTED, 1 := WANTED]
    ensures AddAll(One(Cleared(), 1, [Dead], map[1 := 0], want, {}), [0, 1])
            == One(Spawned(0, 1), 1, [Dead, Running], map[0 := 0, 1 := 0], want, {1})
  {
    var g := One(Cleared(), 1, [Dead], map[1 := 0], want, {});
    var h := One(Spawned(0, 1), 1, [Dead, Running], map[0 := 0, 1 := 0], want, {});
    assert AddOne(g, 0) == h by {
      assert Pick(g.cells, g.memory, 0) == 0;
      assert map[1 := 0][0 := 0] == map[0 := 0, 1 := 0];
      assert [Dead] + [Running] == [Dead, Running];
    }
    assert AddOne(h, 1) == h.(pending := {1});
    var order: seq<Id> := [0, 1];
    assert order[..1] == [0] && order[..1][..0] == [];
    assert AddAll(g, order[..1]) == AddOne(AddAll(g, []), 0);
  }

  lemma StealingOrder(want: Desired)
    requires want == map[0 := WANTED, 1 := WANTED]
    ensures Sorts([0, 1], ActiveIds(want))
  {
    assert ActiveIds(want) == {0, 1};
  }

  /** Neither pass touches the only slot when it is free or was just given away. */
  lemma QuietPasses(now: int, f: Fleet, h: Fleet, id: Id, handle: nat)
    requires |f.cells| == 1 && f.cells[0].s == Cleared() && f.pending == {}
    requires |h.cells| == 1 && h.cells[0].s == Spawned(id, handle) && Alive(h.cells[0])
    requires id in h.desired && h.desired[id] == WANTED
    ensures RemovalPass(f, now, [DOWN]) == f && ProgressPass(h, now, [DOWN]) == h
  {
    assert RemovalPass(f, now, [DOWN]).cells == f.cells;
    assert Progress(h.cells[0], h.desired, now, DOWN) == h.cells[0];
    assert ProgressPass(h, now, [DOWN]).cells == h.cells;
  }

  lemma StealingTick()
    ensures var want := map[0 := WANTED, 1 := WANTED];
            var f := One(Cleared(), 1, [Dead], map[1 := 0], want, {}); var e := Tick(2, [0, 1], [DOWN]);
            EventOk(f, e) && Next(f, e) == One(Spawned(0, 1), 1, [Dead, Running], map[0 := 0, 1 := 0], want, {1})
  {
    var want := map[0 := WANTED, 1 := WANTED];
    var f := One(Cleared(), 1, [Dead], map[1 := 0], want, {});
    var h := One(Spawned(0, 1), 1, [Dead, Running], map[0 := 0, 1 := 0], want, {1});
    StealingOrder(want);
    QuietPasses(2, f, h, 0, 1);
    StealingAdditions(want);
  }

  lemma StolenStep(i: nat)
    requires i < 7
    ensures EventOk(StolenFleet(i), StolenEvent(i)) && StolenFleet(i + 1) == Next(StolenFleet(i), StolenEvent(i))
  {
    if i == 1 {
      FirstTick(0);
    } else if i == 2 {
      ExitStep(Spawned(1, 0), map[1 := 0], map[1 := WANTED]);
    } else if i == 4 {
      FreeingTick();
    } else if i == 6 {
      StealingTick();
    }
  }

  /** Id 1 remembers slot 0 and slot 0 is free, but id 0 is added in the same step and
      takes it, so id 1 waits. */
  lemma RememberedSlotStolen()
    ensures var r := StolenRun();
            && IsRun(r) && r.fleets[0] == InitialFleet(1)
            && r.fleets[6].memory == map[1 := 0] && r.fleets[6].cells[0].s.phase == Free
            && r.fleets[7].cells[0].s.owner == Some(0) && r.fleets[7].pending == {1}
  {
    var r := StolenRun();
    assert r.fleets[0].cells == InitialFleet(1).cells;
    forall i: nat | i < |r.events|
      ensures StepAt(r, i)
    {
      StolenStep(i);
    }
  }

  // ------------------------------------------------------------ a restart that does nothing

  function Slowed(): Slot {
    Spawned(1, 0).(fault := Some(Slow(2)))
  }

  function DeadEvent(i: nat): Event {
    if i == 0 then SetDesired(map[1 := WANTED])
    else if i == 1 then Tick(0, [1], [DOWN])
    else if i == 2 then ActOn(1, DoSlow(2), false)
    else if i == 3 then Exits(0, 0)
    else if i == 4 then Tick(1, [1], [DOWN])
    else ActOn(1, DoRestart, false)
  }

  function DeadFleet(i: nat): Fleet {
    var want: Desired := map[1 := WANTED];
    if i == 0 then One(Cleared(), 0, [], map[], map[], {})
    else if i == 1 then One(Cleared(), 0, [], map[], want, {})
    else if i == 2 then One(Spawned(1, 0), 0, [Running], map[1 := 0], want, {})
    else if i == 3 then One(Slowed(), 0, [Running], map[1 := 0], want, {})
    else if i == 4 then One(Slowed(), 0, [Dead], map[1 := 0], want, {})
    else if i == 5 then One(Slowed().(phase := Crashed), 0, [Dead], map[1 := 0], want, {})
    else One(Spawned(1, 0).(phase := Crashed), 0, [Dead], map[1 := 0], want, {})
  }

  function DeadRun(): (r: Run) {
    Run(seq(6, i requires 0 <= i => DeadEvent(i)), seq(7, i requires 0 <= i => DeadFleet(i)))
  }

  /** An action on the only slot. */
  lemma ActStep(s: Slot, procs: seq<Proc>, a: Action, after: Slot)
    requires s.owner == Some(1) && !s.removing
    requires Act(Cell(s, World(false, 0, true, procs)), a, map[1 := WANTED], false)
             == Cell(after, World(false, 0, true, procs))
    ensures ActFleet(One(s, 0, procs, map[1 := 0], map[1 := WANTED], {}), 1, a, false).0
            == One(after, 0, procs, map[1 := 0], map[1 := WANTED], {})
  {
    var f := One(s, 0, procs, map[1 := 0], map[1 := WANTED], {});
    assert OwnedFrom(f.cells, 1, 0) == 0;
    assert ActFleet(f, 1, a, false).0.cells == One(after, 0, procs, map[1 := 0], map[1 := WANTED], {}).cells;
  }

  lemma CrashedTick()
    ensures var want: Desired := map[1 := WANTED]; var slow := Slowed();
            var f := One(slow, 0, [Dead], map[1 := 0], want, {}); var e := Tick(1, [1], [DOWN]);
            EventOk(f, e) && Next(f, e) == One(slow.(phase := Crashed), 0, [Dead], map[1 := 0], want, {})
  {
    var want: Desired := map[1 := WANTED];
    var slow := Slowed();
    var f := One(slow, 0, [Dead], map[1 := 0], want, {});
    assert ActiveIds(want) == {1};
    var order: seq<Id> := [1];
    assert order[..0] == [];
    var g := RemovalPass(f, 1, [DOWN]);
    assert g.cells == f.cells;
    assert AddAll(g, []) == g;
    assert AddAll(g, order) == g;
    assert ProgressPass(g, 1, [DOWN]).cells == One(slow.(phase := Crashed), 0, [Dead], map[1 := 0], want, {}).cells;
  }

  lemma DeadStep(i: nat)
    requires i < 6
    ensures EventOk(DeadFleet(i), DeadEvent(i)) && DeadFleet(i + 1) == Next(DeadFleet(i), DeadEvent(i))
  {
    if i == 1 {
      FirstTick(0);
    } else if i == 2 {
      ActStep(Spawned(1, 0), [Running], DoSlow(2), Slowed());
    } else if i == 3 {
      ExitStep(Slowed(), map[1 := 0], map[1 := WANTED]);
    } else if i == 4 {
      CrashedTick();
    } else if i == 5 {
      ActStep(Slowed().(phase := Crashed), [Dead], DoRestart, Spawned(1, 0).(phase := Crashed));
    }
  }

  /** The process of a slowed-down backend dies. The step marks it crashed but keeps the
      fault it had, so the restart clears the fault and starts nothing. */
  lemma RestartLeavesDead()
    ensures var r := DeadRun();
            && IsRun(r) && r.fleets[0] == InitialFleet(1)
            && r.events[5] == ActOn(1, DoRestart, false) && Active(r.fleets[5].desired, 1)
            && Stuck(r.fleets[5].cells[0], 1) && Stuck(r.fleets[6].cells[0], 1)
  {
    var r := DeadRun();
    assert r.fleets[0].cells == InitialFleet(1).cells;
    forall i: nat | i < |r.events|
      ensures StepAt(r, i)
    {
      DeadStep(i);
    }
  }

  // ------------------------------------------------------------ how long it stays dead

  /** Crashed, with no process and with a fault that no restart or reset answers by
      spawning one. */
  predicate Stuck(c: Cell, id: Id) {
    c.s.owner == Some(id) && c.s.phase == Crashed && !c.s.removing && !Alive(c) && c.s.fault != Some(Crash)
  }

  lemma StuckAct(c: Cell, id: Id, a: Action, desired: Desired, exited: bool)
    requires CellOk(c) && Stuck(c, id)
    ensures Stuck(Act(c, a, desired, exited), id) <==> a != DoCrash
  {
  }

  lemma StuckReset(c: Cell, id: Id, desired: Desired)
    requires CellOk(c) && Stuck(c, id)
    ensures Stuck(Reset(c, desired), id)
  {
  }

  lemma StuckTick(c: Cell, id: Id, desired: Desired, now: int, o: Obs)
    requires CellOk(c) && Stuck(c, id)
    ensures Stuck(Progress(Removal(c, desired, now, o), desired, now, o), id) <==> Active(desired, id)
  {
    if Active(desired, id) {
      assert Removal(c, desired, now, o) == c;
    } else {
      assert Removal(c, desired, now, o).s.phase == Stopping;
    }
  }

  /** The event takes a stuck backend out of that state: a crash action that is carried
      out, or a step that finds the id unwanted and begins its removal. */
  predicate Unsticks(f: Fleet, e: Event, id: Id) {
    || (e.ActOn? && e.id == id && e.action == DoCrash && id in f.desired)
    || (e.Tick? && !Active(f.desired, id))
  }

  lemma StuckOwner(f: Fleet, k: nat, id: Id)
    requires Sound(f) && k < |f.cells| && f.cells[k].s.owner == Some(id)
    ensures OwnedFrom(f.cells, id, 0) == k
  {
  }

  lemma StuckNext(f: Fleet, e: Event, k: nat, id: Id)
    requires Sound(f) && EventOk(f, e) && k < |f.cells| && Stuck(f.cells[k], id)
    ensures Stuck(Next(f, e).cells[k], id) <==> !Unsticks(f, e, id)
  {
    assert CellAt(f, k);
    match e
    case SetDesired(d) =>
    case ActOn(other, a, exited) =>
      StuckOwner(f, k, id);
      StuckAct(f.cells[k], id, a, f.desired, exited);
    case ResetAll =>
      StuckReset(f.cells[k], id, f.desired);
    case Tick(now, order, obs) =>
      ReconcilerRemoval.TickCell(f, e, k);
      StuckTick(f.cells[k], id, f.desired, now, obs[k]);
    case Exits(slot, proc) =>
  }

  /** Whatever else happens, restarts and resets included, a stuck backend stays dead until
      a crash action or its removal. */
  lemma {:induction false} StuckStays(r: Run, i: nat, j: nat, k: nat, id: Id)
    requires IsRun(r) && Sound(r.fleets[0]) && i <= j <= |r.events| && k < |r.fleets[i].cells|
    requires Stuck(r.fleets[i].cells[k], id)
    requires forall t: nat :: i <= t < j ==> !Unsticks(r.fleets[t], r.events[t], id)
    ensures k < |r.fleets[j].cells| && Stuck(r.fleets[j].cells[k], id)
    decreases j
  {
    if i < j {
      StuckStays(r, i, j - 1, k, id);
      RunSound(r, j - 1);
      assert StepAt(r, j - 1);
      StuckNext(r.fleets[j - 1], r.events[j - 1], k, id);
    }
  }

  /** The way back: crash it, then restart it. */
  lemma CrashThenRestart(c: Cell, id: Id, desired: Desired, exited: bool, exited': bool)
    requires CellOk(c) && Stuck(c, id) && id in desired
    ensures Alive(Act(Act(c, DoCrash, desired, exited), DoRestart, desired, exited'))
  {
    var c1 := Act(c, DoCrash, desired, exited);
    ActOk(c, DoCrash, desired, exited);
    assert c1.s.fault == Some(Crash) && c1.s.owner == Some(id);
  }
}
