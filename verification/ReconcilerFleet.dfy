/** All backend slots of the reconciler: assignment of canvas ids to slots, the
    three passes of a step, and what every run of commands, steps and process
    exits keeps. */
module ReconcilerFleet {
  import opened Wrappers
  import opened ReconcilerSlot

  datatype Fleet = Fleet(cells: seq<Cell>, memory: map<Id, nat>, desired: Desired, pending: set<Id>)

  function InitialFleet(n: nat): (f: Fleet) {
    Fleet(seq(n, _ => Cell(Cleared(), World(false, 0, true, []))), map[], map[], {})
  }

  /** `slot_of`: the slot an id owns, or |cells|. */
  function OwnedFrom(cells: seq<Cell>, id: Id, from: nat): (k: nat)
    requires from <= |cells|
    ensures from <= k <= |cells|
    ensures k < |cells| ==> cells[k].s.owner == Some(id)
    ensures forall i :: from <= i < k ==> cells[i].s.owner != Some(id)
    decreases |cells| - from
  {
    if from == |cells| || cells[from].s.owner == Some(id) then from else OwnedFrom(cells, id, from + 1)
  }

  function FreeFrom(cells: seq<Cell>, from: nat): (k: nat)
    requires from <= |cells|
    ensures from <= k <= |cells|
    ensures k < |cells| ==> cells[k].s.phase == Free
    ensures forall i :: from <= i < k ==> cells[i].s.phase != Free
    decreases |cells| - from
  {
    if from == |cells| || cells[from].s.phase == Free then from else FreeFrom(cells, from + 1)
  }

  /** The remembered slot if it is free, else the first free one, else |cells|. */
  function Pick(cells: seq<Cell>, memory: map<Id, nat>, id: Id): (k: nat)
    ensures k <= |cells|
    ensures k < |cells| ==> cells[k].s.phase == Free
    ensures k == |cells| ==> forall i :: 0 <= i < |cells| ==> cells[i].s.phase != Free
  {
    if id in memory && memory[id] < |cells| && cells[memory[id]].s.phase == Free then memory[id] else FreeFrom(cells, 0)
  }

  /** One round of the addition loop. */
  function AddOne(f: Fleet, id: Id): (g: Fleet)
    requires id in f.desired
    ensures |g.cells| == |f.cells| && g.desired == f.desired
  {
    if OwnedFrom(f.cells, id, 0) < |f.cells| then f else
      var k := Pick(f.cells, f.memory, id);
      if k == |f.cells| then f.(pending := f.pending + {id})
      else f.(cells := f.cells[k := Assign(f.cells[k], id, f.desired[id].cfg)], memory := f.memory[id := k])
  }

  function AddAll(f: Fleet, ids: seq<Id>): (g: Fleet)
    requires forall id :: id in ids ==> id in f.desired
    ensures |g.cells| == |f.cells| && g.desired == f.desired
  {
    if ids == [] then f else AddOne(AddAll(f, ids[..|ids| - 1]), ids[|ids| - 1])
  }

  function RemovalPass(f: Fleet, now: int, obs: seq<Obs>): (g: Fleet)
    requires |obs| == |f.cells|
    ensures |g.cells| == |f.cells| && g.desired == f.desired
  {
    f.(cells := seq(|f.cells|, i requires 0 <= i < |f.cells| => Removal(f.cells[i], f.desired, now, obs[i])),
       pending := {})
  }

  function ProgressPass(f: Fleet, now: int, obs: seq<Obs>): (g: Fleet)
    requires |obs| == |f.cells|
    ensures |g.cells| == |f.cells| && g.desired == f.desired
  {
    f.(cells := seq(|f.cells|, i requires 0 <= i < |f.cells| => Progress(f.cells[i], f.desired, now, obs[i])))
  }

  function ActiveIds(desired: Desired): (s: set<Id>) {
    set id | id in desired && desired[id].attached
  }

  /** The ids in increasing order, as `sorted` lists them. */
  ghost predicate Sorts(ids: seq<Id>, s: set<Id>) {
    && (forall i, j :: 0 <= i < j < |ids| ==> ids[i] < ids[j])
    && (forall id :: id in ids <==> id in s)
  }

  /** `_step_backends`; `order` is the sorted list of active ids. */
  function StepBackends(f: Fleet, order: seq<Id>, now: int, obs: seq<Obs>): (g: Fleet)
    requires |obs| == |f.cells| && forall id :: id in order ==> id in f.desired
    ensures |g.cells| == |f.cells| && g.desired == f.desired
  {
    ProgressPass(AddAll(RemovalPass(f, now, obs), order), now, obs)
  }

  // ------------------------------------------------------------ invariant

  ghost predicate CellAt(f: Fleet, i: nat)
    requires i < |f.cells|
  {
    CellOk(f.cells[i])
  }

  /** No id owns two slots. */
  ghost predicate OneSlotEach(cells: seq<Cell>) {
    forall i, j :: 0 <= i < j < |cells| && cells[i].s.owner.Some? ==> cells[i].s.owner != cells[j].s.owner
  }

  ghost predicate Sound(f: Fleet) {
    (forall i: nat :: i < |f.cells| ==> CellAt(f, i)) && OneSlotEach(f.cells)
  }

  lemma InitialSound(n: nat)
    ensures Sound(InitialFleet(n))
  {
  }

  /** Passes that keep or release owners keep the invariant. */
  lemma CellwiseSound(f: Fleet, g: Fleet)
    requires Sound(f) && |g.cells| == |f.cells|
    requires forall i: nat :: i < |f.cells| ==> CellAt(g, i)
    requires forall i: nat :: i < |f.cells| ==> g.cells[i].s.owner == f.cells[i].s.owner || g.cells[i].s.owner.None?
    ensures Sound(g)
  {
  }

  lemma OneCellSound(f: Fleet, k: nat, c: Cell)
    requires Sound(f) && k < |f.cells| && CellOk(c) && c.s.owner == f.cells[k].s.owner
    ensures Sound(f.(cells := f.cells[k := c]))
  {
    var g := f.(cells := f.cells[k := c]);
    forall i: nat | i < |f.cells|
      ensures CellAt(g, i)
    {
      assert CellAt(f, i);
    }
    CellwiseSound(f, g);
  }

  lemma RemovalPassSound(f: Fleet, now: int, obs: seq<Obs>)
    requires Sound(f) && |obs| == |f.cells|
    ensures Sound(RemovalPass(f, now, obs))
  {
    var g := RemovalPass(f, now, obs);
    forall i: nat | i < |f.cells|
      ensures CellAt(g, i) && g.cells[i].s.owner == f.cells[i].s.owner
    {
      assert CellAt(f, i);
      RemovalOk(f.cells[i], f.desired, now, obs[i]);
    }
    CellwiseSound(f, g);
  }

  lemma ProgressPassSound(f: Fleet, now: int, obs: seq<Obs>)
    requires Sound(f) && |obs| == |f.cells|
    ensures Sound(ProgressPass(f, now, obs))
  {
    var g := ProgressPass(f, now, obs);
    forall i: nat | i < |f.cells|
      ensures CellAt(g, i) && (g.cells[i].s.owner == f.cells[i].s.owner || g.cells[i].s.owner.None?)
    {
      assert CellAt(f, i);
      ProgressOk(f.cells[i], f.desired, now, obs[i]);
    }
    CellwiseSound(f, g);
  }

  lemma AddOneSound(f: Fleet, id: Id)
    requires Sound(f) && id in f.desired
    ensures Sound(AddOne(f, id))
  {
    var k := Pick(f.cells, f.memory, id);
    var g := AddOne(f, id);
    if OwnedFrom(f.cells, id, 0) == |f.cells| && k < |f.cells| {
      assert CellAt(f, k);
      AssignOk(f.cells[k], id, f.desired[id].cfg);
    }
    forall i: nat | i < |g.cells|
      ensures CellAt(g, i)
    {
      assert CellAt(f, i);
    }
  }

  lemma {:induction false} AddAllSound(f: Fleet, ids: seq<Id>)
    requires Sound(f) && forall id :: id in ids ==> id in f.desired
    ensures Sound(AddAll(f, ids))
  {
    if ids != [] {
      AddAllSound(f, ids[..|ids| - 1]);
      AddOneSound(AddAll(f, ids[..|ids| - 1]), ids[|ids| - 1]);
    }
  }

  // ------------------------------------------------------------ runs

  datatype Event =
    | SetDesired(desired: Desired)
    | ActOn(id: Id, action: Action, exited: bool)
    | ResetAll
    | Tick(now: int, order: seq<Id>, obs: seq<Obs>)
    | Exits(slot: nat, proc: nat)

  ghost predicate EventOk(f: Fleet, e: Event) {
    e.Tick? ==> |e.obs| == |f.cells| && Sorts(e.order, ActiveIds(f.desired))
  }

  /** `action`: rejected unless the id is a running, wanted backend. */
  function ActFleet(f: Fleet, id: Id, a: Action, exited: bool): (r: (Fleet, bool))
  {
    var k := OwnedFrom(f.cells, id, 0);
    if k == |f.cells| || id !in f.desired || f.cells[k].s.removing then (f, false)
    else (f.(cells := f.cells[k := Act(f.cells[k], a, f.desired, exited)]), true)
  }

  function ResetFleet(f: Fleet): (g: Fleet)
    ensures |g.cells| == |f.cells|
  {
    f.(cells := seq(|f.cells|, i requires 0 <= i < |f.cells| => Reset(f.cells[i], f.desired)))
  }

  /** A process exits on its own. */
  function ExitProc(f: Fleet, slot: nat, proc: nat): Fleet {
    if slot < |f.cells| && proc < |f.cells[slot].w.procs|
    then var c := f.cells[slot]; f.(cells := f.cells[slot := c.(w := c.w.(procs := c.w.procs[proc := Dead]))])
    else f
  }

  function Next(f: Fleet, e: Event): (g: Fleet)
    requires EventOk(f, e)
    ensures |g.cells| == |f.cells|
  {
    match e
    case SetDesired(d) => f.(desired := d)
    case ActOn(id, a, exited) => ActFleet(f, id, a, exited).0
    case ResetAll => ResetFleet(f)
    case Tick(now, order, obs) => StepBackends(f, order, now, obs)
    case Exits(slot, proc) => ExitProc(f, slot, proc)
  }

  lemma NextSound(f: Fleet, e: Event)
    requires Sound(f) && EventOk(f, e)
    ensures Sound(Next(f, e))
  {
    match e
    case SetDesired(d) =>
      assert forall i: nat :: i < |f.cells| ==> (CellAt(f, i) ==> CellAt(Next(f, e), i));
    case ActOn(id, a, exited) =>
      var k := OwnedFrom(f.cells, id, 0);
      if k < |f.cells| && id in f.desired && !f.cells[k].s.removing {
        assert CellAt(f, k);
        ActOk(f.cells[k], a, f.desired, exited);
        OneCellSound(f, k, Act(f.cells[k], a, f.desired, exited));
      }
    case ResetAll =>
      var g := ResetFleet(f);
      forall i: nat | i < |f.cells|
        ensures CellAt(g, i) && g.cells[i].s.owner == f.cells[i].s.owner
      {
        assert CellAt(f, i);
        ResetOk(f.cells[i], f.desired);
      }
      CellwiseSound(f, g);
    case Tick(now, order, obs) =>
      RemovalPassSound(f, now, obs);
      AddAllSound(RemovalPass(f, now, obs), order);
      ProgressPassSound(AddAll(RemovalPass(f, now, obs), order), now, obs);
    case Exits(slot, proc) =>
      if slot < |f.cells| && proc < |f.cells[slot].w.procs| {
        assert CellAt(f, slot);
        var c := f.cells[slot];
        OneCellSound(f, slot, c.(w := c.w.(procs := c.w.procs[proc := Dead])));
      }
  }

  /** The fleet before each event and after the last. */
  datatype Run = Run(events: seq<Event>, fleets: seq<Fleet>)

  ghost predicate StepAt(r: Run, i: nat)
    requires |r.fleets| == |r.events| + 1 && i < |r.events|
  {
    EventOk(r.fleets[i], r.events[i]) && r.fleets[i + 1] == Next(r.fleets[i], r.events[i])
  }

  ghost predicate IsRun(r: Run) {
    |r.fleets| == |r.events| + 1 && forall i: nat :: i < |r.events| ==> StepAt(r, i)
  }

  /** Every run from a sound fleet stays sound. */
  lemma {:induction false} RunSound(r: Run, i: nat)
    requires IsRun(r) && i <= |r.events| && Sound(r.fleets[0])
    ensures Sound(r.fleets[i])
  {
    if i > 0 {
      RunSound(r, i - 1);
      assert StepAt(r, i - 1);
      NextSound(r.fleets[i - 1], r.events[i - 1]);
    }
  }

  /** What every reachable fleet satisfies, whatever the observations were. */
  lemma ReachableFleet(r: Run, n: nat, i: nat, k: nat)
    requires IsRun(r) && r.fleets[0] == InitialFleet(n) && i <= |r.events| && k < |r.fleets[i].cells|
    ensures var cells := r.fleets[i].cells;
            var c := cells[k];
            && (c.s.owner.None? <==> c.s.phase == Free)
            && (forall j :: 0 <= j < |cells| && j != k && c.s.owner.Some? ==> cells[j].s.owner != c.s.owner)
            && (!c.s.removing ==> (c.w.drained <==> c.s.manualDrain))
            && (!c.w.greUp <==> c.s.partitioned) && (c.s.partitioned <==> c.s.fault == Some(Partition))
            && (c.s.phase == Free ==>
                  !c.w.drained && c.w.greUp && forall p :: 0 <= p < |c.w.procs| ==> c.w.procs[p] != Running)
            && (forall p :: 0 <= p < |c.w.procs| && c.s.handle != Some(p) ==> c.w.procs[p] != Running)
  {
    InitialSound(n);
    RunSound(r, i);
    assert CellAt(r.fleets[i], k);
    FreeOrNot(r.fleets[i].cells[k]);
  }

  lemma FreeOrNot(c: Cell)
    requires CellOk(c)
    ensures c.s.phase == Free ==>
              !c.w.drained && c.w.greUp && forall p :: 0 <= p < |c.w.procs| ==> c.w.procs[p] != Running
  {
    if c.s.phase == Free {
      FreeSlotIsClean(c);
    }
  }
}
