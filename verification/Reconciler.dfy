/** The `Reconciler` object (bridge/reconciler.py), updating its slots in place. */
module Reconciler {
  import opened Wrappers
  import opened ReconcilerSlot
  import opened ReconcilerFleet

  /** `sorted(s)` */
  method SortIds(s: set<Id>) returns (ids: seq<Id>)
    ensures Sorts(ids, s)
  {
    ids := [];
    var rest := s;
    while rest != {}
      invariant rest <= s
      invariant forall i, j :: 0 <= i < j < |ids| ==> ids[i] < ids[j]
      invariant forall id :: id in ids <==> id in s - rest
      invariant forall i, x :: 0 <= i < |ids| && x in rest ==> ids[i] < x
      decreases |rest|
    {
      var m := Least(rest);
      ids := ids + [m];
      rest := rest - {m};
    }
  }

  method Least(s: set<Id>) returns (m: Id)
    requires s != {}
    ensures m in s && forall x :: x in s ==> m <= x
  {
    m :| m in s;
    var seen, rest := {m}, s - {m};
    while rest != {}
      invariant seen + rest == s && m in seen && forall x :: x in seen ==> m <= x
      decreases |rest|
    {
      var x :| x in rest;
      if x < m {
        m := x;
      }
      seen, rest := seen + {x}, rest - {x};
    }
    assert seen == s;
  }

  class ReconcilerLoop {
    const cells: array<Cell>
    var memory: map<Id, nat>
    var desired: Desired
    var pending: set<Id>

    ghost function Abs(): (f: Fleet)
      reads this, cells
    {
      Fleet(cells[..], memory, desired, pending)
    }

    constructor (n: nat)
      ensures fresh(cells) && Abs() == InitialFleet(n)
    {
      cells := new Cell[n](_ => Cell(Cleared(), World(false, 0, true, [])));
      memory, desired, pending := map[], map[], {};
    }

    /** `slot_of` */
    method SlotOf(id: Id) returns (k: nat)
      ensures k == OwnedFrom(cells[..], id, 0)
    {
      k := 0;
      while k < cells.Length
        invariant k <= cells.Length && OwnedFrom(cells[..], id, 0) == OwnedFrom(cells[..], id, k)
      {
        if cells[k].s.owner == Some(id) {
          return;
        }
        k := k + 1;
      }
    }

    method FirstFree() returns (k: nat)
      ensures k == FreeFrom(cells[..], 0)
    {
      k := 0;
      while k < cells.Length
        invariant k <= cells.Length && FreeFrom(cells[..], 0) == FreeFrom(cells[..], k)
      {
        if cells[k].s.phase == Free {
          return;
        }
        k := k + 1;
      }
    }

    method SetDesired(d: Desired)
      modifies this`desired
      ensures Abs() == old(Abs()).(desired := d)
    {
      desired := d;
    }

    /** `action`; false stands for ActionError. */
    method Perform(id: Id, a: Action, exited: bool) returns (accepted: bool)
      modifies cells
      ensures (Abs(), accepted) == ActFleet(old(Abs()), id, a, exited)
    {
      var k := SlotOf(id);
      if k == cells.Length || id !in desired || cells[k].s.removing {
        return false;
      }
      cells[k] := Act(cells[k], a, desired, exited);
      return true;
    }

    method ResetAll()
      modifies cells
      ensures Abs() == ResetFleet(old(Abs()))
    {
      for i := 0 to cells.Length
        invariant forall k :: 0 <= k < i ==> cells[k] == Reset(old(cells[k]), desired)
        invariant forall k :: i <= k < cells.Length ==> cells[k] == old(cells[k])
      {
        cells[i] := Reset(cells[i], desired);
      }
      assert Abs().cells == ResetFleet(old(Abs())).cells;
    }

    method RemoveAndCancel(now: int, obs: seq<Obs>)
      requires |obs| == cells.Length
      modifies cells, this`pending
      ensures Abs() == RemovalPass(old(Abs()), now, obs)
    {
      for i := 0 to cells.Length
        invariant forall k :: 0 <= k < i ==> cells[k] == Removal(old(cells[k]), desired, now, obs[k])
        invariant forall k :: i <= k < cells.Length ==> cells[k] == old(cells[k])
      {
        cells[i] := Removal(cells[i], desired, now, obs[i]);
      }
      pending := {};
      assert Abs().cells == RemovalPass(old(Abs()), now, obs).cells;
    }

    method AddId(id: Id)
      requires id in desired
      modifies cells, this`memory, this`pending
      ensures Abs() == AddOne(old(Abs()), id)
    {
      var k := SlotOf(id);
      if k < cells.Length {
        return;
      }
      if id in memory && memory[id] < cells.Length && cells[memory[id]].s.phase == Free {
        k := memory[id];
      } else {
        k := FirstFree();
      }
      if k == cells.Length {
        pending := pending + {id};
        return;
      }
      memory := memory[id := k];
      cells[k] := Assign(cells[k], id, desired[id].cfg);
    }

    method AddActive(order: seq<Id>)
      requires forall id :: id in order ==> id in desired
      modifies cells, this`memory, this`pending
      ensures Abs() == AddAll(old(Abs()), order)
    {
      assert order[..0] == [];
      for i := 0 to |order|
        invariant desired == old(desired) && Abs() == AddAll(old(Abs()), order[..i])
      {
        assert order[..i + 1][..i] == order[..i];
        AddId(order[i]);
      }
      assert order[..|order|] == order;
    }

    method ProgressAll(now: int, obs: seq<Obs>)
      requires |obs| == cells.Length
      modifies cells
      ensures Abs() == ProgressPass(old(Abs()), now, obs)
    {
      for i := 0 to cells.Length
        invariant forall k :: 0 <= k < i ==> cells[k] == Progress(old(cells[k]), desired, now, obs[k])
        invariant forall k :: i <= k < cells.Length ==> cells[k] == old(cells[k])
      {
        cells[i] := Progress(cells[i], desired, now, obs[i]);
      }
      assert Abs().cells == ProgressPass(old(Abs()), now, obs).cells;
    }

    /** `_step_backends`; the sorted order it used is returned for the record. */
    method Step(now: int, obs: seq<Obs>) returns (order: seq<Id>)
      requires |obs| == cells.Length
      modifies cells, this`memory, this`pending
      ensures Sorts(order, ActiveIds(old(desired)))
      ensures Abs() == StepBackends(old(Abs()), order, now, obs)
    {
      RemoveAndCancel(now, obs);
      order := SortIds(ActiveIds(desired));
      AddActive(order);
      ProgressAll(now, obs);
    }
  }
}
