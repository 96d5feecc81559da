/** Who gets which slot, and who waits, over whole steps of the reconciler. */
module ReconcilerAdditions {
  import opened Wrappers
  import opened ReconcilerSlot
  import opened ReconcilerFleet
  import opened ReconcilerRemoval

  predicate Owns(f: Fleet, id: Id) {
    OwnedFrom(f.cells, id, 0) < |f.cells|
  }

  lemma OwnsIff(f: Fleet, id: Id)
    ensures Owns(f, id) <==> exists i :: 0 <= i < |f.cells| && f.cells[i].s.owner == Some(id)
  {
    if Owns(f, id) {
      assert f.cells[OwnedFrom(f.cells, id, 0)].s.owner == Some(id);
    }
  }

  lemma AddOneOwns(f: Fleet, id: Id, x: Id)
    requires Sound(f) && id in f.desired
    ensures Owns(f, x) ==> Owns(AddOne(f, id), x)
    ensures Owns(AddOne(f, id), id) || id in AddOne(f, id).pending
  {
    var g := AddOne(f, id);
    OwnsIff(f, x);
    OwnsIff(g, x);
    OwnsIff(g, id);
    var k := Pick(f.cells, f.memory, id);
    if Owns(f, x) {
      var i :| 0 <= i < |f.cells| && f.cells[i].s.owner == Some(x);
      AddOneKeepsOwned(f, id, i);
    }
    if !Owns(f, id) && k < |f.cells| {
      assert g.cells[k].s.owner == Some(id);
    }
  }

  /** After the addition pass every active id has a slot or is pending, and an id
      is pending only when no slot is free. */
  lemma {:induction false} AdditionsComplete(f: Fleet, ids: seq<Id>)
    requires Sound(f) && f.pending == {} && forall id :: id in ids ==> id in f.desired
    ensures var g := AddAll(f, ids);
            && Sound(g)
            && (forall id :: id in ids ==> Owns(g, id) || id in g.pending)
            && (g.pending != {} ==> forall i :: 0 <= i < |g.cells| ==> g.cells[i].s.phase != Free)
  {
    if ids != [] {
      var rest, last := ids[..|ids| - 1], ids[|ids| - 1];
      AdditionsComplete(f, rest);
      var g := AddAll(f, rest);
      AddOneSound(g, last);
      forall id | id in ids
        ensures Owns(AddOne(g, last), id) || id in AddOne(g, last).pending
      {
        AddOneOwns(g, last, id);
        assert id in rest || id == last;
      }
    }
  }

  /** What one progress pass does to a slot that is taken. */
  lemma ProgressFrees(c: Cell, desired: Desired, now: int, o: Obs)
    requires CellOk(c)
    ensures var c' := Progress(c, desired, now, o);
            && (c'.s.phase == Free <==> c'.s.owner.None?)
            && (c.s.phase != Stopping ==> c'.s.owner == c.s.owner)
            && (c'.s.owner == c.s.owner || c'.s.owner.None?)
  {
    ProgressOk(c, desired, now, o);
  }

  /** The fleet between the addition pass and the progress pass of a tick. */
  function Placed(f: Fleet, e: Event): (g: Fleet)
    requires e.Tick? && |e.obs| == |f.cells| && forall id :: id in e.order ==> id in f.desired
    ensures |g.cells| == |f.cells|
  {
    AddAll(RemovalPass(f, e.now, e.obs), e.order)
  }

  lemma PlacedSound(f: Fleet, e: Event)
    requires Sound(f) && EventOk(f, e) && e.Tick?
    ensures Sound(Placed(f, e)) && Next(f, e) == ProgressPass(Placed(f, e), e.now, e.obs)
  {
    RemovalPassSound(f, e.now, e.obs);
    AddAllSound(RemovalPass(f, e.now, e.obs), e.order);
  }

  /** Slot k was stopping for this id, and the step freed it. */
  ghost predicate FreedHere(f: Fleet, e: Event, id: Id, k: nat)
    requires e.Tick? && EventOk(f, e)
  {
    k < |f.cells| && Placed(f, e).cells[k].s.owner == Some(id) && Placed(f, e).cells[k].s.phase == Stopping
    && Next(f, e).cells[k].s.phase == Free
  }

  /** After a step every active id has a slot, or waits, or just lost a slot that was
      still stopping; and while an id waits, the only free slots are those that this
      step freed after its additions. */
  lemma StepPlaces(f: Fleet, e: Event)
    requires Sound(f) && e.Tick? && EventOk(f, e)
    ensures forall id :: Active(f.desired, id) ==>
              Owns(Next(f, e), id) || id in Next(f, e).pending || exists k :: FreedHere(f, e, id, k)
    ensures Next(f, e).pending != {} ==>
              forall k :: 0 <= k < |f.cells| && Next(f, e).cells[k].s.phase == Free ==>
                Placed(f, e).cells[k].s.phase == Stopping
  {
    var mid, g := Placed(f, e), Next(f, e);
    PlacedSound(f, e);
    RemovalPassSound(f, e.now, e.obs);
    AdditionsComplete(RemovalPass(f, e.now, e.obs), e.order);
    forall k: nat | k < |f.cells|
      ensures mid.cells[k].s.phase != Stopping ==> g.cells[k].s.owner == mid.cells[k].s.owner
      ensures g.cells[k].s.owner == mid.cells[k].s.owner || g.cells[k].s.owner.None?
      ensures (g.cells[k].s.phase == Free <==> g.cells[k].s.owner.None?)
    {
      assert CellAt(mid, k);
      ProgressFrees(mid.cells[k], mid.desired, e.now, e.obs[k]);
    }
    forall id | Active(f.desired, id) && id !in g.pending && !Owns(g, id)
      ensures exists k :: FreedHere(f, e, id, k)
    {
      assert id in e.order;
      var k := OwnedFrom(mid.cells, id, 0);
      OwnsIff(g, id);
      assert g.cells[k].s.owner.None?;
      assert FreedHere(f, e, id, k);
    }
    forall k: nat | k < |f.cells| && g.pending != {} && g.cells[k].s.phase == Free
      ensures mid.cells[k].s.phase == Stopping
    {
      assert CellAt(mid, k);
    }
  }

  // ------------------------------------------------------------ remembered slots

  /** The slot that the j-th id of the pass takes, if it takes one. */
  function Choice(f: Fleet, order: seq<Id>, j: nat): (k: Option<nat>)
    requires j < |order| && forall id :: id in order ==> id in f.desired
  {
    var h := AddAll(f, order[..j]);
    var k := Pick(h.cells, h.memory, order[j]);
    if Owns(h, order[j]) || k == |h.cells| then None else Some(k)
  }

  ghost predicate Untaken(f: Fleet, order: seq<Id>, k: nat, n: nat)
    requires n <= |order| && forall id :: id in order ==> id in f.desired
  {
    forall j: nat :: j < n ==> Choice(f, order, j) != Some(k)
  }

  /** One turn leaves a slot as it was unless the id takes it. */
  lemma OneTurn(f: Fleet, order: seq<Id>, k: nat, j: nat)
    requires j < |order| && (forall id :: id in order ==> id in f.desired) && k < |f.cells|
    ensures var h, h' := AddAll(f, order[..j]), AddAll(f, order[..j + 1]);
            if Choice(f, order, j) == Some(k) then h'.cells[k].s.phase != Free else h'.cells[k] == h.cells[k]
  {
    assert order[..j + 1][..j] == order[..j];
  }

  /** A free slot stays free until an id takes it. */
  lemma {:induction false} FreeUntilTaken(f: Fleet, order: seq<Id>, k: nat, n: nat)
    requires n <= |order| && (forall id :: id in order ==> id in f.desired) && k < |f.cells|
    requires f.cells[k].s.phase == Free
    ensures AddAll(f, order[..n]).cells[k].s.phase == Free <==> Untaken(f, order, k, n)
    ensures Untaken(f, order, k, n) ==> AddAll(f, order[..n]).cells[k] == f.cells[k]
  {
    if n == 0 {
      assert order[..0] == [];
    } else {
      FreeUntilTaken(f, order, k, n - 1);
      OneTurn(f, order, k, n - 1);
      assert Untaken(f, order, k, n) <==> Untaken(f, order, k, n - 1) && Choice(f, order, n - 1) != Some(k);
    }
  }

  /** An id that has had no turn yet owns nothing new and remembers what it did. */
  lemma {:induction false} BeforeItsTurn(f: Fleet, ids: seq<Id>, id: Id)
    requires (forall x :: x in ids ==> x in f.desired) && id !in ids
    ensures var g := AddAll(f, ids);
            && (id in f.memory <==> id in g.memory) && (id in f.memory ==> g.memory[id] == f.memory[id])
            && (!Owns(f, id) ==> !Owns(g, id))
  {
    if ids != [] {
      var rest, last := ids[..|ids| - 1], ids[|ids| - 1];
      BeforeItsTurn(f, rest, id);
      OwnsIff(AddAll(f, rest), id);
      OwnsIff(AddAll(f, ids), id);
    }
  }

  lemma {:induction false} AddAllSplit(f: Fleet, a: seq<Id>, b: seq<Id>)
    requires forall id :: id in a + b ==> id in f.desired
    ensures AddAll(f, a + b) == AddAll(AddAll(f, a), b)
  {
    if b == [] {
      assert a + b == a;
    } else {
      assert (a + b)[..|a + b| - 1] == a + b[..|b| - 1];
      AddAllSplit(f, a, b[..|b| - 1]);
    }
  }

  /** Slots that an addition pass changes are starting. */
  lemma {:induction false} ChangedStarts(f: Fleet, ids: seq<Id>, k: nat)
    requires (forall id :: id in ids ==> id in f.desired) && k < |f.cells|
    ensures AddAll(f, ids).cells[k] == f.cells[k] || AddAll(f, ids).cells[k].s.phase == Starting
  {
    if ids != [] {
      ChangedStarts(f, ids[..|ids| - 1], k);
    }
  }

  /** In an addition pass, an id without a slot returns to the one it last used exactly
      when that slot is free and no id before it in the order takes it. */
  lemma ReturnsInPassIff(f: Fleet, order: seq<Id>, pos: nat)
    requires Sound(f) && (forall id :: id in order ==> id in f.desired) && pos < |order|
    requires forall i, j :: 0 <= i < j < |order| ==> order[i] != order[j]
    requires !Owns(f, order[pos]) && order[pos] in f.memory && f.memory[order[pos]] < |f.cells|
    ensures var k := f.memory[order[pos]];
            AddAll(f, order).cells[k].s.owner == Some(order[pos]) <==>
            f.cells[k].s.phase == Free && Untaken(f, order, k, pos)
  {
    var id, k := order[pos], f.memory[order[pos]];
    var before := order[..pos];
    var h := AddAll(f, before);
    AddAllSound(f, before);
    assert id !in before;
    BeforeItsTurn(f, before, id);
    if f.cells[k].s.phase == Free {
      FreeUntilTaken(f, order, k, pos);
    } else {
      assert CellAt(f, k);
      AddAllKeepsOwned(f, before, k);
    }
    assert order == before + order[pos..];
    AddAllSplit(f, before, order[pos..]);
    TakesItsTurn(h, order[pos..]);
  }

  /** The first id of a pass returns to its last slot exactly when that is free. */
  lemma TakesItsTurn(h: Fleet, order: seq<Id>)
    requires Sound(h) && (forall id :: id in order ==> id in h.desired) && order != []
    requires !Owns(h, order[0]) && order[0] in h.memory && h.memory[order[0]] < |h.cells|
    ensures var k := h.memory[order[0]];
            AddAll(h, order).cells[k].s.owner == Some(order[0]) <==> h.cells[k].s.phase == Free
  {
    var id, k := order[0], h.memory[order[0]];
    OwnsIff(h, id);
    assert CellAt(h, k);
    assert order == [id] + order[1..] && [id][..0] == [];
    AddAllSplit(h, [id], order[1..]);
    assert AddAll(h, [id]) == AddOne(h, id);
    AddOneSound(h, id);
    if h.cells[k].s.phase != Free {
      AddOneKeepsOwned(h, id, k);
    }
    AddAllKeepsOwned(AddOne(h, id), order[1..], k);
  }

  lemma OwnsAfterRemoval(f: Fleet, e: Event, id: Id)
    requires Sound(f) && e.Tick? && EventOk(f, e)
    ensures Owns(RemovalPass(f, e.now, e.obs), id) <==> Owns(f, id)
  {
    var g := RemovalPass(f, e.now, e.obs);
    OwnsIff(f, id);
    OwnsIff(g, id);
    forall i: nat | i < |f.cells|
      ensures g.cells[i].s.owner == f.cells[i].s.owner
    {
      assert CellAt(f, i);
      RemovalOk(f.cells[i], f.desired, e.now, e.obs[i]);
    }
  }

  /** In a step, an active id without a slot returns to the one it last used exactly
      when that slot is free and no smaller id without a slot takes it first. */
  lemma ReturnsToSlotIff(f: Fleet, e: Event, pos: nat)
    requires Sound(f) && e.Tick? && EventOk(f, e) && pos < |e.order|
    requires !Owns(f, e.order[pos]) && e.order[pos] in f.memory && f.memory[e.order[pos]] < |f.cells|
    ensures var k, g := f.memory[e.order[pos]], RemovalPass(f, e.now, e.obs);
            Next(f, e).cells[k].s.owner == Some(e.order[pos]) <==>
            g.cells[k].s.phase == Free && Untaken(g, e.order, k, pos)
  {
    var id, k, g := e.order[pos], f.memory[e.order[pos]], RemovalPass(f, e.now, e.obs);
    RemovalPassSound(f, e.now, e.obs);
    OwnsAfterRemoval(f, e, id);
    ReturnsInPassIff(g, e.order, pos);
    PlacedSound(f, e);
    var mid := Placed(f, e);
    assert CellAt(mid, k);
    ProgressFrees(mid.cells[k], mid.desired, e.now, e.obs[k]);
    ChangedStarts(g, e.order, k);
    OwnsIff(g, id);
  }
}
