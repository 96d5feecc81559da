/** Load-client slots of the reconciler (bridge/reconciler.py:198-231). */
module ReconcilerClients {
  import opened Pigeonhole
  import opened Wrappers
  import opened ReconcilerSlot

  const MAX_CLIENT_SLOTS: nat := 4

  /** Client ids with their index, and the index each id last used. */
  datatype Clients = Clients(index: map<Id, nat>, memory: map<Id, nat>)

  function Used(c: Clients): (s: set<nat>) {
    set id | id in c.index :: c.index[id]
  }

  /** The first unused index at or after `from`, or MAX_CLIENT_SLOTS. */
  function FirstUnused(used: set<nat>, from: nat): (k: nat)
    requires from <= MAX_CLIENT_SLOTS
    ensures from <= k <= MAX_CLIENT_SLOTS
    ensures k < MAX_CLIENT_SLOTS ==> k !in used
    ensures forall i :: from <= i < k ==> i in used
    decreases MAX_CLIENT_SLOTS - from
  {
    if from == MAX_CLIENT_SLOTS || from !in used then from else FirstUnused(used, from + 1)
  }

  /** Clients that are no longer wanted go. */
  function Drop(c: Clients, want: seq<Id>): Clients {
    c.(index := map id | id in c.index && id in want :: c.index[id])
  }

  /** One wanted client: kept, or given its remembered index if unused, else the
      first unused one, else none. */
  function Admit(c: Clients, id: Id): (r: Clients) {
    if id in c.index then c else
      var k := if id in c.memory && c.memory[id] !in Used(c) then c.memory[id] else FirstUnused(Used(c), 0);
      if k == MAX_CLIENT_SLOTS then c else Clients(c.index[id := k], c.memory[id := k])
  }

  function AdmitAll(c: Clients, want: seq<Id>): (r: Clients) {
    if want == [] then c else Admit(AdmitAll(c, want[..|want| - 1]), want[|want| - 1])
  }

  function Step(c: Clients, want: seq<Id>): (r: Clients) {
    AdmitAll(Drop(c, want), want)
  }

  /** Indices are distinct and below 4. */
  ghost predicate Good(c: Clients) {
    && (forall id :: id in c.index ==> c.index[id] < MAX_CLIENT_SLOTS)
    && (forall id :: id in c.memory ==> c.memory[id] < MAX_CLIENT_SLOTS)
    && (forall a, b :: a in c.index && b in c.index && a != b ==> c.index[a] != c.index[b])
  }

  lemma AdmitGood(c: Clients, id: Id)
    requires Good(c)
    ensures Good(Admit(c, id))
  {
    assert forall x :: x in c.index ==> c.index[x] in Used(c);
  }

  lemma {:induction false} AdmitAllGood(c: Clients, want: seq<Id>)
    requires Good(c)
    ensures Good(AdmitAll(c, want))
  {
    if want != [] {
      AdmitAllGood(c, want[..|want| - 1]);
      AdmitGood(AdmitAll(c, want[..|want| - 1]), want[|want| - 1]);
    }
  }

  /** Every step keeps client indices distinct and in range. */
  lemma StepGood(c: Clients, want: seq<Id>)
    requires Good(c)
    ensures Good(Step(c, want))
  {
    AdmitAllGood(Drop(c, want), want);
  }

  lemma UsedSize(c: Clients)
    ensures |Used(c)| <= |c.index.Keys|
  {
    ImageSize(c.index, c.index.Keys);
    assert Used(c) == Image(c.index, c.index.Keys);
  }

  ghost function Image(m: map<Id, nat>, keys: set<Id>): (s: set<nat>)
    requires keys <= m.Keys
  {
    set id | id in keys :: m[id]
  }

  lemma {:induction false} ImageSize(m: map<Id, nat>, keys: set<Id>)
    requires keys <= m.Keys
    ensures |Image(m, keys)| <= |keys|
    decreases |keys|
  {
    if keys != {} {
      var k :| k in keys;
      ImageSize(m, keys - {k});
      assert Image(m, keys) == Image(m, keys - {k}) + {m[k]};
    }
  }

  /** With fewer than four clients placed, one more always finds an index. */
  lemma AdmitPlaces(c: Clients, id: Id)
    requires Good(c) && |c.index.Keys| < MAX_CLIENT_SLOTS
    ensures id in Admit(c, id).index
  {
    UsedSize(c);
    var k := FirstUnused(Used(c), 0);
    if k == MAX_CLIENT_SLOTS {
      RangeSize(MAX_CLIENT_SLOTS);
      var used: set<int> := Used(c);
      assert Range(MAX_CLIENT_SLOTS) <= used;
      SubsetSize(Range(MAX_CLIENT_SLOTS), used);
      assert false;
    }
  }

  lemma {:induction false} AdmitAllPlaces(c: Clients, want: seq<Id>, all: set<Id>)
    requires Good(c) && c.index.Keys <= all && (forall id :: id in want ==> id in all) && |all| <= MAX_CLIENT_SLOTS
    ensures AdmitAll(c, want).index.Keys <= all
    ensures forall id :: id in want || id in c.index ==> id in AdmitAll(c, want).index
  {
    if want != [] {
      var rest, last := want[..|want| - 1], want[|want| - 1];
      AdmitAllPlaces(c, rest, all);
      AdmitAllGood(c, rest);
      var d := AdmitAll(c, rest);
      if last !in d.index {
        assert d.index.Keys <= all - {last};
        SubsetSize(d.index.Keys, all - {last});
        AdmitPlaces(d, last);
      }
      assert forall id :: id in want ==> id in rest || id == last;
    }
  }

  /** With at most four wanted clients, exactly the wanted ones are placed. */
  lemma StepPlacesAll(c: Clients, want: seq<Id>)
    requires Good(c) && |Elements(want)| <= MAX_CLIENT_SLOTS
    ensures Step(c, want).index.Keys == Elements(want)
  {
    AdmitAllPlaces(Drop(c, want), want, Elements(want));
  }

  lemma {:induction false} AdmitAllKeeps(c: Clients, want: seq<Id>)
    ensures forall id :: id in c.index ==> id in AdmitAll(c, want).index && AdmitAll(c, want).index[id] == c.index[id]
  {
    if want != [] {
      AdmitAllKeeps(c, want[..|want| - 1]);
    }
  }

  /** A client that is still wanted keeps its index; one that is not loses it. */
  lemma StepKeeps(c: Clients, want: seq<Id>, id: Id)
    requires id in c.index
    ensures id in want ==> id in Step(c, want).index && Step(c, want).index[id] == c.index[id]
    ensures id !in want ==> id !in Step(c, want).index
  {
    AdmitAllKeeps(Drop(c, want), want);
    AdmitAllOnly(Drop(c, want), want);
  }

  lemma {:induction false} AdmitAllOnly(c: Clients, want: seq<Id>)
    ensures forall id :: id in AdmitAll(c, want).index ==> id in c.index || id in want
  {
    if want != [] {
      AdmitAllOnly(c, want[..|want| - 1]);
      assert forall id :: id in want[..|want| - 1] ==> id in want;
    }
  }

  /** The index that the j-th wanted client takes, if it takes one. */
  function Choice(c: Clients, want: seq<Id>, j: nat): (k: Option<nat>)
    requires j < |want|
  {
    var h := AdmitAll(c, want[..j]);
    var g := Admit(h, want[j]);
    if want[j] in h.index || want[j] !in g.index then None else Some(g.index[want[j]])
  }

  ghost predicate Untaken(c: Clients, want: seq<Id>, k: nat, n: nat)
    requires n <= |want|
  {
    forall j: nat :: j < n ==> Choice(c, want, j) != Some(k)
  }

  lemma AdmitUses(c: Clients, id: Id, k: nat)
    ensures k in Used(Admit(c, id)) <==>
            k in Used(c) || (id !in c.index && id in Admit(c, id).index && Admit(c, id).index[id] == k)
  {
    var g := Admit(c, id);
    if g != c {
      assert forall x :: x in c.index ==> x in g.index && g.index[x] == c.index[x];
      assert forall x :: x in g.index && x != id ==> x in c.index;
      if k in Used(c) {
        var x :| x in c.index && c.index[x] == k;
        assert x in g.index && g.index[x] == k;
      }
      if id in g.index && g.index[id] == k {
        assert k in Used(g);
      }
    }
  }

  /** An index is in use after n turns if it was before or one of those turns took it. */
  lemma {:induction false} UsedIff(c: Clients, want: seq<Id>, k: nat, n: nat)
    requires n <= |want|
    ensures k !in Used(AdmitAll(c, want[..n])) <==> k !in Used(c) && Untaken(c, want, k, n)
  {
    if n == 0 {
      assert want[..0] == [];
    } else {
      UsedIff(c, want, k, n - 1);
      assert want[..n][..n - 1] == want[..n - 1];
      AdmitUses(AdmitAll(c, want[..n - 1]), want[n - 1], k);
      assert Untaken(c, want, k, n) <==> Untaken(c, want, k, n - 1) && Choice(c, want, n - 1) != Some(k);
    }
  }

  /** A client that has had no turn yet has no new index and remembers what it did. */
  lemma {:induction false} BeforeItsTurn(c: Clients, want: seq<Id>, id: Id)
    requires id !in want && id !in c.index
    ensures var h := AdmitAll(c, want);
            id !in h.index && (id in h.memory <==> id in c.memory) && (id in c.memory ==> h.memory[id] == c.memory[id])
  {
    if want != [] {
      BeforeItsTurn(c, want[..|want| - 1], id);
    }
  }

  /** In a step, a client without an index returns to the one it last used exactly when
      no client that stays holds it and no client before it in the order takes it. */
  lemma ReturnsToIndexIff(c: Clients, want: seq<Id>, pos: nat)
    requires pos < |want| && forall i, j :: 0 <= i < j < |want| ==> want[i] != want[j]
    requires want[pos] !in c.index && want[pos] in c.memory && c.memory[want[pos]] < MAX_CLIENT_SLOTS
    ensures var id, kept := want[pos], Drop(c, want); var k := c.memory[id];
            id in Step(c, want).index && Step(c, want).index[id] == k <==>
            k !in Used(kept) && Untaken(kept, want, k, pos)
  {
    var id, d, k := want[pos], Drop(c, want), c.memory[want[pos]];
    var before := want[..pos];
    assert id !in before;
    BeforeItsTurn(d, before, id);
    UsedIff(d, want, k, pos);
    var h := AdmitAll(d, before);
    assert want == want[..pos + 1] + want[pos + 1..] && want[..pos + 1][..pos] == before;
    assert AdmitAll(d, want[..pos + 1]) == Admit(h, id);
    AdmitAllSplit(d, want[..pos + 1], want[pos + 1..]);
    AdmitAllKeeps(Admit(h, id), want[pos + 1..]);
    if id !in Admit(h, id).index {
      NoneLeft(h, id, want[pos + 1..]);
    }
  }

  /** A client that found every index in use gets none later in the same step. */
  lemma NoneLeft(h: Clients, id: Id, rest: seq<Id>)
    requires id !in h.index && id !in Admit(h, id).index && id !in rest
    ensures id !in AdmitAll(Admit(h, id), rest).index
  {
    AdmitAllOnly(Admit(h, id), rest);
  }

  /** Client 2 remembers index 0 and nobody holds it, but client 1 is listed first and
      takes it. */
  lemma RememberedIndexStolen()
    ensures var gone := Step(Step(Clients(map[], map[]), [2]), []);
            gone == Clients(map[], map[2 := 0]) && Step(gone, [1, 2]).index == map[1 := 0, 2 := 1]
  {
    var none := Clients(map[], map[]);
    var two: seq<Id> := [2];
    assert two[..0] == [] && Drop(none, two) == none;
    assert FirstUnused(Used(none), 0) == 0;
    assert Step(none, two) == Clients(map[2 := 0], map[2 := 0]);
    var gone := Step(Step(none, two), []);
    assert gone == Clients(map[], map[2 := 0]);
    var both: seq<Id> := [1, 2];
    assert both[..1] == [1] && both[..1][..0] == [] && Drop(gone, both) == gone;
    assert FirstUnused(Used(gone), 0) == 0;
    var one := Admit(gone, 1);
    assert one == Clients(map[1 := 0], map[2 := 0, 1 := 0]);
    assert Used(one) == {0} by {
      assert 1 in one.index && one.index[1] == 0;
    }
    assert FirstUnused(Used(one), 0) == 1;
    assert Admit(one, 2).index == map[1 := 0, 2 := 1];
    assert AdmitAll(gone, both[..1]) == one;
  }

  lemma {:induction false} AdmitAllSplit(c: Clients, a: seq<Id>, b: seq<Id>)
    ensures AdmitAll(c, a + b) == AdmitAll(AdmitAll(c, a), b)
  {
    if b == [] {
      assert a + b == a;
    } else {
      AdmitAllSplit(c, a, b[..|b| - 1]);
      assert (a + b)[..|a + b| - 1] == a + b[..|b| - 1];
    }
  }

  ghost predicate StepAt(states: seq<Clients>, wants: seq<seq<Id>>, i: nat)
    requires i < |wants| && |states| == |wants| + 1
  {
    states[i + 1] == Step(states[i], wants[i])
  }

  /** Client indices are distinct in 0..3 at every point of every run, whatever
      clients each step asks for. */
  lemma {:induction false} RunGood(states: seq<Clients>, wants: seq<seq<Id>>, n: nat)
    requires |states| == |wants| + 1 && n <= |wants| && states[0] == Clients(map[], map[])
    requires forall i :: 0 <= i < |wants| ==> StepAt(states, wants, i)
    ensures Good(states[n])
  {
    if n > 0 {
      RunGood(states, wants, n - 1);
      assert StepAt(states, wants, n - 1);
      StepGood(states[n - 1], wants[n - 1]);
    }
  }

  class ClientTable {
    var index: map<Id, nat>
    var memory: map<Id, nat>

    ghost function Abs(): (c: Clients)
      reads this
    {
      Clients(index, memory)
    }

    constructor ()
      ensures Abs() == Clients(map[], map[]) && Good(Abs())
    {
      index, memory := map[], map[];
    }

    /** `_step_clients`: the index bookkeeping. */
    method StepClients(want: seq<Id>)
      requires Good(Abs())
      modifies this
      ensures Abs() == Step(old(Abs()), want) && Good(Abs())
    {
      StepGood(Abs(), want);
      ghost var start := Drop(Abs(), want);
      index := map id | id in index && id in want :: index[id];
      assert want[..0] == [];
      for i := 0 to |want|
        invariant Abs() == AdmitAll(start, want[..i])
      {
        assert want[..i + 1][..i] == want[..i];
        var id := want[i];
        if id !in index {
          var used := set x | x in index :: index[x];
          var k := FirstUnused(used, 0);
          if id in memory && memory[id] !in used {
            k := memory[id];
          }
          if k != MAX_CLIENT_SLOTS {
            index, memory := index[id := k], memory[id := k];
          }
        }
      }
      assert want[..|want|] == want;
    }
  }
}
