/** The Maglev populate step as the Maglev paper states it: candidates take
    turns, and on its turn a candidate claims the first slot of its own
    preference list that is still empty. No cursor is remembered between turns. */
module MaglevSpec {
  import opened MachineInts
  import opened Primes
  import opened Pigeonhole
  import opened Preference

  const EMPTY: i32 := -1

  /** A candidate with the preference list its identity hashes to. */
  datatype Candidate = Candidate(id: i32, offset: nat, skip: nat)

  predicate Legal(c: Candidate, m: nat) {
    c.id >= 0 && c.offset < m && 1 <= c.skip < m
  }

  predicate AllLegal(cs: seq<Candidate>, m: nat) {
    forall i :: 0 <= i < |cs| ==> Legal(cs[i], m)
  }

  function Probe(c: Candidate, m: nat, j: nat): (s: nat)
    requires m > 0
    ensures s < m
  {
    Slot(c.offset, c.skip, m, j)
  }

  /** The position, at or after `from`, of the first empty slot in the
      candidate's preference list; |t| if there is none. */
  function FirstEmpty(t: seq<i32>, c: Candidate, from: nat): (j: nat)
    requires |t| > 0 && from <= |t|
    ensures from <= j <= |t|
    ensures forall i: nat :: from <= i < j ==> t[Probe(c, |t|, i)] != EMPTY
    ensures j < |t| ==> t[Probe(c, |t|, j)] == EMPTY
    decreases |t| - from
  {
    if from == |t| || t[Probe(c, |t|, from)] == EMPTY then from else FirstEmpty(t, c, from + 1)
  }

  /** One turn, always restarting from preference 0. */
  function Claim(t: seq<i32>, c: Candidate): (r: seq<i32>)
    requires |t| > 0
    ensures |r| == |t|
  {
    var j := FirstEmpty(t, c, 0);
    if j == |t| then t else t[Probe(c, |t|, j) := c.id]
  }

  function EmptyTable(m: nat): (t: seq<i32>) {
    seq(m, _ => EMPTY)
  }

  /** The table after `turns` turns, taken round robin. */
  function GreedyFill(cs: seq<Candidate>, m: nat, turns: nat): (t: seq<i32>)
    requires |cs| > 0 && m > 0
    ensures |t| == m
  {
    if turns == 0 then EmptyTable(m)
    else Claim(GreedyFill(cs, m, turns - 1), cs[(turns - 1) % |cs|])
  }

  function GreedyTable(cs: seq<Candidate>, m: nat): (t: seq<i32>)
    requires m > 0
  {
    if cs == [] then EmptyTable(m) else GreedyFill(cs, m, m)
  }

  ghost function SlotsHolding(t: seq<i32>, id: i32): (s: set<int>)
    ensures forall i :: i in s <==> 0 <= i < |t| && t[i] == id
  {
    set i | i in Range(|t|) && t[i] == id
  }

  /** While a slot is empty, a legal candidate's preference list reaches one. */
  lemma EmptySlotIsReached(t: seq<i32>, c: Candidate)
    requires IsPrime(|t|) && Legal(c, |t|) && EMPTY in t
    ensures FirstEmpty(t, c, 0) < |t|
  {
    var hole: nat :| hole < |t| && t[hole] == EMPTY;
    PrimeFullCycle(c.offset, c.skip, |t|);
    assert Reaches(c.offset, c.skip, |t|, hole);
    var j: nat :| j < |t| && Slot(c.offset, c.skip, |t|, j) == hole;
    assert Probe(c, |t|, j) == hole;
  }

  /** A turn moves exactly one slot from empty to the candidate's id. */
  lemma ClaimCounts(t: seq<i32>, c: Candidate, id: i32)
    requires IsPrime(|t|) && Legal(c, |t|) && EMPTY in t
    ensures |SlotsHolding(Claim(t, c), id)| == |SlotsHolding(t, id)| +
            (if id == EMPTY then -1 else if id == c.id then 1 else 0)
  {
    EmptySlotIsReached(t, c);
    var s := Probe(c, |t|, FirstEmpty(t, c, 0));
    var before, after := SlotsHolding(t, id), SlotsHolding(Claim(t, c), id);
    if id == EMPTY {
      assert after == before - {s};
    } else if id == c.id {
      assert after == before + {s};
    } else {
      assert after == before;
    }
  }

  /** How many of the first `turns` round-robin turns belong to position i. */
  function TurnsOf(i: nat, n: nat, turns: nat): (r: nat)
    requires n > 0
  {
    turns / n + if i < turns % n then 1 else 0
  }

  lemma TurnsOfStep(i: nat, n: nat, turns: nat)
    requires i < n
    ensures TurnsOf(i, n, turns + 1) == TurnsOf(i, n, turns) + if turns % n == i then 1 else 0
  {
    SuccDivMod(turns, n);
  }

  lemma {:induction false} GreedyEmptyCount(cs: seq<Candidate>, m: nat, turns: nat)
    requires |cs| > 0 && IsPrime(m) && AllLegal(cs, m) && turns <= m
    ensures |SlotsHolding(GreedyFill(cs, m, turns), EMPTY)| == m - turns
    ensures turns < m ==> EMPTY in GreedyFill(cs, m, turns)
  {
    var t := GreedyFill(cs, m, turns);
    if turns == 0 {
      RangeSize(m);
      assert SlotsHolding(t, EMPTY) == Range(m);
    } else {
      GreedyEmptyCount(cs, m, turns - 1);
      ClaimCounts(GreedyFill(cs, m, turns - 1), cs[(turns - 1) % |cs|], EMPTY);
    }
    if turns < m {
      assert SlotsHolding(t, EMPTY) != {};
      var i :| i in SlotsHolding(t, EMPTY);
      assert t[i] == EMPTY;
    }
  }

  ghost predicate DistinctIds(cs: seq<Candidate>) {
    forall i, j :: 0 <= i < j < |cs| ==> cs[i].id != cs[j].id
  }

  lemma {:induction false} GreedyShareAfter(cs: seq<Candidate>, m: nat, turns: nat, i: nat)
    requires |cs| > 0 && IsPrime(m) && AllLegal(cs, m) && DistinctIds(cs) && turns <= m && i < |cs|
    ensures |SlotsHolding(GreedyFill(cs, m, turns), cs[i].id)| == TurnsOf(i, |cs|, turns)
  {
    if turns == 0 {
      assert SlotsHolding(EmptyTable(m), cs[i].id) == {};
    } else {
      GreedyEmptyCount(cs, m, turns - 1);
      GreedyShareAfter(cs, m, turns - 1, i);
      var b := (turns - 1) % |cs|;
      assert Legal(cs[b], m) && (cs[b].id == cs[i].id <==> b == i);
      ClaimCounts(GreedyFill(cs, m, turns - 1), cs[b], cs[i].id);
      TurnsOfStep(i, |cs|, turns - 1);
    }
  }

  /** Fair shares: position i of n holds floor(m/n) slots, plus one if i < m mod n. */
  lemma GreedyShare(cs: seq<Candidate>, m: nat, i: nat)
    requires |cs| > 0 && IsPrime(m) && AllLegal(cs, m) && DistinctIds(cs) && i < |cs|
    ensures |SlotsHolding(GreedyTable(cs, m), cs[i].id)| == m / |cs| + if i < m % |cs| then 1 else 0
  {
    GreedyShareAfter(cs, m, m, i);
  }

  lemma {:induction false} GreedyValues(cs: seq<Candidate>, m: nat, turns: nat, s: nat)
    requires |cs| > 0 && IsPrime(m) && AllLegal(cs, m) && turns <= m && s < m
    ensures var v := GreedyFill(cs, m, turns)[s];
            v == EMPTY || exists i :: 0 <= i < |cs| && cs[i].id == v
  {
    if turns > 0 {
      GreedyValues(cs, m, turns - 1, s);
    }
  }

  /** The finished table has no empty slot, and every slot names a candidate. */
  lemma GreedyFull(cs: seq<Candidate>, m: nat, s: nat)
    requires |cs| > 0 && IsPrime(m) && AllLegal(cs, m) && s < m
    ensures exists i :: 0 <= i < |cs| && cs[i].id == GreedyTable(cs, m)[s]
  {
    GreedyEmptyCount(cs, m, m);
    GreedyValues(cs, m, m, s);
    assert s !in SlotsHolding(GreedyTable(cs, m), EMPTY);
  }
}
