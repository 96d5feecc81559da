/** A backend's slot preference list: j -> (offset + j * skip) mod m. */
module Preference {
  import opened MachineInts
  import opened Primes
  import opened Pigeonhole

  function Slot(offset: nat, skip: nat, m: nat, j: nat): (c: nat)
    requires m > 0
    ensures c < m
  {
    (offset + j * skip) % m
  }

  ghost predicate Reaches(offset: nat, skip: nat, m: nat, c: int)
    requires m > 0
  {
    exists j: nat :: j < m && Slot(offset, skip, m, j) == c
  }

  /** Every slot appears in the first m preferences. */
  ghost predicate FullCycle(offset: nat, skip: nat, m: nat)
    requires m > 0
  {
    forall c :: 0 <= c < m ==> Reaches(offset, skip, m, c)
  }

  lemma SameRemainder(x: int, y: int, m: int)
    requires m > 0 && x % m == y % m
    ensures Divides(m, x - y)
  {
    assert x - y == m * (x / m - y / m);
    MultipleModZero(m, x / m - y / m);
  }

  lemma ProductNotMultiple(m: nat, skip: nat, k: nat)
    requires IsPrime(m) && 1 <= skip < m && 1 <= k < m
    ensures !Divides(m, skip * k)
  {
    if Divides(m, skip * k) {
      Euclid(m, skip, k);
      assert false;
    }
  }

  lemma SlotInjective(offset: nat, skip: nat, m: nat, i: nat, j: nat)
    requires IsPrime(m) && 1 <= skip < m && i < j < m
    ensures Slot(offset, skip, m, i) != Slot(offset, skip, m, j)
  {
    ProductNotMultiple(m, skip, j - i);
    var x, y := offset + j * skip, offset + i * skip;
    assert x - y == skip * (j - i);
    if x % m == y % m {
      SameRemainder(x, y, m);
      assert false;
    }
  }

  /** For a prime size the first m preferences are a permutation of the slots. */
  lemma PrimeFullCycle(offset: nat, skip: nat, m: nat)
    requires IsPrime(m) && 1 <= skip < m
    ensures forall i: nat, j: nat :: i < j < m ==> Slot(offset, skip, m, i) != Slot(offset, skip, m, j)
    ensures FullCycle(offset, skip, m)
  {
    forall i: nat, j: nat | i < j < m
      ensures Slot(offset, skip, m, i) != Slot(offset, skip, m, j)
    {
      SlotInjective(offset, skip, m, i, j);
    }
    var order: seq<int> := seq(m, j requires 0 <= j => Slot(offset, skip, m, j));
    DistinctCoversRange(order, m);
    forall c | 0 <= c < m
      ensures Reaches(offset, skip, m, c)
    {
      assert c in order;
      var j: nat :| j < |order| && order[j] == c;
      assert Slot(offset, skip, m, j) == c;
    }
  }

  /** With a divisor of m as skip, the slot after the offset is never reached. */
  lemma DivisorSkipMisses(d: nat, m: nat, j: nat)
    requires 2 <= d < m && Divides(d, m)
    ensures Slot(0, d, m, j) != 1
  {
    var k := Cofactor(d, m);
    var x := 0 + j * d;
    assert x % m == x - m * (x / m);
    assert x - m * (x / m) == d * (j - k * (x / m));
    MultipleModZero(d, j - k * (x / m));
  }

  /** Primality of the table size is exactly what makes every legal skip a full
      cycle. */
  lemma FullCycleIffPrime(m: nat)
    requires m >= 2
    ensures IsPrime(m) <==> forall offset: nat, skip: nat :: offset < m && 1 <= skip < m ==> FullCycle(offset, skip, m)
  {
    if IsPrime(m) {
      forall offset: nat, skip: nat | offset < m && 1 <= skip < m
        ensures FullCycle(offset, skip, m)
      {
        PrimeFullCycle(offset, skip, m);
      }
    } else {
      var d: nat :| 2 <= d < m && Divides(d, m);
      forall j: nat | j < m
        ensures Slot(0, d, m, j) != 1
      {
        DivisorSkipMisses(d, m, j);
      }
      assert !Reaches(0, d, m, 1) && !FullCycle(0, d, m);
    }
  }
}
