/** Bitwise "and" with a power of two minus one is the remainder. */
module BitMask {
  import opened MachineInts

  function Pow2(k: nat): (r: nat)
    ensures r >= 1
  {
    if k == 0 then 1 else 2 * Pow2(k - 1)
  }

  ghost predicate IsPow2(n: nat) {
    exists k: nat :: Pow2(k) == n
  }

  function BitAnd(a: nat, b: nat): (r: nat) {
    if a == 0 || b == 0 then 0 else 2 * BitAnd(a / 2, b / 2) + (if a % 2 == 1 && b % 2 == 1 then 1 else 0)
  }

  lemma HalveRemainder(h: nat, p: nat)
    requires p >= 1
    ensures h % (2 * p) == 2 * (h / 2 % p) + h % 2
  {
    var q, r := h / 2 / p, h / 2 % p;
    assert h / 2 == p * q + r;
    assert (2 * p) * q == 2 * (p * q);
    DivModUnique(h, 2 * p, q, 2 * r + h % 2);
  }

  lemma {:induction false} MaskIsRemainder(h: nat, k: nat)
    ensures BitAnd(h, Pow2(k) - 1) == h % Pow2(k)
  {
    if h == 0 {
      SmallMod(0, Pow2(k));
    } else if k > 0 {
      MaskIsRemainder(h / 2, k - 1);
      HalveRemainder(h, Pow2(k - 1));
    }
  }

  /** Masking with a power of two minus one is the remainder, hence in range. */
  lemma MaskInRange(h: nat, count: nat)
    requires IsPow2(count)
    ensures BitAnd(h, count - 1) == h % count < count
  {
    var k: nat :| Pow2(k) == count;
    MaskIsRemainder(h, k);
  }

  lemma {:induction false} Pow2Mono(i: nat, j: nat)
    requires i <= j
    ensures Pow2(i) <= Pow2(j)
  {
    if i < j {
      Pow2Mono(i, j - 1);
    }
  }

  /** `next_pow2`: the least power of two that is at least x. */
  method NextPow2(x: u64) returns (p: u64)
    requires x <= 0x8000_0000_0000_0000
    ensures IsPow2(p) && x <= p
    ensures forall k: nat :: x <= Pow2(k) ==> p <= Pow2(k)
  {
    p := 1;
    ghost var e: nat := 0;
    assert Pow2(0) == 1;
    while p < x
      invariant p == Pow2(e)
      invariant forall k: nat :: k < e ==> Pow2(k) < x
      decreases x - p
    {
      p := 2 * p;
      e := e + 1;
    }
    forall k: nat | x <= Pow2(k)
      ensures p <= Pow2(k)
    {
      assert e <= k;
      Pow2Mono(e, k);
    }
  }
}
