/** The fixed-width integers of the C sources. Storing a value in one of these
    types is a proof obligation, so a member that verifies never wraps around
    except where its body says so with an explicit remainder. */
module MachineInts {
  type u8 = x: int | 0 <= x < 0x100
  type u16 = x: int | 0 <= x < 0x1_0000
  type u32 = x: int | 0 <= x < 0x1_0000_0000
  type u64 = x: int | 0 <= x < 0x1_0000_0000_0000_0000
  type i32 = x: int | -0x8000_0000 <= x < 0x8000_0000

  const U32_MAX: u32 := 0xffff_ffff

  lemma MulMono(a: int, x: int, y: int)
    requires 0 <= a && x <= y
    ensures a * x <= a * y
  {
    assert a * (y - x) >= 0;
  }

  /** Quotient and remainder are determined by the division equation. */
  lemma DivModUnique(x: int, d: int, q: int, r: int)
    requires 0 <= r < d && x == d * q + r
    ensures x / d == q && x % d == r
  {
    var e := q - x / d;
    assert -d < d * e < d;
    if e >= 1 {
      MulMono(d, 1, e);
    } else if e <= -1 {
      MulMono(d, e, -1);
    }
  }

  lemma MultipleModZero(d: int, k: int)
    requires d > 0
    ensures (d * k) % d == 0
  {
    DivModUnique(d * k, d, k, 0);
  }

  /** Counting up by one, in quotient and remainder. */
  lemma SuccDivMod(x: int, d: int)
    requires d > 0
    ensures x % d + 1 < d ==> (x + 1) / d == x / d && (x + 1) % d == x % d + 1
    ensures x % d + 1 == d ==> (x + 1) / d == x / d + 1 && (x + 1) % d == 0
  {
    var q, r := x / d, x % d;
    assert x == d * q + r;
    if r + 1 < d {
      DivModUnique(x + 1, d, q, r + 1);
    } else {
      assert d * (q + 1) == d * q + d;
      DivModUnique(x + 1, d, q + 1, 0);
    }
  }

  lemma SmallMod(x: int, d: int)
    requires 0 <= x < d
    ensures x % d == x
  {
  }
}
