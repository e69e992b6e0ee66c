/** Machine words as naturals, and the few facts about products and quotients that the proofs share. */
module Arithmetic {

  type Byte = b: int | 0 <= b < 256

  const TWO32: nat := 0x1_0000_0000
  const TWO64: nat := 0x1_0000_0000_0000_0000
  const TWO128: nat := 0x1_0000_0000_0000_0000_0000_0000_0000_0000

  type Uint32 = x: int | 0 <= x < TWO32
  type Uint64 = x: int | 0 <= x < TWO64

  /** The value of a 32-bit (64-bit) operation whose exact result is `x`. */
  function Wrap32(x: int): nat { x % TWO32 }
  function Wrap64(x: int): nat { x % TWO64 }

  function Pow2(k: nat): nat { if k == 0 then 1 else 2 * Pow2(k - 1) }

  function Pow256(k: nat): (p: nat)
    ensures p >= 1
  {
    if k == 0 then 1 else 256 * Pow256(k - 1)
  }

  lemma NoWrap32(x: int)
    requires 0 <= x < TWO32
    ensures Wrap32(x) == x
  {
  }

  lemma NoWrap64(x: int)
    requires 0 <= x < TWO64
    ensures Wrap64(x) == x
  {
  }

  lemma MulAtLeast(d: int, m: int)
    requires d >= 1 && m > 0
    ensures d * m >= m
  {
  }

  lemma MulAtMost(d: int, m: int)
    requires d <= -1 && m > 0
    ensures d * m <= -m
  {
  }

  lemma MulMonotone(x: nat, y: nat, z: nat)
    requires x <= y
    ensures x * z <= y * z
  {
  }

  /** A quotient and remainder are determined by what they satisfy. */
  lemma DivModUnique(x: int, m: int, q: int, r: int)
    requires m > 0 && 0 <= r < m && x == q * m + r
    ensures x / m == q && x % m == r
  {
    var d := q - x / m;
    assert d * m == x % m - r by {
      assert x == (x / m) * m + x % m;
      assert d * m == q * m - (x / m) * m;
    }
    if d >= 1 { MulAtLeast(d, m); }
    if d <= -1 { MulAtMost(d, m); }
  }
}
