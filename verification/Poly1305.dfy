/**
 Poly1305 (golang.org/x/crypto/poly1305/sum_ref.go): the accumulator is held in five 26-bit
 limbs and reduced lazily. The loop is proved to compute the tag of section 2.5 of RFC 7539.
 Machine words are naturals here; every place where a Go word could wrap is written with
 `Wrap32`, and the operations written without it are proved to stay in range.
 */
module Poly1305 {

  import opened Arithmetic

  /** 2^26 and its powers, the weights of the limbs. */
  const B1: nat := 0x400_0000
  const B2: nat := 0x10_0000_0000_0000
  const B3: nat := 0x4000_0000_0000_0000_0000
  const B4: nat := 0x100_0000_0000_0000_0000_0000_0000
  const B5: nat := 0x4_0000_0000_0000_0000_0000_0000_0000_0000

  /** The prime 2^130 - 5. */
  const P: nat := 0x3_ffff_ffff_ffff_ffff_ffff_ffff_ffff_fffb

  // ------------------------------------------------------------ bit operations

  /** Go's `x & y`. */
  function And(x: nat, y: nat): nat {
    if x == 0 || y == 0 then 0 else (x % 2) * (y % 2) + 2 * And(x / 2, y / 2)
  }

  /** Go's `x | y`. */
  function Or(x: nat, y: nat): nat {
    if x == 0 then y else if y == 0 then x
    else (if x % 2 == 1 || y % 2 == 1 then 1 else 0) + 2 * Or(x / 2, y / 2)
  }

  lemma AndStep(x: nat, y: nat)
    ensures And(x, y) == (x % 2) * (y % 2) + 2 * And(x / 2, y / 2)
  {
  }

  /** Masking acts separately on the low `k` bits and the rest. */
  lemma {:induction false} AndSplit(qx: nat, x: nat, qy: nat, y: nat, k: nat, m: nat)
    requires m == Pow2(k) && x < m && y < m
    ensures And(m * qx + x, m * qy + y) == And(x, y) + m * And(qx, qy)
    decreases k
  {
    hide And;
    if k == 0 {
      AndStep(0, 0);
    } else {
      var n := Pow2(k - 1);
      AndSplit(qx, x / 2, qy, y / 2, k - 1, n);
      AndStep(m * qx + x, m * qy + y);
      AndStep(x, y);
      HalfSum(n, qx, x);
      HalfSum(n, qy, y);
      assert 2 * (n * And(qx, qy)) == m * And(qx, qy);
    }
  }

  lemma HalfSum(n: nat, q: nat, x: nat)
    ensures (2 * n * q + x) / 2 == n * q + x / 2 && (2 * n * q + x) % 2 == x % 2
  {
  }

  /** A mask of `k` ones keeps the low `k` bits. */
  lemma {:induction false} AndOnes(q: nat, x: nat, k: nat, m: nat)
    requires m == Pow2(k) && x < m
    ensures And(m * q + x, m - 1) == x
    decreases k
  {
    hide And;
    if k == 0 {
      AndZero(q);
    } else {
      var n := Pow2(k - 1);
      AndOnes(q, x / 2, k - 1, n);
      AndStep(m * q + x, m - 1);
      HalfSum(n, q, x);
      assert (m - 1) / 2 == n - 1 && (m - 1) % 2 == 1;
    }
  }

  lemma AndZero(x: nat)
    ensures And(x, 0) == 0 && And(0, x) == 0
  {
  }

  /** Numbers without common bits: one below 2^k, the other a multiple of it. */
  lemma {:induction false} OrDisjoint(x: nat, y: nat, k: nat, m: nat)
    requires m == Pow2(k) && x < m
    ensures Or(x, m * y) == x + m * y
    decreases k
  {
    if k > 0 {
      var n := Pow2(k - 1);
      Doubled(n, y);
      OrDisjoint(x / 2, y, k - 1, n);
      hide Or;
      OrEven(x, n * y);
    }
  }

  lemma Doubled(n: nat, y: nat)
    ensures 2 * n * y == 2 * (n * y)
  {
  }

  lemma OrEven(x: nat, y: nat)
    ensures Or(x, 2 * y) == x % 2 + 2 * Or(x / 2, y)
  {
  }

  // ---------------------------------------------------- little-endian numbers

  /** The number that a byte string denotes, least significant byte first. */
  function Le(bs: seq<Byte>): nat {
    if bs == [] then 0 else bs[0] + 256 * Le(bs[1..])
  }

  /** `binary.LittleEndian.Uint32(bs[i:])`. */
  function Word(bs: seq<Byte>, i: nat): nat
    requires i + 4 <= |bs|
  {
    Four(bs[i], bs[i + 1], bs[i + 2], bs[i + 3])
  }

  function Four(a: int, b: int, c: int, d: int): int { a + 0x100 * b + 0x1_0000 * c + 0x100_0000 * d }

  lemma Le4(bs: seq<Byte>)
    requires |bs| >= 4
    ensures Le(bs) == Word(bs, 0) + TWO32 * Le(bs[4..])
  {
    assert bs[1..][1..] == bs[2..] && bs[2..][1..] == bs[3..] && bs[3..][1..] == bs[4..];
    assert Le(bs) == bs[0] + 256 * Le(bs[1..]);
    assert Le(bs[1..]) == bs[1] + 256 * Le(bs[2..]);
    assert Le(bs[2..]) == bs[2] + 256 * Le(bs[3..]);
    assert Le(bs[3..]) == bs[3] + 256 * Le(bs[4..]);
  }

  /** A 16-byte string as four words. */
  lemma Le16(bs: seq<Byte>)
    requires |bs| == 16
    ensures Le(bs) == Join(Word(bs, 0), Word(bs, 4), Word(bs, 8), Word(bs, 12))
    ensures Le(bs) < TWO128
  {
    Le4(bs);
    Le4(bs[4..]);
    Le4(bs[4..][4..]);
    Le4(bs[4..][4..][4..]);
    assert bs[4..][4..] == bs[8..] && bs[8..][4..] == bs[12..] && bs[12..][4..] == [];
  }

  // ---------------------------------------------------- RFC 7539, section 2.5

  /** `r` with the bits cleared that the standard clears. */
  function Clamp(r: seq<Byte>): seq<Byte>
    requires |r| == 16
  {
    seq(16, i requires 0 <= i < 16 =>
      if i % 4 == 3 then r[i] % 16 else if i % 4 == 0 && i > 0 then r[i] - r[i] % 4 else r[i])
  }

  /** The accumulator after all blocks: each gets a one bit beyond its bytes, is added, and multiplied by `r`. */
  function Absorb(acc: nat, r: nat, msg: seq<Byte>): nat
    decreases |msg|
  {
    if msg == [] then acc
    else
      var k := if |msg| < 16 then |msg| else 16;
      Absorb((acc + Le(msg[..k]) + Pow256(k)) * r % P, r, msg[k..])
  }

  /** The tag as a number. */
  function Tag(msg: seq<Byte>, key: seq<Byte>): nat
    requires |key| == 32
  {
    (Absorb(0, Le(Clamp(key[..16])), msg) + Le(key[16..])) % TWO128
  }

  // ------------------------------------------------------------------- limbs

  datatype Limbs = Limbs(l0: nat, l1: nat, l2: nat, l3: nat, l4: nat)

  function Value(h: Limbs): nat { Spread(h.l0, h.l1, h.l2, h.l3, h.l4) }

  /** Five columns weighted, each of any size. */
  function Spread(c0: nat, c1: nat, c2: nat, c3: nat, c4: nat): nat { c0 + c1 * B1 + c2 * B2 + c3 * B3 + c4 * B4 }

  /** Limbs as the loop leaves them: the second may be slightly over 26 bits. */
  predicate Loose(h: Limbs) { h.l0 < B1 && h.l1 < B1 + 64 && h.l2 < B1 && h.l3 < B1 && h.l4 < B1 }

  predicate Tight(h: Limbs) { h.l0 < B1 && h.l1 < B1 && h.l2 < B1 && h.l3 < B1 && h.l4 < B1 }

  /** The limbs of a 16-byte block, before its extra bit. */
  function BlockLimbs(m: seq<Byte>): Limbs
    requires |m| == 16
  {
    Limbs(Word(m, 0) % B1, (Word(m, 3) / 4) % B1, (Word(m, 6) / 16) % B1, (Word(m, 9) / 64) % B1, Word(m, 12) / 256)
  }

  /** The same limbs in terms of bytes: three bytes are split between two limbs. */
  function ByteLimbs(m: seq<Byte>): Limbs
    requires |m| == 16
  {
    Limbs(Mix(m[0], 0x100, m[1], 0x1_0000, m[2], 0x100_0000, m[3] % 4),
          Mix(m[3] / 4, 0x40, m[4], 0x4000, m[5], 0x40_0000, m[6] % 16),
          Mix(m[6] / 16, 0x10, m[7], 0x1000, m[8], 0x10_0000, m[9] % 64),
          Mix(m[9] / 64, 4, m[10], 0x400, m[11], 0x4_0000, m[12]),
          Mix(m[13], 0x100, m[14], 0x1_0000, m[15], 0, 0))
  }

  function Mix(a: nat, wb: nat, b: nat, wc: nat, c: nat, wd: nat, d: nat): nat { a + wb * b + wc * c + wd * d }

  lemma LimbBytes(m: seq<Byte>)
    requires |m| == 16
    ensures BlockLimbs(m) == ByteLimbs(m)
  {
    Limb0(m[0], m[1], m[2], m[3]);
    Limb1(m[3], m[4], m[5], m[6]);
    Limb2(m[6], m[7], m[8], m[9]);
    Limb3(m[9], m[10], m[11], m[12]);
    Limb4(m[12], m[13], m[14], m[15]);
  }

  lemma Limb0(a: Byte, b: Byte, c: Byte, d: Byte)
    ensures Four(a, b, c, d) % B1 == Mix(a, 0x100, b, 0x1_0000, c, 0x100_0000, d % 4)
  {
  }

  lemma Limb1(a: Byte, b: Byte, c: Byte, d: Byte)
    ensures (Four(a, b, c, d) / 4) % B1 == Mix(a / 4, 0x40, b, 0x4000, c, 0x40_0000, d % 16)
  {
    var x := Mix(a / 4, 0x40, b, 0x4000, c, 0x40_0000, d);
    DivModUnique(Four(a, b, c, d), 4, x, a % 4);
    DivModUnique(x, B1, d / 16, Mix(a / 4, 0x40, b, 0x4000, c, 0x40_0000, d % 16));
  }

  lemma Limb2(a: Byte, b: Byte, c: Byte, d: Byte)
    ensures (Four(a, b, c, d) / 16) % B1 == Mix(a / 16, 0x10, b, 0x1000, c, 0x10_0000, d % 64)
  {
    var x := Mix(a / 16, 0x10, b, 0x1000, c, 0x10_0000, d);
    DivModUnique(Four(a, b, c, d), 16, x, a % 16);
    DivModUnique(x, B1, d / 64, Mix(a / 16, 0x10, b, 0x1000, c, 0x10_0000, d % 64));
  }

  lemma Limb3(a: Byte, b: Byte, c: Byte, d: Byte)
    ensures (Four(a, b, c, d) / 64) % B1 == Mix(a / 64, 4, b, 0x400, c, 0x4_0000, d)
  {
  }

  lemma Limb4(a: Byte, b: Byte, c: Byte, d: Byte)
    ensures Four(a, b, c, d) / 256 == Mix(b, 0x100, c, 0x1_0000, d, 0, 0)
  {
  }

  /** The limbs denote the block's number. */
  lemma LimbsDenote(m: seq<Byte>)
    requires |m| == 16
    ensures Value(BlockLimbs(m)) == Le(m)
    ensures Tight(BlockLimbs(m)) && BlockLimbs(m).l4 < 0x100_0000
  {
    LimbBytes(m);
    Le16(m);
    assert m[3] == m[3] % 4 + 4 * (m[3] / 4);
    assert m[6] == m[6] % 16 + 16 * (m[6] / 16);
    assert m[9] == m[9] % 64 + 64 * (m[9] / 64);
  }

  // ------------------------------------------------------------ the clamped key

  /** The key's limbs as the code masks them. */
  function KeyLimbs(k: seq<Byte>): Limbs
    requires |k| == 16
  {
    Limbs(And(Word(k, 0), 0x3ffffff), And(Word(k, 3) / 4, 0x3ffff03), And(Word(k, 6) / 16, 0x3ffc0ff),
          And(Word(k, 9) / 64, 0x3f03fff), And(Word(k, 12) / 256, 0x00fffff))
  }

  lemma PowersOfTwo()
    ensures Pow2(2) == 4 && Pow2(6) == 0x40 && Pow2(8) == 0x100 && Pow2(12) == 0x1000 && Pow2(14) == 0x4000
    ensures Pow2(18) == 0x4_0000 && Pow2(20) == 0x10_0000 && Pow2(26) == B1 && Pow2(32) == TWO32
  {
  }

  lemma Mask26(x: nat)
    ensures And(x, 0x3ffffff) == x % B1
  {
    PowersOfTwo();
    AndOnes(x / B1, x % B1, 26, B1);
  }

  lemma Mask20(x: nat)
    ensures And(x, 0x00fffff) == x % 0x10_0000
  {
    PowersOfTwo();
    AndOnes(x / 0x10_0000, x % 0x10_0000, 20, 0x10_0000);
  }

  lemma MaskR1(x: nat)
    ensures And(x, 0x3ffff03) == x % 4 + 0x100 * ((x / 0x100) % 0x4_0000)
  {
    hide And;
    PowersOfTwo();
    var lo, hi := x % 0x100, x / 0x100;
    AndSplit(hi, lo, 0x3ffff, 3, 8, 0x100);
    AndOnes(lo / 4, lo % 4, 2, 4);
    AndOnes(hi / 0x4_0000, hi % 0x4_0000, 18, 0x4_0000);
    DivModUnique(x, 4, 0x40 * hi + lo / 4, lo % 4);
  }

  lemma MaskR2(x: nat)
    ensures And(x, 0x3ffc0ff) == x % 0x100 + 0x4000 * ((x / 0x4000) % 0x1000)
  {
    hide And;
    PowersOfTwo();
    var lo, hi := x % 0x4000, x / 0x4000;
    AndSplit(hi, lo, 0xfff, 0xff, 14, 0x4000);
    AndOnes(lo / 0x100, lo % 0x100, 8, 0x100);
    AndOnes(hi / 0x1000, hi % 0x1000, 12, 0x1000);
    DivModUnique(x, 0x100, 0x40 * hi + lo / 0x100, lo % 0x100);
  }

  lemma MaskR3(x: nat)
    ensures And(x, 0x3f03fff) == x % 0x4000 + 0x10_0000 * ((x / 0x10_0000) % 0x40)
  {
    hide And;
    PowersOfTwo();
    var lo, hi := x % 0x10_0000, x / 0x10_0000;
    AndSplit(hi, lo, 0x3f, 0x3fff, 20, 0x10_0000);
    AndOnes(lo / 0x4000, lo % 0x4000, 14, 0x4000);
    AndOnes(hi / 0x40, hi % 0x40, 6, 0x40);
    DivModUnique(x, 0x4000, 0x40 * hi + lo / 0x4000, lo % 0x4000);
  }

  lemma KeyLimb1(a: Byte, b: Byte, c: Byte, d: Byte)
    ensures var x := Four(a, b, c, d) / 4;
            x % 4 + 0x100 * ((x / 0x100) % 0x4_0000) == Mix((a % 16) / 4, 0x40, b - b % 4, 0x4000, c, 0x40_0000, d % 16)
  {
    hide Four;
    Drop2(a, b, c, d);
    Keep2(a, b, c, d);
    Drop8(a / 4, b, c, d);
    Keep18(b / 4, c, d);
    assert b - b % 4 == 4 * (b / 4);
  }

  lemma Drop2(a: int, b: int, c: int, d: int)
    ensures Four(a, b, c, d) / 4 == a / 4 + 0x40 * b + 0x4000 * c + 0x40_0000 * d
  {
  }

  lemma Keep2(a: int, b: int, c: int, d: int)
    requires 0 <= a < 256
    ensures (a / 4 + 0x40 * b + 0x4000 * c + 0x40_0000 * d) % 4 == (a % 16) / 4
  {
    assert a / 4 == 4 * (a / 16) + (a % 16) / 4;
    DivModUnique(a / 4 + 0x40 * b + 0x4000 * c + 0x40_0000 * d, 4, a / 16 + 0x10 * b + 0x1000 * c + 0x10_0000 * d, (a % 16) / 4);
  }

  lemma Drop8(a: int, b: int, c: int, d: int)
    requires 0 <= a < 64
    ensures (a + 0x40 * b + 0x4000 * c + 0x40_0000 * d) / 0x100 == b / 4 + 0x40 * c + 0x4000 * d
  {
  }

  lemma Keep18(a: int, b: int, c: int)
    requires 0 <= a < 64 && 0 <= b < 256 && 0 <= c < 256
    ensures (a + 0x40 * b + 0x4000 * c) % 0x4_0000 == a + 0x40 * b + 0x4000 * (c % 16)
  {
  }

  lemma KeyLimb2(a: Byte, b: Byte, c: Byte, d: Byte)
    ensures var x := Four(a, b, c, d) / 16;
            x % 0x100 + 0x4000 * ((x / 0x4000) % 0x1000) == Mix(a / 16, 0x10, b % 16, 0x1000, c - c % 4, 0x10_0000, d % 64)
  {
    hide Four;
    Drop4(a, b, c, d);
    Keep8(a / 16, b, c, d);
    Drop14(a / 16, b, c, d);
    Keep12(c / 4, d);
    assert c - c % 4 == 4 * (c / 4);
  }

  lemma Drop4(a: int, b: int, c: int, d: int)
    ensures Four(a, b, c, d) / 16 == a / 16 + 0x10 * b + 0x1000 * c + 0x10_0000 * d
  {
  }

  lemma Drop14(a: int, b: int, c: int, d: int)
    requires 0 <= a < 16 && 0 <= b < 256
    ensures (a + 0x10 * b + 0x1000 * c + 0x10_0000 * d) / 0x4000 == c / 4 + 0x40 * d
  {
  }

  lemma Keep8(a: int, b: int, c: int, d: int)
    requires 0 <= a < 16 && 0 <= b < 256
    ensures (a + 0x10 * b + 0x1000 * c + 0x10_0000 * d) % 0x100 == a + 0x10 * (b % 16)
  {
    DivModUnique(a + 0x10 * b + 0x1000 * c + 0x10_0000 * d, 0x100, b / 16 + 0x10 * c + 0x1000 * d, a + 0x10 * (b % 16));
  }

  lemma Keep12(a: int, b: int)
    requires 0 <= a < 64
    ensures (a + 0x40 * b) % 0x1000 == a + 0x40 * (b % 64)
  {
  }

  lemma KeyLimb3(a: Byte, b: Byte, c: Byte, d: Byte)
    ensures var x := Four(a, b, c, d) / 64;
            x % 0x4000 + 0x10_0000 * ((x / 0x10_0000) % 0x40) == Mix(a / 64, 4, b, 0x400, c % 16, 0x4_0000, d - d % 4)
  {
    var x := Four(a, b, c, d) / 64;
    DivModUnique(Four(a, b, c, d), 64, Mix(a / 64, 4, b, 0x400, c, 0x4_0000, d), a % 64);
    DivModUnique(x, 0x4000, c / 16 + 0x10 * d, a / 64 + 4 * b + 0x400 * (c % 16));
    DivModUnique(x, 0x10_0000, d / 4, a / 64 + 4 * b + 0x400 * c + 0x4_0000 * (d % 4));
    DivModUnique(d / 4, 0x40, 0, d / 4);
  }

  lemma KeyLimb4(a: Byte, b: Byte, c: Byte, d: Byte)
    ensures (Four(a, b, c, d) / 256) % 0x10_0000 == Mix(b, 0x100, c, 0x1_0000, d % 16, 0, 0)
  {
    var x := Mix(b, 0x100, c, 0x1_0000, d, 0, 0);
    DivModUnique(Four(a, b, c, d), 256, x, a);
    DivModUnique(x, 0x10_0000, d / 16, Mix(b, 0x100, c, 0x1_0000, d % 16, 0, 0));
  }

  /** The five masks perform the standard's clamping. */
  lemma KeyLimbsDenote(k: seq<Byte>)
    requires |k| == 16
    ensures Value(KeyLimbs(k)) == Le(Clamp(k)) && Tight(KeyLimbs(k))
  {
    hide And, Mix, Four;
    var c := Clamp(k);
    assert KeyLimbs(k) == ByteLimbs(c) by {
      Mask26(Word(k, 0));
      MaskR1(Word(k, 3) / 4);
      MaskR2(Word(k, 6) / 16);
      MaskR3(Word(k, 9) / 64);
      Mask20(Word(k, 12) / 256);
      Limb0(k[0], k[1], k[2], k[3]);
      KeyLimb1(k[3], k[4], k[5], k[6]);
      KeyLimb2(k[6], k[7], k[8], k[9]);
      KeyLimb3(k[9], k[10], k[11], k[12]);
      KeyLimb4(k[12], k[13], k[14], k[15]);
    }
    LimbBytes(c);
    LimbsDenote(c);
  }

  // --------------------------------------------------------------- congruence

  lemma Congruent(x: nat, y: nat, k: int)
    requires x == y + P * k
    ensures x % P == y % P
  {
  }

  /** Reducing a factor first does not change the product's remainder. */
  lemma MulCongruent(x: nat, y: nat, r: nat)
    requires x % P == y % P
    ensures (x * r) % P == (y * r) % P
  {
    var k := x / P - y / P;
    assert x == y + P * k;
    assert x * r == y * r + P * (k * r);
    Congruent(x * r, y * r, k * r);
  }

  // ------------------------------------------------------------ multiplication

  lemma Distribute(x: nat, a: Limbs)
    ensures x * Value(a) == Spread(x * a.l0, x * a.l1, x * a.l2, x * a.l3, x * a.l4)
  {
  }

  lemma DistributeLeft(a: Limbs, x: nat)
    ensures Value(a) * x == Spread(a.l0 * x, a.l1 * x, a.l2 * x, a.l3 * x, a.l4 * x)
  {
  }

  /** Columns of the product, with the overflow beyond 2^130 folded back five-fold. */
  function Column(h: Limbs, r: Limbs, i: nat): nat
    requires i < 5
  {
    if i == 0 then h.l0 * r.l0 + 5 * (h.l1 * r.l4 + h.l2 * r.l3 + h.l3 * r.l2 + h.l4 * r.l1)
    else if i == 1 then h.l0 * r.l1 + h.l1 * r.l0 + 5 * (h.l2 * r.l4 + h.l3 * r.l3 + h.l4 * r.l2)
    else if i == 2 then h.l0 * r.l2 + h.l1 * r.l1 + h.l2 * r.l0 + 5 * (h.l3 * r.l4 + h.l4 * r.l3)
    else if i == 3 then h.l0 * r.l3 + h.l1 * r.l2 + h.l2 * r.l1 + h.l3 * r.l0 + 5 * (h.l4 * r.l4)
    else h.l0 * r.l4 + h.l1 * r.l3 + h.l2 * r.l2 + h.l3 * r.l1 + h.l4 * r.l0
  }

  /** Rows of the schoolbook product, regrouped by weight. */
  lemma Regroup(s0: nat, s1: nat, s2: nat, s3: nat, s4: nat,
                a00: nat, a01: nat, a02: nat, a03: nat, a04: nat, a10: nat, a11: nat, a12: nat, a13: nat, a14: nat,
                a20: nat, a21: nat, a22: nat, a23: nat, a24: nat, a30: nat, a31: nat, a32: nat, a33: nat, a34: nat,
                a40: nat, a41: nat, a42: nat, a43: nat, a44: nat)
    requires s0 == Spread(a00, a01, a02, a03, a04)
    requires s1 == Spread(a10, a11, a12, a13, a14)
    requires s2 == Spread(a20, a21, a22, a23, a24)
    requires s3 == Spread(a30, a31, a32, a33, a34)
    requires s4 == Spread(a40, a41, a42, a43, a44)
    ensures Spread(s0, s1, s2, s3, s4)
         == Spread(a00, a01 + a10, a02 + a11 + a20, a03 + a12 + a21 + a30, a04 + a13 + a22 + a31 + a40)
            + B5 * Spread(a14 + a23 + a32 + a41, a24 + a33 + a42, a34 + a43, a44, 0)
  {
  }

  /** Weight 2^130 counts five-fold modulo the prime. */
  lemma FoldBack(c0: nat, c1: nat, c2: nat, c3: nat, c4: nat, c5: nat, c6: nat, c7: nat, c8: nat)
    ensures Spread(c0, c1, c2, c3, c4) + B5 * Spread(c5, c6, c7, c8, 0)
         == Spread(c0 + 5 * c5, c1 + 5 * c6, c2 + 5 * c7, c3 + 5 * c8, c4) + P * Spread(c5, c6, c7, c8, 0)
  {
  }

  /** The columns have the product's value modulo the prime. */
  lemma ColumnsDenote(h: Limbs, r: Limbs)
    ensures Spread(Column(h, r, 0), Column(h, r, 1), Column(h, r, 2), Column(h, r, 3), Column(h, r, 4)) % P
         == (Value(h) * Value(r)) % P
  {
    hide Spread, Value;
    Rows(h, r);
    var k := Spread(h.l1 * r.l4 + h.l2 * r.l3 + h.l3 * r.l2 + h.l4 * r.l1,
                    h.l2 * r.l4 + h.l3 * r.l3 + h.l4 * r.l2, h.l3 * r.l4 + h.l4 * r.l3, h.l4 * r.l4, 0);
    Congruent(Value(h) * Value(r),
              Spread(Column(h, r, 0), Column(h, r, 1), Column(h, r, 2), Column(h, r, 3), Column(h, r, 4)), k);
  }

  lemma Rows(h: Limbs, r: Limbs)
    ensures Value(h) * Value(r)
         == Spread(Column(h, r, 0), Column(h, r, 1), Column(h, r, 2), Column(h, r, 3), Column(h, r, 4))
            + P * Spread(h.l1 * r.l4 + h.l2 * r.l3 + h.l3 * r.l2 + h.l4 * r.l1,
                         h.l2 * r.l4 + h.l3 * r.l3 + h.l4 * r.l2, h.l3 * r.l4 + h.l4 * r.l3, h.l4 * r.l4, 0)
  {
    hide Spread, Value;
    var v := Value(r);
    DistributeLeft(h, v);
    Distribute(h.l0, r);
    Distribute(h.l1, r);
    Distribute(h.l2, r);
    Distribute(h.l3, r);
    Distribute(h.l4, r);
    Regroup(h.l0 * v, h.l1 * v, h.l2 * v, h.l3 * v, h.l4 * v,
            h.l0 * r.l0, h.l0 * r.l1, h.l0 * r.l2, h.l0 * r.l3, h.l0 * r.l4,
            h.l1 * r.l0, h.l1 * r.l1, h.l1 * r.l2, h.l1 * r.l3, h.l1 * r.l4,
            h.l2 * r.l0, h.l2 * r.l1, h.l2 * r.l2, h.l2 * r.l3, h.l2 * r.l4,
            h.l3 * r.l0, h.l3 * r.l1, h.l3 * r.l2, h.l3 * r.l3, h.l3 * r.l4,
            h.l4 * r.l0, h.l4 * r.l1, h.l4 * r.l2, h.l4 * r.l3, h.l4 * r.l4);
    FoldBack(h.l0 * r.l0, h.l0 * r.l1 + h.l1 * r.l0, h.l0 * r.l2 + h.l1 * r.l1 + h.l2 * r.l0,
             h.l0 * r.l3 + h.l1 * r.l2 + h.l2 * r.l1 + h.l3 * r.l0,
             h.l0 * r.l4 + h.l1 * r.l3 + h.l2 * r.l2 + h.l3 * r.l1 + h.l4 * r.l0,
             h.l1 * r.l4 + h.l2 * r.l3 + h.l3 * r.l2 + h.l4 * r.l1,
             h.l2 * r.l4 + h.l3 * r.l3 + h.l4 * r.l2, h.l3 * r.l4 + h.l4 * r.l3, h.l4 * r.l4);
  }

  /** One product of limbs: the accumulator's below 2^27 + 64, the key's below 2^26. */
  lemma ProductBound(x: nat, y: nat)
    requires x < 2 * B1 + 64 && y < B1
    ensures x * y <= 0x20_0001_0000_0000
  {
    MulMonotone(x, 2 * B1 + 64, y);
  }

  lemma FiveTimes(x: nat, y: nat)
    ensures x * (y * 5) == 5 * (x * y)
  {
  }

  /** The carries move value between columns, and the last one is folded back. */
  lemma CarriesDenote(c0: nat, c1: nat, c2: nat, c3: nat, c4: nat, d1: nat, d2: nat, d3: nat, d4: nat)
    requires d1 == c0 / B1 + c1 && d2 == d1 / B1 + c2 && d3 == d2 / B1 + c3 && d4 == d3 / B1 + c4
    ensures Spread(c0, c1, c2, c3, c4)
         == Spread(c0 % B1 + 5 * (d4 / B1), d1 % B1, d2 % B1, d3 % B1, d4 % B1) + P * (d4 / B1)
  {
  }

  lemma Low26(x: nat)
    ensures And(Wrap32(x), 0x3ffffff) == x % B1
  {
    Mask26(Wrap32(x));
    var q := x / TWO32;
    DivModUnique(x, B1, 64 * q + (x % TWO32) / B1, (x % TWO32) % B1);
  }

  /** The accumulator after a block has been added. */
  predicate Added(h: Limbs) {
    h.l0 < 2 * B1 && h.l1 < 2 * B1 + 64 && h.l2 < 2 * B1 && h.l3 < 2 * B1 && h.l4 < 2 * B1
  }

  /** The sums of products as the code writes them are the columns, and fit in 64 bits with room for a carry. */
  lemma CodeColumns(h: Limbs, r: Limbs)
    requires Added(h) && Tight(r)
    ensures h.l0 * r.l0 + h.l1 * (r.l4 * 5) + h.l2 * (r.l3 * 5) + h.l3 * (r.l2 * 5) + h.l4 * (r.l1 * 5) == Column(h, r, 0)
    ensures h.l0 * r.l1 + h.l1 * r.l0 + h.l2 * (r.l4 * 5) + h.l3 * (r.l3 * 5) + h.l4 * (r.l2 * 5) == Column(h, r, 1)
    ensures h.l0 * r.l2 + h.l1 * r.l1 + h.l2 * r.l0 + h.l3 * (r.l4 * 5) + h.l4 * (r.l3 * 5) == Column(h, r, 2)
    ensures h.l0 * r.l3 + h.l1 * r.l2 + h.l2 * r.l1 + h.l3 * r.l0 + h.l4 * (r.l4 * 5) == Column(h, r, 3)
  {
    FiveTimes(h.l1, r.l4);
    FiveTimes(h.l2, r.l3);
    FiveTimes(h.l3, r.l2);
    FiveTimes(h.l4, r.l1);
    FiveTimes(h.l2, r.l4);
    FiveTimes(h.l3, r.l3);
    FiveTimes(h.l4, r.l2);
    FiveTimes(h.l3, r.l4);
    FiveTimes(h.l4, r.l3);
    FiveTimes(h.l4, r.l4);
  }

  lemma ColumnBounds(h: Limbs, r: Limbs, i: nat)
    requires Added(h) && Tight(r) && i < 5
    ensures Column(h, r, i) <= (if i == 4 then 5 else 21) * 0x20_0001_0000_0000
  {
    var l := [r.l0, r.l1, r.l2, r.l3, r.l4];
    ProductBound(h.l0, l[i]);
    ProductBound(h.l1, l[(i + 4) % 5]);
    ProductBound(h.l2, l[(i + 3) % 5]);
    ProductBound(h.l3, l[(i + 2) % 5]);
    ProductBound(h.l4, l[(i + 1) % 5]);
  }

  /** `h *= r`: five sums of products, each taking the carry of the one below. */
  method Multiply(h: Limbs, r: Limbs) returns (d0: Uint64, d1: Uint64, d2: Uint64, d3: Uint64, d4: Uint64)
    requires Added(h) && Tight(r)
    ensures d0 == Column(h, r, 0) && d1 == d0 / B1 + Column(h, r, 1) && d2 == d1 / B1 + Column(h, r, 2)
    ensures d3 == d2 / B1 + Column(h, r, 3) && d4 == d3 / B1 + Column(h, r, 4)
    ensures d4 < 0xa0_0010_0000_0000
  {
    hide Added, Tight;
    var s1, s2, s3, s4 := r.l1 * 5, r.l2 * 5, r.l3 * 5, r.l4 * 5;
    CodeColumns(h, r);
    assert Column(h, r, 0) <= 0x2a1_0000_0000_0000 by { ColumnBounds(h, r, 0); }
    assert Column(h, r, 1) <= 0x2a1_0000_0000_0000 by { ColumnBounds(h, r, 1); }
    assert Column(h, r, 2) <= 0x2a1_0000_0000_0000 by { ColumnBounds(h, r, 2); }
    assert Column(h, r, 3) <= 0x2a1_0000_0000_0000 by { ColumnBounds(h, r, 3); }
    assert Column(h, r, 4) <= 0xa0_0005_0000_0000 by { ColumnBounds(h, r, 4); }
    assert Column(h, r, 4) == h.l0 * r.l4 + h.l1 * r.l3 + h.l2 * r.l2 + h.l3 * r.l1 + h.l4 * r.l0;
    hide Column;
    d0 := h.l0 * r.l0 + h.l1 * s4 + h.l2 * s3 + h.l3 * s2 + h.l4 * s1;
    d1 := d0 / B1 + h.l0 * r.l1 + h.l1 * r.l0 + h.l2 * s4 + h.l3 * s3 + h.l4 * s2;
    d2 := d1 / B1 + h.l0 * r.l2 + h.l1 * r.l1 + h.l2 * r.l0 + h.l3 * s4 + h.l4 * s3;
    d3 := d2 / B1 + h.l0 * r.l3 + h.l1 * r.l2 + h.l2 * r.l1 + h.l3 * r.l0 + h.l4 * s4;
    d4 := d3 / B1 + h.l0 * r.l4 + h.l1 * r.l3 + h.l2 * r.l2 + h.l3 * r.l1 + h.l4 * r.l0;
  }

  /** `h %= p`, with one lazy carry left in the second limb. */
  method Fold(d0: Uint64, d1: Uint64, d2: Uint64, d3: Uint64, d4: Uint64) returns (g: Limbs)
    requires d4 < 0xa0_0010_0000_0000
    ensures Loose(g)
    ensures Value(g) == Spread(d0 % B1 + 5 * (d4 / B1), d1 % B1, d2 % B1, d3 % B1, d4 % B1)
  {
    hide And, Wrap32;
    Low26(d0);
    Low26(d1);
    Low26(d2);
    Low26(d3);
    Low26(d4);
    var h0: Uint32 := And(Wrap32(d0), 0x3ffffff);
    var h1: Uint32 := And(Wrap32(d1), 0x3ffffff);
    var h2: Uint32 := And(Wrap32(d2), 0x3ffffff);
    var h3: Uint32 := And(Wrap32(d3), 0x3ffffff);
    var h4: Uint32 := And(Wrap32(d4), 0x3ffffff);
    h0 := h0 + (d4 / B1) * 5;
    h1 := h1 + h0 / B1;
    Mask26(h0);
    h0 := And(h0, 0x3ffffff);
    g := Limbs(h0, h1, h2, h3, h4);
  }

  /** One multiplication: the new accumulator is the product modulo the prime. */
  method MulReduce(h: Limbs, r: Limbs) returns (g: Limbs)
    requires Added(h) && Tight(r)
    ensures Loose(g) && Value(g) % P == (Value(h) * Value(r)) % P
  {
    hide Spread, Value, Column;
    var d0, d1, d2, d3, d4 := Multiply(h, r);
    g := Fold(d0, d1, d2, d3, d4);
    CarriesDenote(Column(h, r, 0), Column(h, r, 1), Column(h, r, 2), Column(h, r, 3), Column(h, r, 4), d1, d2, d3, d4);
    ColumnsDenote(h, r);
    Congruent(Spread(Column(h, r, 0), Column(h, r, 1), Column(h, r, 2), Column(h, r, 3), Column(h, r, 4)), Value(g), d4 / B1);
  }

  // ------------------------------------------------------------------- blocks

  /** `h += msg` on the limbs of a 16-byte block; `hibit` is the extra bit of a whole block. */
  method AddBlock(h: Limbs, m: seq<Byte>, hibit: bool) returns (g: Limbs)
    requires |m| == 16 && Loose(h)
    ensures Added(g) && Value(g) == Value(h) + Le(m) + if hibit then TWO128 else 0
  {
    hide And, Or, Word, Le;
    Mask26(Word(m, 0));
    Mask26(Word(m, 3) / 4);
    Mask26(Word(m, 6) / 16);
    Mask26(Word(m, 9) / 64);
    LimbsDenote(m);
    TopBit(Word(m, 12) / 256);
    var h0: Uint32 := h.l0 + And(Word(m, 0), 0x3ffffff);
    var h1: Uint32 := h.l1 + And(Word(m, 3) / 4, 0x3ffffff);
    var h2: Uint32 := h.l2 + And(Word(m, 6) / 16, 0x3ffffff);
    var h3: Uint32 := h.l3 + And(Word(m, 9) / 64, 0x3ffffff);
    var h4: Uint32 := h.l4 + if hibit then Or(Word(m, 12) / 256, 0x100_0000) else Word(m, 12) / 256;
    g := Limbs(h0, h1, h2, h3, h4);
  }

  /** Bit 24 of the top limb is bit 128 of the block. */
  lemma TopBit(x: nat)
    requires x < 0x100_0000
    ensures Or(x, 0x100_0000) == x + 0x100_0000
  {
    PowersOfTwo();
    assert Pow2(24) == 0x100_0000;
    OrDisjoint(x, 1, 24, 0x100_0000);
  }

  lemma {:induction false} LeAppend(a: seq<Byte>, b: seq<Byte>)
    ensures Le(a + b) == Le(a) + Pow256(|a|) * Le(b)
  {
    if a == [] {
      assert a + b == b;
    } else {
      assert (a + b)[1..] == a[1..] + b;
      LeAppend(a[1..], b);
      assert 256 * (Pow256(|a| - 1) * Le(b)) == Pow256(|a|) * Le(b);
    }
  }

  lemma {:induction false} LeZeros(n: nat)
    ensures Le(seq(n, _ => 0)) == 0
  {
    if n > 0 {
      assert seq(n, _ => 0 as Byte)[1..] == seq(n - 1, _ => 0);
      LeZeros(n - 1);
    }
  }

  /** The 0x01 byte after a short last block is its extra bit. */
  lemma PaddedDenotes(m: seq<Byte>, block: seq<Byte>)
    requires |m| < 16 && block == m + [1] + seq(15 - |m|, _ => 0)
    ensures Le(block) == Le(m) + Pow256(|m|)
  {
    var z: seq<Byte> := seq(15 - |m|, _ => 0);
    assert block == m + ([1] + z);
    assert Le([1] + z) == 1 by {
      assert ([1] + z)[1..] == z;
      LeZeros(15 - |m|);
    }
    hide Le, Pow256;
    LeAppend(m, [1] + z);
  }

  // ------------------------------------------------------------ final reduction

  /** The single extra pass of carries after the loop: it reaches limbs of 26 bits. */
  method FinalCarry(h: Limbs) returns (g: Limbs)
    requires Loose(h)
    ensures Tight(g) && Value(g) % P == Value(h) % P
  {
    hide And, Spread;
    var h0: Uint32, h1: Uint32, h2: Uint32, h3: Uint32, h4: Uint32 := h.l0, h.l1, h.l2, h.l3, h.l4;
    Mask26(h1);
    h2 := h2 + h1 / B1;
    ghost var c1 := h1 / B1;
    h1 := And(h1, 0x3ffffff);
    Mask26(h2);
    h3 := h3 + h2 / B1;
    ghost var c2 := h2 / B1;
    h2 := And(h2, 0x3ffffff);
    Mask26(h3);
    h4 := h4 + h3 / B1;
    ghost var c3 := h3 / B1;
    h3 := And(h3, 0x3ffffff);
    Mask26(h4);
    h0 := h0 + 5 * (h4 / B1);
    ghost var c4 := h4 / B1;
    h4 := And(h4, 0x3ffffff);
    Mask26(h0);
    ghost var c0 := h0 / B1;
    FinalCarries(h, h1, h2, h3, h4, h0 % B1, c0, c1, c2, c3, c4);
    h1 := h1 + h0 / B1;
    h0 := And(h0, 0x3ffffff);
    g := Limbs(h0, h1, h2, h3, h4);
    Congruent(Value(h), Value(g), c4);
  }

  /** A carry out of the top limb needs one into the second, which then has room for the one folded back. */
  lemma FinalCarries(h: Limbs, r1: nat, r2: nat, r3: nat, r4: nat, r0: nat, c0: nat, c1: nat, c2: nat, c3: nat, c4: nat)
    requires Loose(h)
    requires r0 < B1 && r1 < B1 && r2 < B1 && r3 < B1 && r4 < B1
    requires h.l1 == r1 + B1 * c1 && h.l2 + c1 == r2 + B1 * c2 && h.l3 + c2 == r3 + B1 * c3
    requires h.l4 + c3 == r4 + B1 * c4 && h.l0 + 5 * c4 == r0 + B1 * c0
    ensures r1 + c0 < B1
    ensures Value(h) == Spread(r0, r1 + c0, r2, r3, r4) + P * c4
  {
  }

  /** Choosing between two words with an all-ones or all-zeros mask. */
  lemma Select(x: nat, y: nat, mask: nat)
    requires x < TWO32 && y < TWO32 && (mask == 0 || mask == TWO32 - 1)
    ensures Or(And(x, TWO32 - 1 - mask), And(y, mask)) == if mask == 0 then x else y
  {
    PowersOfTwo();
    AndOnes(0, x, 32, TWO32);
    AndOnes(0, y, 32, TWO32);
    AndZero(x);
    AndZero(y);
  }

  /** `h` if it is below the prime, else `h - p`, chosen without branching. */
  method SubtractPrime(h: Limbs) returns (g: Limbs)
    requires Tight(h)
    ensures Tight(g) && Value(g) == Value(h) % P
  {
    hide And, Or, Spread, Wrap32;
    var t0: Uint32 := h.l0 + 5;
    var t1: Uint32 := h.l1 + t0 / B1;
    var t2: Uint32 := h.l2 + t1 / B1;
    var t3: Uint32 := h.l3 + t2 / B1;
    WrapRange(h.l4 + t3 / B1 - B1);
    var t4: Uint32 := Wrap32(h.l4 + t3 / B1 - B1);
    Mask26(t0);
    Mask26(t1);
    Mask26(t2);
    Mask26(t3);
    t0 := And(t0, 0x3ffffff);
    t1 := And(t1, 0x3ffffff);
    t2 := And(t2, 0x3ffffff);
    t3 := And(t3, 0x3ffffff);
    MaskWord(t4);
    var tMask: Uint32 := Wrap32(t4 / 0x8000_0000 - 1);
    var hMask: Uint32 := TWO32 - 1 - tMask;
    Difference(h, t0, t1, t2, t3, t4);
    Select(h.l0, t0, tMask);
    Select(h.l1, t1, tMask);
    Select(h.l2, t2, tMask);
    Select(h.l3, t3, tMask);
    Select(h.l4, t4, tMask);
    g := Limbs(Or(And(h.l0, hMask), And(t0, tMask)), Or(And(h.l1, hMask), And(t1, tMask)), Or(And(h.l2, hMask), And(t2, tMask)),
               Or(And(h.l3, hMask), And(t3, tMask)), Or(And(h.l4, hMask), And(t4, tMask)));
  }

  lemma WrapRange(x: int)
    ensures Wrap32(x) < TWO32
  {
  }

  /** The sign bit of a word, turned into a mask. */
  lemma MaskWord(t: Uint32)
    ensures Wrap32(t / 0x8000_0000 - 1) == if t < 0x8000_0000 then TWO32 - 1 else 0
  {
  }

  /** The top word of `h - p` is negative exactly when `h` is below the prime. */
  lemma Difference(h: Limbs, t0: nat, t1: nat, t2: nat, t3: nat, t4: nat)
    requires Tight(h)
    requires var u1 := h.l1 + (h.l0 + 5) / B1;
             var u2 := h.l2 + u1 / B1;
             var u3 := h.l3 + u2 / B1;
             t0 == (h.l0 + 5) % B1 && t1 == u1 % B1 && t2 == u2 % B1 && t3 == u3 % B1 && t4 == Wrap32(h.l4 + u3 / B1 - B1)
    ensures Value(h) < P ==> t4 >= 0x8000_0000
    ensures Value(h) >= P ==> t4 == 0 && Value(Limbs(t0, t1, t2, t3, t4)) == Value(h) - P
    ensures Value(h) % P == if Value(h) < P then Value(h) else Value(h) - P
  {
    var u1 := h.l1 + (h.l0 + 5) / B1;
    var u2 := h.l2 + u1 / B1;
    var u3 := h.l3 + u2 / B1;
    var top := h.l4 + u3 / B1;
    hide Spread, Wrap32;
    assert top <= B1 by {
      SmallCarry(h.l0 + 5);
      SmallCarry(u1);
      SmallCarry(u2);
      SmallCarry(u3);
    }
    PlusFive(h, u1, u2, u3);
    DifferenceTop(h, t0, t1, t2, t3, top);
  }

  lemma DifferenceTop(h: Limbs, t0: nat, t1: nat, t2: nat, t3: nat, top: nat)
    requires Tight(h) && t0 < B1 && t1 < B1 && t2 < B1 && t3 < B1 && top <= B1
    requires Value(h) + 5 == Spread(t0, t1, t2, t3, top)
    ensures Value(h) < P ==> Wrap32(top - B1) >= 0x8000_0000
    ensures Value(h) >= P ==> Wrap32(top - B1) == 0 && Spread(t0, t1, t2, t3, 0) == Value(h) - P
    ensures Value(h) % P == if Value(h) < P then Value(h) else Value(h) - P
  {
    hide Spread, Wrap32;
    TopDecides(t0, t1, t2, t3, top);
    TightBound(h);
    OncePrime(Value(h));
    TopWord(top);
  }

  lemma SmallCarry(x: nat)
    requires x < B1 + 5
    ensures x / B1 <= 1
  {
  }

  lemma TightBound(h: Limbs)
    requires Tight(h)
    ensures Value(h) < B5
  {
  }

  lemma TopWord(top: nat)
    requires top <= B1
    ensures Wrap32(top - B1) == if top == B1 then 0 else TWO32 + top - B1
  {
  }

  lemma PlusFive(h: Limbs, u1: nat, u2: nat, u3: nat)
    requires u1 == h.l1 + (h.l0 + 5) / B1 && u2 == h.l2 + u1 / B1 && u3 == h.l3 + u2 / B1
    ensures Value(h) + 5 == Spread((h.l0 + 5) % B1, u1 % B1, u2 % B1, u3 % B1, h.l4 + u3 / B1)
  {
  }

  lemma TopDecides(t0: nat, t1: nat, t2: nat, t3: nat, top: nat)
    requires t0 < B1 && t1 < B1 && t2 < B1 && t3 < B1 && top <= B1
    ensures Spread(t0, t1, t2, t3, top) >= B5 <==> top == B1
    ensures top == B1 ==> Spread(t0, t1, t2, t3, top) == Spread(t0, t1, t2, t3, 0) + B5
  {
  }

  lemma OncePrime(x: nat)
    requires x < B5
    ensures x % P == if x < P then x else x - P
  {
  }

  // -------------------------------------------------------------------- output

  /** `h %= 2^128`: five limbs repacked as four words. */
  method Pack(h: Limbs) returns (w0: Uint32, w1: Uint32, w2: Uint32, w3: Uint32)
    requires Tight(h)
    ensures Join(w0, w1, w2, w3) == Value(h) % TWO128
  {
    hide Or, Pow2, Value;
    PowersOfTwo();
    ShiftWord(h.l0, h.l1, 26, B1, 64);
    ShiftWord(h.l1 / 64, h.l2, 20, 0x10_0000, 0x1000);
    ShiftWord(h.l2 / 0x1000, h.l3, 14, 0x4000, 0x4_0000);
    ShiftWord(h.l3 / 0x4_0000, h.l4, 8, 0x100, 0x100_0000);
    w0 := Or(h.l0, Wrap32(h.l1 * B1));
    w1 := Or(h.l1 / 64, Wrap32(h.l2 * 0x10_0000));
    w2 := Or(h.l2 / 0x1000, Wrap32(h.l3 * 0x4000));
    w3 := Or(h.l3 / 0x4_0000, Wrap32(h.l4 * 0x100));
    Repack(h, w0, w1, w2, w3);
  }

  /** `lo | hi << k` in a 32-bit word: the high part loses its bits beyond the word. */
  lemma ShiftWord(lo: nat, hi: nat, k: nat, m: nat, rest: nat)
    requires k in {8, 14, 20, 26} && m == Pow2(k) && m * rest == TWO32 && lo < m && rest > 0
    ensures Or(lo, Wrap32(hi * m)) == lo + m * (hi % rest) < TWO32
  {
    hide Or, Pow2;
    var low := hi % rest;
    assert hi == (hi / rest) * rest + low;
    assert hi * m == (hi / rest) * TWO32 + m * low;
    assert m * low + m <= TWO32 by { MulMonotone(low + 1, rest, m); }
    DivModUnique(hi * m, TWO32, hi / rest, m * low);
    OrDisjoint(lo, low, k, m);
  }

  lemma Repack(h: Limbs, w0: nat, w1: nat, w2: nat, w3: nat)
    requires Tight(h)
    requires w0 == h.l0 + B1 * (h.l1 % 64) && w1 == h.l1 / 64 + 0x10_0000 * (h.l2 % 0x1000)
    requires w2 == h.l2 / 0x1000 + 0x4000 * (h.l3 % 0x4_0000) && w3 == h.l3 / 0x4_0000 + 0x100 * (h.l4 % 0x100_0000)
    ensures Join(w0, w1, w2, w3) == Value(h) % TWO128
  {
    var w := Join(w0, w1, w2, w3);
    assert Value(h) == (h.l4 / 0x100_0000) * TWO128 + w;
    DivModUnique(Value(h), TWO128, h.l4 / 0x100_0000, w);
  }

  /** Four words as one number. */
  function Join(a: nat, b: nat, c: nat, d: nat): nat { a + TWO32 * b + TWO64 * c + TWO32 * TWO64 * d }

  /** Adding four words with carries is addition modulo 2^128. */
  lemma AddChain(w0: nat, w1: nat, w2: nat, w3: nat, v0: nat, v1: nat, v2: nat, v3: nat, x0: nat, x1: nat, x2: nat, x3: nat,
                 c0: nat, c1: nat, c2: nat, c3: nat)
    requires x0 < TWO32 && x1 < TWO32 && x2 < TWO32 && x3 < TWO32
    requires w0 + v0 == x0 + TWO32 * c0 && w1 + v1 + c0 == x1 + TWO32 * c1
    requires w2 + v2 + c1 == x2 + TWO32 * c2 && w3 + v3 + c2 == x3 + TWO32 * c3
    ensures Join(x0, x1, x2, x3) == (Join(w0, w1, w2, w3) + Join(v0, v1, v2, v3)) % TWO128
  {
    DivModUnique(Join(w0, w1, w2, w3) + Join(v0, v1, v2, v3), TWO128, c3, Join(x0, x1, x2, x3));
  }

  lemma WordRange(bs: seq<Byte>, i: nat)
    requires i + 4 <= |bs|
    ensures Word(bs, i) < TWO32
  {
  }

  lemma WordCarry(t: nat)
    ensures t == Wrap32(t) + TWO32 * (t / TWO32) && Wrap32(t) < TWO32
  {
  }

  /** `tag = (h + s) % 2^128`, word by word with the carry in the upper half of a 64-bit sum. */
  method AddWords(w0: Uint32, w1: Uint32, w2: Uint32, w3: Uint32, s: seq<Byte>) returns (x0: Uint32, x1: Uint32, x2: Uint32, x3: Uint32)
    requires |s| == 16
    ensures Join(x0, x1, x2, x3)
         == (Join(w0, w1, w2, w3) + Le(s)) % TWO128
  {
    hide Le, Word, Wrap32, Join;
    Le16(s);
    WordRange(s, 0);
    WordRange(s, 4);
    WordRange(s, 8);
    WordRange(s, 12);
    var t: Uint64 := w0 + Word(s, 0);
    WordCarry(t);
    x0 := Wrap32(t);
    ghost var c0 := t / TWO32;
    t := w1 + Word(s, 4) + t / TWO32;
    WordCarry(t);
    x1 := Wrap32(t);
    ghost var c1 := t / TWO32;
    t := w2 + Word(s, 8) + t / TWO32;
    WordCarry(t);
    x2 := Wrap32(t);
    ghost var c2 := t / TWO32;
    t := w3 + Word(s, 12) + t / TWO32;
    WordCarry(t);
    x3 := Wrap32(t);
    AddChain(w0, w1, w2, w3, Word(s, 0), Word(s, 4), Word(s, 8), Word(s, 12), x0, x1, x2, x3, c0, c1, c2, t / TWO32);
  }

  /** `binary.LittleEndian.PutUint32`. */
  method PutWord(x: Uint32) returns (bs: seq<Byte>)
    ensures |bs| == 4 && Le(bs) == x
  {
    var y, z := x / 0x100, x / 0x1_0000;
    bs := [x % 0x100, y % 0x100, z % 0x100, x / 0x100_0000];
    DivModUnique(x, 0x1_0000, y / 0x100, 0x100 * (y % 0x100) + x % 0x100);
    DivModUnique(x, 0x100_0000, z / 0x100, 0x1_0000 * (z % 0x100) + x % 0x1_0000);
    Le4(bs);
  }

  lemma JoinWords(b0: seq<Byte>, b1: seq<Byte>, b2: seq<Byte>, b3: seq<Byte>)
    requires |b0| == 4 && |b1| == 4 && |b2| == 4
    ensures Le(b0 + (b1 + (b2 + b3))) == Join(Le(b0), Le(b1), Le(b2), Le(b3))
  {
    hide Le;
    AppendWord(b2, b3);
    AppendWord(b1, b2 + b3);
    AppendWord(b0, b1 + (b2 + b3));
  }

  lemma AppendWord(a: seq<Byte>, b: seq<Byte>)
    requires |a| == 4
    ensures Le(a + b) == Le(a) + TWO32 * Le(b)
  {
    LeAppend(a, b);
    assert Pow256(4) == TWO32;
  }

  lemma BlockWeight()
    ensures Pow256(16) == TWO128
  {
    assert Pow256(8) == TWO64;
  }

  /** The loop over whole blocks and the padded rest. */
  method Accumulate(msg: seq<Byte>, r: Limbs) returns (h: Limbs)
    requires Tight(r)
    ensures Loose(h) && Value(h) % P == Absorb(0, Value(r), msg)
  {
    hide Le, Pow256, Value, Loose, Added, Tight;
    h := Limbs(0, 0, 0, 0, 0);
    Zero();
    BlockWeight();
    var rest := msg;
    while |rest| >= 16
      invariant Loose(h)
      invariant Absorb(0, Value(r), msg) == Absorb(Value(h) % P, Value(r), rest)
      decreases |rest|
    {
      var g := AddBlock(h, rest[..16], true);
      ghost var was := h;
      h := MulReduce(g, r);
      AbsorbStep(Value(was), Value(r), rest, Value(g), Value(h));
      rest := rest[16..];
    }
    if |rest| > 0 {
      var block := rest + [1] + seq(15 - |rest|, _ => 0);
      PaddedDenotes(rest, block);
      assert rest[..|rest|] == rest && rest[|rest|..] == [];
      var g := AddBlock(h, block, false);
      ghost var was := h;
      h := MulReduce(g, r);
      AbsorbStep(Value(was), Value(r), rest, Value(g), Value(h));
    }
  }

  /** The authenticator of section 2.5 of RFC 7539, for every message and key. */
  method SumGeneric(msg: seq<Byte>, key: seq<Byte>) returns (out: seq<Byte>)
    requires |key| == 32
    ensures |out| == 16 && Le(out) == Tag(msg, key)
  {
    hide Le, Value, Loose, Tight, KeyLimbs, Clamp, Absorb;
    var r := KeyLimbs(key[..16]);
    KeyLimbsDenote(key[..16]);
    var h := Accumulate(msg, r);
    h := FinalCarry(h);
    h := SubtractPrime(h);
    var w0, w1, w2, w3 := Pack(h);
    var x0, x1, x2, x3 := AddWords(w0, w1, w2, w3, key[16..]);
    var b0 := PutWord(x0);
    var b1 := PutWord(x1);
    var b2 := PutWord(x2);
    var b3 := PutWord(x3);
    out := b0 + (b1 + (b2 + b3));
    JoinWords(b0, b1, b2, b3);
    SumModulo(Value(h), Le(key[16..]));
  }

  lemma SumModulo(x: nat, y: nat)
    ensures (x % TWO128 + y) % TWO128 == (x + y) % TWO128
  {
  }

  lemma Zero()
    ensures Loose(Limbs(0, 0, 0, 0, 0)) && Value(Limbs(0, 0, 0, 0, 0)) == 0
  {
  }

  /** One block of the specification, on an accumulator that is only known modulo the prime. */
  lemma AbsorbStep(acc: nat, r: nat, rest: seq<Byte>, sum: nat, next: nat)
    requires rest != []
    requires var k := if |rest| < 16 then |rest| else 16;
             sum == acc + Le(rest[..k]) + Pow256(k)
    requires next % P == (sum * r) % P
    ensures var k := if |rest| < 16 then |rest| else 16;
            Absorb(acc % P, r, rest) == Absorb(next % P, r, rest[k..])
  {
    var k := if |rest| < 16 then |rest| else 16;
    var reduced := acc % P + Le(rest[..k]) + Pow256(k);
    Congruent(sum, reduced, acc / P);
    MulCongruent(sum, reduced, r);
  }
}
