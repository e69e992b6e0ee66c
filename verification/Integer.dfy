/**
 DER INTEGER (golang.org/x/crypto/cryptobyte/asn1.go): the writer's shortest two's complement, the reader's check of
 it, and the reader's sign extension by shifting (section 8.3 of X.690).
 */
module Integer {

  import opened Wrappers
  import opened Arithmetic
  import opened Der
  import opened Cryptobyte

  const TWO63: int := 0x8000_0000_0000_0000
  const INTEGER: Byte := 2

  predicate IsInt64(v: int) { -TWO63 <= v < TWO63 }

  type Int64 = v: int | IsInt64(v)

  // ------------------------------------------------------------------ meaning

  /** The number that octets denote in two's complement. */
  function SignedValue(bs: seq<Byte>): int
    requires bs != []
  {
    if bs[0] < 128 then Be(bs) else Be(bs) - Pow256(|bs|)
  }

  /** `checkASN1Integer`: not empty, and the first nine bits are not all equal. */
  predicate CheckInteger(bs: seq<Byte>) {
    bs != [] && (|bs| == 1 || !((bs[0] == 0 && bs[1] < 128) || (bs[0] == 255 && bs[1] >= 128)))
  }

  /** Arithmetic shift right by whole octets. */
  function Sar(v: int, k: nat): int { if k == 0 then v else Sar(v, k - 1) / 256 }

  predicate Small(v: int) { -128 <= v < 128 }

  /** The last `k` octets of a number in two's complement. */
  function Digits(v: int, k: nat): (bs: seq<Byte>)
    ensures |bs| == k
    decreases k
  {
    if k == 0 then [] else Digits(v / 256, k - 1) + [v % 256]
  }

  /** The least number of octets that hold a number. */
  function IntLen(v: int): (k: nat)
    ensures k >= 1
    decreases if v < 0 then -v else v
  {
    if Small(v) then 1 else 1 + IntLen(v / 256)
  }

  function IntBytes(v: int): seq<Byte> { Digits(v, IntLen(v)) }

  // ------------------------------------------------------------------ lemmas

  lemma {:induction false} SarInner(v: int, k: nat)
    ensures Sar(v / 256, k) == Sar(v, k + 1)
  {
    if k > 0 { SarInner(v, k - 1); }
  }

  lemma {:induction false} DigitsBe(v: int, k: nat)
    ensures Be(Digits(v, k)) == v - Sar(v, k) * Pow256(k)
    decreases k
  {
    if k > 0 {
      DigitsBe(v / 256, k - 1);
      SarInner(v, k - 1);
      assert Digits(v, k)[..k - 1] == Digits(v / 256, k - 1) && Digits(v, k)[k - 1] == v % 256;
      hide Sar, Digits, Pow256;
      Scale(Sar(v, k), Pow256(k - 1));
      PowStep(k);
      BeLast(Digits(v, k));
    }
  }

  lemma Scale(c: int, p: int)
    ensures c * (256 * p) == 256 * (c * p)
  {
  }

  lemma PowStep(k: nat)
    requires k > 0
    ensures Pow256(k) == 256 * Pow256(k - 1)
  {
  }

  lemma BeLast(bs: seq<Byte>)
    requires bs != []
    ensures Be(bs) == Be(bs[..|bs| - 1]) * 256 + bs[|bs| - 1]
  {
  }

  lemma {:induction false} DigitAt(v: int, k: nat, i: nat)
    requires i < k
    ensures Digits(v, k)[i] == Sar(v, k - 1 - i) % 256
    decreases k
  {
    if i < k - 1 {
      DigitAt(v / 256, k - 1, i);
      SarInner(v, k - 2 - i);
    }
  }

  /** Enough octets for the number denote it. */
  lemma DigitsValue(v: int, k: nat)
    requires k >= 1 && Small(Sar(v, k - 1))
    ensures SignedValue(Digits(v, k)) == v
  {
    DigitsBe(v, k);
    DigitAt(v, k, 0);
    assert Sar(v, k) == if Sar(v, k - 1) < 0 then -1 else 0;
  }

  /** The length that the code counts: the first at which the rest is small. */
  lemma {:induction false} IntLenFirst(v: int)
    ensures Small(Sar(v, IntLen(v) - 1)) && (IntLen(v) >= 2 ==> !Small(Sar(v, IntLen(v) - 2)))
    decreases if v < 0 then -v else v
  {
    if !Small(v) {
      var w := v / 256;
      IntLenFirst(w);
      SarInner(v, IntLen(w) - 1);
      if IntLen(w) >= 2 { SarInner(v, IntLen(w) - 2); }
    }
  }

  lemma {:induction false} SmallStays(v: int, i: nat, j: nat)
    requires i <= j && Small(Sar(v, i))
    ensures Small(Sar(v, j))
  {
    if i < j { SmallStays(v, i, j - 1); }
  }

  /** The shortest encoding is accepted and denotes the number. */
  lemma IntBytesValue(v: int)
    ensures CheckInteger(IntBytes(v)) && SignedValue(IntBytes(v)) == v
  {
    var k := IntLen(v);
    IntLenFirst(v);
    DigitsValue(v, k);
    DigitAt(v, k, 0);
    if k >= 2 {
      DigitAt(v, k, 1);
      var x := Sar(v, k - 2);
      assert Sar(v, k - 1) == x / 256;
    }
  }

  lemma {:induction false} DigitsOf(bs: seq<Byte>, c: int)
    ensures Digits(Be(bs) + c * Pow256(|bs|), |bs|) == bs
  {
    if bs != [] {
      var init, last := bs[..|bs| - 1], bs[|bs| - 1];
      DigitsOf(init, c);
      assert bs == init + [last];
      hide Be, Pow256;
      BeLast(bs);
      PowStep(|bs|);
      Scale(c, Pow256(|init|));
      DivModUnique(Be(bs) + c * Pow256(|bs|), 256, Be(init) + c * Pow256(|init|), last);
    }
  }

  lemma {:induction false} SarOf(bs: seq<Byte>, c: int, j: nat)
    requires j <= |bs|
    ensures Sar(Be(bs) + c * Pow256(|bs|), j) == Be(bs[..|bs| - j]) + c * Pow256(|bs| - j)
  {
    if j == 0 {
      assert bs[..|bs|] == bs;
    } else {
      SarOf(bs, c, j - 1);
      var longer := bs[..|bs| - j + 1];
      assert longer[..|longer| - 1] == bs[..|bs| - j];
      hide Be, Pow256;
      BeLast(longer);
      PowStep(|bs| - j + 1);
      Scale(c, Pow256(|bs| - j));
      DivModUnique(Be(longer) + c * Pow256(|longer|), 256, Be(bs[..|bs| - j]) + c * Pow256(|bs| - j), longer[|longer| - 1]);
    }
  }

  /** Octets that pass the check are the shortest encoding of their value: it is the only one. */
  lemma CheckedIsShortest(bs: seq<Byte>)
    requires CheckInteger(bs)
    ensures bs == IntBytes(SignedValue(bs))
  {
    var v, n := SignedValue(bs), |bs|;
    var c := if bs[0] < 128 then 0 else -1;
    assert v == Be(bs) + c * Pow256(n);
    DigitsOf(bs, c);
    SarOf(bs, c, n - 1);
    First(bs);
    assert Small(Sar(v, n - 1));
    if n >= 2 {
      SarOf(bs, c, n - 2);
      assert !Small(Sar(v, n - 2));
    }
    IntLenFirst(v);
    if IntLen(v) < n { SmallStays(v, IntLen(v) - 1, n - 2); }
    if n < IntLen(v) { SmallStays(v, n - 1, IntLen(v) - 2); }
  }

  lemma First(bs: seq<Byte>)
    requires bs != []
    ensures Be(bs[..1]) == bs[0] && (|bs| >= 2 ==> Be(bs[..2]) == Be(bs[..1]) * 256 + bs[1])
    ensures Pow256(1) == 256 && Pow256(2) == 0x1_0000
  {
  }

  // ------------------------------------------------------------------ 64 bits

  /** Numbers of at most eight octets are those of 64 bits. */
  lemma EightOctets(bs: seq<Byte>)
    requires CheckInteger(bs)
    ensures |bs| <= 8 <==> IsInt64(SignedValue(bs))
  {
    var v, n := SignedValue(bs), |bs|;
    CheckedIsShortest(bs);
    IntLenFirst(v);
    SarRange(v);
    if n <= 8 { SmallStays(v, n - 1, 7); }
    if Small(Sar(v, 7)) && n > 8 { SmallStays(v, 7, n - 2); }
  }

  lemma SarRange(v: int)
    ensures Small(Sar(v, 7)) <==> IsInt64(v)
  {
    SarWithin(v, 7, 128, 0x8000_0000_0000_0000, 0x100_0000_0000_0000);
  }

  /** A shifted number is within a bound exactly when the number is within the bound shifted up. */
  lemma {:induction false} SarWithin(v: int, k: nat, bound: int, top: int, scale: int)
    requires scale == Pow256(k) && top == bound * scale
    ensures -bound <= Sar(v, k) < bound <==> -top <= v < top
    decreases k
  {
    if k > 0 {
      Scale(bound, Pow256(k - 1));
      SarWithin(v, k - 1, 256 * bound, top, Pow256(k - 1));
    }
  }

  /** The contents of an INTEGER as `addASN1Signed` writes them: count the octets, then emit them from the first. */
  method SignedBytes(v: int) returns (bs: seq<Byte>)
    requires IsInt64(v)
    ensures bs == IntBytes(v) && |bs| <= 8
  {
    var length, i := 1, v;
    while i >= 0x80 || i < -0x80
      invariant length >= 1 && i == Sar(v, length - 1) && IntLen(v) == length - 1 + IntLen(i)
      decreases if i < 0 then -i else i
    {
      i := i / 256;
      length := length + 1;
    }
    assert length == IntLen(v);
    bs := [];
    while length > 0
      invariant 0 <= length <= IntLen(v) && |bs| == IntLen(v) - length
      invariant forall k :: 0 <= k < |bs| ==> bs[k] == IntBytes(v)[k]
    {
      DigitAt(v, IntLen(v), |bs|);
      bs := bs + [Sar(v, length - 1) % 256];
      length := length - 1;
    }
    IntBytesValue(v);
    EightOctets(bs);
  }

  /** The 64-bit pattern of a number, read as signed. */
  function Signed64(x: int): int { (x + TWO63) % TWO64 - TWO63 }

  lemma SameSigned64(x: int, y: int, k: int)
    requires x == y + k * TWO64
    ensures Signed64(x) == Signed64(y)
  {
  }

  lemma Signed64Is(x: int)
    ensures Signed64(x) == x - ((x + TWO63) / TWO64) * TWO64 && IsInt64(Signed64(x)) && (IsInt64(x) ==> Signed64(x) == x)
  {
  }

  /** Shifting in one octet does not carry into the others. */
  lemma ShiftIn(x: int, b: Byte)
    ensures Signed64(x * 256) + b == Signed64(x * 256 + b) && IsInt64(Signed64(x * 256) + b)
  {
  }

  lemma {:induction false} PowAdd(a: nat, b: nat)
    ensures Pow256(a) * Pow256(b) == Pow256(a + b)
  {
    if a > 0 {
      PowAdd(a - 1, b);
      assert 256 * Pow256(a - 1) * Pow256(b) == 256 * (Pow256(a - 1) * Pow256(b));
    }
  }

  /** The value of `out` after `i` octets, up to a multiple of 2^64. */
  ghost predicate ShiftedIn(before: int, n: seq<Byte>, i: nat, out: int, k: int)
    requires i <= |n|
  {
    out == before * Pow256(i) + Be(n[..i]) + k * TWO64
  }

  lemma ShiftInStep(before: int, n: seq<Byte>, i: nat, out: int, k: int)
    requires i < |n| && ShiftedIn(before, n, i, out, k)
    ensures ShiftedIn(before, n, i + 1, Signed64(out * 256) + n[i], k * 256 - (out * 256 + TWO63) / TWO64)
  {
    hide Signed64;
    Signed64Is(out * 256);
    assert n[..i + 1][..i] == n[..i];
    Scale(before, Pow256(i));
  }

  /** Shifting up leaves the octets on top, and shifting down then extends their sign. */
  lemma SignExtends(before: int, n: seq<Byte>, out: int, k: int)
    requires 0 < |n| <= 8 && ShiftedIn(before, n, |n|, out, k)
    ensures var p := Pow256(8 - |n|);
            Signed64(out * p) / p == SignedValue(n)
  {
    hide Signed64, Pow256;
    var l, p, v := |n|, Pow256(8 - |n|), SignedValue(n);
    assert n[..l] == n;
    PowAdd(l, 8 - l);
    EightPow();
    ghost var c := if n[0] < 128 then 0 else -1;
    assert v == Be(n) + c * Pow256(l);
    ghost var m := before - c + k * p;
    assert before * Pow256(l) == c * Pow256(l) + (before - c) * Pow256(l);
    ShiftUp(out, v, before - c, Pow256(l), k, p);
    SameSigned64(out * p, v * p, m);
    SignedBound(n);
    ScaleBound(v, p, l);
    Signed64Is(v * p);
    DivModUnique(v * p, p, v, 0);
  }

  lemma ShiftUp(out: int, v: int, e: int, l: int, k: int, p: int)
    requires out == v + e * l + k * TWO64 && l * p == TWO64
    ensures out * p == v * p + (e + k * p) * TWO64
  {
  }

  lemma EightPow()
    ensures Pow256(8) == TWO64
  {
  }

  lemma SignedBound(n: seq<Byte>)
    requires n != []
    ensures 0 <= 2 * SignedValue(n) + Pow256(|n|) && 2 * SignedValue(n) < Pow256(|n|)
  {
    hide Be, Pow256;
    PowStep(|n|);
    BeBound(n);
    var first: nat, p := n[0], Pow256(|n| - 1);
    LeadingOctet(n, first);
    if first < 128 { MulMonotone(first + 1, 128, p); } else { MulMonotone(128, first, p); }
  }

  lemma {:induction false} LeadingOctet(n: seq<Byte>, first: nat)
    requires n != [] && first == n[0]
    ensures first * Pow256(|n| - 1) <= Be(n) < (first + 1) * Pow256(|n| - 1)
  {
    if |n| == 1 {
      assert n[..0] == [];
    } else {
      var init := n[..|n| - 1];
      LeadingOctet(init, first);
      Scale(first, Pow256(|n| - 2));
      Scale(first + 1, Pow256(|n| - 2));
    }
  }

  lemma MulOrdered(a: int, b: int, p: nat)
    requires a <= b
    ensures a * p <= b * p
  {
  }

  lemma Halves(v: int, m: int, p: int)
    ensures (2 * v + 1) * p == 2 * (v * p) + p && (2 * v + m) * p == 2 * (v * p) + m * p
  {
  }

  lemma ScaleBound(v: int, p: nat, l: nat)
    requires l <= 8 && p == Pow256(8 - l) && 0 <= 2 * v + Pow256(l) && 2 * v < Pow256(l)
    ensures IsInt64(v * p)
  {
    hide Pow256;
    PowAdd(l, 8 - l);
    EightPow();
    var m := Pow256(l);
    MulOrdered(2 * v + 1, m, p);
    MulOrdered(0, 2 * v + m, p);
    Halves(v, m, p);
  }

  /** `asn1Signed`: the octets are shifted in and the sign is extended by shifting up and down; what `out` held before is shifted out. */
  method Asn1Signed(before: Int64, n: seq<Byte>) returns (ok: bool, out: Int64)
    ensures ok <==> |n| <= 8
    ensures ok && n != [] ==> out == SignedValue(n)
  {
    hide Signed64, Be, Pow256, ShiftedIn;
    var length := |n|;
    out := before;
    if length > 8 { return false, out; }
    ghost var k: int := 0;
    assert ShiftedIn(before, n, 0, out, 0) by { NothingShifted(before, n); }
    for i := 0 to length
      invariant ShiftedIn(before, n, i, out, k)
    {
      ShiftInStep(before, n, i, out, k);
      ShiftIn(out, n[i]);
      k := k * 256 - (out * 256 + TWO63) / TWO64;
      out := Signed64(out * 256) + n[i];
    }
    if length > 0 { SignExtends(before, n, out, k); }
    Signed64Is(out * Pow256(8 - length));
    out := Signed64(out * Pow256(8 - length));
    QuotientBound(out, Pow256(8 - length));
    out := out / Pow256(8 - length);
    ok := true;
  }

  lemma QuotientBound(x: int, p: int)
    requires IsInt64(x) && p >= 1
    ensures IsInt64(x / p)
  {
  }

  lemma NothingShifted(before: int, n: seq<Byte>)
    ensures ShiftedIn(before, n, 0, before, 0)
  {
  }

  // ------------------------------------------------------------------ whole elements

  /** What `readASN1Int64` accepts: the number and what follows the element. */
  function ReadInt64(s: seq<Byte>): Option<(int, seq<Byte>)> {
    match ReadElement(s)
    case None => None
    case Some(p) =>
      if p.tag == INTEGER && CheckInteger(p.content) && |p.content| <= 8 then Some((SignedValue(p.content), p.rest)) else None
  }

  /** Every 64-bit number is read back from what is written for it. */
  lemma Int64RoundTrip(v: Int64, rest: seq<Byte>)
    ensures |IntBytes(v)| <= 8 && ReadInt64(Element(2, IntBytes(v)) + rest) == Some((v as int, rest))
  {
    hide SignedValue, CheckInteger;
    IntBytesValue(v);
    EightOctets(IntBytes(v));
    ElementRoundTrip(INTEGER, IntBytes(v), rest);
  }

  /** And it is read from nothing else: the accepted encoding is unique. */
  lemma Int64Canonical(s: seq<Byte>)
    requires ReadInt64(s).Some?
    ensures var (v, rest) := ReadInt64(s).value;
            IsInt64(v) && |IntBytes(v)| <= 8 && s == Element(2, IntBytes(v)) + rest
  {
    var content := ReadElement(s).value.content;
    ElementCanonical(s);
    CheckedIsShortest(content);
    EightOctets(content);
  }

  /** `addASN1Signed`. */
  method AddASN1Signed(b: Builder, tag: Byte, v: Int64)
    requires !b.err
    modifies b
    ensures b.err <==> HighTagNumber(tag)
    ensures !b.err ==> |IntBytes(v)| <= 8 && b.result == old(b.result) + Element(tag, IntBytes(v))
  {
    var bs := SignedBytes(v);
    assert EncodeAll([Raw(bs)]) == Some(bs) by { EncodeOne(bs); }
    hide HighTagNumber, Length, EncodeAll;
    b.AddASN1(tag, [Raw(bs)]);
  }

  lemma EncodeOne(bs: seq<Byte>)
    ensures EncodeAll([Raw(bs)]) == Some(bs)
  {
    assert EncodeAll([Raw(bs)][1..]) == Some([]);
    assert bs + [] == bs;
  }

  /** `readASN1Int64`. */
  method ReadASN1Int64(r: Reader) returns (ok: bool, out: Int64)
    modifies r
    ensures ok == ReadInt64(old(r.s)).Some?
    ensures ok ==> (out as int, r.s) == ReadInt64(old(r.s)).value
  {
    out := 0;
    var tag: Byte, bytes: seq<Byte>;
    ok, tag, bytes := r.ReadASN1(true, 0);
    if !ok || tag != INTEGER || !CheckInteger(bytes) { return false, out; }
    ok, out := Asn1Signed(out, bytes);
  }
}
