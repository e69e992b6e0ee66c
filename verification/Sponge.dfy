/**
 The buffering of the SHA-3 sponge (golang.org/x/crypto/sha3/sha3.go): however input is divided over `Write` and
 output over `Read`, the bytes are those of the sponge construction of FIPS 202 (sections 4 and 5.1) on the whole
 input. The permutation, the exclusive-or into the state and the bytes of a state are parameters.
 */
module Sponge {

  import opened Arithmetic

  datatype Keccak<!S> = Keccak(rate: nat, dsbyte: Byte, zero: S, xorIn: (S, seq<Byte>) -> S, permute: S -> S, bytes: S -> seq<Byte>)

  /** The size of a hash's buffer in memory, the largest rate. */
  const MAX_RATE: nat := 168

  /** A state yields as many bytes as the rate; the separation byte leaves room for the last padding bit. */
  ghost predicate Valid<S(!new)>(k: Keccak<S>) {
    0 < k.rate <= MAX_RATE && k.dsbyte < 128 && forall s: S :: |k.bytes(s)| == k.rate
  }

  // ------------------------------------------------------------------ the construction

  /** The state after the whole blocks of a message. */
  function Absorbed<S>(k: Keccak<S>, s: S, m: seq<Byte>): S
    requires k.rate > 0
    decreases |m|
  {
    if |m| < k.rate then s else Absorbed(k, k.permute(k.xorIn(s, m[..k.rate])), m[k.rate..])
  }

  /** What is left after the whole blocks. */
  function Leftover(rate: nat, m: seq<Byte>): (r: seq<Byte>)
    requires rate > 0
    ensures |r| < rate
    decreases |m|
  {
    if |m| < rate then m else Leftover(rate, m[rate..])
  }

  /** The first `n` bytes squeezed from a state. */
  function Squeezed<S(!new)>(k: Keccak<S>, s: S, n: nat): (r: seq<Byte>)
    requires Valid(k)
    ensures |r| == n
    decreases n
  {
    if n <= k.rate then k.bytes(s)[..n] else k.bytes(s) + Squeezed(k, k.permute(s), n - k.rate)
  }

  /** Flipping the top bit of a byte. */
  function FlipTop(b: Byte): Byte { if b < 128 then b + 128 else b - 128 }

  /** The last block: the rest of the message, the separation byte, zeros, and the top bit of the last byte flipped. */
  function LastBlock(rate: nat, dsbyte: Byte, rest: seq<Byte>): (r: seq<Byte>)
    requires |rest| < rate
    ensures |r| == rate
  {
    var filled := rest + [dsbyte] + seq(rate - |rest| - 1, _ => 0);
    filled[rate - 1 := FlipTop(filled[rate - 1])]
  }

  /** The state from which output is squeezed. */
  function Padded<S>(k: Keccak<S>, m: seq<Byte>): S
    requires k.rate > 0
  {
    k.permute(k.xorIn(Absorbed(k, k.zero, m), LastBlock(k.rate, k.dsbyte, Leftover(k.rate, m))))
  }

  /** The first `n` bytes of the sponge's output for a message. */
  function OneShot<S(!new)>(k: Keccak<S>, m: seq<Byte>, n: nat): seq<Byte>
    requires Valid(k)
  {
    Squeezed(k, Padded(k, m), n)
  }

  // ------------------------------------------------------------------ padding, bit by bit

  /** Bits of a byte, least significant first. */
  function ByteBits(b: nat, width: nat): (r: seq<bool>)
    ensures |r| == width
  {
    if width == 0 then [] else [b % 2 == 1] + ByteBits(b / 2, width - 1)
  }

  function Bits(bs: seq<Byte>): (r: seq<bool>)
    ensures |r| == 8 * |bs|
  {
    if bs == [] then [] else ByteBits(bs[0], 8) + Bits(bs[1..])
  }

  function Zeros(n: nat): seq<bool> { seq(n, _ => false) }

  /** A suffix and the padding 1 0...0 1 of section 5.1 of FIPS 202, `n` bits in all. */
  function Pad101(suffix: seq<bool>, n: nat): (r: seq<bool>)
    requires |suffix| + 2 <= n
    ensures |r| == n
  {
    suffix + [true] + Zeros(n - |suffix| - 2) + [true]
  }

  /** The separation byte of a suffix: its bits and then the first padding bit. */
  function SeparationByte(suffix: seq<bool>): nat {
    if suffix == [] then 1 else (if suffix[0] then 1 else 0) + 2 * SeparationByte(suffix[1..])
  }

  lemma {:induction false} SeparationBits(suffix: seq<bool>, width: nat)
    requires |suffix| < width
    ensures ByteBits(SeparationByte(suffix), width) == suffix + [true] + Zeros(width - |suffix| - 1)
  {
    if suffix == [] {
      ZeroBits(width - 1);
    } else {
      SeparationBits(suffix[1..], width - 1);
      var d := SeparationByte(suffix[1..]);
      assert SeparationByte(suffix) / 2 == d;
      assert suffix == [suffix[0]] + suffix[1..];
    }
  }

  lemma {:induction false} ZeroBits(width: nat)
    ensures ByteBits(0, width) == Zeros(width)
  {
    if width > 0 { ZeroBits(width - 1); }
  }

  lemma {:induction false} BitsAppend(a: seq<Byte>, b: seq<Byte>)
    ensures Bits(a + b) == Bits(a) + Bits(b)
  {
    if a == [] {
      assert a + b == b;
    } else {
      assert (a + b)[1..] == a[1..] + b;
      BitsAppend(a[1..], b);
    }
  }

  lemma {:induction false} ZeroBytes(n: nat)
    ensures Bits(seq(n, _ => 0)) == Zeros(8 * n)
  {
    if n > 0 {
      assert seq(n, _ => 0 as Byte)[1..] == seq(n - 1, _ => 0);
      ZeroBytes(n - 1);
      ZeroBits(8);
    }
  }

  lemma {:induction false} TopBit(b: nat, width: nat, top: nat)
    requires width > 0 && top == Pow2(width - 1) && b < top
    ensures ByteBits(b + top, width) == ByteBits(b, width)[width - 1 := true] && !ByteBits(b, width)[width - 1]
  {
    if width > 1 {
      assert top % 2 == 0 && (b + top) / 2 == b / 2 + top / 2;
      TopBit(b / 2, width - 1, top / 2);
    }
  }

  lemma {:induction false} SeparationSmall(suffix: seq<bool>)
    ensures SeparationByte(suffix) < Pow2(|suffix| + 1)
  {
    if suffix != [] { SeparationSmall(suffix[1..]); }
  }

  lemma {:induction false} PowGrows(a: nat, b: nat)
    requires a <= b
    ensures Pow2(a) <= Pow2(b)
  {
    if a < b { PowGrows(a, b - 1); }
  }

  lemma SeparationFits(suffix: seq<bool>)
    requires |suffix| <= 6
    ensures SeparationByte(suffix) < 128 && Pow2(7) == 128
  {
    SeparationSmall(suffix);
    PowGrows(|suffix| + 1, 7);
  }

  /** The last block is the message's rest, the suffix and the padding. */
  lemma LastBlockIsPadded(rate: nat, suffix: seq<bool>, rest: seq<Byte>)
    requires |rest| < rate && |suffix| <= 6
    ensures SeparationByte(suffix) < 128
    ensures Bits(LastBlock(rate, SeparationByte(suffix), rest))
         == Bits(rest) + Pad101(suffix, 8 * (rate - |rest|))
  {
    hide Bits, LastBlock, SeparationByte, Pad101;
    SeparationFits(suffix);
    if |rest| + 1 == rate { ShortPad(rate, suffix, rest); } else { LongPad(rate, suffix, rest); }
  }

  lemma ShortPad(rate: nat, suffix: seq<bool>, rest: seq<Byte>)
    requires |rest| + 1 == rate && |suffix| <= 6 && SeparationByte(suffix) < 128
    ensures Bits(LastBlock(rate, SeparationByte(suffix), rest)) == Bits(rest) + Pad101(suffix, 8)
  {
    hide Bits, ByteBits, SeparationByte, Pow2;
    SeparationFits(suffix);
    var d: Byte := SeparationByte(suffix);
    assert LastBlock(rate, d, rest) == rest + [d + 128];
    BitsAppend(rest, [d + 128]);
    OneByte(d + 128);
    TopBit(d, 8, 128);
    SeparationBits(suffix, 8);
    assert (suffix + [true] + Zeros(8 - |suffix| - 1))[7 := true] == suffix + [true] + Zeros(6 - |suffix|) + [true];
  }

  lemma LongPad(rate: nat, suffix: seq<bool>, rest: seq<Byte>)
    requires |rest| + 1 < rate && |suffix| <= 6 && SeparationByte(suffix) < 128
    ensures Bits(LastBlock(rate, SeparationByte(suffix), rest))
         == Bits(rest) + Pad101(suffix, 8 * (rate - |rest|))
  {
    hide Bits, ByteBits, SeparationByte, Pow2, Zeros, LastBlock, Pad101;
    var d: Byte := SeparationByte(suffix);
    var n := rate - |rest| - 2;
    var zeros: seq<Byte> := seq(n, _ => 0);
    var tail := [d] + (zeros + [128]);
    LongLast(rate, d, rest, zeros);
    BitsAppend(rest, tail);
    assert Bits(tail) == Pad101(suffix, 8 * (n + 2)) by { TailBits(suffix, d, n, zeros); }
  }

  lemma TailBits(suffix: seq<bool>, d: Byte, n: nat, zeros: seq<Byte>)
    requires |suffix| <= 6 && d == SeparationByte(suffix) && zeros == seq(n, _ => 0)
    ensures Bits([d] + (zeros + [128])) == Pad101(suffix, 8 * (n + 2))
  {
    hide Bits, ByteBits, SeparationByte, Zeros;
    BitsAppend([d], zeros + [128]);
    BitsAppend(zeros, [128]);
    OneByte(d);
    LastByte();
    ZeroBytes(n);
    SeparationBits(suffix, 8);
    JoinZeros(suffix + [true], 7 - |suffix|, 8 * n, 7);
  }

  lemma LastByte()
    ensures Bits([128]) == Zeros(7) + [true]
  {
    SeparationFits([]);
    OneByte(128);
    TopBit(0, 8, 128);
    ZeroBits(8);
    assert Zeros(8)[7 := true] == Zeros(7) + [true];
  }

  lemma LongLast(rate: nat, d: Byte, rest: seq<Byte>, zeros: seq<Byte>)
    requires |rest| + 1 < rate && zeros == seq(rate - |rest| - 2, _ => 0)
    ensures LastBlock(rate, d, rest) == rest + ([d] + (zeros + [128]))
  {
  }

  lemma OneByte(b: Byte)
    ensures Bits([b]) == ByteBits(b, 8)
  {
  }

  lemma JoinZeros(x: seq<bool>, a: nat, b: nat, c: nat)
    ensures (x + Zeros(a)) + (Zeros(b) + (Zeros(c) + [true])) == x + Zeros(a + b + c) + [true]
  {
  }

  /** The bytes that padding adds to a message. */
  function Pad(rate: nat, dsbyte: Byte, m: seq<Byte>): seq<Byte>
    requires rate > 0
  {
    LastBlock(rate, dsbyte, Leftover(rate, m))[|Leftover(rate, m)|..]
  }

  /** Padding appends the suffix and 1 0...0 1, with the fewest zeros that fill the last block. */
  lemma PadIsPad101(rate: nat, suffix: seq<bool>, m: seq<Byte>)
    requires rate > 0 && |suffix| <= 6
    ensures SeparationByte(suffix) < 128
    ensures Bits(Pad(rate, SeparationByte(suffix), m)) == Pad101(suffix, 8 * (rate - |Leftover(rate, m)|))
  {
    hide Bits, Leftover, LastBlock, SeparationByte, Pad101;
    var rest := Leftover(rate, m);
    LastBlockIsPadded(rate, suffix, rest);
    var d: Byte := SeparationByte(suffix);
    assert LastBlock(rate, d, rest) == rest + Pad(rate, d, m) by { StartsWithRest(rate, d, rest); }
    BitsAppend(rest, Pad(rate, d, m));
    Cancel(Bits(rest), Bits(Pad(rate, d, m)), Pad101(suffix, 8 * (rate - |rest|)));
  }

  lemma StartsWithRest(rate: nat, d: Byte, rest: seq<Byte>)
    requires |rest| < rate
    ensures LastBlock(rate, d, rest) == rest + LastBlock(rate, d, rest)[|rest|..]
  {
  }

  lemma Cancel(a: seq<bool>, x: seq<bool>, y: seq<bool>)
    requires a + x == a + y
    ensures x == y
  {
    assert x == (a + x)[|a|..] && y == (a + y)[|a|..];
  }

  /** The state before squeezing has absorbed the padded message, in whole blocks. */
  lemma PaddedIsAbsorbed<S>(k: Keccak<S>, m: seq<Byte>)
    requires k.rate > 0
    ensures Padded(k, m) == Absorbed(k, k.zero, m + Pad(k.rate, k.dsbyte, m)) && Leftover(k.rate, m + Pad(k.rate, k.dsbyte, m)) == []
  {
    var rest, pad := Leftover(k.rate, m), Pad(k.rate, k.dsbyte, m);
    AbsorbAppend(k, k.zero, m, pad);
    assert rest + pad == LastBlock(k.rate, k.dsbyte, rest);
    AbsorbBlock(k, Absorbed(k, k.zero, m), rest + pad);
  }

  // ------------------------------------------------------------------ splitting

  /** Absorbing in two parts: the rest of the first goes in front of the second. */
  lemma {:induction false} AbsorbAppend<S>(k: Keccak<S>, s: S, m: seq<Byte>, x: seq<Byte>)
    requires k.rate > 0
    ensures Absorbed(k, s, m + x) == Absorbed(k, Absorbed(k, s, m), Leftover(k.rate, m) + x)
    ensures Leftover(k.rate, m + x) == Leftover(k.rate, Leftover(k.rate, m) + x)
    decreases |m|
  {
    if |m| >= k.rate {
      assert (m + x)[..k.rate] == m[..k.rate] && (m + x)[k.rate..] == m[k.rate..] + x;
      AbsorbAppend(k, k.permute(k.xorIn(s, m[..k.rate])), m[k.rate..], x);
    }
  }

  /** A whole block at once. */
  lemma AbsorbBlock<S>(k: Keccak<S>, s: S, block: seq<Byte>)
    requires k.rate > 0 && |block| == k.rate
    ensures Absorbed(k, s, block) == k.permute(k.xorIn(s, block)) && Leftover(k.rate, block) == []
  {
    assert block[..k.rate] == block && block[k.rate..] == [];
  }

  /** `n` more bytes when `buf` is what is left of the block of state `s`. */
  function Tail<S(!new)>(k: Keccak<S>, s: S, buf: seq<Byte>, n: nat): seq<Byte>
    requires Valid(k)
  {
    if n <= |buf| then buf[..n] else buf + Squeezed(k, k.permute(s), n - |buf|)
  }

  lemma TailTake<S(!new)>(k: Keccak<S>, s: S, buf: seq<Byte>, m: nat, n: nat)
    requires Valid(k) && m <= |buf|
    ensures Tail(k, s, buf, m + n) == buf[..m] + Tail(k, s, buf[m..], n)
  {
  }

  /** An exhausted block is replaced by the next. */
  lemma TailNext<S(!new)>(k: Keccak<S>, s: S, n: nat)
    requires Valid(k)
    ensures Tail(k, s, [], n) == Tail(k, k.permute(s), k.bytes(k.permute(s)), n)
  {
  }

  /**
   After `out`, the output for `input` goes on with `rest`, the end of the block of state `s`; `out` ends with that block's
   beginning.
   */
  ghost predicate Follows<S(!new)>(k: Keccak<S>, input: seq<Byte>, s: S, out: seq<Byte>, rest: seq<Byte>) {
    && Valid(k) && |rest| <= k.rate
    && var x := k.rate - |rest|;
       && rest == k.bytes(s)[x..] && x <= |out| && out[|out| - x..] == k.bytes(s)[..x]
       && forall n: nat :: OneShot(k, input, |out| + n) == out + Tail(k, s, rest, n)
  }

  /** Giving the first bytes of what is left. */
  lemma TakeFollows<S(!new)>(k: Keccak<S>, input: seq<Byte>, s: S, out: seq<Byte>, rest: seq<Byte>, m: nat)
    requires Follows(k, input, s, out, rest) && m <= |rest|
    ensures Follows(k, input, s, out + rest[..m], rest[m..])
  {
    hide OneShot, Tail;
    var more, x, block := out + rest[..m], k.rate - |rest|, k.bytes(s);
    forall i: nat ensures OneShot(k, input, |more| + i) == more + Tail(k, s, rest[m..], i) {
      assert OneShot(k, input, |out| + (m + i)) == out + Tail(k, s, rest, m + i);
      TailTake(k, s, rest, m, i);
    }
    assert rest[m..] == block[x + m..] && rest[..m] == block[x..x + m];
    assert more[|more| - (x + m)..] == out[|out| - x..] + rest[..m];
    assert block[..x] + block[x..x + m] == block[..x + m];
  }

  /** An exhausted block is followed by the next. */
  lemma NextFollows<S(!new)>(k: Keccak<S>, input: seq<Byte>, s: S, out: seq<Byte>)
    requires Follows(k, input, s, out, [])
    ensures Follows(k, input, k.permute(s), out, k.bytes(k.permute(s)))
  {
    hide OneShot, Tail;
    var next := k.permute(s);
    forall n: nat ensures OneShot(k, input, |out| + n) == out + Tail(k, next, k.bytes(next), n) {
      TailNext(k, s, n);
      assert OneShot(k, input, |out| + n) == out + Tail(k, s, [], n);
    }
    assert k.bytes(next)[0..] == k.bytes(next) && k.bytes(next)[..0] == [] && out[|out|..] == [];
  }

  lemma FirstFollows<S(!new)>(k: Keccak<S>, input: seq<Byte>)
    requires Valid(k)
    ensures Follows(k, input, Padded(k, input), [], k.bytes(Padded(k, input)))
  {
    hide Padded;
    var s := Padded(k, input);
    forall n: nat ensures OneShot(k, input, n) == [] + Tail(k, s, k.bytes(s), n) {
      assert [] + Tail(k, s, k.bytes(s), n) == Tail(k, s, k.bytes(s), n);
    }
    assert k.bytes(s)[0..] == k.bytes(s);
  }

  /** Going back `d` bytes within the block. */
  lemma RewindFollows<S(!new)>(k: Keccak<S>, input: seq<Byte>, s: S, out: seq<Byte>, rest: seq<Byte>, d: nat)
    requires Follows(k, input, s, out, rest) && d <= k.rate - |rest|
    ensures d <= |out| && Follows(k, input, s, out[..|out| - d], k.bytes(s)[k.rate - |rest| - d..])
  {
    hide OneShot, Tail;
    var x, block, less := k.rate - |rest|, k.bytes(s), out[..|out| - d];
    var back := block[x - d..];
    assert out == less + block[x - d..x] by {
      assert out[|out| - x..][x - d..] == out[|out| - d..];
      assert block[..x][x - d..] == block[x - d..x];
    }
    assert back[..d] == block[x - d..x] && back[d..] == rest;
    forall n: nat ensures OneShot(k, input, |less| + n) == less + Tail(k, s, back, n) {
      RewindShot(k, input, s, less, back, d, n);
    }
    assert less[|less| - (x - d)..] == block[..x - d] by {
      assert out[|out| - x..][..x - d] == less[|less| - (x - d)..];
      assert block[..x][..x - d] == block[..x - d];
    }
  }

  lemma RewindShot<S(!new)>(k: Keccak<S>, input: seq<Byte>, s: S, less: seq<Byte>, back: seq<Byte>, d: nat, n: nat)
    requires Valid(k) && d <= |back|
    requires forall i: nat :: OneShot(k, input, |less + back[..d]| + i) == (less + back[..d]) + Tail(k, s, back[d..], i)
    ensures OneShot(k, input, |less| + n) == less + Tail(k, s, back, n)
  {
    hide OneShot, Tail;
    var out := less + back[..d];
    if n >= d {
      assert OneShot(k, input, |out| + (n - d)) == out + Tail(k, s, back[d..], n - d);
      TailTake(k, s, back, d, n - d);
    } else {
      assert OneShot(k, input, |out| + 0) == out + Tail(k, s, back[d..], 0);
      TailNone(k, s, back[d..]);
      ShotPrefix(k, input, |less| + n, |out|);
      TailTake(k, s, back, n, 0);
      TailNone(k, s, back[n..]);
      assert out[..|less| + n] == less + back[..n];
    }
  }

  // ------------------------------------------------------------------ the code

  /** `state` of sha3.go. `input` and `given` record what was written and read. */
  class Hash<S(!new)> {
    const k: Keccak<S>
    const outputLen: nat
    var a: S
    var buf: seq<Byte>
    var squeezing: bool
    ghost var input: seq<Byte>
    ghost var given: seq<Byte>

    /**
     While absorbing, the whole blocks of the input are in the state and the rest, never a whole block, is in the
     buffer. While squeezing, the buffer is what is left of the current block, never nothing, and all further
     output follows from it.
     */
    ghost predicate Inv()
      reads this
    {
      && Valid(k)
      && (!squeezing ==> a == Absorbed(k, k.zero, input) && buf == Leftover(k.rate, input) && given == [])
      && (squeezing ==> 0 < |buf| && Follows(k, input, a, given, buf))
    }

    constructor (k: Keccak<S>, outputLen: nat)
      requires Valid(k)
      ensures Inv() && !squeezing && input == [] && given == [] && this.k == k && this.outputLen == outputLen
    {
      this.k, this.outputLen := k, outputLen;
      a, buf, squeezing := k.zero, [], false;
      input, given := [], [];
    }

    method Reset()
      requires Valid(k)
      modifies this
      ensures Inv() && !squeezing && input == [] && given == []
    {
      a, buf, squeezing := k.zero, [], false;
      input, given := [], [];
    }

    /** `permute`. */
    method Permute()
      requires Valid(k)
      modifies this`a, this`buf
      ensures !squeezing ==> a == k.permute(k.xorIn(old(a), old(buf))) && buf == []
      ensures squeezing ==> a == k.permute(old(a)) && buf == k.bytes(a)
    {
      if !squeezing {
        a := k.permute(k.xorIn(a, buf));
        buf := [];
      } else {
        a := k.permute(a);
        buf := k.bytes(a);
      }
    }

    method PadAndPermute()
      requires Inv() && !squeezing
      modifies this`a, this`buf, this`squeezing
      ensures Inv() && squeezing
    {
      ghost var rest := buf;
      buf := buf + [k.dsbyte];
      ghost var begin := buf;
      while |buf| < k.rate
        invariant |buf| <= k.rate && buf == begin + seq(|buf| - |begin|, _ => 0) && |buf| >= |begin|
        invariant a == old(a) && squeezing == old(squeezing)
      {
        buf := buf + [0];
      }
      buf := buf[k.rate - 1 := FlipTop(buf[k.rate - 1])];
      assert buf == LastBlock(k.rate, k.dsbyte, rest);
      Permute();
      squeezing := true;
      buf := k.bytes(a);
      FirstFollows(k, input);
    }

    /** More input; refused (the program panics) after output has begun. */
    method Write(p: seq<Byte>) returns (ok: bool)
      requires Inv()
      modifies this
      ensures Inv() && ok == !old(squeezing) && squeezing == old(squeezing) && given == old(given)
      ensures input == if ok then old(input) + p else old(input)
    {
      hide Absorbed, Leftover, OneShot, Tail;
      if squeezing { return false; }
      var rest := p;
      while |rest| > 0
        invariant Inv() && !squeezing && given == old(given)
        invariant input + rest == old(input) + p
        decreases |rest|
      {
        var todo: nat;
        if |buf| == 0 && |rest| >= k.rate {
          todo := k.rate;
          AbsorbPart(rest[..todo]);
          a := k.permute(k.xorIn(a, rest[..todo]));
        } else {
          todo := k.rate - |buf|;
          if todo > |rest| { todo := |rest|; }
          AbsorbPart(rest[..todo]);
          buf := buf + rest[..todo];
          if |buf| == k.rate { Permute(); }
        }
        input := input + rest[..todo];
        assert rest == rest[..todo] + rest[todo..];
        rest := rest[todo..];
      }
      assert input == old(input) + p;
      ok := true;
    }

    /** What at most a block's worth more of input does to the state and the buffer. */
    lemma AbsorbPart(x: seq<Byte>)
      requires Inv() && !squeezing && |buf| + |x| <= k.rate
      ensures Absorbed(k, k.zero, input + x) == if |buf + x| == k.rate then k.permute(k.xorIn(a, buf + x)) else a
      ensures Leftover(k.rate, input + x) == if |buf + x| == k.rate then [] else buf + x
      ensures buf == [] ==> buf + x == x
    {
      AbsorbAppend(k, k.zero, input, x);
      if |buf + x| == k.rate { AbsorbBlock(k, a, buf + x); }
    }

    /** The next bytes of the output. */
    method Read(n: nat) returns (out: seq<Byte>)
      requires Inv()
      modifies this
      ensures Inv() && squeezing && input == old(input)
      ensures |out| == n && given == old(given) + out && given == OneShot(k, input, |given|)
    {
      hide Absorbed, Leftover, OneShot, Follows;
      if !squeezing { PadAndPermute(); }
      out := [];
      while |out| < n
        invariant Inv() && squeezing && input == old(input) && |out| <= n && given == old(given) + out
        decreases n - |out|
      {
        var m := if n - |out| < |buf| then n - |out| else |buf|;
        TakeFollows(k, input, a, given, buf, m);
        out := out + buf[..m];
        given := given + buf[..m];
        buf := buf[m..];
        if |buf| == 0 {
          NextFollows(k, input, a, given);
          Permute();
        }
      }
      GivenIs(k, input, a, given, buf);
    }

    /**
     The digest of the input so far; the hash can go on being written to. A hash that already gives output is copied
     wrongly: the copy starts `168 - rate` bytes too early, which is before the block's beginning and panics, or repeats
     bytes that were given. Only at the largest rate does the copy go on where the hash is.
     */
    method Sum(prefix: seq<Byte>) returns (panics: bool, r: seq<Byte>)
      requires Inv()
      ensures panics <==> squeezing && k.rate - |buf| < MAX_RATE - k.rate
      ensures !squeezing ==> r == prefix + OneShot(k, input, outputLen)
      ensures squeezing && !panics ==>
                var from := |given| - (MAX_RATE - k.rate);
                from >= 0 && prefix <= r && given[..from] + r[|prefix|..] == OneShot(k, input, from + outputLen)
    {
      hide Absorbed, Leftover, OneShot, Follows;
      var dup := new Hash(k, outputLen);
      dup.a, dup.buf, dup.squeezing := a, buf, squeezing;
      dup.input := input;
      panics, r := false, prefix;
      if squeezing {
        var x := k.rate - |buf|;
        if x + k.rate < MAX_RATE { return true, prefix; }
        RewindFollows(k, input, a, given, buf, MAX_RATE - k.rate);
        dup.buf := k.bytes(a)[x + k.rate - MAX_RATE..];
        dup.given := given[..|given| - (MAX_RATE - k.rate)];
      }
      var hash := dup.Read(outputLen);
      r := prefix + hash;
    }
  }

  lemma GivenIs<S(!new)>(k: Keccak<S>, input: seq<Byte>, s: S, out: seq<Byte>, rest: seq<Byte>)
    requires Follows(k, input, s, out, rest)
    ensures out == OneShot(k, input, |out|)
  {
    assert OneShot(k, input, |out| + 0) == out + Tail(k, s, rest, 0);
    TailNone(k, s, rest);
  }

  lemma TailNone<S(!new)>(k: Keccak<S>, s: S, buf: seq<Byte>)
    requires Valid(k)
    ensures Tail(k, s, buf, 0) == []
  {
  }

  /** Shorter output is the beginning of longer output. */
  lemma {:induction false} SqueezedPrefix<S(!new)>(k: Keccak<S>, s: S, m: nat, n: nat)
    requires Valid(k) && m <= n
    ensures Squeezed(k, s, m) == Squeezed(k, s, n)[..m]
    decreases n
  {
    if n > k.rate && m > k.rate {
      SqueezedPrefix(k, k.permute(s), m - k.rate, n - k.rate);
    }
  }

  lemma ShotPrefix<S(!new)>(k: Keccak<S>, input: seq<Byte>, m: nat, n: nat)
    requires Valid(k) && m <= n
    ensures |OneShot(k, input, n)| == n && OneShot(k, input, m) == OneShot(k, input, n)[..m]
  {
    SqueezedPrefix(k, Padded(k, input), m, n);
  }
}
