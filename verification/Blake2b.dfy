/**
 BLAKE2b (golang.org/x/crypto/blake2b/blake2b.go, blake2b_generic.go): streaming over `Write` calls and the one-shot
 function agree with section 3.3 of RFC 7693, including the 128-bit byte counter held in two words that is lowered
 before the last block and raised again by the block loop. The compression function is a parameter.
 */
module Blake2b {

  import opened Arithmetic

  const BLOCK: nat := 128

  /** `compress(h, block, counter, last)`. */
  datatype Kernel<!H> = Kernel(compress: (H, seq<Byte>, nat, bool) -> H)

  // ------------------------------------------------------------------ RFC 7693

  /** The final state for the data `m` after `t` bytes: every block is compressed with the number of bytes up to its end, the last one zero-padded and flagged. */
  function Digested<H>(z: Kernel<H>, h: H, t: nat, m: seq<Byte>): H
    decreases |m|
  {
    if |m| <= BLOCK then z.compress(h, m + Zeros(BLOCK - |m|), (t + |m|) % TWO128, true)
    else Digested(z, z.compress(h, m[..BLOCK], (t + BLOCK) % TWO128, false), t + BLOCK, m[BLOCK..])
  }

  function Zeros(n: nat): seq<Byte> { seq(n, _ => 0) }

  /** A key of a keyed hash counts as a first block. */
  function WithKey(key: seq<Byte>, data: seq<Byte>): seq<Byte>
    requires |key| <= 64
  {
    if key == [] then data else key + Zeros(BLOCK - |key|) + data
  }

  /** The last block, byte by byte: 128 bytes, of which the first are the data and all others 0. */
  lemma LastPadded<H>(z: Kernel<H>, h: H, t: nat, m: seq<Byte>, block: seq<Byte>)
    requires |m| <= 128 == |block| && block[..|m|] == m && forall i :: |m| <= i < 128 ==> block[i] == 0
    ensures Digested(z, h, t, m) == z.compress(h, block, (t + |m|) % 0x1_0000_0000_0000_0000_0000_0000_0000_0000, true)
  {
    assert block == m + Zeros(128 - |m|);
  }

  /** A key comes first, and the data after 128 bytes that are the key and then 0. */
  lemma KeyPadded(key: seq<Byte>, data: seq<Byte>)
    requires |key| <= 64
    ensures WithKey([], data) == data
    ensures key != [] ==>
              var s := WithKey(key, data);
              |s| == 128 + |data| && s[..|key|] == key && (forall i :: |key| <= i < 128 ==> s[i] == 0) && s[128..] == data
  {
  }

  // ------------------------------------------------------------------ blocks

  /** Go's `copy` to the front of a block; what it does not reach stays. */
  function Copied(block: seq<Byte>, data: seq<Byte>): (r: seq<Byte>)
    requires |data| <= |block|
    ensures |r| == |block| && r[..|data|] == data && r[|data|..] == block[|data|..]
  {
    data + block[|data|..]
  }

  /** Compressing whole blocks, all with the same flag. */
  function Blocks<H>(z: Kernel<H>, h: H, t: nat, last: bool, m: seq<Byte>): H
    decreases |m|
  {
    if |m| < BLOCK then h else Blocks(z, z.compress(h, m[..BLOCK], (t + BLOCK) % TWO128, last), t + BLOCK, last, m[BLOCK..])
  }

  predicate Whole(m: seq<Byte>) { |m| % BLOCK == 0 }

  /** Whole blocks may be compressed first when something follows. */
  lemma {:induction false} DigestedAfter<H>(z: Kernel<H>, h: H, t: nat, a: seq<Byte>, b: seq<Byte>)
    requires Whole(a) && b != []
    ensures Digested(z, h, t, a + b) == Digested(z, Blocks(z, h, t, false, a), t + |a|, b)
    decreases |a|
  {
    if a == [] {
      assert a + b == b;
    } else {
      assert (a + b)[..BLOCK] == a[..BLOCK] && (a + b)[BLOCK..] == a[BLOCK..] + b;
      DigestedAfter(z, z.compress(h, a[..BLOCK], (t + BLOCK) % TWO128, false), t + BLOCK, a[BLOCK..], b);
    }
  }

  lemma {:induction false} BlocksAppend<H>(z: Kernel<H>, h: H, t: nat, last: bool, a: seq<Byte>, b: seq<Byte>)
    requires Whole(a)
    ensures Blocks(z, h, t, last, a + b) == Blocks(z, Blocks(z, h, t, last, a), t + |a|, last, b)
    decreases |a|
  {
    if a == [] {
      assert a + b == b;
    } else {
      assert (a + b)[..BLOCK] == a[..BLOCK] && (a + b)[BLOCK..] == a[BLOCK..] + b;
      BlocksAppend(z, z.compress(h, a[..BLOCK], (t + BLOCK) % TWO128, last), t + BLOCK, last, a[BLOCK..], b);
    }
  }

  /** Only the counter modulo 2^128 matters. */
  lemma {:induction false} BlocksModulo<H>(z: Kernel<H>, h: H, t: nat, u: nat, last: bool, m: seq<Byte>)
    requires t % TWO128 == u % TWO128
    ensures Blocks(z, h, t, last, m) == Blocks(z, h, u, last, m)
    decreases |m|
  {
    if |m| >= BLOCK {
      AddModulo(t, u, BLOCK);
      BlocksModulo(z, z.compress(h, m[..BLOCK], (t + BLOCK) % TWO128, last), t + BLOCK, u + BLOCK, last, m[BLOCK..]);
    }
  }

  lemma AddModulo(t: int, u: int, d: int)
    requires t % TWO128 == u % TWO128
    ensures (t + d) % TWO128 == (u + d) % TWO128
  {
  }

  // ------------------------------------------------------------------ the counter

  /** Two 64-bit words as one number, the first the low one. */
  datatype Counter = Counter(lo: Uint64, hi: Uint64) {
    function Value(): nat { hi * TWO64 + lo }
  }

  /** Adding a block: a carry into the high word when the low one wraps. */
  function Raise(c: Counter): Counter {
    var lo := Wrap64(c.lo + BLOCK);
    Counter(lo, if lo < BLOCK then Wrap64(c.hi + 1) else c.hi)
  }

  /** Subtracting `d`: a borrow from the high word when the low one is too small. */
  function Lower(c: Counter, d: nat): Counter {
    Counter(Wrap64(c.lo - d), if c.lo < d then Wrap64(c.hi - 1) else c.hi)
  }

  lemma RaiseAdds(c: Counter)
    ensures Raise(c).Value() == (c.Value() + BLOCK) % TWO128
  {
    var lo := c.lo + BLOCK;
    if lo < TWO64 {
      DivModUnique(lo, TWO64, 0, lo);
      DivModUnique(c.Value() + BLOCK, TWO128, 0, c.Value() + BLOCK);
    } else {
      DivModUnique(lo, TWO64, 1, lo - TWO64);
      if c.hi + 1 < TWO64 {
        DivModUnique(c.hi + 1, TWO64, 0, c.hi + 1);
        DivModUnique(c.Value() + BLOCK, TWO128, 0, c.Value() + BLOCK);
      } else {
        DivModUnique(c.hi + 1, TWO64, 1, 0);
        DivModUnique(c.Value() + BLOCK, TWO128, 1, lo - TWO64);
      }
    }
  }

  lemma LowerSubtracts(c: Counter, d: nat)
    requires d <= BLOCK
    ensures Lower(c, d).Value() == (c.Value() - d) % TWO128
  {
    var lo := c.lo - d;
    if lo >= 0 {
      DivModUnique(lo, TWO64, 0, lo);
      DivModUnique(c.Value() - d, TWO128, 0, c.Value() - d);
    } else {
      DivModUnique(lo, TWO64, -1, lo + TWO64);
      if c.hi >= 1 {
        DivModUnique(c.hi - 1, TWO64, 0, c.hi - 1);
        DivModUnique(c.Value() - d, TWO128, 0, c.Value() - d);
      } else {
        DivModUnique(c.hi - 1, TWO64, -1, TWO64 - 1);
        DivModUnique(c.Value() - d, TWO128, -1, TWO128 + lo);
      }
    }
  }

  // ------------------------------------------------------------------ the code

  /** `hashBlocksGeneric`, with the rounds as `compress`. */
  method HashBlocks<H>(z: Kernel<H>, h: H, c: Counter, last: bool, blocks: seq<Byte>) returns (g: H, d: Counter)
    requires Whole(blocks)
    ensures g == Blocks(z, h, c.Value(), last, blocks)
    ensures d.Value() == (c.Value() + |blocks|) % TWO128
  {
    hide Raise, Blocks;
    g, d := h, c;
    var i := 0;
    assert blocks[0..] == blocks;
    CounterRange(c);
    while i < |blocks|
      invariant 0 <= i <= |blocks| && i % BLOCK == 0
      invariant d.Value() == (c.Value() + i) % TWO128
      invariant Blocks(z, h, c.Value(), last, blocks) == Blocks(z, g, c.Value() + i, last, blocks[i..])
    {
      NextBlock(i, |blocks|);
      RaiseAdds(d);
      AddModulo(d.Value(), c.Value() + i, BLOCK);
      BlocksStep(z, g, c.Value() + i, last, blocks, i);
      d := Raise(d);
      g := z.compress(g, blocks[i..i + BLOCK], d.Value(), last);
      i := i + BLOCK;
    }
    assert blocks[|blocks|..] == [];
    NoBlocks(z, g, c.Value() + i, last);
  }

  lemma BlocksStep<H>(z: Kernel<H>, h: H, t: nat, last: bool, m: seq<Byte>, i: nat)
    requires i + BLOCK <= |m|
    ensures Blocks(z, h, t, last, m[i..]) == Blocks(z, z.compress(h, m[i..i + BLOCK], (t + BLOCK) % TWO128, last), t + BLOCK, last, m[i + BLOCK..])
  {
    assert m[i..][..BLOCK] == m[i..i + BLOCK] && m[i..][BLOCK..] == m[i + BLOCK..];
  }

  lemma NoBlocks<H>(z: Kernel<H>, h: H, t: nat, last: bool)
    ensures Blocks(z, h, t, last, []) == h
  {
  }

  lemma NextBlock(i: nat, n: nat)
    requires i < n && i % BLOCK == 0 && n % BLOCK == 0
    ensures i + BLOCK <= n && (i + BLOCK) % BLOCK == 0
  {
  }

  lemma CounterRange(c: Counter)
    ensures c.Value() % TWO128 == c.Value()
  {
  }

  /** How much of `length` bytes is compressed at once: whole blocks, but never the last one. */
  function Bulk(length: nat): nat
    requires length >= BLOCK
  {
    if length % BLOCK == 0 then length - BLOCK else length - length % BLOCK
  }

  lemma BulkWhole(length: nat)
    requires length > BLOCK
    ensures 0 < Bulk(length) < length && Bulk(length) % BLOCK == 0 && length - Bulk(length) <= BLOCK
  {
  }

  /** The last block: the counter is lowered so that the block loop leaves it at the number of bytes. */
  method LastBlock<H>(z: Kernel<H>, h: H, c: Counter, rest: seq<Byte>, ghost t: nat) returns (g: H)
    requires |rest| <= BLOCK && c.Value() == t % TWO128
    ensures g == Digested(z, h, t, rest)
  {
    hide Lower, Blocks;
    var remaining := BLOCK - |rest|;
    var lowered := Lower(c, remaining);
    var d;
    var block := Copied(seq(BLOCK, _ => 0), rest);
    assert block == rest + Zeros(remaining);
    g, d := HashBlocks(z, h, lowered, true, block);
    OneBlock(z, h, lowered.Value(), block);
    LastCounter(c, t, |rest|);
  }

  /** Lowering before the last block and raising in it leaves the number of bytes, through borrow and carry. */
  lemma LastCounter(c: Counter, t: nat, n: nat)
    requires n <= BLOCK && c.Value() == t % TWO128
    ensures (Lower(c, BLOCK - n).Value() + BLOCK) % TWO128 == (t + n) % TWO128
  {
    hide Lower;
    var remaining := BLOCK - n;
    LowerSubtracts(c, remaining);
    var v := Lower(c, remaining).Value();
    CounterRange(Lower(c, remaining));
    AddModulo(v, c.Value() - remaining, BLOCK);
    CounterRange(c);
    AddModulo(c.Value(), t, n);
  }

  lemma OneBlock<H>(z: Kernel<H>, h: H, t: nat, block: seq<Byte>)
    requires |block| == BLOCK
    ensures Blocks(z, h, t, true, block) == z.compress(h, block, (t + BLOCK) % TWO128, true)
  {
    assert block[..BLOCK] == block && block[BLOCK..] == [];
  }

  /** `checkSum`. */
  method CheckSum<H>(z: Kernel<H>, h: H, data: seq<Byte>) returns (g: H)
    ensures g == Digested(z, h, 0, data)
  {
    hide Blocks, Digested, Bulk;
    var c := Counter(0, 0);
    g := h;
    var rest := data;
    ghost var t := 0;
    if |data| > BLOCK {
      var n := Bulk(|data|);
      BulkWhole(|data|);
      DigestedAfter(z, h, 0, data[..n], data[n..]);
      assert data == data[..n] + data[n..];
      g, c := HashBlocks(z, g, c, false, data[..n]);
      rest := data[n..];
      t := n;
    }
    g := LastBlock(z, g, c, rest, t);
  }

  /** `digest`: `h0` is the initial state with the parameter block, `input` the key block and all that was written. */
  class Digest<H(!new)> {
    const z: Kernel<H>
    const h0: H
    const key: seq<Byte>
    const keyLen: nat
    var h: H
    var c: Counter
    var block: seq<Byte>
    var offset: nat
    ghost var input: seq<Byte>

    /** The key array is zero beyond the key. */
    ghost predicate KeySet() { keyLen <= 64 && |key| == BLOCK && forall i :: keyLen <= i < BLOCK ==> key[i] == 0 }

    /** All but the last one to 128 bytes of the input are compressed; the counter is their number. */
    ghost predicate Inv()
      reads this
    {
      && KeySet() && |block| == BLOCK && offset <= BLOCK && offset <= |input| && (offset == 0 ==> input == [])
      && block[..offset] == input[|input| - offset..] && Compressed(input[..|input| - offset])
    }

    /** The state and the counter are those after `done`. */
    ghost predicate Compressed(done: seq<Byte>)
      reads this
    {
      Whole(done) && c.Value() == |done| % TWO128 && h == Blocks(z, h0, 0, false, done)
    }

    constructor (z: Kernel<H>, h0: H, key: seq<Byte>)
      requires |key| <= 64
      ensures Inv() && this.z == z && this.h0 == h0 && this.key[..keyLen] == key && input == WithKey(key, [])
    {
      this.z, this.h0, keyLen := z, h0, |key|;
      this.key := Copied(seq(BLOCK, _ => 0), key);
      h, c, block, offset := h0, Counter(0, 0), seq(BLOCK, _ => 0), 0;
      input := [];
      new;
      Reset();
    }

    method Reset()
      requires KeySet() && |block| == BLOCK
      modifies this
      ensures Inv() && input == WithKey(key[..keyLen], [])
    {
      h := h0;
      offset, c := 0, Counter(0, 0);
      input := [];
      if keyLen > 0 {
        block := key;
        offset := BLOCK;
        input := block;
        assert key == key[..keyLen] + Zeros(BLOCK - keyLen);
        assert WithKey(key[..keyLen], []) == key;
      }
      Fresh();
    }

    lemma Fresh()
      requires KeySet() && h == h0 && c == Counter(0, 0) && |block| == BLOCK
      requires (offset == 0 || offset == BLOCK) && input == block[..offset]
      ensures Inv()
    {
    }

    method Compress(part: seq<Byte>, ghost done: seq<Byte>)
      requires Compressed(done) && Whole(part)
      modifies this`h, this`c
      ensures Compressed(done + part)
    {
      hide Blocks, Whole;
      WholeAppend(done, part);
      CounterRange(c);
      BlocksAppend(z, h0, 0, false, done, part);
      BlocksModulo(z, h, c.Value(), |done|, false, part);
      AddModulo(c.Value(), |done|, |part|);
      h, c := HashBlocks(z, h, c, false, part);
    }

    /** The end of `Write`: what remains, at most a block, is kept. */
    method Keep(p: seq<Byte>, ghost done: seq<Byte>)
      requires KeySet() && |block| == BLOCK && Compressed(done) && 0 < |p| <= BLOCK
      modifies this`block, this`offset, this`input
      ensures Inv() && input == done + p
    {
      hide Blocks;
      block := Copied(block, p);
      offset := |p|;
      input := done + p;
      assert input[..|input| - offset] == done && input[|input| - offset..] == p && block[..offset] == p;
    }

    method Write(p: seq<Byte>)
      requires Inv()
      modifies this
      ensures Inv() && input == old(input) + p
    {
      hide Blocks, Bulk, Whole;
      ghost var done := input[..|input| - offset];
      assert input == done + block[..offset];
      var rest := p;
      if offset > 0 {
        var remaining := BLOCK - offset;
        if |p| <= remaining {
          assert input + p == done + (block[..offset] + p);
          block := block[..offset] + p + block[offset + |p|..];
          offset := offset + |p|;
          input := input + p;
          assert input[..|input| - offset] == done && block[..offset] == input[|input| - offset..];
          return;
        }
        block := block[..offset] + p[..remaining];
        WholeBlock(block);
        Compress(block, done);
        done := done + block;
        offset := 0;
        rest := p[remaining..];
        assert input + p == done + rest;
      }
      assert old(input) + p == done + rest;
      if |rest| > BLOCK {
        var n := Bulk(|rest|);
        BulkWhole(|rest|);
        WholePart(rest, n);
        Compress(rest[..n], done);
        assert done + rest == (done + rest[..n]) + rest[n..];
        done := done + rest[..n];
        rest := rest[n..];
      }
      if |rest| > 0 {
        Keep(rest, done);
      }
    }

    /** `finalize`: the digest's state for all the input, from which writing can go on. */
    method Finalize() returns (g: H)
      requires Inv()
      ensures g == Digested(z, h0, 0, input)
    {
      hide Blocks, Digested;
      ghost var done, rest := input[..|input| - offset], input[|input| - offset..];
      assert input == done + rest;
      if rest != [] { DigestedAfter(z, h0, 0, done, rest); } else { NothingDone(z, h0, done); }
      g := LastBlock(z, h, c, block[..offset], |done|);
    }
  }

  lemma NothingDone<H>(z: Kernel<H>, h: H, done: seq<Byte>)
    ensures done == [] ==> Blocks(z, h, 0, false, done) == h
  {
  }

  lemma WholeAppend(a: seq<Byte>, b: seq<Byte>)
    requires Whole(a) && Whole(b)
    ensures Whole(a + b)
  {
  }

  lemma WholeBlock(b: seq<Byte>)
    requires |b| == BLOCK
    ensures Whole(b)
  {
  }

  lemma WholePart(m: seq<Byte>, n: nat)
    requires n <= |m| && n % BLOCK == 0
    ensures Whole(m[..n])
  {
  }

  function Concat(parts: seq<seq<Byte>>): seq<Byte> {
    if parts == [] then [] else Concat(parts[..|parts| - 1]) + parts[|parts| - 1]
  }

  /** Any division of the data into writes gives the digest of the whole; without a key it is that of `CheckSum`. */
  method HashParts<H(!new)>(z: Kernel<H>, h0: H, key: seq<Byte>, parts: seq<seq<Byte>>) returns (g: H)
    requires |key| <= 64
    ensures g == Digested(z, h0, 0, WithKey(key, Concat(parts)))
  {
    hide Digested, Concat, WithKey, Blocks, Whole;
    var d := new Digest(z, h0, key);
    assert Concat(parts[..0]) == [] by { NoParts(parts); }
    for i := 0 to |parts|
      invariant d.Inv() && d.z == z && d.h0 == h0 && fresh(d)
      invariant d.input == WithKey(key, Concat(parts[..i]))
    {
      OneMore(parts, i);
      d.Write(parts[i]);
      KeyAppend(key, Concat(parts[..i]), parts[i]);
    }
    assert parts[..|parts|] == parts;
    g := d.Finalize();
  }

  lemma KeyAppend(key: seq<Byte>, a: seq<Byte>, b: seq<Byte>)
    requires |key| <= 64
    ensures WithKey(key, a) + b == WithKey(key, a + b)
  {
  }

  lemma NoParts(parts: seq<seq<Byte>>)
    ensures Concat(parts[..0]) == []
  {
  }

  lemma OneMore(parts: seq<seq<Byte>>, i: nat)
    requires i < |parts|
    ensures Concat(parts[..i + 1]) == Concat(parts[..i]) + parts[i]
  {
    assert parts[..i + 1][..i] == parts[..i];
  }
}
