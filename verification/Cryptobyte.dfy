/**
 The builder and the reader of golang.org/x/crypto/cryptobyte as objects that are changed step by step: nested content
 is written behind a reserved length that is filled in, and widened by moving the content, when the element ends.
 */
module Cryptobyte {

  import opened Wrappers
  import opened Arithmetic
  import opened Der

  /** A builder that grows as needed. A child works on a copy of its parent's bytes and hands them back when flushed. */
  class Builder {
    var err: bool
    var result: seq<Byte>
    var offset: nat
    var pendingLenLen: nat
    var pendingIsASN1: bool

    constructor (result: seq<Byte>, offset: nat, pendingLenLen: nat, pendingIsASN1: bool)
      ensures !err && this.result == result && this.offset == offset
      ensures this.pendingLenLen == pendingLenLen && this.pendingIsASN1 == pendingIsASN1
    {
      err := false;
      this.result, this.offset := result, offset;
      this.pendingLenLen, this.pendingIsASN1 := pendingLenLen, pendingIsASN1;
    }

    method Add(bytes: seq<Byte>)
      modifies this`result
      ensures result == if err then old(result) else old(result) + bytes
    {
      if err { return; }
      result := result + bytes;
    }

    /** The first length octet of an ASN.1 element is set and room is made for the others by moving the content up. */
    method WidenASN1(length: nat)
      requires pendingLenLen == 1 && offset + 1 + length == |result| && length <= 0xffff_fffe && !err
      modifies this`result, this`offset, this`pendingLenLen
      ensures pendingLenLen == LenLen(length) && offset == old(offset) + 1 && |result| == offset + pendingLenLen + length
      ensures result[..offset] == old(result)[..old(offset)] + Length(length)[..1]
      ensures result[offset + pendingLenLen..] == old(result)[old(offset) + 1..]
    {
      var lenByte: Byte, extraBytes: nat;
      if length > 0xff_ffff { extraBytes, lenByte := 4, 0x84; }
      else if length > 0xffff { extraBytes, lenByte := 3, 0x83; }
      else if length > 0xff { extraBytes, lenByte := 2, 0x82; }
      else if length > 0x7f { extraBytes, lenByte := 1, 0x81; }
      else { extraBytes, lenByte := 0, length; }
      hide BeBytes;
      ghost var before, content := result, result[offset + 1..];
      result := result[offset := lenByte];
      if extraBytes != 0 {
        Add(seq(extraBytes, _ => 0));
        var childStart := offset + pendingLenLen;
        result := result[..childStart + extraBytes] + result[childStart..|result| - extraBytes];
        assert result[childStart + extraBytes..] == content;
      }
      assert result[..offset + 1] == before[..offset] + [lenByte];
      assert Length(length)[..1] == [lenByte];
      offset, pendingLenLen := offset + 1, extraBytes;
    }

    /** The octets of the length are written from the last to the first; `fits` tells whether nothing is left over. */
    method FillLength(length: nat) returns (fits: bool)
      requires offset + pendingLenLen <= |result|
      modifies this`result
      ensures fits <==> length < Pow256(pendingLenLen)
      ensures result == old(result)[..offset] + BeBytes(length, pendingLenLen) + old(result)[offset + pendingLenLen..]
    {
      hide BeBytes, Pow256, Shifted;
      var l, i := length, pendingLenLen;
      ghost var before := result;
      NothingFilled(before, offset + i, length);
      while i > 0
        invariant 0 <= i <= pendingLenLen && l == Shifted(length, pendingLenLen - i)
        invariant result == before[..offset + i] + BeBytes(length, pendingLenLen - i) + before[offset + pendingLenLen..]
      {
        i := i - 1;
        FillStep(before, offset, pendingLenLen, i, length, result);
        result := result[offset + i := l % 256];
        l := l / 256;
      }
      ShiftedZero(length, pendingLenLen);
      fits := l == 0;
    }

    /**
     `flushChild`: the child's bytes with their length in front become this builder's. `shared` tells whether the child
     still writes to this builder's array; if so, a length that does not fit is visible in the reserved octets.
     */
    method FlushChild(child: Builder, shared: bool)
      requires child != this && child.offset + child.pendingLenLen <= |child.result| && (child.pendingIsASN1 ==> child.pendingLenLen == 1)
      requires !err && |result| == child.offset + child.pendingLenLen && result <= child.result
      modifies this`err, this`result, child
      ensures err ==> |result| == |old(result)| && result[..old(child.offset)] == old(result)[..old(child.offset)]
      ensures err && !shared ==> result == old(result)
      ensures var start := old(child.offset);
              var content := old(child.result)[start + old(child.pendingLenLen)..];
              if old(child.err) then err
              else if old(child.pendingIsASN1) then
                if |content| > 0xffff_fffe then err else !err && result == old(child.result)[..start] + Length(|content|) + content
              else
                if |content| >= Pow256(old(child.pendingLenLen)) then err
                else !err && result == old(child.result)[..start] + BeBytes(|content|, old(child.pendingLenLen)) + content
    {
      hide Length, BeBytes, Pow256, LenLen;
      if child.err { err := true; return; }
      var length := |child.result| - child.pendingLenLen - child.offset;
      if child.pendingIsASN1 {
        if length > 0xffff_fffe { err := true; return; }
        LengthParts(length);
        child.WidenASN1(length);
        if length <= 0x7f { length := 0; }
      }
      var fits := child.FillLength(length);
      if !fits {
        if shared { result := child.result[..|result|]; }
        err := true;
        return;
      }
      result := child.result;
    }

    /** A caller's use of the builder: the result grows by the item's encoding, or an error is recorded and stays. */
    method AddItem(item: Item)
      modifies this`err, this`result
      ensures old(result) <= result && (old(err) ==> err && result == old(result))
      ensures !old(err) ==> err == Encode(item).None? && (!err ==> result == old(result) + Encode(item).value)
      decreases item, 0
    {
      hide HighTagNumber, Length, BeBytes, Pow256;
      match item
      case Raw(bytes) => Add(bytes);
      case Asn1(tag, kids) =>
        Asn1Encodes(tag, kids);
        hide Encode;
        AddASN1(tag, kids);
      case Prefixed(lenLen, kids) => AddLengthPrefixed(lenLen, false, kids);
    }

    method AddASN1(tag: Byte, kids: seq<Item>)
      modifies this`err, this`result
      ensures old(result) <= result && (old(err) ==> err && result == old(result))
      ensures !old(err) ==> err == (HighTagNumber(tag) || EncodeAll(kids).None? || |EncodeAll(kids).value| > 0xffff_fffe)
      ensures !err ==> result == old(result) + ([tag] + Length(|EncodeAll(kids).value|) + EncodeAll(kids).value)
      decreases kids, 2
    {
      hide HighTagNumber, Length;
      LowBits(tag);
      if err { return; }
      if tag % 32 == 31 { err := true; return; }
      Add([tag]);
      AddLengthPrefixed(1, true, kids);
    }

    /** `addLengthPrefixed`, with the calls that the continuation makes on the child. */
    method AddLengthPrefixed(lenLen: nat, isASN1: bool, kids: seq<Item>)
      requires isASN1 ==> lenLen == 1
      modifies this`err, this`result
      ensures old(result) <= result && (old(err) ==> err && result == old(result))
      ensures var content := EncodeAll(kids);
              !old(err) ==>
                if content.None? then err
                else if isASN1 then
                  if |content.value| > 0xffff_fffe then err else !err && result == old(result) + Length(|content.value|) + content.value
                else
                  if |content.value| >= Pow256(lenLen) then err
                  else !err && result == old(result) + BeBytes(|content.value|, lenLen) + content.value
      decreases kids, 1
    {
      hide Length, BeBytes, Pow256, LenLen, Encode, EncodeAll;
      NoItems();
      if err { return; }
      var offset := |result|;
      ghost var before := result;
      Add(seq(lenLen, _ => 0));
      var child := new Builder(result, offset, lenLen, isASN1);
      ghost var start := child.result;
      assert kids[..0] == [] && start + [] == start;
      for i := 0 to |kids|
        invariant child.offset == offset && child.pendingLenLen == lenLen && child.pendingIsASN1 == isASN1
        invariant !err && result == start
        invariant child.err == EncodeAll(kids[..i]).None?
        invariant !child.err ==> child.result == start + EncodeAll(kids[..i]).value
        invariant start <= child.result
      {
        assert kids[..i + 1] == kids[..i] + [kids[i]];
        EncodeAllAppend(kids[..i], kids[i]);
        child.AddItem(kids[i]);
        if !child.err { Grown(start, EncodeAll(kids[..i]).value, Encode(kids[i]).value); }
      }
      assert kids[..|kids|] == kids;
      if !child.err { Behind(before, seq(lenLen, _ => 0), EncodeAll(kids).value); }
      var shared: bool := *;
      FlushChild(child, shared);
    }
  }

  /** The string being read: successful reads take bytes off its front. */
  class Reader {
    var s: seq<Byte>

    constructor (s: seq<Byte>)
      ensures this.s == s
    {
      this.s := s;
    }

    method Read(n: nat) returns (v: Option<seq<Byte>>)
      modifies this
      ensures if |old(s)| < n then v == None && s == old(s) else v == Some(old(s)[..n]) && s == old(s)[n..]
    {
      if |s| < n { return None; }
      v := Some(s[..n]);
      s := s[n..];
    }

    /** `readUnsigned`: at most four octets accumulate without loss in 32 bits. */
    method ReadUnsigned(length: nat) returns (out: Option<nat>)
      requires length <= 4
      modifies this
      ensures if |old(s)| < length then out == None && s == old(s) else out == Some(Be(old(s)[..length])) && s == old(s)[length..]
    {
      var v := Read(length);
      if v.None? { return None; }
      var result: Uint32 := 0;
      for i := 0 to length
        invariant result == Be(v.value[..i]) && s == old(s)[length..]
      {
        assert v.value[..i + 1][..i] == v.value[..i];
        BeBound(v.value[..i + 1]);
        PowersUpTo4(i + 1);
        result := Wrap32(result * 256) + v.value[i];
      }
      assert v.value[..length] == v.value;
      out := Some(result);
    }

    /**
     `readASN1`: on success the element, with or without its header, is taken off; on failure nothing is, but the caller's
     tag variable, which held `before`, is overwritten as soon as there is a low tag.
     */
    method ReadASN1(skipHeader: bool, before: Byte) returns (ok: bool, tag: Byte, out: seq<Byte>)
      modifies this
      ensures ok == ReadElement(old(s)).Some?
      ensures tag == if |old(s)| >= 2 && !HighTagNumber(old(s)[0]) then old(s)[0] else before
      ensures old(s) != [] && HighTagNumber(old(s)[0]) ==> !ok
      ensures !ok ==> s == old(s)
      ensures ok ==> |ReadElement(old(s)).value.content| < TWO32
      ensures ok ==> var p := ReadElement(old(s)).value;
                     tag == p.tag && s == p.rest && out == if skipHeader then p.content else Element(p.tag, p.content)
    {
      hide HighTagNumber;
      if s != [] { LowBits(s[0]); }
      ok, tag, out := false, before, [];
      if |s| < 2 { return; }
      var first, lenByte := s[0], s[1];
      if first % 32 == 31 { return; }
      tag := first;
      var length: nat, headerLen: nat;
      if lenByte < 128 {
        length, headerLen := lenByte + 2, 2;
      } else {
        var lenLen := lenByte - 128;
        if lenLen == 0 || lenLen > 4 || |s| < 2 + lenLen { return; }
        var lenBytes := new Reader(s[2..2 + lenLen]);
        var len32 := lenBytes.ReadUnsigned(lenLen);
        assert s[2..2 + lenLen][..lenLen] == s[2..2 + lenLen];
        if len32.value < 128 { return; }
        if len32.value / Pow256(lenLen - 1) == 0 { return; }
        headerLen := 2 + lenLen;
        if Wrap32(headerLen + len32.value) < len32.value { return; }
        BeBound(s[2..2 + lenLen]);
        PowersUpTo4(lenLen);
        SumWraps(headerLen, len32.value);
        length := headerLen + len32.value;
      }
      ghost var whole := s;
      var element := Read(length);
      if element.None? { return; }
      ElementCanonical(whole);
      ok, out := true, element.value;
      if skipHeader { out := out[headerLen..]; }
    }
  }

  lemma PowersUpTo4(k: nat)
    requires k <= 4
    ensures Pow256(k) <= TWO32
  {
    Powers();
  }

  /** Sequences of items are encoded one after the other. */
  lemma {:induction false} EncodeAllAppend(items: seq<Item>, last: Item)
    ensures EncodeAll(items + [last]) ==
              if EncodeAll(items).Some? && Encode(last).Some? then Some(EncodeAll(items).value + Encode(last).value) else None
  {
    if items == [] {
      assert items + [last] == [last];
      assert EncodeAll([last][1..]) == Some([]);
      if Encode(last).Some? {
        var c := Encode(last).value;
        assert c + [] == c && [] + c == c;
      }
    } else {
      assert (items + [last])[1..] == items[1..] + [last];
      EncodeAllAppend(items[1..], last);
      hide EncodeAsn1, EncodePrefixed;
      if EncodeAll(items).Some? && Encode(last).Some? {
        var a, b, c := Encode(items[0]).value, EncodeAll(items[1..]).value, Encode(last).value;
        assert (a + b) + c == a + (b + c);
      }
    }
  }

  /** The first octet of a length, and the others as the code computes them. */
  lemma LengthParts(n: nat)
    requires n < TWO32
    ensures var m := if n <= 0x7f then 0 else n;
            m < Pow256(LenLen(n)) && |Length(n)| > 0 && Length(n) == Length(n)[..1] + BeBytes(m, LenLen(n))
  {
    if n > 0x7f { LengthBytes(n); }
  }

  lemma NoItems()
    ensures EncodeAll([]) == Some([])
  {
  }

  lemma Grown(start: seq<Byte>, a: seq<Byte>, b: seq<Byte>)
    ensures start + a + b == start + (a + b)
  {
  }

  /** What is behind the reserved octets. */
  lemma Behind(before: seq<Byte>, reserved: seq<Byte>, content: seq<Byte>)
    ensures var s := before + reserved + content;
            s[..|before|] == before && s[|before| + |reserved|..] == content
  {
  }

  lemma NothingFilled(before: seq<Byte>, end: nat, length: nat)
    requires end <= |before|
    ensures before == before[..end] + BeBytes(length, 0) + before[end..] && Shifted(length, 0) == length
  {
  }

  /** One more octet of the length, in front of those already written. */
  lemma FillStep(before: seq<Byte>, offset: nat, n: nat, i: nat, length: nat, result: seq<Byte>)
    requires i < n && offset + n <= |before| && result == before[..offset + i + 1] + BeBytes(length, n - i - 1) + before[offset + n..]
    ensures |result| == |before| && Shifted(length, n - i) == Shifted(length, n - i - 1) / 256
    ensures result[offset + i := Shifted(length, n - i - 1) % 256] == before[..offset + i] + BeBytes(length, n - i) + before[offset + n..]
  {
    LowerByte(length, n - i - 1);
    hide BeBytes;
    var digit: Byte := Shifted(length, n - i - 1) % 256;
    assert before[..offset + i + 1][offset + i := digit] == before[..offset + i] + [digit];
  }

  /** What is left of a number after dropping its last `k` octets. */
  function Shifted(n: nat, k: nat): nat { if k == 0 then n else Shifted(n, k - 1) / 256 }

  lemma {:induction false} ShiftedInner(n: nat, k: nat)
    ensures Shifted(n / 256, k) == Shifted(n, k + 1)
  {
    if k > 0 { ShiftedInner(n, k - 1); }
  }

  lemma {:induction false} ShiftedZero(n: nat, k: nat)
    ensures Shifted(n, k) == 0 <==> n < Pow256(k)
  {
    if k > 0 {
      ShiftedZero(n / 256, k - 1);
      ShiftedInner(n, k - 1);
    }
  }

  lemma {:induction false} LowerByte(n: nat, k: nat)
    ensures BeBytes(n, k + 1) == [Shifted(n, k) % 256] + BeBytes(n, k)
  {
    if k > 0 {
      LowerByte(n / 256, k - 1);
      ShiftedInner(n, k - 1);
    }
  }
}
