/**
 Length-prefixed and DER encodings (golang.org/x/crypto/cryptobyte/builder.go, asn1.go, string.go): what the builder
 writes, what the reader accepts, and that the two agree, in both directions, on nested elements.
 */
module Der {

  import opened Wrappers
  import opened Arithmetic

  // ------------------------------------------------------------------ big-endian numbers

  /** The number that bytes denote, most significant first. */
  function Be(bs: seq<Byte>): nat {
    if bs == [] then 0 else Be(bs[..|bs| - 1]) * 256 + bs[|bs| - 1]
  }

  /** The last `k` base-256 digits of a number. */
  function BeBytes(n: nat, k: nat): (bs: seq<Byte>)
    ensures |bs| == k
  {
    if k == 0 then [] else BeBytes(n / 256, k - 1) + [n % 256]
  }

  lemma {:induction false} BeBound(bs: seq<Byte>)
    ensures Be(bs) < Pow256(|bs|)
  {
    if bs != [] { BeBound(bs[..|bs| - 1]); }
  }

  lemma {:induction false} BeOfBytes(n: nat, k: nat)
    requires n < Pow256(k)
    ensures Be(BeBytes(n, k)) == n
  {
    if k > 0 {
      BeOfBytes(n / 256, k - 1);
      assert BeBytes(n, k)[..k - 1] == BeBytes(n / 256, k - 1);
    }
  }

  lemma {:induction false} BytesOfBe(bs: seq<Byte>)
    ensures BeBytes(Be(bs), |bs|) == bs
  {
    if bs != [] {
      var init := bs[..|bs| - 1];
      BytesOfBe(init);
      DivModUnique(Be(bs), 256, Be(init), bs[|bs| - 1]);
      assert bs == init + [bs[|bs| - 1]];
    }
  }

  lemma Powers()
    ensures Pow256(1) == 0x100 && Pow256(2) == 0x1_0000 && Pow256(3) == 0x100_0000 && Pow256(4) == TWO32
  {
  }

  // ------------------------------------------------------------------ elements

  /** Octets of a length beyond the first: none in the short form. */
  function LenLen(n: nat): nat {
    if n > 0xff_ffff then 4 else if n > 0xffff then 3 else if n > 0xff then 2 else if n > 0x7f then 1 else 0
  }

  /** A definite length in the fewest octets (sections 8.1.3 and 10.1 of X.690). */
  function Length(n: nat): seq<Byte>
    requires n < TWO32
  {
    if n < 128 then [n] else [0x80 + LenLen(n)] + BeBytes(n, LenLen(n))
  }

  function Element(tag: Byte, content: seq<Byte>): seq<Byte>
    requires |content| < TWO32
  {
    [tag] + Length(|content|) + content
  }

  predicate LowTag(tag: Byte) { tag % 32 != 31 }

  // ------------------------------------------------------------------ octets as X.690 numbers their bits

  /** Bit `k` of an octet, where bit 8 is the most significant one and bit 1 the least. */
  function Bit(b: nat, k: nat): nat
    requires 1 <= k <= 8
  {
    if k == 1 then b % 2 else Bit(b / 2, k - 1)
  }

  /** Bits 5 to 1 of an identifier octet, the tag number of section 8.1.2.2 of X.690, are all ones. */
  predicate HighTagNumber(tag: Byte) { Bit(tag, 5) == Bit(tag, 4) == Bit(tag, 3) == Bit(tag, 2) == Bit(tag, 1) == 1 }

  lemma LowBit(b: nat)
    ensures Bit(b, 1) == b % 2
  {
  }

  lemma NextBits(b: nat, k: nat)
    requires 2 <= k <= 8
    ensures Bit(b, k) == Bit(b / 2, k - 1)
  {
  }

  lemma LowBits(tag: Byte)
    ensures LowTag(tag) <==> !HighTagNumber(tag)
  {
    var b, c, d, e := tag / 2, tag / 2 / 2, tag / 2 / 2 / 2, tag / 2 / 2 / 2 / 2;
    LowBit(tag);
    LowBit(b);
    LowBit(c);
    LowBit(d);
    LowBit(e);
    NextBits(tag, 2);
    NextBits(tag, 3);
    NextBits(tag, 4);
    NextBits(tag, 5);
    NextBits(b, 2);
    NextBits(b, 3);
    NextBits(b, 4);
    NextBits(c, 2);
    NextBits(c, 3);
    NextBits(d, 2);
    hide Bit;
    DivModUnique(tag, 32, e / 2, 16 * (e % 2) + 8 * (d % 2) + 4 * (c % 2) + 2 * (b % 2) + tag % 2);
  }

  // ------------------------------------------------------------------ reading elements

  datatype Parsed = Parsed(tag: Byte, content: seq<Byte>, rest: seq<Byte>)

  /** `readASN1`, as the value it returns. */
  function ReadElement(s: seq<Byte>): Option<Parsed> {
    if |s| < 2 || !LowTag(s[0]) then None
    else if s[1] < 128 then Cut(s, 2, s[1])
    else
      var lenLen := s[1] - 128;
      if lenLen == 0 || lenLen > 4 || |s| < 2 + lenLen then None
      else
        var n := Be(s[2..2 + lenLen]);
        if n < 128 || n / Pow256(lenLen - 1) == 0 || Wrap32(2 + lenLen + n) < n then None
        else Cut(s, 2 + lenLen, n)
  }

  function Cut(s: seq<Byte>, header: nat, n: nat): Option<Parsed>
    requires |s| >= 1
  {
    if |s| < header + n then None else Some(Parsed(s[0], s[header..header + n], s[header + n..]))
  }

  /** The longest content that the reader accepts: the total must not wrap a 32-bit sum. */
  const READ_LIMIT: nat := TWO32 - 6

  lemma LengthBytes(n: nat)
    requires 128 <= n < TWO32
    ensures var k := LenLen(n); 1 <= k <= 4 && n < Pow256(k) && n / Pow256(k - 1) != 0
    ensures Be(BeBytes(n, LenLen(n))) == n
  {
    Powers();
    var k := LenLen(n);
    assert Pow256(0) == 1;
    BeOfBytes(n, k);
  }

  lemma SumWraps(header: nat, n: nat)
    requires header <= 6 && n < TWO32
    ensures Wrap32(header + n) < n <==> header + n >= TWO32
  {
  }

  /** What the builder writes for an element, the reader takes back, exactly for tag numbers up to 30 and up to its limit. */
  lemma ElementRoundTrip(tag: Byte, content: seq<Byte>, rest: seq<Byte>)
    requires |content| < TWO32
    ensures ReadElement(Element(tag, content) + rest)
         == if !HighTagNumber(tag) && |content| < 0xffff_fffa then Some(Parsed(tag, content, rest)) else None
  {
    LowBits(tag);
    hide Wrap32, Be, BeBytes, Pow256, HighTagNumber;
    var n := |content|;
    var s := Element(tag, content) + rest;
    if !LowTag(tag) {
      assert s[0] == tag;
    } else if n < 128 {
      assert s[2..2 + n] == content && s[2 + n..] == rest;
    } else {
      LengthBytes(n);
      var k := LenLen(n);
      assert s[0] == tag && s[1] == 0x80 + k;
      assert s[2..2 + k] == BeBytes(n, k);
      SumWraps(2 + k, n);
      assert s[2 + k..2 + k + n] == content && s[2 + k + n..] == rest;
    }
  }

  /** Whatever the reader accepts is the one encoding of what it returns. */
  lemma ElementCanonical(s: seq<Byte>)
    requires ReadElement(s).Some?
    ensures var p := ReadElement(s).value;
            LowTag(p.tag) && !HighTagNumber(p.tag) && |p.content| < READ_LIMIT && s == Element(p.tag, p.content) + p.rest
  {
    LowBits(s[0]);
    hide HighTagNumber;
    if s[1] < 128 { ShortCanonical(s); } else { LongCanonical(s); }
  }

  lemma ShortCanonical(s: seq<Byte>)
    requires ReadElement(s).Some? && s[1] < 128
    ensures var p := ReadElement(s).value;
            LowTag(p.tag) && |p.content| < READ_LIMIT && s == Element(p.tag, p.content) + p.rest
  {
    var p := ReadElement(s).value;
    assert Length(|p.content|) == [s[1]];
    assert s == [s[0]] + [s[1]] + p.content + p.rest;
  }

  lemma LongCanonical(s: seq<Byte>)
    requires ReadElement(s).Some? && s[1] >= 128
    ensures var p := ReadElement(s).value;
            LowTag(p.tag) && |p.content| < READ_LIMIT && s == Element(p.tag, p.content) + p.rest
  {
    hide Wrap32, Be, BeBytes, Pow256;
    var p := ReadElement(s).value;
    var n, k := |p.content|, s[1] - 128;
    var ls := s[2..2 + k];
    BeBound(ls);
    BytesOfBe(ls);
    MinimalLength(n, k);
    SumWraps(2 + k, n);
    assert Length(n) == [s[1]] + ls;
    hide Length, LenLen;
    Pieces(s, k, n);
  }

  lemma Pieces(s: seq<Byte>, k: nat, n: nat)
    requires 2 + k + n <= |s|
    ensures s == [s[0]] + ([s[1]] + s[2..2 + k]) + s[2 + k..2 + k + n] + s[2 + k + n..]
  {
  }

  lemma MinimalLength(n: nat, k: nat)
    requires 1 <= k <= 4 && n < Pow256(k) && n >= 128 && n / Pow256(k - 1) != 0
    ensures LenLen(n) == k && n < TWO32
  {
  }

  // ------------------------------------------------------------------ tags and lengths of X.690

  /** The builder accepts an element with such a content if and only if the tag number fits the identifier octet. */
  lemma WrittenTags(tag: Byte, content: seq<Byte>)
    requires |content| <= 0xffff_fffe
    ensures Encode(Asn1(tag, [Raw(content)])) == if HighTagNumber(tag) then None else Some(Element(tag, content))
  {
    LowBits(tag);
    assert EncodeAll([Raw(content)]) == Some(content) by {
      assert EncodeAll([Raw(content)][1..]) == Some([]);
      assert content + [] == content;
    }
    hide HighTagNumber, Element;
  }

  /** The same for any content that is built from items. */
  lemma Asn1Encodes(tag: Byte, kids: seq<Item>)
    ensures Encode(Asn1(tag, kids))
         == if HighTagNumber(tag) || EncodeAll(kids).None? || |EncodeAll(kids).value| > 0xffff_fffe then None
            else Some([tag] + Length(|EncodeAll(kids).value|) + EncodeAll(kids).value)
  {
    LowBits(tag);
    hide HighTagNumber, Length, EncodeAll;
  }

  /** No string that starts with such a tag is read at all. */
  lemma HighTagRefused(s: seq<Byte>)
    requires s != [] && HighTagNumber(s[0])
    ensures ReadElement(s) == None
  {
    LowBits(s[0]);
  }

  /**
   Length octets of the definite form (section 8.1.3 of X.690) in the fewest octets (section 10.1): up to 127 one octet
   with bit 8 zero; above that bit 8 is one and bits 7 to 1 count the octets that follow, whose first is not 0.
   */
  predicate Definite(ls: seq<Byte>, n: nat) {
    && ls != []
    && if n <= 127 then ls == [n]
       else Bit(ls[0], 8) == 1 && ls[0] % 128 == |ls| - 1 > 0 && ls[1] != 0 && Be(ls[1..]) == n
  }

  lemma TopBit(b: Byte)
    ensures Bit(b, 8) == 1 <==> b >= 128
  {
    var c, d := b / 2 / 2, b / 2 / 2 / 2 / 2;
    NextBits(b, 8);
    NextBits(b / 2, 7);
    NextBits(c, 6);
    NextBits(c / 2, 5);
    NextBits(d, 4);
    NextBits(d / 2, 3);
    NextBits(d / 2 / 2, 2);
    LowBit(d / 2 / 2 / 2);
    hide Bit;
  }

  lemma {:induction false} FirstOctet(bs: seq<Byte>)
    requires bs != []
    ensures Be(bs) / Pow256(|bs| - 1) == bs[0]
  {
    BeSplit(bs);
    BeBound(bs[1..]);
    DivModUnique(Be(bs), Pow256(|bs| - 1), bs[0], Be(bs[1..]));
  }

  lemma Times256(a: nat, p: nat)
    ensures a * (256 * p) == (a * p) * 256
  {
  }

  lemma BeEnd(bs: seq<Byte>)
    requires bs != []
    ensures Be(bs) == Be(bs[..|bs| - 1]) * 256 + bs[|bs| - 1]
  {
  }

  lemma {:induction false} BeSplit(bs: seq<Byte>)
    requires bs != []
    ensures Be(bs) == bs[0] * Pow256(|bs| - 1) + Be(bs[1..])
  {
    if |bs| > 1 {
      var init := bs[..|bs| - 1];
      BeSplit(init);
      assert init[1..] == bs[1..][..|bs| - 2];
      assert Pow256(|bs| - 1) == 256 * Pow256(|bs| - 2);
      hide Pow256, Be;
      Times256(bs[0], Pow256(|bs| - 2));
      BeEnd(bs);
      BeEnd(bs[1..]);
    }
  }

  lemma LengthHasForm(n: nat)
    requires n < TWO32
    ensures Definite(Length(n), n)
  {
    hide Be, BeBytes, Pow256, Bit;
    if n > 127 {
      LengthBytes(n);
      var ls := Length(n);
      TopBit(ls[0]);
      assert ls[1..] == BeBytes(n, LenLen(n));
      FirstOctet(ls[1..]);
    }
  }

  lemma FormIsLength(n: nat, ls: seq<Byte>)
    requires 127 < n < TWO32 && Definite(ls, n)
    ensures ls == Length(n)
  {
    hide Be, BeBytes, Pow256, Bit, LenLen;
    var tail, k := ls[1..], LenLen(n);
    TopBit(ls[0]);
    FirstOctet(tail);
    BeBound(tail);
    BytesOfBe(tail);
    LengthBytes(n);
    assert |tail| == k by {
      NotBelow(n, k, |tail|);
      NotBelow(n, |tail|, k);
    }
    assert ls == [ls[0]] + tail;
  }

  /** A number of `k` digits has no fewer than `k` digits. */
  lemma NotBelow(n: nat, k: nat, j: nat)
    requires k >= 1 && n / Pow256(k - 1) != 0 && n < Pow256(j)
    ensures j >= k
  {
    if j < k {
      PowerGrows(j, k - 1);
      DivModUnique(n, Pow256(k - 1), 0, n);
    }
  }

  /** The length octets written are the only ones of that form. */
  lemma LengthIsDefinite(n: nat, ls: seq<Byte>)
    requires n < TWO32
    ensures Definite(ls, n) <==> ls == Length(n)
  {
    hide Definite, Length;
    LengthHasForm(n);
    if Definite(ls, n) {
      if n > 127 { FormIsLength(n, ls); } else { ShortForm(n, ls); }
    }
  }

  lemma ShortForm(n: nat, ls: seq<Byte>)
    requires n <= 127 && Definite(ls, n)
    ensures ls == Length(n)
  {
  }

  lemma {:induction false} PowerGrows(a: nat, b: nat)
    requires a <= b
    ensures Pow256(a) <= Pow256(b)
    decreases b
  {
    if a < b { PowerGrows(a, b - 1); }
  }

  // ------------------------------------------------------------------ nested items

  /** What a caller builds: bytes, an ASN.1 element or a value after a length of fixed size, each with its contents. */
  datatype Item =
    | Raw(bytes: seq<Byte>)
    | Asn1(tag: Byte, kids: seq<Item>)
    | Prefixed(lenLen: nat, kids: seq<Item>)

  /** What the builder writes; `None` where it records an error. */
  function Encode(item: Item): Option<seq<Byte>>
  {
    match item
    case Raw(bytes) => Some(bytes)
    case Asn1(tag, kids) => if LowTag(tag) then EncodeAsn1(tag, EncodeAll(kids)) else None
    case Prefixed(lenLen, kids) => EncodePrefixed(lenLen, EncodeAll(kids))
  }

  function EncodeAll(items: seq<Item>): Option<seq<Byte>>
  {
    if items == [] then Some([])
    else match Encode(items[0])
      case None => None
      case Some(first) => (match EncodeAll(items[1..]) case None => None case Some(others) => Some(first + others))
  }

  function EncodeAsn1(tag: Byte, content: Option<seq<Byte>>): Option<seq<Byte>> {
    if content.Some? && |content.value| <= 0xffff_fffe then Some(Element(tag, content.value)) else None
  }

  function EncodePrefixed(lenLen: nat, content: Option<seq<Byte>>): Option<seq<Byte>> {
    if content.Some? && |content.value| < Pow256(lenLen) then Some(BeBytes(|content.value|, lenLen) + content.value) else None
  }

  /** `readLengthPrefixed`: the content and what follows. */
  function ReadPrefixed(s: seq<Byte>, lenLen: nat): Option<(seq<Byte>, seq<Byte>)> {
    if |s| < lenLen then None
    else
      var n := Be(s[..lenLen]);
      if |s| < lenLen + n then None else Some((s[lenLen..lenLen + n], s[lenLen + n..]))
  }

  /** Reading with the calls that a shape prescribes: only its nesting, raw lengths and prefix sizes are used. */
  function ReadLike(shape: Item, s: seq<Byte>): Option<(Item, seq<Byte>)> {
    match shape
    case Raw(bytes) => if |s| < |bytes| then None else Some((Raw(s[..|bytes|]), s[|bytes|..]))
    case Asn1(_, kids) =>
      (match ReadElement(s)
       case None => None
       case Some(p) => (match ReadAll(kids, p.content) case None => None case Some(got) => Some((Asn1(p.tag, got), p.rest))))
    case Prefixed(lenLen, kids) =>
      (match ReadPrefixed(s, lenLen)
       case None => None
       case Some(p) => (match ReadAll(kids, p.0) case None => None case Some(got) => Some((Prefixed(lenLen, got), p.1))))
  }

  /** Reading several items that must fill the string. */
  function ReadAll(shapes: seq<Item>, s: seq<Byte>): Option<seq<Item>> {
    if shapes == [] then if s == [] then Some([]) else None
    else match ReadLike(shapes[0], s)
      case None => None
      case Some(p) => (match ReadAll(shapes[1..], p.1) case None => None case Some(got) => Some([p.0] + got))
  }

  /** Every element's content is within the reader's limit. */
  predicate Readable(item: Item) {
    match item
    case Raw(_) => true
    case Asn1(_, kids) => EncodeAll(kids).Some? && |EncodeAll(kids).value| < READ_LIMIT && forall i :: 0 <= i < |kids| ==> Readable(kids[i])
    case Prefixed(_, kids) => forall i :: 0 <= i < |kids| ==> Readable(kids[i])
  }

  /** What has been built reads back as itself exactly when no element exceeds the reader's limit. */
  lemma {:induction false} RoundTrip(item: Item, rest: seq<Byte>)
    requires Encode(item).Some?
    ensures ReadLike(item, Encode(item).value + rest) == if Readable(item) then Some((item, rest)) else None
    decreases item, 0
  {
    var bs := Encode(item).value;
    match item
    case Raw(bytes) =>
      assert (bytes + rest)[..|bytes|] == bytes && (bytes + rest)[|bytes|..] == rest;
    case Asn1(tag, kids) =>
      LowBits(tag);
      ElementRoundTrip(tag, EncodeAll(kids).value, rest);
      RoundTripAll(kids);
    case Prefixed(lenLen, kids) =>
      PrefixedRoundTrip(lenLen, EncodeAll(kids).value, rest);
      RoundTripAll(kids);
  }

  lemma {:induction false} RoundTripAll(items: seq<Item>)
    requires EncodeAll(items).Some?
    ensures ReadAll(items, EncodeAll(items).value) == if forall i :: 0 <= i < |items| ==> Readable(items[i]) then Some(items) else None
    decreases items, 1
  {
    if items != [] {
      RoundTrip(items[0], EncodeAll(items[1..]).value);
      RoundTripAll(items[1..]);
      if Readable(items[0]) && forall i :: 0 <= i < |items[1..]| ==> Readable(items[1..][i]) {
        assert forall i :: 0 < i < |items| ==> items[i] == items[1..][i - 1];
        assert [items[0]] + items[1..] == items;
      }
    }
  }

  lemma PrefixedRoundTrip(lenLen: nat, content: seq<Byte>, rest: seq<Byte>)
    requires |content| < Pow256(lenLen)
    ensures ReadPrefixed(BeBytes(|content|, lenLen) + content + rest, lenLen) == Some((content, rest))
  {
    BeOfBytes(|content|, lenLen);
    var s := BeBytes(|content|, lenLen) + content + rest;
    assert s[..lenLen] == BeBytes(|content|, lenLen);
    assert s[lenLen..lenLen + |content|] == content && s[lenLen + |content|..] == rest;
  }

  /** Every string that is read at all is the encoding of what was read. */
  lemma {:induction false} Canonical(shape: Item, s: seq<Byte>)
    requires ReadLike(shape, s).Some?
    ensures var (item, rest) := ReadLike(shape, s).value;
            Readable(item) && Encode(item).Some? && s == Encode(item).value + rest
    decreases shape, 0
  {
    match shape
    case Raw(bytes) =>
    case Asn1(_, kids) =>
      ElementCanonical(s);
      CanonicalAll(kids, ReadElement(s).value.content);
    case Prefixed(lenLen, kids) =>
      PrefixedCanonical(s, lenLen);
      CanonicalAll(kids, ReadPrefixed(s, lenLen).value.0);
  }

  lemma {:induction false} CanonicalAll(shapes: seq<Item>, s: seq<Byte>)
    requires ReadAll(shapes, s).Some?
    ensures var items := ReadAll(shapes, s).value;
            EncodeAll(items) == Some(s) && forall i :: 0 <= i < |items| ==> Readable(items[i])
    decreases shapes, 1
  {
    if shapes != [] {
      Canonical(shapes[0], s);
      var (item, rest) := ReadLike(shapes[0], s).value;
      CanonicalAll(shapes[1..], rest);
      var items := ReadAll(shapes, s).value;
      assert items[1..] == ReadAll(shapes[1..], rest).value;
    }
  }

  lemma PrefixedCanonical(s: seq<Byte>, lenLen: nat)
    requires ReadPrefixed(s, lenLen).Some?
    ensures var p := ReadPrefixed(s, lenLen).value;
            |p.0| < Pow256(lenLen) && s == BeBytes(|p.0|, lenLen) + p.0 + p.1
  {
    BeBound(s[..lenLen]);
    BytesOfBe(s[..lenLen]);
  }
}
