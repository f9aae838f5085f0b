/** custos/custody.py: the DER encoding of a timestamp request, against a decoder written from
    sections 8.1.3 and 10.1 of ITU-T X.690. */
module Der {
  import opened Base

  type Byte = b: int | 0 <= b < 256
  type Bytes = seq<Byte>

  // ---------------------------------------------------------------------------------------------
  // Unsigned big-endian numbers
  // ---------------------------------------------------------------------------------------------

  /** `n.to_bytes((n.bit_length() + 7) // 8, "big")`. */
  function BigEndian(n: nat): (bs: Bytes)
    ensures bs == [] <==> n == 0
    ensures n > 0 ==> bs[0] != 0
  {
    if n == 0 then [] else BigEndian(n / 256) + [n % 256]
  }

  function Value(bs: Bytes): nat {
    if bs == [] then 0 else 256 * Value(bs[..|bs| - 1]) + bs[|bs| - 1]
  }

  function Pow256(k: nat): (p: nat)
    ensures p >= 1
  {
    if k == 0 then 1 else 256 * Pow256(k - 1)
  }

  /** Python's int.bit_length. */
  function BitLength(n: nat): nat {
    if n == 0 then 0 else 1 + BitLength(n / 2)
  }

  lemma {:induction false} ValueOfBigEndian(n: nat)
    ensures Value(BigEndian(n)) == n
  {
    if n > 0 {
      ValueOfBigEndian(n / 256);
      assert BigEndian(n)[..|BigEndian(n)| - 1] == BigEndian(n / 256);
    }
  }

  /** Bytes without a leading zero are the shortest form of their value. */
  lemma {:induction false} BigEndianOfValue(bs: Bytes)
    requires bs != [] ==> bs[0] != 0
    ensures BigEndian(Value(bs)) == bs
  {
    if bs != [] {
      var init := bs[..|bs| - 1];
      BigEndianOfValue(init);
      assert bs == init + [bs[|bs| - 1]];
      assert Value(bs) / 256 == Value(init) && Value(bs) % 256 == bs[|bs| - 1];
      if init != [] { assert Value(init) > 0; }
    }
  }

  lemma {:induction false} ValueBelow(bs: Bytes)
    ensures Value(bs) < Pow256(|bs|)
    ensures bs != [] ==> Value(bs) >= bs[0] * Pow256(|bs| - 1)
  {
    if bs != [] {
      var init := bs[..|bs| - 1];
      ValueBelow(init);
      if |bs| > 1 {
        calc {
          bs[0] * Pow256(|bs| - 1);
          bs[0] * (256 * Pow256(|bs| - 2));
          256 * (bs[0] * Pow256(|bs| - 2));
        }
      }
    }
  }

  lemma {:induction false} PowGrows(j: nat, k: nat)
    requires j <= k
    ensures Pow256(j) <= Pow256(k)
  {
    if j < k { PowGrows(j, k - 1); }
  }

  /** The number of bytes is the base-256 logarithm. */
  lemma {:induction false} LengthBelow(n: nat, k: nat)
    ensures |BigEndian(n)| <= k <==> n < Pow256(k)
  {
    var bs := BigEndian(n);
    ValueOfBigEndian(n);
    ValueBelow(bs);
    if |bs| <= k {
      PowGrows(|bs|, k);
    } else {
      PowGrows(k, |bs| - 1);
      assert bs[0] * Pow256(|bs| - 1) >= Pow256(|bs| - 1) by { MulAtLeast(bs[0], Pow256(|bs| - 1)); }
    }
  }

  lemma MulAtLeast(a: int, b: nat)
    requires a >= 1
    ensures a * b >= b
  {
    assert (a - 1) * b >= 0;
  }

  lemma EightMore(b: nat)
    ensures (8 + b + 7) / 8 == (b + 7) / 8 + 1 && (8 + b) % 8 == b % 8
  {
  }

  lemma {:induction false} EightMoreBits(n: nat)
    requires n >= 256
    ensures BitLength(n) == 8 + BitLength(n / 256)
  {
    var a := n / 2;
    var b := a / 2;
    var c := b / 2;
    var d := c / 2;
    var e := d / 2;
    var f := e / 2;
    var g := f / 2;
    assert d == n / 16 && g / 2 == n / 256;
    assert BitLength(n) == 1 + BitLength(a) == 2 + BitLength(b) == 3 + BitLength(c) == 4 + BitLength(d);
    assert BitLength(d) == 1 + BitLength(e) == 2 + BitLength(f) == 3 + BitLength(g) == 4 + BitLength(g / 2);
  }

  lemma BitsOfOneByte(n: nat)
    requires 0 < n < 256
    ensures 1 <= BitLength(n) <= 8 && (BitLength(n) == 8 <==> n >= 128)
  {
    BitsBelow(n, 8);
    BitsBelow(n, 7);
  }

  function Pow2(k: nat): (p: nat)
    ensures p >= 1
  {
    if k == 0 then 1 else 2 * Pow2(k - 1)
  }

  lemma {:induction false} BitsBelow(n: nat, k: nat)
    ensures BitLength(n) <= k <==> n < Pow2(k)
  {
    if n > 0 && k > 0 { BitsBelow(n / 2, k - 1); }
  }

  /** The byte count the source computes from bit_length is the one the encoding has, and the first
      byte carries the sign bit exactly when the bit length is a positive multiple of eight. */
  lemma {:induction false} ByteCount(n: nat)
    ensures |BigEndian(n)| == (BitLength(n) + 7) / 8
    ensures n > 0 ==> (BigEndian(n)[0] >= 128 <==> BitLength(n) % 8 == 0)
  {
    if n >= 256 {
      hide BitLength;
      var m := n / 256;
      ByteCount(m);
      EightMoreBits(n);
      EightMore(BitLength(m));
      assert BigEndian(n) == BigEndian(m) + [n % 256];
    } else if n > 0 {
      BitsOfOneByte(n);
      assert BigEndian(n) == [n];
    }
  }

  // ---------------------------------------------------------------------------------------------
  // Lengths and values
  // ---------------------------------------------------------------------------------------------

  /** _der_len. `0x80 | k` is k itself from 128 up, and `bytes([x])` raises from 256 up. */
  function DerLen(n: nat): Option<Bytes> {
    if n < 0x80 then Some([n]) else
    var raw := BigEndian(n);
    if |raw| < 128 then Some([0x80 + |raw|] + raw)
    else if |raw| < 256 then Some([|raw|] + raw)
    else None
  }

  /** Definite lengths in the minimum number of octets: short form below 128, otherwise long form with
      no leading zero octet. 0x80 is the indefinite form and 0xFF is reserved. */
  function ReadLen(bs: Bytes): Option<(nat, Bytes)> {
    if bs == [] then None
    else if bs[0] < 0x80 then Some((bs[0], bs[1..]))
    else
      var k := bs[0] - 0x80;
      if k == 0 || k == 127 || |bs| < 1 + k || bs[1] == 0 || Value(bs[1..1 + k]) < 0x80 then None
      else Some((Value(bs[1..1 + k]), bs[1 + k..]))
  }

  /** A length survives encoding, whatever follows it, exactly when it is below 256^126. */
  lemma LengthRoundTrips(n: nat, rest: Bytes)
    ensures DerLen(n).Some? && ReadLen(DerLen(n).value + rest) == Some((n, rest)) <==> n < Pow256(126)
  {
    hide Pow256;
    LengthBelow(n, 126);
    ValueOfBigEndian(n);
    var raw := BigEndian(n);
    if n < 0x80 {
      assert ([n] + rest)[1..] == rest;
      if n > 0 { assert BigEndian(n / 256) == []; }
    } else if |raw| < 128 {
      var bs := [0x80 + |raw|] + raw + rest;
      assert bs == DerLen(n).value + rest;
      assert bs[1..1 + |raw|] == raw && bs[1 + |raw|..] == rest;
    } else if |raw| < 256 {
      var bs := [|raw|] + raw + rest;
      assert bs == DerLen(n).value + rest;
      assert |raw| - 0x80 < |raw|;
      assert |bs[1 + (|raw| - 0x80)..]| != |rest|;
    }
  }

  /** Only that encoding is read back: whatever the decoder accepts begins with the source's own
      encoding of the length it reads, so no other length octets stand for it. */
  lemma LengthIsCanonical(bs: Bytes)
    ensures ReadLen(bs).Some? ==>
              var (n, rest) := ReadLen(bs).value;
              DerLen(n).Some? && bs == DerLen(n).value + rest
  {
    if ReadLen(bs).Some? && bs[0] >= 0x80 {
      var k := bs[0] - 0x80;
      BigEndianOfValue(bs[1..1 + k]);
      assert bs == [bs[0]] + bs[1..1 + k] + bs[1 + k..];
    }
  }

  /** _der_tlv. */
  function DerTlv(tag: Byte, value: Bytes): Option<Bytes> {
    var len := DerLen(|value|);
    if len.None? then None else Some([tag] + len.value + value)
  }

  datatype Tlv = Tlv(tag: Byte, value: Bytes)

  /** One encoding with a single-octet tag. */
  function ReadTlv(bs: Bytes): (r: Option<(Tlv, Bytes)>)
    ensures r.Some? ==> |r.value.1| < |bs|
  {
    if bs == [] || bs[0] % 32 == 31 then None else
    var len := ReadLen(bs[1..]);
    if len.None? then None else
    ReadLenShrinks(bs[1..]);
    var (n, rest) := len.value;
    if |rest| < n then None else Some((Tlv(bs[0], rest[..n]), rest[n..]))
  }

  lemma ReadLenShrinks(bs: Bytes)
    requires ReadLen(bs).Some?
    ensures |ReadLen(bs).value.1| < |bs|
  {
  }

  /** Everything in a constructed value: the encodings laid end to end, with nothing left over. */
  function ReadAll(bs: Bytes): Option<seq<Tlv>>
    decreases |bs|
  {
    if bs == [] then Some([]) else
    var first := ReadTlv(bs);
    if first.None? then None else
    var others := ReadAll(first.value.1);
    if others.None? then None else Some([first.value.0] + others.value)
  }

  lemma TlvRoundTrips(tag: Byte, value: Bytes, rest: Bytes)
    requires tag % 32 != 31 && |value| < Pow256(126)
    ensures DerTlv(tag, value).Some?
    ensures ReadTlv(DerTlv(tag, value).value + rest) == Some((Tlv(tag, value), rest))
  {
    hide Pow256;
    LengthRoundTrips(|value|, value + rest);
    var len := DerLen(|value|).value;
    var bs := DerTlv(tag, value).value + rest;
    assert bs[1..] == len + (value + rest);
    assert (value + rest)[..|value|] == value && (value + rest)[|value|..] == rest;
  }

  // ---------------------------------------------------------------------------------------------
  // The timestamp request
  // ---------------------------------------------------------------------------------------------

  const INTEGER: Byte := 0x02
  const BOOLEAN: Byte := 0x01
  const OCTET_STRING: Byte := 0x04
  const NULL_TAG: Byte := 0x05
  const OBJECT_IDENTIFIER: Byte := 0x06
  const SEQUENCE: Byte := 0x30

  /** The contents octets of 2.16.840.1.101.3.4.2.1, id-sha256. */
  const ID_SHA256: Bytes := [0x60, 0x86, 0x48, 0x01, 0x65, 0x03, 0x04, 0x02, 0x01]

  /** A subidentifier (section 8.19.2 of ITU-T X.690): seven bits an octet, the top bit saying that more follow. */
  function SubIdentifier(n: nat): Bytes {
    Continued(n / 128) + [n % 128]
  }

  function Continued(n: nat): Bytes {
    if n == 0 then [] else Continued(n / 128) + [128 + n % 128]
  }

  /** The contents octets of an object identifier whose first arc is 2 (section 8.19.4). */
  function ObjectIdentifier(second: nat, arcs: seq<nat>): Bytes {
    SubIdentifier(80 + second) + SubIdentifiers(arcs)
  }

  function SubIdentifiers(arcs: seq<nat>): Bytes {
    if arcs == [] then [] else SubIdentifiers(arcs[..|arcs| - 1]) + SubIdentifier(arcs[|arcs| - 1])
  }

  /** The object identifier in the request is 2.16.840.1.101.3.4.2.1, that of SHA-256. */
  lemma IdSha256Is()
    ensures ID_SHA256 == ObjectIdentifier(16, [840, 1, 101, 3, 4, 2, 1])
  {
    SmallSubIdentifiers();
    hide SubIdentifier;
    var a: seq<nat> := [] + [840];
    var b := a + [1] + [101] + [3];
    var c := b + [4] + [2] + [1];
    OneMoreArc([], 840);
    OneMoreArc(a, 1);
    OneMoreArc(a + [1], 101);
    OneMoreArc(a + [1] + [101], 3);
    OneMoreArc(b, 4);
    OneMoreArc(b + [4], 2);
    OneMoreArc(b + [4] + [2], 1);
    hide SubIdentifiers;
    assert SubIdentifiers(b) == [0x86, 0x48, 0x01, 0x65, 0x03];
    assert SubIdentifiers(c) == [0x86, 0x48, 0x01, 0x65, 0x03, 0x04, 0x02, 0x01];
    assert c == [840, 1, 101, 3, 4, 2, 1];
  }

  lemma SmallSubIdentifiers()
    ensures forall n: nat | n < 128 :: SubIdentifier(n) == [n]
    ensures SubIdentifier(840) == [0x86, 0x48]
    ensures SubIdentifiers([]) == []
  {
    assert Continued(6) == Continued(0) + [128 + 6];
  }

  lemma OneMoreArc(arcs: seq<nat>, arc: nat)
    ensures SubIdentifiers(arcs + [arc]) == SubIdentifiers(arcs) + SubIdentifier(arc)
  {
    assert (arcs + [arc])[..|arcs|] == arcs;
  }

  function NonceBytes(nonce: nat): (bs: Bytes)
    ensures bs != []
  {
    if nonce == 0 then [0] else BigEndian(nonce)
  }

  /** Encodings laid end to end. */
  function EncodeAll(items: seq<Tlv>): Option<Bytes> {
    if items == [] then Some([]) else
    var first, others := DerTlv(items[0].tag, items[0].value), EncodeAll(items[1..]);
    if first.None? || others.None? then None else Some(first.value + others.value)
  }

  /** build_tsa_request over an already hashed datum. */
  function BuildTsaRequest(digest: Bytes, nonce: nat): Option<Bytes> {
    var nothing := DerTlv(NULL_TAG, []);
    if nothing.None? then None else
    var algorithm := DerTlv(SEQUENCE, [0x06, 0x09] + ID_SHA256 + nothing.value);
    var hashed := DerTlv(OCTET_STRING, digest);
    if algorithm.None? || hashed.None? then None else
    var imprint := DerTlv(SEQUENCE, algorithm.value + hashed.value);
    var version := DerTlv(INTEGER, [1]);
    var number := DerTlv(INTEGER, NonceBytes(nonce));
    var certReq := DerTlv(BOOLEAN, [0xff]);
    if imprint.None? || version.None? || number.None? || certReq.None? then None else
    DerTlv(SEQUENCE, version.value + imprint.value + number.value + certReq.value)
  }

  /** What section 2.4.1 of RFC 3161 calls a TimeStampReq, without policy or extensions. */
  datatype TimeStampReq = TimeStampReq(version: Bytes, algorithm: Bytes, hashed: Bytes, nonce: Bytes, certReq: Bytes)

  function Fields(bs: Bytes, tags: seq<Byte>): Option<seq<Bytes>> {
    var items := ReadAll(bs);
    if items.None? || |items.value| != |tags| || exists i | 0 <= i < |tags| :: items.value[i].tag != tags[i] then None
    else Some(Contents(items.value))
  }

  function Contents(items: seq<Tlv>): (values: seq<Bytes>)
    ensures |values| == |items| && forall i | 0 <= i < |items| :: values[i] == items[i].value
  {
    if items == [] then [] else [items[0].value] + Contents(items[1..])
  }

  function ParseTsaRequest(bs: Bytes): Option<TimeStampReq> {
    var outer := Fields(bs, [SEQUENCE]);
    if outer.None? then None else
    var body := Fields(outer.value[0], [INTEGER, SEQUENCE, INTEGER, BOOLEAN]);
    if body.None? then None else
    var imprint := Fields(body.value[1], [SEQUENCE, OCTET_STRING]);
    if imprint.None? then None else
    var algorithm := Fields(imprint.value[0], [OBJECT_IDENTIFIER, NULL_TAG]);
    if algorithm.None? || algorithm.value[1] != [] then None else
    Some(TimeStampReq(body.value[0], algorithm.value[0], imprint.value[1], body.value[2], body.value[3]))
  }

  predicate Encodable(items: seq<Tlv>) {
    forall i | 0 <= i < |items| :: items[i].tag % 32 != 31 && |items[i].value| < Pow256(126)
  }

  lemma {:induction false} AllRoundTrip(items: seq<Tlv>)
    requires Encodable(items)
    ensures EncodeAll(items).Some? && ReadAll(EncodeAll(items).value) == Some(items)
  {
    hide Pow256;
    if items != [] {
      AllRoundTrip(items[1..]);
      var rest := EncodeAll(items[1..]).value;
      TlvRoundTrips(items[0].tag, items[0].value, rest);
      assert items == [items[0]] + items[1..];
    }
  }

  lemma {:induction false} FieldsRoundTrip(items: seq<Tlv>, tags: seq<Byte>)
    requires Encodable(items) && |tags| == |items| && forall i | 0 <= i < |tags| :: items[i].tag == tags[i]
    ensures EncodeAll(items).Some? && Fields(EncodeAll(items).value, tags) == Some(Contents(items))
  {
    hide Pow256;
    AllRoundTrip(items);
  }

  lemma ShortFormsFit()
    ensures Pow256(126) >= 256
  {
    PowGrows(1, 126);
  }

  lemma ShortLength(value: Bytes)
    requires |value| < 0x80
    ensures DerLen(|value|) == Some([|value|]) && |value| < Pow256(126)
  {
    PowGrows(1, 126);
  }

  lemma EncodePair(a: Tlv, b: Tlv)
    requires DerTlv(a.tag, a.value).Some? && DerTlv(b.tag, b.value).Some?
    ensures EncodeAll([a, b]) == Some(DerTlv(a.tag, a.value).value + DerTlv(b.tag, b.value).value)
  {
    assert [a, b][1..] == [b] && [b][1..] == [];
    var last := DerTlv(b.tag, b.value).value;
    assert last + [] == last;
    assert EncodeAll([b]) == Some(last);
  }

  lemma EncodeFour(a: Tlv, b: Tlv, c: Tlv, d: Tlv)
    requires DerTlv(a.tag, a.value).Some? && DerTlv(b.tag, b.value).Some?
    requires DerTlv(c.tag, c.value).Some? && DerTlv(d.tag, d.value).Some?
    ensures EncodeAll([a, b, c, d]) ==
            Some(DerTlv(a.tag, a.value).value + DerTlv(b.tag, b.value).value + DerTlv(c.tag, c.value).value
                 + DerTlv(d.tag, d.value).value)
  {
    EncodePair(c, d);
    assert [a, b, c, d][1..] == [b, c, d] && [b, c, d][1..] == [c, d];
    var w, x, y, z := DerTlv(a.tag, a.value).value, DerTlv(b.tag, b.value).value, DerTlv(c.tag, c.value).value,
      DerTlv(d.tag, d.value).value;
    assert EncodeAll([b, c, d]) == Some(x + (y + z));
    assert w + (x + (y + z)) == w + x + y + z;
  }

  function AlgorithmItems(): seq<Tlv> {
    [Tlv(OBJECT_IDENTIFIER, ID_SHA256), Tlv(NULL_TAG, [])]
  }

  const ALGORITHM: Bytes := [0x06, 0x09] + ID_SHA256 + [0x05, 0x00]

  /** The algorithm identifier spelled out in the source is the encoding of id-sha256 with NULL
      parameters. */
  lemma AlgorithmParses()
    ensures EncodeAll(AlgorithmItems()) == Some(ALGORITHM)
    ensures DerTlv(NULL_TAG, []) == Some([0x05, 0x00])
    ensures Fields(ALGORITHM, [OBJECT_IDENTIFIER, NULL_TAG]) == Some([ID_SHA256, []])
  {
    hide Pow256;
    var items := AlgorithmItems();
    ShortLength(ID_SHA256);
    ShortLength([]);
    EncodePair(items[0], items[1]);
    assert DerTlv(OBJECT_IDENTIFIER, ID_SHA256).value == [0x06, 0x09] + ID_SHA256;
    assert DerTlv(NULL_TAG, []).value == [0x05, 0x00];
    FieldsRoundTrip(items, [OBJECT_IDENTIFIER, NULL_TAG]);
    assert Contents(items) == [ID_SHA256, []];
  }

  function ImprintItems(digest: Bytes): seq<Tlv> {
    [Tlv(SEQUENCE, ALGORITHM), Tlv(OCTET_STRING, digest)]
  }

  function BodyItems(imprint: Bytes, nonce: nat): seq<Tlv> {
    [Tlv(INTEGER, [1]), Tlv(SEQUENCE, imprint), Tlv(INTEGER, NonceBytes(nonce)), Tlv(BOOLEAN, [0xff])]
  }

  /** The contents of the outer sequence. */
  function Body(digest: Bytes, nonce: nat): Option<Bytes> {
    var imprint := EncodeAll(ImprintItems(digest));
    if imprint.None? then None else EncodeAll(BodyItems(imprint.value, nonce))
  }

  lemma {:induction false} PartsAreShorter(items: seq<Tlv>, i: nat)
    requires i < |items| && EncodeAll(items).Some?
    ensures |items[i].value| < |EncodeAll(items).value|
  {
    if i > 0 { PartsAreShorter(items[1..], i - 1); }
  }

  lemma ImprintParses(digest: Bytes)
    requires EncodeAll(ImprintItems(digest)).Some? && |EncodeAll(ImprintItems(digest)).value| < Pow256(126)
    ensures Fields(EncodeAll(ImprintItems(digest)).value, [SEQUENCE, OCTET_STRING]) == Some([ALGORITHM, digest])
  {
    hide Pow256;
    var items := ImprintItems(digest);
    forall i | 0 <= i < |items| ensures |items[i].value| < Pow256(126) { PartsAreShorter(items, i); }
    FieldsRoundTrip(items, [SEQUENCE, OCTET_STRING]);
    assert Contents(items) == [ALGORITHM, digest];
  }

  lemma BodyParses(imprint: Bytes, nonce: nat)
    requires EncodeAll(BodyItems(imprint, nonce)).Some? && |EncodeAll(BodyItems(imprint, nonce)).value| < Pow256(126)
    ensures Fields(EncodeAll(BodyItems(imprint, nonce)).value, [INTEGER, SEQUENCE, INTEGER, BOOLEAN]) ==
            Some([[1], imprint, NonceBytes(nonce), [0xff]])
    ensures |imprint| < Pow256(126)
  {
    hide EncodeAll, Fields, Contents, Pow256;
    var items := BodyItems(imprint, nonce);
    forall i | 0 <= i < |items| ensures |items[i].value| < Pow256(126) { PartsAreShorter(items, i); }
    assert items[1].value == imprint;
    FieldsRoundTrip(items, [INTEGER, SEQUENCE, INTEGER, BOOLEAN]);
    assert Contents(items) == [[1], imprint, NonceBytes(nonce), [0xff]];
  }

  /** The source's concatenations are that body in one sequence. */
  lemma BuildWrapsBody(digest: Bytes, nonce: nat)
    requires Body(digest, nonce).Some?
    ensures BuildTsaRequest(digest, nonce) == DerTlv(SEQUENCE, Body(digest, nonce).value)
  {
    hide Pow256;
    AlgorithmParses();
    var imprint := EncodeAll(ImprintItems(digest)).value;
    EncodesEach(ImprintItems(digest));
    EncodePair(ImprintItems(digest)[0], ImprintItems(digest)[1]);
    var items := BodyItems(imprint, nonce);
    EncodesEach(items);
    EncodeFour(items[0], items[1], items[2], items[3]);
  }

  lemma {:induction false} EncodesEach(items: seq<Tlv>)
    requires EncodeAll(items).Some?
    ensures forall i | 0 <= i < |items| :: DerTlv(items[i].tag, items[i].value).Some?
  {
    if items != [] {
      EncodesEach(items[1..]);
      assert items == [items[0]] + items[1..];
    }
  }

  /** A request reads back as version 1, id-sha256 with NULL parameters, the digest, the nonce bytes and
      certReq TRUE. */
  lemma RequestParses(digest: Bytes, nonce: nat)
    requires Body(digest, nonce).Some? && |Body(digest, nonce).value| < Pow256(126)
    ensures BuildTsaRequest(digest, nonce).Some?
    ensures ParseTsaRequest(BuildTsaRequest(digest, nonce).value) ==
            Some(TimeStampReq([1], ID_SHA256, digest, NonceBytes(nonce), [0xff]))
  {
    hide Pow256;
    var body := Body(digest, nonce).value;
    var imprint := EncodeAll(ImprintItems(digest)).value;
    BuildWrapsBody(digest, nonce);
    OuterParses(body);
    BodyParses(imprint, nonce);
    ImprintParses(digest);
    AlgorithmParses();
  }

  lemma OuterParses(body: Bytes)
    requires |body| < Pow256(126)
    ensures DerTlv(SEQUENCE, body).Some? && Fields(DerTlv(SEQUENCE, body).value, [SEQUENCE]) == Some([body])
  {
    hide Pow256;
    TlvRoundTrips(SEQUENCE, body, []);
    var items := [Tlv(SEQUENCE, body)];
    FieldsRoundTrip(items, [SEQUENCE]);
    assert items[1..] == [] && DerTlv(SEQUENCE, body).value + [] == DerTlv(SEQUENCE, body).value;
    assert Contents(items) == [body];
  }

  /** What the anchor sink sends, a 32-byte digest and a nonce of at most 64 bits, always does. */
  lemma SinkRequestParses(digest: Bytes, nonce: nat)
    requires |digest| == 32 && nonce < Pow256(8)
    ensures BuildTsaRequest(digest, nonce).Some?
    ensures ParseTsaRequest(BuildTsaRequest(digest, nonce).value) ==
            Some(TimeStampReq([1], ID_SHA256, digest, NonceBytes(nonce), [0xff]))
  {
    hide Pow256;
    LengthBelow(nonce, 8);
    TlvLength(SEQUENCE, ALGORITHM);
    TlvLength(OCTET_STRING, digest);
    EncodePair(ImprintItems(digest)[0], ImprintItems(digest)[1]);
    var imprint := EncodeAll(ImprintItems(digest)).value;
    var items := BodyItems(imprint, nonce);
    TlvLength(INTEGER, [1]);
    TlvLength(SEQUENCE, imprint);
    TlvLength(INTEGER, NonceBytes(nonce));
    TlvLength(BOOLEAN, [0xff]);
    EncodeFour(items[0], items[1], items[2], items[3]);
    ShortFormsFit();
    RequestParses(digest, nonce);
  }

  /** The request as octets, for every 32-byte digest and 64-bit nonce: version 1, the algorithm with NULL parameters
      before the digest, the nonce, certReq TRUE. */
  lemma RequestReads(digest: Bytes, nonce: nat)
    requires |digest| == 32 && nonce < Pow256(8)
    ensures var k := |NonceBytes(nonce)|;
            && 1 <= k <= 8
            && BuildTsaRequest(digest, nonce) ==
               Some([0x30, 59 + k] + [0x02, 0x01, 0x01]
                    + [0x30, 0x31] + [0x30, 0x0d] + [0x06, 0x09] + ID_SHA256 + [0x05, 0x00] + [0x04, 0x20] + digest
                    + [0x02, k] + NonceBytes(nonce) + [0x01, 0x01, 0xff])
  {
    hide Pow256;
    LengthBelow(nonce, 8);
    var number := NonceBytes(nonce);
    hide NonceBytes, BigEndian, DerLen;
    ShortTlv(NULL_TAG, []);
    var algorithm := [0x06, 0x09] + ID_SHA256 + [0x05, 0x00];
    var imprint := ([0x30, 0x0d] + algorithm) + ([0x04, 0x20] + digest);
    var body := [0x02, 0x01, 0x01] + ([0x30, 0x31] + imprint) + ([0x02, |number|] + number) + [0x01, 0x01, 0xff];
    ShortTlv(SEQUENCE, algorithm);
    ShortTlv(OCTET_STRING, digest);
    ShortTlv(INTEGER, [1]);
    ShortTlv(INTEGER, number);
    ShortTlv(BOOLEAN, [0xff]);
    ShortTlv(SEQUENCE, imprint);
    ShortTlv(SEQUENCE, body);
    assert [NULL_TAG, 0] + [] == [0x05, 0x00];
    assert [INTEGER, 1] + [1] == [0x02, 0x01, 0x01] && [BOOLEAN, 1] + [0xff] == [0x01, 0x01, 0xff];
    hide DerTlv;
    assert BuildTsaRequest(digest, nonce) == Some([0x30, 59 + |number|] + body);
    Flatten([0x30, 59 + |number|], [0x02, 0x01, 0x01], [0x30, 0x31], [0x30, 0x0d], [0x06, 0x09], ID_SHA256,
            [0x05, 0x00], [0x04, 0x20], digest, [0x02, |number|], number, [0x01, 0x01, 0xff]);
  }

  lemma Flatten(a: Bytes, b: Bytes, c: Bytes, d: Bytes, e: Bytes, f: Bytes, g: Bytes, h: Bytes, i: Bytes, j: Bytes,
      k: Bytes, l: Bytes)
    ensures a + (b + (c + ((d + (e + f + g)) + (h + i))) + (j + k) + l) ==
            a + b + c + d + e + f + g + h + i + j + k + l
  {
    assert (d + (e + f + g)) + (h + i) == d + e + f + g + h + i;
    var imprint := d + e + f + g + h + i;
    assert b + (c + imprint) + (j + k) + l == b + c + imprint + j + k + l;
    assert a + (b + c + imprint + j + k + l) == a + b + c + imprint + j + k + l;
    assert a + b + c + imprint == a + b + c + d + e + f + g + h + i;
  }

  lemma ShortTlv(tag: Byte, value: Bytes)
    requires |value| < 0x80
    ensures DerTlv(tag, value) == Some([tag, |value|] + value)
  {
    assert [tag] + [|value|] + value == [tag, |value|] + value;
  }

  lemma TlvLength(tag: Byte, value: Bytes)
    requires |value| < 0x80
    ensures DerTlv(tag, value).Some? && |DerTlv(tag, value).value| == 2 + |value|
  {
    hide Pow256;
    ShortLength(value);
  }

  /** An INTEGER's contents octets are a two's complement number (section 8.3.3 of ITU-T X.690). */
  function SignedValue(bs: Bytes): int
    requires bs != []
  {
    Value(bs) - if bs[0] >= 128 then Pow256(|bs|) else 0
  }

  /** The nonce octets are unsigned, and X.690 reads them as signed: the authority sees the nonce that
      was drawn unless its bit length is a positive multiple of eight, and a negative number then. */
  lemma {:induction false} NonceAsInteger(nonce: nat)
    ensures Value(NonceBytes(nonce)) == nonce
    ensures SignedValue(NonceBytes(nonce)) == nonce <==> nonce == 0 || BitLength(nonce) % 8 != 0
    ensures SignedValue(NonceBytes(nonce)) != nonce ==> SignedValue(NonceBytes(nonce)) < 0
  {
    ByteCount(nonce);
    ValueOfBigEndian(nonce);
    ValueBelow(BigEndian(nonce));
    if nonce == 0 { assert Value([0]) == 256 * Value([]) + 0; }
  }
}
