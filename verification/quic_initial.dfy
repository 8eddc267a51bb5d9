/** Building a QUIC v1 Initial packet (quic_initial_aead.go). AES-GCM, AES-ECB and HMAC-SHA256
    are functions of which only the output lengths are known, and that opening undoes sealing. */
module QuicInitial {
  import opened Text

  type Byte = x: int | 0 <= x < 256
  type Bytes = seq<Byte>

  const TAG := 16
  const HASH := 32
  const MIN_DATAGRAM := 1200

  /** `seal(key, nonce, plaintext, aad)`, `open(key, nonce, ciphertext, aad)`, `ecb(key, block)` and
      `hmac(key, message)`. */
  datatype Crypto = Crypto(seal: (Bytes, Bytes, Bytes, Bytes) -> Bytes, open: (Bytes, Bytes, Bytes, Bytes) -> Option<Bytes>,
                           ecb: (Bytes, Bytes) -> Bytes, hmac: (Bytes, Bytes) -> Bytes)

  ghost predicate Sound(c: Crypto) {
    && (forall k, n, p, a :: |c.seal(k, n, p, a)| == |p| + TAG && c.open(k, n, c.seal(k, n, p, a), a) == Some(p))
    && (forall k, b :: |c.ecb(k, b)| == 16)
    && (forall k, m :: |c.hmac(k, m)| == HASH)
  }

  // ---- Exclusive or ----

  function XorBits(a: nat, b: nat, n: nat): nat {
    if n == 0 then 0 else (a + b) % 2 + 2 * XorBits(a / 2, b / 2, n - 1)
  }

  function Pow2(n: nat): nat {
    if n == 0 then 1 else 2 * Pow2(n - 1)
  }

  lemma {:induction false} XorBitsBound(a: nat, b: nat, n: nat)
    ensures XorBits(a, b, n) < Pow2(n)
  {
    if n > 0 {
      XorBitsBound(a / 2, b / 2, n - 1);
    }
  }

  function Xor(a: Byte, b: Byte): Byte {
    XorBitsBound(a, b, 8);
    assert Pow2(8) == 256 by { assert Pow2(4) == 16; }
    XorBits(a, b, 8)
  }

  lemma {:induction false} LowBit(a: nat, b: nat, y: nat)
    ensures var x := (a + b) % 2 + 2 * y; x / 2 == y && (x + b) % 2 == a % 2
  {
  }

  lemma {:induction false} XorBitsTwice(a: nat, b: nat, n: nat)
    requires a < Pow2(n)
    ensures XorBits(XorBits(a, b, n), b, n) == a
  {
    if n > 0 {
      var x, y := XorBits(a, b, n), XorBits(a / 2, b / 2, n - 1);
      XorBitsTwice(a / 2, b / 2, n - 1);
      LowBit(a, b, y);
      assert x == (a + b) % 2 + 2 * y;
      assert XorBits(x, b, n) == (x + b) % 2 + 2 * XorBits(x / 2, b / 2, n - 1);
    }
  }

  function Bit(a: nat, k: nat): nat {
    if k == 0 then a % 2 else Bit(a / 2, k - 1)
  }

  lemma {:induction false} LowParity(a: nat, b: nat, y: nat)
    ensures ((a + b) % 2 + 2 * y) % 2 == if a % 2 == b % 2 then 0 else 1
  {
  }

  lemma {:induction false} BitStep(a: nat, k: nat)
    requires k > 0
    ensures Bit(a, k) == Bit(a / 2, k - 1)
  {
  }

  lemma {:induction false} XorBitsAt(a: nat, b: nat, n: nat, k: nat)
    requires k < n
    ensures Bit(XorBits(a, b, n), k) == if Bit(a, k) == Bit(b, k) then 0 else 1
  {
    var x, y := XorBits(a, b, n), XorBits(a / 2, b / 2, n - 1);
    assert x == (a + b) % 2 + 2 * y;
    hide XorBits;
    if k == 0 {
      LowParity(a, b, y);
    } else {
      hide Bit;
      LowBit(a, b, y);
      BitStep(x, k);
      BitStep(a, k);
      BitStep(b, k);
      XorBitsAt(a / 2, b / 2, n - 1, k - 1);
    }
  }

  /** Bit by bit, Xor is the exclusive or. */
  lemma {:induction false} XorBitwise(a: Byte, b: Byte, k: nat)
    requires k < 8
    ensures Bit(Xor(a, b), k) == if Bit(a, k) == Bit(b, k) then 0 else 1
  {
    XorBitsAt(a, b, 8, k);
  }

  lemma {:induction false} XorBitsHalf(a: nat, b: nat, n: nat)
    ensures XorBits(a, b, n + 1) / 2 == XorBits(a / 2, b / 2, n)
  {
    LowBit(a, b, XorBits(a / 2, b / 2, n));
  }

  lemma {:induction false} HalvedFourTimes(a: nat, b: nat)
    requires b < 16
    ensures a / 2 / 2 / 2 / 2 == a / 16 && b / 2 / 2 / 2 / 2 == 0
  {
  }

  /** The high half of a byte is out of reach of a half-byte mask. */
  lemma {:induction false} XorHigh(a: Byte, b: Byte)
    requires b < 16
    ensures Xor(a, b) / 16 == a / 16
  {
    XorBitsHalf(a, b, 7);
    XorBitsHalf(a / 2, b / 2, 6);
    XorBitsHalf(a / 2 / 2, b / 2 / 2, 5);
    XorBitsHalf(a / 2 / 2 / 2, b / 2 / 2 / 2, 4);
    HalvedFourTimes(a, b);
    HalvedFourTimes(Xor(a, b), 0);
    assert Pow2(4) == 16;
    hide XorBits, Pow2;
    XorZero(a / 16, 4);
  }

  /** Masking twice with the same byte gives the byte back. */
  lemma {:induction false} XorTwice(a: Byte, b: Byte)
    ensures Xor(Xor(a, b), b) == a
  {
    assert Pow2(8) == 256 by { assert Pow2(4) == 16; }
    XorBitsTwice(a, b, 8);
  }

  lemma {:induction false} XorZero(a: nat, n: nat)
    requires a < Pow2(n)
    ensures XorBits(a, 0, n) == a
  {
    if n > 0 {
      XorZero(a / 2, n - 1);
    }
  }

  // ---- Variable-length integers (section 16 of RFC 9000) ----

  const TWO14 := 16384
  const TWO30 := 1073741824
  const TWO31 := 2147483648
  const TWO32 := 4294967296

  function BigEndian4(v: nat): Bytes
    requires v < TWO32
  {
    [v / 16777216, v / 65536 % 256, v / 256 % 256, v % 256]
  }

  /** quicVarint, with the 32-bit conversion and the or-ed prefix of the last form. */
  function Varint(v: nat): (b: Bytes)
    ensures |b| == if v < 64 then 1 else if v < TWO14 then 2 else 4
  {
    if v < 64 then [v]
    else if v < TWO14 then [64 + v / 256, v % 256]
    else
      var u := v % TWO32;
      BigEndian4(if u >= TWO31 then u else u + TWO31)
  }

  function Value(b: Bytes): nat {
    if b == [] then 0 else Value(b[..|b| - 1]) * 256 + b[|b| - 1]
  }

  function VarintLength(first: Byte): nat {
    if first < 64 then 1 else if first < 128 then 2 else if first < 192 then 4 else 8
  }

  /** A receiver's decoding: the two high bits of the first byte give the length. */
  function DecodeVarint(b: Bytes): Option<(nat, nat)> {
    if b == [] || |b| < VarintLength(b[0]) then None
    else Some((Value([b[0] % 64] + b[1..VarintLength(b[0])]), VarintLength(b[0])))
  }

  lemma {:induction false} Value1(a: Byte)
    ensures Value([a]) == a
  {
    assert [a][..0] == [];
    assert Value([]) == 0;
  }

  lemma {:induction false} Value2(a: Byte, b: Byte)
    ensures Value([a, b]) == a * 256 + b
  {
    assert [a, b][..1] == [a];
    Value1(a);
  }

  lemma {:induction false} Value4(a: Byte, b: Byte, c: Byte, d: Byte)
    ensures Value([a, b, c, d]) == ((a * 256 + b) * 256 + c) * 256 + d
  {
    assert [a, b, c, d][..3] == [a, b, c] && [a, b, c][..2] == [a, b];
    Value2(a, b);
  }

  lemma {:induction false} FourBytes(w: nat)
    requires w < TWO32
    ensures ((w / 16777216 * 256 + w / 65536 % 256) * 256 + w / 256 % 256) * 256 + w % 256 == w
  {
    assert w / 65536 == w / 16777216 * 256 + w / 65536 % 256 by {
      assert w / 65536 / 256 == w / 16777216;
    }
    assert w / 256 == w / 65536 * 256 + w / 256 % 256 by {
      assert w / 256 / 256 == w / 65536;
    }
  }

  /** What the four-byte form decodes to: the low 30 bits, when the two high bits say so. */
  lemma {:induction false} Decode4(w: nat, rest: Bytes)
    requires TWO31 <= w < TWO31 + TWO30
    ensures DecodeVarint(BigEndian4(w) + rest) == Some((w - TWO31, 4))
  {
    var b := BigEndian4(w) + rest;
    var hi := w / 16777216;
    assert 128 <= hi < 192 && b[0] == hi;
    assert b[1..4] == [w / 65536 % 256, w / 256 % 256, w % 256];
    assert [hi % 64] + b[1..4] == [hi - 128, w / 65536 % 256, w / 256 % 256, w % 256];
    Value4(hi - 128, w / 65536 % 256, w / 256 % 256, w % 256);
    FourBytes(w);
  }

  lemma {:induction false} Decode8(w: nat, rest: Bytes)
    requires TWO31 + TWO30 <= w < TWO32
    ensures var d := DecodeVarint(BigEndian4(w) + rest); d.Some? ==> d.value.1 == 8
  {
    assert (BigEndian4(w) + rest)[0] == w / 16777216 >= 192;
  }

  lemma {:induction false} DecodeShort(v: nat, rest: Bytes)
    requires v < TWO14
    ensures DecodeVarint(Varint(v) + rest) == Some((v, |Varint(v)|))
  {
    var b := Varint(v) + rest;
    if v < 64 {
      assert b[0] == v && [v % 64] + b[1..1] == [v];
      Value1(v);
    } else {
      assert b[0] == 64 + v / 256 && b[1..2] == [v % 256];
      assert [b[0] % 64] + b[1..2] == [v / 256, v % 256];
      Value2(v / 256, v % 256);
    }
  }

  lemma {:induction false} VarintLong(v: nat) returns (w: nat)
    requires v >= TWO14
    ensures TWO31 <= w < TWO32 && Varint(v) == BigEndian4(w)
    ensures w == (if v % TWO32 >= TWO31 then v % TWO32 else v % TWO32 + TWO31)
  {
    var u := v % TWO32;
    w := if u >= TWO31 then u else u + TWO31;
    hide BigEndian4;
  }

  /** A length survives encoding and decoding exactly when it is below 2^30. */
  lemma {:induction false} VarintIff(v: nat, rest: Bytes)
    ensures DecodeVarint(Varint(v) + rest) == Some((v, |Varint(v)|)) <==> v < TWO30
  {
    hide Varint, BigEndian4, DecodeVarint;
    if v < TWO14 {
      DecodeShort(v, rest);
    } else {
      var w := VarintLong(v);
      if w < TWO31 + TWO30 {
        Decode4(w, rest);
      } else {
        Decode8(w, rest);
      }
    }
  }

  // ---- The packet ----

  function Zeros(n: nat): Bytes {
    seq(n, _ => 0)
  }

  const PACKET_NUMBER: Bytes := [0, 0, 0, 0]

  function CryptoFrame(hello: Bytes): Bytes {
    [6, 0] + Varint(|hello|) + hello
  }

  const MIN_PAYLOAD := MIN_DATAGRAM - 22 - TAG

  function Plaintext(hello: Bytes): Bytes {
    CryptoFrame(hello) + Zeros(if |CryptoFrame(hello)| < MIN_PAYLOAD then MIN_PAYLOAD - |CryptoFrame(hello)| else 0)
  }

  function LengthValue(hello: Bytes): nat {
    4 + |Plaintext(hello)| + TAG
  }

  /** The header up to the Length field. */
  function Prefix(dcid: Bytes): Bytes
    requires |dcid| < 256
  {
    [195, 0, 0, 0, 1, |dcid|] + dcid + [0, 0]
  }

  function Header(dcid: Bytes, hello: Bytes): Bytes
    requires |dcid| < 256
  {
    Prefix(dcid) + Varint(LengthValue(hello)) + PACKET_NUMBER
  }

  /** Header protection as applied by the sender: the low half of the first byte and the packet
      number, which ends the header. */
  function Masked(header: Bytes, mask: Bytes): Bytes
    requires |header| >= 5 && |mask| == 16
  {
    [Xor(header[0], mask[0] % 16)] + header[1..|header| - 4]
    + [Xor(header[|header| - 4], mask[1]), Xor(header[|header| - 3], mask[2]), Xor(header[|header| - 2], mask[3]), Xor(header[|header| - 1], mask[4])]
  }

  /** The masking part of buildQUICInitialAEAD, on a copy of the header. */
  method ProtectHeader(header: Bytes, mask: Bytes) returns (out: Bytes)
    requires |header| >= 5 && |mask| == 16
    ensures out == Masked(header, mask)
  {
    var buffer := new Byte[|header|](i requires 0 <= i < |header| => header[i]);
    buffer[0] := Xor(buffer[0], mask[0] % 16);
    var offset := |header| - 4;
    for i := 0 to 4
      invariant buffer[0] == Xor(header[0], mask[0] % 16)
      invariant forall j :: 1 <= j < |header| ==>
        buffer[j] == if offset <= j < offset + i then Xor(header[j], mask[1 + j - offset]) else header[j]
    {
      buffer[offset + i] := Xor(buffer[offset + i], mask[1 + i]);
    }
    out := buffer[..];
    assert |out| == |Masked(header, mask)|;
    forall j | 0 <= j < |out|
      ensures out[j] == Masked(header, mask)[j]
    {
    }
  }

  /** The nonce is the IV with the packet number xored into its end; number zero changes nothing. */
  method BuildNonce(iv: Bytes) returns (nonce: Bytes)
    requires |iv| == 12
    ensures nonce == iv
  {
    var buffer := new Byte[12](i requires 0 <= i < 12 => iv[i]);
    assert Pow2(8) == 256 by { assert Pow2(4) == 16; }
    for i := 0 to 4
      invariant buffer[..] == iv
    {
      XorZero(iv[8 + i], 8);
      buffer[8 + i] := Xor(buffer[8 + i], PACKET_NUMBER[i]);
    }
    nonce := buffer[..];
  }

  ghost function Packet(c: Crypto, key: Bytes, iv: Bytes, hp: Bytes, dcid: Bytes, hello: Bytes): Bytes
    requires Sound(c) && |dcid| < 256
  {
    var header := Header(dcid, hello);
    var sealed := c.seal(key, iv, Plaintext(hello), header);
    Masked(header, c.ecb(hp, sealed[..16])) + sealed
  }

  /** buildQUICInitialAEAD after the ClientHello, the DCID and the keys are known. */
  method BuildInitial(c: Crypto, key: Bytes, iv: Bytes, hp: Bytes, dcid: Bytes, hello: Bytes) returns (pkt: Bytes)
    requires Sound(c) && |dcid| < 256 && |iv| == 12
    ensures pkt == Packet(c, key, iv, hp, dcid, hello)
  {
    var nonce := BuildNonce(iv);
    var plaintext := CryptoFrame(hello);
    if |plaintext| < MIN_PAYLOAD {
      plaintext := plaintext + Zeros(MIN_PAYLOAD - |plaintext|);
    }
    assert plaintext == Plaintext(hello);
    hide Varint, Zeros, Masked, Plaintext;
    var header := Prefix(dcid) + Varint(4 + |plaintext| + TAG) + PACKET_NUMBER;
    var sealed := c.seal(key, nonce, plaintext, header);
    var protected := ProtectHeader(header, c.ecb(hp, sealed[..16]));
    pkt := protected + sealed;
  }

  // ---- What a receiver sees ----

  lemma {:induction false} MaskedLength(header: Bytes, mask: Bytes)
    requires |header| >= 5 && |mask| == 16
    ensures |Masked(header, mask)| == |header|
    ensures Masked(header, mask)[1..|header| - 4] == header[1..|header| - 4]
  {
  }

  /** Every Initial fills at least 1200 bytes (section 14.1 of RFC 9000), with the 8-byte DCID
      the sender uses, whatever the ClientHello, and no more when the ClientHello leaves room. */
  lemma {:induction false} AtLeast1200(c: Crypto, key: Bytes, iv: Bytes, hp: Bytes, dcid: Bytes, hello: Bytes)
    requires Sound(c) && |dcid| == 8
    ensures |Packet(c, key, iv, hp, dcid, hello)| >= MIN_DATAGRAM
    ensures |hello| <= 1158 ==> |Packet(c, key, iv, hp, dcid, hello)| == MIN_DATAGRAM
  {
    var header := Header(dcid, hello);
    var sealed := c.seal(key, iv, Plaintext(hello), header);
    MaskedLength(header, c.ecb(hp, sealed[..16]));
  }

  lemma {:induction false} DropConcat(a: Bytes, b: Bytes, i: nat)
    requires i <= |a|
    ensures (a + b)[i..] == a[i..] + b
  {
  }

  /** The sender's header, masked: all but the first byte and the packet number stay. */
  lemma {:induction false} MaskedFrame(p: Bytes, v: Bytes, mask: Bytes) returns (end: Bytes)
    requires |p| >= 1 && |mask| == 16
    ensures |end| == 4 && |Masked(p + v + PACKET_NUMBER, mask)| == |p| + |v| + 4
    ensures Masked(p + v + PACKET_NUMBER, mask)[1..|p|] == p[1..]
    ensures Masked(p + v + PACKET_NUMBER, mask)[|p|..] == v + end
  {
    var header := p + v + PACKET_NUMBER;
    MaskedMiddle(header, mask, |p|, |p| + |v|);
    MaskedMiddle(header, mask, 1, |p|);
    var masked := Masked(header, mask);
    hide Masked;
    end := masked[|p| + |v|..];
    assert header[|p|..|p| + |v|] == v && header[1..|p|] == p[1..];
    assert masked[|p|..] == masked[|p|..|p| + |v|] + end;
  }

  /** The bytes of the packet from the Length field on. */
  lemma {:induction false} FromLength(c: Crypto, key: Bytes, iv: Bytes, hp: Bytes, dcid: Bytes, hello: Bytes) returns (rest: Bytes)
    requires Sound(c) && |dcid| < 256
    ensures |Packet(c, key, iv, hp, dcid, hello)| >= |Prefix(dcid)|
    ensures Packet(c, key, iv, hp, dcid, hello)[|Prefix(dcid)|..] == Varint(LengthValue(hello)) + rest
    ensures |rest| == LengthValue(hello)
  {
    var header := Header(dcid, hello);
    var sealed := c.seal(key, iv, Plaintext(hello), header);
    var mask := c.ecb(hp, sealed[..16]);
    var p, v := Prefix(dcid), Varint(LengthValue(hello));
    var end := MaskedFrame(p, v, mask);
    hide Masked, Prefix, Varint, Plaintext;
    DropConcat(Masked(header, mask), sealed, |p|);
    ConcatBytes(v, end, sealed);
    rest := end + sealed;
  }

  lemma {:induction false} ConcatBytes(a: Bytes, b: Bytes, c: Bytes)
    ensures a + b + c == a + (b + c)
  {
  }

  lemma {:induction false} SliceOfSlice(s: Bytes, lo: nat, hi: nat, i: nat, j: nat)
    requires lo <= i <= j <= hi <= |s|
    ensures s[lo..hi][i - lo..j - lo] == s[i..j]
  {
    forall k | 0 <= k < j - i
      ensures s[lo..hi][i - lo..j - lo][k] == s[i..j][k]
    {
      assert s[lo..hi][i - lo + k] == s[i + k];
    }
  }

  lemma {:induction false} MaskedMiddle(header: Bytes, mask: Bytes, i: nat, j: nat)
    requires |mask| == 16 && 1 <= i <= j && j + 4 <= |header|
    ensures |Masked(header, mask)| == |header| && Masked(header, mask)[i..j] == header[i..j]
  {
    var m, body := Masked(header, mask), header[1..|header| - 4];
    hide Xor;
    assert |m| == |header| && m[1..|header| - 4] == body;
    hide Masked;
    SliceOfSlice(m, 1, |header| - 4, i, j);
    SliceOfSlice(header, 1, |header| - 4, i, j);
  }

  /** The Length field decodes to exactly the number of bytes that follow it (sections 16 and
      17.2 of RFC 9000) precisely when that number is below 2^30. */
  lemma {:induction false} LengthFieldIff(c: Crypto, key: Bytes, iv: Bytes, hp: Bytes, dcid: Bytes, hello: Bytes)
    requires Sound(c) && |dcid| < 256
    ensures var pkt := Packet(c, key, iv, hp, dcid, hello);
            var v := |Varint(LengthValue(hello))|;
            && |pkt| >= |Prefix(dcid)| + v
            && (DecodeVarint(pkt[|Prefix(dcid)|..]) == Some((|pkt| - |Prefix(dcid)| - v, v)) <==> LengthValue(hello) < TWO30)
  {
    var rest := FromLength(c, key, iv, hp, dcid, hello);
    VarintIff(LengthValue(hello), rest);
    var pkt := Packet(c, key, iv, hp, dcid, hello);
    hide Packet, DecodeVarint, LengthValue;
    assert |pkt[|Prefix(dcid)|..]| == |pkt| - |Prefix(dcid)|;
  }

  /** In terms of the ClientHello: the 26 bytes of framing, packet number and tag must still fit. */
  lemma {:induction false} LengthLimit(hello: Bytes)
    ensures LengthValue(hello) < TWO30 <==> |hello| < TWO30 - 26
  {
  }

  /** The CRYPTO frame announces its own length correctly below the same limit. */
  lemma {:induction false} CryptoLengthIff(hello: Bytes)
    ensures DecodeVarint(CryptoFrame(hello)[2..]) == Some((|hello|, |Varint(|hello|)|)) <==> |hello| < TWO30
  {
    assert CryptoFrame(hello)[2..] == Varint(|hello|) + hello;
    VarintIff(|hello|, hello);
  }

  /** Header protection removal (section 5.4 of RFC 9001): `offset` is where the packet number
      starts, the sample begins four bytes later. */
  function Unmasked(pkt: Bytes, offset: nat, mask: Bytes): Bytes
    requires 1 <= offset && offset + 4 <= |pkt| && |mask| == 16
  {
    [Xor(pkt[0], mask[0] % 16)] + pkt[1..offset]
    + [Xor(pkt[offset], mask[1]), Xor(pkt[offset + 1], mask[2]), Xor(pkt[offset + 2], mask[3]), Xor(pkt[offset + 3], mask[4])]
  }

  lemma {:induction false} UnmaskMasked(header: Bytes, mask: Bytes, sealed: Bytes)
    requires |header| >= 5 && |mask| == 16
    ensures |Masked(header, mask)| == |header|
    ensures Unmasked(Masked(header, mask) + sealed, |header| - 4, mask) == header
  {
    var n := |header| - 4;
    var pkt := Masked(header, mask) + sealed;
    XorTwice(header[0], mask[0] % 16);
    XorTwice(header[n], mask[1]);
    XorTwice(header[n + 1], mask[2]);
    XorTwice(header[n + 2], mask[3]);
    XorTwice(header[n + 3], mask[4]);
    hide Xor;
    assert pkt[1..n] == header[1..n];
    assert header == [header[0]] + header[1..n] + [header[n], header[n + 1], header[n + 2], header[n + 3]];
  }

  /** A receiver that knows the header-protection key recovers the header the sender sealed with
      and finds the ciphertext behind it. */
  lemma {:induction false} ReceiverRecovers(c: Crypto, key: Bytes, iv: Bytes, hp: Bytes, dcid: Bytes, hello: Bytes)
    requires Sound(c) && |dcid| < 256
    ensures var pkt := Packet(c, key, iv, hp, dcid, hello);
            var offset := |Header(dcid, hello)| - 4;
            && offset + 20 <= |pkt|
            && Unmasked(pkt, offset, c.ecb(hp, pkt[offset + 4..offset + 20])) == Header(dcid, hello)
            && pkt[offset + 4..] == c.seal(key, iv, Plaintext(hello), Header(dcid, hello))
  {
    var header := Header(dcid, hello);
    var sealed := c.seal(key, iv, Plaintext(hello), header);
    var mask := c.ecb(hp, sealed[..16]);
    UnmaskMasked(header, mask, sealed);
    var masked := Masked(header, mask);
    var pkt := masked + sealed;
    hide Masked, Unmasked;
    assert pkt[|header|..] == sealed;
    assert pkt[|header|..|header| + 16] == sealed[..16];
  }

  // ---- HKDF-Expand (section 2.3 of RFC 5869) ----

  /** T(i); the counter is a byte. */
  function Block(c: Crypto, prk: Bytes, info: Bytes, i: nat): Bytes {
    if i == 0 then [] else c.hmac(prk, Block(c, prk, info, i - 1) + info + [i % 256])
  }

  function Blocks(c: Crypto, prk: Bytes, info: Bytes, n: nat): Bytes {
    if n == 0 then [] else Blocks(c, prk, info, n - 1) + Block(c, prk, info, n)
  }

  lemma {:induction false} BlocksLength(c: Crypto, prk: Bytes, info: Bytes, n: nat)
    requires Sound(c)
    ensures |Blocks(c, prk, info, n)| == n * HASH
  {
    if n > 0 {
      BlocksLength(c, prk, info, n - 1);
    }
  }

  /** hkdfExpand: exactly the requested prefix of T(1) | T(2) | ... */
  method HkdfExpand(c: Crypto, prk: Bytes, info: Bytes, length: nat) returns (out: Bytes)
    requires Sound(c)
    ensures |out| == length && out <= Blocks(c, prk, info, (length + HASH - 1) / HASH)
  {
    var n := (length + HASH - 1) / HASH;
    var all, prev: Bytes := [], [];
    for i := 1 to n + 1
      invariant prev == Block(c, prk, info, i - 1) && all == Blocks(c, prk, info, i - 1)
    {
      prev := c.hmac(prk, prev + info + [i % 256]);
      all := all + prev;
    }
    BlocksLength(c, prk, info, n);
    out := all[..length];
  }

  /** A longer request only continues a shorter one. */
  lemma {:induction false} ExpandPrefix(c: Crypto, prk: Bytes, info: Bytes, m: nat, n: nat)
    requires Sound(c) && m <= n
    ensures Blocks(c, prk, info, m) <= Blocks(c, prk, info, n)
  {
    if m < n {
      ExpandPrefix(c, prk, info, m, n - 1);
    }
  }

  // ---- Initial keys (section 5.2 of RFC 9001, section 7.1 of RFC 8446) ----

  const SALT: Bytes := [0x38, 0x76, 0x2c, 0xf7, 0xf5, 0x59, 0x34, 0xb3, 0x4d, 0x17, 0x9a, 0xe6, 0xa4, 0xc8, 0x0c, 0xad, 0xcc, 0xbb, 0x7f, 0x0a]

  predicate Ascii(s: string) {
    forall i :: 0 <= i < |s| ==> s[i] as int < 256
  }

  function Encoded(s: string): Bytes
    requires Ascii(s)
  {
    seq(|s|, i requires 0 <= i < |s| => s[i] as int)
  }

  /** HkdfLabel with an empty context. */
  function LabelInfo(name: string, length: nat): Bytes
    requires Ascii(name) && |name| < 250 && length < 65536
  {
    [length / 256, length % 256, 6 + |name|] + Encoded("tls13 " + name) + [0]
  }

  /** The encoded labels of appendix A.1 of RFC 9001. */
  const CLIENT_LABEL: Bytes := [0x00, 0x20, 0x0f, 0x74, 0x6c, 0x73, 0x31, 0x33, 0x20, 0x63, 0x6c, 0x69, 0x65, 0x6e, 0x74, 0x20, 0x69, 0x6e, 0x00]
  const KEY_LABEL: Bytes := [0x00, 0x10, 0x0e, 0x74, 0x6c, 0x73, 0x31, 0x33, 0x20, 0x71, 0x75, 0x69, 0x63, 0x20, 0x6b, 0x65, 0x79, 0x00]
  const IV_LABEL: Bytes := [0x00, 0x0c, 0x0d, 0x74, 0x6c, 0x73, 0x31, 0x33, 0x20, 0x71, 0x75, 0x69, 0x63, 0x20, 0x69, 0x76, 0x00]
  const HP_LABEL: Bytes := [0x00, 0x10, 0x0d, 0x74, 0x6c, 0x73, 0x31, 0x33, 0x20, 0x71, 0x75, 0x69, 0x63, 0x20, 0x68, 0x70, 0x00]

  lemma {:induction false} ClientLabel()
    ensures LabelInfo("client in", 32) == CLIENT_LABEL
  {
    hide DecodeVarint, Value, Varint, Xor, XorBits, Pow2;
  }

  lemma {:induction false} KeyLabel()
    ensures LabelInfo("quic key", 16) == KEY_LABEL
  {
    hide DecodeVarint, Value, Varint, Xor, XorBits, Pow2;
  }

  lemma {:induction false} IvLabel()
    ensures LabelInfo("quic iv", 12) == IV_LABEL
  {
    hide DecodeVarint, Value, Varint, Xor, XorBits, Pow2;
  }

  lemma {:induction false} HpLabel()
    ensures LabelInfo("quic hp", 16) == HP_LABEL
  {
    hide DecodeVarint, Value, Varint, Xor, XorBits, Pow2;
  }

  lemma {:induction false} LabelsOfRfc9001()
    ensures LabelInfo("client in", 32) == CLIENT_LABEL
    ensures LabelInfo("quic key", 16) == KEY_LABEL
    ensures LabelInfo("quic iv", 12) == IV_LABEL
    ensures LabelInfo("quic hp", 16) == HP_LABEL
  {
    ClientLabel();
    KeyLabel();
    IvLabel();
    HpLabel();
    hide *;
  }

  /** HKDF-Expand-Label for an output of at most one hash block. */
  function Expanded(c: Crypto, secret: Bytes, name: string, length: nat): Bytes
    requires Ascii(name) && |name| < 250 && length < 65536 && |c.hmac(secret, LabelInfo(name, length) + [1])| >= length
  {
    c.hmac(secret, LabelInfo(name, length) + [1])[..length]
  }

  ghost function ClientSecret(c: Crypto, dcid: Bytes): Bytes
    requires Sound(c)
  {
    Expanded(c, c.hmac(SALT, dcid), "client in", 32)
  }

  datatype InitialKeys = InitialKeys(key: Bytes, iv: Bytes, hp: Bytes)

  ghost function KeysFor(c: Crypto, dcid: Bytes): (k: InitialKeys)
    requires Sound(c)
    ensures |k.key| == 16 && |k.iv| == 12 && |k.hp| == 16
  {
    var secret := ClientSecret(c, dcid);
    InitialKeys(Expanded(c, secret, "quic key", 16), Expanded(c, secret, "quic iv", 12), Expanded(c, secret, "quic hp", 16))
  }

  /** hkdfExpandLabel with the empty context all callers pass. */
  method HkdfExpandLabel(c: Crypto, secret: Bytes, name: string, length: nat) returns (out: Bytes)
    requires Sound(c) && Ascii(name) && |name| < 250 && 0 < length <= HASH
    ensures out == Expanded(c, secret, name, length)
  {
    var info: Bytes := [length / 256, length % 256, 6 + |name|];
    info := info + Encoded("tls13 " + name);
    info := info + [0];
    FirstBlock(c, secret, info);
    out := HkdfExpand(c, secret, info, length);
  }

  /** deriveInitialKeys: everything follows from the DCID. */
  method DeriveInitialKeys(c: Crypto, dcid: Bytes) returns (keys: InitialKeys)
    requires Sound(c)
    ensures keys == KeysFor(c, dcid)
  {
    var initial := c.hmac(SALT, dcid);
    var client := HkdfExpandLabel(c, initial, "client in", 32);
    var key := HkdfExpandLabel(c, client, "quic key", 16);
    var iv := HkdfExpandLabel(c, client, "quic iv", 12);
    var hp := HkdfExpandLabel(c, client, "quic hp", 16);
    keys := InitialKeys(key, iv, hp);
  }

  lemma {:induction false} FirstBlock(c: Crypto, prk: Bytes, info: Bytes)
    ensures Blocks(c, prk, info, 1) == c.hmac(prk, info + [1])
  {
    assert Blocks(c, prk, info, 0) == [] && Block(c, prk, info, 0) == [];
    assert [] + info == info;
    assert Block(c, prk, info, 1) == c.hmac(prk, info + [1]);
  }

  /** buildQUICInitialAEAD: the TLS record header is stripped, a shorter record is an error. */
  method BuildQuicInitial(c: Crypto, dcid: Bytes, record: Bytes) returns (pkt: Option<Bytes>)
    requires Sound(c) && |dcid| == 8
    ensures pkt == if |record| < 5 then None
                   else Some(Packet(c, KeysFor(c, dcid).key, KeysFor(c, dcid).iv, KeysFor(c, dcid).hp, dcid, record[5..]))
    ensures pkt.Some? && |record| - 5 < TWO30 - 26 ==> Receive(c, pkt.value) == Some(record[5..])
  {
    hide Packet, KeysFor, Receive;
    if |record| < 5 {
      return None;
    }
    var keys := DeriveInitialKeys(c, dcid);
    var built := BuildInitial(c, keys.key, keys.iv, keys.hp, dcid, record[5..]);
    if |record| - 5 < TWO30 - 26 {
      ReceiveInitial(c, dcid, record[5..]);
    }
    pkt := Some(built);
  }

  // ---- A receiver that sees only the datagram ----

  /** Sections 5.3 and 5.4 of RFC 9001: the packet number is `n` bytes long. */
  function UnmaskedHeader(pkt: Bytes, offset: nat, mask: Bytes, n: nat): Bytes
    requires 1 <= offset && offset + n <= |pkt| && n <= 4 && |mask| == 16
  {
    [Xor(pkt[0], mask[0] % 16)] + pkt[1..offset] + seq(n, i requires 0 <= i < n => Xor(pkt[offset + i], mask[1 + i]))
  }

  function Nonce(iv: Bytes, number: Bytes): Bytes
    requires |iv| == 12 && |number| <= 4
  {
    seq(12, i requires 0 <= i < 12 => if i + |number| < 12 then iv[i] else Xor(iv[i], number[i + |number| - 12]))
  }

  /** The version-1 salt as section 5.2 of RFC 9001 prints it. */
  const VERSION_ONE_SALT: Bytes := [0x38, 0x76, 0x2c, 0xf7, 0xf5, 0x59, 0x34, 0xb3, 0x4d, 0x17, 0x9a, 0xe6, 0xa4, 0xc8, 0x0c, 0xad, 0xcc, 0xbb, 0x7f, 0x0a]
  const VERSION_ONE: Bytes := [0, 0, 0, 1]

  /** The client's Initial keys as a receiver derives them (sections 5.1 and 5.2 of RFC 9001): no
      output is longer than a hash, so each is the start of one HMAC over the encoded label. */
  ghost function ReceiverKeys(c: Crypto, dcid: Bytes): (k: InitialKeys)
    requires Sound(c)
    ensures |k.key| == 16 && |k.iv| == 12 && |k.hp| == 16
  {
    var client := c.hmac(c.hmac(VERSION_ONE_SALT, dcid), CLIENT_LABEL + [1]);
    InitialKeys(c.hmac(client, KEY_LABEL + [1])[..16], c.hmac(client, IV_LABEL + [1])[..12], c.hmac(client, HP_LABEL + [1])[..16])
  }

  /** Sender and receiver derive the same keys. */
  lemma {:induction false} KeysAgree(c: Crypto, dcid: Bytes)
    requires Sound(c)
    ensures KeysFor(c, dcid) == ReceiverKeys(c, dcid)
  {
    LabelsOfRfc9001();
    hide LabelInfo;
    assert SALT == VERSION_ONE_SALT;
    assert ClientSecret(c, dcid) == c.hmac(c.hmac(SALT, dcid), CLIENT_LABEL + [1]);
  }

  predicate Padding(b: Bytes) {
    forall i :: 0 <= i < |b| ==> b[i] == 0
  }

  /** A CRYPTO frame at offset zero (section 19.6 of RFC 9000), with nothing but padding behind it. */
  function ReadCrypto(payload: Bytes): Option<Bytes> {
    if payload == [] || payload[0] != 6 then None
    else
      match DecodeVarint(payload[1..])
      case None => None
      case Some((start, n)) =>
        match DecodeVarint(payload[1 + n..])
        case None => None
        case Some((length, m)) =>
          var end := 1 + n + m + length;
          if start != 0 || |payload| < end || !Padding(payload[end..]) then None else Some(payload[1 + n + m..end])
  }

  /** Removes header protection, opens the payload and reads the CRYPTO frame. */
  ghost function OpenAt(c: Crypto, k: InitialKeys, pkt: Bytes, offset: nat, length: nat): Option<Bytes>
    requires Sound(c) && |k.iv| == 12
  {
    if offset == 0 || length < 20 || |pkt| < offset + length then None
    else
      var mask := c.ecb(k.hp, pkt[offset + 4..offset + 20]);
      var n := Xor(pkt[0], mask[0] % 16) % 4 + 1;
      var header := UnmaskedHeader(pkt, offset, mask, n);
      if header[0] / 4 % 4 != 0 then None
      else
      match c.open(k.key, Nonce(k.iv, header[offset..]), pkt[offset + n..offset + length], header)
      case None => None
      case Some(payload) => ReadCrypto(payload)
  }

  /** Sections 17.2 and 17.2.2 of RFC 9000: a long header of an Initial in version 1, then connection
      IDs, token and Length are read from the datagram, and the keys follow from the DCID. */
  ghost function Receive(c: Crypto, pkt: Bytes): Option<Bytes>
    requires Sound(c)
  {
    var d: nat := if |pkt| < 6 then 0 else pkt[5];
    var s: nat := if |pkt| < 7 + d then 0 else pkt[6 + d];
    var token := 7 + d + s;
    if |pkt| < token || pkt[0] / 16 != 12 || pkt[1..5] != VERSION_ONE then None
    else
      match DecodeVarint(pkt[token..])
      case None => None
      case Some((size, n)) =>
        if |pkt| < token + n + size then None
        else
          match DecodeVarint(pkt[token + n + size..])
          case None => None
          case Some((length, m)) => OpenAt(c, ReceiverKeys(c, pkt[6..6 + d]), pkt, token + n + size + m, length)
  }

  lemma {:induction false} ZeroNonce(iv: Bytes)
    requires |iv| == 12
    ensures Nonce(iv, PACKET_NUMBER) == iv
  {
    assert Pow2(8) == 256 by { assert Pow2(4) == 16; }
    forall i | 0 <= i < 12
      ensures Nonce(iv, PACKET_NUMBER)[i] == iv[i]
    {
      XorZero(iv[i], 8);
    }
  }

  lemma {:induction false} ZeroVarint(rest: Bytes)
    ensures DecodeVarint([0] + rest) == Some((0, 1))
  {
    DecodeShort(0, rest);
  }

  lemma {:induction false} CryptoRead(hello: Bytes, padding: Bytes)
    requires |hello| < TWO30
    ensures Padding(padding) ==> ReadCrypto(CryptoFrame(hello) + padding) == Some(hello)
  {
    var v := Varint(|hello|);
    var payload := CryptoFrame(hello) + padding;
    assert payload[1..] == [0] + (v + hello + padding);
    ZeroVarint(v + hello + padding);
    assert payload[2..] == v + (hello + padding);
    VarintIff(|hello|, hello + padding);
    hide Varint, DecodeVarint;
    assert payload[2 + |v|..2 + |v| + |hello|] == hello && payload[2 + |v| + |hello|..] == padding;
  }

  /** The unprotected header, however long the receiver takes the packet number to be. */
  lemma {:induction false} HeaderAgain(header: Bytes, mask: Bytes, sealed: Bytes)
    requires |header| >= 5 && |mask| == 16 && header[0] == 195
    ensures |Masked(header, mask)| == |header|
    ensures var pkt := Masked(header, mask) + sealed;
            && Xor(pkt[0], mask[0] % 16) == 195
            && UnmaskedHeader(pkt, |header| - 4, mask, 4) == header
  {
    UnmaskMasked(header, mask, sealed);
    var pkt := Masked(header, mask) + sealed;
    var n := |header| - 4;
    assert Unmasked(pkt, n, mask)[0] == 195;
    hide Xor, Masked;
    assert UnmaskedHeader(pkt, n, mask, 4) == Unmasked(pkt, n, mask);
  }

  /** The ciphertext and its sample, behind the packet number. */
  lemma {:induction false} SealedPlace(masked: Bytes, sealed: Bytes, n: nat)
    requires |masked| == n + 4 && |sealed| >= 16
    ensures (masked + sealed)[n + 4..n + 20] == sealed[..16]
    ensures (masked + sealed)[n + 4..n + 4 + |sealed|] == sealed
  {
  }

  lemma {:induction false} PlaintextRead(hello: Bytes)
    requires |hello| < TWO30
    ensures ReadCrypto(Plaintext(hello)) == Some(hello)
  {
    CryptoRead(hello, Zeros(if |CryptoFrame(hello)| < MIN_PAYLOAD then MIN_PAYLOAD - |CryptoFrame(hello)| else 0));
    hide ReadCrypto, CryptoFrame, Zeros;
  }

  lemma {:induction false} HeaderEnds(dcid: Bytes, hello: Bytes)
    requires |dcid| < 256
    ensures |Header(dcid, hello)| >= 5 && Header(dcid, hello)[0] == 195 && Header(dcid, hello)[|Header(dcid, hello)| - 4..] == PACKET_NUMBER
  {
    hide Varint, LengthValue;
  }

  lemma {:induction false} OpenWith(c: Crypto, k: InitialKeys, pkt: Bytes, offset: nat, length: nat, header: Bytes, mask: Bytes, sealed: Bytes)
    requires Sound(c) && |k.iv| == 12 && |mask| == 16 && 1 <= offset && 20 <= length && |pkt| == offset + length
    requires mask == c.ecb(k.hp, pkt[offset + 4..offset + 20]) && Xor(pkt[0], mask[0] % 16) == 195
    requires UnmaskedHeader(pkt, offset, mask, 4) == header && |header| == offset + 4 && header[offset..] == PACKET_NUMBER
    requires pkt[offset + 4..offset + length] == sealed
    ensures OpenAt(c, k, pkt, offset, length)
         == match c.open(k.key, k.iv, sealed, header) case None => None case Some(payload) => ReadCrypto(payload)
  {
    ZeroNonce(k.iv);
    hide Xor, UnmaskedHeader, Nonce, ReadCrypto;
  }

  /** With the position of the packet number and the true length, the payload opens. */
  lemma {:induction false} OpensAt(c: Crypto, k: InitialKeys, dcid: Bytes, hello: Bytes)
    requires Sound(c) && |dcid| < 256 && |k.iv| == 12 && |hello| < TWO30
    ensures var pkt := Packet(c, k.key, k.iv, k.hp, dcid, hello);
            var offset := |Header(dcid, hello)| - 4;
            && offset + LengthValue(hello) == |pkt| && OpenAt(c, k, pkt, offset, LengthValue(hello)) == Some(hello)
  {
    var header := Header(dcid, hello);
    var sealed := c.seal(k.key, k.iv, Plaintext(hello), header);
    var mask := c.ecb(k.hp, sealed[..16]);
    var offset := |header| - 4;
    HeaderEnds(dcid, hello);
    HeaderAgain(header, mask, sealed);
    SealedPlace(Masked(header, mask), sealed, offset);
    PlaintextRead(hello);
    assert |sealed| + 4 == LengthValue(hello);
    assert Packet(c, k.key, k.iv, k.hp, dcid, hello) == Masked(header, mask) + sealed;
    hide Packet, Header, Masked, Xor, UnmaskedHeader, Nonce, ReadCrypto, Plaintext, LengthValue, OpenAt;
    OpenWith(c, k, Masked(header, mask) + sealed, offset, LengthValue(hello), header, mask, sealed);
  }

  lemma {:induction false} PrefixFields(dcid: Bytes)
    requires |dcid| < 256
    ensures var p := Prefix(dcid);
            |p| == 8 + |dcid| && p[1..5] == VERSION_ONE && p[5] == |dcid| && p[6..6 + |dcid|] == dcid && p[6 + |dcid|] == 0 && p[7 + |dcid|] == 0
  {
  }

  /** Bytes that two strings share from the second on. */
  lemma {:induction false} SharedFields(p: Bytes, pkt: Bytes, d: nat)
    requires |p| == 8 + d && |pkt| >= |p| && pkt[1..|p|] == p[1..]
    ensures pkt[1..5] == p[1..5] && pkt[5] == p[5] && pkt[6..6 + d] == p[6..6 + d] && pkt[6 + d] == p[6 + d] && pkt[7 + d] == p[7 + d]
  {
    forall i | 1 <= i < |p|
      ensures pkt[i] == p[i]
    {
      assert pkt[1..|p|][i - 1] == p[1..][i - 1];
    }
  }

  /** Where the fields of the long header are, as the receiver finds them. */
  lemma {:induction false} LongHeaderFields(c: Crypto, key: Bytes, iv: Bytes, hp: Bytes, dcid: Bytes, hello: Bytes)
    requires Sound(c) && |dcid| < 256
    ensures var pkt := Packet(c, key, iv, hp, dcid, hello);
            var d := |dcid|;
            && |pkt| >= 8 + d && pkt[0] / 16 == 12 && pkt[1..5] == VERSION_ONE
            && pkt[5] == d && pkt[6..6 + d] == dcid && pkt[6 + d] == 0
            && DecodeVarint(pkt[7 + d..]) == Some((0, 1))
  {
    var header := Header(dcid, hello);
    var sealed := c.seal(key, iv, Plaintext(hello), header);
    var mask := c.ecb(hp, sealed[..16]);
    var p := Prefix(dcid);
    var end := MaskedFrame(p, Varint(LengthValue(hello)), mask);
    PrefixFields(dcid);
    XorHigh(195, mask[0] % 16);
    assert header[0] == 195 && Masked(header, mask)[0] / 16 == 12;
    hide Masked, Varint, LengthValue, Plaintext, Prefix, DecodeVarint, Xor;
    var pkt := Masked(header, mask) + sealed;
    assert pkt[1..|p|] == Masked(header, mask)[1..|p|];
    SharedFields(p, pkt, |dcid|);
    ZeroVarint(pkt[8 + |dcid|..]);
    assert pkt[7 + |dcid|..] == [0] + pkt[8 + |dcid|..];
  }

  lemma {:induction false} ReceiveWith(c: Crypto, pkt: Bytes, dcid: Bytes, length: nat, m: nat)
    requires Sound(c) && |pkt| >= 8 + |dcid| && |dcid| < 256
    requires pkt[0] / 16 == 12 && pkt[1..5] == VERSION_ONE
    requires pkt[5] == |dcid| && pkt[6..6 + |dcid|] == dcid && pkt[6 + |dcid|] == 0
    requires DecodeVarint(pkt[7 + |dcid|..]) == Some((0, 1)) && DecodeVarint(pkt[8 + |dcid|..]) == Some((length, m))
    ensures Receive(c, pkt) == OpenAt(c, ReceiverKeys(c, dcid), pkt, 8 + |dcid| + m, length)
  {
    hide DecodeVarint, OpenAt, ReceiverKeys;
  }

  /** End to end: from the datagram alone a receiver reads back the ClientHello, for every
      ClientHello the length fields can carry. */
  lemma {:induction false} ReceiveInitial(c: Crypto, dcid: Bytes, hello: Bytes)
    requires Sound(c) && |dcid| < 256 && |hello| < TWO30 - 26
    ensures var k := KeysFor(c, dcid); Receive(c, Packet(c, k.key, k.iv, k.hp, dcid, hello)) == Some(hello)
  {
    var k := KeysFor(c, dcid);
    var pkt := Packet(c, k.key, k.iv, k.hp, dcid, hello);
    LongHeaderFields(c, k.key, k.iv, k.hp, dcid, hello);
    LengthFieldIff(c, k.key, k.iv, k.hp, dcid, hello);
    LengthLimit(hello);
    OpensAt(c, k, dcid, hello);
    assert |Prefix(dcid)| == 8 + |dcid| && |Header(dcid, hello)| == |Prefix(dcid)| + |Varint(LengthValue(hello))| + 4;
    KeysAgree(c, dcid);
    hide Packet, Header, Varint, DecodeVarint, OpenAt, KeysFor, ReceiverKeys, LengthValue, Prefix, Receive;
    ReceiveWith(c, pkt, dcid, LengthValue(hello), |Varint(LengthValue(hello))|);
  }
}
