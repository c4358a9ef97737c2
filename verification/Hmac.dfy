/** HMAC-SHA256 over the streaming hash, and the hexadecimal it is written in. */
module Hmac {
  import opened Bytes
  import opened Sha256Spec
  import opened StreamingSha256

  /** More bytes than this would overflow the 64-bit count of bits. */
  const MAX_BYTES := 0x2000_0000_0000_0000

  function Flatten(chunks: seq<seq<byte>>): seq<byte> {
    if chunks == [] then [] else Flatten(chunks[..|chunks| - 1]) + chunks[|chunks| - 1]
  }

  lemma {:induction false} FlattenLength(chunks: seq<seq<byte>>, i: nat)
    requires i <= |chunks|
    ensures |Flatten(chunks[..i])| <= |Flatten(chunks)|
  {
    if i == |chunks| {
      assert chunks[..i] == chunks;
    } else {
      var front := chunks[..|chunks| - 1];
      assert front[..i] == chunks[..i];
      FlattenLength(front, i);
    }
  }

  /** However a message is cut up, feeding the pieces and finishing gives its hash. */
  method HashChunks(chunks: seq<seq<byte>>) returns (digest: seq<byte>)
    requires |Flatten(chunks)| < MAX_BYTES
    ensures digest == Sha256(Flatten(chunks))
  {
    hide Sha256, HashBlocks, BitCount;
    var h := new Sha256Stream();
    for i := 0 to |chunks|
      invariant h.Valid() && fresh(h) && fresh(h.state) && fresh(h.buffer)
      invariant h.Fed() == Flatten(chunks[..i])
    {
      h.Update(chunks[i]);
      assert chunks[..i + 1][..i] == chunks[..i];
    }
    assert chunks[..|chunks|] == chunks;
    digest := h.Finish();
  }

  // ---- RFC 2104, section 2 ----

  const IPAD: byte := 0x36
  const OPAD: byte := 0x5c

  function XorByte(b: byte, mask: byte): byte { ((b as bv8) ^ (mask as bv8)) as byte }

  function XorWith(s: seq<byte>, mask: byte): (r: seq<byte>) {
    seq(|s|, i requires 0 <= i < |s| => XorByte(s[i], mask))
  }

  /** The key as one block: hashed first when it is longer, zero bytes appended when it is shorter. */
  function BlockKey(key: seq<byte>): (r: seq<byte>)
    ensures |r| == BLOCK_BYTES
  {
    var k := if |key| > BLOCK_BYTES then Sha256(key) else key;
    k + Repeat(0, BLOCK_BYTES - |k|)
  }

  /** `H(K XOR opad, H(K XOR ipad, text))`. */
  function HmacSha256(key: seq<byte>, text: seq<byte>): (r: seq<byte>)
    ensures |r| == 32
  {
    Sha256(XorWith(BlockKey(key), OPAD) + Sha256(XorWith(BlockKey(key), IPAD) + text))
  }

  /** The two keyed pads: the key, or its digest if it is longer than a block, filled up with zero bytes, and each
      byte xored with 0x36 and with 0x5c. */
  lemma PadsAre(key: seq<byte>, text: seq<byte>) returns (inner: seq<byte>, outer: seq<byte>)
    ensures HmacSha256(key, text) == Sha256(outer + Sha256(inner + text))
    ensures |inner| == 64 && |outer| == 64
    ensures var k := if |key| > 64 then Sha256(key) else key;
      |k| <= 64 && forall i | 0 <= i < 64 ::
        var b: byte := if i < |k| then k[i] else 0;
        inner[i] == (b as bv8 ^ 0x36) as byte && outer[i] == (b as bv8 ^ 0x5c) as byte
  {
    hide Sha256;
    inner, outer := XorWith(BlockKey(key), IPAD), XorWith(BlockKey(key), OPAD);
    var k := if |key| > 64 then Sha256(key) else key;
    assert IPAD as bv8 == 0x36 && OPAD as bv8 == 0x5c;
    forall i | 0 <= i < 64
      ensures BlockKey(key)[i] == if i < |k| then k[i] else 0
    {}
  }

  /** The key as one block, in a vector of zero bytes the key or its digest is copied over. */
  method NormaliseKey(key: seq<byte>) returns (normalised: seq<byte>)
    requires |key| < MAX_BYTES
    ensures normalised == BlockKey(key)
  {
    hide Sha256, HashBlocks, BitCount;
    var k := key;
    if |key| > BLOCK_BYTES {
      var h := new Sha256Stream();
      h.Update(key);
      assert h.Fed() == key;
      k := h.Finish();
    }
    var block := new byte[BLOCK_BYTES](_ => 0);
    forall i | 0 <= i < |k| {
      block[i] := k[i];
    }
    return block[..];
  }

  /** One pad, written byte by byte. */
  method WritePad(normalised: seq<byte>, mask: byte) returns (pad: seq<byte>)
    ensures pad == XorWith(normalised, mask)
  {
    hide XorByte;
    pad := [];
    for i := 0 to |normalised|
      invariant |pad| == i
      invariant forall j :: 0 <= j < i ==> pad[j] == XorByte(normalised[j], mask)
    {
      pad := pad + [XorByte(normalised[i], mask)];
    }
  }

  /** `hmac_sha256` of the C++ client. */
  method ComputeHmac(key: seq<byte>, message: seq<byte>) returns (mac: seq<byte>)
    requires |key| < MAX_BYTES && |message| < MAX_BYTES - BLOCK_BYTES
    ensures mac == HmacSha256(key, message)
  {
    hide Sha256, HashBlocks, BitCount, XorByte, BlockKey;
    var normalised := NormaliseKey(key);
    var innerPad := WritePad(normalised, IPAD);
    var outerPad := WritePad(normalised, OPAD);

    var inner := new Sha256Stream();
    inner.Update(innerPad);
    inner.Update(message);
    assert inner.Fed() == innerPad + message;
    var innerDigest := inner.Finish();

    var outer := new Sha256Stream();
    outer.Update(outerPad);
    outer.Update(innerDigest);
    assert outer.Fed() == outerPad + innerDigest;
    mac := outer.Finish();
  }

  // ---- Comparing and writing digests ----

  lemma XorIsZero(x: bv8, y: bv8)
    ensures x ^ y == 0 <==> x == y
  {}

  /** `equal_constant_time`: looks at every byte whatever it finds. */
  method EqualConstantTime(a: seq<bv8>, b: seq<bv8>) returns (equal: bool)
    ensures equal <==> a == b
  {
    if |a| != |b| {
      return false;
    }
    var diff: bv8 := 0;
    for i := 0 to |a|
      invariant diff == 0 <==> a[..i] == b[..i]
    {
      XorIsZero(a[i], b[i]);
      diff := diff | (a[i] ^ b[i]);
      assert a[..i + 1] == a[..i] + [a[i]] && b[..i + 1] == b[..i] + [b[i]];
    }
    assert a[..|a|] == a && b[..|b|] == b;
    return diff == 0;
  }

  /** The lowercase digit for a value below sixteen: `0` to `9`, then `a` to `f`. */
  function LowerHex(n: byte): (c: byte)
    requires n < 16
    ensures 48 <= c <= 57 || 97 <= c <= 102
  {
    if n < 10 then 48 + n else 87 + n
  }

  const LOWER_DIGITS := "0123456789abcdef"

  lemma LowerHexIs(n: byte)
    requires n < 16
    ensures LowerHex(n) as int == LOWER_DIGITS[n as int] as int
  {
    var d := LOWER_DIGITS;
    assert d[0] == '0' && d[1] == '1' && d[2] == '2' && d[3] == '3' && d[4] == '4' && d[5] == '5' && d[6] == '6';
    assert d[7] == '7' && d[8] == '8' && d[9] == '9' && d[10] == 'a' && d[11] == 'b' && d[12] == 'c' && d[13] == 'd';
    assert d[14] == 'e' && d[15] == 'f';
  }

  /** Of every byte its two digits are written, the upper four bits first. */
  lemma {:induction false} HexReads(bytes: seq<byte>, i: nat)
    requires i < |bytes|
    ensures ToHex(bytes)[2 * i] as int == LOWER_DIGITS[bytes[i] as int / 16] as int
    ensures ToHex(bytes)[2 * i + 1] as int == LOWER_DIGITS[bytes[i] as int % 16] as int
  {
    hide LowerHex;
    if i == 0 {
      LowerHexIs(bytes[0] / 16);
      LowerHexIs(bytes[0] % 16);
    } else {
      HexReads(bytes[1..], i - 1);
      assert ToHex(bytes)[2 * i] == ToHex(bytes[1..])[2 * i - 2];
      assert ToHex(bytes)[2 * i + 1] == ToHex(bytes[1..])[2 * i - 1];
    }
  }

  predicate IsLowerHex(c: byte) { 48 <= c <= 57 || 97 <= c <= 102 }

  function ToHex(bytes: seq<byte>): (r: seq<byte>)
    ensures |r| == 2 * |bytes|
    ensures forall c :: c in r ==> IsLowerHex(c)
  {
    if bytes == [] then [] else
      [LowerHex(bytes[0] / 16), LowerHex(bytes[0] % 16)] + ToHex(bytes[1..])
  }

  lemma HexOfOne(r: seq<byte>, bytes: seq<byte>, i: nat)
    requires i < |bytes|
    ensures r + [LowerHex(bytes[i] / 16)] + [LowerHex(bytes[i] % 16)] + ToHex(bytes[i + 1..])
         == r + ToHex(bytes[i..])
  {
    hide LowerHex;
    assert bytes[i..][1..] == bytes[i + 1..];
  }

  /** `to_hex`, as the loop it is. */
  method WriteHex(bytes: seq<byte>) returns (r: seq<byte>)
    ensures r == ToHex(bytes)
  {
    hide LowerHex, ToHex;
    r := [];
    for i := 0 to |bytes|
      invariant r + ToHex(bytes[i..]) == ToHex(bytes)
    {
      HexOfOne(r, bytes, i);
      r := r + [LowerHex(bytes[i] / 16)] + [LowerHex(bytes[i] % 16)];
    }
  }

  /** Two digests are written alike only when they are alike. */
  lemma {:induction false} ToHexInjective(a: seq<byte>, b: seq<byte>)
    requires ToHex(a) == ToHex(b)
    ensures a == b
  {
    if a != [] && b != [] {
      var x, y := ToHex(a), ToHex(b);
      assert x[0] == y[0] && x[1] == y[1];
      assert a[0] / 16 == b[0] / 16 && a[0] % 16 == b[0] % 16;
      assert a[0] == b[0];
      assert ToHex(a[1..]) == x[2..] && ToHex(b[1..]) == y[2..];
      ToHexInjective(a[1..], b[1..]);
    }
  }
}
