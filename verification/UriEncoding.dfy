/** Percent-encoding, as both signers write it, and the form decoding that reads it back. */
module UriEncoding {
  import opened Bytes

  // The ASCII bytes the signing scheme gives a meaning to.
  const NEWLINE: byte := 10
  const SPACE: byte := 32
  const PERCENT: byte := 37
  const AMPERSAND: byte := 38
  const PLUS: byte := 43
  const COMMA: byte := 44
  const SLASH: byte := 47
  const EQUALS: byte := 61

  /** `A-Z a-z 0-9 - _ . ~`, the unreserved set of RFC 3986. */
  predicate IsUnreserved(c: byte) {
    65 <= c <= 90 || 97 <= c <= 122 || 48 <= c <= 57 || c == 45 || c == 95 || c == 46 || c == 126
  }

  /** The byte at index `n` of `0123456789ABCDEF`. */
  function UpperHex(n: byte): byte
    requires n < 16
  {
    if n < 10 then 48 + n else 55 + n
  }

  /** `hex_value`: the value of a hexadecimal digit of either case, `-1` for anything else. */
  function HexValue(c: byte): (v: int)
    ensures -1 <= v < 16
  {
    if 48 <= c <= 57 then c as int - 48
    else if 97 <= c <= 102 then c as int - 87
    else if 65 <= c <= 70 then c as int - 55
    else -1
  }

  function EncodeByte(c: byte): seq<byte> {
    if IsUnreserved(c) then [c] else [PERCENT, UpperHex(c / 16), UpperHex(c % 16)]
  }

  /** Encodes every byte of `s`, except that slashes stay when `keepSlash`. */
  function EncodeKeeping(s: seq<byte>, keepSlash: bool): seq<byte> {
    if s == [] then []
    else (if keepSlash && s[0] == SLASH then [SLASH] else EncodeByte(s[0])) + EncodeKeeping(s[1..], keepSlash)
  }

  function Encode(s: seq<byte>): seq<byte> { EncodeKeeping(s, false) }

  const UPPER_DIGITS := "0123456789ABCDEF"

  lemma UpperHexIs(n: byte)
    requires n < 16
    ensures UpperHex(n) as int == UPPER_DIGITS[n as int] as int
  {
    var d := UPPER_DIGITS;
    assert d[0] == '0' && d[1] == '1' && d[2] == '2' && d[3] == '3' && d[4] == '4' && d[5] == '5' && d[6] == '6';
    assert d[7] == '7' && d[8] == '8' && d[9] == '9' && d[10] == 'A' && d[11] == 'B' && d[12] == 'C' && d[13] == 'D';
    assert d[14] == 'E' && d[15] == 'F';
  }

  predicate IsPlain(c: char) {
    'A' <= c <= 'Z' || 'a' <= c <= 'z' || '0' <= c <= '9' || c == '-' || c == '_' || c == '.' || c == '~'
  }

  /** Letters, digits and four marks stay; of every other byte `%` and its two digits are written. */
  lemma EncodedByteIs(c: byte)
    ensures IsPlain(c as char) ==> Encode([c]) == [c]
    ensures !IsPlain(c as char) ==>
      && |Encode([c])| == 3 && Encode([c])[0] as char == '%'
      && Encode([c])[1] as int == UPPER_DIGITS[c as int / 16] as int
      && Encode([c])[2] as int == UPPER_DIGITS[c as int % 16] as int
  {
    UpperHexIs(c / 16);
    UpperHexIs(c % 16);
    assert EncodeKeeping([c][1..], false) == [];
  }

  lemma EncodeFirst(s: seq<byte>, i: nat)
    requires i < |s|
    ensures Encode(s[i..]) == EncodeByte(s[i]) + Encode(s[i + 1..])
  {
    hide EncodeByte;
    assert s[i..][1..] == s[i + 1..];
  }

  /** `uriEncode` and `uri_encode`: one pass over the bytes in both languages. */
  method UriEncode(s: seq<byte>) returns (out: seq<byte>)
    ensures out == Encode(s)
  {
    hide Encode;
    out := [];
    assert s[0..] == s;
    for i := 0 to |s|
      invariant out + Encode(s[i..]) == Encode(s)
    {
      var c := s[i];
      EncodeFirst(s, i);
      ghost var before, rest := out, Encode(s[i + 1..]);
      if IsUnreserved(c) {
        out := out + [c];
      } else {
        var hi, lo := UpperHex(c / 16), UpperHex(c % 16);
        out := out + [PERCENT];
        out := out + [hi];
        out := out + [lo];
      }
      assert out == before + EncodeByte(c);
      Regroup(before, EncodeByte(c), rest);
    }
    EncodeNothing(s);
  }

  lemma Regroup(a: seq<byte>, b: seq<byte>, c: seq<byte>)
    ensures a + (b + c) == a + b + c
  {}

  lemma EncodeNothing(s: seq<byte>)
    ensures Encode(s[|s|..]) == []
  {}

  /** What an encoded string is made of. */
  predicate IsEncoded(c: byte) { IsUnreserved(c) || c == PERCENT }

  lemma {:induction false} EncodedBytes(s: seq<byte>, keepSlash: bool)
    ensures forall c :: c in EncodeKeeping(s, keepSlash) ==> IsEncoded(c) || (keepSlash && c == SLASH)
  {
    if s != [] {
      EncodedBytes(s[1..], keepSlash);
    }
  }

  /** The `decode` of `parse_query`, which also reads `+` as a space and leaves a `%` alone that two
      hexadecimal digits do not follow. */
  function Decode(s: seq<byte>): seq<byte>
    decreases |s|
  {
    if s == [] then []
    else if s[0] == PLUS then [SPACE] + Decode(s[1..])
    else if s[0] == PERCENT && |s| > 2 && HexValue(s[1]) >= 0 && HexValue(s[2]) >= 0 then
      [(16 * HexValue(s[1]) + HexValue(s[2])) as byte] + Decode(s[3..])
    else [s[0]] + Decode(s[1..])
  }

  /** How many bytes of `s` the decoder reads at `i`, and the byte it writes for them. */
  function DecodeAt(s: seq<byte>, i: nat): (r: (nat, byte))
    requires i < |s|
    ensures 1 <= r.0 <= |s| - i
  {
    if s[i] == PLUS then (1, SPACE)
    else if s[i] == PERCENT && i + 2 < |s| && HexValue(s[i + 1]) >= 0 && HexValue(s[i + 2]) >= 0 then
      (3, (16 * HexValue(s[i + 1]) + HexValue(s[i + 2])) as byte)
    else (1, s[i])
  }

  lemma DecodeFirst(s: seq<byte>, i: nat)
    requires i < |s|
    ensures Decode(s[i..]) == [DecodeAt(s, i).1] + Decode(s[i + DecodeAt(s, i).0..])
  {
    hide HexValue;
    assert s[i..][1..] == s[i + 1..];
    if i + 2 < |s| {
      assert s[i..][3..] == s[i + 3..];
    }
  }

  /** The same, scanning by index and stepping over the two digits. */
  method FormDecode(s: seq<byte>) returns (out: seq<byte>)
    ensures out == Decode(s)
  {
    hide Decode, HexValue;
    out := [];
    var i := 0;
    assert s[i..] == s;
    while i < |s|
      invariant i <= |s|
      invariant out + Decode(s[i..]) == Decode(s)
    {
      DecodeFirst(s, i);
      ghost var start, before := i, out;
      if s[i] == PLUS {
        out := out + [SPACE];
      } else if s[i] == PERCENT && i + 2 < |s| {
        var hi, lo := HexValue(s[i + 1]), HexValue(s[i + 2]);
        if hi >= 0 && lo >= 0 {
          out := out + [(16 * hi + lo) as byte];
          i := i + 2;
        } else {
          out := out + [s[i]];
        }
      } else {
        out := out + [s[i]];
      }
      i := i + 1;
      assert (i - start, out) == (DecodeAt(s, start).0, before + [DecodeAt(s, start).1]);
    }
    DecodeNothing(s, i);
  }

  lemma DecodeNothing(s: seq<byte>, i: nat)
    requires i == |s|
    ensures Decode(s[i..]) == []
  {}

  /** A hexadecimal digit of either case. */
  predicate IsDigitOf(c: byte, v: nat) {
    || ('0' as int <= c as int <= '9' as int && v == c as int - '0' as int)
    || ('a' as int <= c as int <= 'f' as int && v == 10 + c as int - 'a' as int)
    || ('A' as int <= c as int <= 'F' as int && v == 10 + c as int - 'A' as int)
  }

  lemma HexValueIs(c: byte)
    ensures HexValue(c) >= 0 ==> IsDigitOf(c, HexValue(c))
    ensures forall v: nat | IsDigitOf(c, v) :: HexValue(c) == v
  {}

  /** What the decoder reads: a plus sign as a space and any other byte but `%` as itself, … */
  lemma DecodeReads(c: byte, rest: seq<byte>)
    requires c as char != '%'
    ensures Decode([c] + rest) == [if c as char == '+' then ' ' as int as byte else c] + Decode(rest)
  {
    assert ([c] + rest)[1..] == rest;
  }

  /** … a `%` with two digits as the byte they name, … */
  lemma DecodeReadsEscape(c: byte, d: byte, e: byte, hi: nat, lo: nat, rest: seq<byte>)
    requires c as char == '%' && IsDigitOf(d, hi) && IsDigitOf(e, lo)
    ensures 16 * hi + lo < 256 && Decode([c, d, e] + rest) == [(16 * hi + lo) as byte] + Decode(rest)
  {
    hide HexValue;
    assert ([c, d, e] + rest)[3..] == rest;
    HexValueIs(d);
    HexValueIs(e);
  }

  /** … and a `%` that two digits do not follow as itself. */
  lemma DecodeKeepsPercent(c: byte, rest: seq<byte>)
    requires c as char == '%'
    requires |rest| < 2 || (forall v: nat :: !IsDigitOf(rest[0], v)) || (forall v: nat :: !IsDigitOf(rest[1], v))
    ensures Decode([c] + rest) == [c] + Decode(rest)
  {
    hide HexValue;
    assert ([c] + rest)[1..] == rest;
    if |rest| >= 2 {
      HexValueIs(rest[0]);
      HexValueIs(rest[1]);
    }
  }

  lemma HexValueOfUpperHex(n: byte)
    requires n < 16
    ensures HexValue(UpperHex(n)) == n as int
  {}

  /** Decoding undoes encoding, for every byte string. */
  lemma {:induction false} DecodeEncode(s: seq<byte>, keepSlash: bool)
    ensures Decode(EncodeKeeping(s, keepSlash)) == s
  {
    if s != [] {
      DecodeEncode(s[1..], keepSlash);
      var c, rest := s[0], EncodeKeeping(s[1..], keepSlash);
      var e := EncodeKeeping(s, keepSlash);
      if (keepSlash && c == SLASH) || IsUnreserved(c) {
        assert e[1..] == rest;
      } else {
        HexValueOfUpperHex(c / 16);
        HexValueOfUpperHex(c % 16);
        assert e[3..] == rest;
        assert 16 * (c / 16) as int + (c % 16) as int == c as int;
      }
    }
  }

  lemma EncodeInjective(a: seq<byte>, b: seq<byte>, keepSlash: bool)
    requires EncodeKeeping(a, keepSlash) == EncodeKeeping(b, keepSlash)
    ensures a == b
  {
    DecodeEncode(a, keepSlash);
    DecodeEncode(b, keepSlash);
  }

  lemma {:induction false} EncodeKeepingAppend(a: seq<byte>, b: seq<byte>, keepSlash: bool)
    ensures EncodeKeeping(a + b, keepSlash) == EncodeKeeping(a, keepSlash) + EncodeKeeping(b, keepSlash)
  {
    if a == [] {
      assert a + b == b;
    } else {
      assert (a + b)[1..] == a[1..] + b;
      EncodeKeepingAppend(a[1..], b, keepSlash);
    }
  }

  lemma {:induction false} NoSlashToKeep(s: seq<byte>)
    requires SLASH !in s
    ensures EncodeKeeping(s, true) == Encode(s)
  {
    if s != [] {
      NoSlashToKeep(s[1..]);
    }
  }
}
