/** SHA-256 as FIPS 180-4 states it: sections 3.1, 3.2, 4.1.2, 4.2.2, 5.1.1, 5.2.1, 5.3.3 and
    6.2.2, restricted to messages that are whole bytes. */
module Sha256Spec {
  import opened Bytes

  // ---- Sections 3.2 and 4.1.2: the operations on words ----

  const TWO_TO_32 := 0x1_0000_0000

  newtype word = x: int | 0 <= x < TWO_TO_32

  /** Addition modulo 2^32. */
  function Add(x: word, y: word): word { ((x as int + y as int) % TWO_TO_32) as word }

  function Xor(x: word, y: word): word { ((x as bv32) ^ (y as bv32)) as word }

  function And(x: word, y: word): word { ((x as bv32) & (y as bv32)) as word }

  function Not(x: word): word { (!(x as bv32)) as word }

  function ShR(x: word, n: nat): word
    requires n < 32
  {
    ((x as bv32) >> n) as word
  }

  function RotateBits(x: bv32, n: nat): bv32
    requires 0 < n < 32
  {
    (x >> n) | (x << (32 - n))
  }

  function RotR(x: word, n: nat): word
    requires 0 < n < 32
  {
    RotateBits(x as bv32, n) as word
  }

  function Ch(x: word, y: word, z: word): word { Xor(And(x, y), And(Not(x), z)) }

  function Maj(x: word, y: word, z: word): word { Xor(Xor(And(x, y), And(x, z)), And(y, z)) }

  function BigSigma0(x: word): word { Xor(Xor(RotR(x, 2), RotR(x, 13)), RotR(x, 22)) }

  function BigSigma1(x: word): word { Xor(Xor(RotR(x, 6), RotR(x, 11)), RotR(x, 25)) }

  function SmallSigma0(x: word): word { Xor(Xor(RotR(x, 7), RotR(x, 18)), ShR(x, 3)) }

  function SmallSigma1(x: word): word { Xor(Xor(RotR(x, 17), RotR(x, 19)), ShR(x, 10)) }

  // ---- Section 4.2.2: the sixty-four constants ----

  const K: seq<word> :=
    [0x428a2f98, 0x71374491, 0xb5c0fbcf, 0xe9b5dba5, 0x3956c25b, 0x59f111f1, 0x923f82a4, 0xab1c5ed5,
     0xd807aa98, 0x12835b01, 0x243185be, 0x550c7dc3, 0x72be5d74, 0x80deb1fe, 0x9bdc06a7, 0xc19bf174]
    + [0xe49b69c1, 0xefbe4786, 0x0fc19dc6, 0x240ca1cc, 0x2de92c6f, 0x4a7484aa, 0x5cb0a9dc, 0x76f988da,
     0x983e5152, 0xa831c66d, 0xb00327c8, 0xbf597fc7, 0xc6e00bf3, 0xd5a79147, 0x06ca6351, 0x14292967]
    + [0x27b70a85, 0x2e1b2138, 0x4d2c6dfc, 0x53380d13, 0x650a7354, 0x766a0abb, 0x81c2c92e, 0x92722c85,
     0xa2bfe8a1, 0xa81a664b, 0xc24b8b70, 0xc76c51a3, 0xd192e819, 0xd6990624, 0xf40e3585, 0x106aa070]
    + [0x19a4c116, 0x1e376c08, 0x2748774c, 0x34b0bcb5, 0x391c0cb3, 0x4ed8aa4a, 0x5b9cca4f, 0x682e6ff3,
     0x748f82ee, 0x78a5636f, 0x84c87814, 0x8cc70208, 0x90befffa, 0xa4506ceb, 0xbef9a3f7, 0xc67178f2]

  function RoundConstant(t: nat): word { if t < |K| then K[t] else 0 }

  // ---- Section 3.1: words and bytes, most significant byte first ----

  function WordOf(b0: byte, b1: byte, b2: byte, b3: byte): word {
    (0x1000000 * (b0 as int) + 0x10000 * (b1 as int) + 0x100 * (b2 as int) + b3 as int) as word
  }

  function WordBytes(w: word): (byte, byte, byte, byte) {
    ((w / 0x1000000) as byte, (w / 0x10000 % 256) as byte, (w / 0x100 % 256) as byte, (w % 256) as byte)
  }

  /** The eight working variables, and the eight words of an intermediate hash value. */
  datatype Vars = Vars(a: word, b: word, c: word, d: word, e: word, f: word, g: word, h: word)

  /** Section 5.3.3: the initial hash value. */
  const H0: Vars := Vars(0x6a09e667, 0xbb67ae85, 0x3c6ef372, 0xa54ff53a,
                               0x510e527f, 0x9b05688c, 0x1f83d9ab, 0x5be0cd19)

  // ---- Section 5.1.1: padding ----

  /** How many zero bytes follow the 0x80 byte. */
  function ZeroBytes(length: nat): (z: nat)
    ensures z < 64 && (length + 1 + z) % 64 == 56
  {
    (119 - length % 64) % 64
  }

  /** `n` as `width` bytes, most significant first. */
  function BigEndian(n: nat, width: nat): (r: seq<byte>)
    ensures |r| == width
  {
    if width == 0 then [] else BigEndian(n / 256, width - 1) + [(n % 256) as byte]
  }

  /** The padded message: the bit 1 and seven zero bits, zero bytes, and the length in bits. */
  function Pad(message: seq<byte>): (r: seq<byte>)
    ensures |r| % 64 == 0
  {
    hide BigEndian, ZeroBytes;
    PadLength(|message|);
    message + [0x80] + Repeat(0, ZeroBytes(|message|)) + BigEndian(8 * |message|, 8)
  }

  lemma PadLength(length: nat)
    ensures (length + 1 + ZeroBytes(length) + 8) % 64 == 0
  {}

  // ---- Sections 5.2.1 and 6.2.2: blocks, the message schedule and the compression ----

  /** Step 1: word `t` of the message schedule of one 64-byte block. */
  function Schedule(block: seq<byte>, t: nat): word
    requires |block| == 64 && t < 64
  {
    if t < 16 then
      WordOf(block[4 * t], block[4 * t + 1], block[4 * t + 2], block[4 * t + 3])
    else
      Add(Add(Add(SmallSigma1(Schedule(block, t - 2)), Schedule(block, t - 7)),
                    SmallSigma0(Schedule(block, t - 15))),
             Schedule(block, t - 16))
  }

  /** Step 3, one round. */
  function Round(v: Vars, k: word, w: word): Vars {
    var t1 := Add(Add(Add(Add(v.h, BigSigma1(v.e)), Ch(v.e, v.f, v.g)), k), w);
    var t2 := Add(BigSigma0(v.a), Maj(v.a, v.b, v.c));
    Vars(Add(t1, t2), v.a, v.b, v.c, Add(v.d, t1), v.e, v.f, v.g)
  }

  /** Step 3: the working variables after the first `t` rounds on a block. */
  function Rounds(start: Vars, block: seq<byte>, t: nat): Vars
    requires |block| == 64 && t <= 64
  {
    if t == 0 then start
    else Round(Rounds(start, block, t - 1), RoundConstant(t - 1), Schedule(block, t - 1))
  }

  /** Step 4. */
  function AddVars(x: Vars, y: Vars): Vars {
    Vars(Add(x.a, y.a), Add(x.b, y.b), Add(x.c, y.c), Add(x.d, y.d),
         Add(x.e, y.e), Add(x.f, y.f), Add(x.g, y.g), Add(x.h, y.h))
  }

  function Compress(hash: Vars, block: seq<byte>): Vars
    requires |block| == 64
  {
    AddVars(Rounds(hash, block, 64), hash)
  }

  /** The intermediate hash value after every block of `data`. */
  function HashBlocks(data: seq<byte>): Vars
    requires |data| % 64 == 0
  {
    if |data| == 0 then H0
    else Compress(HashBlocks(data[..|data| - 64]), data[|data| - 64..])
  }

  function BytesOf(w: word): (r: seq<byte>)
    ensures |r| == 4
  {
    var q := WordBytes(w);
    [q.0, q.1, q.2, q.3]
  }

  function DigestOf(v: Vars): (r: seq<byte>)
    ensures |r| == 32
  {
    BytesOf(v.a) + BytesOf(v.b) + BytesOf(v.c) + BytesOf(v.d)
    + BytesOf(v.e) + BytesOf(v.f) + BytesOf(v.g) + BytesOf(v.h)
  }

  function Sha256(message: seq<byte>): (r: seq<byte>)
    ensures |r| == 32
  {
    DigestOf(HashBlocks(Pad(message)))
  }

  // ---- The padding is the one section 5.1.1 describes ----

  function FromBigEndian(s: seq<byte>): nat {
    if |s| == 0 then 0 else 256 * FromBigEndian(s[..|s| - 1]) + s[|s| - 1] as nat
  }

  function Pow256(n: nat): nat {
    if n == 0 then 1 else 256 * Pow256(n - 1)
  }

  lemma {:induction false} BigEndianValue(n: nat, width: nat)
    requires n < Pow256(width)
    ensures FromBigEndian(BigEndian(n, width)) == n
  {
    if width > 0 {
      var r := BigEndian(n, width);
      assert r[..|r| - 1] == BigEndian(n / 256, width - 1);
      BigEndianValue(n / 256, width - 1);
    }
  }

  /** The congruence of section 5.1.1, on a length of `l` bits and `k` zero bits. */
  ghost predicate FillsBlock(l: nat, k: nat) {
    (l + 1 + k) % 512 == 448
  }

  lemma ZeroBitsAreMinimal(bytes: nat, k: nat)
    ensures FillsBlock(8 * bytes, 7 + 8 * ZeroBytes(bytes))
    ensures FillsBlock(8 * bytes, k) ==> 7 + 8 * ZeroBytes(bytes) <= k
  {
    var z := ZeroBytes(bytes);
    var q := (bytes + 1 + z) / 64;
    assert bytes + 1 + z == 64 * q + 56;
    assert 8 * bytes + 1 + (7 + 8 * z) == 512 * q + 448;
  }

  /** In bits: the zero bits that follow the 1 bit are the smallest solution of the congruence, and
      the last 64 bits of the padded message are its length. */
  lemma PaddingIsMinimal(message: seq<byte>, k: nat)
    requires 8 * |message| < Pow256(8)
    ensures FillsBlock(8 * |message|, 7 + 8 * ZeroBytes(|message|))
    ensures FillsBlock(8 * |message|, k) ==> 7 + 8 * ZeroBytes(|message|) <= k
    ensures |Pad(message)| >= 8
    ensures FromBigEndian(Pad(message)[|Pad(message)| - 8..]) == 8 * |message|
  {
    ZeroBitsAreMinimal(|message|, k);
    assert Pad(message)[|Pad(message)| - 8..] == BigEndian(8 * |message|, 8);
    BigEndianValue(8 * |message|, 8);
  }

  // ---- The constants are what sections 4.2.2 and 5.3.3 say they are ----

  /** The first sixty-four prime numbers. */
  const PRIMES: seq<nat> :=
    [2, 3, 5, 7, 11, 13, 17, 19, 23, 29, 31, 37, 41, 43, 47, 53]
    + [59, 61, 67, 71, 73, 79, 83, 89, 97, 101, 103, 107, 109, 113, 127, 131]
    + [137, 139, 149, 151, 157, 163, 167, 173, 179, 181, 191, 193, 197, 199, 211, 223]
    + [227, 229, 233, 239, 241, 251, 257, 263, 269, 271, 277, 281, 283, 293, 307, 311]

  /** `k` is the first 32 bits of the fraction of the cube root of `p`, whose integer part is `n`. */
  predicate IsCubeRoot(p: nat, n: nat, k: word) {
    var x := n * TWO_TO_32 + k as int;
    x * x * x <= p * TWO_TO_32 * TWO_TO_32 * TWO_TO_32 < (x + 1) * (x + 1) * (x + 1)
  }

  /** The same for the square root. */
  predicate IsSquareRoot(p: nat, n: nat, k: word) {
    var x := n * TWO_TO_32 + k as int;
    x * x <= p * TWO_TO_32 * TWO_TO_32 < (x + 1) * (x + 1)
  }

  lemma IsRoot(p: nat, n: nat, k: word)
    requires (n * TWO_TO_32 + k as int) * (n * TWO_TO_32 + k as int) * (n * TWO_TO_32 + k as int)
      <= p * TWO_TO_32 * TWO_TO_32 * TWO_TO_32
    requires p * TWO_TO_32 * TWO_TO_32 * TWO_TO_32
      < (n * TWO_TO_32 + k as int + 1) * (n * TWO_TO_32 + k as int + 1) * (n * TWO_TO_32 + k as int + 1)
    ensures IsCubeRoot(p, n, k)
  {}

  lemma CubeRoots0(t: nat) returns (n: nat)
    requires 0 <= t < 16
    ensures IsCubeRoot(PRIMES[t], n, RoundConstant(t))
  {
    hide IsCubeRoot;
    n := 1;
    match t {
      case 0 => IsRoot(2, 1, 0x428a2f98);
      case 1 => IsRoot(3, 1, 0x71374491);
      case 2 => IsRoot(5, 1, 0xb5c0fbcf);
      case 3 => IsRoot(7, 1, 0xe9b5dba5);
      case 4 => n := 2; IsRoot(11, 2, 0x3956c25b);
      case 5 => n := 2; IsRoot(13, 2, 0x59f111f1);
      case 6 => n := 2; IsRoot(17, 2, 0x923f82a4);
      case 7 => n := 2; IsRoot(19, 2, 0xab1c5ed5);
      case 8 => n := 2; IsRoot(23, 2, 0xd807aa98);
      case 9 => n := 3; IsRoot(29, 3, 0x12835b01);
      case 10 => n := 3; IsRoot(31, 3, 0x243185be);
      case 11 => n := 3; IsRoot(37, 3, 0x550c7dc3);
      case 12 => n := 3; IsRoot(41, 3, 0x72be5d74);
      case 13 => n := 3; IsRoot(43, 3, 0x80deb1fe);
      case 14 => n := 3; IsRoot(47, 3, 0x9bdc06a7);
      case 15 => n := 3; IsRoot(53, 3, 0xc19bf174);
    }
  }

  lemma CubeRoots16(t: nat) returns (n: nat)
    requires 16 <= t < 32
    ensures IsCubeRoot(PRIMES[t], n, RoundConstant(t))
  {
    hide IsCubeRoot;
    n := 3;
    match t {
      case 16 => IsRoot(59, 3, 0xe49b69c1);
      case 17 => IsRoot(61, 3, 0xefbe4786);
      case 18 => n := 4; IsRoot(67, 4, 0x0fc19dc6);
      case 19 => n := 4; IsRoot(71, 4, 0x240ca1cc);
      case 20 => n := 4; IsRoot(73, 4, 0x2de92c6f);
      case 21 => n := 4; IsRoot(79, 4, 0x4a7484aa);
      case 22 => n := 4; IsRoot(83, 4, 0x5cb0a9dc);
      case 23 => n := 4; IsRoot(89, 4, 0x76f988da);
      case 24 => n := 4; IsRoot(97, 4, 0x983e5152);
      case 25 => n := 4; IsRoot(101, 4, 0xa831c66d);
      case 26 => n := 4; IsRoot(103, 4, 0xb00327c8);
      case 27 => n := 4; IsRoot(107, 4, 0xbf597fc7);
      case 28 => n := 4; IsRoot(109, 4, 0xc6e00bf3);
      case 29 => n := 4; IsRoot(113, 4, 0xd5a79147);
      case 30 => n := 5; IsRoot(127, 5, 0x06ca6351);
      case 31 => n := 5; IsRoot(131, 5, 0x14292967);
    }
  }

  lemma CubeRoots32(t: nat) returns (n: nat)
    requires 32 <= t < 48
    ensures IsCubeRoot(PRIMES[t], n, RoundConstant(t))
  {
    hide IsCubeRoot;
    n := 5;
    match t {
      case 32 => IsRoot(137, 5, 0x27b70a85);
      case 33 => IsRoot(139, 5, 0x2e1b2138);
      case 34 => IsRoot(149, 5, 0x4d2c6dfc);
      case 35 => IsRoot(151, 5, 0x53380d13);
      case 36 => IsRoot(157, 5, 0x650a7354);
      case 37 => IsRoot(163, 5, 0x766a0abb);
      case 38 => IsRoot(167, 5, 0x81c2c92e);
      case 39 => IsRoot(173, 5, 0x92722c85);
      case 40 => IsRoot(179, 5, 0xa2bfe8a1);
      case 41 => IsRoot(181, 5, 0xa81a664b);
      case 42 => IsRoot(191, 5, 0xc24b8b70);
      case 43 => IsRoot(193, 5, 0xc76c51a3);
      case 44 => IsRoot(197, 5, 0xd192e819);
      case 45 => IsRoot(199, 5, 0xd6990624);
      case 46 => IsRoot(211, 5, 0xf40e3585);
      case 47 => n := 6; IsRoot(223, 6, 0x106aa070);
    }
  }

  lemma CubeRoots48(t: nat) returns (n: nat)
    requires 48 <= t < 64
    ensures IsCubeRoot(PRIMES[t], n, RoundConstant(t))
  {
    hide IsCubeRoot;
    n := 6;
    match t {
      case 48 => IsRoot(227, 6, 0x19a4c116);
      case 49 => IsRoot(229, 6, 0x1e376c08);
      case 50 => IsRoot(233, 6, 0x2748774c);
      case 51 => IsRoot(239, 6, 0x34b0bcb5);
      case 52 => IsRoot(241, 6, 0x391c0cb3);
      case 53 => IsRoot(251, 6, 0x4ed8aa4a);
      case 54 => IsRoot(257, 6, 0x5b9cca4f);
      case 55 => IsRoot(263, 6, 0x682e6ff3);
      case 56 => IsRoot(269, 6, 0x748f82ee);
      case 57 => IsRoot(271, 6, 0x78a5636f);
      case 58 => IsRoot(277, 6, 0x84c87814);
      case 59 => IsRoot(281, 6, 0x8cc70208);
      case 60 => IsRoot(283, 6, 0x90befffa);
      case 61 => IsRoot(293, 6, 0xa4506ceb);
      case 62 => IsRoot(307, 6, 0xbef9a3f7);
      case 63 => IsRoot(311, 6, 0xc67178f2);
    }
  }

  lemma RoundConstantsAreCubeRoots(t: nat) returns (n: nat)
    requires t < 64
    ensures IsCubeRoot(PRIMES[t], n, RoundConstant(t))
  {
    hide IsCubeRoot;
    if t < 16 {
      n := CubeRoots0(t);
    } else if t < 32 {
      n := CubeRoots16(t);
    } else if t < 48 {
      n := CubeRoots32(t);
    } else {
      n := CubeRoots48(t);
    }
  }

  lemma IsRoot2(p: nat, n: nat, k: word)
    requires (n * TWO_TO_32 + k as int) * (n * TWO_TO_32 + k as int) <= p * TWO_TO_32 * TWO_TO_32
    requires p * TWO_TO_32 * TWO_TO_32 < (n * TWO_TO_32 + k as int + 1) * (n * TWO_TO_32 + k as int + 1)
    ensures IsSquareRoot(p, n, k)
  {}

  lemma InitialHashIsSquareRoots()
    ensures IsSquareRoot(PRIMES[0], 1, H0.a)
    ensures IsSquareRoot(PRIMES[1], 1, H0.b)
    ensures IsSquareRoot(PRIMES[2], 2, H0.c)
    ensures IsSquareRoot(PRIMES[3], 2, H0.d)
    ensures IsSquareRoot(PRIMES[4], 3, H0.e)
    ensures IsSquareRoot(PRIMES[5], 3, H0.f)
    ensures IsSquareRoot(PRIMES[6], 4, H0.g)
    ensures IsSquareRoot(PRIMES[7], 4, H0.h)
  {
    hide IsSquareRoot;
    IsRoot2(2, 1, 0x6a09e667);
    IsRoot2(3, 1, 0xbb67ae85);
    IsRoot2(5, 2, 0x3c6ef372);
    IsRoot2(7, 2, 0xa54ff53a);
    IsRoot2(11, 3, 0x510e527f);
    IsRoot2(13, 3, 0x9b05688c);
    IsRoot2(17, 4, 0x1f83d9ab);
    IsRoot2(19, 4, 0x5be0cd19);
  }

  // ---- Bytes and words, most significant byte first ----

  lemma WordsAreBigEndian(b0: byte, b1: byte, b2: byte, b3: byte, w: word)
    ensures WordOf(b0, b1, b2, b3) as int == FromBigEndian([b0, b1, b2, b3])
    ensures FromBigEndian(BytesOf(w)) == w as int
  {
    hide FromBigEndian, WordBytes;
    FromFour(b0, b1, b2, b3);
    var (c0, c1, c2, c3) := WordBytes(w);
    FromFour(c0, c1, c2, c3);
    BytesAddUp(w);
  }

  lemma BytesAddUp(w: word)
    ensures var (b0, b1, b2, b3) := WordBytes(w);
      0x1000000 * (b0 as int) + 0x10000 * (b1 as int) + 0x100 * (b2 as int) + b3 as int == w as int
  {
    var n := w as int;
    assert n == 0x100 * (n / 0x100) + n % 0x100;
    assert n / 0x100 == 0x100 * (n / 0x10000) + n / 0x100 % 0x100;
    assert n / 0x10000 == 0x100 * (n / 0x1000000) + n / 0x10000 % 0x100;
  }

  lemma FromFour(b0: byte, b1: byte, b2: byte, b3: byte)
    ensures FromBigEndian([b0, b1, b2, b3])
         == 0x1000000 * (b0 as int) + 0x10000 * (b1 as int) + 0x100 * (b2 as int) + b3 as int
  {
    assert [b0, b1, b2, b3][..3] == [b0, b1, b2] && [b0, b1, b2][..2] == [b0, b1] && [b0, b1][..1] == [b0];
    assert [b0][..0] == [];
    assert FromBigEndian([b0]) == b0 as int;
    assert FromBigEndian([b0, b1]) == 256 * (b0 as int) + b1 as int;
    assert FromBigEndian([b0, b1, b2]) == 256 * (256 * (b0 as int) + b1 as int) + b2 as int;
  }

  /** The padded message: the message, 0x80, and zero bytes up to the length. */
  lemma PadReads(message: seq<byte>, i: nat)
    requires i < |Pad(message)| - 8
    ensures Pad(message)[i] == if i < |message| then message[i] else if i == |message| then 0x80 else 0
    ensures |message| + 9 <= |Pad(message)| <= |message| + 72
  {
    hide BigEndian;
  }

  // ---- A round and the schedule, as sums modulo 2^32 ----

  lemma AddFive(a: word, b: word, c: word, d: word, e: word)
    ensures Add(Add(Add(Add(a, b), c), d), e) as int
         == (a as int + b as int + c as int + d as int + e as int) % TWO_TO_32
  {
    AddThree(a, b, c);
    AddThree(Add(Add(a, b), c), d, e);
    SumModulo(a as int + b as int + c as int, d as int + e as int);
  }

  lemma AddThree(a: word, b: word, c: word)
    ensures Add(Add(a, b), c) as int == (a as int + b as int + c as int) % TWO_TO_32
  {
    SumModulo(a as int + b as int, c as int);
  }

  lemma SumModulo(a: int, b: int)
    ensures (a % TWO_TO_32 + b) % TWO_TO_32 == (a + b) % TWO_TO_32
  {}

  lemma RoundIs(v: Vars, k: word, w: word)
    ensures var next := Round(v, k, w);
      var t1 := v.h as int + BigSigma1(v.e) as int + Ch(v.e, v.f, v.g) as int + k as int + w as int;
      && next.a as int == (t1 + BigSigma0(v.a) as int + Maj(v.a, v.b, v.c) as int) % TWO_TO_32
      && next.e as int == (v.d as int + t1) % TWO_TO_32
      && next.b == v.a && next.c == v.b && next.d == v.c && next.f == v.e && next.g == v.f && next.h == v.g
  {
    hide BigSigma0, BigSigma1, Ch, Maj;
    var s1, ch, s0, maj := BigSigma1(v.e), Ch(v.e, v.f, v.g), BigSigma0(v.a), Maj(v.a, v.b, v.c);
    var t1 := v.h as int + s1 as int + ch as int + k as int + w as int;
    AddFive(v.h, s1, ch, k, w);
    SumModulo(t1, v.d as int);
    SumModulo(t1, (s0 as int + maj as int) % TWO_TO_32);
    SumModulo(s0 as int + maj as int, t1);
  }

  lemma ScheduleIs(block: seq<byte>, t: nat)
    requires |block| == 64 && t < 64
    ensures t < 16 ==> Schedule(block, t) as int == FromBigEndian(block[4 * t..4 * t + 4])
    ensures t >= 16 ==>
      Schedule(block, t) as int
        == (SmallSigma1(Schedule(block, t - 2)) as int + Schedule(block, t - 7) as int
            + SmallSigma0(Schedule(block, t - 15)) as int + Schedule(block, t - 16) as int) % TWO_TO_32
  {
    hide SmallSigma0, SmallSigma1, FromBigEndian;
    if t < 16 {
      WordsAreBigEndian(block[4 * t], block[4 * t + 1], block[4 * t + 2], block[4 * t + 3], 0);
      assert block[4 * t..4 * t + 4] == [block[4 * t], block[4 * t + 1], block[4 * t + 2], block[4 * t + 3]];
    } else {
      AddThree(SmallSigma1(Schedule(block, t - 2)), Schedule(block, t - 7), SmallSigma0(Schedule(block, t - 15)));
      SumModulo(SmallSigma1(Schedule(block, t - 2)) as int + Schedule(block, t - 7) as int
                + SmallSigma0(Schedule(block, t - 15)) as int, Schedule(block, t - 16) as int);
    }
  }

  /** A block adds to each word of the hash, modulo 2^32, what the 64 rounds made of it. */
  lemma CompressIs(hash: Vars, block: seq<byte>)
    requires |block| == 64
    ensures var after, next := Rounds(hash, block, 64), Compress(hash, block);
      && next.a as int == (hash.a as int + after.a as int) % TWO_TO_32
      && next.b as int == (hash.b as int + after.b as int) % TWO_TO_32
      && next.c as int == (hash.c as int + after.c as int) % TWO_TO_32
      && next.d as int == (hash.d as int + after.d as int) % TWO_TO_32
      && next.e as int == (hash.e as int + after.e as int) % TWO_TO_32
      && next.f as int == (hash.f as int + after.f as int) % TWO_TO_32
      && next.g as int == (hash.g as int + after.g as int) % TWO_TO_32
      && next.h as int == (hash.h as int + after.h as int) % TWO_TO_32
  {
    hide Rounds;
  }
}
