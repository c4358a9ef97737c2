/** The streaming SHA-256 of the C++ client: a 64-byte buffer that is compressed whenever it fills. */
module StreamingSha256 {
  import opened Bytes
  import opened Sha256Spec

  const BLOCK_BYTES := 64

  /** `n >> (8 * i)`: `i` times eight bits to the right. */
  function ShiftBytes(n: nat, i: nat): nat {
    if i == 0 then n else ShiftBytes(n / 256, i - 1)
  }

  /** The byte `finish` writes `i` places before the end of the length field is the big-endian one. */
  lemma {:induction false} BigEndianAt(n: nat, width: nat, i: nat)
    requires i < width
    ensures BigEndian(n, width)[width - 1 - i] as nat == ShiftBytes(n, i) % 256
  {
    if i > 0 {
      BigEndianAt(n / 256, width - 1, i - 1);
    }
  }

  /** Appending one block hashes one block more. */
  lemma HashOneMore(data: seq<byte>, block: seq<byte>)
    requires |data| % BLOCK_BYTES == 0 && |block| == BLOCK_BYTES
    ensures |data + block| % BLOCK_BYTES == 0
    ensures HashBlocks(data + block) == Compress(HashBlocks(data), block)
  {
    hide Compress;
    assert (data + block)[..|data|] == data;
    assert (data + block)[|data|..] == block;
  }

  lemma ZeroBytesUnique(length: nat, zeros: nat)
    requires zeros < BLOCK_BYTES && (length + 1 + zeros + 8) % BLOCK_BYTES == 0
    ensures zeros == ZeroBytes(length)
  {
    var used := length % 64;
    assert length == 64 * (length / 64) + used;
    assert (used + 9 + zeros) % 64 == 0;
    assert used + 9 + zeros == 64 || used + 9 + zeros == 128;
  }

  /** However the zero bytes were written, a message followed by 0x80, fewer than 64 of them and the
      length is the padded message once it fills its last block. */
  lemma PadIs(message: seq<byte>, zeros: nat, length: seq<byte>)
    requires zeros < BLOCK_BYTES && (|message| + 1 + zeros + 8) % BLOCK_BYTES == 0
    requires length == BigEndian(8 * |message|, 8)
    ensures message + [0x80] + Repeat(0, zeros) + length == Pad(message)
  {
    hide BigEndian, ZeroBytes;
    ZeroBytesUnique(|message|, zeros);
  }

  /** What a `uint64_t` holds of `n`. */
  function Wrap64(n: nat): nat { n % 0x1_0000_0000_0000_0000 }

  /** The bit count of `fed` bytes, as the 64-bit counter has it. */
  function BitCount(fed: nat): nat { Wrap64(8 * fed) }

  lemma WrapAdds(n: nat, m: nat)
    ensures Wrap64(Wrap64(n) + m) == Wrap64(n + m)
  {
    var modulus := 0x1_0000_0000_0000_0000;
    assert n == modulus * (n / modulus) + n % modulus;
  }

  lemma BitCountAdds(fed: nat, more: nat)
    ensures Wrap64(BitCount(fed) + 8 * more) == BitCount(fed + more)
  {
    WrapAdds(8 * fed, 8 * more);
  }

  lemma AddModulo(x: int, y: int)
    ensures (x % TWO_TO_32 + y) % TWO_TO_32 == (x + y) % TWO_TO_32
  {
    assert x == TWO_TO_32 * (x / TWO_TO_32) + x % TWO_TO_32;
  }

  lemma SumOfFour(a: word, b: word, c: word, d: word)
    ensures Add(Add(Add(a, b), c), d) as int == (a as int + b as int + c as int + d as int) % TWO_TO_32
  {
    var ab := a as int + b as int;
    AddModulo(ab, c as int);
    AddModulo(ab + c as int, d as int);
  }

  /** The code adds the four words of the message schedule in the opposite order. */
  lemma SumReversed(a: word, b: word, c: word, d: word)
    ensures Add(Add(Add(a, b), c), d) == Add(Add(Add(d, c), b), a)
  {
    SumOfFour(a, b, c, d);
    SumOfFour(d, c, b, a);
  }

  ghost function VarsOf(state: seq<word>): Vars
    requires |state| == 8
  {
    Vars(state[0], state[1], state[2], state[3], state[4], state[5], state[6], state[7])
  }

  /** The first loop of `compress`, which fills `w[0..16]` from the block, and the second, which
      extends it to sixty-four words. */
  method ExpandSchedule(block: array<byte>) returns (w: seq<word>)
    requires block.Length == BLOCK_BYTES
    ensures |w| == 64
    ensures forall j :: 0 <= j < 64 ==> w[j] == Schedule(block[..], j)
  {
    hide Add, SmallSigma0, SmallSigma1, WordOf;
    w := [];
    for i := 0 to 16
      invariant |w| == i
      invariant forall j :: 0 <= j < i ==> w[j] == Schedule(block[..], j)
    {
      w := w + [WordOf(block[i * 4], block[i * 4 + 1], block[i * 4 + 2], block[i * 4 + 3])];
    }
    for i := 16 to 64
      invariant |w| == i
      invariant forall j :: 0 <= j < i ==> w[j] == Schedule(block[..], j)
    {
      var s0 := SmallSigma0(w[i - 15]);
      var s1 := SmallSigma1(w[i - 2]);
      SumReversed(w[i - 16], s0, w[i - 7], s1);
      w := w + [Add(Add(Add(w[i - 16], s0), w[i - 7]), s1)];
    }
  }

  /** The third loop of `compress`. */
  method RunRounds(start: Vars, ghost block: seq<byte>, w: seq<word>)
    returns (end: Vars)
    requires |block| == BLOCK_BYTES && |w| == 64
    requires forall j :: 0 <= j < 64 ==> w[j] == Schedule(block, j)
    ensures end == Rounds(start, block, 64)
  {
    hide Add, Ch, Maj, BigSigma0, BigSigma1, RoundConstant, Schedule;
    var a, b, c, d := start.a, start.b, start.c, start.d;
    var e, f, g, h := start.e, start.f, start.g, start.h;
    for i := 0 to 64
      invariant Vars(a, b, c, d, e, f, g, h) == Rounds(start, block, i)
    {
      var temp1 := Add(Add(Add(Add(h, BigSigma1(e)), Ch(e, f, g)), RoundConstant(i)), w[i]);
      var temp2 := Add(BigSigma0(a), Maj(a, b, c));
      h := g; g := f; f := e; e := Add(d, temp1);
      d := c; c := b; b := a; a := Add(temp1, temp2);
    }
    end := Vars(a, b, c, d, e, f, g, h);
  }

  class Sha256Stream {
    const state: array<word>
    const buffer: array<byte>
    var buffered: nat
    var totalBits: nat

    /** The part of the message that is compressed already; the buffer holds the rest. */
    ghost var done: seq<byte>

    /** Everything passed to `Update` so far. */
    ghost function Fed(): seq<byte>
      reads this, buffer
      requires buffered <= buffer.Length
    {
      done + buffer[..buffered]
    }

    ghost predicate Consistent()
      reads this, state, buffer
    {
      && state.Length == 8
      && buffer.Length == BLOCK_BYTES
      && state as object != buffer as object
      && buffered <= BLOCK_BYTES
      && |done| % BLOCK_BYTES == 0
      && VarsOf(state[..]) == HashBlocks(done)
    }

    ghost predicate Valid()
      reads this, state, buffer
    {
      Consistent() && buffered < BLOCK_BYTES && totalBits == BitCount(|Fed()|)
    }

    constructor ()
      ensures Valid() && Fed() == []
      ensures fresh(state) && fresh(buffer)
    {
      var h := H0;
      state := new word[8] [h.a, h.b, h.c, h.d, h.e, h.f, h.g, h.h];
      buffer := new byte[BLOCK_BYTES];
      buffered, totalBits, done := 0, 0, [];
    }

    /** Absorbs a full buffer into the state. */
    method CompressBuffer()
      requires state.Length == 8 && buffer.Length == BLOCK_BYTES
      modifies state
      ensures VarsOf(state[..]) == Compress(old(VarsOf(state[..])), buffer[..])
    {
      hide Add, Rounds, Schedule;
      var w := ExpandSchedule(buffer);
      var start := Vars(state[0], state[1], state[2], state[3], state[4], state[5], state[6], state[7]);
      var end := RunRounds(start, buffer[..], w);
      state[0], state[1], state[2], state[3] :=
        Add(end.a, state[0]), Add(end.b, state[1]), Add(end.c, state[2]), Add(end.d, state[3]);
      state[4], state[5], state[6], state[7] :=
        Add(end.e, state[4]), Add(end.f, state[5]), Add(end.g, state[6]), Add(end.h, state[7]);
    }

    /** Compresses the buffer, which is full, and empties it. */
    method Flush()
      requires Consistent() && buffered == BLOCK_BYTES
      modifies this`buffered, this`done, state
      ensures Consistent() && buffered == 0 && Fed() == old(Fed())
    {
      hide Compress;
      CompressBuffer();
      HashOneMore(done, buffer[..]);
      buffered, done := 0, done + buffer[..];
    }

    /** Copies `piece` into the buffer behind what it holds. */
    method Fill(piece: seq<byte>)
      requires Consistent() && buffered + |piece| <= BLOCK_BYTES
      modifies this`buffered, buffer
      ensures Consistent()
      ensures buffered == old(buffered) + |piece| && Fed() == old(Fed()) + piece
    {
      hide HashBlocks;
      forall j | 0 <= j < |piece| {
        buffer[buffered + j] := piece[j];
      }
      buffered := buffered + |piece|;
      assert buffer[..buffered] == old(buffer[..buffered]) + piece;
    }

    /** Feeds `data`, in pieces that fill what is left of the buffer. */
    method Update(data: seq<byte>)
      requires Valid()
      modifies this, state, buffer
      ensures Valid() && Fed() == old(Fed()) + data
    {
      hide HashBlocks, BitCount, Wrap64;
      BitCountAdds(|Fed()|, |data|);
      totalBits := Wrap64(totalBits + 8 * |data|);
      ghost var total := totalBits;
      var p := 0;
      while p < |data|
        invariant p <= |data|
        invariant Consistent() && buffered < BLOCK_BYTES
        invariant Fed() == old(Fed()) + data[..p]
        invariant totalBits == total
      {
        var take := if BLOCK_BYTES - buffered < |data| - p then BLOCK_BYTES - buffered else |data| - p;
        Fill(data[p..p + take]);
        assert data[..p] + data[p..p + take] == data[..p + take];
        p := p + take;
        if buffered == BLOCK_BYTES {
          Flush();
        }
      }
      assert data[..p] == data;
    }

    /** The eight bytes of the length, the last one written first. */
    method LengthField() returns (length: seq<byte>)
      ensures length == BigEndian(totalBits, 8)
    {
      hide BigEndian;
      length := [];
      for i := 0 to 8
        invariant |length| == i
        invariant forall k :: 0 <= k < i ==> length[k] as nat == ShiftBytes(totalBits, i - 1 - k) % 256
      {
        length := [(ShiftBytes(totalBits, i) % 256) as byte] + length;
      }
      forall k | 0 <= k < 8
        ensures length[k] == BigEndian(totalBits, 8)[k]
      {
        BigEndianAt(totalBits, 8, 7 - k);
      }
    }

    /** Zero bytes up to the length field of the last block: of this block when there is room for the
        length behind the 0x80 byte, of another one otherwise. */
    method FillZeros() returns (ghost zeros: nat)
      requires Consistent() && 1 <= buffered
      modifies this`buffered, this`done, state, buffer
      ensures Consistent() && buffered == BLOCK_BYTES - 8 && zeros < BLOCK_BYTES
      ensures Fed() == old(Fed()) + Repeat(0, zeros)
    {
      hide HashBlocks, Repeat;
      zeros := 0;
      if buffered > BLOCK_BYTES - 8 {
        zeros := BLOCK_BYTES - buffered;
        Fill(Repeat(0, BLOCK_BYTES - buffered));
        Flush();
      }
      RepeatAdd(0, zeros, BLOCK_BYTES - 8 - buffered);
      zeros := zeros + (BLOCK_BYTES - 8 - buffered);
      Fill(Repeat(0, BLOCK_BYTES - 8 - buffered));
    }

    /** Pads, hashes the last block or two, and renders the state.  The object must not be updated
        afterwards. */
    method Finish() returns (digest: seq<byte>)
      requires Valid() && |Fed()| < 0x2000_0000_0000_0000
      modifies this, state, buffer
      ensures digest == Sha256(old(Fed()))
    {
      hide HashBlocks, BigEndian, Pad, DigestOf, Repeat;
      ghost var message := Fed();
      Fill([0x80]);
      ghost var zeros := FillZeros();
      var length := LengthField();
      Fill(length);
      PadIs(message, zeros, length);
      Flush();
      assert done == Pad(message);
      digest := DigestOf(Vars(state[0], state[1], state[2], state[3],
                              state[4], state[5], state[6], state[7]));
    }
  }
}
