// The sponge construction of FIPS 202, section 4, with the padding of section 5.1
// and the original Keccak domain (no suffix bits), and legacyKeccak256 of
// internal/plugins/wave1/plugin.go.

module KeccakSponge {
  import opened Text
  import opened KeccakSpec
  import opened KeccakTables
  import opened Keccak

  const RATE := 1088
  const WIDTH := 1600

  // Section 3.1.2: bit strings of the width as states, and back.
  function Lanes(s: seq<bool>): State
    requires |s| == WIDTH
  {
    seq(25, i requires 0 <= i < 25 => s[64 * i..64 * i + 64])
  }

  function Flat(a: State): (s: seq<bool>)
    ensures |s| == WIDTH
  {
    seq(WIDTH, k requires 0 <= k < WIDTH => a[k / 64][k % 64])
  }

  function Permute(s: seq<bool>): (r: seq<bool>)
    requires |s| == WIDTH
    ensures |r| == WIDTH
  {
    Flat(KeccakF(Lanes(s)))
  }

  function XorBits(s: seq<bool>, t: seq<bool>): (r: seq<bool>)
    requires |s| == |t|
    ensures |r| == |s|
  {
    seq(|s|, k requires 0 <= k < |s| => Xor(s[k], t[k]))
  }

  // Algorithm 9: the padding rule pad10*1.
  function Pad(x: nat, m: int): seq<bool>
    requires x > 0
  {
    [true] + Zeros((-m - 2) % x) + [true]
  }

  // Algorithm 8, steps 5 and 6, on the padded string.
  function Absorb(s: seq<bool>, p: seq<bool>): (r: seq<bool>)
    requires |s| == WIDTH
    ensures |r| == WIDTH
    decreases |p|
  {
    if |p| < RATE then s
    else Absorb(Permute(XorBits(s, p[..RATE] + Zeros(WIDTH - RATE))), p[RATE..])
  }

  /** 256 bits of output are less than one block, so one squeeze suffices. */
  function Keccak256(message: seq<bool>): (digest: seq<bool>)
    ensures |digest| == 256
  {
    Absorb(Zeros(WIDTH), message + Pad(RATE, |message|))[..256]
  }

  // ----------------------------------------------------------------- octets

  function BitAt(b: byte, j: nat): bool
    requires j < 8
  {
    var n: nat := b;
    if j == 0 then n % 2 == 1
    else if j == 1 then n / 2 % 2 == 1
    else if j == 2 then n / 2 / 2 % 2 == 1
    else if j == 3 then n / 2 / 2 / 2 % 2 == 1
    else if j == 4 then n / 2 / 2 / 2 / 2 % 2 == 1
    else if j == 5 then n / 2 / 2 / 2 / 2 / 2 % 2 == 1
    else if j == 6 then n / 2 / 2 / 2 / 2 / 2 / 2 % 2 == 1
    else n / 2 / 2 / 2 / 2 / 2 / 2 / 2 % 2 == 1
  }

  function Half(n: nat, j: nat): nat { if j == 0 then n else Half(n, j - 1) / 2 }

  lemma {:induction false} HalfOfHalf(n: nat, j: nat)
    ensures Half(n / 2, j) == Half(n, j + 1)
  {
    if j > 0 { HalfOfHalf(n, j - 1); }
  }

  lemma {:induction false} BitsAre(n: nat, width: nat, j: nat)
    requires j < width
    ensures Bits(n, width)[j] == (Half(n, j) % 2 == 1)
  {
    if j > 0 {
      BitsAre(n / 2, width - 1, j - 1);
      HalfOfHalf(n, j - 1);
    }
  }

  lemma BitIsBit(b: byte, j: nat)
    requires j < 8
    ensures BitAt(b, j) == Bits(b, 8)[j]
  {
    BitsAre(b, 8, j);
    var n: nat := b;
    assert Half(n, 0) == n;
    var h1 := Half(n, 1);
    var h2 := Half(n, 2);
    var h3 := Half(n, 3);
    var h4 := Half(n, 4);
    var h5 := Half(n, 5);
    var h6 := Half(n, 6);
    assert h1 == n / 2 && h2 == h1 / 2 && h3 == h2 / 2 && h4 == h3 / 2 && h5 == h4 / 2 && h6 == h5 / 2;
  }

  function ByteOf(bits: seq<bool>): byte
    requires |bits| == 8
  {
    ValueBound(bits);
    Value(bits)
  }

  lemma {:induction false} ValueBound(bits: seq<bool>)
    ensures Value(bits) < Pow2(|bits|)
  {
    if bits != [] { ValueBound(bits[1..]); }
  }

  lemma {:induction false} ValueOfBits(n: nat, width: nat)
    requires n < Pow2(width)
    ensures Value(Bits(n, width)) == n
  {
    if width > 0 {
      ValueOfBits(n / 2, width - 1);
      assert Bits(n, width)[1..] == Bits(n / 2, width - 1);
    }
  }

  lemma BitOfByte(bits: seq<bool>, j: nat)
    requires |bits| == 8 && j < 8
    ensures BitAt(ByteOf(bits), j) == bits[j]
  {
    BitsOfValue(bits);
    BitIsBit(ByteOf(bits), j);
  }

  lemma ByteOfBits(b: byte, bits: seq<bool>)
    requires |bits| == 8 && forall j | 0 <= j < 8 :: bits[j] == BitAt(b, j)
    ensures ByteOf(bits) == b
  {
    forall j: nat | j < 8 ensures bits[j] == Bits(b, 8)[j] { BitIsBit(b, j); }
    assert bits == Bits(b, 8);
    ValueOfBits(b, 8);
  }

  /** The operator ^ on octets. */
  function XorByte(a: byte, b: byte): byte {
    ByteOf(seq(8, j requires 0 <= j < 8 => Xor(BitAt(a, j), BitAt(b, j))))
  }

  lemma XorWithZero(b: byte)
    ensures XorByte(0, b) == b
  {
    ByteOfBits(b, seq(8, j requires 0 <= j < 8 => Xor(BitAt(0, j), BitAt(b, j))));
  }

  lemma XorOfBothOnes()
    ensures XorByte(0x01, 0x80) == 0x81
  {
    var bits := seq(8, j requires 0 <= j < 8 => Xor(BitAt(0x01, j), BitAt(0x80, j)));
    ByteOfBits(0x81, bits);
  }

  // Appendix B.1: the lowest bit of an octet comes first.
  function BytesToBits(bytes: seq<byte>): (bits: seq<bool>)
    ensures |bits| == 8 * |bytes|
  {
    seq(8 * |bytes|, k requires 0 <= k < 8 * |bytes| => BitAt(bytes[k / 8], k % 8))
  }

  /** binary.LittleEndian.Uint64 on the i-th group of eight octets. */
  function WordAt(block: seq<byte>, i: nat): Lane
    requires 8 * i + 8 <= |block|
  {
    seq(64, z requires 0 <= z < 64 => BitAt(block[8 * i + z / 8], z % 8))
  }

  function WordBytes(word: Lane): (r: seq<byte>)
    ensures |r| == 8
  {
    seq(8, k requires 0 <= k < 8 => ByteOf(word[8 * k..8 * k + 8]))
  }

  // ----------------------------------------------- words against bit strings

  lemma PlaceOfBit(i: nat, z: nat)
    requires z < 64
    ensures (64 * i + z) / 64 == i && (64 * i + z) % 64 == z
    ensures (64 * i + z) / 8 == 8 * i + z / 8 && (64 * i + z) % 8 == z % 8
  {
  }

  lemma LanesOfFlat(a: State)
    ensures Lanes(Flat(a)) == a
  {
    var s := Flat(a);
    forall i: nat | i < 25 ensures Lanes(s)[i] == a[i] {
      forall z: nat | z < 64 ensures Lanes(s)[i][z] == a[i][z] {
        PlaceOfBit(i, z);
        assert Lanes(s)[i][z] == s[64 * i + z];
      }
    }
  }

  lemma WordIsSlice(block: seq<byte>, i: nat)
    requires 8 * i + 8 <= |block|
    ensures WordAt(block, i) == BytesToBits(block)[64 * i..64 * i + 64]
  {
    var bits := BytesToBits(block);
    forall z: nat | z < 64 ensures WordAt(block, i)[z] == bits[64 * i..64 * i + 64][z] {
      PlaceOfBit(i, z);
      assert bits[64 * i..64 * i + 64][z] == bits[64 * i + z];
    }
  }

  /** The state with a block added to its first words. */
  function XorWords(a: State, block: seq<byte>): State
    requires |block| == 136
  {
    seq(25, i requires 0 <= i < 25 => if i < 17 then XorLane(a[i], WordAt(block, i)) else a[i])
  }

  lemma XorLaneAgrees(s: seq<bool>, block: seq<byte>, i: nat)
    requires |s| == WIDTH && |block| == 136 && i < 25
    ensures XorWords(Lanes(s), block)[i]
         == XorBits(s, BytesToBits(block) + Zeros(WIDTH - RATE))[64 * i..64 * i + 64]
  {
    var t := BytesToBits(block) + Zeros(WIDTH - RATE);
    var left, right := XorWords(Lanes(s), block)[i], XorBits(s, t)[64 * i..64 * i + 64];
    if i < 17 { WordIsSlice(block, i); }
    forall z: nat | z < 64 ensures left[z] == right[z] {
      assert right[z] == Xor(s[64 * i + z], t[64 * i + z]);
      assert Lanes(s)[i][z] == s[64 * i + z];
      if i < 17 { assert WordAt(block, i)[z] == BytesToBits(block)[64 * i + z]; }
    }
  }

  lemma XorAgrees(s: seq<bool>, block: seq<byte>)
    requires |s| == WIDTH && |block| == 136
    ensures XorWords(Lanes(s), block) == Lanes(XorBits(s, BytesToBits(block) + Zeros(WIDTH - RATE)))
  {
    forall i: nat | i < 25
      ensures XorWords(Lanes(s), block)[i] == Lanes(XorBits(s, BytesToBits(block) + Zeros(WIDTH - RATE)))[i]
    {
      XorLaneAgrees(s, block, i);
    }
  }

  // ------------------------------------------------------------- the padding

  lemma BitsOfSplit(bytes: seq<byte>, n: nat)
    requires n <= |bytes|
    ensures BytesToBits(bytes) == BytesToBits(bytes[..n]) + BytesToBits(bytes[n..])
  {
  }

  lemma PadPeriod(m: int)
    ensures Pad(RATE, m + RATE) == Pad(RATE, m)
  {
    assert (-(m + RATE) - 2) % RATE == (-m - 2) % RATE;
  }

  lemma AbsorbStep(s: seq<bool>, b: seq<bool>, tail: seq<bool>)
    requires |s| == WIDTH && |b| == RATE
    ensures Absorb(s, b + tail) == Absorb(Permute(XorBits(s, b + Zeros(WIDTH - RATE))), tail)
  {
    assert (b + tail)[..RATE] == b && (b + tail)[RATE..] == tail;
  }

  lemma Reassociate(a: seq<bool>, b: seq<bool>, c: seq<bool>)
    ensures a + b + c == a + (b + c)
  {
  }

  /** Whole blocks are absorbed first, and the padding depends on the rest only. */
  lemma AbsorbBlock(s: seq<bool>, rest: seq<byte>)
    requires |s| == WIDTH && |rest| >= 136
    ensures Absorb(s, BytesToBits(rest) + Pad(RATE, 8 * |rest|))
         == Absorb(Permute(XorBits(s, BytesToBits(rest[..136]) + Zeros(WIDTH - RATE))),
                   BytesToBits(rest[136..]) + Pad(RATE, 8 * |rest[136..]|))
  {
    var b, tail, pad := BytesToBits(rest[..136]), BytesToBits(rest[136..]), Pad(RATE, 8 * |rest|);
    PadPeriod(8 * |rest[136..]|);
    BitsOfSplit(rest, 136);
    Reassociate(b, tail, pad);
    AbsorbStep(s, b, tail + pad);
  }

  /** The last block as the program builds it. */
  function LastBlock(rest: seq<byte>): (block: seq<byte>)
    requires |rest| < 136
    ensures |block| == 136
  {
    var copied := rest + seq(136 - |rest|, _ => 0);
    var marked := copied[|rest| := XorByte(copied[|rest|], 0x01)];
    marked[135 := XorByte(marked[135], 0x80)]
  }

  lemma LastOctet(rest: seq<byte>, i: nat)
    requires |rest| < 136 && i < 136
    ensures LastBlock(rest)[i] ==
      if i < |rest| then rest[i]
      else if i == |rest| == 135 then 0x81
      else if i == |rest| then 0x01
      else if i == 135 then 0x80
      else 0
  {
    XorWithZero(0x01);
    XorWithZero(0x80);
    XorOfBothOnes();
  }

  /** It is the rest of the message and its padding, also when one octet holds
      both of the padding's ones. */
  lemma LastBlockIsPadded(rest: seq<byte>)
    requires |rest| < 136
    ensures BytesToBits(LastBlock(rest)) == BytesToBits(rest) + Pad(RATE, 8 * |rest|)
  {
    var m: int := 8 * |rest|;
    assert (-m - 2) % RATE == RATE - 2 - m;
    var p := BytesToBits(rest) + Pad(RATE, m);
    OctetBits();
    forall k: nat | k < RATE ensures BytesToBits(LastBlock(rest))[k] == p[k] {
      LastOctet(rest, k / 8);
      assert k >= m ==> p[k] == (k == m || k == RATE - 1);
    }
  }

  lemma OctetBits()
    ensures forall j: nat | j < 8 :: !BitAt(0, j)
    ensures forall j: nat | j < 8 :: BitAt(0x01, j) == (j == 0)
    ensures forall j: nat | j < 8 :: BitAt(0x80, j) == (j == 7)
    ensures forall j: nat | j < 8 :: BitAt(0x81, j) == (j == 0 || j == 7)
  {
  }

  lemma AbsorbLast(s: seq<bool>, rest: seq<byte>)
    requires |s| == WIDTH && |rest| < 136
    ensures Absorb(s, BytesToBits(rest) + Pad(RATE, 8 * |rest|))
         == Permute(XorBits(s, BytesToBits(LastBlock(rest)) + Zeros(WIDTH - RATE)))
  {
    LastBlockIsPadded(rest);
    var p := BytesToBits(LastBlock(rest));
    assert p[..RATE] == p && |p[RATE..]| == 0;
  }

  // ------------------------------------------------------------ the program

  method XorKeccakBlock(state: array<Lane>, block: seq<byte>)
    requires state.Length == 25 && |block| == 136
    modifies state
    ensures state[..] == XorWords(old(state[..]), block)
  {
    for i := 0 to |block| / 8
      invariant forall k | 0 <= k < i :: state[k] == XorLane(old(state[k]), WordAt(block, k))
      invariant forall k | i <= k < 25 :: state[k] == old(state[k])
    {
      state[i] := XorLane(state[i], WordAt(block, i));
    }
  }

  lemma OctetOfDigest(a: State, out: seq<byte>, i: nat, j: nat)
    requires out == WordBytes(a[0]) + WordBytes(a[1]) + WordBytes(a[2]) + WordBytes(a[3])
    requires i < 4 && j < 8
    ensures out[8 * i + j] == ByteOf(a[i][8 * j..8 * j + 8])
  {
  }

  lemma DigestBits(a: State, out: seq<byte>)
    requires out == WordBytes(a[0]) + WordBytes(a[1]) + WordBytes(a[2]) + WordBytes(a[3])
    ensures BytesToBits(out) == Flat(a)[..256]
  {
    forall k: nat | k < 256 ensures BytesToBits(out)[k] == Flat(a)[..256][k] {
      var i, j, b := k / 64, k % 64 / 8, k % 8;
      assert k / 8 == 8 * i + j && k % 64 == 8 * j + b;
      OctetOfDigest(a, out, i, j);
      BitOfByte(a[i][8 * j..8 * j + 8], b);
      assert BytesToBits(out)[k] == BitAt(out[8 * i + j], b);
    }
  }

  lemma ZeroState(a: State)
    requires forall i | 0 <= i < 25 :: a[i] == ZERO
    ensures a == Lanes(Zeros(WIDTH))
  {
    forall i: nat | i < 25 ensures a[i] == Lanes(Zeros(WIDTH))[i] {
    }
  }

  /** copy and the two exclusive ors. */
  method PadLastBlock(rest: seq<byte>) returns (block: array<byte>)
    requires |rest| < 136
    ensures fresh(block) && block[..] == LastBlock(rest)
  {
    block := new byte[136](_ => 0);
    for i := 0 to |rest|
      invariant block[..i] == rest[..i]
      invariant forall k | i <= k < 136 :: block[k] == 0
    {
      block[i] := rest[i];
    }
    assert block[..] == rest + seq(136 - |rest|, _ => 0);
    block[|rest|] := XorByte(block[|rest|], 0x01);
    block[135] := XorByte(block[135], 0x80);
    assert block[..] == LastBlock(rest);
  }

  method LegacyKeccak256(input: seq<byte>) returns (out: seq<byte>)
    ensures |out| == 32
    ensures BytesToBits(out) == Keccak256(BytesToBits(input))
  {
    var state := new Lane[25](_ => ZERO);
    var rest := input;
    ghost var s := Zeros(WIDTH);
    ZeroState(state[..]);
    while |rest| >= 136
      invariant |s| == WIDTH && state[..] == Lanes(s)
      invariant Absorb(s, BytesToBits(rest) + Pad(RATE, 8 * |rest|))
             == Absorb(Zeros(WIDTH), BytesToBits(input) + Pad(RATE, 8 * |input|))
    {
      AbsorbBlock(s, rest);
      s := AddBlock(state, rest[..136], s);
      rest := rest[136..];
    }
    var block := PadLastBlock(rest);
    AbsorbLast(s, rest);
    s := AddBlock(state, block[..], s);
    out := WordBytes(state[0]) + WordBytes(state[1]) + WordBytes(state[2]) + WordBytes(state[3]);
    DigestBits(state[..], out);
    LanesOfFlat(state[..]);
  }

  /** xorKeccakBlock and keccakF1600 on the words do one step of the sponge on the bits. */
  method AddBlock(state: array<Lane>, block: seq<byte>, ghost s: seq<bool>) returns (ghost next: seq<bool>)
    requires state.Length == 25 && |block| == 136 && |s| == WIDTH && state[..] == Lanes(s)
    modifies state
    ensures next == Permute(XorBits(s, BytesToBits(block) + Zeros(WIDTH - RATE)))
    ensures state[..] == Lanes(next) && next == Flat(state[..])
  {
    XorKeccakBlock(state, block);
    XorAgrees(s, block);
    KeccakF1600(state);
    next := Flat(state[..]);
    LanesOfFlat(state[..]);
  }
}
