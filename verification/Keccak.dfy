// The permutation Keccak-f[1600]: the step mappings of FIPS 202, section 3.2, on
// the bits A[x, y, z] of the state, and keccakF1600 of
// internal/plugins/wave1/plugin.go, which works in place on 25 words.

module KeccakSpec {
  function Zeros(n: nat): seq<bool> { seq(n, _ => false) }

  /** A uint64 as its bits, the lowest first. */
  type Lane = l: seq<bool> | |l| == 64 witness Zeros(64)

  const ZERO: Lane := Zeros(64)

  /** Lane A[x, y] is element x + 5y. */
  type State = a: seq<Lane> | |a| == 25 witness ZeroLanes()

  function ZeroLanes(): seq<Lane> { seq(25, _ => ZERO) }

  /** The place of the lane A[x, y]. */
  function Ix(x: nat, y: nat): nat { x + 5 * y }

  function At(a: State, x: nat, y: nat, z: nat): bool
    requires x < 5 && y < 5 && z < 64
  {
    a[Ix(x, y)][z]
  }

  function Xor(a: bool, b: bool): bool { a != b }

  // Section 3.2.1
  function ThetaC(a: State, x: nat, z: nat): bool
    requires x < 5 && z < 64
  {
    Xor(Xor(Xor(Xor(At(a, x, 0, z), At(a, x, 1, z)), At(a, x, 2, z)), At(a, x, 3, z)), At(a, x, 4, z))
  }

  function ThetaD(a: State, x: nat, z: nat): bool
    requires x < 5 && z < 64
  {
    Xor(ThetaC(a, (x - 1) % 5, z), ThetaC(a, (x + 1) % 5, (z - 1) % 64))
  }

  function ThetaLane(a: State, x: nat, y: nat): Lane
    requires x < 5 && y < 5
  {
    seq(64, z requires 0 <= z < 64 => Xor(At(a, x, y, z), ThetaD(a, x, z)))
  }

  function Theta(a: State): State { seq(25, i requires 0 <= i < 25 => ThetaLane(a, i % 5, i / 5)) }

  // Section 3.2.2: the walk that starts at (1, 0), and the offset of its step t.
  function Walk(t: nat): (nat, nat) {
    if t == 0 then (1, 0) else var (x, y) := Walk(t - 1); (y, (2 * x + 3 * y) % 5)
  }

  /** The step of the walk that reaches (x, y), searched downwards. */
  function StepTo(x: nat, y: nat, t: nat): (r: int)
    ensures -1 <= r <= t
    ensures r >= 0 ==> Walk(r) == (x, y)
  {
    if Walk(t) == (x, y) then t else if t == 0 then -1 else StepTo(x, y, t - 1)
  }

  function Triangle(t: int): int { (t + 1) * (t + 2) / 2 }

  const LAST_STEP := 23

  function RhoOffset(x: nat, y: nat): int {
    if x == 0 && y == 0 then 0 else Triangle(StepTo(x, y, LAST_STEP))
  }

  /** The lane whose bit z is the bit z - offset of l. */
  function Moved(l: Lane, offset: int): Lane { seq(64, z requires 0 <= z < 64 => l[(z - offset) % 64]) }

  function RhoLane(a: State, x: nat, y: nat): Lane
    requires x < 5 && y < 5
  {
    Moved(a[Ix(x, y)], RhoOffset(x, y))
  }

  function Rho(a: State): State { seq(25, i requires 0 <= i < 25 => RhoLane(a, i % 5, i / 5)) }

  // Section 3.2.3
  function PiLane(a: State, x: nat, y: nat): Lane
    requires x < 5 && y < 5
  {
    seq(64, z requires 0 <= z < 64 => At(a, (x + 3 * y) % 5, x, z))
  }

  function Pi(a: State): State { seq(25, i requires 0 <= i < 25 => PiLane(a, i % 5, i / 5)) }

  // Section 3.2.4
  function ChiLane(a: State, x: nat, y: nat): Lane
    requires x < 5 && y < 5
  {
    seq(64, z requires 0 <= z < 64 =>
      Xor(At(a, x, y, z), !At(a, (x + 1) % 5, y, z) && At(a, (x + 2) % 5, y, z)))
  }

  function Chi(a: State): State { seq(25, i requires 0 <= i < 25 => ChiLane(a, i % 5, i / 5)) }

  // Section 3.2.5: the shift register of Algorithm 5.
  datatype Register = Register(r0: bool, r1: bool, r2: bool, r3: bool, r4: bool, r5: bool, r6: bool, r7: bool)

  function Shift(r: Register): Register {
    // R = 0 || R, then R[8] is added to R[0], R[4], R[5] and R[6] and cut off.
    Register(r.r7, r.r0, r.r1, r.r2, Xor(r.r3, r.r7), Xor(r.r4, r.r7), Xor(r.r5, r.r7), r.r6)
  }

  function Shifted(r: Register, n: nat): Register {
    if n == 0 then r else Shift(Shifted(r, n - 1))
  }

  const SEED := Register(true, false, false, false, false, false, false, false)

  function Rc(t: nat): bool { Shifted(SEED, t % 255).r0 }

  /** Bit 2^j - 1 of the round constant is rc(j + 7 round) for j up to 6; all others are 0. */
  function RoundConstantBit(round: nat, z: int): bool {
    if z == 0 then Rc(7 * round)
    else if z == 1 then Rc(1 + 7 * round)
    else if z == 3 then Rc(2 + 7 * round)
    else if z == 7 then Rc(3 + 7 * round)
    else if z == 15 then Rc(4 + 7 * round)
    else if z == 31 then Rc(5 + 7 * round)
    else if z == 63 then Rc(6 + 7 * round)
    else false
  }

  function Iota(a: State, round: nat): State {
    a[0 := seq(64, z requires 0 <= z < 64 => Xor(a[0][z], RoundConstantBit(round, z)))]
  }

  // Section 3.3
  function Round(a: State, round: nat): State { Iota(Chi(Pi(Rho(Theta(a)))), round) }

  function Rounds(a: State, n: nat): State {
    if n == 0 then a else Round(Rounds(a, n - 1), n - 1)
  }

  function KeccakF(a: State): State { Rounds(a, 24) }
}

module KeccakTables {
  import opened KeccakSpec

  const ROTATION: seq<nat> :=
    [0, 1, 62, 28, 27, 36, 44, 6, 55, 20, 3, 10, 43, 25, 39, 41, 45, 15, 21, 8, 18, 2, 61, 56, 14]

  const ROUND_CONSTANTS: seq<nat> := [
    0x0000000000000001, 0x0000000000008082, 0x800000000000808a, 0x8000000080008000,
    0x000000000000808b, 0x0000000080000001, 0x8000000080008081, 0x8000000000008009,
    0x000000000000008a, 0x0000000000000088, 0x0000000080008009, 0x000000008000000a,
    0x000000008000808b, 0x800000000000008b, 0x8000000000008089, 0x8000000000008003,
    0x8000000000008002, 0x8000000000000080, 0x000000000000800a, 0x800000008000000a,
    0x8000000080008081, 0x8000000000008080, 0x0000000080000001, 0x8000000080008008]

  // --------------------------------------------------------------- the offsets

  /** The lane that the walk reaches at step t, and the step that reaches lane i. */
  const LANES: seq<nat> :=
    [1, 10, 7, 11, 17, 18, 3, 5, 16, 8, 21, 24, 4, 15, 23, 19, 13, 12, 2, 20, 14, 22, 9, 6]

  const STEPS: seq<nat> :=
    [0, 0, 18, 6, 12, 7, 23, 2, 9, 22, 1, 3, 17, 16, 20, 13, 8, 4, 5, 15, 19, 10, 21, 14, 11]

  function LaneAt(t: nat): nat { if t < 24 then LANES[t] else 0 }

  predicate Follows(lane: nat, next: nat) {
    next % 5 == lane / 5 && next / 5 == (2 * (lane % 5) + 3 * (lane / 5)) % 5
  }

  predicate FollowsAt(lane: nat -> nat, t: nat) { Follows(lane(t), lane(t + 1)) }

  lemma {:induction false} Walks(lane: nat -> nat, t: nat)
    requires t < 24 && lane(0) == 1
    requires forall s: nat {:trigger FollowsAt(lane, s)} | s < 23 :: FollowsAt(lane, s)
    ensures Walk(t) == (lane(t) % 5, lane(t) / 5)
  {
    if t > 0 {
      Walks(lane, t - 1);
      assert FollowsAt(lane, t - 1);
    }
  }

  lemma WalkIs(t: nat)
    requires t < 24
    ensures Walk(t) == (LANES[t] % 5, LANES[t] / 5)
  {
    forall s: nat | s < 23 ensures FollowsAt(LaneAt, s) { NextLane(s); }
    Walks(LaneAt, t);
  }

  lemma NextLane1(t: nat)
    requires 0 <= t < 12
    ensures Follows(LANES[t], LANES[t + 1])
  {
    if t == 0 { assert LANES[0] == 1 && LANES[1] == 10; }
    else if t == 1 { assert LANES[1] == 10 && LANES[2] == 7; }
    else if t == 2 { assert LANES[2] == 7 && LANES[3] == 11; }
    else if t == 3 { assert LANES[3] == 11 && LANES[4] == 17; }
    else if t == 4 { assert LANES[4] == 17 && LANES[5] == 18; }
    else if t == 5 { assert LANES[5] == 18 && LANES[6] == 3; }
    else if t == 6 { assert LANES[6] == 3 && LANES[7] == 5; }
    else if t == 7 { assert LANES[7] == 5 && LANES[8] == 16; }
    else if t == 8 { assert LANES[8] == 16 && LANES[9] == 8; }
    else if t == 9 { assert LANES[9] == 8 && LANES[10] == 21; }
    else if t == 10 { assert LANES[10] == 21 && LANES[11] == 24; }
    else if t == 11 { assert LANES[11] == 24 && LANES[12] == 4; }
  }

  lemma NextLane2(t: nat)
    requires 12 <= t < 23
    ensures Follows(LANES[t], LANES[t + 1])
  {
    if t == 12 { assert LANES[12] == 4 && LANES[13] == 15; }
    else if t == 13 { assert LANES[13] == 15 && LANES[14] == 23; }
    else if t == 14 { assert LANES[14] == 23 && LANES[15] == 19; }
    else if t == 15 { assert LANES[15] == 19 && LANES[16] == 13; }
    else if t == 16 { assert LANES[16] == 13 && LANES[17] == 12; }
    else if t == 17 { assert LANES[17] == 12 && LANES[18] == 2; }
    else if t == 18 { assert LANES[18] == 2 && LANES[19] == 20; }
    else if t == 19 { assert LANES[19] == 20 && LANES[20] == 14; }
    else if t == 20 { assert LANES[20] == 14 && LANES[21] == 22; }
    else if t == 21 { assert LANES[21] == 22 && LANES[22] == 9; }
    else if t == 22 { assert LANES[22] == 9 && LANES[23] == 6; }
  }

  lemma NextLane(t: nat)
    requires t < 23
    ensures Follows(LANES[t], LANES[t + 1])
  {
    if t < 12 { NextLane1(t); } else { NextLane2(t); }
  }

  lemma StepsAndLanes1(i: nat)
    requires 1 <= i < 13
    ensures STEPS[i] < 24 && LANES[STEPS[i]] == i
    ensures Triangle(STEPS[i]) % 64 == ROTATION[i]
  {
    if i == 1 { assert STEPS[1] == 0 && Triangle(0) % 64 == ROTATION[1]; }
    else if i == 2 { assert STEPS[2] == 18 && Triangle(18) % 64 == ROTATION[2]; }
    else if i == 3 { assert STEPS[3] == 6 && Triangle(6) % 64 == ROTATION[3]; }
    else if i == 4 { assert STEPS[4] == 12 && Triangle(12) % 64 == ROTATION[4]; }
    else if i == 5 { assert STEPS[5] == 7 && Triangle(7) % 64 == ROTATION[5]; }
    else if i == 6 { assert STEPS[6] == 23 && Triangle(23) % 64 == ROTATION[6]; }
    else if i == 7 { assert STEPS[7] == 2 && Triangle(2) % 64 == ROTATION[7]; }
    else if i == 8 { assert STEPS[8] == 9 && Triangle(9) % 64 == ROTATION[8]; }
    else if i == 9 { assert STEPS[9] == 22 && Triangle(22) % 64 == ROTATION[9]; }
    else if i == 10 { assert STEPS[10] == 1 && Triangle(1) % 64 == ROTATION[10]; }
    else if i == 11 { assert STEPS[11] == 3 && Triangle(3) % 64 == ROTATION[11]; }
    else if i == 12 { assert STEPS[12] == 17 && Triangle(17) % 64 == ROTATION[12]; }
  }

  lemma StepsAndLanes2(i: nat)
    requires 13 <= i < 25
    ensures STEPS[i] < 24 && LANES[STEPS[i]] == i
    ensures Triangle(STEPS[i]) % 64 == ROTATION[i]
  {
    if i == 13 { assert STEPS[13] == 16 && Triangle(16) % 64 == ROTATION[13]; }
    else if i == 14 { assert STEPS[14] == 20 && Triangle(20) % 64 == ROTATION[14]; }
    else if i == 15 { assert STEPS[15] == 13 && Triangle(13) % 64 == ROTATION[15]; }
    else if i == 16 { assert STEPS[16] == 8 && Triangle(8) % 64 == ROTATION[16]; }
    else if i == 17 { assert STEPS[17] == 4 && Triangle(4) % 64 == ROTATION[17]; }
    else if i == 18 { assert STEPS[18] == 5 && Triangle(5) % 64 == ROTATION[18]; }
    else if i == 19 { assert STEPS[19] == 15 && Triangle(15) % 64 == ROTATION[19]; }
    else if i == 20 { assert STEPS[20] == 19 && Triangle(19) % 64 == ROTATION[20]; }
    else if i == 21 { assert STEPS[21] == 10 && Triangle(10) % 64 == ROTATION[21]; }
    else if i == 22 { assert STEPS[22] == 21 && Triangle(21) % 64 == ROTATION[22]; }
    else if i == 23 { assert STEPS[23] == 14 && Triangle(14) % 64 == ROTATION[23]; }
    else if i == 24 { assert STEPS[24] == 11 && Triangle(11) % 64 == ROTATION[24]; }
  }

  lemma StepsAndLanes(i: nat)
    requires 0 < i < 25
    ensures STEPS[i] < 24 && LANES[STEPS[i]] == i
    ensures Triangle(STEPS[i]) % 64 == ROTATION[i]
  {
    if i < 13 { StepsAndLanes1(i); } else { StepsAndLanes2(i); }
  }

  lemma LanesAndSteps(t: nat)
    requires t < 24
    ensures 0 < LANES[t] < 25 && STEPS[LANES[t]] == t
  {
    if t == 0 { assert LANES[0] == 1; }
    else if t == 1 { assert LANES[1] == 10; }
    else if t == 2 { assert LANES[2] == 7; }
    else if t == 3 { assert LANES[3] == 11; }
    else if t == 4 { assert LANES[4] == 17; }
    else if t == 5 { assert LANES[5] == 18; }
    else if t == 6 { assert LANES[6] == 3; }
    else if t == 7 { assert LANES[7] == 5; }
    else if t == 8 { assert LANES[8] == 16; }
    else if t == 9 { assert LANES[9] == 8; }
    else if t == 10 { assert LANES[10] == 21; }
    else if t == 11 { assert LANES[11] == 24; }
    else if t == 12 { assert LANES[12] == 4; }
    else if t == 13 { assert LANES[13] == 15; }
    else if t == 14 { assert LANES[14] == 23; }
    else if t == 15 { assert LANES[15] == 19; }
    else if t == 16 { assert LANES[16] == 13; }
    else if t == 17 { assert LANES[17] == 12; }
    else if t == 18 { assert LANES[18] == 2; }
    else if t == 19 { assert LANES[19] == 20; }
    else if t == 20 { assert LANES[20] == 14; }
    else if t == 21 { assert LANES[21] == 22; }
    else if t == 22 { assert LANES[22] == 9; }
    else if t == 23 { assert LANES[23] == 6; }
  }

  lemma WalkOfSteps(i: nat)
    requires 0 < i < 25
    ensures STEPS[i] < 24 && Walk(STEPS[i]) == (i % 5, i / 5)
    ensures Triangle(STEPS[i]) % 64 == ROTATION[i]
  {
    StepsAndLanes(i);
    WalkIs(STEPS[i]);
  }

  /** No lane is reached twice. */
  lemma StepsOfWalk(t: nat, i: nat)
    requires t < 24 && i < 25 && Walk(t) == (i % 5, i / 5)
    ensures STEPS[i] == t
  {
    WalkIs(t);
    LanesAndSteps(t);
    SplitLane(i, LANES[t]);
  }

  lemma SplitLane(i: nat, k: nat)
    requires i % 5 == k % 5 && i / 5 == k / 5
    ensures i == k
  {
  }

  lemma {:induction false} StepFound(x: nat, y: nat, t: nat, from: nat)
    requires t <= from && Walk(t) == (x, y)
    ensures StepTo(x, y, from) >= t
  {
    if from > t { StepFound(x, y, t, from - 1); }
  }

  lemma StepIs(i: nat)
    requires 0 < i < 25
    ensures StepTo(i % 5, i / 5, LAST_STEP) == STEPS[i]
  {
    WalkOfSteps(i);
    StepFound(i % 5, i / 5, STEPS[i], LAST_STEP);
    StepsOfWalk(StepTo(i % 5, i / 5, LAST_STEP), i);
  }

  /** The table of rotations is the table of offsets modulo the word length. */
  lemma RotationIsOffset(i: nat)
    requires i < 25
    ensures RhoOffset(i % 5, i / 5) % 64 == ROTATION[i]
  {
    if i > 0 {
      StepIs(i);
      WalkOfSteps(i);
    }
  }

  // --------------------------------------------------------- the round constants

  /** The word with the given value. */
  function Bits(n: nat, width: nat): (r: seq<bool>)
    ensures |r| == width
  {
    if width == 0 then [] else [n % 2 == 1] + Bits(n / 2, width - 1)
  }

  function LaneOf(n: nat): Lane { Bits(n, 64) }

  function Value(bits: seq<bool>): nat {
    if bits == [] then 0 else (if bits[0] then 1 else 0) + 2 * Value(bits[1..])
  }

  lemma {:induction false} BitsOfValue(bits: seq<bool>)
    ensures Bits(Value(bits), |bits|) == bits
  {
    if bits != [] { BitsOfValue(bits[1..]); }
  }

  function Pow2(n: nat): nat { if n == 0 then 1 else 2 * Pow2(n - 1) }

  /** Bits are set at the places 0, 1, 3, 7, 15, 31 and 63 only. */
  predicate Sparse(s: Lane) {
    && !s[2]
    && (forall k | 4 <= k < 7 :: !s[k])
    && (forall k | 8 <= k < 15 :: !s[k])
    && (forall k | 16 <= k < 31 :: !s[k])
    && (forall k | 32 <= k < 63 :: !s[k])
  }

  function Bit(b: bool, weight: nat): nat { if b then weight else 0 }

  function SparseValue(b0: bool, b1: bool, b2: bool, b3: bool, b4: bool, b5: bool, b6: bool): nat {
    Bit(b0, 1) + Bit(b1, 2) + Bit(b2, 8) + Bit(b3, 0x80) + Bit(b4, 0x8000)
    + Bit(b5, 0x8000_0000) + Bit(b6, 0x8000_0000_0000_0000)
  }

  lemma {:induction false} ZerosFrom(s: seq<bool>, lo: nat, n: nat, p: nat)
    requires lo + n <= |s| && p == Pow2(n)
    requires forall k | lo <= k < lo + n :: !s[k]
    ensures Value(s[lo..]) == p * Value(s[lo + n..])
    decreases n
  {
    if n > 0 {
      assert s[lo..][1..] == s[lo + 1..];
      ZerosFrom(s, lo + 1, n - 1, Pow2(n - 1));
      Doubled(Pow2(n - 1), Value(s[lo + n..]));
    }
  }

  lemma Doubled(q: nat, v: nat)
    ensures 2 * (q * v) == (2 * q) * v
  {
  }

  lemma ValueAt(s: seq<bool>, lo: nat)
    requires lo < |s|
    ensures Value(s[lo..]) == Bit(s[lo], 1) + 2 * Value(s[lo + 1..])
  {
    assert s[lo..][1..] == s[lo + 1..];
  }

  lemma Powers()
    ensures Pow2(1) == 2 && Pow2(3) == 8 && Pow2(7) == 0x80 && Pow2(15) == 0x8000
  {
    assert Pow2(5) == 32 && Pow2(9) == 512 && Pow2(12) == 4096;
  }

  lemma LowWeight(s: Lane)
    requires Sparse(s)
    ensures Value(s) == Bit(s[0], 1) + Bit(s[1], 2) + Bit(s[3], 8) + Bit(s[7], 0x80) + 0x100 * Value(s[8..])
  {
    Powers();
    assert s[0..] == s;
    ValueAt(s, 0);
    ValueAt(s, 1);
    ZerosFrom(s, 2, 1, 2);
    ValueAt(s, 3);
    ZerosFrom(s, 4, 3, 8);
    ValueAt(s, 7);
  }

  lemma MiddleWeight(s: Lane)
    requires Sparse(s)
    ensures Value(s[8..]) == Bit(s[15], 0x80) + Bit(s[31], 0x80_0000) + 0x100_0000 * Value(s[32..])
  {
    Powers();
    ZerosFrom(s, 8, 7, 0x80);
    ValueAt(s, 15);
    ZerosFrom(s, 16, 15, 0x8000);
    ValueAt(s, 31);
  }

  lemma HighWeight(s: Lane)
    requires Sparse(s)
    ensures Value(s[32..]) == Bit(s[63], 0x8000_0000)
  {
    Powers();
    ZerosFrom(s, 32, 15, 0x8000);
    ZerosFrom(s, 47, 15, 0x8000);
    ZerosFrom(s, 62, 1, 2);
    ValueAt(s, 63);
    assert s[64..] == [];
  }

  /** A word with only these bits is the word of their weights. */
  lemma SparseIs(s: Lane)
    requires Sparse(s)
    ensures LaneOf(SparseValue(s[0], s[1], s[3], s[7], s[15], s[31], s[63])) == s
  {
    LowWeight(s);
    MiddleWeight(s);
    HighWeight(s);
    AddWeights(s, Value(s[32..]), Value(s[8..]));
    BitsOfValue(s);
  }

  lemma AddWeights(s: Lane, high: nat, rest: nat)
    requires high == Bit(s[63], 0x8000_0000)
    requires rest == Bit(s[15], 0x80) + Bit(s[31], 0x80_0000) + 0x100_0000 * high
    ensures Bit(s[0], 1) + Bit(s[1], 2) + Bit(s[3], 8) + Bit(s[7], 0x80) + 0x100 * rest
         == SparseValue(s[0], s[1], s[3], s[7], s[15], s[31], s[63])
  {
  }

  function Shift7(r: Register): Register {
    Shift(Shift(Shift(Shift(Shift(Shift(Shift(r)))))))
  }

  /** The table entry for the register at the start of a round, from the bits that
      this register and its next six shifts put out. */
  function ConstantFrom(r: Register): nat {
    SparseValue(r.r0, r.r7, r.r6, Xor(r.r5, r.r7), Xor(Xor(r.r4, r.r7), r.r6),
                Xor(Xor(r.r3, r.r6), r.r5), Xor(Xor(r.r2, r.r5), r.r4))
  }

  lemma Outputs(r: Register)
    ensures Shift(r).r0 == r.r7 && Shift(Shift(r)).r0 == r.r6
    ensures Shift(Shift(Shift(r))).r0 == Xor(r.r5, r.r7)
    ensures Shift(Shift(Shift(Shift(r)))).r0 == Xor(Xor(r.r4, r.r7), r.r6)
    ensures Shift(Shift(Shift(Shift(Shift(r))))).r0 == Xor(Xor(r.r3, r.r6), r.r5)
    ensures Shift(Shift(Shift(Shift(Shift(Shift(r)))))).r0 == Xor(Xor(r.r2, r.r5), r.r4)
  {
  }

  lemma SixShifts(n: nat)
    ensures var r := Shifted(SEED, n);
      && Shifted(SEED, n + 1) == Shift(r)
      && Shifted(SEED, n + 2) == Shift(Shift(r))
      && Shifted(SEED, n + 3) == Shift(Shift(Shift(r)))
      && Shifted(SEED, n + 4) == Shift(Shift(Shift(Shift(r))))
      && Shifted(SEED, n + 5) == Shift(Shift(Shift(Shift(Shift(r)))))
      && Shifted(SEED, n + 6) == Shift(Shift(Shift(Shift(Shift(Shift(r))))))
  {
    var r := Shifted(SEED, n);
    assert Shifted(SEED, n + 1) == Shift(r);
    assert Shifted(SEED, n + 2) == Shift(Shift(r));
    assert Shifted(SEED, n + 3) == Shift(Shift(Shift(r)));
    assert Shifted(SEED, n + 4) == Shift(Shift(Shift(Shift(r))));
    assert Shifted(SEED, n + 5) == Shift(Shift(Shift(Shift(Shift(r)))));
  }

  lemma SevenShifts(n: nat)
    ensures Shifted(SEED, n + 7) == Shift7(Shifted(SEED, n))
  {
    SixShifts(n);
  }

  /** The register at the start of each round. */
  const O := false
  const I := true

  function RegisterAt(round: nat): Register {
    if round == 0 then Register(I, O, O, O, O, O, O, O)
    else if round == 1 then Register(O, O, O, O, O, O, O, I)
    else if round == 2 then Register(O, O, O, I, I, O, I, I)
    else if round == 3 then Register(O, I, O, I, I, O, O, O)
    else if round == 4 then Register(I, I, I, I, I, O, I, I)
    else if round == 5 then Register(I, O, O, I, O, O, O, O)
    else if round == 6 then Register(I, O, I, O, I, I, O, O)
    else if round == 7 then Register(I, I, I, I, O, O, I, O)
    else if round == 8 then Register(O, I, O, I, O, O, I, I)
    else if round == 9 then Register(O, O, O, O, I, I, I, O)
    else if round == 10 then Register(I, O, O, O, O, O, I, O)
    else if round == 11 then Register(O, O, I, I, O, I, I, I)
    else if round == 12 then Register(I, O, I, O, I, O, I, I)
    else if round == 13 then Register(I, O, I, I, O, O, I, I)
    else if round == 14 then Register(I, I, O, O, O, I, I, O)
    else if round == 15 then Register(I, I, O, I, O, I, O, I)
    else if round == 16 then Register(O, I, O, I, O, I, O, I)
    else if round == 17 then Register(O, I, O, I, O, I, O, O)
    else if round == 18 then Register(O, I, O, O, I, I, I, I)
    else if round == 19 then Register(O, O, O, I, O, I, I, I)
    else if round == 20 then Register(I, I, I, O, I, I, O, O)
    else if round == 21 then Register(O, I, I, I, I, I, O, O)
    else if round == 22 then Register(I, I, O, I, O, O, O, O)
    else Register(O, O, I, O, O, O, I, O)
  }

  lemma RegisterChainA(i: nat)
    requires 0 <= i < 6
    ensures Shift7(RegisterAt(i)) == RegisterAt(i + 1)
  {
    if i == 0 { assert Shift7(RegisterAt(0)) == RegisterAt(1); }
    else if i == 1 { assert Shift7(RegisterAt(1)) == RegisterAt(2); }
    else if i == 2 { assert Shift7(RegisterAt(2)) == RegisterAt(3); }
    else if i == 3 { assert Shift7(RegisterAt(3)) == RegisterAt(4); }
    else if i == 4 { assert Shift7(RegisterAt(4)) == RegisterAt(5); }
    else if i == 5 { assert Shift7(RegisterAt(5)) == RegisterAt(6); }
  }

  lemma RegisterChainB(i: nat)
    requires 6 <= i < 12
    ensures Shift7(RegisterAt(i)) == RegisterAt(i + 1)
  {
    if i == 6 { assert Shift7(RegisterAt(6)) == RegisterAt(7); }
    else if i == 7 { assert Shift7(RegisterAt(7)) == RegisterAt(8); }
    else if i == 8 { assert Shift7(RegisterAt(8)) == RegisterAt(9); }
    else if i == 9 { assert Shift7(RegisterAt(9)) == RegisterAt(10); }
    else if i == 10 { assert Shift7(RegisterAt(10)) == RegisterAt(11); }
    else if i == 11 { assert Shift7(RegisterAt(11)) == RegisterAt(12); }
  }

  lemma RegisterChainC(i: nat)
    requires 12 <= i < 18
    ensures Shift7(RegisterAt(i)) == RegisterAt(i + 1)
  {
    if i == 12 { assert Shift7(RegisterAt(12)) == RegisterAt(13); }
    else if i == 13 { assert Shift7(RegisterAt(13)) == RegisterAt(14); }
    else if i == 14 { assert Shift7(RegisterAt(14)) == RegisterAt(15); }
    else if i == 15 { assert Shift7(RegisterAt(15)) == RegisterAt(16); }
    else if i == 16 { assert Shift7(RegisterAt(16)) == RegisterAt(17); }
    else if i == 17 { assert Shift7(RegisterAt(17)) == RegisterAt(18); }
  }

  lemma RegisterChainD(i: nat)
    requires 18 <= i < 23
    ensures Shift7(RegisterAt(i)) == RegisterAt(i + 1)
  {
    if i == 18 { assert Shift7(RegisterAt(18)) == RegisterAt(19); }
    else if i == 19 { assert Shift7(RegisterAt(19)) == RegisterAt(20); }
    else if i == 20 { assert Shift7(RegisterAt(20)) == RegisterAt(21); }
    else if i == 21 { assert Shift7(RegisterAt(21)) == RegisterAt(22); }
    else if i == 22 { assert Shift7(RegisterAt(22)) == RegisterAt(23); }
  }

  lemma RegisterConstant(i: nat)
    requires i < 24
    ensures ConstantFrom(RegisterAt(i)) == ROUND_CONSTANTS[i]
  {
  }

  lemma {:induction false} Iterated(table: nat -> Register, n: nat)
    requires n < 24 && table(0) == SEED
    requires forall i {:trigger Shift7(table(i))} | 0 <= i < 23 :: Shift7(table(i)) == table(i + 1)
    ensures Shifted(SEED, 7 * n) == table(n)
  {
    if n > 0 {
      Iterated(table, n - 1);
      SevenShifts(7 * (n - 1));
      assert Shift7(table(n - 1)) == table(n);
    }
  }

  lemma RegisterIs(round: nat)
    requires round < 24
    ensures Shifted(SEED, 7 * round) == RegisterAt(round)
  {
    forall i: nat | i < 23 ensures Shift7(RegisterAt(i)) == RegisterAt(i + 1) {
      if i < 6 { RegisterChainA(i); }
      else if i < 12 { RegisterChainB(i); }
      else if i < 18 { RegisterChainC(i); }
      else { RegisterChainD(i); }
    }
    Iterated(RegisterAt, round);
  }

  function ConstantLane(round: nat): Lane { seq(64, z requires 0 <= z < 64 => RoundConstantBit(round, z)) }

  lemma RcIs(t: nat)
    requires t < 255
    ensures Rc(t) == Shifted(SEED, t).r0
  {
    assert t % 255 == t;
  }

  lemma RcFrom(round: nat, r: Register)
    requires round < 24 && Shifted(SEED, 7 * round) == r
    ensures SparseValue(Rc(7 * round), Rc(1 + 7 * round), Rc(2 + 7 * round), Rc(3 + 7 * round),
                        Rc(4 + 7 * round), Rc(5 + 7 * round), Rc(6 + 7 * round)) == ConstantFrom(r)
  {
    var t := 7 * round;
    SixShifts(t);
    Outputs(r);
    RcIs(t);
    RcIs(t + 1);
    RcIs(t + 2);
    RcIs(t + 3);
    RcIs(t + 4);
    RcIs(t + 5);
    RcIs(t + 6);
  }

  lemma ConstantLaneBits(round: nat)
    ensures var k := ConstantLane(round);
      && Sparse(k)
      && k[0] == Rc(7 * round) && k[1] == Rc(1 + 7 * round) && k[3] == Rc(2 + 7 * round)
      && k[7] == Rc(3 + 7 * round) && k[15] == Rc(4 + 7 * round) && k[31] == Rc(5 + 7 * round)
      && k[63] == Rc(6 + 7 * round)
  {
  }

  lemma ConstantLaneIs(round: nat, n: nat)
    requires SparseValue(Rc(7 * round), Rc(1 + 7 * round), Rc(2 + 7 * round), Rc(3 + 7 * round),
                         Rc(4 + 7 * round), Rc(5 + 7 * round), Rc(6 + 7 * round)) == n
    ensures LaneOf(n) == ConstantLane(round)
  {
    ConstantLaneBits(round);
    SparseIs(ConstantLane(round));
  }

  /** The table of round constants holds the output of the shift register. */
  lemma RoundConstantIs(round: nat)
    requires round < 24
    ensures LaneOf(ROUND_CONSTANTS[round]) == ConstantLane(round)
  {
    RegisterIs(round);
    RcFrom(round, RegisterAt(round));
    RegisterConstant(round);
    ConstantLaneIs(round, ROUND_CONSTANTS[round]);
  }
}

module Keccak {
  import opened KeccakSpec
  import opened KeccakTables

  // ------------------------------------------------------- operations on words

  function XorLane(a: Lane, b: Lane): Lane { seq(64, z requires 0 <= z < 64 => Xor(a[z], b[z])) }

  function AndLane(a: Lane, b: Lane): Lane { seq(64, z requires 0 <= z < 64 => a[z] && b[z]) }

  function NotLane(a: Lane): Lane { seq(64, z requires 0 <= z < 64 => !a[z]) }

  /** bits.RotateLeft64 */
  function RotateLeft(a: Lane, k: nat): Lane { seq(64, z requires 0 <= z < 64 => a[(z - k) % 64]) }

  // ------------------------------------------------- the steps, word by word

  function Column(a: State, x: nat): Lane
    requires x < 5
  {
    XorLane(XorLane(XorLane(XorLane(a[x], a[x + 5]), a[x + 10]), a[x + 15]), a[x + 20])
  }

  function ThetaWord(a: State, x: nat): Lane
    requires x < 5
  {
    XorLane(Column(a, (x + 4) % 5), RotateLeft(Column(a, (x + 1) % 5), 1))
  }

  function ThetaWords(a: State): State {
    seq(25, i requires 0 <= i < 25 => XorLane(a[i], ThetaWord(a, i % 5)))
  }

  /** Where the word x + 5y goes under rho and pi, and where the word at i comes from. */
  function PiTarget(x: nat, y: nat): nat { y + 5 * ((2 * x + 3 * y) % 5) }

  function SourceX(i: nat): nat { (i % 5 + 3 * (i / 5)) % 5 }

  function Source(i: nat): nat { Ix(SourceX(i), i % 5) }

  function RhoPiWords(a: State): State {
    seq(25, i requires 0 <= i < 25 => RotateLeft(a[Source(i)], ROTATION[Source(i)]))
  }

  function ChiWord(b: State, x: nat, y: nat): Lane
    requires x < 5 && y < 5
  {
    XorLane(b[Ix(x, y)], AndLane(NotLane(b[Ix((x + 1) % 5, y)]), b[Ix((x + 2) % 5, y)]))
  }

  function ChiWords(b: State): State { seq(25, i requires 0 <= i < 25 => ChiWord(b, i % 5, i / 5)) }

  // -------------------------------------------------- agreement with the bits

  lemma ColumnBits(a: State, x: nat, z: nat)
    requires x < 5 && z < 64
    ensures Column(a, x)[z] == ThetaC(a, x, z)
  {
  }

  lemma ThetaBits(a: State, x: nat, z: nat)
    requires x < 5 && z < 64
    ensures ThetaWord(a, x)[z] == ThetaD(a, x, z)
  {
    assert (x + 4) % 5 == (x - 1) % 5;
    ColumnBits(a, (x + 4) % 5, z);
    ColumnBits(a, (x + 1) % 5, (z - 1) % 64);
  }

  /** States agree when their lanes do. */
  lemma LaneByLane(a: State, b: State)
    requires forall x: nat, y: nat {:trigger Ix(x, y)} | x < 5 && y < 5 :: a[Ix(x, y)] == b[Ix(x, y)]
    ensures a == b
  {
    forall i: nat | i < 25 ensures a[i] == b[i] { SplitIndex(i); }
  }

  lemma SplitIndex(i: nat)
    requires i < 25
    ensures i % 5 < 5 && i / 5 < 5 && i == Ix(i % 5, i / 5)
  {
  }

  lemma JoinIndex(x: nat, y: nat)
    requires x < 5 && y < 5
    ensures Ix(x, y) < 25 && Ix(x, y) % 5 == x && Ix(x, y) / 5 == y
  {
  }

  lemma ThetaLaneAgrees(a: State, x: nat, y: nat)
    requires x < 5 && y < 5
    ensures XorLane(a[Ix(x, y)], ThetaWord(a, x)) == ThetaLane(a, x, y)
  {
    forall z | 0 <= z < 64 ensures XorLane(a[Ix(x, y)], ThetaWord(a, x))[z] == ThetaLane(a, x, y)[z] {
      ThetaBits(a, x, z);
    }
  }

  lemma ThetaAgrees(a: State)
    ensures ThetaWords(a) == Theta(a)
  {
    forall x: nat, y: nat | x < 5 && y < 5 ensures ThetaWords(a)[Ix(x, y)] == Theta(a)[Ix(x, y)] {
      JoinIndex(x, y);
      ThetaLaneAgrees(a, x, y);
    }
    LaneByLane(ThetaWords(a), Theta(a));
  }

  lemma ModuloWord(z: int, k: int)
    ensures (z - k) % 64 == (z - k % 64) % 64
  {
    var q := k / 64;
    assert z - k % 64 == z - k + 64 * q;
  }

  lemma RotateModulo(l: Lane, k: nat, offset: int)
    requires offset % 64 == k
    ensures RotateLeft(l, k) == Moved(l, offset)
  {
    forall z: nat | z < 64 ensures RotateLeft(l, k)[z] == Moved(l, offset)[z] {
      ModuloWord(z, offset);
    }
  }

  lemma RhoLaneAgrees(a: State, x: nat, y: nat)
    requires x < 5 && y < 5
    ensures RotateLeft(a[Ix(x, y)], ROTATION[Ix(x, y)]) == RhoLane(a, x, y)
  {
    JoinIndex(x, y);
    RotationIsOffset(Ix(x, y));
    RotateModulo(a[Ix(x, y)], ROTATION[Ix(x, y)], RhoOffset(x, y));
  }

  lemma LaneOfRho(a: State, x: nat, y: nat)
    requires x < 5 && y < 5
    ensures Rho(a)[Ix(x, y)] == RotateLeft(a[Ix(x, y)], ROTATION[Ix(x, y)])
  {
    JoinIndex(x, y);
    RhoLaneAgrees(a, x, y);
  }

  lemma LaneOfPi(a: State, x: nat, y: nat)
    requires x < 5 && y < 5
    ensures Pi(a)[Ix(x, y)] == a[Ix((x + 3 * y) % 5, x)]
  {
    JoinIndex(x, y);
    assert PiLane(a, x, y) == a[Ix((x + 3 * y) % 5, x)];
  }

  lemma LaneOfRhoPiWords(a: State, x: nat, y: nat)
    requires x < 5 && y < 5
    ensures var i := Ix((x + 3 * y) % 5, x); RhoPiWords(a)[Ix(x, y)] == RotateLeft(a[i], ROTATION[i])
  {
    JoinIndex(x, y);
    SourceAt(Ix(x, y), x, y);
    WordAtSource(a, Ix(x, y), Ix((x + 3 * y) % 5, x));
  }

  lemma SourceAt(i: nat, x: nat, y: nat)
    requires i % 5 == x && i / 5 == y
    ensures Source(i) == Ix((x + 3 * y) % 5, x)
  {
  }

  lemma WordAtSource(a: State, i: nat, s: nat)
    requires i < 25 && Source(i) == s && s < 25
    ensures RhoPiWords(a)[i] == RotateLeft(a[s], ROTATION[s])
  {
  }

  /** The rotate-and-permute step in one is rho followed by pi. */
  lemma RhoPiAgrees(a: State)
    ensures RhoPiWords(a) == Pi(Rho(a))
  {
    var p, q := RhoPiWords(a), Pi(Rho(a));
    forall x: nat, y: nat | x < 5 && y < 5 ensures p[Ix(x, y)] == q[Ix(x, y)] {
      LaneOfRhoPiWords(a, x, y);
      LaneOfPi(Rho(a), x, y);
      LaneOfRho(a, (x + 3 * y) % 5, x);
    }
    LaneByLane(p, q);
  }

  lemma ChiLaneAgrees(b: State, x: nat, y: nat)
    requires x < 5 && y < 5
    ensures ChiWord(b, x, y) == ChiLane(b, x, y)
  {
  }

  lemma ChiAgrees(b: State)
    ensures ChiWords(b) == Chi(b)
  {
    forall x: nat, y: nat | x < 5 && y < 5 ensures ChiWords(b)[Ix(x, y)] == Chi(b)[Ix(x, y)] {
      JoinIndex(x, y);
      ChiLaneAgrees(b, x, y);
    }
    LaneByLane(ChiWords(b), Chi(b));
  }

  lemma IotaAgrees(a: State, round: nat)
    requires round < 24
    ensures a[0 := XorLane(a[0], LaneOf(ROUND_CONSTANTS[round]))] == Iota(a, round)
  {
    RoundConstantIs(round);
    assert XorLane(a[0], ConstantLane(round)) == Iota(a, round)[0];
  }

  // ----------------------------------------------------- the loops, in place

  /** The pairs (p, q) that a loop over x and y, at (x, y), has already visited. */
  predicate Visited(p: nat, q: nat, x: nat, y: nat) { p < x || (p == x && q < y) }

  /** The first two loops of theta. */
  method ColumnSums(a: array<Lane>) returns (d: array<Lane>)
    requires a.Length == 25
    ensures fresh(d) && d.Length == 5 && forall k: nat | k < 5 :: d[k] == ThetaWord(a[..], k)
  {
    ghost var was: State := a[..];
    var c := new Lane[5];
    for x := 0 to 5
      invariant forall k | 0 <= k < x :: c[k] == Column(was, k)
    {
      c[x] := XorLane(XorLane(XorLane(XorLane(a[x], a[x + 5]), a[x + 10]), a[x + 15]), a[x + 20]);
    }
    d := new Lane[5];
    for x := 0 to 5
      invariant forall k | 0 <= k < 5 :: c[k] == Column(was, k)
      invariant forall k | 0 <= k < x :: d[k] == ThetaWord(was, k)
    {
      d[x] := XorLane(c[(x + 4) % 5], RotateLeft(c[(x + 1) % 5], 1));
    }
  }

  method ThetaInPlace(a: array<Lane>)
    requires a.Length == 25
    modifies a
    ensures a[..] == ThetaWords(old(a[..]))
  {
    ghost var was: State := a[..];
    var d := ColumnSums(a);
    AddToColumns(a, d);
    forall i: nat | i < 25 ensures a[i] == ThetaWords(was)[i] { SplitIndex(i); }
  }

  /** The third loop of theta. */
  method AddToColumns(a: array<Lane>, d: array<Lane>)
    requires a.Length == 25 && d.Length == 5 && a != d
    modifies a
    ensures forall p: nat, q: nat {:trigger Ix(p, q)} | p < 5 && q < 5 ::
              a[Ix(p, q)] == XorLane(old(a[Ix(p, q)]), d[p])
  {
    for x := 0 to 5
      invariant forall p: nat, q: nat {:trigger Ix(p, q)} | p < 5 && q < 5 ::
        a[Ix(p, q)] == if p < x then XorLane(old(a[Ix(p, q)]), d[p]) else old(a[Ix(p, q)])
    {
      for y := 0 to 5
        invariant forall p: nat, q: nat {:trigger Ix(p, q)} | p < 5 && q < 5 ::
          a[Ix(p, q)] == if Visited(p, q, x, y) then XorLane(old(a[Ix(p, q)]), d[p]) else old(a[Ix(p, q)])
      {
        assert Ix(x, y) == x + 5 * y;
        a[x + 5 * y] := XorLane(a[x + 5 * y], d[x]);
      }
    }
  }

  lemma DivMod(r: nat, q: int)
    requires r < 5
    ensures (r + 5 * q) % 5 == r && (r + 5 * q) / 5 == q
  {
  }

  lemma TargetOfSource(i: nat)
    requires i < 25
    ensures PiTarget(SourceX(i), i % 5) == i
  {
    var x, y := i % 5, i / 5;
    var p := (x + 3 * y) / 5;
    assert 2 * SourceX(i) + 3 * x == y + 5 * (x + y - 2 * p);
    DivMod(y, x + y - 2 * p);
  }

  lemma SourceOfTarget(x: nat, y: nat)
    requires x < 5 && y < 5
    ensures SourceX(PiTarget(x, y)) == x && PiTarget(x, y) % 5 == y
  {
    var w, q := (2 * x + 3 * y) % 5, (2 * x + 3 * y) / 5;
    DivMod(y, w);
    assert y + 3 * w == x + 5 * (x + 2 * y - 3 * q);
    DivMod(x, x + 2 * y - 3 * q);
  }

  lemma PiInjective(p: nat, q: nat, x: nat, y: nat)
    requires p < 5 && q < 5 && x < 5 && y < 5 && (p != x || q != y)
    ensures PiTarget(p, q) != PiTarget(x, y)
  {
    SourceOfTarget(p, q);
    SourceOfTarget(x, y);
  }

  /** The words placed so far, one loop position at a time. */
  ghost predicate Placed(was: State, b: seq<Lane>, x: nat, y: nat)
    requires |b| == 25
  {
    forall p: nat, q: nat {:trigger PiTarget(p, q)} | p < 5 && q < 5 && Visited(p, q, x, y) ::
      b[PiTarget(p, q)] == RotateLeft(was[Ix(p, q)], ROTATION[Ix(p, q)])
  }

  lemma PlaceOne(was: State, b: seq<Lane>, x: nat, y: nat)
    requires |b| == 25 && x < 5 && y < 5 && Placed(was, b, x, y)
    ensures Placed(was, b[PiTarget(x, y) := RotateLeft(was[Ix(x, y)], ROTATION[Ix(x, y)])], x, y + 1)
  {
    var word := RotateLeft(was[Ix(x, y)], ROTATION[Ix(x, y)]);
    var next := b[PiTarget(x, y) := word];
    forall p: nat, q: nat | p < 5 && q < 5 && Visited(p, q, x, y + 1)
      ensures next[PiTarget(p, q)] == RotateLeft(was[Ix(p, q)], ROTATION[Ix(p, q)])
    {
      if p == x && q == y {
        assert next[PiTarget(p, q)] == word;
      } else {
        PiInjective(p, q, x, y);
      }
    }
  }

  lemma TargetInRange(x: nat, y: nat)
    requires x < 5 && y < 5
    ensures PiTarget(x, y) == y + 5 * ((2 * x + 3 * y) % 5) < 25
  {
  }

  lemma PlacedAll(was: State, b: State)
    requires Placed(was, b, 5, 0)
    ensures b == RhoPiWords(was)
  {
    forall i: nat | i < 25 ensures b[i] == RhoPiWords(was)[i] {
      TargetOfSource(i);
      assert Visited(SourceX(i), i % 5, 5, 0);
    }
  }

  method RhoPi(a: array<Lane>) returns (b: array<Lane>)
    requires a.Length == 25
    ensures fresh(b) && b.Length == 25 && b[..] == RhoPiWords(a[..])
  {
    ghost var was: State := a[..];
    b := new Lane[25];
    for x := 0 to 5
      invariant Placed(was, b[..], x, 0)
    {
      for y := 0 to 5
        invariant Placed(was, b[..], x, y)
      {
        TargetInRange(x, y);
        PlaceOne(was, b[..], x, y);
        b[y + 5 * ((2 * x + 3 * y) % 5)] := RotateLeft(a[x + 5 * y], ROTATION[x + 5 * y]);
      }
      NextColumn(was, b[..], x);
    }
    PlacedAll(was, b[..]);
  }

  lemma NextColumn(was: State, b: seq<Lane>, x: nat)
    requires |b| == 25 && Placed(was, b, x, 5)
    ensures Placed(was, b, x + 1, 0)
  {
  }

  ghost predicate Mixed(b: State, a: seq<Lane>, x: nat, y: nat)
    requires |a| == 25
  {
    forall p: nat, q: nat {:trigger Ix(p, q)} | p < 5 && q < 5 && Visited(p, q, x, y) ::
      a[Ix(p, q)] == ChiWord(b, p, q)
  }

  lemma MixOne(b: State, a: seq<Lane>, x: nat, y: nat)
    requires |a| == 25 && x < 5 && y < 5 && Mixed(b, a, x, y)
    ensures Mixed(b, a[Ix(x, y) := ChiWord(b, x, y)], x, y + 1)
  {
    var word := ChiWord(b, x, y);
    var next := a[Ix(x, y) := word];
    forall p: nat, q: nat | p < 5 && q < 5 && Visited(p, q, x, y + 1) ensures next[Ix(p, q)] == ChiWord(b, p, q) {
      if p == x && q == y {
        assert next[Ix(p, q)] == word;
      } else {
        DistinctPlaces(p, q, x, y);
      }
    }
  }

  lemma DistinctPlaces(p: nat, q: nat, x: nat, y: nat)
    requires p < 5 && q < 5 && x < 5 && y < 5 && (p != x || q != y)
    ensures Ix(p, q) != Ix(x, y)
  {
  }

  lemma MixedColumn(b: State, a: seq<Lane>, x: nat)
    requires |a| == 25 && Mixed(b, a, x, 5)
    ensures Mixed(b, a, x + 1, 0)
  {
  }

  lemma MixedAll(b: State, a: State)
    requires Mixed(b, a, 5, 0)
    ensures a == ChiWords(b)
  {
    forall i: nat | i < 25 ensures a[i] == ChiWords(b)[i] {
      SplitIndex(i);
      assert Visited(i % 5, i / 5, 5, 0);
    }
  }

  method ChiFrom(a: array<Lane>, b: array<Lane>)
    requires a.Length == 25 && b.Length == 25 && a != b
    modifies a
    ensures a[..] == ChiWords(b[..])
  {
    for x := 0 to 5
      invariant Mixed(b[..], a[..], x, 0)
    {
      for y := 0 to 5
        invariant Mixed(b[..], a[..], x, y)
      {
        MixOne(b[..], a[..], x, y);
        a[x + 5 * y] :=
          XorLane(b[x + 5 * y], AndLane(NotLane(b[(x + 1) % 5 + 5 * y]), b[(x + 2) % 5 + 5 * y]));
      }
      MixedColumn(b[..], a[..], x);
    }
    MixedAll(b[..], a[..]);
  }

  /** keccakF1600 computes the permutation of FIPS 202 in place. */
  method KeccakF1600(a: array<Lane>)
    requires a.Length == 25
    modifies a
    ensures a[..] == KeccakF(old(a[..]))
  {
    for round := 0 to 24
      invariant a[..] == Rounds(old(a[..]), round)
    {
      ghost var was: State := a[..];
      ThetaInPlace(a);
      ThetaAgrees(was);
      var b := RhoPi(a);
      RhoPiAgrees(Theta(was));
      ChiFrom(a, b);
      ChiAgrees(b[..]);
      IotaAgrees(a[..], round);
      a[0] := XorLane(a[0], LaneOf(ROUND_CONSTANTS[round]));
    }
  }
}
