/** SHA3-512 as FIPS 202 defines it, bit by bit. A state array is five sheets of five lanes,
    A[x][y][z] being the bit A[x, y, z] of section 3.1. */
module Fips202 {
  import opened Bits

  type Sheet = s: seq<Lane> | |s| == 5 witness seq(5, _ => Zeros(64))
  type StateArray = A: seq<Sheet> | |A| == 5 witness seq(5, _ => seq(5, _ => Zeros(64)))

  const STATE_BITS := 1600
  const RATE := 576       // 1600 - 2 * 512
  const DIGEST_BITS := 512
  const ROUNDS := 24

  // Coordinates within the 5 x 5 sheets and along a lane; all arithmetic on them is modular.
  type Coord = x: int | 0 <= x < 5
  type Depth = z: int | 0 <= z < 64

  function Back(z: Depth, n: nat): Depth {
    (z - n) % 64
  }

  function BuildSheet(f: (Coord, Coord, Depth) -> Bit, x: Coord): (sheet: Sheet)
    ensures forall y: Coord, z: Depth :: sheet[y][z] == f(x, y, z)
  {
    seq<Lane>(5, y requires 0 <= y < 5 => seq(64, z requires 0 <= z < 64 => f(x, y, z)))
  }

  function Build(f: (Coord, Coord, Depth) -> Bit): (A: StateArray)
    ensures forall x: Coord, y: Coord, z: Depth :: A[x][y][z] == f(x, y, z)
  {
    seq<Sheet>(5, x requires 0 <= x < 5 => BuildSheet(f, x))
  }

  // Section 3.2.1
  function ColumnParity(A: StateArray, x: Coord, z: Depth): Bit {
    A[x][0][z] != (A[x][1][z] != (A[x][2][z] != (A[x][3][z] != A[x][4][z])))
  }

  function Theta(A: StateArray): StateArray {
    Build((x: Coord, y: Coord, z: Depth) =>
      A[x][y][z] != (ColumnParity(A, (x - 1) % 5, z) != ColumnParity(A, (x + 1) % 5, Back(z, 1))))
  }

  // Section 3.2.2: OFFSETS[x][y] is table 2. Lemma OffsetsFollowTheWalk ties it to algorithm 2.
  const OFFSETS: seq<seq<nat>> := [
    [0, 36, 3, 105, 210],
    [1, 300, 10, 45, 66],
    [190, 6, 171, 15, 253],
    [28, 55, 153, 21, 120],
    [91, 276, 231, 136, 78]]

  function RhoOffset(x: Coord, y: Coord): nat {
    OFFSETS[x][y]
  }

  function RhoWalk(t: nat): (lane: (int, int)) {
    if t == 0 then (1, 0) else var (x, y) := RhoWalk(t - 1); (y, (2 * x + 3 * y) % 5)
  }

  predicate OffsetOnWalk(t: nat) {
    var (x, y) := RhoWalk(t);
    0 <= x < 5 && 0 <= y < 5 && 2 * RhoOffset(x, y) == (t + 1) * (t + 2)
  }

  function Rho(A: StateArray): StateArray {
    Build((x: Coord, y: Coord, z: Depth) => A[x][y][Back(z, RhoOffset(x, y))])
  }

  // Section 3.2.3
  function Pi(A: StateArray): StateArray {
    Build((x: Coord, y: Coord, z: Depth) => A[(x + 3 * y) % 5][x][z])
  }

  // Section 3.2.4
  function Chi(A: StateArray): StateArray {
    Build((x: Coord, y: Coord, z: Depth) => A[x][y][z] != (!A[(x + 1) % 5][y][z] && A[(x + 2) % 5][y][z]))
  }

  // Section 3.2.5, algorithm 5: the register R[0..7] is a byte whose bit i is R[i].
  function LfsrStep(r: bv8): bv8 {
    (r << 1) ^ (if r & 0x80 != 0 then 0x71 else 0)
  }

  function Lfsr(t: nat): bv8 {
    if t == 0 then 1 else LfsrStep(Lfsr(t - 1))
  }

  predicate Rc(t: nat) {
    Lfsr(t % 255) & 1 == 1
  }

  // Section 3.2.5, algorithm 6: RC[2^j - 1] = rc(j + 7 * ir) for j = 0..6, other bits 0.
  predicate RoundConstantBit(ir: nat, z: int) {
    || (z == 0 && Rc(7 * ir))
    || (z == 1 && Rc(7 * ir + 1))
    || (z == 3 && Rc(7 * ir + 2))
    || (z == 7 && Rc(7 * ir + 3))
    || (z == 15 && Rc(7 * ir + 4))
    || (z == 31 && Rc(7 * ir + 5))
    || (z == 63 && Rc(7 * ir + 6))
  }

  function Iota(A: StateArray, ir: nat): StateArray {
    Build((x: Coord, y: Coord, z: Depth) => A[x][y][z] != (x == 0 && y == 0 && RoundConstantBit(ir, z)))
  }

  // Section 3.3
  function Rnd(A: StateArray, ir: nat): StateArray {
    Iota(Chi(Pi(Rho(Theta(A)))), ir)
  }

  function Rounds(A: StateArray, n: nat): StateArray {
    if n == 0 then A else Rnd(Rounds(A, n - 1), n - 1)
  }

  // Sections 3.1.2 and 3.1.3
  function ToStateArray(S: Bits): StateArray
    requires |S| == STATE_BITS
  {
    Build((x: Coord, y: Coord, z: Depth) => S[64 * (5 * y + x) + z])
  }

  function Plane(A: StateArray, y: nat): (s: Bits)
    requires y < 5
    ensures |s| == 320
  {
    var lane0: Bits := A[0][y];
    lane0 + A[1][y] + A[2][y] + A[3][y] + A[4][y]
  }

  function ToString(A: StateArray): (S: Bits)
    ensures |S| == STATE_BITS
  {
    Plane(A, 0) + Plane(A, 1) + Plane(A, 2) + Plane(A, 3) + Plane(A, 4)
  }

  function KeccakF(S: Bits): (T: Bits)
    requires |S| == STATE_BITS
    ensures |T| == STATE_BITS
  {
    ToString(Rounds(ToStateArray(S), ROUNDS))
  }

  // Section 5.1
  function Pad101(x: nat, m: int): Bits
    requires x > 0
  {
    [true] + Zeros((-m - 2) % x) + [true]
  }

  // Section 4: step 6 for one block, then for every whole block of the string.
  function AbsorbBlock(S: Bits, block: Bits): (T: Bits)
    requires |S| == STATE_BITS && |block| == RATE
    ensures |T| == STATE_BITS
  {
    KeccakF(Xor(S, block + Zeros(STATE_BITS - RATE)))
  }

  function Absorb(S: Bits, P: Bits): (T: Bits)
    requires |S| == STATE_BITS
    ensures |T| == STATE_BITS
    decreases |P|
  {
    if |P| < RATE then S else Absorb(AbsorbBlock(S, P[..RATE]), P[RATE..])
  }

  // Section 6.1. The digest is shorter than the rate, so nothing is squeezed twice.
  function Sha3_512(M: Bits): (digest: Bits)
    ensures |digest| == DIGEST_BITS
  {
    var N := M + [false, true];
    Absorb(Zeros(STATE_BITS), N + Pad101(RATE, |N|))[..DIGEST_BITS]
  }
}
