/** The combinational round (`Project/round.v`) and the constant generator (`Project/rconst.v`),
    and the agreement of the first four steps with FIPS 202. The 1600-bit state is held as lanes,
    a[x][y] being bits [1599 - 64(5y + x) : 1536 - 64(5y + x)] of the register. */
module KeccakRound {
  import opened Bits
  import opened Fips202

  function XorLanes(a: Lane, b: Lane): Lane {
    Xor(a, b)
  }

  function Not(a: Lane): Lane {
    seq(64, i requires 0 <= i < 64 => !a[i])
  }

  function And(a: Lane, b: Lane): Lane {
    seq(64, i requires 0 <= i < 64 => a[i] && b[i])
  }

  // `rot_up`: {in[63-n:0], in[63:63-n+1]}
  function RotUp(a: Lane, n: nat): Lane
    requires n < 64
  {
    a[64 - n..] + a[..64 - n]
  }

  function Add1(x: Coord): Coord { if x == 4 then 0 else x + 1 }
  function Add2(x: Coord): Coord { if x == 3 then 0 else if x == 4 then 1 else x + 2 }
  function Sub1(x: Coord): Coord { if x == 0 then 4 else x - 1 }

  function Parity(a: StateArray, x: Coord): Lane {
    XorLanes(XorLanes(XorLanes(XorLanes(a[x][0], a[x][1]), a[x][2]), a[x][3]), a[x][4])
  }

  function ThetaSheet(a: StateArray, x: Coord): Sheet {
    seq<Lane>(5, y requires 0 <= y < 5 =>
      XorLanes(XorLanes(a[x][y], Parity(a, Sub1(x))), RotUp(Parity(a, Add1(x)), 1)))
  }

  function RoundTheta(a: StateArray): StateArray {
    seq<Sheet>(5, x requires 0 <= x < 5 => ThetaSheet(a, x))
  }

  // ROTATIONS[x][y]: how far rho rotates lane (x, y).
  const ROTATIONS: seq<seq<nat>> := [
    [0, 36, 3, 41, 18],
    [1, 44, 10, 45, 2],
    [62, 6, 43, 15, 61],
    [28, 55, 25, 21, 56],
    [27, 20, 39, 8, 14]]

  function Rotation(x: Coord, y: Coord): (n: nat)
    ensures n < 64
  {
    ROTATIONS[x][y]
  }

  function RoundRho(c: StateArray): StateArray {
    seq<Sheet>(5, x requires 0 <= x < 5 =>
      seq<Lane>(5, y requires 0 <= y < 5 => RotUp(c[x][y], Rotation(x, y))))
  }

  function RoundPi(d: StateArray): StateArray {
    [ [d[0][0], d[3][0], d[1][0], d[4][0], d[2][0]],
      [d[1][1], d[4][1], d[2][1], d[0][1], d[3][1]],
      [d[2][2], d[0][2], d[3][2], d[1][2], d[4][2]],
      [d[3][3], d[1][3], d[4][3], d[2][3], d[0][3]],
      [d[4][4], d[2][4], d[0][4], d[3][4], d[1][4]] ]
  }

  function ChiSheet(e: StateArray, x: Coord): Sheet {
    seq<Lane>(5, y requires 0 <= y < 5 => XorLanes(e[x][y], And(Not(e[Add1(x)][y]), e[Add2(x)][y])))
  }

  function RoundChi(e: StateArray): StateArray {
    seq<Sheet>(5, x requires 0 <= x < 5 => ChiSheet(e, x))
  }

  // Only bits 0, 1, 3, 7, 15, 31 and 63 of the constant are connected.
  function RoundIota(f: StateArray, roundConst: Lane): StateArray {
    var g00: Lane := seq(64, z requires 0 <= z < 64 =>
      if z in {0, 1, 3, 7, 15, 31, 63} then f[0][0][z] != roundConst[z] else f[0][0][z]);
    f[0 := f[0][0 := g00]]
  }

  function Round(a: StateArray, roundConst: Lane): StateArray {
    RoundIota(RoundChi(RoundPi(RoundRho(RoundTheta(a)))), roundConst)
  }

  // `rconst`
  function RConst(i: Bits): Lane
    requires |i| == 24
  {
    var b0 := i[0] || i[4] || i[5] || i[6] || i[7] || i[10] || i[12] || i[13] || i[14] || i[15] || i[20] || i[22];
    var b1 := i[1] || i[2] || i[4] || i[8] || i[11] || i[12] || i[13] || i[15] || i[16] || i[18] || i[19];
    var b3 := i[2] || i[4] || i[7] || i[8] || i[9] || i[10] || i[11] || i[12] || i[13] || i[14] || i[18] || i[19] || i[23];
    var b7 := i[1] || i[2] || i[4] || i[6] || i[8] || i[9] || i[12] || i[13] || i[14] || i[17] || i[20] || i[21];
    var b15 := i[1] || i[2] || i[3] || i[4] || i[6] || i[7] || i[10] || i[12] || i[14] || i[15] || i[16] || i[18] || i[20] || i[21] || i[23];
    var b31 := i[3] || i[5] || i[6] || i[10] || i[11] || i[12] || i[19] || i[20] || i[22] || i[23];
    var b63 := i[2] || i[3] || i[6] || i[7] || i[13] || i[14] || i[15] || i[16] || i[17] || i[19] || i[20] || i[21] || i[23];
    seq(64, z => (z == 0 && b0) || (z == 1 && b1) || (z == 3 && b3) || (z == 7 && b7) ||
                 (z == 15 && b15) || (z == 31 && b31) || (z == 63 && b63))
  }

  lemma SameState(a: StateArray, b: StateArray)
    requires forall x: Coord, y: Coord, z: Depth :: a[x][y][z] == b[x][y][z]
    ensures a == b
  {
    forall x: Coord
      ensures a[x] == b[x]
    {
      assert forall y: Coord :: a[x][y] == b[x][y];
    }
  }

  lemma Neighbours(x: Coord)
    ensures Sub1(x) == (x - 1) % 5 && Add1(x) == (x + 1) % 5 && Add2(x) == (x + 2) % 5
  {
  }

  lemma ThetaAgrees(a: StateArray)
    ensures RoundTheta(a) == Theta(a)
  {
    forall x: Coord, y: Coord, z: Depth
      ensures RoundTheta(a)[x][y][z] == Theta(a)[x][y][z]
    {
      Neighbours(x);
      RotUpBit(Parity(a, Add1(x)), 1, 1, z);
    }
    SameState(RoundTheta(a), Theta(a));
  }

  lemma WalkFirstHalf()
    ensures RhoWalk(0) == (1, 0) && RhoWalk(1) == (0, 2) && RhoWalk(2) == (2, 1) && RhoWalk(3) == (1, 2)
    ensures RhoWalk(4) == (2, 3) && RhoWalk(5) == (3, 3) && RhoWalk(6) == (3, 0) && RhoWalk(7) == (0, 1)
    ensures RhoWalk(8) == (1, 3) && RhoWalk(9) == (3, 1) && RhoWalk(10) == (1, 4) && RhoWalk(11) == (4, 4)
  {
  }

  lemma WalkSecondHalf()
    ensures RhoWalk(12) == (4, 0) && RhoWalk(13) == (0, 3) && RhoWalk(14) == (3, 4) && RhoWalk(15) == (4, 3)
    ensures RhoWalk(16) == (3, 2) && RhoWalk(17) == (2, 2) && RhoWalk(18) == (2, 0) && RhoWalk(19) == (0, 4)
    ensures RhoWalk(20) == (4, 2) && RhoWalk(21) == (2, 4) && RhoWalk(22) == (4, 1) && RhoWalk(23) == (1, 1)
  {
    WalkFirstHalf();
  }

  // Algorithm 2 of section 3.2.2 visits the 24 lanes other than (0, 0), with these offsets.
  lemma OffsetsFollowTheWalk(t: nat)
    requires t < 24
    ensures OffsetOnWalk(t)
  {
    WalkFirstHalf();
    WalkSecondHalf();
  }

  lemma RotationIsOffset(x: Coord, y: Coord)
    ensures (RhoOffset(x, y) - Rotation(x, y)) % 64 == 0
  {
  }

  lemma RotUpBit(a: Lane, n: nat, offset: nat, z: Depth)
    requires n < 64 && (offset - n) % 64 == 0
    ensures RotUp(a, n)[z] == a[Back(z, offset)]
  {
    assert Back(z, offset) == Back(z, n);
  }

  lemma RhoBit(c: StateArray, x: Coord, y: Coord, z: Depth)
    ensures RoundRho(c)[x][y][z] == Rho(c)[x][y][z]
  {
    RotationIsOffset(x, y);
    RotUpBit(c[x][y], Rotation(x, y), RhoOffset(x, y), z);
    assert RoundRho(c)[x][y] == RotUp(c[x][y], Rotation(x, y));
  }

  lemma RhoAgrees(c: StateArray)
    ensures RoundRho(c) == Rho(c)
  {
    forall x: Coord, y: Coord, z: Depth
      ensures RoundRho(c)[x][y][z] == Rho(c)[x][y][z]
    {
      RhoBit(c, x, y, z);
    }
    SameState(RoundRho(c), Rho(c));
  }

  lemma PiAgrees(d: StateArray)
    ensures RoundPi(d) == Pi(d)
  {
    forall x: Coord, y: Coord, z: Depth
      ensures RoundPi(d)[x][y][z] == Pi(d)[x][y][z]
    {
    }
    SameState(RoundPi(d), Pi(d));
  }

  lemma ChiAgrees(e: StateArray)
    ensures RoundChi(e) == Chi(e)
  {
    forall x: Coord, y: Coord, z: Depth
      ensures RoundChi(e)[x][y][z] == Chi(e)[x][y][z]
    {
      Neighbours(x);
    }
    SameState(RoundChi(e), Chi(e));
  }
}
