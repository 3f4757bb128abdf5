/** The round constants of `Project/rconst.v` against the shift register of section 3.2.5
    of FIPS 202, and the whole round against section 3.3. */
module KeccakConstants {
  import opened Bits
  import opened Fips202
  import opened KeccakRound

  // The register of algorithm 5 when round n begins.
  function Register(n: nat): bv8
    requires n < 24
  {
    match n
    case 0 => 0x01
    case 1 => 0x80
    case 2 => 0xd8
    case 3 => 0x1a
    case 4 => 0xdf
    case 5 => 0x09
    case 6 => 0x35
    case 7 => 0x4f
    case 8 => 0xca
    case 9 => 0x70
    case 10 => 0x41
    case 11 => 0xec
    case 12 => 0xd5
    case 13 => 0xcd
    case 14 => 0x63
    case 15 => 0xab
    case 16 => 0xaa
    case 17 => 0x2a
    case 18 => 0xf2
    case 19 => 0xe8
    case 20 => 0x37
    case 21 => 0x3e
    case 22 => 0x0b
    case _ => 0x44
  }

  function Steps(r: bv8, j: nat): bv8 {
    if j == 0 then r else LfsrStep(Steps(r, j - 1))
  }

  lemma {:induction false} LfsrFrom(t: nat, j: nat)
    ensures Lfsr(t + j) == Steps(Lfsr(t), j)
  {
    if j > 0 {
      LfsrFrom(t, j - 1);
      assert t + j - 1 == t + (j - 1);
    }
  }

  lemma StepsUnrolled(r: bv8)
    ensures Steps(r, 0) == r && Steps(r, 1) == LfsrStep(r) && Steps(r, 2) == LfsrStep(LfsrStep(r))
    ensures Steps(r, 3) == LfsrStep(LfsrStep(LfsrStep(r)))
    ensures Steps(r, 4) == LfsrStep(LfsrStep(LfsrStep(LfsrStep(r))))
    ensures Steps(r, 5) == LfsrStep(LfsrStep(LfsrStep(LfsrStep(LfsrStep(r)))))
    ensures Steps(r, 6) == LfsrStep(LfsrStep(LfsrStep(LfsrStep(LfsrStep(LfsrStep(r))))))
    ensures Steps(r, 7) == LfsrStep(LfsrStep(LfsrStep(LfsrStep(LfsrStep(LfsrStep(LfsrStep(r)))))))
  {
    assert Steps(r, 4) == LfsrStep(Steps(r, 3));
    assert Steps(r, 6) == LfsrStep(Steps(r, 5));
  }

  lemma RegisterStep(n: nat)
    requires n < 23
    ensures Steps(Register(n), 7) == Register(n + 1)
  {
    StepsUnrolled(Register(n));
  }

  lemma NextRegister(n: nat, t: nat, r: bv8)
    requires n < 23 && r == Register(n) && Lfsr(t) == r
    ensures Lfsr(t + 7) == Register(n + 1)
  {
    RegisterStep(n);
    LfsrFrom(t, 7);
  }

  lemma {:induction false} RegisterAtRound(n: nat)
    requires n < 24
    ensures Lfsr(7 * n) == Register(n)
  {
    if n == 0 {
      assert Register(0) == 1;
    } else {
      RegisterAtRound(n - 1);
      NextRegister(n - 1, 7 * (n - 1), Register(n - 1));
      assert 7 * n == 7 * (n - 1) + 7;
    }
  }

  lemma Tap(n: nat, j: nat)
    requires n < 24 && j < 7
    ensures Rc(7 * n + j) <==> Steps(Register(n), j) & 1 == 1
  {
    RegisterAtRound(n);
    LfsrFrom(7 * n, j);
  }

  // The rounds whose constant has the bit of tap j, bit 2^j - 1 of the lane.
  predicate InRounds(j: nat, n: nat) {
    if j == 0 then n == 0 || n == 4 || n == 5 || n == 6 || n == 7 || n == 10 || n == 12 || n == 13 || n == 14 || n == 15 || n == 20 || n == 22
    else if j == 1 then n == 1 || n == 2 || n == 4 || n == 8 || n == 11 || n == 12 || n == 13 || n == 15 || n == 16 || n == 18 || n == 19
    else if j == 2 then n == 2 || n == 4 || n == 7 || n == 8 || n == 9 || n == 10 || n == 11 || n == 12 || n == 13 || n == 14 || n == 18 || n == 19 || n == 23
    else if j == 3 then n == 1 || n == 2 || n == 4 || n == 6 || n == 8 || n == 9 || n == 12 || n == 13 || n == 14 || n == 17 || n == 20 || n == 21
    else if j == 4 then n == 1 || n == 2 || n == 3 || n == 4 || n == 6 || n == 7 || n == 10 || n == 12 || n == 14 || n == 15 || n == 16 || n == 18 || n == 20 || n == 21 || n == 23
    else if j == 5 then n == 3 || n == 5 || n == 6 || n == 10 || n == 11 || n == 12 || n == 19 || n == 20 || n == 22 || n == 23
    else if j == 6 then n == 2 || n == 3 || n == 6 || n == 7 || n == 13 || n == 14 || n == 15 || n == 16 || n == 17 || n == 19 || n == 20 || n == 21 || n == 23
    else false
  }

  lemma Tap0(n: nat)
    requires n < 24
    ensures Rc(7 * n + 0) == InRounds(0, n)
  {
    StepsUnrolled(Register(n));
    Tap(n, 0);
  }

  lemma Wire0(n: nat)
    requires n < 24
    ensures RConst(OneHot(24, n))[0] == InRounds(0, n)
  {
  }

  lemma Tap1(n: nat)
    requires n < 24
    ensures Rc(7 * n + 1) == InRounds(1, n)
  {
    StepsUnrolled(Register(n));
    Tap(n, 1);
  }

  lemma Wire1(n: nat)
    requires n < 24
    ensures RConst(OneHot(24, n))[1] == InRounds(1, n)
  {
  }

  lemma Tap2(n: nat)
    requires n < 24
    ensures Rc(7 * n + 2) == InRounds(2, n)
  {
    StepsUnrolled(Register(n));
    Tap(n, 2);
  }

  lemma Wire2(n: nat)
    requires n < 24
    ensures RConst(OneHot(24, n))[3] == InRounds(2, n)
  {
  }

  lemma Tap3(n: nat)
    requires n < 24
    ensures Rc(7 * n + 3) == InRounds(3, n)
  {
    StepsUnrolled(Register(n));
    Tap(n, 3);
  }

  lemma Wire3(n: nat)
    requires n < 24
    ensures RConst(OneHot(24, n))[7] == InRounds(3, n)
  {
  }

  lemma Tap4(n: nat)
    requires n < 24
    ensures Rc(7 * n + 4) == InRounds(4, n)
  {
    StepsUnrolled(Register(n));
    Tap(n, 4);
  }

  lemma Wire4(n: nat)
    requires n < 24
    ensures RConst(OneHot(24, n))[15] == InRounds(4, n)
  {
  }

  lemma Tap5(n: nat)
    requires n < 24
    ensures Rc(7 * n + 5) == InRounds(5, n)
  {
    StepsUnrolled(Register(n));
    Tap(n, 5);
  }

  lemma Wire5(n: nat)
    requires n < 24
    ensures RConst(OneHot(24, n))[31] == InRounds(5, n)
  {
  }

  lemma Tap6(n: nat)
    requires n < 24
    ensures Rc(7 * n + 6) == InRounds(6, n)
  {
    StepsUnrolled(Register(n));
    Tap(n, 6);
  }

  lemma Wire6(n: nat)
    requires n < 24
    ensures RConst(OneHot(24, n))[63] == InRounds(6, n)
  {
  }

  // A one-hot index selects exactly the constant of algorithm 6.
  lemma ConstantAgrees(n: nat, z: Depth)
    requires n < 24
    ensures RConst(OneHot(24, n))[z] == RoundConstantBit(n, z)
  {
    Tap0(n);
    Wire0(n);
    Tap1(n);
    Wire1(n);
    Tap2(n);
    Wire2(n);
    Tap3(n);
    Wire3(n);
    Tap4(n);
    Wire4(n);
    Tap5(n);
    Wire5(n);
    Tap6(n);
    Wire6(n);
  }

  lemma IotaBit(f: StateArray, n: nat, c: Lane, x: Coord, y: Coord, z: Depth)
    requires c[z] == RoundConstantBit(n, z)
    ensures RoundIota(f, c)[x][y][z] == Iota(f, n)[x][y][z]
  {
  }

  lemma IotaAgrees(f: StateArray, n: nat)
    requires n < 24
    ensures RoundIota(f, RConst(OneHot(24, n))) == Iota(f, n)
  {
    var c := RConst(OneHot(24, n));
    forall x: Coord, y: Coord, z: Depth
      ensures RoundIota(f, c)[x][y][z] == Iota(f, n)[x][y][z]
    {
      ConstantAgrees(n, z);
      IotaBit(f, n, c, x, y, z);
    }
    SameState(RoundIota(f, c), Iota(f, n));
  }

  // The combinational round is the round function of section 3.3.
  lemma RoundAgrees(a: StateArray, n: nat)
    requires n < 24
    ensures Round(a, RConst(OneHot(24, n))) == Rnd(a, n)
  {
    ThetaAgrees(a);
    RhoAgrees(Theta(a));
    PiAgrees(Rho(Theta(a)));
    ChiAgrees(Pi(Rho(Theta(a))));
    IotaAgrees(Chi(Pi(Rho(Theta(a)))), n);
  }
}
