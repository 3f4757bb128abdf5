/** Which pending interrupt the simulated hart takes (`isa_sim/riscv.cpp`). */
module IsaInterrupts {
  import opened IsaHart
  import opened IsaTraps

  const IRQ_MASK: bv32 := 0x0AAA
  const IRQ_MIN: nat := 1
  const IRQ_MAX: nat := 12

  // `-m_enabled` and `-s_enabled`
  function Enabled(on: bool): bv32 {
    if on then 0xFFFF_FFFF else 0
  }

  predicate MEnabled(priv: Privilege, msr: bv32) {
    priv < 3 || (priv == 3 && msr & SR_MIE != 0)
  }

  predicate SEnabled(priv: Privilege, msr: bv32) {
    priv < 1 || (priv == 1 && msr & SR_SIE != 0)
  }

  function ForMachine(pending: bv32, mideleg: bv32, enabled: bool): bv32 {
    pending & !mideleg & Enabled(enabled)
  }

  function ForSupervisor(pending: bv32, mideleg: bv32, enabled: bool): bv32 {
    pending & mideleg & Enabled(enabled)
  }

  function Candidates(pending: bv32, mideleg: bv32, m: bool, s: bool): bv32 {
    var machine := ForMachine(pending, mideleg, m);
    if machine != 0 then machine else ForSupervisor(pending, mideleg, s)
  }

  // The first number from i on whose bit is set, IRQ_MAX if there is none.
  function FirstSet(bits: bv32, i: nat): (r: nat)
    requires i <= IRQ_MAX
    ensures i <= r <= IRQ_MAX
    decreases IRQ_MAX - i
  {
    if i == IRQ_MAX || bits & Bit(i) != 0 then i else FirstSet(bits, i + 1)
  }

  // The loop over the interrupt numbers.
  method Select(bits: bv32) returns (i: nat)
    ensures i == FirstSet(bits, IRQ_MIN)
  {
    i := IRQ_MIN;
    while i < IRQ_MAX
      invariant IRQ_MIN <= i <= IRQ_MAX && FirstSet(bits, i) == FirstSet(bits, IRQ_MIN)
    {
      if bits & Bit(i) != 0 {
        return;
      }
      i := i + 1;
    }
  }

  lemma {:induction false} FirstSetIsSet(bits: bv32, i: nat, r: nat)
    requires i <= IRQ_MAX && r == FirstSet(bits, i) && r < IRQ_MAX
    ensures bits & Bit(r) != 0
    decreases IRQ_MAX - i
  {
    if r > i {
      FirstSetIsSet(bits, i + 1, r);
    }
  }

  lemma {:induction false} FirstSetIsFirst(bits: bv32, i: nat, k: nat)
    requires i <= IRQ_MAX && i <= k < FirstSet(bits, i)
    ensures bits & Bit(k) == 0
    decreases IRQ_MAX - i
  {
    if i < k {
      FirstSetIsFirst(bits, i + 1, k);
    }
  }

  predicate Single(x: bv32) {
    x != 0 && x & (x - 1) == 0
  }

  lemma IrqBits(i: nat)
    requires IRQ_MIN <= i < IRQ_MAX
    ensures Single(Bit(i))
  {
    assert Bit(1) == 0x2 && Bit(2) == 0x4 && Bit(3) == 0x8;
    assert Bit(4) == 0x10 && Bit(5) == 0x20 && Bit(6) == 0x40;
    assert Bit(7) == 0x80 && Bit(8) == 0x100 && Bit(9) == 0x200;
    assert Bit(10) == 0x400 && Bit(11) == 0x800;
  }

  lemma MachineBit(pending: bv32, mideleg: bv32, enabled: bool, x: bv32, bits: bv32)
    requires Single(x) && bits == ForMachine(pending, mideleg, enabled)
    ensures bits & x != 0 <==> pending & x != 0 && mideleg & x == 0 && enabled
  {
  }

  lemma SupervisorBit(pending: bv32, mideleg: bv32, enabled: bool, x: bv32, bits: bv32)
    requires Single(x) && bits == ForSupervisor(pending, mideleg, enabled)
    ensures bits & x != 0 <==> pending & x != 0 && mideleg & x != 0 && enabled
  {
  }

  lemma SelectedBit(bits: bv32, i: nat, x: bv32)
    requires i == FirstSet(bits, IRQ_MIN) && i < IRQ_MAX && x == Bit(i)
    ensures Single(x) && bits & x != 0
  {
    IrqBits(i);
    FirstSetIsSet(bits, IRQ_MIN, i);
  }

  // The machine-level interrupt selected is pending, not delegated and enabled...
  lemma MachineSelected(pending: bv32, mideleg: bv32, enabled: bool, bits: bv32, i: nat, x: bv32)
    requires bits == ForMachine(pending, mideleg, enabled) && i == FirstSet(bits, IRQ_MIN) && i < IRQ_MAX && x == Bit(i)
    ensures pending & x != 0 && mideleg & x == 0 && enabled
  {
    SelectedBit(bits, i, x);
    MachineBit(pending, mideleg, enabled, x, bits);
  }

  // ...and no lower-numbered one is; so one is selected whenever there is one to take.
  lemma MachineSelectsFirst(pending: bv32, mideleg: bv32, enabled: bool, bits: bv32, i: nat)
    requires bits == ForMachine(pending, mideleg, enabled) && IRQ_MIN <= i < IRQ_MAX
    requires pending & Bit(i) != 0 && mideleg & Bit(i) == 0 && enabled
    ensures FirstSet(bits, IRQ_MIN) <= i
  {
    IrqBits(i);
    MachineBit(pending, mideleg, enabled, Bit(i), bits);
    if i < FirstSet(bits, IRQ_MIN) {
      FirstSetIsFirst(bits, IRQ_MIN, i);
    }
  }

  // The same at supervisor level, for the delegated ones.
  lemma SupervisorSelected(pending: bv32, mideleg: bv32, enabled: bool, bits: bv32, i: nat, x: bv32)
    requires bits == ForSupervisor(pending, mideleg, enabled) && i == FirstSet(bits, IRQ_MIN) && i < IRQ_MAX && x == Bit(i)
    ensures pending & x != 0 && mideleg & x != 0 && enabled
  {
    SelectedBit(bits, i, x);
    SupervisorBit(pending, mideleg, enabled, x, bits);
  }

  lemma SupervisorSelectsFirst(pending: bv32, mideleg: bv32, enabled: bool, bits: bv32, i: nat)
    requires bits == ForSupervisor(pending, mideleg, enabled) && IRQ_MIN <= i < IRQ_MAX
    requires pending & Bit(i) != 0 && mideleg & Bit(i) != 0 && enabled
    ensures FirstSet(bits, IRQ_MIN) <= i
  {
    IrqBits(i);
    SupervisorBit(pending, mideleg, enabled, Bit(i), bits);
    if i < FirstSet(bits, IRQ_MIN) {
      FirstSetIsFirst(bits, IRQ_MIN, i);
    }
  }

  lemma MaskedIsZero(bits: bv32)
    requires bits & !IRQ_MASK == 0
    requires bits & 0x2 == 0 && bits & 0x8 == 0 && bits & 0x20 == 0 && bits & 0x80 == 0 && bits & 0x200 == 0 && bits & 0x800 == 0
    ensures bits == 0
  {
  }

  lemma NoneSelected(bits: bv32, i: nat)
    requires FirstSet(bits, IRQ_MIN) == IRQ_MAX && IRQ_MIN <= i < IRQ_MAX
    ensures bits & Bit(i) == 0
  {
    FirstSetIsFirst(bits, IRQ_MIN, i);
  }

  lemma ArchitectedBits()
    ensures Bit(1) == 0x2 && Bit(3) == 0x8 && Bit(5) == 0x20 && Bit(7) == 0x80 && Bit(9) == 0x200 && Bit(11) == 0x800
  {
    assert Bit(1) == 0x2 && Bit(3) == 0x8;
    assert Bit(5) == 0x20 && Bit(7) == 0x80;
    assert Bit(9) == 0x200 && Bit(11) == 0x800;
  }

  // With only architected interrupts pending, machine level keeps the supervisor's waiting only
  // when it has one to take: a word in which none is selected is zero.
  lemma UnselectedIsZero(bits: bv32)
    requires bits & !IRQ_MASK == 0 && FirstSet(bits, IRQ_MIN) == IRQ_MAX
    ensures bits == 0
  {
    ArchitectedBits();
    NoneSelected(bits, 1);
    NoneSelected(bits, 3);
    NoneSelected(bits, 5);
    NoneSelected(bits, 7);
    NoneSelected(bits, 9);
    NoneSelected(bits, 11);
    MaskedIsZero(bits);
  }

  // A bit tested.
  predicate Has(bits: bv32, x: bv32) {
    bits & x != 0
  }

  // An interrupt that may be taken: pending, and enabled at the level that handles it, below which
  // it is always enabled and above which never. Bits 3 and 1 of the status register are MIE and SIE.
  predicate Takeable(pending: bv32, mideleg: bv32, priv: Privilege, msr: bv32, i: nat)
    requires i < IRQ_MAX
  {
    && Has(pending, Bit(i))
    && if Has(mideleg, Bit(i)) then priv == 0 || (priv == 1 && Has(msr, 0x2)) else priv < 3 || Has(msr, 0x8)
  }

  lemma LevelsEnabled(priv: Privilege, msr: bv32)
    ensures MEnabled(priv, msr) == (priv < 3 || Has(msr, 0x8))
    ensures SEnabled(priv, msr) == (priv == 0 || (priv == 1 && Has(msr, 0x2)))
  {
  }

  lemma MachineHas(pending: bv32, mideleg: bv32, enabled: bool, x: bv32, bits: bv32)
    requires Single(x) && bits == ForMachine(pending, mideleg, enabled)
    ensures Has(bits, x) <==> Has(pending, x) && !Has(mideleg, x) && enabled
  {
  }

  lemma SupervisorHas(pending: bv32, mideleg: bv32, enabled: bool, x: bv32, bits: bv32)
    requires Single(x) && bits == ForSupervisor(pending, mideleg, enabled)
    ensures Has(bits, x) <==> Has(pending, x) && Has(mideleg, x) && enabled
  {
  }

  lemma MachineCandidate(pending: bv32, mideleg: bv32, priv: Privilege, msr: bv32, i: nat)
    requires IRQ_MIN <= i < IRQ_MAX
    ensures Has(ForMachine(pending, mideleg, MEnabled(priv, msr)), Bit(i)) <==>
            Takeable(pending, mideleg, priv, msr, i) && !Has(mideleg, Bit(i))
  {
    hide ForMachine, Bit, Has, MEnabled, SEnabled, Single;
    IrqBits(i);
    LevelsEnabled(priv, msr);
    MachineHas(pending, mideleg, MEnabled(priv, msr), Bit(i), ForMachine(pending, mideleg, MEnabled(priv, msr)));
  }

  lemma SupervisorCandidate(pending: bv32, mideleg: bv32, priv: Privilege, msr: bv32, i: nat)
    requires IRQ_MIN <= i < IRQ_MAX
    ensures Has(ForSupervisor(pending, mideleg, SEnabled(priv, msr)), Bit(i)) <==>
            Takeable(pending, mideleg, priv, msr, i) && Has(mideleg, Bit(i))
  {
    hide ForSupervisor, Bit, Has, MEnabled, SEnabled, Single;
    IrqBits(i);
    LevelsEnabled(priv, msr);
    SupervisorHas(pending, mideleg, SEnabled(priv, msr), Bit(i), ForSupervisor(pending, mideleg, SEnabled(priv, msr)));
  }

  lemma ZeroHasNone(x: bv32)
    ensures !Has(0, x)
  {
  }

  lemma FirstHas(bits: bv32, n: nat, i: nat)
    requires n == FirstSet(bits, IRQ_MIN) && IRQ_MIN <= i < IRQ_MAX
    ensures n < IRQ_MAX ==> IRQ_MIN <= n && Has(bits, Bit(n))
    ensures i < n ==> !Has(bits, Bit(i))
  {
    if n < IRQ_MAX {
      FirstSetIsSet(bits, IRQ_MIN, n);
    }
    if i < n {
      FirstSetIsFirst(bits, IRQ_MIN, i);
    }
  }

  // The interrupt selected may be taken, precedes every other of its level that may, and is the
  // machine's if any of the machine's may.
  lemma SelectedFirst(pending: bv32, mideleg: bv32, priv: Privilege, msr: bv32, n: nat, i: nat)
    requires n == FirstSet(Candidates(pending, mideleg, MEnabled(priv, msr), SEnabled(priv, msr)), IRQ_MIN)
    requires n < IRQ_MAX && IRQ_MIN <= i < IRQ_MAX
    ensures Takeable(pending, mideleg, priv, msr, n)
    ensures Takeable(pending, mideleg, priv, msr, i) && !Has(mideleg, Bit(i)) ==> !Has(mideleg, Bit(n)) && n <= i
    ensures Takeable(pending, mideleg, priv, msr, i) && Has(mideleg, Bit(n)) ==> n <= i
  {
    hide ForMachine, ForSupervisor, Bit, Takeable, MEnabled, SEnabled, FirstSet, Has;
    var bits := Candidates(pending, mideleg, MEnabled(priv, msr), SEnabled(priv, msr));
    FirstHas(bits, n, i);
    MachineCandidate(pending, mideleg, priv, msr, n);
    MachineCandidate(pending, mideleg, priv, msr, i);
    SupervisorCandidate(pending, mideleg, priv, msr, n);
    SupervisorCandidate(pending, mideleg, priv, msr, i);
    ZeroHasNone(Bit(i));
  }

  // None is selected only when none may be taken (the simulator keeps other bits out of mie and mip).
  lemma NoneTakeable(pending: bv32, mideleg: bv32, priv: Privilege, msr: bv32, i: nat)
    requires FirstSet(Candidates(pending, mideleg, MEnabled(priv, msr), SEnabled(priv, msr)), IRQ_MIN) == IRQ_MAX
    requires pending & !0xAAA == 0 && IRQ_MIN <= i < IRQ_MAX
    ensures !Takeable(pending, mideleg, priv, msr, i)
  {
    hide ForMachine, ForSupervisor, Bit, Takeable, MEnabled, SEnabled, FirstSet, Has;
    CandidatesMasked(pending, mideleg, MEnabled(priv, msr), SEnabled(priv, msr));
    UnselectedIsZero(Candidates(pending, mideleg, MEnabled(priv, msr), SEnabled(priv, msr)));
    MachineCandidate(pending, mideleg, priv, msr, i);
    SupervisorCandidate(pending, mideleg, priv, msr, i);
    ZeroHasNone(Bit(i));
  }

  lemma CandidatesMasked(pending: bv32, mideleg: bv32, m: bool, s: bool)
    requires pending & !0xAAA == 0
    ensures Candidates(pending, mideleg, m, s) & !IRQ_MASK == 0
  {
  }
}
