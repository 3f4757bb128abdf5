/** The status register of the simulated hart as a word (`isa_sim/riscv_isa.h`), and the bit
    operations that traps and returns perform on it (`isa_sim/riscv.cpp`). */
module IsaTraps {
  import opened IsaHart

  const SR_SIE: bv32 := 0x0002
  const SR_MIE: bv32 := 0x0008
  const SR_SPIE: bv32 := 0x0020
  const SR_MPIE: bv32 := 0x0080
  const SR_SPP: bv32 := 0x0100
  const SR_MPP: bv32 := 0x1800
  const SR_SUM: bv32 := 0x4_0000
  const SR_FIELDS: bv32 := 0x19AA

  // `m_csr_mpriv << SR_MPP_SHIFT` and `SR_GET_MPP`
  function MppBits(priv: Privilege): bv32 {
    if priv == 0 then 0 else if priv == 1 then 0x0800 else if priv == 2 then 0x1000 else 0x1800
  }

  function Mpp(msr: bv32): Privilege {
    var bits := msr & SR_MPP;
    if bits == 0 then 0 else if bits == 0x0800 then 1 else if bits == 0x1000 then 2 else 3
  }

  function View(msr: bv32): Status {
    Status(msr & SR_SIE != 0, msr & SR_MIE != 0, msr & SR_SPIE != 0, msr & SR_MPIE != 0, msr & SR_SPP != 0,
           Mpp(msr), Word(msr & !SR_FIELDS))
  }

  // The fields by their bits (figure 3.6 of the privileged specification v1.11).
  lemma ViewBits(msr: bv32)
    ensures
      var s := View(msr);
      && s.sie == (msr & 0x2 != 0) && s.mie == (msr & 0x8 != 0)
      && s.spie == (msr & 0x20 != 0) && s.mpie == (msr & 0x80 != 0) && s.spp == (msr & 0x100 != 0)
      && (s.mpp == 0 <==> msr & 0x1800 == 0) && (s.mpp == 1 <==> msr & 0x1800 == 0x800)
      && (s.mpp == 3 <==> msr & 0x1800 == 0x1800) && s.rest == Word(msr & 0xFFFF_E655)
  {
  }

  // The enable bit saved and cleared, and the previous privilege recorded.
  function SWord(msr: bv32, spie: bv32, spp: bv32): bv32 {
    ((((msr & !SR_SPIE) | spie) & !SR_SIE) & !SR_SPP) | spp
  }

  function MWord(msr: bv32, mpie: bv32, mpp: bv32): bv32 {
    ((((msr & !SR_MPIE) | mpie) & !SR_MIE) & !SR_MPP) | mpp
  }

  // The enable bit restored, and the previous privilege forgotten.
  function SretWord(msr: bv32, sie: bv32): bv32 {
    (((msr & !SR_SIE) | sie) | SR_SPIE) & !SR_SPP
  }

  function MretWord(msr: bv32, mie: bv32): bv32 {
    (((msr & !SR_MIE) | mie) | SR_MPIE) & !SR_MPP
  }

  function Flag(on: bool, bit: bv32): bv32 {
    if on then bit else 0
  }

  // Two words agree on the machine-level fields, or on the supervisor-level ones, and outside.
  predicate AgreeM(a: bv32, b: bv32) {
    a & SR_MIE == b & SR_MIE && a & SR_MPIE == b & SR_MPIE && a & SR_MPP == b & SR_MPP
  }

  predicate AgreeS(a: bv32, b: bv32) {
    a & SR_SIE == b & SR_SIE && a & SR_SPIE == b & SR_SPIE && a & SR_SPP == b & SR_SPP
  }

  predicate AgreeRest(a: bv32, b: bv32) {
    a & !SR_FIELDS == b & !SR_FIELDS
  }

  lemma SWordBits(msr: bv32, spie: bv32, spp: bv32, after: bv32)
    requires after == SWord(msr, spie, spp) && spie & !SR_SPIE == 0 && spp & !SR_SPP == 0
    ensures after & SR_SIE == 0 && after & SR_SPIE == spie && after & SR_SPP == spp
    ensures AgreeM(after, msr) && AgreeRest(after, msr)
  {
  }

  lemma MWordBits(msr: bv32, mpie: bv32, mpp: bv32, after: bv32)
    requires after == MWord(msr, mpie, mpp) && mpie & !SR_MPIE == 0 && mpp & !SR_MPP == 0
    ensures after & SR_MIE == 0 && after & SR_MPIE == mpie && after & SR_MPP == mpp
    ensures AgreeS(after, msr) && AgreeRest(after, msr)
  {
  }

  lemma SretWordBits(msr: bv32, sie: bv32, after: bv32)
    requires after == SretWord(msr, sie) && sie & !SR_SIE == 0
    ensures after & SR_SIE == sie && after & SR_SPIE == SR_SPIE && after & SR_SPP == 0
    ensures AgreeM(after, msr) && AgreeRest(after, msr)
  {
  }

  lemma MretWordBits(msr: bv32, mie: bv32, after: bv32)
    requires after == MretWord(msr, mie) && mie & !SR_MIE == 0
    ensures after & SR_MIE == mie && after & SR_MPIE == SR_MPIE && after & SR_MPP == 0
    ensures AgreeS(after, msr) && AgreeRest(after, msr)
  {
  }

  lemma FlagBits(on: bool, bit: bv32, word: bv32)
    requires bit != 0 && word == Flag(on, bit)
    ensures word & !bit == 0 && (word != 0) == on
  {
  }

  lemma MppRoundTrip(priv: Privilege)
    ensures MppBits(priv) & !SR_MPP == 0 && Mpp(MppBits(priv)) == priv
  {
  }

  lemma STrapView(msr: bv32, save: bool, spp: bool, after: bv32)
    requires after == SWord(msr, Flag(save, SR_SPIE), Flag(spp, SR_SPP))
    ensures View(after) == View(msr).(spie := save, sie := false, spp := spp)
  {
    FlagBits(save, SR_SPIE, Flag(save, SR_SPIE));
    FlagBits(spp, SR_SPP, Flag(spp, SR_SPP));
    SWordBits(msr, Flag(save, SR_SPIE), Flag(spp, SR_SPP), after);
  }

  lemma MTrapView(msr: bv32, save: bool, mpp: bv32, after: bv32)
    requires after == MWord(msr, Flag(save, SR_MPIE), mpp) && mpp & !SR_MPP == 0
    ensures View(after) == View(msr).(mpie := save, mie := false, mpp := Mpp(mpp))
  {
    FlagBits(save, SR_MPIE, Flag(save, SR_MPIE));
    MWordBits(msr, Flag(save, SR_MPIE), mpp, after);
    assert mpp & SR_MPP == mpp;
  }

  lemma SretView(msr: bv32, restore: bool, after: bv32)
    requires after == SretWord(msr, Flag(restore, SR_SIE))
    ensures View(after) == View(msr).(sie := restore, spie := true, spp := false)
  {
    FlagBits(restore, SR_SIE, Flag(restore, SR_SIE));
    SretWordBits(msr, Flag(restore, SR_SIE), after);
  }

  lemma MretView(msr: bv32, restore: bool, after: bv32)
    requires after == MretWord(msr, Flag(restore, SR_MIE))
    ensures View(after) == View(msr).(mie := restore, mpie := true, mpp := 0)
  {
    FlagBits(restore, SR_MIE, Flag(restore, SR_MIE));
    MretWordBits(msr, Flag(restore, SR_MIE), after);
  }

  // Clearing one field does not disturb the test of another.
  lemma TestAfterClear(msr: bv32)
    ensures (msr & !SR_SPIE) & SR_SIE == msr & SR_SIE && (msr & !SR_MPIE) & SR_MIE == msr & SR_MIE
    ensures (msr & !SR_SIE) & SR_SPIE == msr & SR_SPIE && (msr & !SR_MIE) & SR_MPIE == msr & SR_MPIE
  {
  }

  // The statements of `exception` on the status word; spp and mpp record the previous privilege.
  method SupervisorTrapWord(msr: bv32, spp: bv32) returns (s: bv32)
    ensures s == SWord(msr, Flag(msr & SR_SIE != 0, SR_SPIE), spp)
  {
    s := msr & !SR_SPIE;
    TestAfterClear(msr);
    s := s | Flag(s & SR_SIE != 0, SR_SPIE);
    s := s & !SR_SIE;
    s := s & !SR_SPP;
    s := s | spp;
  }

  method SupervisorTrapStatus(msr: bv32, spp: bool) returns (s: bv32)
    ensures View(s) == View(msr).(spie := View(msr).sie, sie := false, spp := spp)
  {
    s := SupervisorTrapWord(msr, Flag(spp, SR_SPP));
    STrapView(msr, msr & SR_SIE != 0, spp, s);
  }

  method MachineTrapWord(msr: bv32, mpp: bv32) returns (s: bv32)
    ensures s == MWord(msr, Flag(msr & SR_MIE != 0, SR_MPIE), mpp)
  {
    s := msr & !SR_MPIE;
    TestAfterClear(msr);
    s := s | Flag(s & SR_MIE != 0, SR_MPIE);
    s := s & !SR_MIE;
    s := s & !SR_MPP;
    s := s | mpp;
  }

  method MachineTrapStatus(msr: bv32, mpp: bv32) returns (s: bv32)
    requires mpp & !SR_MPP == 0
    ensures View(s) == View(msr).(mpie := View(msr).mie, mie := false, mpp := Mpp(mpp))
  {
    s := MachineTrapWord(msr, mpp);
    MTrapView(msr, msr & SR_MIE != 0, mpp, s);
  }

  // The statements of MRET and SRET.
  method MretStatusWord(msr: bv32) returns (s: bv32)
    ensures s == MretWord(msr, Flag(msr & SR_MPIE != 0, SR_MIE))
  {
    s := msr & !SR_MIE;
    TestAfterClear(msr);
    s := s | Flag(s & SR_MPIE != 0, SR_MIE);
    s := s | SR_MPIE;
    s := s & !SR_MPP;
  }

  method MretStatus(msr: bv32) returns (s: bv32)
    ensures View(s) == View(msr).(mie := View(msr).mpie, mpie := true, mpp := 0)
  {
    s := MretStatusWord(msr);
    MretView(msr, msr & SR_MPIE != 0, s);
  }

  method SretStatusWord(msr: bv32) returns (s: bv32)
    ensures s == SretWord(msr, Flag(msr & SR_SPIE != 0, SR_SIE))
  {
    s := msr & !SR_SIE;
    TestAfterClear(msr);
    s := s | Flag(s & SR_SPIE != 0, SR_SIE);
    s := s | SR_SPIE;
    s := s & !SR_SPP;
  }

  method SretStatus(msr: bv32) returns (s: bv32)
    ensures View(s) == View(msr).(sie := View(msr).spie, spie := true, spp := false)
  {
    s := SretStatusWord(msr);
    SretView(msr, msr & SR_SPIE != 0, s);
  }
}
