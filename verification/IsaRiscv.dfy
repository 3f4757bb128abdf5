/** The privileged part of the simulator class (`isa_sim/riscv.cpp`): translation, traps, returns and
    interrupts, on its registers. `error` and failed assertions end the simulation. */
module IsaRiscv {
  import opened IsaHart
  import opened IsaMmu
  import opened IsaTranslate
  import opened IsaTraps
  import opened IsaInterrupts

  class Riscv {
    var mpriv: Privilege
    var msr: Word
    var pc: Word
    var mepc: Word
    var mcause: Cause
    var mevec: Word
    var sepc: Word
    var scause: Cause
    var stval: Word
    var sevec: Word
    var medeleg: Word
    var mideleg: Word
    var mie: Word
    var mip: Word
    var satp: Word
    var memory: Physical
    var exited: bool

    // The memory is what the attached regions answer.
    constructor (start: Word, regions: Physical)
      ensures mpriv == 3 && msr == Word(0) && pc == start && memory == regions && !exited
    {
      mpriv, msr, pc, memory, exited := 3, Word(0), start, regions, false;
      mepc, mevec, sepc, stval, sevec := Word(0), Word(0), Word(0), Word(0), Word(0);
      mcause, scause := Cause(false, 0), Cause(false, 0);
      medeleg, mideleg, mie, mip, satp := Word(0), Word(0), Word(0), Word(0), Word(0);
    }

    ghost function Abs(): Hart
      reads this
    {
      Hart(mpriv, View(msr.bits), pc, mepc, mcause, mevec, sepc, scause, stval, sevec, medeleg, mideleg)
    }

    // The status words of `exception`.
    method SaveSupervisor()
      modifies this`msr
      ensures View(msr.bits) ==
              old(View(msr.bits)).(spie := old(View(msr.bits)).sie, sie := false, spp := mpriv == 1)
    {
      var s := SupervisorTrapStatus(msr.bits, mpriv == 1);
      msr := Word(s);
    }

    method SaveMachine()
      modifies this`msr
      ensures View(msr.bits) ==
              old(View(msr.bits)).(mpie := old(View(msr.bits)).mie, mie := false, mpp := mpriv)
    {
      MppRoundTrip(mpriv);
      var s := MachineTrapStatus(msr.bits, MppBits(mpriv));
      msr := Word(s);
    }

    // `exception`
    method Exception(cause: Cause, at: Word, badaddr: Word)
      modifies this`mpriv, this`msr, this`pc, this`mepc, this`mcause, this`sepc, this`scause, this`stval
      ensures Abs() == old(Abs()).Trap(cause, at, badaddr)
    {
      var deleg := if cause.interrupt then mideleg else medeleg;
      if mpriv <= 1 && Listed(deleg, cause.code) {
        EnterSupervisor(cause, at, badaddr);
      } else {
        EnterMachine(cause, at);
      }
    }

    method EnterSupervisor(cause: Cause, at: Word, badaddr: Word)
      requires mpriv <= 1
      modifies this`mpriv, this`msr, this`pc, this`sepc, this`scause, this`stval
      ensures
        var was := old(View(msr.bits));
        && mpriv == 1 && View(msr.bits) == was.(spie := was.sie, sie := false, spp := old(mpriv) == 1)
        && sepc == at && scause == cause && stval == badaddr && pc == sevec
    {
      SaveSupervisor();
      mpriv, sepc, scause, stval, pc := 1, at, cause, badaddr, sevec;
    }

    method EnterMachine(cause: Cause, at: Word)
      modifies this`mpriv, this`msr, this`pc, this`mepc, this`mcause
      ensures
        var was := old(View(msr.bits));
        && mpriv == 3 && View(msr.bits) == was.(mpie := was.mie, mie := false, mpp := old(mpriv))
        && mepc == at && mcause == cause && pc == mevec
    {
      SaveMachine();
      mpriv, mepc, mcause, pc := 3, at, cause, mevec;
    }

    // The MRET branch, up to the end of the instruction; next is where it goes on.
    method Mret() returns (next: Word)
      modifies this`mpriv, this`msr, this`exited
      ensures old(mpriv) != 3 ==> exited && mpriv == old(mpriv) && msr == old(msr)
      ensures old(mpriv) == 3 ==> exited == old(exited) && Abs().(pc := next) == old(Abs()).Mret()
    {
      if mpriv != 3 {
        exited, next := true, pc;
        return;
      }
      var s := MretStatus(msr.bits);
      mpriv, next := Mpp(msr.bits), mepc;
      msr := Word(s);
    }

    // The SRET branch.
    method Sret() returns (next: Word)
      modifies this`mpriv, this`msr, this`exited
      ensures old(mpriv) != 1 ==> exited && mpriv == old(mpriv) && msr == old(msr)
      ensures old(mpriv) == 1 ==> exited == old(exited) && Abs().(pc := next) == old(Abs()).Sret()
    {
      if mpriv != 1 {
        exited, next := true, pc;
        return;
      }
      var s := SretStatus(msr.bits);
      mpriv, next := if msr.bits & SR_SPP != 0 then 1 else 0, sepc;
      msr := Word(s);
    }

    // The interrupt number the end of an instruction finds, IRQ_MAX for none.
    ghost function PendingNumber(): nat
      reads this
    {
      FirstSet(Candidates(mip.bits & mie.bits, mideleg.bits, MEnabled(mpriv, msr.bits), SEnabled(mpriv, msr.bits)), IRQ_MIN)
    }

    // The end of an instruction that took no exception: an interrupt, or the next instruction.
    method Retire(next: Word)
      modifies this`mpriv, this`msr, this`pc, this`mepc, this`mcause, this`sepc, this`scause, this`stval
      ensures Abs() == if old(PendingNumber()) < IRQ_MAX
                       then old(Abs()).Trap(Cause(true, old(PendingNumber())), next, Word(0))
                       else old(Abs()).(pc := next)
    {
      var pending := mip.bits & mie.bits;
      var machine := ForMachine(pending, mideleg.bits, MEnabled(mpriv, msr.bits));
      var supervisor := ForSupervisor(pending, mideleg.bits, SEnabled(mpriv, msr.bits));
      var i := Select(if machine != 0 then machine else supervisor);
      if i < IRQ_MAX {
        Exception(Cause(true, i), next, Word(0));
      } else {
        pc := next;
      }
    }

    // What a translation comes to, and what it should come to, on the present registers.
    ghost function Now(access: Access, addr: Word): Outcome
      reads this
    {
      Translate(memory, satp.bits, mpriv, msr.bits & SR_SUM != 0, access, addr.bits)
    }

    ghost function Sv32Now(access: Access, addr: Word): Outcome
      reads this
    {
      Expected(memory, satp.bits, mpriv, msr.bits & 0x4_0000 != 0, access, addr.bits)
    }

    // Below machine level, with translation on and well-formed tables.
    ghost predicate WellFormed(addr: Word)
      reads this
    {
      && mpriv <= 1 && satp.bits >> 31 == 1
      && TablesFit(memory, satp.bits, addr.bits) && !Misaligned(EndOfWalk(memory, satp.bits, addr.bits))
    }

    lemma WellFormedIsSv32(access: Access, addr: Word)
      requires WellFormed(addr)
      ensures Now(access, addr) == Sv32Now(access, addr)
    {
      TranslationIsSv32(memory, satp.bits, mpriv, msr.bits & SR_SUM != 0, access, addr.bits);
    }

    // The common shape of the two translations; at is the pc recorded with a fault.
    method MmuTranslate(access: Access, at: Word, addr: Word) returns (done: bool, physical: bv32)
      requires mpriv <= 1 ==> WalkEnds(memory, satp.bits, addr.bits)
      modifies this`mpriv, this`msr, this`pc, this`mepc, this`mcause, this`sepc, this`scause, this`stval, this`exited
      ensures Ends(old(Now(access, addr)), FaultCode(access), at, addr, old(Abs()), old(exited), Abs(), exited, done, physical)
    {
      var outcome := Resolve(memory, satp.bits, mpriv, msr.bits & SR_SUM != 0, access, addr.bits);
      match outcome
      case Ok(pa) =>
        done, physical := true, pa;
      case Stop =>
        exited, done, physical := true, false, 0;
      case PageFault =>
        Exception(Cause(false, FaultCode(access)), at, addr);
        done, physical := false, 0xFFFF_FFFF;
    }

    // `mmu_i_translate`: a fetch fault records the address fetched as its pc.
    method MmuITranslate(addr: Word) returns (done: bool, physical: bv32)
      requires mpriv <= 1 ==> WalkEnds(memory, satp.bits, addr.bits)
      modifies this`mpriv, this`msr, this`pc, this`mepc, this`mcause, this`sepc, this`scause, this`stval, this`exited
      ensures Ends(old(Now(Fetch, addr)), 12, addr, addr, old(Abs()), old(exited), Abs(), exited, done, physical)
      ensures old(WellFormed(addr)) ==>
                Ends(old(Sv32Now(Fetch, addr)), 12, addr, addr, old(Abs()), old(exited), Abs(), exited, done, physical)
    {
      if WellFormed(addr) {
        WellFormedIsSv32(Fetch, addr);
      }
      done, physical := MmuTranslate(Fetch, addr, addr);
    }

    // `mmu_d_translate`
    method MmuDTranslate(at: Word, addr: Word, writeNotRead: bool) returns (done: bool, physical: bv32)
      requires mpriv <= 1 ==> WalkEnds(memory, satp.bits, addr.bits)
      modifies this`mpriv, this`msr, this`pc, this`mepc, this`mcause, this`sepc, this`scause, this`stval, this`exited
      ensures
        var access := if writeNotRead then Store else Load;
        var code := if writeNotRead then 15 else 13;
        && Ends(old(Now(access, addr)), code, at, addr, old(Abs()), old(exited), Abs(), exited, done, physical)
        && (old(WellFormed(addr)) ==>
              Ends(old(Sv32Now(access, addr)), code, at, addr, old(Abs()), old(exited), Abs(), exited, done, physical))
    {
      var access := if writeNotRead then Store else Load;
      if WellFormed(addr) {
        WellFormedIsSv32(access, addr);
      }
      done, physical := MmuTranslate(access, at, addr);
    }
  }

  // How a translation with a given outcome ends: with the address and nothing changed, with the
  // simulation over, or with the page-fault trap, its cause, pc and bad address.
  ghost predicate Ends(outcome: Outcome, code: Code, at: Word, addr: Word, was: Hart, wasExited: bool,
                       now: Hart, exited: bool, done: bool, physical: bv32)
  {
    match outcome
    case Ok(pa) => done && physical == pa && now == was && exited == wasExited
    case Stop => !done && exited && now == was
    case PageFault =>
      && !done && physical == 0xFFFF_FFFF && exited == wasExited
      && now == was.Trap(Cause(false, code), at, addr)
  }

  // MCAUSE_PAGE_FAULT_INST, _LOAD and _STORE
  function FaultCode(access: Access): Code {
    match access
    case Fetch => 12
    case Load => 13
    case Store => 15
  }
}
