/** The privileged state of the simulated hart and what traps and returns do to it
    (`isa_sim/riscv.cpp`; section 3.1.6.1 of the RISC-V privileged specification v1.11). */
module IsaHart {
  // Privilege levels: 0 user, 1 supervisor, 3 machine.
  type Privilege = p: nat | p < 4 witness 0
  type Code = n: nat | n < 32 witness 0

  // A register or an address.
  datatype Word = Word(bits: bv32)

  // An interrupt or an exception, by number.
  datatype Cause = Cause(interrupt: bool, code: Code)

  // `1 << n`
  function Bit(n: Code): bv32 {
    if n == 0 then 1 else Bit(n - 1) << 1
  }

  predicate Listed(w: Word, n: Code) {
    w.bits & Bit(n) != 0
  }

  // The status register; rest is the register with the six fields cleared.
  datatype Status = Status(sie: bool, mie: bool, spie: bool, mpie: bool, spp: bool, mpp: Privilege, rest: Word)

  datatype Hart = Hart(priv: Privilege, status: Status, pc: Word, mepc: Word, mcause: Cause, mevec: Word,
                       sepc: Word, scause: Cause, stval: Word, sevec: Word,
                       medeleg: Word, mideleg: Word) {
    predicate Delegated(cause: Cause) {
      priv <= 1 && Listed(if cause.interrupt then mideleg else medeleg, cause.code)
    }

    // `exception`: the status is saved at the level that handles the trap. There is no mtval.
    function Trap(cause: Cause, at: Word, badaddr: Word): Hart {
      if Delegated(cause) then
        this.(priv := 1, status := status.(spie := status.sie, sie := false, spp := priv == 1),
              sepc := at, scause := cause, stval := badaddr, pc := sevec)
      else
        this.(priv := 3, status := status.(mpie := status.mie, mie := false, mpp := priv),
              mepc := at, mcause := cause, pc := mevec)
    }

    // The MRET and SRET branches; each asserts its privilege level.
    function Mret(): Hart
      requires priv == 3
    {
      this.(priv := status.mpp, status := status.(mie := status.mpie, mpie := true, mpp := 0), pc := mepc)
    }

    function Sret(): Hart
      requires priv == 1
    {
      this.(priv := if status.spp then 1 else 0, status := status.(sie := status.spie, spie := true, spp := false),
            pc := sepc)
    }
  }

  // A machine-level handler, from its first instruction to its MRET, may do anything to the machine's
  // own state, traps of its own included, but puts back what its MRET uses and leaves the
  // supervisor's registers alone.
  predicate HandlerKeeps(entry: Hart, exit: Hart) {
    && exit.priv == 3 && exit.mepc == entry.mepc
    && exit.status.mpie == entry.status.mpie && exit.status.mpp == entry.status.mpp
    && SupervisorKept(entry, exit)
  }

  predicate SupervisorKept(a: Hart, b: Hart) {
    && a.status.sie == b.status.sie && a.status.spie == b.status.spie && a.status.spp == b.status.spp
    && a.sepc == b.sepc && a.scause == b.scause && a.stval == b.stval && a.sevec == b.sevec
  }

  // A machine-level trap where the hart stands, and the return from its handler.
  predicate MachinePair(h: Hart, cause: Cause, badaddr: Word, exit: Hart) {
    !h.Delegated(cause) && HandlerKeeps(h.Trap(cause, h.pc, badaddr), exit)
  }

  // A trap to machine level and the return from it restore privilege, MIE and the program
  // counter, from any privilege level, and nothing of the supervisor's changes.
  lemma MachinePairRestores(h: Hart, cause: Cause, badaddr: Word, exit: Hart)
    requires MachinePair(h, cause, badaddr, exit)
    ensures
      var r := exit.Mret();
      r.priv == h.priv && r.status.mie == h.status.mie && r.pc == h.pc && SupervisorKept(h, r)
  {
  }

  // What a handler saves before it can be trapped itself, put back.
  function PutBack(h: Hart, saved: Hart): Hart {
    h.(mepc := saved.mepc, status := h.status.(mpie := saved.status.mpie, mpp := saved.status.mpp))
  }

  // So a handler may be trapped in turn, at any depth, if it saves and puts back those registers.
  lemma HandlersNest(entry: Hart, h: Hart, cause: Cause, badaddr: Word, exit: Hart)
    requires HandlerKeeps(entry, h) && MachinePair(h, cause, badaddr, exit)
    ensures HandlerKeeps(entry, PutBack(exit.Mret(), entry)) && exit.Mret().pc == h.pc
  {
    MachinePairRestores(h, cause, badaddr, exit);
  }

  // What happens while a supervisor-level handler runs: instructions, which move the program counter
  // and may write the rest of the status register, and machine-level traps.
  datatype Event = Instructions(pc: Word, rest: Word) | MachineTrap(cause: Cause, badaddr: Word, exit: Hart)

  predicate Possible(h: Hart, e: Event) {
    e.MachineTrap? ==> MachinePair(h, e.cause, e.badaddr, e.exit)
  }

  function Happens(h: Hart, e: Event): Hart
    requires Possible(h, e)
  {
    match e
    case Instructions(pc, rest) => h.(pc := pc, status := h.status.(rest := rest))
    case MachineTrap(_, _, exit) => exit.Mret()
  }

  predicate Runnable(h: Hart, events: seq<Event>)
    decreases |events|
  {
    events != [] ==> Possible(h, events[0]) && Runnable(Happens(h, events[0]), events[1..])
  }

  function HandlerRuns(h: Hart, events: seq<Event>): Hart
    requires Runnable(h, events)
    decreases |events|
  {
    if events == [] then h else HandlerRuns(Happens(h, events[0]), events[1..])
  }

  lemma {:induction false} HandlerRunKeeps(h: Hart, events: seq<Event>)
    requires Runnable(h, events)
    ensures
      var r := HandlerRuns(h, events);
      r.priv == h.priv && r.status.mie == h.status.mie && SupervisorKept(h, r)
    decreases |events|
  {
    if events != [] {
      HandlerRunKeeps(Happens(h, events[0]), events[1..]);
    }
  }

  // A delegated trap, a supervisor-level handler with any number of machine-level traps inside
  // it, and the closing SRET: privilege, SIE and MIE are as they were and execution resumes where
  // the trap was taken; until then the handler can read the cause and the faulting address.
  lemma SupervisorHandlerReturns(h: Hart, cause: Cause, at: Word, badaddr: Word, events: seq<Event>)
    requires h.Delegated(cause) && Runnable(h.Trap(cause, at, badaddr), events)
    ensures
      var handler := h.Trap(cause, at, badaddr);
      var before := HandlerRuns(handler, events);
      && handler.pc == h.sevec && before.priv == 1 && !before.status.sie
      && before.scause == cause && before.stval == badaddr && before.sepc == at
      && before.Sret().priv == h.priv && before.Sret().pc == at
      && before.Sret().status.sie == h.status.sie && before.Sret().status.mie == h.status.mie
  {
    HandlerRunKeeps(h.Trap(cause, at, badaddr), events);
  }

  // The bits by which causes are numbered.
  lemma ListedBits(w: Word)
    ensures Listed(w, 0) == (w.bits & 0x1 != 0) && Listed(w, 1) == (w.bits & 0x2 != 0)
    ensures Listed(w, 2) == (w.bits & 0x4 != 0) && Listed(w, 3) == (w.bits & 0x8 != 0)
    ensures Listed(w, 4) == (w.bits & 0x10 != 0) && Listed(w, 5) == (w.bits & 0x20 != 0)
    ensures Listed(w, 6) == (w.bits & 0x40 != 0) && Listed(w, 7) == (w.bits & 0x80 != 0)
    ensures Listed(w, 8) == (w.bits & 0x100 != 0) && Listed(w, 9) == (w.bits & 0x200 != 0)
    ensures Listed(w, 11) == (w.bits & 0x800 != 0) && Listed(w, 12) == (w.bits & 0x1000 != 0)
    ensures Listed(w, 13) == (w.bits & 0x2000 != 0) && Listed(w, 15) == (w.bits & 0x8000 != 0)
  {
    assert Bit(2) == 0x4 && Bit(4) == 0x10 && Bit(6) == 0x40;
    assert Bit(8) == 0x100 && Bit(10) == 0x400 && Bit(12) == 0x1000 && Bit(14) == 0x4000;
  }

  // Where a trap goes and what it records: to the supervisor from user or supervisor level when the
  // cause's bit is set in mideleg, for an interrupt, or in medeleg, for an exception...
  lemma DelegatedTrap(h: Hart, cause: Cause, at: Word, badaddr: Word)
    requires h.priv <= 1 && Listed(if cause.interrupt then h.mideleg else h.medeleg, cause.code)
    ensures
      var t := h.Trap(cause, at, badaddr);
      && t.priv == 1 && t.pc == h.sevec && t.sepc == at && t.scause == cause && t.stval == badaddr
      && t.status.spie == h.status.sie && !t.status.sie && t.status.spp == (h.priv == 1)
      && t.status.mie == h.status.mie && t.status.mpie == h.status.mpie && t.status.mpp == h.status.mpp
      && t.mepc == h.mepc && t.mcause == h.mcause
  {
    hide Listed;
  }

  // ...and to the machine otherwise.
  lemma MachineTrap(h: Hart, cause: Cause, at: Word, badaddr: Word)
    requires h.priv > 1 || !Listed(if cause.interrupt then h.mideleg else h.medeleg, cause.code)
    ensures
      var t := h.Trap(cause, at, badaddr);
      && t.priv == 3 && t.pc == h.mevec && t.mepc == at && t.mcause == cause
      && t.status.mpie == h.status.mie && !t.status.mie && t.status.mpp == h.priv
      && SupervisorKept(h, t)
  {
    hide Listed;
  }

  // A trap never lowers the privilege level, and goes to the supervisor exactly when delegated.
  lemma TrapLevel(h: Hart, cause: Cause, at: Word, badaddr: Word)
    ensures h.Trap(cause, at, badaddr).priv >= h.priv
    ensures h.Trap(cause, at, badaddr).priv == (if h.Delegated(cause) then 1 else 3)
  {
  }
}
