/** The CPU data port with the memory behind it, in whole runs: what a load is answered with. */
module CpuPortRun {
  import opened TcmTypes
  import opened TcmBridge
  import opened TcmRam
  import opened TcmMem
  import opened TcmMemRun
  import opened DportAxi
  import opened DportMux
  import opened DportMuxRun

  // An answer due or given: from the memory with its word, or from the bus, whose word passes through.
  datatype Reply = FromMemory(tag: CpuTag, word: Word) | FromBus(tag: CpuTag)

  datatype CpuInputs = CpuInputs(cpu: CpuRequest, fetch: bool, pc: Address, axi: Inputs,
                                 awready: bool, wready: bool, arready: bool, bvalid: bool, rvalid: bool)

  // sys keeps the multiplexer and the AXI port, and mirrors the memory's acknowledgement registers.
  datatype Cpu = Cpu(h: History, sys: System, taken: seq<Reply>, acked: seq<Reply>) {
    predicate Valid() {
      h.mem.bridge.Valid() && sys.Valid()
    }

    function SystemSees(i: CpuInputs): SystemInputs {
      SystemInputs(i.cpu, h.mem.control.accept, i.awready, i.wready, i.arready, i.bvalid, i.rvalid)
    }

    function MemorySees(i: CpuInputs): MemInputs {
      MemInputs(i.fetch, i.pc, Routed(i.cpu, InTcm(i.cpu.addr) && !sys.mux.Hold(i.cpu)), i.axi)
    }

    // The request taken, with the word that the operations before it left.
    function TakenReply(init: Memory, i: CpuInputs): seq<Reply> {
      if !sys.Taken(SystemSees(i)) then []
      else if InTcm(i.cpu.addr) then [FromMemory(i.cpu.tag, Replay(init, h.ops)[RowOf(i.cpu.addr)])]
      else [FromBus(i.cpu.tag)]
    }

    // What the CPU is shown: `mem_ack_o`, `mem_resp_tag_o` and `mem_data_rd_o`.
    function AckedReply(i: CpuInputs): seq<Reply> {
      if !sys.Ack(SystemSees(i)) then []
      else if sys.mux.tcmAccess then [FromMemory(sys.tcmTag, h.mem.read1)]
      else if sys.port.resp != [] then [FromBus(sys.port.resp[0])]
      else []
    }

    function Next(init: Memory, i: CpuInputs): (next: Cpu)
      requires Valid()
      ensures next.Valid()
    {
      Cpu(Advance(h, MemorySees(i)), sys.Next(SystemSees(i)),
          taken + TakenReply(init, i), acked + AckedReply(i))
    }

    // The answers still due.
    function Due(): seq<Reply> {
      if sys.mux.tcmAccess then (if sys.tcmAck then [FromMemory(sys.tcmTag, h.mem.read1)] else [])
      else BusReplies(sys.port.resp)
    }
  }

  function BusReplies(tags: seq<CpuTag>): (replies: seq<Reply>)
    ensures |replies| == |tags| && forall k :: 0 <= k < |tags| ==> replies[k] == FromBus(tags[k])
  {
    seq(|tags|, k requires 0 <= k < |tags| => FromBus(tags[k]))
  }

  ghost predicate CpuInv(init: Memory, c: Cpu) {
    && Atomic(init, c.h)
    && TargetInv(c.sys)
    && c.sys.mux.pending == |Outstanding(c.sys)|
    && c.sys.tcmAck == c.h.mem.control.ack && c.sys.tcmTag == c.h.mem.control.tag
    && c.taken == c.acked + c.Due()
  }

  predicate Obliges(c: Cpu, i: CpuInputs) {
    && Obeyed(c.sys, c.SystemSees(i))
    && (c.sys.Taken(c.SystemSees(i)) ==> Answerable(i.cpu))
  }

  // A request for the memory is taken when the memory accepts it, and read at once.
  lemma MemoryReads(init: Memory, c: Cpu, i: CpuInputs)
    requires CpuInv(init, c)
    ensures c.h.mem.CpuTaken(c.MemorySees(i)) <==> c.sys.Taken(c.SystemSees(i)) && InTcm(i.cpu.addr)
    ensures c.h.mem.CpuTaken(c.MemorySees(i)) ==>
              c.Next(init, i).h.mem.read1 == Replay(init, c.h.ops)[RowOf(i.cpu.addr)]
  {
    RamStep(c.h.mem, c.MemorySees(i));
  }

  // The CPU's operations on the memory are its requests for the lowest 64 KB, as they were made.
  lemma CpuOpAsAsked(init: Memory, c: Cpu, i: CpuInputs)
    requires CpuInv(init, c)
    ensures
      var now := c.h.mem.OpNow(c.MemorySees(i));
      if c.sys.Taken(c.SystemSees(i)) && i.cpu.addr < 0x1_0000 then
        now == [PortOp(false, i.cpu.addr / 4, i.cpu.data, i.cpu.wr)]
      else now == [] || now[0].fromAxi
  {
    RequestReachesTargetIf(c.sys, c.SystemSees(i));
  }

  lemma RequestReachesTargetIf(s: System, i: SystemInputs)
    ensures s.Taken(i) && i.cpu.addr < 0x1_0000 ==> Routed(i.cpu, InTcm(i.cpu.addr) && !s.mux.Hold(i.cpu)) == i.cpu
  {
    if s.Taken(i) {
      RequestReachesTarget(s, i);
    }
  }

  lemma SystemPart(s: System, i: SystemInputs)
    requires TargetInv(s) && s.mux.pending == |Outstanding(s)| && Obeyed(s, i) && (s.Taken(i) ==> Answerable(i.cpu))
    ensures TargetInv(s.Next(i)) && s.Next(i).mux.pending == |Outstanding(s.Next(i))|
  {
    SystemInvStep(SystemRun(s, Outstanding(s), []), i);
  }

  lemma DueFromMemory(init: Memory, c: Cpu, i: CpuInputs)
    requires CpuInv(init, c) && Obliges(c, i)
    requires c.Next(init, i).sys.mux.tcmAccess
    ensures c.Due() + c.TakenReply(init, i) == c.AckedReply(i) + c.Next(init, i).Due()
  {
    MemoryReads(init, c, i);
  }

  lemma DueFromBus(init: Memory, c: Cpu, i: CpuInputs)
    requires CpuInv(init, c) && Obliges(c, i)
    requires !c.Next(init, i).sys.mux.tcmAccess
    ensures c.Due() + c.TakenReply(init, i) == c.AckedReply(i) + c.Next(init, i).Due()
  {
    hide Atomic, Replay, Mem.Next, Mem.OpNow;
  }

  lemma CpuInvStep(init: Memory, c: Cpu, i: CpuInputs)
    requires CpuInv(init, c) && Obliges(c, i)
    ensures CpuInv(init, c.Next(init, i))
  {
    hide Outstanding, Cpu.Due, Cpu.TakenReply, Cpu.AckedReply, Replay;
    SystemPart(c.sys, c.SystemSees(i));
    AtomicStep(init, c.h, c.MemorySees(i));
    MemoryKeepsItsSide(c.sys, c.SystemSees(i), c.h.mem, c.MemorySees(i));
    if c.Next(init, i).sys.mux.tcmAccess {
      DueFromMemory(init, c, i);
    } else {
      DueFromBus(init, c, i);
    }
    assert (c.acked + c.Due()) + c.TakenReply(init, i) == c.acked + (c.Due() + c.TakenReply(init, i));
    assert c.acked + (c.AckedReply(i) + c.Next(init, i).Due()) == (c.acked + c.AckedReply(i)) + c.Next(init, i).Due();
  }

  // From reset, with any memory contents.
  function Reset(ram: Memory, read0: Word, read1: Word): Cpu {
    Cpu(History(Mem(ram, read0, read1, RESET_CONTROL, TcmBridge.RESET), []),
        System(Mux(0, false), false, 0, DportAxi.RESET), [], [])
  }

  function CpuRun(init: Memory, begin: Cpu, inputs: seq<CpuInputs>): (c: Cpu)
    requires begin.Valid()
    ensures c.Valid()
  {
    if inputs == [] then begin else CpuRun(init, begin, inputs[..|inputs| - 1]).Next(init, inputs[|inputs| - 1])
  }

  predicate AllOblige(init: Memory, begin: Cpu, inputs: seq<CpuInputs>)
    requires begin.Valid()
  {
    inputs != [] ==>
      && AllOblige(init, begin, inputs[..|inputs| - 1])
      && Obliges(CpuRun(init, begin, inputs[..|inputs| - 1]), inputs[|inputs| - 1])
  }

  lemma {:induction false} CpuRunInv(init: Memory, begin: Cpu, inputs: seq<CpuInputs>)
    requires begin.Valid() && CpuInv(init, begin) && AllOblige(init, begin, inputs)
    ensures CpuInv(init, CpuRun(init, begin, inputs))
  {
    hide CpuInv, Obliges;
    if inputs != [] {
      CpuRunInv(init, begin, inputs[..|inputs| - 1]);
      CpuInvStep(init, CpuRun(init, begin, inputs[..|inputs| - 1]), inputs[|inputs| - 1]);
    }
  }

  // In every run, whatever the AXI master of the memory does meanwhile, the CPU's answers are those
  // of its requests, in order; and one from the memory carries, with its tag, the word that the
  // operations accepted before the request left in its row.
  lemma CpuLoadsAreAtomic(init: Memory, read0: Word, read1: Word, inputs: seq<CpuInputs>)
    requires AllOblige(init, Reset(init, read0, read1), inputs)
    ensures
      var c := CpuRun(init, Reset(init, read0, read1), inputs);
      && c.acked <= c.taken
      && c.taken[|c.acked|..] == c.Due()
      && c.sys.mux.pending == |c.taken| - |c.acked| <= 2
  {
    ResetInv(init, read0, read1);
    CpuRunInv(init, Reset(init, read0, read1), inputs);
    DueAfterAcked(init, CpuRun(init, Reset(init, read0, read1), inputs));
  }

  lemma DueAfterAcked(init: Memory, c: Cpu)
    requires CpuInv(init, c)
    ensures c.acked <= c.taken && c.taken[|c.acked|..] == c.Due()
    ensures c.sys.mux.pending == |c.taken| - |c.acked| <= 2
  {
  }

  lemma ResetInv(init: Memory, read0: Word, read1: Word)
    ensures CpuInv(init, Reset(init, read0, read1))
  {
  }
}
