/** Writes without strobes at the whole memory, which turns to the AXI bridge only when the bridge
    asks the RAM for something: when such a write is stalled, and how one comes to be lost. */
module TcmStall {
  import opened TcmTypes
  import opened TcmBridge
  import opened TcmBridgeRun
  import opened TcmBridgeTheorems
  import opened TcmRam
  import opened TcmMem
  import opened TcmMemRun
  import opened TcmAxiRun

  // The memory is the CPU's and no burst is in progress, as after reset.
  predicate Idle(m: Mem) {
    m.control.accept && !m.bridge.regs.rd && !m.bridge.regs.wr
  }

  // The master offers no beat with a strobe, and a read only where a write has priority.
  predicate OffersNothing(regs: Registers, axi: Inputs) {
    && (axi.wvalid ==> axi.w.strobe == NO_STROBE)
    && (axi.arvalid ==> axi.awvalid && regs.WritePrio() && !regs.ReadPrio())
  }

  lemma IdleStep(m: Mem, i: MemInputs)
    requires m.bridge.Valid() && Idle(m) && OffersNothing(m.bridge.regs, i.axi)
    ensures Idle(m.Next(false, i)) && m.Next(false, i).bridge.regs == m.bridge.regs
    ensures
      var axi, fa := m.Axi(i), m.bridge.FifoAccept();
      !m.bridge.regs.AwTaken(axi, fa) && !m.bridge.regs.WTaken(axi, fa) && !m.bridge.regs.ArTaken(axi, fa)
  {
  }

  // From an idle memory such offers are never taken, for as long as nothing else is offered.
  lemma {:induction false} IdleMemoryStalls(start: Mem, inputs: seq<MemInputs>, i: MemInputs)
    requires start.bridge.Valid() && Idle(start) && OffersNothing(start.bridge.regs, i.axi)
    requires forall k :: 0 <= k < |inputs| ==> OffersNothing(start.bridge.regs, inputs[k].axi)
    ensures
      var m := After(start, inputs).mem;
      var axi, fa := m.Axi(i), m.bridge.FifoAccept();
      && Idle(m) && m.bridge.regs == start.bridge.regs
      && !m.bridge.regs.AwTaken(axi, fa) && !m.bridge.regs.WTaken(axi, fa) && !m.bridge.regs.ArTaken(axi, fa)
  {
    if inputs != [] {
      IdleMemoryStalls(start, inputs[..|inputs| - 1], inputs[|inputs| - 1]);
      IdleStep(After(start, inputs[..|inputs| - 1]).mem, inputs[|inputs| - 1]);
    }
    IdleStep(After(start, inputs).mem, i);
  }

  // Behind a read the memory is still the bridge's for one cycle, in which the write is taken.
  function Quiet(axi: Inputs): MemInputs {
    MemInputs(false, 0, CpuRequest(false, NO_STROBE, false, false, false, 0, ZERO_WORD, 0), axi)
  }

  function ReadOffered(ar: Command): MemInputs {
    Quiet(Inputs(false, ar, false, WriteBeat(ZERO_WORD, NO_STROBE, false), true, true, ar, true, false, false, ZERO_WORD))
  }

  function WriteOffered(aw: Command, data: Word): MemInputs {
    Quiet(Inputs(true, aw, true, WriteBeat(data, NO_STROBE, true), true, false, aw, true, false, false, ZERO_WORD))
  }

  // The read is offered to the idle memory, then taken, and then the write is.
  lemma ReadWaits(init: Memory, w: Whole, ar: Command)
    requires w.h.mem.bridge == RESET && w.h.mem.control == RESET_CONTROL
    requires w.peers == START.peers && w.log == START.log
    ensures MasterAllows(w, ReadOffered(ar))
    ensures
      var next := WholeStep(init, w, ReadOffered(ar));
      && next.log == START.log && next.peers == START.peers.(ar := Just(ar))
      && next.h.mem.bridge == Bridge(RESET_REGISTERS.(holdRd := true), [], [])
      && !next.h.mem.control.accept && !next.h.mem.control.extAck
  {
  }

  lemma ReadTaken(init: Memory, w: Whole, ar: Command)
    requires ar.len == 0 && w.h.mem.bridge == Bridge(RESET_REGISTERS.(holdRd := true), [], [])
    requires !w.h.mem.control.accept && !w.h.mem.control.extAck
    requires w.peers == START.peers.(ar := Just(ar)) && w.log == START.log
    ensures MasterAllows(w, ReadOffered(ar))
    ensures
      var next := WholeStep(init, w, ReadOffered(ar));
      && next.log.bursts == [Burst(true, ar, false)] && next.log.bOut == []
      && next.peers == Peers(Nothing, Nothing, Nothing, true)
      && !next.h.mem.bridge.regs.rd && !next.h.mem.bridge.regs.wr && next.h.mem.bridge.FifoAccept()
      && next.h.mem.bridge.responses == [] && !next.h.mem.control.accept
  {
  }

  lemma WriteTaken(init: Memory, w: Whole, aw: Command, data: Word, before: seq<Burst>)
    requires aw.len == 0 && w.log.bursts == before && w.log.bOut == []
    requires w.peers.ar == w.peers.aw == Nothing && w.peers.w == Nothing
    requires !w.h.mem.bridge.regs.rd && !w.h.mem.bridge.regs.wr && w.h.mem.bridge.FifoAccept() && w.h.mem.bridge.Valid()
    requires w.h.mem.bridge.responses == [] && !w.h.mem.control.accept
    ensures MasterAllows(w, WriteOffered(aw, data))
    ensures
      var next := WholeStep(init, w, WriteOffered(aw, data));
      next.log.bursts == before + [Burst(false, aw, true)] && next.log.bOut == []
  {
  }

  // A single-beat write without strobes directly behind a read is accepted and lost: from reset, for
  // any memory, addresses and IDs, no response is given or due for it.
  lemma LostBehindRead(init: Memory, read0: Word, read1: Word, ar: Command, aw: Command, data: Word)
    requires ar.len == 0 && aw.len == 0
    ensures
      var inputs := [ReadOffered(ar), ReadOffered(ar), WriteOffered(aw, data)];
      var w := WholeRun(init, Begin(init, read0, read1), inputs);
      && MasterObeys(init, Begin(init, read0, read1), inputs)
      && w.log.bursts == [Burst(true, ar, false), Burst(false, aw, true)]
      && WritesAsked(w.log.bursts) == [] && w.log.bOut == []
  {
    var begin := Begin(init, read0, read1);
    var r, x := ReadOffered(ar), WriteOffered(aw, data);
    hide ReadOffered, WriteOffered, WholeStep, MasterAllows;
    var w1 := WholeStep(init, begin, r);
    var w2 := WholeStep(init, w1, r);
    ReadWaits(init, begin, ar);
    ReadTaken(init, w1, ar);
    WriteTaken(init, w2, aw, data, [Burst(true, ar, false)]);
    RunOfThree(init, begin, r, r, x);
    TwoBursts(ar, aw);
  }

  lemma RunOfThree(init: Memory, begin: Whole, a: MemInputs, b: MemInputs, c: MemInputs)
    requires begin.h.mem.bridge.Valid() && MasterAllows(begin, a)
    requires MasterAllows(WholeStep(init, begin, a), b)
    requires MasterAllows(WholeStep(init, WholeStep(init, begin, a), b), c)
    ensures MasterObeys(init, begin, [a, b, c])
    ensures WholeRun(init, begin, [a, b, c]) == WholeStep(init, WholeStep(init, WholeStep(init, begin, a), b), c)
  {
    hide WholeStep, MasterAllows;
    assert [a, b, c][..2] == [a, b] && [a, b][..1] == [a] && [a][..0] == [];
    assert MasterObeys(init, begin, [a]);
    assert MasterObeys(init, begin, [a, b]);
  }

  lemma TwoBursts(ar: Command, aw: Command)
    requires aw.len == 0
    ensures WritesAsked([Burst(true, ar, false), Burst(false, aw, true)]) == []
  {
    var r, x := Burst(true, ar, false), Burst(false, aw, true);
    assert [r, x][..1] == [r] && [r][..0] == [];
    assert WritesAsked([r]) == [];
  }
}
