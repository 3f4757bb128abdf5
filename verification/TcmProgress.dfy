/** The bursts accepted by the memory finish within a bounded number of cycles once the master takes
    the responses and sends the write data, whatever the CPU asks for meanwhile. */
module TcmProgress {
  import opened TcmTypes
  import opened TcmBridge
  import opened TcmBridgeRun
  import opened TcmBridgeTheorems
  import opened TcmRam
  import opened TcmMem
  import opened TcmAxiRun

  // The master offers no further command, takes every response and has the next write beat ready.
  predicate Obliging(regs: Registers, axi: Inputs) {
    && axi.rready && axi.bready && !axi.awvalid && !axi.arvalid
    && (regs.wr ==> axi.wvalid && axi.w.strobe != NO_STROBE)
  }

  function BeatsLeft(regs: Registers): nat {
    if regs.rd || regs.wr then regs.len + 1 else 0
  }

  predicate Finished(b: Bridge) {
    BeatsLeft(b.regs) == 0 && b.requests == []
  }

  // Beats left, requests not answered, words the RAM owes, and the cycle in which the memory turns.
  function Measure(m: Mem): int {
    7 * BeatsLeft(m.bridge.regs) + 5 * |m.bridge.requests| - 2 * |m.bridge.responses| + (if m.control.accept then 1 else 0)
  }

  // The bridge asks the RAM for something exactly when there is a beat left and room for its tag.
  lemma AsksWhileBeatsLeft(regs: Registers, fa: bool, axi: Inputs)
    requires !(regs.rd && regs.wr) && Obliging(regs, axi)
    ensures regs.Ram(axi, fa).Active() <==> BeatsLeft(regs) > 0 && fa
    ensures !regs.AwTaken(axi, fa) && !regs.ArTaken(axi, fa)
  {
  }

  lemma RegistersAdvance(regs: Registers, fa: bool, axi: Inputs)
    requires !(regs.rd && regs.wr) && Obliging(regs, axi)
    ensures BeatsLeft(regs.Next(axi, fa)) == BeatsLeft(regs) - (if regs.PushTag(axi, fa) then 1 else 0)
  {
    AsksWhileBeatsLeft(regs, fa, axi);
  }

  // A response is taken whenever there is one.
  lemma AnsweredAtOnce(b: Bridge, axi: Inputs)
    requires b.Valid() && axi.rready && axi.bready && |b.requests| >= |b.responses|
    ensures b.Pop(axi) <==> b.responses != []
  {
  }

  lemma ProgressStep(m: Mem, i: MemInputs)
    requires m.bridge.Valid() && !(m.bridge.regs.rd && m.bridge.regs.wr) && Obliging(m.bridge.regs, i.axi)
    requires |m.bridge.requests| == |m.bridge.responses| + (if m.control.extAck then 1 else 0)
    ensures Finished(m.bridge) ==> Finished(m.Next(false, i).bridge)
    ensures !Finished(m.bridge) ==> Measure(m.Next(false, i)) < Measure(m)
  {
    hide Registers.Next, Registers.PushTag, Registers.Ram, Registers.TagIn, BeatsLeft, Bridge.Pop;
    var axi, fa := m.Axi(i), m.bridge.FifoAccept();
    AsksWhileBeatsLeft(m.bridge.regs, fa, axi);
    RegistersAdvance(m.bridge.regs, fa, axi);
    AnsweredAtOnce(m.bridge, axi);
    PushIsAccess(m.bridge.regs, fa, axi);
  }

  lemma PushIsAccess(regs: Registers, fa: bool, axi: Inputs)
    ensures regs.PushTag(axi, fa) <==> regs.Ram(axi, fa).Active() && axi.ramAccept
  {
  }

  predicate AllOblige(init: Memory, w: Whole, more: seq<MemInputs>)
    requires w.h.mem.bridge.Valid()
  {
    more != [] ==>
      var before := WholeRun(init, w, more[..|more| - 1]);
      && AllOblige(init, w, more[..|more| - 1])
      && MasterAllows(before, more[|more| - 1])
      && Obliging(before.h.mem.bridge.regs, more[|more| - 1].axi)
  }

  lemma WholeProgress(init: Memory, w: Whole, i: MemInputs)
    requires w.h.mem.bridge.Valid() && WholeInv(init, w) && Obliging(w.h.mem.bridge.regs, i.axi)
    ensures Finished(w.h.mem.bridge) ==> Finished(WholeStep(init, w, i).h.mem.bridge)
    ensures !Finished(w.h.mem.bridge) ==> Measure(WholeStep(init, w, i).h.mem) < Measure(w.h.mem)
  {
    ResponsesFit(w.Bus());
    ProgressStep(w.h.mem, i);
  }

  lemma {:induction false} CountsDown(init: Memory, w: Whole, more: seq<MemInputs>)
    requires WholeInv(init, w) && AllOblige(init, w, more)
    ensures WholeInv(init, WholeRun(init, w, more))
    ensures Finished(WholeRun(init, w, more).h.mem.bridge) ||
            Measure(WholeRun(init, w, more).h.mem) + |more| <= Measure(w.h.mem)
  {
    hide WholeStep, Finished, Measure, MasterAllows, Obliging;
    if more != [] {
      var before := WholeRun(init, w, more[..|more| - 1]);
      CountsDown(init, w, more[..|more| - 1]);
      WholeInvStep(init, before, more[|more| - 1]);
      WholeProgress(init, before, more[|more| - 1]);
    }
  }

  const BOUND := 7 * 256 + 5 * 4 + 2

  lemma MeasureBounds(init: Memory, w: Whole)
    requires WholeInv(init, w)
    ensures 0 <= Measure(w.h.mem) < BOUND
  {
    ResponsesFit(w.Bus());
  }

  // From any reachable state, after BOUND cycles of an obliging master everything accepted has been
  // delivered: all beats of all reads on R, all responses of all writes on B.
  lemma BurstsFinish(init: Memory, w: Whole, more: seq<MemInputs>)
    requires WholeInv(init, w) && AllOblige(init, w, more) && |more| == BOUND
    ensures
      var end := WholeRun(init, w, more);
      && Due(end.Bus()) == []
      && ReadsAsked(end.log.bursts) == TagsOnR(end.log.rOut)
      && WritesAsked(end.log.bursts) == end.log.bOut
  {
    CountsDown(init, w, more);
    MeasureBounds(init, w);
    MeasureBounds(init, WholeRun(init, w, more));
    NothingDue(init, WholeRun(init, w, more));
  }

  lemma NothingDue(init: Memory, w: Whole)
    requires WholeInv(init, w) && Finished(w.h.mem.bridge)
    ensures Due(w.Bus()) == []
    ensures ReadsAsked(w.log.bursts) == TagsOnR(w.log.rOut) && WritesAsked(w.log.bursts) == w.log.bOut
  {
    assert Due(w.Bus()) == [];
    Delivers(w.Bus());
  }

  // The CPU is taken in every cycle but those after one in which the bridge asked: unbroken bursts
  // shut it out, nothing else does.
  lemma BurstsShutOutCpu(m: Mem, i: MemInputs, j: MemInputs)
    requires m.bridge.Valid()
    ensures m.Next(false, i).CpuTaken(j) <==> j.cpu.Active() && !m.Ext(i).Active()
  {
  }

  // Between bursts, a read address, or a write address with strobed data, or both; what was offered
  // before and held over is still offered.
  predicate OffersCommand(regs: Registers, axi: Inputs) {
    && !regs.rd && !regs.wr && !(regs.holdRd && regs.holdWr)
    && (axi.arvalid || axi.awvalid) && (regs.holdRd ==> axi.arvalid) && (regs.holdWr ==> axi.awvalid)
    && (axi.awvalid ==> axi.wvalid && axi.w.strobe != NO_STROBE)
  }

  predicate CommandTaken(m: Mem, i: MemInputs) {
    m.bridge.regs.AwTaken(m.Axi(i), m.bridge.FifoAccept()) || m.bridge.regs.ArTaken(m.Axi(i), m.bridge.FifoAccept())
  }

  lemma OfferAsks(regs: Registers, axi: Inputs)
    requires OffersCommand(regs, axi)
    ensures regs.Ram(axi, true).Active()
    ensures regs.AwTaken(axi, true) || regs.ArTaken(axi, true) <==> axi.ramAccept
    ensures !axi.ramAccept ==> OffersCommand(regs.Next(axi, true), axi)
  {
  }

  // A command offered with room for its tag is taken in this cycle or, if the memory was the CPU's,
  // in the next.
  lemma CommandTakenWithinTwo(m: Mem, i: MemInputs, j: MemInputs)
    requires m.bridge.Valid() && m.bridge.FifoAccept() && OffersCommand(m.bridge.regs, i.axi) && j.axi == i.axi
    ensures m.control.accept ==> !CommandTaken(m, i) && CommandTaken(m.Next(false, i), j)
    ensures !m.control.accept ==> CommandTaken(m, i)
  {
    hide Registers.Next, Registers.Ram, Registers.AwTaken, Registers.ArTaken, Registers.PushTag;
    var regs := m.bridge.regs;
    OfferAsks(regs, m.Axi(i));
    PushIsAccess(regs, true, m.Axi(i));
    if m.control.accept {
      OfferAsks(m.Next(false, i).bridge.regs, m.Next(false, i).Axi(j));
    }
  }

  // With both offered and neither held over from before, the register decides, and turns over with
  // every command: reads and writes alternate.
  lemma RoundRobin(regs: Registers, axi: Inputs)
    requires OffersCommand(regs, axi) && axi.arvalid && axi.awvalid && !regs.holdRd && !regs.holdWr && axi.ramAccept
    ensures regs.AwTaken(axi, true) <==> regs.prio
    ensures regs.ArTaken(axi, true) <==> !regs.prio
    ensures regs.Next(axi, true).prio != regs.prio
  {
  }
}
