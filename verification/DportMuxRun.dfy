/** Whole runs of the CPU data port: every request taken is answered once, in order, by the target
    it was sent to; and what one unanswerable request does. */
module DportMuxRun {
  import opened TcmTypes
  import opened TcmMem
  import opened DportAxi
  import opened DportAxiRun
  import opened DportMux

  // A request taken or an answer given: its target and its tag.
  datatype Token = Token(tcm: bool, tag: CpuTag)

  datatype SystemRun = SystemRun(sys: System, taken: seq<Token>, acked: seq<Token>)

  const BEGIN := SystemRun(System(Mux(0, false), false, 0, DportAxi.RESET), [], [])

  // The AXI port answers reads and writes only, the memory everything.
  predicate Answerable(cpu: CpuRequest) {
    InTcm(cpu.addr) || cpu.rd || cpu.wr != NO_STROBE
  }

  // The AXI slave answers only an outstanding transaction.
  predicate Obeyed(s: System, i: SystemInputs) {
    SlaveObeys(s.port, s.PortSees(i))
  }

  // The answer the CPU sees: `mem_resp_tag_o` comes from the target in tcm_access_q.
  function AckNow(s: System, i: SystemInputs): seq<Token> {
    if !s.Ack(i) then []
    else if s.mux.tcmAccess then [Token(true, s.tcmTag)]
    else if s.port.resp != [] then [Token(false, s.port.resp[0])]
    else []
  }

  function TakenNow(s: System, i: SystemInputs): seq<Token> {
    Only(s.Taken(i), Token(InTcm(i.cpu.addr), i.cpu.tag))
  }

  function SystemStep(run: SystemRun, i: SystemInputs): (next: SystemRun)
    requires run.sys.Valid()
    ensures next.sys.Valid()
  {
    SystemRun(run.sys.Next(i), run.taken + TakenNow(run.sys, i), run.acked + AckNow(run.sys, i))
  }

  // The requests a target has yet to answer.
  function AxiTokens(tags: seq<CpuTag>): (tokens: seq<Token>)
    ensures |tokens| == |tags| && forall k :: 0 <= k < |tags| ==> tokens[k] == Token(false, tags[k])
  {
    seq(|tags|, k requires 0 <= k < |tags| => Token(false, tags[k]))
  }

  function Outstanding(s: System): seq<Token> {
    if s.mux.tcmAccess then Only(s.tcmAck, Token(true, s.tcmTag)) else AxiTokens(s.port.resp)
  }

  // All outstanding requests belong to the target in tcm_access_q.
  predicate TargetInv(s: System) {
    && s.Valid()
    && FlagsInv(s.port)
    && |s.port.resp| == |s.port.req| + (if s.port.flags.pending then 1 else 0)
    && (if s.mux.tcmAccess then s.port.resp == [] else !s.tcmAck)
  }

  predicate SystemInv(run: SystemRun) {
    && TargetInv(run.sys)
    && run.taken == run.acked + Outstanding(run.sys)
    && run.sys.mux.pending == |Outstanding(run.sys)|
  }

  // A request that changes the target finds nothing outstanding.
  predicate SwitchesEmpty(s: System, i: SystemInputs) {
    s.Taken(i) && InTcm(i.cpu.addr) != s.mux.tcmAccess ==> Outstanding(s) == []
  }

  lemma TargetInvStep(s: System, i: SystemInputs)
    requires TargetInv(s) && SwitchesEmpty(s, i) && Obeyed(s, i)
    ensures TargetInv(s.Next(i))
  {
    FlagsStep(s.port, s.PortSees(i));
    CountsStep(s.port, s.PortSees(i));
  }

  // The request taken, if its target answers it.
  function AnswerableNow(s: System, i: SystemInputs): seq<Token> {
    Only(s.Taken(i) && Answerable(i.cpu), Token(InTcm(i.cpu.addr), i.cpu.tag))
  }

  // One answerable request in, one answer out, on either target.
  lemma OutstandingStep(s: System, i: SystemInputs)
    requires TargetInv(s) && SwitchesEmpty(s, i) && Obeyed(s, i)
    ensures Outstanding(s) + AnswerableNow(s, i) == AckNow(s, i) + Outstanding(s.Next(i))
  {
  }

  // The count moves with the requests taken and the answers given, modulo 32.
  lemma PendingStep(s: System, i: SystemInputs)
    requires TargetInv(s) && Obeyed(s, i)
    ensures s.Next(i).mux.pending == (s.mux.pending + |TakenNow(s, i)| - |AckNow(s, i)|) % 32
  {
  }

  lemma AtMostTwo(s: System)
    requires TargetInv(s)
    ensures |Outstanding(s)| <= 2
  {
  }

  lemma CountedSwitchesEmpty(s: System, i: SystemInputs)
    requires s.mux.pending >= |Outstanding(s)|
    ensures SwitchesEmpty(s, i)
  {
  }

  lemma SystemInvStep(run: SystemRun, i: SystemInputs)
    requires SystemInv(run) && Obeyed(run.sys, i) && (run.sys.Taken(i) ==> Answerable(i.cpu))
    ensures SystemInv(SystemStep(run, i))
  {
    hide Outstanding, AckNow, SwitchesEmpty;
    var s := run.sys;
    CountedSwitchesEmpty(s, i);
    TargetInvStep(s, i);
    OutstandingStep(s, i);
    PendingStep(s, i);
    AtMostTwo(s.Next(i));
    assert (run.acked + Outstanding(s)) + TakenNow(s, i) == run.acked + (Outstanding(s) + TakenNow(s, i));
    assert run.acked + (AckNow(s, i) + Outstanding(s.Next(i))) == (run.acked + AckNow(s, i)) + Outstanding(s.Next(i));
  }

  // When the CPU's request is taken: one for the lowest 64 KB when the memory accepts it and nothing is
  // outstanding on the bus, any other when fewer than two are and the memory owes no answer.
  lemma RequestTakenIff(run: SystemRun, i: SystemInputs)
    requires SystemInv(run)
    ensures run.sys.Taken(i) <==>
            && i.cpu.Active()
            && if i.cpu.addr < 0x1_0000 then i.tcmAccept && run.sys.port.resp == []
               else |run.sys.port.resp| < 2 && !run.sys.tcmAck
  {
  }

  // A request taken reaches its target as it was made.
  lemma RequestReachesTarget(s: System, i: SystemInputs)
    requires s.Taken(i)
    ensures
      var toMemory, toBus := Routed(i.cpu, InTcm(i.cpu.addr) && !s.mux.Hold(i.cpu)), s.PortSees(i);
      if i.cpu.addr < 0x1_0000 then toMemory == i.cpu && !toBus.Asked()
      else
        && !toMemory.Active() && toBus.rd == i.cpu.rd && toBus.wr == i.cpu.wr
        && toBus.addr == i.cpu.addr && toBus.data == i.cpu.data && toBus.tag == i.cpu.tag
  {
  }

  // A request reaches the target of its address alone, and only while the other owes nothing.
  lemma OneTargetAsked(run: SystemRun, i: SystemInputs)
    requires SystemInv(run)
    ensures
      var s := run.sys;
      var toMemory := Routed(i.cpu, InTcm(i.cpu.addr) && !s.mux.Hold(i.cpu)).Active();
      var toBus := Routed(i.cpu, !InTcm(i.cpu.addr) && !s.mux.Hold(i.cpu)).Active();
      && (toMemory ==> InTcm(i.cpu.addr) && !toBus && s.port.resp == [] && s.port.req == [])
      && (toBus ==> !InTcm(i.cpu.addr) && !toMemory && !s.tcmAck)
  {
  }

  // The acknowledgement registers of System are those of the memory, given what it is asked.
  lemma MemoryKeepsItsSide(s: System, i: SystemInputs, m: Mem, mi: MemInputs)
    requires m.bridge.Valid() && s.Valid()
    requires s.tcmAck == m.control.ack && s.tcmTag == m.control.tag && i.tcmAccept == m.control.accept
    requires mi.cpu == Routed(i.cpu, InTcm(i.cpu.addr) && !s.mux.Hold(i.cpu))
    ensures s.Next(i).tcmAck == m.Next(false, mi).control.ack && s.Next(i).tcmTag == m.Next(false, mi).control.tag
  {
  }

  function SystemAfter(begin: SystemRun, inputs: seq<SystemInputs>): (run: SystemRun)
    requires begin.sys.Valid()
    ensures run.sys.Valid()
  {
    if inputs == [] then begin
    else SystemStep(SystemAfter(begin, inputs[..|inputs| - 1]), inputs[|inputs| - 1])
  }

  // The AXI slave keeps its promise, and every request taken can be answered.
  predicate Proper(begin: SystemRun, inputs: seq<SystemInputs>)
    requires begin.sys.Valid()
  {
    inputs != [] ==>
      var before, i := SystemAfter(begin, inputs[..|inputs| - 1]).sys, inputs[|inputs| - 1];
      && Proper(begin, inputs[..|inputs| - 1])
      && Obeyed(before, i)
      && (before.Taken(i) ==> Answerable(i.cpu))
  }

  lemma {:induction false} SystemKeepsInv(begin: SystemRun, inputs: seq<SystemInputs>)
    requires SystemInv(begin) && Proper(begin, inputs)
    ensures SystemInv(SystemAfter(begin, inputs))
  {
    if inputs != [] {
      SystemKeepsInv(begin, inputs[..|inputs| - 1]);
      SystemInvStep(SystemAfter(begin, inputs[..|inputs| - 1]), inputs[|inputs| - 1]);
    }
  }

  // In every run the answers are those of the requests taken, in order, each with its tag and from
  // its own target; pending_q counts the requests taken and not yet answered, at most two.
  lemma CpuAnsweredInOrder(inputs: seq<SystemInputs>)
    requires Proper(BEGIN, inputs)
    ensures
      var run := SystemAfter(BEGIN, inputs);
      && run.acked <= run.taken
      && run.taken[|run.acked|..] == Outstanding(run.sys)
      && run.sys.mux.pending == |run.taken| - |run.acked| <= 2
  {
    assert SystemInv(BEGIN);
    SystemKeepsInv(BEGIN, inputs);
  }

  // The CPU is acknowledged only when a request is outstanding.
  lemma AckAnswersSomething(s: System, i: SystemInputs)
    requires TargetInv(s) && Obeyed(s, i)
    ensures s.Ack(i) <==> AckNow(s, i) != []
    ensures s.Ack(i) ==> Outstanding(s) != [] && AckNow(s, i) == [Outstanding(s)[0]]
  {
  }

  // The count once lost requests have been taken that will never be answered: it includes them, and
  // wraps. The first of them came from the AXI side, where the target then stays.
  predicate Counted(s: System, lost: nat) {
    && TargetInv(s)
    && s.mux.pending == (|Outstanding(s)| + lost) % 32
    && (lost > 0 ==> !s.mux.tcmAccess)
  }

  // A flush, invalidate or write-back sent outside the memory is counted, and the count stays
  // right exactly when no such request is taken.
  lemma CountRightIffAnswerable(run: SystemRun, i: SystemInputs)
    requires SystemInv(run) && Obeyed(run.sys, i) && run.sys.Taken(i)
    ensures
      var next := run.sys.Next(i);
      && (next.mux.pending == |Outstanding(next)| <==> Answerable(i.cpu))
      && (!Answerable(i.cpu) ==> Counted(next, 1))
  {
    TargetInvStep(run.sys, i);
    PendingStep(run.sys, i);
    OutstandingStep(run.sys, i);
  }

  function LostNow(s: System, i: SystemInputs): nat {
    if s.Taken(i) && !Answerable(i.cpu) then 1 else 0
  }

  lemma SwitchesCounted(s: System, i: SystemInputs, lost: nat)
    requires Counted(s, lost) && (s.Taken(i) && InTcm(i.cpu.addr) ==> lost == 0)
    ensures SwitchesEmpty(s, i)
  {
  }

  lemma CountedStep(s: System, i: SystemInputs, lost: nat)
    requires Counted(s, lost) && Obeyed(s, i) && (s.Taken(i) && InTcm(i.cpu.addr) ==> lost == 0)
    ensures Counted(s.Next(i), lost + LostNow(s, i))
  {
    hide Outstanding, AckNow, SwitchesEmpty;
    AtMostTwo(s);
    SwitchesCounted(s, i, lost);
    TargetInvStep(s, i);
    OutstandingStep(s, i);
    PendingStep(s, i);
    assert |Outstanding(s)| + |AnswerableNow(s, i)| == |AckNow(s, i)| + |Outstanding(s.Next(i))|;
    CountWraps(|Outstanding(s)| + lost, |TakenNow(s, i)| - |AckNow(s, i)|);
  }

  lemma CountWraps(n: int, d: int)
    ensures (n % 32 + d) % 32 == (n + d) % 32
  {
  }

  // The unanswerable requests taken so far.
  function Lost(begin: SystemRun, inputs: seq<SystemInputs>): nat
    requires begin.sys.Valid()
  {
    if inputs == [] then 0
    else
      Lost(begin, inputs[..|inputs| - 1]) +
      LostNow(SystemAfter(begin, inputs[..|inputs| - 1]).sys, inputs[|inputs| - 1])
  }

  // Any run in which the AXI slave keeps its promise, up to the first request that the memory takes
  // after an unanswerable one.
  predicate UpToReturn(begin: SystemRun, inputs: seq<SystemInputs>)
    requires begin.sys.Valid()
  {
    inputs != [] ==>
      var before, i := inputs[..|inputs| - 1], inputs[|inputs| - 1];
      && UpToReturn(begin, before)
      && Obeyed(SystemAfter(begin, before).sys, i)
      && (SystemAfter(begin, before).sys.Taken(i) && InTcm(i.cpu.addr) ==> Lost(begin, before) == 0)
  }

  lemma BeginCounted()
    ensures Counted(BEGIN.sys, 0)
  {
  }

  lemma {:induction false} RunCounted(begin: SystemRun, inputs: seq<SystemInputs>)
    requires Counted(begin.sys, 0) && UpToReturn(begin, inputs)
    ensures Counted(SystemAfter(begin, inputs).sys, Lost(begin, inputs))
  {
    hide Outstanding, FlagsInv, LostNow, AckNow;
    if inputs != [] {
      var before := inputs[..|inputs| - 1];
      RunCounted(begin, before);
      CountedStep(SystemAfter(begin, before).sys, inputs[|inputs| - 1], Lost(begin, before));
    }
  }

  lemma LockedUnlessMultiple(s: System, next: SystemInputs, lost: nat)
    requires Counted(s, lost) && lost > 0
    requires InTcm(next.cpu.addr) && next.cpu.Active() && next.tcmAccept
    ensures s.Taken(next) <==> (|Outstanding(s)| + lost) % 32 == 0
  {
    hide TargetInv, Outstanding;
  }

  // So after the first of them the memory takes no request until the requests lost and those still
  // outstanding are a multiple of 32 together: exactly then a request it is ready for is taken.
  lemma MemoryReturnsModulo32(inputs: seq<SystemInputs>, next: SystemInputs)
    requires UpToReturn(BEGIN, inputs) && Lost(BEGIN, inputs) > 0
    requires InTcm(next.cpu.addr) && next.cpu.Active() && next.tcmAccept
    ensures
      var s := SystemAfter(BEGIN, inputs).sys;
      s.Taken(next) <==> (|Outstanding(s)| + Lost(BEGIN, inputs)) % 32 == 0
  {
    hide SystemAfter, Lost, UpToReturn, Counted;
    assert Counted(BEGIN.sys, 0) by {
      BeginCounted();
    }
    RunCounted(BEGIN, inputs);
    LockedUnlessMultiple(SystemAfter(BEGIN, inputs).sys, next, Lost(BEGIN, inputs));
  }

  // A flush just above the memory, and a load from it.
  function Flush(): SystemInputs {
    SystemInputs(CpuRequest(false, NO_STROBE, true, false, false, 65536, ZERO_WORD, 0),
                 false, false, false, false, false, false)
  }

  function LoadFromMemory(): SystemInputs {
    SystemInputs(CpuRequest(true, NO_STROBE, false, false, false, 0, ZERO_WORD, 0),
                 true, false, false, false, false, false)
  }

  function Flushes(n: nat): (inputs: seq<SystemInputs>)
    ensures |inputs| == n
  {
    seq(n, _ => Flush())
  }

  // The state that n flushes leave.
  function Flushed(n: nat): System
    requires n <= 32
  {
    System(Mux(if n == 32 then 0 else n, false), false, 0, DportAxi.RESET)
  }

  lemma FlushedNone()
    ensures Flushed(0) == BEGIN.sys
  {
  }

  lemma FlushIsOutside()
    ensures !InTcm(Flush().cpu.addr)
  {
  }

  lemma OneFlush(n: nat)
    requires n < 32
    ensures Flushed(n).Next(Flush()) == Flushed(n + 1)
    ensures LostNow(Flushed(n), Flush()) == 1 && Obeyed(Flushed(n), Flush())
  {
  }

  lemma {:induction false} AfterFlushes(n: nat)
    requires n <= 32
    ensures SystemAfter(BEGIN, Flushes(n)).sys == Flushed(n)
    ensures UpToReturn(BEGIN, Flushes(n)) && Lost(BEGIN, Flushes(n)) == n
  {
    hide Flushed, Flush, LostNow, Obeyed;
    if n == 0 {
      FlushedNone();
    } else {
      AfterFlushes(n - 1);
      OneFlush(n - 1);
      FlushIsOutside();
      assert Flushes(n)[..n - 1] == Flushes(n - 1) && Flushes(n)[n - 1] == Flush();
    }
  }

  // One flush from reset locks the memory, thirty-one more open it again.
  lemma FlushesLockAndUnlock(n: nat)
    requires n <= 32
    ensures SystemAfter(BEGIN, Flushes(n)).sys.Taken(LoadFromMemory()) <==> n == 0 || n == 32
  {
    AfterFlushes(n);
  }
}
