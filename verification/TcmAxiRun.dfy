/** The AXI side of the memory in whole runs: what a read burst returns is what the atomic memory
    held at each of its beats. */
module TcmAxiRun {
  import opened TcmTypes
  import opened TcmBridge
  import opened TcmBridgeRun
  import opened TcmRam
  import opened TcmMem
  import opened TcmMemRun

  // A strobed write beat taken from the bus.
  datatype WriteData = WriteData(data: Word, strobe: Strobe)

  // A history of the memory, the view of it from the bus, and the strobed write beats taken.
  datatype Whole = Whole(h: History, peers: Peers, log: Log, writes: seq<WriteData>) {
    function Bus(): Run {
      Run(h.mem.bridge, peers, log)
    }
  }

  predicate MasterAllows(w: Whole, i: MemInputs) {
    w.peers.BusAllows(w.h.mem.bridge.regs, w.h.mem.bridge.FifoAccept(), w.h.mem.Axi(i))
  }

  function WriteNow(w: Whole, i: MemInputs): seq<WriteData> {
    if w.h.mem.bridge.regs.WTaken(w.h.mem.Axi(i), w.h.mem.bridge.FifoAccept()) && i.axi.w.strobe != NO_STROBE
    then [WriteData(i.axi.w.data, i.axi.w.strobe)]
    else []
  }

  function WholeStep(init: Memory, w: Whole, i: MemInputs): (next: Whole)
    requires w.h.mem.bridge.Valid()
    ensures next.h.mem.bridge.Valid()
  {
    Whole(Advance(w.h, i),
          w.peers.Next(w.h.mem.bridge.regs, w.h.mem.bridge.FifoAccept(), w.h.mem.Axi(i)),
          LogNext(w.log, w.h.mem.bridge, w.h.mem.Axi(i)),
          w.writes + WriteNow(w, i))
  }

  // The operations of the bus among those of a run: their rows, the word each found there when its
  // turn came, and what the writes among them wrote.
  function AxiRows(ops: seq<PortOp>): seq<nat> {
    if ops == [] then []
    else AxiRows(ops[..|ops| - 1]) + (if ops[|ops| - 1].fromAxi then [ops[|ops| - 1].row] else [])
  }

  function AxiWords(init: Memory, ops: seq<PortOp>): seq<Word> {
    if ops == [] then []
    else
      var before, op := ops[..|ops| - 1], ops[|ops| - 1];
      AxiWords(init, before) + (if op.fromAxi then [Replay(init, before)[op.row]] else [])
  }

  function AxiWrites(ops: seq<PortOp>): seq<WriteData> {
    if ops == [] then []
    else
      var before, op := ops[..|ops| - 1], ops[|ops| - 1];
      AxiWrites(before) + (if op.fromAxi && op.strobe != NO_STROBE then [WriteData(op.data, op.strobe)] else [])
  }

  // The rows of the beats, in the 64 KB of the memory.
  function BeatRows(beats: seq<Beat>): (rows: seq<nat>)
    ensures |rows| == |beats| && forall k :: 0 <= k < |beats| ==> rows[k] == beats[k].addr % 65536 / 4
  {
    seq(|beats|, k requires 0 <= k < |beats| => beats[k].addr % 65536 / 4)
  }

  ghost predicate WholeInv(init: Memory, w: Whole) {
    && Atomic(init, w.h)
    && Inv(w.Bus())
    && w.h.mem.control.extAck == w.peers.owed
    && AxiWords(init, w.h.ops) == w.log.words + (if w.peers.owed then [w.h.mem.read1] else [])
    && AxiRows(w.h.ops) == BeatRows(w.log.accesses)
    && AxiWrites(w.h.ops) == w.writes
  }

  lemma OpsAppend(init: Memory, ops: seq<PortOp>, op: PortOp)
    ensures AxiRows(ops + [op]) == AxiRows(ops) + (if op.fromAxi then [op.row] else [])
    ensures AxiWords(init, ops + [op]) == AxiWords(init, ops) + (if op.fromAxi then [Replay(init, ops)[op.row]] else [])
    ensures AxiWrites(ops + [op]) ==
            AxiWrites(ops) + (if op.fromAxi && op.strobe != NO_STROBE then [WriteData(op.data, op.strobe)] else [])
  {
    assert (ops + [op])[..|ops|] == ops;
  }

  // The accesses of the bridge are the operations accepted from it.
  lemma AccessIsOp(m: Mem, i: MemInputs)
    ensures
      var access := AccessNow(m.bridge.regs, m.bridge.FifoAccept(), m.Axi(i));
      && (access != [] <==> m.ExtTaken(i))
      && (access != [] ==> m.OpNow(i) == [PortOp(true, RowOf(access[0].addr), m.Ext(i).data, m.Ext(i).strobe)])
      && (access == [] ==> m.OpNow(i) == [] || !m.OpNow(i)[0].fromAxi)
  {
  }

  // The bridge is acknowledged exactly when it is owed a word, and gets the word its operation found.
  lemma WordsStep(init: Memory, w: Whole, i: MemInputs)
    requires WholeInv(init, w)
    ensures
      var next := WholeStep(init, w, i);
      && next.h.mem.control.extAck == next.peers.owed
      && AxiWords(init, next.h.ops) == next.log.words + (if next.peers.owed then [next.h.mem.read1] else [])
  {
    hide Inv, AxiRows, AxiWrites;
    RamStep(w.h.mem, i);
    AccessIsOp(w.h.mem, i);
    var now := w.h.mem.OpNow(i);
    if now == [] {
      assert w.h.ops + now == w.h.ops;
    } else {
      assert now == [now[0]];
      OpsAppend(init, w.h.ops, now[0]);
    }
  }

  lemma BeatRowsAppend(beats: seq<Beat>, b: Beat)
    ensures BeatRows(beats + [b]) == BeatRows(beats) + [RowOf(b.addr)]
  {
  }

  lemma RowsStep(init: Memory, w: Whole, i: MemInputs)
    requires WholeInv(init, w)
    ensures AxiRows(WholeStep(init, w, i).h.ops) == BeatRows(WholeStep(init, w, i).log.accesses)
  {
    hide Inv, AxiWords, AxiWrites, BeatRows;
    AccessIsOp(w.h.mem, i);
    var now, access := w.h.mem.OpNow(i), AccessNow(w.h.mem.bridge.regs, w.h.mem.bridge.FifoAccept(), w.h.mem.Axi(i));
    if now == [] {
      assert w.h.ops + now == w.h.ops;
    } else {
      assert now == [now[0]];
      OpsAppend(init, w.h.ops, now[0]);
    }
    if access == [] {
      assert w.log.accesses + access == w.log.accesses;
    } else {
      assert access == [access[0]];
      BeatRowsAppend(w.log.accesses, access[0]);
    }
  }

  lemma WritesStep(init: Memory, w: Whole, i: MemInputs)
    requires WholeInv(init, w)
    ensures AxiWrites(WholeStep(init, w, i).h.ops) == WholeStep(init, w, i).writes
  {
    hide Inv, AxiWords, AxiRows, BeatRows;
    BusHasRegisters(w.Bus());
    AccessIsOp(w.h.mem, i);
    WriteBeatPerformed(w.h.mem.bridge.regs, w.peers, w.h.mem.bridge.FifoAccept(), w.h.mem.Axi(i));
    ReadHasNoStrobe(w.h.mem.bridge.regs, w.peers, w.h.mem.bridge.FifoAccept(), w.h.mem.Axi(i));
    var now := w.h.mem.OpNow(i);
    if now == [] {
      assert w.h.ops + now == w.h.ops;
    } else {
      assert now == [now[0]];
      OpsAppend(init, w.h.ops, now[0]);
    }
  }

  lemma BusHasRegisters(run: Run)
    requires Inv(run)
    ensures RegistersInv(run.bridge.regs, run.peers)
  {
  }

  lemma ReadHasNoStrobe(regs: Registers, peers: Peers, fa: bool, i: Inputs)
    requires RegistersInv(regs, peers)
    ensures regs.PushTag(i, fa) && regs.TagIn(i, fa).read ==> regs.Ram(i, fa).strobe == NO_STROBE
  {
    Exclusive(regs, peers, fa, i);
  }

  lemma WholeInvStep(init: Memory, w: Whole, i: MemInputs)
    requires WholeInv(init, w) && MasterAllows(w, i)
    ensures WholeInv(init, WholeStep(init, w, i))
  {
    hide Inv, AxiWords, AxiRows, AxiWrites, BeatRows;
    AtomicStep(init, w.h, i);
    InvStep(w.Bus(), w.h.mem.Axi(i));
    WordsStep(init, w, i);
    RowsStep(init, w, i);
    WritesStep(init, w, i);
    assert WholeStep(init, w, i).Bus() == Step(w.Bus(), w.h.mem.Axi(i));
  }

  // From reset, with any memory contents.
  function Begin(ram: Memory, read0: Word, read1: Word): Whole {
    Whole(History(Mem(ram, read0, read1, RESET_CONTROL, RESET), []), START.peers, START.log, [])
  }

  function WholeRun(init: Memory, begin: Whole, inputs: seq<MemInputs>): (w: Whole)
    requires begin.h.mem.bridge.Valid()
    ensures w.h.mem.bridge.Valid()
  {
    if inputs == [] then begin
    else WholeStep(init, WholeRun(init, begin, inputs[..|inputs| - 1]), inputs[|inputs| - 1])
  }

  predicate MasterObeys(init: Memory, begin: Whole, inputs: seq<MemInputs>)
    requires begin.h.mem.bridge.Valid()
  {
    inputs != [] ==>
      && MasterObeys(init, begin, inputs[..|inputs| - 1])
      && MasterAllows(WholeRun(init, begin, inputs[..|inputs| - 1]), inputs[|inputs| - 1])
  }

  lemma {:induction false} WholeRunInv(init: Memory, begin: Whole, inputs: seq<MemInputs>)
    requires WholeInv(init, begin) && MasterObeys(init, begin, inputs)
    ensures WholeInv(init, WholeRun(init, begin, inputs))
  {
    if inputs != [] {
      WholeRunInv(init, begin, inputs[..|inputs| - 1]);
      WholeInvStep(init, WholeRun(init, begin, inputs[..|inputs| - 1]), inputs[|inputs| - 1]);
    }
  }

  // In every run of the whole memory, whatever the CPU does meanwhile: the accesses are the beats
  // of the bursts accepted, performed in order on the rows of their addresses; the k-th answer is to
  // the k-th access and carries the word that the operations before it left in its row; and the
  // writes write the strobed beats taken from the bus, in order.
  lemma AxiAnswersAreAtomic(init: Memory, read0: Word, read1: Word, inputs: seq<MemInputs>)
    requires MasterObeys(init, Begin(init, read0, read1), inputs)
    ensures
      var w := WholeRun(init, Begin(init, read0, read1), inputs);
      && Expected(w.log.bursts) == w.log.accesses + Remaining(w.h.mem.bridge.regs)
      && AxiRows(w.h.ops) == BeatRows(w.log.accesses)
      && AxiWrites(w.h.ops) == w.writes
      && AnswerTags(w.log.answers) <= Tags(w.log.accesses)
      && AnswerWords(w.log.answers) <= AxiWords(init, w.h.ops)
      && w.log.rOut == Reads(w.log.answers)
  {
    var begin := Begin(init, read0, read1);
    assert Inv(begin.Bus()) by { assert begin.Bus() == START; }
    assert Atomic(init, begin.h);
    WholeRunInv(init, begin, inputs);
    Summary(init, WholeRun(init, begin, inputs));
  }

  lemma Summary(init: Memory, w: Whole)
    requires WholeInv(init, w)
    ensures Expected(w.log.bursts) == w.log.accesses + Remaining(w.h.mem.bridge.regs)
    ensures AxiRows(w.h.ops) == BeatRows(w.log.accesses) && AxiWrites(w.h.ops) == w.writes
    ensures AnswerTags(w.log.answers) <= Tags(w.log.accesses)
    ensures AnswerWords(w.log.answers) <= AxiWords(init, w.h.ops)
    ensures w.log.rOut == Reads(w.log.answers)
  {
  }
}
