/** The tightly coupled memory as one atomic memory: in every run port 1 performs one sequence of
    operations, and everything read is what the operations before it left. */
module TcmMemRun {
  import opened TcmTypes
  import opened TcmRam
  import opened TcmMem

  // A reachable state, and the operations accepted so far, CPU and AXI alike, in cycle order.
  datatype History = History(mem: Mem, ops: seq<PortOp>)

  function Advance(h: History, i: MemInputs): (next: History)
    requires h.mem.bridge.Valid()
    ensures next.mem.bridge.Valid()
  {
    History(h.mem.Next(false, i), h.ops + h.mem.OpNow(i))
  }

  function After(start: Mem, inputs: seq<MemInputs>): (h: History)
    requires start.bridge.Valid()
    ensures h.mem.bridge.Valid()
  {
    if inputs == [] then History(start, []) else Advance(After(start, inputs[..|inputs| - 1]), inputs[|inputs| - 1])
  }

  // The specification: a memory that performs operations one at a time.
  function Perform(m: Memory, op: PortOp): Memory {
    m[op.row := Merge(m[op.row], op.data, op.strobe)]
  }

  function Replay(m: Memory, ops: seq<PortOp>): Memory {
    if ops == [] then m else Perform(Replay(m, ops[..|ops| - 1]), ops[|ops| - 1])
  }

  lemma ReplayAppend(m: Memory, ops: seq<PortOp>, op: PortOp)
    ensures Replay(m, ops + [op]) == Perform(Replay(m, ops), op)
  {
    assert (ops + [op])[..|ops|] == ops;
  }

  // What a byte of the memory should be: that of the last operation that strobed it, or the initial one.
  function LastByte(m: Memory, ops: seq<PortOp>, r: Row, l: LaneIndex): bv8 {
    if ops == [] then Lane(m[r], l)
    else
      var op := ops[|ops| - 1];
      if op.row == r && Strobed(op.strobe, l) then Lane(op.data, l) else LastByte(m, ops[..|ops| - 1], r, l)
  }

  lemma {:induction false} ReplayedByte(m: Memory, ops: seq<PortOp>, r: Row, l: LaneIndex)
    ensures Lane(Replay(m, ops)[r], l) == LastByte(m, ops, r, l)
  {
    hide Merge, Lane, Strobed;
    if ops != [] {
      var op := ops[|ops| - 1];
      ReplayedByte(m, ops[..|ops| - 1], r, l);
      MergedLane(Replay(m, ops[..|ops| - 1])[op.row], op.data, op.strobe, l);
    }
  }

  // At most one of the CPU and the bridge is served in a cycle, and the bridge only if the CPU
  // is not accepted.
  lemma OneUser(m: Mem, i: MemInputs)
    ensures !(m.CpuTaken(i) && m.ExtTaken(i)) && |m.OpNow(i)| <= 1
  {
  }

  lemma MergeNothing(w: Word, data: Word)
    ensures Merge(w, data, NO_STROBE) == w
  {
  }

  // What reaches the RAM in a cycle is the operation accepted, or changes nothing.
  lemma RamStep(m: Mem, i: MemInputs)
    requires m.bridge.Valid()
    ensures m.Next(false, i).ram == if m.OpNow(i) == [] then m.ram else Perform(m.ram, m.OpNow(i)[0])
    ensures m.OpNow(i) != [] ==> m.Next(false, i).read1 == m.ram[m.OpNow(i)[0].row]
  {
    var op := m.Muxed(i);
    if m.OpNow(i) == [] {
      MergeNothing(m.ram[op.row], op.data);
      assert op.strobe == NO_STROBE;
      assert m.ram[op.row := m.ram[op.row]] == m.ram;
    } else {
      assert m.OpNow(i)[0] == op;
    }
  }

  // The memory is what the operations leave when performed one at a time.
  ghost predicate Atomic(init: Memory, h: History) {
    h.mem.bridge.Valid() && h.mem.ram == Replay(init, h.ops)
  }

  lemma AtomicStep(init: Memory, h: History, i: MemInputs)
    requires Atomic(init, h)
    ensures Atomic(init, Advance(h, i))
  {
    var now := h.mem.OpNow(i);
    RamStep(h.mem, i);
    if now == [] {
      assert h.ops + now == h.ops;
    } else {
      assert now == [now[0]];
      ReplayAppend(init, h.ops, now[0]);
    }
  }

  lemma {:induction false} AtomicRun(start: Mem, inputs: seq<MemInputs>)
    requires start.bridge.Valid()
    ensures Atomic(start.ram, After(start, inputs))
  {
    if inputs != [] {
      AtomicRun(start, inputs[..|inputs| - 1]);
      AtomicStep(start.ram, After(start, inputs[..|inputs| - 1]), inputs[|inputs| - 1]);
    }
  }

  // So in every run, each byte of the RAM is that of the last operation accepted that strobed it.
  lemma BytesInRun(start: Mem, inputs: seq<MemInputs>, r: Row, l: LaneIndex)
    requires start.bridge.Valid()
    ensures
      var h := After(start, inputs);
      Lane(h.mem.ram[r], l) == LastByte(start.ram, h.ops, r, l)
  {
    AtomicRun(start, inputs);
    ReplayedByte(start.ram, After(start, inputs).ops, r, l);
  }

  // The operation accepted is what was asked: the CPU's address, data and strobes, or the bridge's.
  lemma AcceptedAsAsked(m: Mem, i: MemInputs)
    requires m.OpNow(i) != []
    ensures
      var op := m.OpNow(i)[0];
      && (op.fromAxi ==> m.control.accept == false && op.data == m.Ext(i).data && op.strobe == m.Ext(i).strobe
                         && 4 * op.row <= m.Ext(i).addr % 65536 < 4 * op.row + 4)
      && (!op.fromAxi ==> m.control.accept && op.data == i.cpu.data && op.strobe == i.cpu.wr
                          && 4 * op.row <= i.cpu.addr % 65536 < 4 * op.row + 4)
  {
  }

  // In every run, the CPU is acknowledged in the cycle after each request accepted, and in no
  // other, with the request's tag and the word as the operations accepted before it left it.
  lemma CpuServedAtomically(start: Mem, inputs: seq<MemInputs>, i: MemInputs)
    requires start.bridge.Valid()
    ensures
      var h := After(start, inputs);
      var next := h.mem.Next(false, i);
      && (next.control.ack <==> h.mem.CpuTaken(i))
      && (h.mem.CpuTaken(i) ==>
            next.control.tag == i.cpu.tag && next.read1 == Replay(start.ram, h.ops)[RowOf(i.cpu.addr)])
  {
    AtomicRun(start, inputs);
    RamStep(After(start, inputs).mem, i);
  }

  // So is the bridge...
  lemma BridgeServedAtomically(start: Mem, inputs: seq<MemInputs>, i: MemInputs)
    requires start.bridge.Valid()
    ensures
      var h := After(start, inputs);
      var next := h.mem.Next(false, i);
      && (next.control.extAck <==> h.mem.ExtTaken(i))
      && (h.mem.ExtTaken(i) ==> next.read1 == Replay(start.ram, h.ops)[RowOf(h.mem.Ext(i).addr)])
  {
    AtomicRun(start, inputs);
    RamStep(After(start, inputs).mem, i);
  }

  // ...and the instruction port, which is always accepted.
  lemma FetchServedAtomically(start: Mem, inputs: seq<MemInputs>, i: MemInputs)
    requires start.bridge.Valid()
    ensures
      var h := After(start, inputs);
      var next := h.mem.Next(false, i);
      && (next.control.fetchValid <==> i.fetch)
      && next.read0 == Replay(start.ram, h.ops)[RowOf(i.pc)]
  {
    AtomicRun(start, inputs);
  }
}
