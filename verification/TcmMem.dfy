/** The tightly coupled memory (`top_tcm_wrapper/tcm_mem.v`): instruction fetches on RAM port 0, and
    the CPU and the AXI bridge taking turns on port 1. */
module TcmMem {
  import opened TcmTypes
  import opened TcmBridge
  import opened TcmRam

  datatype CpuRequest = CpuRequest(rd: bool, wr: Strobe, flush: bool, invalidate: bool, writeback: bool,
                                   addr: Address, data: Word, tag: CpuTag) {
    predicate Active() {
      rd || wr != NO_STROBE || flush || invalidate || writeback
    }
  }

  // The RAM fields of axi are overridden by the memory itself.
  datatype MemInputs = MemInputs(fetch: bool, pc: Address, cpu: CpuRequest, axi: Inputs)

  // An operation on port 1.
  datatype PortOp = PortOp(fromAxi: bool, row: Row, data: Word, strobe: Strobe)

  datatype Control = Control(accept: bool, ack: bool, tag: CpuTag, extAck: bool, fetchValid: bool)

  datatype Mem = Mem(ram: Memory, read0: Word, read1: Word, control: Control, bridge: Bridge) {
    function Axi(i: MemInputs): Inputs {
      i.axi.(ramAccept := !control.accept, ramAck := control.extAck, ramData := read1)
    }

    // What the bridge asks of the RAM.
    function Ext(i: MemInputs): RamRequest {
      bridge.regs.Ram(Axi(i), bridge.FifoAccept())
    }

    predicate CpuTaken(i: MemInputs) {
      i.cpu.Active() && control.accept
    }

    predicate ExtTaken(i: MemInputs) {
      Ext(i).Active() && !control.accept
    }

    // The operation accepted on port 1 in a cycle, if any.
    function OpNow(i: MemInputs): seq<PortOp> {
      if CpuTaken(i) then [PortOp(false, RowOf(i.cpu.addr), i.cpu.data, i.cpu.wr)]
      else if ExtTaken(i) then [PortOp(true, RowOf(Ext(i).addr), Ext(i).data, Ext(i).strobe)]
      else []
    }

    // The multiplexer in front of port 1.
    function Muxed(i: MemInputs): PortOp {
      if control.accept then PortOp(false, RowOf(i.cpu.addr), i.cpu.data, i.cpu.wr)
      else PortOp(true, RowOf(Ext(i).addr), Ext(i).data, Ext(i).strobe)
    }

    function NextControl(i: MemInputs): Control {
      Control(!Ext(i).Active(), CpuTaken(i), if CpuTaken(i) then i.cpu.tag else control.tag, ExtTaken(i), i.fetch)
    }

    // The RAM has no reset.
    function Next(reset: bool, i: MemInputs): (next: Mem)
      requires bridge.Valid()
      ensures next.bridge.Valid()
    {
      var op := Muxed(i);
      Mem(ram[op.row := Merge(ram[op.row], op.data, op.strobe)], ram[RowOf(i.pc)], ram[op.row],
          if reset then RESET_CONTROL else NextControl(i),
          if reset then RESET else bridge.Next(Axi(i)))
    }
  }

  const RESET_CONTROL := Control(true, false, 0, false, false)

  class Tcm {
    const ram: Ram
    const conv: PmemBridge
    var acceptQ: bool
    var ackQ: bool
    var tagQ: CpuTag
    var extAckQ: bool
    var fetchValidQ: bool

    ghost predicate Valid()
      reads this, ram, conv, conv.requests, conv.responses, conv.requests.ram, conv.responses.ram
    {
      ram.Valid() && conv.Valid() && ram.ram != conv.responses.ram
    }

    ghost function Abs(): (m: Mem)
      requires Valid()
      reads this, ram, ram.ram, conv, conv.requests, conv.responses, conv.requests.ram, conv.responses.ram
      ensures m.bridge.Valid()
    {
      Mem(ram.Contents(), ram.read0, ram.read1, Control(acceptQ, ackQ, tagQ, extAckQ, fetchValidQ), conv.Abs())
    }

    constructor ()
      ensures Valid() && Abs().control == RESET_CONTROL && Abs().bridge == RESET
    {
      ram := new Ram();
      conv := new PmemBridge();
      acceptQ, ackQ, tagQ, extAckQ, fetchValidQ := true, false, 0, false, false;
    }

    // The control registers.
    method ClockControl(reset: bool, i: MemInputs, ext: RamRequest)
      modifies this
      ensures
        Control(acceptQ, ackQ, tagQ, extAckQ, fetchValidQ) ==
        if reset then RESET_CONTROL
        else Control(!ext.Active(), i.cpu.Active() && old(acceptQ),
                     if i.cpu.Active() && old(acceptQ) then i.cpu.tag else old(tagQ),
                     ext.Active() && !old(acceptQ), i.fetch)
    {
      if reset {
        acceptQ, ackQ, tagQ, extAckQ, fetchValidQ := true, false, 0, false, false;
        return;
      }
      if i.cpu.Active() && acceptQ {
        ackQ, tagQ := true, i.cpu.tag;
      } else {
        ackQ := false;
      }
      extAckQ := ext.Active() && !acceptQ;
      acceptQ := !ext.Active();
      fetchValidQ := i.fetch;
    }

    // The multiplexer in front of port 1.
    method Mux(i: MemInputs, ext: RamRequest) returns (op: PortOp)
      ensures op == if acceptQ then PortOp(false, RowOf(i.cpu.addr), i.cpu.data, i.cpu.wr)
                    else PortOp(true, RowOf(ext.addr), ext.data, ext.strobe)
    {
      var extAccept := !acceptQ;
      op := PortOp(extAccept,
                   if extAccept then RowOf(ext.addr) else RowOf(i.cpu.addr),
                   if extAccept then ext.data else i.cpu.data,
                   if extAccept then ext.strobe else i.cpu.wr);
    }

    // The wires between the bridge, the multiplexer and the RAM.
    method Wires(i: MemInputs) returns (axi: Inputs, ext: RamRequest, op: PortOp)
      requires Valid()
      ensures axi == Abs().Axi(i) && ext == Abs().Ext(i) && op == Abs().Muxed(i)
    {
      axi := i.axi.(ramAccept := !acceptQ, ramAck := extAckQ, ramData := ram.read1);
      var writeActive, readActive;
      writeActive, readActive, ext := conv.Arbitrate(axi, conv.requests.AcceptO());
      op := Mux(i, ext);
    }

    method Clock(reset: bool, i: MemInputs)
      requires Valid()
      modifies this, ram, ram.ram, conv, conv.requests, conv.responses, conv.requests.ram, conv.responses.ram
      ensures Valid()
      ensures Abs() == old(Abs()).Next(reset, i)
    {
      var axi, ext, op := Wires(i);
      ClockControl(reset, i, ext);
      ram.Clock(RowOf(i.pc), op.row, op.data, op.strobe);
      conv.Clock(reset, axi);
    }
  }
}
