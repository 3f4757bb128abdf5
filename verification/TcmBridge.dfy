/** The AXI4 burst to RAM bridge (`top_tcm_wrapper/tcm_mem_pmem.v`), with incrementing bursts. */
module TcmBridge {
  import opened TcmTypes
  import opened TcmFifo

  // The address channels, the write data channel and the RAM side, as sampled at a clock edge.
  datatype Command = Command(addr: Address, id: Id, len: Length)
  datatype WriteBeat = WriteBeat(data: Word, strobe: Strobe, last: bool)
  datatype Inputs = Inputs(awvalid: bool, aw: Command, wvalid: bool, w: WriteBeat, bready: bool,
                           arvalid: bool, ar: Command, rready: bool,
                           ramAccept: bool, ramAck: bool, ramData: Word)

  // An entry of `u_requests`.
  datatype Tag = Tag(read: bool, last: bool, id: Id)

  // What the RAM is asked to do; a write when some strobe is set.
  datatype RamRequest = RamRequest(read: bool, strobe: Strobe, addr: Address, data: Word) {
    predicate Active() {
      read || strobe != NO_STROBE
    }
  }

  const DEPTH: Depth := 4

  // The request registers. fifoAccept says that `u_requests` has room.
  datatype Registers = Registers(len: Length, addr: Address, rd: bool, wr: bool, id: Id, prio: bool,
                                 holdRd: bool, holdWr: bool) {
    // Round robin priority between read and write.
    predicate WritePrio() {
      (prio && !holdRd) || holdWr
    }

    predicate ReadPrio() {
      (!prio && !holdWr) || holdRd
    }

    predicate WriteActive(i: Inputs, fifoAccept: bool) {
      (i.awvalid || wr) && !rd && fifoAccept && (WritePrio() || wr || !i.arvalid)
    }

    predicate ReadActive(i: Inputs, fifoAccept: bool) {
      (i.arvalid || rd) && !wr && fifoAccept && (ReadPrio() || rd || !i.awvalid)
    }

    // `axi_awvalid_i && axi_awready_o`, and so on.
    predicate AwTaken(i: Inputs, fifoAccept: bool) {
      i.awvalid && WriteActive(i, fifoAccept) && !wr && i.ramAccept
    }

    predicate WTaken(i: Inputs, fifoAccept: bool) {
      i.wvalid && WriteActive(i, fifoAccept) && i.ramAccept
    }

    predicate ArTaken(i: Inputs, fifoAccept: bool) {
      i.arvalid && ReadActive(i, fifoAccept) && !rd && i.ramAccept
    }

    function Ram(i: Inputs, fifoAccept: bool): RamRequest {
      RamRequest(ReadActive(i, fifoAccept),
                 if WriteActive(i, fifoAccept) && i.wvalid then i.w.strobe else NO_STROBE,
                 if wr || rd then addr else if WriteActive(i, fifoAccept) then i.aw.addr else i.ar.addr,
                 i.w.data)
    }

    predicate PushTag(i: Inputs, fifoAccept: bool) {
      Ram(i, fifoAccept).Active() && i.ramAccept
    }

    // `req_in_r`
    function TagIn(i: Inputs, fifoAccept: bool): Tag {
      if ArTaken(i, fifoAccept) then Tag(true, i.ar.len == 0, i.ar.id)
      else if AwTaken(i, fifoAccept) then Tag(false, i.aw.len == 0, i.aw.id)
      else Tag(ReadActive(i, fifoAccept), len == 0, id)
    }

    // A beat accepted by the RAM moves the burst on...
    function Continued(moved: bool): Registers {
      if !moved then this
      else if len == 0 then this.(rd := false, wr := false)
      else this.(addr := NextAddress(addr), len := len - 1)
    }

    // ...and a command accepted at the same edge overrides.
    function Commanded(i: Inputs, awTaken: bool, wTaken: bool, arTaken: bool): Registers {
      if awTaken then
        if wTaken then
          this.(wr := !i.w.last, len := LessOne(i.aw.len), id := i.aw.id, addr := NextAddress(i.aw.addr), prio := !prio)
        else this.(wr := true, len := i.aw.len, id := i.aw.id, addr := i.aw.addr, prio := !prio)
      else if arTaken then
        this.(rd := i.ar.len != 0, len := LessOne(i.ar.len), id := i.ar.id, addr := NextAddress(i.ar.addr), prio := !prio)
      else this
    }

    function Held(ram: RamRequest, accept: bool): Registers {
      this.(holdRd := (ram.read || holdRd) && !accept, holdWr := (ram.strobe != NO_STROBE || holdWr) && !accept)
    }

    function Next(i: Inputs, fifoAccept: bool): Registers {
      Continued(PushTag(i, fifoAccept))
      .Commanded(i, AwTaken(i, fifoAccept), WTaken(i, fifoAccept), ArTaken(i, fifoAccept))
      .Held(Ram(i, fifoAccept), i.ramAccept)
    }
  }

  datatype Bridge = Bridge(regs: Registers, requests: seq<Tag>, responses: seq<Word>) {
    predicate Valid() {
      |requests| <= DEPTH && |responses| <= DEPTH
    }

    predicate FifoAccept() {
      |requests| != DEPTH
    }

    // The response channels.
    predicate BValid() {
      responses != [] && requests != [] && !requests[0].read && requests[0].last
    }

    predicate RValid() {
      responses != [] && requests != [] && requests[0].read
    }

    // `resp_accept_w`: write responses inside a burst are dropped.
    predicate Pop(i: Inputs) {
      (RValid() && i.rready) || (BValid() && i.bready) ||
      (responses != [] && requests != [] && !requests[0].read && !requests[0].last)
    }

    function Next(i: Inputs): (next: Bridge)
      requires Valid()
      ensures next.Valid()
    {
      var fa := FifoAccept();
      Bridge(regs.Next(i, fa),
             FifoNext(requests, DEPTH, regs.PushTag(i, fa), regs.TagIn(i, fa), Pop(i)),
             FifoNext(responses, DEPTH, i.ramAck, i.ramData, Pop(i)))
    }
  }

  const RESET_REGISTERS := Registers(0, 0, false, false, 0, false, false, false)
  const RESET := Bridge(RESET_REGISTERS, [], [])

  class PmemBridge {
    var reqLen: Length
    var reqAddr: Address
    var reqRd: bool
    var reqWr: bool
    var reqId: Id
    var reqPrio: bool
    var holdRd: bool
    var holdWr: bool
    const requests: Fifo<Tag>
    const responses: Fifo<Word>

    ghost predicate Valid()
      reads this, requests, responses, requests.ram, responses.ram
    {
      && requests.Valid() && responses.Valid()
      && requests.ram.Length == responses.ram.Length == DEPTH
    }

    ghost function Regs(): Registers
      reads this
    {
      Registers(reqLen, reqAddr, reqRd, reqWr, reqId, reqPrio, holdRd, holdWr)
    }

    ghost function Abs(): (b: Bridge)
      requires Valid()
      reads this, requests, responses, requests.ram, responses.ram
      ensures b.Valid()
    {
      Bridge(Regs(), requests.Queue(), responses.Queue())
    }

    constructor ()
      ensures Valid() && Abs() == RESET
      ensures fresh(requests) && fresh(responses) && fresh(requests.ram) && fresh(responses.ram)
    {
      reqLen, reqAddr, reqRd, reqWr, reqId, reqPrio, holdRd, holdWr := 0, 0, false, false, 0, false, false, false;
      requests := new Fifo(DEPTH);
      responses := new Fifo(DEPTH);
    }

    // The arbitration wires, and what they ask of the RAM.
    method Arbitrate(i: Inputs, fifoAccept: bool) returns (writeActive: bool, readActive: bool, ram: RamRequest)
      ensures writeActive == Regs().WriteActive(i, fifoAccept) && readActive == Regs().ReadActive(i, fifoAccept)
      ensures ram == Regs().Ram(i, fifoAccept)
    {
      var writePrio := (reqPrio && !holdRd) || holdWr;
      var readPrio := (!reqPrio && !holdWr) || holdRd;
      writeActive := (i.awvalid || reqWr) && !reqRd && fifoAccept && (writePrio || reqWr || !i.arvalid);
      readActive := (i.arvalid || reqRd) && !reqWr && fifoAccept && (readPrio || reqRd || !i.awvalid);
      var address := if reqWr || reqRd then reqAddr else if writeActive then i.aw.addr else i.ar.addr;
      ram := RamRequest(readActive, if writeActive && i.wvalid then i.w.strobe else NO_STROBE, address, i.w.data);
    }

    method Continue(moved: bool)
      modifies this
      ensures Regs() == old(Regs()).Continued(moved)
    {
      if moved {
        if reqLen == 0 {
          reqRd, reqWr := false, false;
        } else {
          reqAddr, reqLen := NextAddress(reqAddr), reqLen - 1;
        }
      }
    }

    method TakeCommand(i: Inputs, awTaken: bool, wTaken: bool, arTaken: bool)
      modifies this
      ensures Regs() == old(Regs()).Commanded(i, awTaken, wTaken, arTaken)
    {
      if awTaken {
        if wTaken {
          reqWr, reqLen, reqAddr := !i.w.last, LessOne(i.aw.len), NextAddress(i.aw.addr);
        } else {
          reqWr, reqLen, reqAddr := true, i.aw.len, i.aw.addr;
        }
        reqId, reqPrio := i.aw.id, !reqPrio;
      } else if arTaken {
        reqRd, reqLen, reqAddr := i.ar.len != 0, LessOne(i.ar.len), NextAddress(i.ar.addr);
        reqId, reqPrio := i.ar.id, !reqPrio;
      }
    }

    method Hold(ram: RamRequest, accept: bool)
      modifies this
      ensures Regs() == old(Regs()).Held(ram, accept)
    {
      if ram.read && !accept {
        holdRd := true;
      } else if accept {
        holdRd := false;
      }
      if ram.strobe != NO_STROBE && !accept {
        holdWr := true;
      } else if accept {
        holdWr := false;
      }
    }

    // The always blocks of the request registers, and what they push.
    method ClockRegisters(reset: bool, i: Inputs, fifoAccept: bool) returns (push: bool, tag: Tag)
      modifies this
      ensures Regs() == if reset then RESET_REGISTERS else old(Regs()).Next(i, fifoAccept)
      ensures push == old(Regs()).PushTag(i, fifoAccept) && tag == old(Regs()).TagIn(i, fifoAccept)
    {
      var writeActive, readActive, ram := Arbitrate(i, fifoAccept);
      var awTaken := i.awvalid && writeActive && !reqWr && i.ramAccept;
      var wTaken := i.wvalid && writeActive && i.ramAccept;
      var arTaken := i.arvalid && readActive && !reqRd && i.ramAccept;
      push := ram.Active() && i.ramAccept;
      tag := if arTaken then Tag(true, i.ar.len == 0, i.ar.id)
             else if awTaken then Tag(false, i.aw.len == 0, i.aw.id)
             else Tag(readActive, reqLen == 0, reqId);
      if reset {
        reqLen, reqAddr, reqRd, reqWr, reqId, reqPrio, holdRd, holdWr := 0, 0, false, false, 0, false, false, false;
      } else {
        Continue(push);
        TakeCommand(i, awTaken, wTaken, arTaken);
        Hold(ram, i.ramAccept);
      }
    }

    // `resp_accept_w`
    method Answer(i: Inputs) returns (pop: bool)
      requires Valid()
      ensures pop == Abs().Pop(i)
    {
      var head, paired := requests.DataOut(), responses.ValidO() && requests.ValidO();
      var rvalid := paired && head.read;
      var bvalid := paired && !head.read && head.last;
      pop := (rvalid && i.rready) || (bvalid && i.bready) || (paired && !head.read && !head.last);
    }

    method Clock(reset: bool, i: Inputs)
      requires Valid()
      modifies this, requests, responses, requests.ram, responses.ram
      ensures Valid()
      ensures Abs() == if reset then RESET else old(Abs()).Next(i)
    {
      var pop := Answer(i);
      var push, tag := ClockRegisters(reset, i, requests.AcceptO());
      requests.Clock(reset, tag, push, pop);
      responses.Clock(reset, i.ramData, i.ramAck, pop);
    }
  }
}
