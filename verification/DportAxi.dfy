/** The CPU data port to AXI bridge (`top_tcm_wrapper/dport_axi.v`): requests are queued, issued one
    at a time, and answered in order. */
module DportAxi {
  import opened TcmTypes
  import opened TcmFifo

  // An entry of `u_req`.
  datatype Request = Request(read: bool, strobe: Strobe, data: Word, addr: Address)

  // The CPU's request and the AXI slave's answers, as sampled at a clock edge.
  datatype PortInputs = PortInputs(rd: bool, wr: Strobe, addr: Address, data: Word, tag: CpuTag,
                                   awready: bool, wready: bool, arready: bool, bvalid: bool, rvalid: bool) {
    predicate Asked() {
      rd || wr != NO_STROBE
    }

    // `mem_ack_o`
    predicate Ack() {
      bvalid || rvalid
    }
  }

  const DEPTH: Depth := 2

  // The handshake already made of the write at the head, and whether a transaction is outstanding.
  datatype Flags = Flags(awInhibit: bool, wInhibit: bool, pending: bool) {
    function Next(aw: bool, awready: bool, w: bool, wready: bool, complete: bool, ack: bool): Flags {
      Flags(if aw && awready && w && !wready then true else if w && wready then false else awInhibit,
            if w && wready && aw && !awready then true else if aw && awready then false else wInhibit,
            if complete then true else if ack then false else pending)
    }
  }

  datatype Port = Port(req: seq<Request>, resp: seq<CpuTag>, flags: Flags) {
    predicate Valid() {
      |req| <= DEPTH && |resp| <= DEPTH
    }

    // `mem_accept_o`
    predicate Accept() {
      |req| != DEPTH && |resp| != DEPTH
    }

    predicate Taken(i: PortInputs) {
      i.Asked() && Accept()
    }

    // `req_valid_w & !request_in_progress_w`
    predicate Issuing(i: PortInputs) {
      req != [] && !(flags.pending && !i.Ack())
    }

    predicate ArValid(i: PortInputs) {
      Issuing(i) && req[0].read
    }

    predicate AwValid(i: PortInputs) {
      Issuing(i) && !req[0].read && !flags.awInhibit
    }

    predicate WValid(i: PortInputs) {
      Issuing(i) && !req[0].read && !flags.wInhibit
    }

    predicate ReadComplete(i: PortInputs) {
      ArValid(i) && i.arready
    }

    predicate WriteComplete(i: PortInputs) {
      (flags.awInhibit || i.awready) && (flags.wInhibit || i.wready) && Issuing(i) && !req[0].read
    }

    predicate Complete(i: PortInputs) {
      ReadComplete(i) || WriteComplete(i)
    }

    function Next(i: PortInputs): (next: Port)
      requires Valid()
      ensures next.Valid()
    {
      Port(FifoNext(req, DEPTH, i.Asked() && |resp| != DEPTH, Request(i.rd, i.wr, i.data, i.addr), Complete(i)),
           FifoNext(resp, DEPTH, i.Asked() && |req| != DEPTH, i.tag, i.Ack()),
           flags.Next(AwValid(i), i.awready, WValid(i), i.wready, Complete(i), i.Ack()))
    }
  }

  const RESET := Port([], [], Flags(false, false, false))

  class AxiPort {
    const uReq: Fifo<Request>
    const uResp: Fifo<CpuTag>
    var awvalidInhibit: bool
    var wvalidInhibit: bool
    var requestPending: bool

    ghost predicate Valid()
      reads this, uReq, uResp, uReq.ram, uResp.ram
    {
      uReq.Valid() && uResp.Valid() && uReq.ram.Length == uResp.ram.Length == DEPTH
    }

    ghost function FlagBits(): Flags
      reads this
    {
      Flags(awvalidInhibit, wvalidInhibit, requestPending)
    }

    ghost function Abs(): (p: Port)
      requires Valid()
      reads this, uReq, uResp, uReq.ram, uResp.ram
      ensures p.Valid()
    {
      Port(uReq.Queue(), uResp.Queue(), FlagBits())
    }

    constructor ()
      ensures Valid() && Abs() == RESET
    {
      uReq := new Fifo(DEPTH);
      uResp := new Fifo(DEPTH);
      awvalidInhibit, wvalidInhibit, requestPending := false, false, false;
    }

    // The request channels and the completion wires.
    method Channels(i: PortInputs) returns (awvalid: bool, wvalid: bool, arvalid: bool, complete: bool)
      requires Valid()
      ensures awvalid == Abs().AwValid(i) && wvalid == Abs().WValid(i) && arvalid == Abs().ArValid(i)
      ensures complete == Abs().Complete(i)
    {
      var head := uReq.DataOut();
      var issuing := uReq.ValidO() && !(requestPending && !(i.bvalid || i.rvalid));
      var isRead, isWrite := issuing && head.read, issuing && !head.read;
      awvalid, wvalid, arvalid := isWrite && !awvalidInhibit, isWrite && !wvalidInhibit, isRead;
      var writeComplete := (awvalidInhibit || i.awready) && (wvalidInhibit || i.wready) && isWrite;
      complete := (arvalid && i.arready) || writeComplete;
    }

    method ClockFlags(reset: bool, aw: bool, awready: bool, w: bool, wready: bool, complete: bool, ack: bool)
      modifies this
      ensures FlagBits() == if reset then RESET.flags
                            else old(FlagBits()).Next(aw, awready, w, wready, complete, ack)
    {
      if reset {
        awvalidInhibit, wvalidInhibit, requestPending := false, false, false;
        return;
      }
      if aw && awready && w && !wready {
        awvalidInhibit := true;
      } else if w && wready {
        awvalidInhibit := false;
      }
      if w && wready && aw && !awready {
        wvalidInhibit := true;
      } else if aw && awready {
        wvalidInhibit := false;
      }
      if complete {
        requestPending := true;
      } else if ack {
        requestPending := false;
      }
    }

    // A request goes into both queues or neither.
    method ClockQueues(reset: bool, asked: bool, request: Request, tag: CpuTag, complete: bool, ack: bool)
      requires Valid()
      modifies uReq, uResp, uReq.ram, uResp.ram
      ensures Valid()
      ensures uReq.Queue() == if reset then []
        else FifoNext(old(uReq.Queue()), DEPTH, asked && |old(uResp.Queue())| != DEPTH, request, complete)
      ensures uResp.Queue() == if reset then []
        else FifoNext(old(uResp.Queue()), DEPTH, asked && |old(uReq.Queue())| != DEPTH, tag, ack)
    {
      var reqAccept, resAccept := uReq.AcceptO(), uResp.AcceptO();
      uReq.Clock(reset, request, asked && resAccept, complete);
      uResp.Clock(reset, tag, asked && reqAccept, ack);
    }

    method Clock(reset: bool, i: PortInputs)
      requires Valid()
      modifies this, uReq, uResp, uReq.ram, uResp.ram
      ensures Valid()
      ensures Abs() == if reset then RESET else old(Abs()).Next(i)
    {
      var aw, w, ar, complete := Channels(i);
      var asked, ack := i.rd || i.wr != NO_STROBE, i.bvalid || i.rvalid;
      ClockFlags(reset, aw, i.awready, w, i.wready, complete, ack);
      ClockQueues(reset, asked, Request(i.rd, i.wr, i.data, i.addr), i.tag, complete, ack);
    }
  }
}
