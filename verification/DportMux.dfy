/** The CPU data port multiplexer (`top_tcm_wrapper/dport_mux.v`) together with its two targets: the
    tightly coupled memory, which acknowledges the cycle after it accepts, and the AXI port. */
module DportMux {
  import opened TcmTypes
  import opened TcmMem
  import opened DportAxi

  const TCM_MEM_BASE: Address := 0

  // `tcm_access_w`
  predicate InTcm(a: Address) {
    TCM_MEM_BASE <= a < TCM_MEM_BASE + 65536
  }

  type Count = n: nat | n < 32 witness 0

  datatype Mux = Mux(pending: Count, tcmAccess: bool) {
    predicate Hold(cpu: CpuRequest) {
      pending != 0 && tcmAccess != InTcm(cpu.addr)
    }

    predicate Taken(cpu: CpuRequest, tcmAccept: bool, extAccept: bool) {
      cpu.Active() && (if InTcm(cpu.addr) then tcmAccept else extAccept) && !Hold(cpu)
    }

    // `mem_ack_o`
    predicate Ack(tcmAck: bool, extAck: bool) {
      if tcmAccess then tcmAck else extAck
    }

    // The five-bit counter wraps.
    function Next(cpu: CpuRequest, tcmAccept: bool, extAccept: bool, tcmAck: bool, extAck: bool): Mux {
      var taken, ack := Taken(cpu, tcmAccept, extAccept), Ack(tcmAck, extAck);
      Mux(if taken && !ack then (if pending == 31 then 0 else pending + 1)
          else if !taken && ack then (if pending == 0 then 31 else pending - 1)
          else pending,
          if taken then InTcm(cpu.addr) else tcmAccess)
    }
  }

  class DataMux {
    var pendingQ: Count
    var tcmAccessQ: bool
    ghost var balance: int    // requests taken less answers given, since the last reset

    ghost function Abs(): Mux
      reads this
    {
      Mux(pendingQ, tcmAccessQ)
    }

    // The five-bit counter knows the balance modulo 32.
    ghost predicate Valid()
      reads this
    {
      pendingQ == balance % 32
    }

    constructor ()
      ensures Valid() && Abs() == Mux(0, false) && balance == 0
    {
      pendingQ, tcmAccessQ, balance := 0, false, 0;
    }

    // What the two targets are asked, and what the CPU is told.
    method Wires(cpu: CpuRequest, tcmAccept: bool, extAccept: bool, tcmAck: bool, extAck: bool)
      returns (tcm: CpuRequest, ext: CpuRequest, accept: bool, ack: bool)
      ensures accept && cpu.Active() <==> Abs().Taken(cpu, tcmAccept, extAccept)
      ensures ack == Abs().Ack(tcmAck, extAck)
      ensures tcm == Routed(cpu, InTcm(cpu.addr) && !Abs().Hold(cpu))
      ensures ext == Routed(cpu, !InTcm(cpu.addr) && !Abs().Hold(cpu))
    {
      var tcmAccess := TCM_MEM_BASE <= cpu.addr < TCM_MEM_BASE + 65536;
      var hold := pendingQ != 0 && tcmAccessQ != tcmAccess;
      tcm, ext := Routed(cpu, tcmAccess && !hold), Routed(cpu, !tcmAccess && !hold);
      accept := (if tcmAccess then tcmAccept else extAccept) && !hold;
      ack := if tcmAccessQ then tcmAck else extAck;
    }

    method Clock(reset: bool, cpu: CpuRequest, tcmAccept: bool, extAccept: bool, tcmAck: bool, extAck: bool)
      requires Valid()
      modifies this
      ensures Valid()
      ensures Abs() == if reset then Mux(0, false)
                       else old(Abs()).Next(cpu, tcmAccept, extAccept, tcmAck, extAck)
      ensures balance ==
              if reset then 0
              else old(balance) + (if old(Abs()).Taken(cpu, tcmAccept, extAccept) then 1 else 0)
                                - (if old(Abs()).Ack(tcmAck, extAck) then 1 else 0)
    {
      var tcm, ext, accept, ack := Wires(cpu, tcmAccept, extAccept, tcmAck, extAck);
      var request := cpu.rd || cpu.wr != NO_STROBE || cpu.flush || cpu.invalidate || cpu.writeback;
      if reset {
        pendingQ, tcmAccessQ, balance := 0, false, 0;
        return;
      }
      if request && accept && !ack {
        pendingQ, balance := if pendingQ == 31 then 0 else pendingQ + 1, balance + 1;
      } else if !(request && accept) && ack {
        pendingQ, balance := if pendingQ == 0 then 31 else pendingQ - 1, balance - 1;
      }
      if request && accept {
        tcmAccessQ := InTcm(cpu.addr);
      }
    }
  }

  // The commands of a request, when it is let through.
  function Routed(cpu: CpuRequest, through: bool): CpuRequest {
    if through then cpu
    else cpu.(rd := false, wr := NO_STROBE, flush := false, invalidate := false, writeback := false)
  }

  // The multiplexer with the acknowledgement registers of the memory and with the AXI port.
  datatype System = System(mux: Mux, tcmAck: bool, tcmTag: CpuTag, port: Port) {
    predicate Valid() {
      port.Valid()
    }

    predicate Taken(i: SystemInputs) {
      mux.Taken(i.cpu, i.tcmAccept, port.Accept())
    }

    // What the AXI port sees: `mem_ext_*`.
    function PortSees(i: SystemInputs): PortInputs {
      var ext := Routed(i.cpu, !InTcm(i.cpu.addr) && !mux.Hold(i.cpu));
      PortInputs(ext.rd, ext.wr, ext.addr, ext.data, ext.tag, i.awready, i.wready, i.arready, i.bvalid, i.rvalid)
    }

    predicate Ack(i: SystemInputs) {
      mux.Ack(tcmAck, PortSees(i).Ack())
    }

    function Next(i: SystemInputs): (next: System)
      requires Valid()
      ensures next.Valid()
    {
      var tcm := Routed(i.cpu, InTcm(i.cpu.addr) && !mux.Hold(i.cpu));
      var taken := tcm.Active() && i.tcmAccept;
      System(mux.Next(i.cpu, i.tcmAccept, port.Accept(), tcmAck, PortSees(i).Ack()),
             taken, if taken then tcm.tag else tcmTag, port.Next(PortSees(i)))
    }
  }

  // tcmAccept is `mem_d_accept_q` of the memory, which depends on what the AXI master does.
  datatype SystemInputs = SystemInputs(cpu: CpuRequest, tcmAccept: bool, awready: bool, wready: bool, arready: bool,
                                       bvalid: bool, rvalid: bool)
}
