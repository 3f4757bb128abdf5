/** Whole runs of the CPU data port: each request taken makes its own handshakes once, one
    transaction is outstanding at a time, and the answers come in the order of the requests. */
module DportAxiRun {
  import opened TcmTypes
  import opened TcmFifo
  import opened DportAxi

  // A write on the address channel and on the data channel.
  datatype DataBeat = DataBeat(data: Word, strobe: Strobe)

  // Requests taken and completed, tags taken and acknowledged, and the handshakes on the AR, AW
  // and W channels.
  datatype PortLog = PortLog(taken: seq<Request>, completed: seq<Request>, tags: seq<CpuTag>, acked: seq<CpuTag>,
                             ar: seq<Address>, aw: seq<Address>, w: seq<DataBeat>)

  datatype PortRun = PortRun(port: Port, log: PortLog)

  const START := PortRun(RESET, PortLog([], [], [], [], [], [], []))

  // `{req_w[31:2], 2'b0}`
  function Aligned(a: Address): (r: Address)
    ensures r % 4 == 0 && r <= a < r + 4
  {
    a - a % 4
  }

  // The slave answers only an outstanding transaction.
  predicate SlaveObeys(p: Port, i: PortInputs) {
    i.Ack() ==> p.flags.pending
  }

  function Only<T>(c: bool, x: T): seq<T> {
    if c then [x] else []
  }

  function PortStep(run: PortRun, i: PortInputs): PortRun
    requires run.port.Valid()
  {
    var p, log := run.port, run.log;
    PortRun(p.Next(i),
      PortLog(log.taken + Only(p.Taken(i), Request(i.rd, i.wr, i.data, i.addr)),
              log.completed + (if p.Complete(i) then [p.req[0]] else []),
              log.tags + Only(p.Taken(i), i.tag),
              log.acked + (if i.Ack() && p.resp != [] then [p.resp[0]] else []),
              log.ar + (if p.ArValid(i) && i.arready then [Aligned(p.req[0].addr)] else []),
              log.aw + (if p.AwValid(i) && i.awready then [Aligned(p.req[0].addr)] else []),
              log.w + (if p.WValid(i) && i.wready then [DataBeat(p.req[0].data, p.req[0].strobe)] else [])))
  }

  // What the requests call for on each channel.
  function ReadAddresses(requests: seq<Request>): seq<Address> {
    if requests == [] then []
    else
      var r := requests[|requests| - 1];
      ReadAddresses(requests[..|requests| - 1]) + (if r.read then [Aligned(r.addr)] else [])
  }

  function WriteAddresses(requests: seq<Request>): seq<Address> {
    if requests == [] then []
    else
      var r := requests[|requests| - 1];
      WriteAddresses(requests[..|requests| - 1]) + (if r.read then [] else [Aligned(r.addr)])
  }

  function WriteData(requests: seq<Request>): seq<DataBeat> {
    if requests == [] then []
    else
      var r := requests[|requests| - 1];
      WriteData(requests[..|requests| - 1]) + (if r.read then [] else [DataBeat(r.data, r.strobe)])
  }

  // At most one of the two handshakes of the write at the head is made before both are, and none
  // while a transaction is outstanding.
  predicate FlagsInv(p: Port) {
    && !(p.flags.awInhibit && p.flags.wInhibit)
    && (p.flags.awInhibit || p.flags.wInhibit ==> !p.flags.pending && p.req != [] && !p.req[0].read)
  }

  predicate PortInv(run: PortRun) {
    var p, log := run.port, run.log;
    && p.Valid()
    && FlagsInv(p)
    && |p.resp| == |p.req| + (if p.flags.pending then 1 else 0)
    && log.taken == log.completed + p.req
    && log.tags == log.acked + p.resp
    && |log.tags| == |log.taken|
    && log.ar == ReadAddresses(log.completed)
    && log.aw == WriteAddresses(log.completed) + (if p.flags.awInhibit then [Aligned(p.req[0].addr)] else [])
    && log.w == WriteData(log.completed) + (if p.flags.wInhibit then [DataBeat(p.req[0].data, p.req[0].strobe)] else [])
  }

  lemma FlagsStep(p: Port, i: PortInputs)
    requires p.Valid() && FlagsInv(p) && SlaveObeys(p, i)
    ensures FlagsInv(p.Next(i))
  {
  }

  lemma CountsStep(p: Port, i: PortInputs)
    requires p.Valid() && SlaveObeys(p, i) && |p.resp| == |p.req| + (if p.flags.pending then 1 else 0)
    ensures |p.Next(i).resp| == |p.Next(i).req| + (if p.Next(i).flags.pending then 1 else 0)
  {
  }

  lemma QueuesStep(run: PortRun, i: PortInputs)
    requires PortInv(run)
    ensures
      var next := PortStep(run, i);
      && next.log.taken == next.log.completed + next.port.req
      && next.log.tags == next.log.acked + next.port.resp
  {
    var p := run.port;
    QueueConserves(run.log.taken, run.log.completed, p.req, DEPTH, p.Taken(i), Request(i.rd, i.wr, i.data, i.addr), p.Complete(i));
    QueueConserves(run.log.tags, run.log.acked, p.resp, DEPTH, p.Taken(i), i.tag, i.Ack() && p.resp != []);
  }

  lemma ChannelsAppend(completed: seq<Request>, r: Request)
    ensures ReadAddresses(completed + [r]) == ReadAddresses(completed) + (if r.read then [Aligned(r.addr)] else [])
    ensures WriteAddresses(completed + [r]) == WriteAddresses(completed) + (if r.read then [] else [Aligned(r.addr)])
    ensures WriteData(completed + [r]) == WriteData(completed) + (if r.read then [] else [DataBeat(r.data, r.strobe)])
  {
    assert (completed + [r])[..|completed|] == completed;
  }

  lemma ReadChannelStep(run: PortRun, i: PortInputs)
    requires PortInv(run) && SlaveObeys(run.port, i)
    ensures PortStep(run, i).log.ar == ReadAddresses(PortStep(run, i).log.completed)
  {
    var p, log := run.port, run.log;
    assert log.ar + [] == log.ar && log.completed + [] == log.completed;
    if p.Complete(i) {
      ChannelsAppend(log.completed, p.req[0]);
    }
  }

  lemma AddressChannelStep(run: PortRun, i: PortInputs)
    requires PortInv(run) && SlaveObeys(run.port, i) && FlagsInv(run.port.Next(i))
    ensures
      var p, log := run.port.Next(i), PortStep(run, i).log;
      log.aw == WriteAddresses(log.completed) + (if p.flags.awInhibit then [Aligned(p.req[0].addr)] else [])
  {
    var p, log := run.port, run.log;
    var done := WriteAddresses(log.completed);
    assert log.aw + [] == log.aw && done + [] == done && log.completed + [] == log.completed;
    if p.Complete(i) {
      ChannelsAppend(log.completed, p.req[0]);
      var after := WriteAddresses(log.completed + [p.req[0]]);
      assert after + [] == after && !p.Next(i).flags.awInhibit;
    }
  }

  lemma DataChannelStep(run: PortRun, i: PortInputs)
    requires PortInv(run) && SlaveObeys(run.port, i) && FlagsInv(run.port.Next(i))
    ensures
      var p, log := run.port.Next(i), PortStep(run, i).log;
      log.w == WriteData(log.completed) + (if p.flags.wInhibit then [DataBeat(p.req[0].data, p.req[0].strobe)] else [])
  {
    var p, log := run.port, run.log;
    var done := WriteData(log.completed);
    assert log.w + [] == log.w && done + [] == done && log.completed + [] == log.completed;
    if p.Complete(i) {
      ChannelsAppend(log.completed, p.req[0]);
      var after := WriteData(log.completed + [p.req[0]]);
      assert after + [] == after && !p.Next(i).flags.wInhibit;
    }
  }

  lemma PortInvStep(run: PortRun, i: PortInputs)
    requires PortInv(run) && SlaveObeys(run.port, i)
    ensures PortInv(PortStep(run, i))
  {
    FlagsStep(run.port, i);
    CountsStep(run.port, i);
    QueuesStep(run, i);
    ReadChannelStep(run, i);
    AddressChannelStep(run, i);
    DataChannelStep(run, i);
  }

  function PortRunOf(inputs: seq<PortInputs>): (run: PortRun)
    ensures run.port.Valid()
  {
    if inputs == [] then START else PortStep(PortRunOf(inputs[..|inputs| - 1]), inputs[|inputs| - 1])
  }

  predicate SlaveAllows(inputs: seq<PortInputs>) {
    inputs != [] ==>
      && SlaveAllows(inputs[..|inputs| - 1])
      && SlaveObeys(PortRunOf(inputs[..|inputs| - 1]).port, inputs[|inputs| - 1])
  }

  // In every run: requests leave in order, each read makes one AR handshake and each write one AW
  // and one W handshake, with its own address, data and strobes; acknowledgements take the tags in
  // order; a tag is held for each request queued or outstanding, and there is one of the latter.
  lemma {:induction false} PortDelivers(inputs: seq<PortInputs>)
    requires SlaveAllows(inputs)
    ensures PortInv(PortRunOf(inputs))
  {
    if inputs != [] {
      PortDelivers(inputs[..|inputs| - 1]);
      PortInvStep(PortRunOf(inputs[..|inputs| - 1]), inputs[|inputs| - 1]);
    }
  }

  // The number of transactions completed and not yet acknowledged is request_pending_q.
  lemma OneOutstanding(run: PortRun)
    requires PortInv(run)
    ensures |run.log.completed| - |run.log.acked| == if run.port.flags.pending then 1 else 0
  {
    assert |run.log.taken| == |run.log.completed| + |run.port.req|;
    assert |run.log.tags| == |run.log.acked| + |run.port.resp|;
  }

  // Once VALID is up on a channel it stays, with the same payload, until READY.
  lemma ChannelsHeld(p: Port, i: PortInputs, j: PortInputs)
    requires p.Valid() && FlagsInv(p) && SlaveObeys(p, i) && SlaveObeys(p.Next(i), j)
    ensures p.ArValid(i) && !i.arready ==> p.Next(i).ArValid(j) && p.Next(i).req[0] == p.req[0]
    ensures p.AwValid(i) && !i.awready ==> p.Next(i).AwValid(j) && p.Next(i).req[0] == p.req[0]
    ensures p.WValid(i) && !i.wready ==> p.Next(i).WValid(j) && p.Next(i).req[0] == p.req[0]
  {
  }

  // The CPU's request is accepted while fewer than two are unanswered.
  lemma AcceptedBelowTwo(run: PortRun)
    requires PortInv(run)
    ensures run.port.Accept() <==> |run.log.tags| - |run.log.acked| < 2
  {
  }

  // A slave that is ready and answers in the cycle after a transaction, and a CPU that asks no more.
  predicate Obliging(p: Port, i: PortInputs) {
    !i.Asked() && i.awready && i.wready && i.arready && (i.Ack() <==> p.flags.pending)
  }

  // Each cycle then issues or answers something.
  lemma PortProgress(p: Port, i: PortInputs)
    requires p.Valid() && FlagsInv(p) && Obliging(p, i)
    requires |p.resp| == |p.req| + (if p.flags.pending then 1 else 0)
    ensures p.resp == [] ==> p.Next(i).resp == []
    ensures p.resp != [] ==> |p.Next(i).req| + |p.Next(i).resp| < |p.req| + |p.resp|
  {
  }

  predicate AllOblige(before: seq<PortInputs>, more: seq<PortInputs>) {
    more != [] ==>
      && AllOblige(before, more[..|more| - 1])
      && Obliging(PortRunOf(before + more[..|more| - 1]).port, more[|more| - 1])
  }

  lemma {:induction false} PortCountsDown(before: seq<PortInputs>, more: seq<PortInputs>)
    requires SlaveAllows(before) && AllOblige(before, more)
    ensures SlaveAllows(before + more)
    ensures
      var p, q := PortRunOf(before).port, PortRunOf(before + more).port;
      q.resp == [] || |q.req| + |q.resp| + |more| <= |p.req| + |p.resp|
  {
    hide PortInv, PortStep, FlagsInv;
    if more == [] {
      assert before + more == before;
    } else {
      var n := |more| - 1;
      var run := before + more[..n];
      assert (before + more)[..|before + more| - 1] == run && (before + more)[|before + more| - 1] == more[n];
      PortCountsDown(before, more[..n]);
      PortDelivers(run);
      StepProgress(PortRunOf(run), more[n]);
    }
  }

  lemma StepProgress(run: PortRun, i: PortInputs)
    requires PortInv(run) && Obliging(run.port, i)
    ensures SlaveObeys(run.port, i)
    ensures
      var p, q := run.port, PortStep(run, i).port;
      && (p.resp == [] ==> q.resp == [])
      && (p.resp != [] ==> |q.req| + |q.resp| < |p.req| + |p.resp|)
  {
    PortProgress(run.port, i);
  }

  // So after any run, within four such cycles every request taken is issued and answered.
  lemma RequestsFinish(before: seq<PortInputs>, more: seq<PortInputs>)
    requires SlaveAllows(before) && AllOblige(before, more) && |more| == 4
    ensures
      var log := PortRunOf(before + more).log;
      log.acked == log.tags && log.completed == log.taken
  {
    PortCountsDown(before, more);
    PortDelivers(before + more);
  }
}
