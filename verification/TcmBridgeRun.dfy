/** Whole runs of the AXI bridge: every accepted burst becomes its beats, in order, and every beat
    its answer. */
module TcmBridgeRun {
  import opened TcmTypes
  import opened TcmFifo
  import opened TcmBridge

  datatype Held<T> = Nothing | Just(value: T)

  // What the peers owe: commands and data presented but not yet taken, and whether the RAM took a
  // request at the last edge.
  datatype Peers = Peers(ar: Held<Command>, aw: Held<Command>, w: Held<WriteBeat>, owed: bool) {
    // VALID and payload are held until READY, and a write beat taken together with its address is
    // the first of the burst, marked last when it is the only one. Its strobes are arbitrary...
    predicate BusAllows(regs: Registers, fifoAccept: bool, i: Inputs) {
      && (ar.Just? ==> i.arvalid && i.ar == ar.value)
      && (aw.Just? ==> i.awvalid && i.aw == aw.value)
      && (w.Just? ==> i.wvalid && i.w == w.value)
      && (regs.AwTaken(i, fifoAccept) && regs.WTaken(i, fifoAccept) ==> (i.w.last <==> i.aw.len == 0))
    }

    // ...and the RAM acknowledges one cycle after it accepts.
    predicate Allow(regs: Registers, fifoAccept: bool, i: Inputs) {
      BusAllows(regs, fifoAccept, i) && i.ramAck == owed
    }

    function Next(regs: Registers, fifoAccept: bool, i: Inputs): Peers {
      Peers(if i.arvalid && !regs.ArTaken(i, fifoAccept) then Just(i.ar) else Nothing,
            if i.awvalid && !regs.AwTaken(i, fifoAccept) then Just(i.aw) else Nothing,
            if i.wvalid && !regs.WTaken(i, fifoAccept) then Just(i.w) else Nothing,
            regs.PushTag(i, fifoAccept))
    }
  }

  predicate RegistersInv(regs: Registers, peers: Peers) {
    && !(regs.rd && regs.wr)
    && !(regs.holdRd && regs.holdWr)
    && (regs.holdRd ==> !regs.wr && (regs.rd || peers.ar.Just?))
    && (regs.holdWr ==> !regs.rd && (regs.wr || peers.aw.Just?))
  }

  // Reads and writes never compete for the RAM in one cycle.
  lemma Exclusive(regs: Registers, peers: Peers, fa: bool, i: Inputs)
    requires RegistersInv(regs, peers)
    ensures !(regs.WriteActive(i, fa) && regs.ReadActive(i, fa))
  {
  }

  lemma RegistersInvStep(regs: Registers, peers: Peers, fa: bool, i: Inputs)
    requires RegistersInv(regs, peers) && peers.Allow(regs, fa, i)
    ensures RegistersInv(regs.Next(i, fa), peers.Next(regs, fa, i))
  {
    Exclusive(regs, peers, fa, i);
  }

  // One RAM access of a burst.
  datatype Beat = Beat(tag: Tag, addr: Address)

  // The beats of a burst: len + 1 of them, four bytes apart, only the final one marked last.
  function Beats(read: bool, id: Id, addr: Address, len: Length): (beats: seq<Beat>)
    ensures |beats| == len + 1
    ensures forall k :: 0 <= k <= len ==> beats[k] == Beat(Tag(read, k == len, id), (addr + 4 * k) % 0x1_0000_0000)
  {
    seq(len + 1, k requires 0 <= k <= len => Beat(Tag(read, k == len, id), (addr + 4 * k) % 0x1_0000_0000))
  }

  // The bridge goes from each to the next.
  lemma BeatsUnfold(read: bool, id: Id, addr: Address, len: Length)
    ensures Beats(read, id, addr, len) ==
            [Beat(Tag(read, len == 0, id), addr)] +
            (if len == 0 then [] else Beats(read, id, NextAddress(addr), len - 1))
  {
  }

  // The beats still due for the burst in the registers.
  function Remaining(regs: Registers): seq<Beat> {
    if regs.rd || regs.wr then Beats(regs.rd, regs.id, regs.addr, regs.len) else []
  }

  // A burst accepted; skipped says that its first beat was taken together with the address and had
  // no strobe.
  datatype Burst = Burst(read: bool, command: Command, skipped: bool)

  // The accesses it stands for.
  function BeatsOf(c: Burst): seq<Beat> {
    var beats := Beats(c.read, c.command.id, c.command.addr, c.command.len);
    if !c.read && c.skipped then beats[1..] else beats
  }

  function BurstAccepted(regs: Registers, fa: bool, i: Inputs): seq<Burst> {
    if regs.AwTaken(i, fa) then [Burst(false, i.aw, regs.WTaken(i, fa) && i.w.strobe == NO_STROBE)]
    else if regs.ArTaken(i, fa) then [Burst(true, i.ar, false)]
    else []
  }

  // The beats of the burst accepted in a cycle, and the access accepted by the RAM.
  function BurstNow(regs: Registers, fa: bool, i: Inputs): seq<Beat> {
    if BurstAccepted(regs, fa, i) == [] then [] else BeatsOf(BurstAccepted(regs, fa, i)[0])
  }

  function AccessNow(regs: Registers, fa: bool, i: Inputs): seq<Beat> {
    if regs.PushTag(i, fa) then [Beat(regs.TagIn(i, fa), regs.Ram(i, fa).addr)] else []
  }

  // Each cycle performs the first of the beats due, if any.
  lemma BeatsConserved(regs: Registers, peers: Peers, fa: bool, i: Inputs)
    requires RegistersInv(regs, peers) && peers.Allow(regs, fa, i)
    ensures Remaining(regs) + BurstNow(regs, fa, i) == AccessNow(regs, fa, i) + Remaining(regs.Next(i, fa))
  {
    Exclusive(regs, peers, fa, i);
    BeatsUnfold(regs.rd, regs.id, regs.addr, regs.len);
    BeatsUnfold(false, i.aw.id, i.aw.addr, i.aw.len);
    BeatsUnfold(true, i.ar.id, i.ar.addr, i.ar.len);
  }

  // A write is performed exactly when a beat with strobes is taken from the bus, with its data.
  lemma WriteBeatPerformed(regs: Registers, peers: Peers, fa: bool, i: Inputs)
    requires RegistersInv(regs, peers)
    ensures regs.WTaken(i, fa) && i.w.strobe != NO_STROBE <==> regs.PushTag(i, fa) && !regs.TagIn(i, fa).read
    ensures regs.WTaken(i, fa) && i.w.strobe != NO_STROBE ==>
              regs.Ram(i, fa).strobe == i.w.strobe && regs.Ram(i, fa).data == i.w.data && !regs.Ram(i, fa).read
  {
    Exclusive(regs, peers, fa, i);
  }

  // A request answered: its tag and the word the RAM gave with it.
  datatype Answer = Answer(tag: Tag, word: Word)

  // Handshakes on the R channel.
  datatype ReadBeat = ReadBeat(id: Id, data: Word, last: bool)

  // What has happened so far: bursts accepted, RAM accesses, words acknowledged by the RAM,
  // requests answered, and the handshakes on the R and B channels.
  datatype Log = Log(bursts: seq<Burst>, accesses: seq<Beat>, words: seq<Word>, answers: seq<Answer>,
                     rOut: seq<ReadBeat>, bOut: seq<Id>)

  datatype Run = Run(bridge: Bridge, peers: Peers, log: Log)

  const START := Run(RESET, Peers(Nothing, Nothing, Nothing, false), Log([], [], [], [], [], []))

  function AnswerNow(b: Bridge, i: Inputs): seq<Answer> {
    if b.Pop(i) then [Answer(b.requests[0], b.responses[0])] else []
  }

  function ROutNow(b: Bridge, i: Inputs): seq<ReadBeat> {
    if b.RValid() && i.rready then [ReadBeat(b.requests[0].id, b.responses[0], b.requests[0].last)] else []
  }

  function BOutNow(b: Bridge, i: Inputs): seq<Id> {
    if b.BValid() && i.bready then [b.requests[0].id] else []
  }

  function LogNext(log: Log, b: Bridge, i: Inputs): Log {
    var fa := b.FifoAccept();
    Log(log.bursts + BurstAccepted(b.regs, fa, i),
        log.accesses + AccessNow(b.regs, fa, i),
        log.words + (if i.ramAck then [i.ramData] else []),
        log.answers + AnswerNow(b, i),
        log.rOut + ROutNow(b, i),
        log.bOut + BOutNow(b, i))
  }

  predicate Allowed(run: Run, i: Inputs) {
    run.peers.Allow(run.bridge.regs, run.bridge.FifoAccept(), i)
  }

  function Step(run: Run, i: Inputs): Run
    requires run.bridge.Valid()
  {
    var b := run.bridge;
    Run(b.Next(i), run.peers.Next(b.regs, b.FifoAccept(), i), LogNext(run.log, b, i))
  }

  // All the beats the accepted bursts stand for.
  function Expected(bursts: seq<Burst>): seq<Beat> {
    if bursts == [] then [] else Expected(bursts[..|bursts| - 1]) + BeatsOf(bursts[|bursts| - 1])
  }

  function Tags(beats: seq<Beat>): (tags: seq<Tag>)
    ensures |tags| == |beats|
  {
    seq(|beats|, k requires 0 <= k < |beats| => beats[k].tag)
  }

  function AnswerTags(answers: seq<Answer>): (tags: seq<Tag>)
    ensures |tags| == |answers|
  {
    seq(|answers|, k requires 0 <= k < |answers| => answers[k].tag)
  }

  function AnswerWords(answers: seq<Answer>): (words: seq<Word>)
    ensures |words| == |answers|
  {
    seq(|answers|, k requires 0 <= k < |answers| => answers[k].word)
  }

  // The answers to reads, and to whole writes.
  function Reads(answers: seq<Answer>): seq<ReadBeat> {
    if answers == [] then []
    else
      var a := answers[|answers| - 1];
      Reads(answers[..|answers| - 1]) + (if a.tag.read then [ReadBeat(a.tag.id, a.word, a.tag.last)] else [])
  }

  function Writes(tags: seq<Tag>): seq<Id> {
    if tags == [] then []
    else
      var t := tags[|tags| - 1];
      Writes(tags[..|tags| - 1]) + (if !t.read && t.last then [t.id] else [])
  }

  predicate Inv(run: Run) {
    var b, log := run.bridge, run.log;
    && b.Valid()
    && RegistersInv(b.regs, run.peers)
    && Expected(log.bursts) == log.accesses + Remaining(b.regs)
    && Tags(log.accesses) == AnswerTags(log.answers) + b.requests
    && log.words == AnswerWords(log.answers) + b.responses
    && |log.accesses| == |log.words| + (if run.peers.owed then 1 else 0)
    && log.rOut == Reads(log.answers)
    && log.bOut == Writes(AnswerTags(log.answers))
  }

  // The response FIFO never overflows, although its accept output is unused: it has room for
  // every word the RAM still owes.
  lemma ResponsesFit(run: Run)
    requires Inv(run)
    ensures |run.bridge.requests| == |run.bridge.responses| + (if run.peers.owed then 1 else 0)
    ensures run.peers.owed ==> |run.bridge.responses| < DEPTH
  {
  }

  lemma ExpectedAppend(bursts: seq<Burst>, c: Burst)
    ensures Expected(bursts + [c]) == Expected(bursts) + BeatsOf(c)
  {
    assert (bursts + [c])[..|bursts|] == bursts;
  }

  lemma ExpectedStep(bursts: seq<Burst>, regs: Registers, fa: bool, i: Inputs)
    ensures Expected(bursts + BurstAccepted(regs, fa, i)) == Expected(bursts) + BurstNow(regs, fa, i)
  {
    var now := BurstAccepted(regs, fa, i);
    if now == [] {
      assert bursts + now == bursts;
    } else {
      assert now == [now[0]];
      ExpectedAppend(bursts, now[0]);
    }
  }

  lemma Regroup<T>(a: seq<T>, b: seq<T>, c: seq<T>, d: seq<T>, e: seq<T>)
    requires b + c == d + e
    ensures (a + b) + c == (a + d) + e
  {
    assert (a + b) + c == a + (b + c);
    assert (a + d) + e == a + (d + e);
  }

  lemma BeatsInvStep(log: Log, peers: Peers, b: Bridge, i: Inputs)
    requires b.Valid() && RegistersInv(b.regs, peers) && peers.Allow(b.regs, b.FifoAccept(), i)
    requires Expected(log.bursts) == log.accesses + Remaining(b.regs)
    ensures Expected(LogNext(log, b, i).bursts) == LogNext(log, b, i).accesses + Remaining(b.Next(i).regs)
  {
    var fa := b.FifoAccept();
    ExpectedStep(log.bursts, b.regs, fa, i);
    BeatsConserved(b.regs, peers, fa, i);
    Regroup(log.accesses, Remaining(b.regs), BurstNow(b.regs, fa, i),
            AccessNow(b.regs, fa, i), Remaining(b.regs.Next(i, fa)));
  }

  lemma TagsInvStep(log: Log, b: Bridge, i: Inputs)
    requires b.Valid() && Tags(log.accesses) == AnswerTags(log.answers) + b.requests
    ensures Tags(LogNext(log, b, i).accesses) == AnswerTags(LogNext(log, b, i).answers) + b.Next(i).requests
  {
    var fa := b.FifoAccept();
    var push, tag, pop := b.regs.PushTag(i, fa), b.regs.TagIn(i, fa), b.Pop(i);
    QueueConserves(Tags(log.accesses), AnswerTags(log.answers), b.requests, DEPTH, push, tag, pop);
    assert Tags(log.accesses + AccessNow(b.regs, fa, i)) == Tags(log.accesses) + (if push then [tag] else []);
    assert AnswerTags(log.answers + AnswerNow(b, i)) == AnswerTags(log.answers) + (if pop then [b.requests[0]] else []);
  }

  lemma WordsInvStep(log: Log, b: Bridge, i: Inputs)
    requires b.Valid() && log.words == AnswerWords(log.answers) + b.responses
    requires i.ramAck ==> |b.responses| != DEPTH
    ensures LogNext(log, b, i).words == AnswerWords(LogNext(log, b, i).answers) + b.Next(i).responses
  {
    QueueConserves(log.words, AnswerWords(log.answers), b.responses, DEPTH, i.ramAck, i.ramData, b.Pop(i));
    assert AnswerWords(log.answers + AnswerNow(b, i)) ==
           AnswerWords(log.answers) + (if b.Pop(i) then [b.responses[0]] else []);
  }

  lemma ReadsStep(log: Log, b: Bridge, i: Inputs)
    requires log.rOut == Reads(log.answers)
    ensures LogNext(log, b, i).rOut == Reads(LogNext(log, b, i).answers)
  {
    if b.Pop(i) {
      var a := Answer(b.requests[0], b.responses[0]);
      assert (log.answers + [a])[..|log.answers|] == log.answers;
    } else {
      assert log.answers + [] == log.answers && log.rOut + [] == log.rOut;
    }
  }

  lemma WritesStep(log: Log, b: Bridge, i: Inputs)
    requires log.bOut == Writes(AnswerTags(log.answers))
    ensures LogNext(log, b, i).bOut == Writes(AnswerTags(LogNext(log, b, i).answers))
  {
    if b.Pop(i) {
      var tags, t := AnswerTags(log.answers), b.requests[0];
      assert AnswerTags(log.answers + AnswerNow(b, i)) == tags + [t];
      assert (tags + [t])[..|tags|] == tags;
    } else {
      assert log.answers + [] == log.answers && log.bOut + [] == log.bOut;
    }
  }

  lemma CountsStep(run: Run, i: Inputs)
    requires Inv(run) && Allowed(run, i)
    ensures
      var next := Step(run, i);
      |next.log.accesses| == |next.log.words| + (if next.peers.owed then 1 else 0)
  {
  }

  // Every step of a run keeps the bookkeeping.
  lemma InvStep(run: Run, i: Inputs)
    requires Inv(run) && Allowed(run, i)
    ensures Inv(Step(run, i))
  {
    hide RegistersInv, Expected, Remaining, Reads, Writes, Tags, AnswerTags, AnswerWords;
    hide Registers.Next, Registers.TagIn, LogNext, Peers.Next;
    var b, fa := run.bridge, run.bridge.FifoAccept();
    ResponsesFit(run);
    CountsStep(run, i);
    RegistersInvStep(b.regs, run.peers, fa, i);
    BeatsInvStep(run.log, run.peers, b, i);
    TagsInvStep(run.log, b, i);
    WordsInvStep(run.log, b, i);
    ReadsStep(run.log, b, i);
    WritesStep(run.log, b, i);
  }
}
