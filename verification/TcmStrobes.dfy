/** Write beats without strobes on the AXI bridge: exactly which bursts are answered. */
module TcmStrobes {
  import opened TcmTypes
  import opened TcmBridge
  import opened TcmBridgeRun
  import opened TcmBridgeTheorems

  // A write beat taken from the bus, together with the burst's address or after it.
  datatype TakenBeat = TakenBeat(strobed: bool, withAddress: bool)

  // The write burst accepted last: the writes called for before it, and its beats taken so far.
  datatype Watch = NoWrite | Watching(id: Id, len: Length, earlier: seq<Id>, beats: seq<TakenBeat>) {
    function Next(regs: Registers, fa: bool, i: Inputs, asked: seq<Id>): Watch {
      if regs.AwTaken(i, fa) then Watching(i.aw.id, i.aw.len, asked, BeatNow(regs, fa, i))
      else if Watching? then this.(beats := beats + BeatNow(regs, fa, i))
      else this
    }

    // No beat is taken ahead of its address.
    predicate Allows(regs: Registers, fa: bool, i: Inputs) {
      regs.WTaken(i, fa) && !regs.AwTaken(i, fa) ==> Watching? && |beats| <= len
    }

    // All beats of the burst have been taken.
    predicate AllTaken() {
      Watching? && |beats| == len + 1
    }

    predicate OnlyBeatLost() {
      Watching? && len == 0 && beats != [] && beats[0].withAddress && !beats[0].strobed
    }

    // The burst is answered: every beat has a strobe, but for a first beat that is taken together with
    // the address and is not the only one.
    predicate Answered() {
      Watching? && !OnlyBeatLost() && forall k :: 0 <= k < |beats| ==> beats[k].withAddress || beats[k].strobed
    }
  }

  function BeatNow(regs: Registers, fa: bool, i: Inputs): seq<TakenBeat> {
    if regs.WTaken(i, fa) then [TakenBeat(i.w.strobe != NO_STROBE, regs.AwTaken(i, fa))] else []
  }

  // Beats after the address without strobes: the bridge takes them and goes on waiting.
  function Missed(beats: seq<TakenBeat>): nat {
    if beats == [] then 0
    else
      var b := beats[|beats| - 1];
      Missed(beats[..|beats| - 1]) + (if b.withAddress || b.strobed then 0 else 1)
  }

  lemma MissedAppend(beats: seq<TakenBeat>, b: TakenBeat)
    ensures Missed(beats + [b]) == Missed(beats) + (if b.withAddress || b.strobed then 0 else 1)
  {
    assert (beats + [b])[..|beats|] == beats;
  }

  lemma {:induction false} NoneMissed(beats: seq<TakenBeat>)
    ensures Missed(beats) == 0 <==> forall k :: 0 <= k < |beats| ==> beats[k].withAddress || beats[k].strobed
  {
    if beats != [] {
      NoneMissed(beats[..|beats| - 1]);
    }
  }

  // The bridge waits for as many beats as the master still has to send and as it has missed.
  predicate WatchInv(regs: Registers, watch: Watch) {
    match watch
    case NoWrite => !regs.wr
    case Watching(id, len, _, beats) =>
      && |beats| <= len + 1
      && (regs.wr ==> regs.id == id && regs.len + |beats| == len + Missed(beats))
      && (!regs.wr ==> |beats| == len + 1 && Missed(beats) == 0)
  }

  lemma WatchAccepted(regs: Registers, peers: Peers, watch: Watch, fa: bool, i: Inputs, asked: seq<Id>)
    requires RegistersInv(regs, peers) && peers.BusAllows(regs, fa, i)
    requires regs.AwTaken(i, fa)
    ensures WatchInv(regs.Next(i, fa), watch.Next(regs, fa, i, asked))
  {
    MissedAppend([], TakenBeat(i.w.strobe != NO_STROBE, true));
    assert [] + BeatNow(regs, fa, i) == BeatNow(regs, fa, i);
  }

  lemma WatchContinues(regs: Registers, peers: Peers, watch: Watch, fa: bool, i: Inputs, asked: seq<Id>)
    requires RegistersInv(regs, peers) && WatchInv(regs, watch) && watch.Allows(regs, fa, i)
    requires !regs.AwTaken(i, fa)
    ensures WatchInv(regs.Next(i, fa), watch.Next(regs, fa, i, asked))
  {
    if regs.WTaken(i, fa) {
      MissedAppend(watch.beats, TakenBeat(i.w.strobe != NO_STROBE, false));
    } else if watch.Watching? {
      assert watch.beats + [] == watch.beats;
    }
  }

  // A run, with the write burst accepted last.
  datatype Watched = Watched(run: Run, watch: Watch)

  function WatchedStep(w: Watched, i: Inputs): (next: Watched)
    requires w.run.bridge.Valid()
    ensures next.run.bridge.Valid()
  {
    var b := w.run.bridge;
    Watched(Step(w.run, i), w.watch.Next(b.regs, b.FifoAccept(), i, WritesAsked(w.run.log.bursts)))
  }

  function WatchedRun(inputs: seq<Inputs>): (w: Watched)
    ensures w.run.bridge.Valid()
  {
    if inputs == [] then Watched(START, NoWrite) else WatchedStep(WatchedRun(inputs[..|inputs| - 1]), inputs[|inputs| - 1])
  }

  predicate WatchedAllows(w: Watched, i: Inputs) {
    Allowed(w.run, i) && w.watch.Allows(w.run.bridge.regs, w.run.bridge.FifoAccept(), i)
  }

  predicate AllAllowed(inputs: seq<Inputs>) {
    inputs != [] ==>
      AllAllowed(inputs[..|inputs| - 1]) && WatchedAllows(WatchedRun(inputs[..|inputs| - 1]), inputs[|inputs| - 1])
  }

  predicate AskedInv(bursts: seq<Burst>, watch: Watch) {
    WritesAsked(bursts) ==
    if watch.NoWrite? then [] else watch.earlier + (if watch.OnlyBeatLost() then [] else [watch.id])
  }

  predicate WatchedInv(w: Watched) {
    Inv(w.run) && WatchInv(w.run.bridge.regs, w.watch) && AskedInv(w.run.log.bursts, w.watch)
  }

  lemma WritesAskedAppend(bursts: seq<Burst>, c: Burst)
    ensures WritesAsked(bursts + [c]) == WritesAsked(bursts) + (if c.read || Lost(c) then [] else [c.command.id])
  {
    assert (bursts + [c])[..|bursts|] == bursts;
  }

  lemma AskedStep(regs: Registers, peers: Peers, bursts: seq<Burst>, watch: Watch, fa: bool, i: Inputs)
    requires RegistersInv(regs, peers) && WatchInv(regs, watch) && watch.Allows(regs, fa, i) && AskedInv(bursts, watch)
    ensures AskedInv(bursts + BurstAccepted(regs, fa, i), watch.Next(regs, fa, i, WritesAsked(bursts)))
  {
    hide WritesAsked, WatchInv;
    var now := BurstAccepted(regs, fa, i);
    Exclusive(regs, peers, fa, i);
    if watch.Watching? && !regs.AwTaken(i, fa) {
      FirstBeatKept(regs, watch, fa, i);
    }
    if now == [] {
      assert bursts + now == bursts;
    } else {
      assert now == [now[0]];
      WritesAskedAppend(bursts, now[0]);
    }
  }

  // Beats taken after the address do not make a burst the lost one.
  lemma FirstBeatKept(regs: Registers, watch: Watch, fa: bool, i: Inputs)
    requires WatchInv(regs, watch) && watch.Allows(regs, fa, i) && watch.Watching? && !regs.AwTaken(i, fa)
    ensures watch.(beats := watch.beats + BeatNow(regs, fa, i)).OnlyBeatLost() == watch.OnlyBeatLost()
  {
  }

  lemma WatchedInvStep(w: Watched, i: Inputs)
    requires WatchedInv(w) && WatchedAllows(w, i)
    ensures WatchedInv(WatchedStep(w, i))
  {
    hide Inv, WatchInv, AskedInv;
    var b, fa := w.run.bridge, w.run.bridge.FifoAccept();
    InvHasRegisters(w.run);
    InvStep(w.run, i);
    AskedStep(b.regs, w.run.peers, w.run.log.bursts, w.watch, fa, i);
    if b.regs.AwTaken(i, fa) {
      WatchAccepted(b.regs, w.run.peers, w.watch, fa, i, WritesAsked(w.run.log.bursts));
    } else {
      WatchContinues(b.regs, w.run.peers, w.watch, fa, i, WritesAsked(w.run.log.bursts));
    }
  }

  lemma InvHasRegisters(run: Run)
    requires Inv(run)
    ensures RegistersInv(run.bridge.regs, run.peers)
  {
  }

  lemma {:induction false} WatchedRunInv(inputs: seq<Inputs>)
    requires AllAllowed(inputs)
    ensures WatchedInv(WatchedRun(inputs))
  {
    hide WatchedInv, WatchedAllows, WatchedStep;
    if inputs == [] {
      StartWatched();
    } else {
      WatchedRunInv(inputs[..|inputs| - 1]);
      WatchedInvStep(WatchedRun(inputs[..|inputs| - 1]), inputs[|inputs| - 1]);
    }
  }

  lemma StartWatched()
    ensures WatchedInv(Watched(START, NoWrite))
  {
  }

  // The responses given and those waiting in the FIFO, when all beats of the last write are taken.
  lemma AnsweredNow(w: Watched)
    requires WatchedInv(w) && w.watch.AllTaken()
    ensures w.run.bridge.regs.wr <==> Missed(w.watch.beats) > 0
    ensures w.run.log.bOut + Writes(w.run.bridge.requests) ==
            w.watch.earlier + (if w.watch.Answered() then [w.watch.id] else [])
  {
    hide Inv, Remaining, Tags, Writes, Missed;
    var regs := w.run.bridge.regs;
    InvHasRegisters(w.run);
    NoneMissed(w.watch.beats);
    Delivers(w.run);
    WritesJoin(w.run.bridge.requests, Tags(Remaining(regs)));
    RemainingWrites(regs, w.run.peers);
    SplitResponses(w.run.log.bOut, Writes(w.run.bridge.requests), Writes(Tags(Remaining(regs))), w.watch.earlier, w.watch.id,
                   w.watch.OnlyBeatLost());
  }

  lemma RemainingWrites(regs: Registers, peers: Peers)
    requires RegistersInv(regs, peers)
    ensures Writes(Tags(Remaining(regs))) == if regs.wr then [regs.id] else []
  {
    if regs.wr || regs.rd {
      var c := Burst(regs.rd, Command(regs.addr, regs.id, regs.len), false);
      BurstAsks(c);
      assert BeatsOf(c) == Remaining(regs);
    }
  }

  lemma SplitResponses(out: seq<Id>, waiting: seq<Id>, due: seq<Id>, earlier: seq<Id>, id: Id, lost: bool)
    requires earlier + (if lost then [] else [id]) == out + (waiting + due)
    requires due == [] || (due == [id] && !lost)
    ensures out + waiting == earlier + (if lost || due != [] then [] else [id])
  {
    if due == [] {
      assert out + (waiting + due) == out + waiting;
    } else {
      assert earlier == (earlier + [id])[..|earlier|];
      assert out + waiting == (out + (waiting + due))[..|out + waiting|];
    }
  }

  // In every run in which no beat is taken ahead of its address, with arbitrary strobes: when all
  // beats of the write accepted last have been taken, its response is given or waiting if and only if
  // every beat has a strobe, but for a first beat taken together with the address that is not the
  // only one; otherwise the burst is lost, or the bridge waits for beats that do not come.
  lemma AnsweredIffStrobed(inputs: seq<Inputs>)
    requires AllAllowed(inputs) && WatchedRun(inputs).watch.AllTaken()
    ensures
      var w := WatchedRun(inputs);
      && w.run.log.bOut + Writes(w.run.bridge.requests) ==
         w.watch.earlier + (if w.watch.Answered() then [w.watch.id] else [])
      && (w.run.bridge.regs.wr <==> !w.watch.Answered() && !w.watch.OnlyBeatLost())
  {
    WatchedRunInv(inputs);
    AnsweredNow(WatchedRun(inputs));
    NoneMissed(WatchedRun(inputs).watch.beats);
  }

  // While it waits it takes no command, and the next beat offered, whosever it is, as its own.
  lemma WaitingTakesAnyBeat(regs: Registers, peers: Peers, fa: bool, i: Inputs)
    requires RegistersInv(regs, peers) && regs.wr
    ensures !regs.AwTaken(i, fa) && !regs.ArTaken(i, fa)
    ensures i.wvalid && i.ramAccept && fa ==> regs.WTaken(i, fa) && regs.Ram(i, fa).addr == regs.addr
  {
  }
}
