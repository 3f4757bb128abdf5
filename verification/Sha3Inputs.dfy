/** The engine seen from its ports alone: which message the words offered make up, and what
    `busy_o`, `overflow_o`, `input_ready_o` and `done_o` say about the inputs so far. */
module Sha3Inputs {
  import opened Bits
  import opened Fips202
  import opened KeccakCore
  import opened Sha3Message
  import opened Sha3Core
  import opened Sha3Engine
  import opened Sha3Run
  import opened Sha3Theorems

  // `data_valid_i` meets `input_ready_o` at the last edge of a run.
  predicate Accepted(inputs: seq<Input>, depth: nat)
    requires |inputs| > 0
  {
    inputs[|inputs| - 1].valid && Execute(inputs[..|inputs| - 1], depth).front.InputReady(depth)
  }

  // The bits an accepted word adds: the first bytes of `data_i`, all four unless it is the last word.
  function Offered(inp: Input): Bits {
    WordBits(inp.data)[..if inp.last then 8 * inp.byteNum else 32]
  }

  // A last word has been accepted since the last init...
  predicate Ended(inputs: seq<Input>, depth: nat) {
    var n := |inputs| - 1;
    n >= 0 && !inputs[n].init && (Ended(inputs[..n], depth) || (Accepted(inputs, depth) && inputs[n].last))
  }

  // ...and the message of the words accepted since then, up to and including the first last one.
  function Sent(inputs: seq<Input>, depth: nat): Bits {
    var n := |inputs| - 1;
    if n < 0 || inputs[n].init then []
    else if Accepted(inputs, depth) && !Ended(inputs[..n], depth) then Sent(inputs[..n], depth) + Offered(inputs[n])
    else Sent(inputs[..n], depth)
  }

  lemma OfferedIsPushed(inp: Input)
    ensures Offered(inp) == EntryBits(inp.Pushed()) && inp.Pushed().last == inp.last
  {
    assert WordBits(inp.data)[..32] == WordBits(inp.data);
  }

  lemma SentStep(pushed: seq<Entry>, inp: Input, sent: Bits)
    requires sent == MessageBits(FirstMessage(pushed))
    ensures MessageBits(FirstMessage(pushed + [inp.Pushed()])) == if HasLast(pushed) then sent else sent + Offered(inp)
    ensures HasLast(pushed + [inp.Pushed()]) <==> HasLast(pushed) || inp.last
  {
    hide WordBits, FirstMessage, HasLast, MessageBits, EntryBits, Offered;
    OfferedIsPushed(inp);
    FirstMessageGrows(pushed, inp.Pushed());
    MessageSnoc(pushed, inp.Pushed());
  }

  // What was pushed is what was sent.
  lemma {:induction false} PushedIsSent(inputs: seq<Input>, depth: nat)
    ensures Ended(inputs, depth) <==> HasLast(Pushed(inputs, depth))
    ensures Sent(inputs, depth) == MessageBits(FirstMessage(Pushed(inputs, depth)))
  {
    hide EngineState.Next, FirstMessage, HasLast, MessageBits, Offered;
    var n := |inputs| - 1;
    if n < 0 || inputs[n].init {
      NothingPushed(inputs, depth);
    } else {
      Unfold(inputs, depth);
      PushedIsSent(inputs[..n], depth);
      if Accepted(inputs, depth) {
        SentStep(Pushed(inputs[..n], depth), inputs[n], Sent(inputs[..n], depth));
      } else {
        assert Pushed(inputs, depth) == Pushed(inputs[..n], depth);
      }
    }
  }

  lemma NothingPushed(inputs: seq<Input>, depth: nat)
    requires |inputs| == 0 || inputs[|inputs| - 1].init
    ensures Pushed(inputs, depth) == [] && !HasLast([]) && MessageBits(FirstMessage([])) == []
  {
  }

  // Whenever done_o is high, digest_o is the digest of the words accepted on the data ports.
  lemma DigestOfInputs(inputs: seq<Input>, depth: nat)
    requires Execute(inputs, depth).front.done
    ensures Ended(inputs, depth)
    ensures Spells(DigestOut(Execute(inputs, depth).core.perm.lanes), Sha3_512(Sent(inputs, depth)))
  {
    hide Execute, Pushed, Sha3_512, DigestOut, Spells, FirstMessage, Sent, Ended, MessageBits;
    DoneShowsDigest(inputs, depth);
    PushedIsSent(inputs, depth);
    CompleteHasLast(Pushed(inputs, depth));
  }

  lemma {:induction false} CompleteHasLast(entries: seq<Entry>)
    requires Complete(FirstMessage(entries))
    ensures HasLast(entries)
  {
    if !(|entries| > 0 && HasLast(entries[..|entries| - 1])) {
      assert entries[|entries| - 1].last;
    } else {
      FirstMessageGrows(entries[..|entries| - 1], entries[|entries| - 1]);
      assert entries == entries[..|entries| - 1] + [entries[|entries| - 1]];
    }
  }

  // What has happened since the last init, or since done_o last rose.
  datatype Since = Since(accepted: bool, last: bool, refused: bool)

  function SinceStart(inputs: seq<Input>, depth: nat): Since {
    var n := |inputs| - 1;
    if n < 0 || inputs[n].init then Since(false, false, false)
    else if Execute(inputs, depth).front.done && !Execute(inputs[..n], depth).front.done then Since(false, false, false)
    else
      var was := SinceStart(inputs[..n], depth);
      Since(was.accepted || Accepted(inputs, depth),
            was.last || (Accepted(inputs, depth) && inputs[n].last),
            was.refused || (inputs[n].valid && !Accepted(inputs, depth)))
  }

  ghost predicate Shows(f: FrontState, since: Since) {
    && f.busy == since.accepted
    && (f.phase == Idle <==> !since.accepted)
    && f.sawLast == since.last
    && f.overflow == since.refused
  }

  lemma FlagsStep(f: FrontState, inp: Input, depth: nat, full: bool, closed: bool, ready: bool, was: Since)
    requires FrontInv(f, closed, ready, depth) && Shows(f, was) && !inp.init
    ensures
      var next, accepted := f.Next(inp, depth, full, ready), inp.valid && f.InputReady(depth);
      Shows(next, if next.done && !f.done then Since(false, false, false)
                  else Since(was.accepted || accepted, was.last || (accepted && inp.last), was.refused || (inp.valid && !accepted)))
  {
  }

  lemma RoomLeft(f: FrontState, closed: bool, ready: bool, since: Since, depth: nat)
    requires FrontInv(f, closed, ready, depth) && Shows(f, since)
    ensures f.InputReady(depth) <==> !since.last && |f.fifo| < depth
  {
  }

  lemma ShowsStep(inputs: seq<Input>, s: EngineState, was: Since, depth: nat)
    requires |inputs| > 0 && !inputs[|inputs| - 1].init && s == Execute(inputs[..|inputs| - 1], depth)
    requires FrontInv(s.front, s.core.pad.closed, s.core.ready, depth)
    requires was == SinceStart(inputs[..|inputs| - 1], depth) && Shows(s.front, was)
    ensures Shows(Execute(inputs, depth).front, SinceStart(inputs, depth))
  {
    hide EngineState.Feed, CoreState.Next, FrontState.Next, FrontState.InputReady, FrontInv, Shows;
    FlagsStep(s.front, inputs[|inputs| - 1], depth, s.core.pad.Full(), s.core.pad.closed, s.core.ready, was);
  }

  lemma StartsQuiet(inputs: seq<Input>, depth: nat)
    requires |inputs| == 0 || inputs[|inputs| - 1].init
    ensures Shows(Execute(inputs, depth).front, SinceStart(inputs, depth))
  {
  }

  // busy_o is high exactly while a message is under way, overflow_o exactly when a word offered with
  // it was refused, and input_ready_o exactly when its last word has not come and the FIFO has room.
  lemma {:induction false} FlagsFollowInputs(inputs: seq<Input>, depth: nat)
    ensures Shows(Execute(inputs, depth).front, SinceStart(inputs, depth))
    ensures Execute(inputs, depth).front.InputReady(depth) <==>
              !SinceStart(inputs, depth).last && |Pushed(inputs, depth)| - |Popped(inputs, depth)| < depth
  {
    hide EngineState.Next, FrontState.InputReady, FrontInv, CoreInv, FirstMessage, HasLast, Accepted, Pushed, Popped, Acknowledged;
    var n := |inputs| - 1;
    if n >= 0 && !inputs[n].init {
      FlagsFollowInputs(inputs[..n], depth);
      RunInv(inputs[..n], depth);
      ShowsStep(inputs, Execute(inputs[..n], depth), SinceStart(inputs[..n], depth), depth);
    } else {
      StartsQuiet(inputs, depth);
    }
    RunInv(inputs, depth);
    QueueRefined(inputs, depth);
    var s := Execute(inputs, depth);
    RoomLeft(s.front, s.core.pad.closed, s.core.ready, SinceStart(inputs, depth), depth);
  }

  // done_o stays high exactly until an init, a start or the next message's first word.
  lemma DoneLasts(inputs: seq<Input>, inp: Input, depth: nat)
    requires depth > 0 && Execute(inputs, depth).front.done
    ensures Execute(inputs + [inp], depth).front.done <==> !inp.init && !inp.start && !inp.valid
  {
    var run := inputs + [inp];
    assert run[..|run| - 1] == inputs && run[|run| - 1] == inp;
    RunInv(inputs, depth);
    Unfold(run, depth);
  }
}
