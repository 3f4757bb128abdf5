/** Runs of the engine that users can make: every byte message can be fed and is digested, and a
    second message without a new `init_i` is accepted but has no influence on the digest. */
module Sha3Feeding {
  import opened Bits
  import opened Fips202
  import opened KeccakPadder
  import opened KeccakCore
  import opened Sha3Message
  import opened Sha3Core
  import opened Sha3Engine
  import opened Sha3Run
  import opened Sha3Liveness
  import opened Sha3Theorems

  // A cycle in which nothing is offered, and one in which an entry is.
  function Pause(): Input {
    Input(false, false, false, Zeros(32), false, 0)
  }

  function Offer(e: Entry): Input {
    Input(false, false, true, e.data, e.last, e.byteNum)
  }

  // The FIFO stores no byte count with a word that is not the last.
  predicate Normal(e: Entry) {
    !e.last ==> e.byteNum == 0
  }

  // A message is being fed, or one can be begun.
  predicate Feeding(f: FrontState) {
    !f.sawLast && f.phase != Wait
  }

  // Without a last word in it, the FIFO is popped without ending the message.
  lemma NoLastInside(f: FrontState, closed: bool, ready: bool, depth: nat)
    requires FrontInv(f, closed, ready, depth) && Feeding(f) && f.fifo != []
    ensures !f.fifo[0].last && f.phase == Run
  {
    if |f.fifo| > 1 {
      assert f.fifo[0] == f.fifo[..|f.fifo| - 1][0];
    }
  }

  // A pause makes room, or brings a full core closer to taking its block.
  lemma PauseStep(s: EngineState, popped: seq<Entry>, blocks: nat, depth: nat)
    requires EngineInv(s, popped, blocks, depth) && Feeding(s.front) && |s.front.fifo| == depth > 0
    ensures
      var next := s.Next(Pause(), depth);
      && Feeding(next.front) && next.core.perm.round <= 23
      && (next.front.InputReady(depth) ||
          (|next.front.fifo| == depth && Wait4Ack(next.core) < Wait4Ack(s.core)))
  {
    NoLastInside(s.front, s.core.pad.closed, s.core.ready, depth);
  }

  predicate Waiting(s: EngineState, depth: nat, w: nat) {
    Feeding(s.front) && s.core.perm.round <= 23 && (s.front.InputReady(depth) || Wait4Ack(s.core) <= w)
  }

  lemma WaitingStarts(s: EngineState, popped: seq<Entry>, blocks: nat, depth: nat)
    requires EngineInv(s, popped, blocks, depth) && Feeding(s.front)
    ensures Waiting(s, depth, 25)
  {
  }

  function Pauses(n: nat): (inputs: seq<Input>)
    ensures |inputs| == n
  {
    seq(n, _ => Pause())
  }

  lemma OnePause(before: seq<Input>, depth: nat)
    ensures Execute(before + [Pause()], depth) == Execute(before, depth).Next(Pause(), depth)
    ensures Pushed(before + [Pause()], depth) == Pushed(before, depth)
  {
    var run := before + [Pause()];
    assert run[..|run| - 1] == before;
  }

  // What feeding keeps from before to after.
  predicate Continues(before: seq<Input>, after: seq<Input>, depth: nat) {
    Pushed(after, depth) == Pushed(before, depth) && Feeding(Execute(after, depth).front)
  }

  // While a message is being fed, input_ready_o is high again within 26 cycles.
  lemma {:induction false} ReadyReturns(before: seq<Input>, depth: nat, w: nat) returns (after: seq<Input>)
    requires depth > 0 && Waiting(Execute(before, depth), depth, w)
    ensures Continues(before, after, depth) && Execute(after, depth).front.InputReady(depth)
    ensures |before| <= |after| <= |before| + w + 1
    decreases w
  {
    hide Execute, Pushed, EngineState.Next;
    if Execute(before, depth).front.InputReady(depth) {
      return before;
    }
    var next := before + [Pause()];
    RunInv(before, depth);
    FullWhenNotReady(Execute(before, depth), Popped(before, depth), |Acknowledged(before, depth)|, depth);
    PauseStep(Execute(before, depth), Popped(before, depth), |Acknowledged(before, depth)|, depth);
    OnePause(before, depth);
    if Execute(next, depth).front.InputReady(depth) {
      return next;
    }
    after := ReadyReturns(next, depth, w - 1);
  }

  lemma FullWhenNotReady(s: EngineState, popped: seq<Entry>, blocks: nat, depth: nat)
    requires EngineInv(s, popped, blocks, depth) && Feeding(s.front) && !s.front.InputReady(depth)
    ensures |s.front.fifo| == depth
  {
  }

  lemma OneOffer(before: seq<Input>, e: Entry, depth: nat)
    requires Execute(before, depth).front.InputReady(depth) && Normal(e)
    ensures Execute(before + [Offer(e)], depth) == Execute(before, depth).Next(Offer(e), depth)
    ensures Pushed(before + [Offer(e)], depth) == Pushed(before, depth) + [e]
  {
    var run := before + [Offer(e)];
    assert run[..|run| - 1] == before;
    assert Offer(e).Pushed() == e;
  }

  lemma OfferStep(s: EngineState, e: Entry, popped: seq<Entry>, blocks: nat, depth: nat)
    requires EngineInv(s, popped, blocks, depth) && Feeding(s.front) && s.front.InputReady(depth)
    ensures
      var next := s.Next(Offer(e), depth).front;
      next.sawLast == e.last && (!e.last ==> Feeding(next))
  {
    if s.front.fifo != [] {
      NoLastInside(s.front, s.core.pad.closed, s.core.ready, depth);
    }
  }

  // Every entry can be pushed...
  lemma FeedEntry(before: seq<Input>, e: Entry, depth: nat) returns (after: seq<Input>)
    requires depth > 0 && Feeding(Execute(before, depth).front) && Normal(e)
    ensures Pushed(after, depth) == Pushed(before, depth) + [e]
    ensures Execute(after, depth).front.sawLast == e.last
    ensures !e.last ==> Feeding(Execute(after, depth).front)
  {
    hide Execute, Pushed, EngineState.Next, EngineInv;
    RunInv(before, depth);
    WaitingStarts(Execute(before, depth), Popped(before, depth), |Acknowledged(before, depth)|, depth);
    var ready := ReadyReturns(before, depth, 25);
    RunInv(ready, depth);
    OfferStep(Execute(ready, depth), e, Popped(ready, depth), |Acknowledged(ready, depth)|, depth);
    OneOffer(ready, e, depth);
    after := ready + [Offer(e)];
  }

  predicate AllNormal(entries: seq<Entry>) {
    forall k :: 0 <= k < |entries| ==> Normal(entries[k])
  }

  // Only such words are ever stored.
  lemma {:induction false} PushedAreNormal(inputs: seq<Input>, depth: nat)
    ensures AllNormal(Pushed(inputs, depth))
  {
    hide Execute, EngineState.Next;
    if |inputs| > 0 {
      PushedAreNormal(inputs[..|inputs| - 1], depth);
    }
  }

  lemma CompleteTail(entries: seq<Entry>)
    requires Complete(entries)
    ensures |entries| == 1 <==> entries[0].last
    ensures |entries| > 1 ==> Complete(entries[1..])
  {
    var n := |entries| - 1;
    if n > 0 {
      assert entries[..n][0] == entries[0];
      assert entries[1..][..n - 1] == entries[..n][1..];
    }
  }

  // ...and so can every message.
  lemma {:induction false} FeedMessage(before: seq<Input>, message: seq<Entry>, depth: nat) returns (after: seq<Input>)
    requires depth > 0 && Feeding(Execute(before, depth).front) && Complete(message) && AllNormal(message)
    ensures Pushed(after, depth) == Pushed(before, depth) + message
    ensures Execute(after, depth).front.sawLast
    decreases |message|
  {
    hide Execute, Pushed, Feeding;
    CompleteTail(message);
    var next := FeedEntry(before, message[0], depth);
    if message[0].last {
      assert message == [message[0]];
      return next;
    }
    after := FeedMessage(next, message[1..], depth);
    assert (Pushed(before, depth) + [message[0]]) + message[1..] == Pushed(before, depth) + message;
  }

  lemma {:induction false} PausesPushNothing(before: seq<Input>, n: nat, k: nat, depth: nat)
    requires k <= n
    ensures Pushed(After(before, Pauses(n), k), depth) == Pushed(before, depth)
  {
    hide Pushed;
    if k == 0 {
      assert After(before, Pauses(n), 0) == before;
    } else {
      PausesPushNothing(before, n, k - 1, depth);
      AfterStep(before, Pauses(n), k);
      OnePause(After(before, Pauses(n), k - 1), depth);
    }
  }

  // A message pushed to its last word finishes while nothing more is offered.
  lemma FinishMessage(before: seq<Input>, depth: nat) returns (after: seq<Input>)
    requires Execute(before, depth).front.sawLast
    ensures Pushed(after, depth) == Pushed(before, depth) && Execute(after, depth).front.done
    ensures Feeding(Execute(after, depth).front)
  {
    hide Execute, Pushed, EngineInv;
    var n := 26 * depth + 524;
    var more := Pauses(n);
    MessageFinishes(before, more, depth);
    var k :| 0 <= k <= |more| && Execute(After(before, more, k), depth).front.done;
    after := After(before, more, k);
    PausesPushNothing(before, n, k, depth);
    RunInv(after, depth);
    DoneIsIdle(Execute(after, depth), Popped(after, depth), |Acknowledged(after, depth)|, depth);
  }

  lemma DoneIsIdle(s: EngineState, popped: seq<Entry>, blocks: nat, depth: nat)
    requires EngineInv(s, popped, blocks, depth) && s.front.done
    ensures Feeding(s.front)
  {
  }

  lemma {:induction false} WordsNormal(bytes: seq<Byte>)
    ensures AllNormal(Words(bytes))
  {
    if |bytes| >= 4 {
      WordsNormal(bytes[4..]);
    }
  }

  lemma StartFeeding(depth: nat)
    ensures Feeding(Execute([], depth).front) && Pushed([], depth) == []
  {
  }

  // Every byte message has a run that pushes it and finishes with its digest.
  lemma EveryMessageIsDigested(bytes: seq<Byte>, depth: nat)
    requires depth > 0
    ensures exists inputs: seq<Input> ::
              && Pushed(inputs, depth) == Words(bytes) && Execute(inputs, depth).front.done
              && Spells(DigestOut(Execute(inputs, depth).core.perm.lanes), Sha3_512(Flatten(bytes)))
  {
    hide Execute, Pushed, Sha3_512, DigestOut, Spells, Feeding, Complete;
    StartFeeding(depth);
    EveryMessageCanBeFed(bytes);
    WordsNormal(bytes);
    var fed := FeedMessage([], Words(bytes), depth);
    assert [] + Words(bytes) == Words(bytes);
    var inputs := FinishMessage(fed, depth);
    OneMessagePerInit(inputs, depth, bytes);
  }

  lemma FirstOfTwo(a: seq<Byte>, b: seq<Byte>)
    ensures FirstMessage(Words(a) + Words(b)) == Words(a)
  {
    EveryMessageCanBeFed(a);
    CompleteIsFirst(Words(a));
    FirstMessageStays(Words(a), Words(b));
  }

  // Any two byte messages have a run without a second init that pushes both and finishes again, with
  // the digest of the first.
  lemma SecondMessageShowsFirst(a: seq<Byte>, b: seq<Byte>, depth: nat)
    requires depth > 0
    ensures exists inputs: seq<Input> ::
              && Pushed(inputs, depth) == Words(a) + Words(b) && Execute(inputs, depth).front.done
              && Spells(DigestOut(Execute(inputs, depth).core.perm.lanes), Sha3_512(Flatten(a)))
  {
    hide Execute, Pushed, Sha3_512, DigestOut, Spells, Feeding, Complete, FirstMessage;
    StartFeeding(depth);
    EveryMessageCanBeFed(a);
    EveryMessageCanBeFed(b);
    WordsNormal(a);
    WordsNormal(b);
    var fed := FeedMessage([], Words(a), depth);
    assert [] + Words(a) == Words(a);
    var first := FinishMessage(fed, depth);
    var both := FeedMessage(first, Words(b), depth);
    var inputs := FinishMessage(both, depth);
    FirstOfTwo(a, b);
    DigestCoversAllIff(inputs, depth);
  }

  // The reason: a core that has seen a last word does not look at its inputs.
  lemma ClosedCoreIgnoresFeed(c: CoreState, feed: Feed, other: Feed)
    requires c.pad.closed
    ensures c.Next(feed) == c.Next(other) && c.Next(feed).pad.closed
  {
  }

  lemma AfterNext(before: seq<Input>, more: seq<Input>, k: nat, depth: nat)
    requires 0 < k <= |more| && !more[k - 1].init
    ensures
      var was := Execute(After(before, more, k - 1), depth);
      Execute(After(before, more, k), depth).core == was.core.Next(was.Feed())
  {
    AfterStep(before, more, k);
    var run := After(before, more, k);
    assert run[..|run| - 1] == After(before, more, k - 1) && run[|run| - 1] == more[k - 1];
  }

  // So until the next init nothing pushed changes its state, the digest included, at any cycle.
  lemma {:induction false} LaterWordsAreIgnored(before: seq<Input>, more: seq<Input>, other: seq<Input>, k: nat, depth: nat)
    requires Execute(before, depth).core.pad.closed && k <= |more| && k <= |other|
    requires forall j :: 0 <= j < k ==> !more[j].init && !other[j].init
    ensures
      var core := Execute(After(before, more, k), depth).core;
      core.pad.closed && core == Execute(After(before, other, k), depth).core
  {
    hide Execute, CoreState.Next;
    if k == 0 {
      assert After(before, more, 0) == before == After(before, other, 0);
    } else {
      LaterWordsAreIgnored(before, more, other, k - 1, depth);
      AfterNext(before, more, k, depth);
      AfterNext(before, other, k, depth);
      var was, wasOther := Execute(After(before, more, k - 1), depth),
                           Execute(After(before, other, k - 1), depth);
      ClosedCoreIgnoresFeed(was.core, was.Feed(), wasOther.Feed());
    }
  }
}
