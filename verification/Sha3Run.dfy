/** Whole runs of the SHA3-512 engine: the FIFO loses and reorders nothing, the blocks taken are
    those of the padded message, and what the digest register shows at `done_o` is the FIPS 202
    digest of the message pushed. */
module Sha3Run {
  import opened Bits
  import opened Fips202
  import opened KeccakPadder
  import opened KeccakCore
  import opened Sha3Message
  import opened Sha3Core
  import opened Sha3Engine

  // What holds between the FIFO, the control registers and the core.
  ghost predicate FrontInv(f: FrontState, closed: bool, ready: bool, depth: nat) {
    var n := |f.fifo|;
    && n <= depth
    && Open(if n == 0 then [] else f.fifo[..n - 1])
    && (n > 0 ==> (f.fifo[n - 1].last <==> f.sawLast) && f.phase == Run)
    && (f.phase == Wait ==> n == 0 && f.sawLast && closed)
    && (f.phase == Idle ==> !f.sawLast)
    && (n == 0 && f.sawLast ==> f.phase == Wait)
    && (f.phase != Wait && closed ==> ready)
    && (f.done ==> ready && f.phase == Idle)
  }

  ghost predicate EngineInv(s: EngineState, popped: seq<Entry>, blocks: nat, depth: nat) {
    && FrontInv(s.front, s.core.pad.closed, s.core.ready, depth)
    && CoreInv(s.core, FirstMessage(popped), blocks)
    && (s.core.pad.closed <==> HasLast(popped))
  }

  lemma {:induction false} FirstMessageGrows(entries: seq<Entry>, e: Entry)
    ensures FirstMessage(entries + [e]) == if HasLast(entries) then FirstMessage(entries) else entries + [e]
    ensures !HasLast(entries) ==> FirstMessage(entries) == entries
    ensures HasLast(entries + [e]) <==> HasLast(entries) || e.last
  {
    assert (entries + [e])[..|entries|] == entries;
    assert (entries + [e])[|entries|] == e;
    if HasLast(entries) {
      var k :| 0 <= k < |entries| && entries[k].last;
      assert (entries + [e])[k].last;
    }
    assert HasLast(entries[..|entries|]) <==> HasLast(entries);
    if |entries| > 0 && HasLast(entries[..|entries| - 1]) {
      var k :| 0 <= k < |entries| - 1 && entries[..|entries| - 1][k].last;
      assert entries[k].last;
    }
  }

  // What comes after the first complete message does not belong to it.
  lemma {:induction false} FirstMessageStays(a: seq<Entry>, b: seq<Entry>)
    requires HasLast(a)
    ensures FirstMessage(a + b) == FirstMessage(a) && HasLast(a + b)
  {
    if |b| == 0 {
      assert a + b == a;
    } else {
      var n := |b| - 1;
      FirstMessageStays(a, b[..n]);
      FirstMessageGrows(a + b[..n], b[n]);
      assert a + b == (a + b[..n]) + [b[n]];
    }
  }

  lemma OpenAfterPop(fifo: seq<Entry>, n: nat)
    requires n == |fifo| > 0 && Open(fifo[..n - 1])
    ensures Open(if n == 1 then [] else fifo[1..][..n - 2])
  {
    if n > 1 {
      assert fifo[1..][..n - 2] == fifo[..n - 1][1..];
    }
  }

  // The entries kept after a pop are as the invariant wants them.
  lemma KeptEntries(f: FrontState, full: bool, closed: bool, ready: bool, depth: nat, kept: seq<Entry>)
    requires FrontInv(f, closed, ready, depth) && kept == if f.Pop(full) then f.fifo[1..] else f.fifo
    ensures Open(if kept == [] then [] else kept[..|kept| - 1])
    ensures kept != [] ==> (kept[|kept| - 1].last <==> f.sawLast)
  {
    if f.Pop(full) {
      OpenAfterPop(f.fifo, |f.fifo|);
    }
  }

  lemma OpenAppend(kept: seq<Entry>, e: Entry)
    requires Open(if kept == [] then [] else kept[..|kept| - 1]) && (kept != [] ==> !kept[|kept| - 1].last)
    ensures Open((kept + [e])[..|kept|])
  {
    assert (kept + [e])[..|kept|] == kept;
    if kept != [] {
      assert kept == kept[..|kept| - 1] + [kept[|kept| - 1]];
    }
  }

  lemma MovedFifo(f: FrontState, inp: Input, depth: nat, full: bool, closed: bool, ready: bool, next: FrontState)
    requires FrontInv(f, closed, ready, depth) && next == f.Move(inp, depth, full)
    ensures
      var n := |next.fifo|;
      && n <= depth
      && Open(if n == 0 then [] else next.fifo[..n - 1])
      && (n > 0 ==> (next.fifo[n - 1].last <==> next.sawLast))
  {
    var kept := if f.Pop(full) then f.fifo[1..] else f.fifo;
    KeptEntries(f, full, closed, ready, depth, kept);
    if f.Push(inp, depth) {
      OpenAppend(kept, inp.Pushed());
    } else {
      assert next.fifo == kept;
    }
  }

  // closed, ready and full are the core's before the edge; closedNext and readyNext after it.
  lemma FrontStep(f: FrontState, inp: Input, depth: nat, full: bool, closed: bool, ready: bool, closedNext: bool, readyNext: bool)
    requires FrontInv(f, closed, ready, depth) && !inp.init
    requires closedNext == (closed || f.CoreFeed(full).last) && (ready ==> readyNext)
    ensures FrontInv(f.Next(inp, depth, full, ready), closedNext, readyNext, depth)
  {
    if !(f.phase == Wait && ready) {
      MovedFifo(f, inp, depth, full, closed, ready, f.Move(inp, depth, full));
    }
  }

  // The core is fed the popped entries, and only those of the first message count.
  lemma PoppedIsFed(s: EngineState, popped: seq<Entry>)
    requires s.core.pad.closed <==> HasLast(popped)
    ensures FedNext(s.core, FirstMessage(popped), s.Feed()) == FirstMessage(popped + PoppedAt(s))
    ensures s.core.pad.closed || s.Feed().last <==> HasLast(popped + PoppedAt(s))
    ensures Polite(s.core, s.Feed())
  {
    if s.front.Pop(s.core.pad.Full()) {
      FirstMessageGrows(popped, s.front.fifo[0]);
    } else {
      assert popped + PoppedAt(s) == popped;
    }
  }

  lemma CorePart(s: EngineState, popped: seq<Entry>, blocks: nat)
    requires CoreInv(s.core, FirstMessage(popped), blocks) && (s.core.pad.closed <==> HasLast(popped))
    ensures CoreInv(s.core.Next(s.Feed()), FirstMessage(popped + PoppedAt(s)), blocks + |AcknowledgedAt(s)|)
  {
    PoppedIsFed(s, popped);
    CoreStep(s.core, FirstMessage(popped), blocks, s.Feed(), FirstMessage(popped + PoppedAt(s)), blocks + |AcknowledgedAt(s)|);
  }

  lemma FrontPart(s: EngineState, inp: Input, depth: nat)
    requires FrontInv(s.front, s.core.pad.closed, s.core.ready, depth) && !inp.init
    ensures var next := s.Next(inp, depth);
            && next.core.pad.closed == (s.core.pad.closed || s.Feed().last)
            && FrontInv(next.front, next.core.pad.closed, next.core.ready, depth)
  {
    var next := s.core.Next(s.Feed());
    FrontStep(s.front, inp, depth, s.core.pad.Full(), s.core.pad.closed, s.core.ready, next.pad.closed, next.ready);
  }

  lemma EngineStep(s: EngineState, inp: Input, popped: seq<Entry>, blocks: nat, depth: nat)
    requires EngineInv(s, popped, blocks, depth) && !inp.init
    ensures EngineInv(s.Next(inp, depth), popped + PoppedAt(s), blocks + |AcknowledgedAt(s)|, depth)
  {
    PoppedIsFed(s, popped);
    CorePart(s, popped, blocks);
    FrontPart(s, inp, depth);
  }

  lemma StartInv(depth: nat)
    ensures EngineInv(EMPTY_ENGINE, [], 0, depth)
  {
    CoreStarts();
  }

  // One unfolding of every history.
  lemma Unfold(inputs: seq<Input>, depth: nat)
    requires |inputs| > 0
    ensures var before, inp := inputs[..|inputs| - 1], inputs[|inputs| - 1];
            var s := Execute(before, depth);
            if inp.init then
              && Execute(inputs, depth) == EMPTY_ENGINE
              && Pushed(inputs, depth) == [] && Popped(inputs, depth) == [] && Acknowledged(inputs, depth) == []
            else
              && Execute(inputs, depth) == s.Next(inp, depth)
              && Pushed(inputs, depth) == Pushed(before, depth) + PushedAt(s, inp, depth)
              && Popped(inputs, depth) == Popped(before, depth) + PoppedAt(s)
              && Acknowledged(inputs, depth) == Acknowledged(before, depth) + AcknowledgedAt(s)
  {
  }

  lemma {:induction false} RunInv(inputs: seq<Input>, depth: nat)
    ensures EngineInv(Execute(inputs, depth), Popped(inputs, depth), |Acknowledged(inputs, depth)|, depth)
  {
    var n := |inputs| - 1;
    if n < 0 {
      StartInv(depth);
    } else {
      Unfold(inputs, depth);
      if inputs[n].init {
        StartInv(depth);
      } else {
        RunInv(inputs[..n], depth);
        var s, popped, blocks := Execute(inputs[..n], depth), Popped(inputs[..n], depth), |Acknowledged(inputs[..n], depth)|;
        EngineStep(s, inputs[n], popped, blocks, depth);
        assert |Acknowledged(inputs, depth)| == blocks + |AcknowledgedAt(s)|;
      }
    }
  }

  lemma FrontQueueStep(f: FrontState, inp: Input, depth: nat, full: bool, ready: bool, pushed: seq<Entry>, popped: seq<Entry>)
    requires pushed == popped + f.fifo && !inp.init && (f.phase == Wait ==> f.fifo == [])
    ensures pushed + (if f.Push(inp, depth) then [inp.Pushed()] else []) ==
            popped + (if f.Pop(full) then [f.fifo[0]] else []) + f.Next(inp, depth, full, ready).fifo
  {
    if f.Pop(full) {
      assert f.fifo == [f.fifo[0]] + f.fifo[1..];
    }
  }

  lemma QueueStep(s: EngineState, inp: Input, pushed: seq<Entry>, popped: seq<Entry>, depth: nat)
    requires pushed == popped + s.front.fifo && !inp.init
    requires s.front.phase == Wait ==> s.front.fifo == []
    ensures pushed + PushedAt(s, inp, depth) == popped + PoppedAt(s) + s.Next(inp, depth).front.fifo
  {
    FrontQueueStep(s.front, inp, depth, s.core.pad.Full(), s.core.ready, pushed, popped);
  }

  // The FIFO refines a queue: what was pushed is what was handed over followed by what waits.
  lemma {:induction false} QueueRefined(inputs: seq<Input>, depth: nat)
    ensures Pushed(inputs, depth) == Popped(inputs, depth) + Execute(inputs, depth).front.fifo
  {
    var n := |inputs| - 1;
    if n >= 0 {
      Unfold(inputs, depth);
      if !inputs[n].init {
        QueueRefined(inputs[..n], depth);
        RunInv(inputs[..n], depth);
        QueueStep(Execute(inputs[..n], depth), inputs[n], Pushed(inputs[..n], depth), Popped(inputs[..n], depth), depth);
      }
    }
  }

  // Whenever done_o is high, digest_o is the digest of the message pushed since the last init.
  lemma DoneShowsDigest(inputs: seq<Input>, depth: nat)
    requires Execute(inputs, depth).front.done
    ensures var message := FirstMessage(Pushed(inputs, depth));
            && Complete(message)
            && Spells(DigestOut(Execute(inputs, depth).core.perm.lanes), Sha3_512(MessageBits(message)))
  {
    var s := Execute(inputs, depth);
    RunInv(inputs, depth);
    QueueRefined(inputs, depth);
    ReadyShowsDigest(s.core, FirstMessage(Popped(inputs, depth)), |Acknowledged(inputs, depth)|);
    FirstMessageStays(Popped(inputs, depth), s.front.fifo);
  }

  function Concat(blocks: seq<seq<Word>>): seq<Word> {
    if |blocks| == 0 then [] else Concat(blocks[..|blocks| - 1]) + blocks[|blocks| - 1]
  }

  // The blocks acknowledged so far are the next 18 words each of the padded message.
  lemma {:induction false} AcknowledgedWords(inputs: seq<Input>, depth: nat)
    ensures EngineInv(Execute(inputs, depth), Popped(inputs, depth), |Acknowledged(inputs, depth)|, depth)
    ensures var words := Target(FirstMessage(Popped(inputs, depth)), Execute(inputs, depth).core.pad.closed);
            var acked := Acknowledged(inputs, depth);
            BLOCK_WORDS * |acked| <= |words| && Concat(acked) == words[..BLOCK_WORDS * |acked|]
  {
    RunInv(inputs, depth);
    var n := |inputs| - 1;
    if n >= 0 {
      Unfold(inputs, depth);
      if !inputs[n].init {
        AcknowledgedWords(inputs[..n], depth);
        var s, fed, acked := Execute(inputs[..n], depth), FirstMessage(Popped(inputs[..n], depth)), Acknowledged(inputs[..n], depth);
        PoppedIsFed(s, Popped(inputs[..n], depth));
        AcknowledgedStep(s, fed, acked);
      }
    }
  }

  lemma ConcatAppend(acked: seq<seq<Word>>, block: seq<Word>)
    ensures Concat(acked + [block]) == Concat(acked) + block
  {
    assert (acked + [block])[..|acked|] == acked;
  }

  lemma AcknowledgedPart(s: EngineState, acked: seq<seq<Word>>, words: seq<Word>, grown: seq<Word>, t: nat)
    requires t == BLOCK_WORDS * |acked| && t + |s.core.pad.buf| <= |words| && t + |s.core.pad.buf| <= |grown|
    requires grown[..t + |s.core.pad.buf|] == words[..t + |s.core.pad.buf|]
    requires s.core.pad.buf == words[t..t + |s.core.pad.buf|] && Concat(acked) == words[..t]
    ensures
      var now := acked + AcknowledgedAt(s);
      BLOCK_WORDS * |now| <= |grown| && Concat(now) == grown[..BLOCK_WORDS * |now|]
  {
    var end := t + |s.core.pad.buf|;
    Extend(words, grown, t, end);
    if s.core.Ack() {
      ConcatAppend(acked, s.core.pad.buf);
      assert BLOCK_WORDS * |acked + [s.core.pad.buf]| == end;
    } else {
      assert acked + AcknowledgedAt(s) == acked;
    }
  }

  lemma AcknowledgedStep(s: EngineState, fed: seq<Entry>, acked: seq<seq<Word>>)
    requires PadInv(s.core.pad, fed, |acked|) && Polite(s.core, s.Feed())
    requires Concat(acked) == Target(fed, s.core.pad.closed)[..BLOCK_WORDS * |acked|]
    ensures var next, closed, now := FedNext(s.core, fed, s.Feed()), s.core.pad.closed || s.Feed().last, acked + AcknowledgedAt(s);
            && FedOk(next, closed)
            && BLOCK_WORDS * |now| <= |Target(next, closed)|
            && Concat(now) == Target(next, closed)[..BLOCK_WORDS * |now|]
  {
    TargetPrefix(s.core, fed, |acked|, s.Feed());
    AcknowledgedPart(s, acked, Target(fed, s.core.pad.closed),
                     Target(FedNext(s.core, fed, s.Feed()), s.core.pad.closed || s.Feed().last), BLOCK_WORDS * |acked|);
  }
}
