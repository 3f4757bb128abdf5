/** Once the last word of a message has been pushed, `done_o` rises within a bounded number of
    cycles, whatever the FIFO, the padder and the permutation are busy with at the time. */
module Sha3Liveness {
  import opened KeccakPadder
  import opened KeccakCore
  import opened Sha3Message
  import opened Sha3Core
  import opened Sha3Engine
  import opened Sha3Run

  // Cycles until a full buffer is acknowledged.
  function Wait4Ack(s: CoreState): nat
    requires s.perm.round <= 23
  {
    if !s.pad.Full() then 0 else if s.perm.round == 0 then 1 else 25 - s.perm.round
  }

  // left: the words the padder has still to emit; whole: the final block is acknowledged.
  function CoreCycles(c: CoreState, left: nat, whole: bool): nat
    requires c.perm.round <= 23
  {
    26 * left + Wait4Ack(c) + if !whole then 30 else if c.perm.round > 0 then 25 - c.perm.round else 1
  }

  function Left(c: CoreState, fed: seq<Entry>, blocks: nat): nat
    requires PadInv(c.pad, fed, blocks)
  {
    if c.pad.closed then |PaddedWords(fed)| - BLOCK_WORDS * blocks - |c.pad.buf| else BLOCK_WORDS
  }

  predicate Whole(c: CoreState, fed: seq<Entry>, blocks: nat)
    requires PadInv(c.pad, fed, blocks)
  {
    c.pad.closed && BLOCK_WORDS * blocks == |PaddedWords(fed)|
  }

  function Measure(s: EngineState, popped: seq<Entry>, blocks: nat, depth: nat): nat
    requires EngineInv(s, popped, blocks, depth)
  {
    26 * |s.front.fifo| +
    CoreCycles(s.core, Left(s.core, FirstMessage(popped), blocks), Whole(s.core, FirstMessage(popped), blocks))
  }

  lemma MeasureBound(s: EngineState, popped: seq<Entry>, blocks: nat, depth: nat)
    requires EngineInv(s, popped, blocks, depth)
    ensures Measure(s, popped, blocks, depth) <= 26 * depth + 523
  {
  }

  lemma LeftAcknowledged(c: CoreState, fed: seq<Entry>, blocks: nat, feed: Feed)
    requires PadInv(c.pad, fed, blocks) && Polite(c, feed) && c.Ack()
    ensures PadInv(c.Next(feed).pad, fed, blocks + 1)
    ensures Left(c.Next(feed), fed, blocks + 1) == Left(c, fed, blocks)
    ensures !Whole(c, fed, blocks)
  {
    PadStep(c, fed, blocks, feed);
  }

  lemma LeftFed(c: CoreState, fed: seq<Entry>, blocks: nat, feed: Feed)
    requires PadInv(c.pad, fed, blocks) && Polite(c, feed) && feed.ready && !c.pad.closed
    ensures PadInv(c.Next(feed).pad, FedNext(c, fed, feed), blocks)
    ensures !Whole(c.Next(feed), FedNext(c, fed, feed), blocks)
    ensures Left(c.Next(feed), FedNext(c, fed, feed), blocks) <= BLOCK_WORDS
  {
    PadStep(c, fed, blocks, feed);
    TargetPrefix(c, fed, blocks, feed);
  }

  lemma LeftPadding(c: CoreState, fed: seq<Entry>, blocks: nat, feed: Feed)
    requires PadInv(c.pad, fed, blocks) && Polite(c, feed) && c.pad.closed && !c.pad.done && !c.pad.Full()
    ensures PadInv(c.Next(feed).pad, fed, blocks)
    ensures Left(c.Next(feed), fed, blocks) + 1 == Left(c, fed, blocks)
    ensures Whole(c.Next(feed), fed, blocks) == Whole(c, fed, blocks)
  {
    PadStep(c, fed, blocks, feed);
  }

  // A final block that is not waiting in the buffer has been acknowledged.
  lemma DoneIsWhole(c: CoreState, fed: seq<Entry>, blocks: nat)
    requires PadInv(c.pad, fed, blocks) && c.pad.done && !c.pad.Full()
    ensures Whole(c, fed, blocks) && c.pad.buf == []
  {
    WholeBlocks(fed);
  }

  // Every edge that feeds a word, waits for the permutation or pads makes progress.
  lemma CoreProgress(c: CoreState, fed: seq<Entry>, blocks: nat, feed: Feed, fedNext: seq<Entry>, blocksNext: nat)
    requires CoreInv(c, fed, blocks) && Polite(c, feed) && !c.ready
    requires feed.ready || c.pad.Full() || c.pad.closed
    requires fedNext == FedNext(c, fed, feed) && blocksNext == if c.Ack() then blocks + 1 else blocks
    ensures CoreInv(c.Next(feed), fedNext, blocksNext)
    ensures CoreCycles(c.Next(feed), Left(c.Next(feed), fedNext, blocksNext), Whole(c.Next(feed), fedNext, blocksNext)) <
            CoreCycles(c, Left(c, fed, blocks), Whole(c, fed, blocks)) + if feed.ready then 26 else 0
  {
    CoreStep(c, fed, blocks, feed, fedNext, blocksNext);
    if c.Ack() {
      LeftAcknowledged(c, fed, blocks, feed);
    } else if feed.ready && !c.pad.closed {
      LeftFed(c, fed, blocks, feed);
    } else if c.pad.closed && !c.pad.done && !c.pad.Full() {
      LeftPadding(c, fed, blocks, feed);
    } else if !c.pad.Full() {
      DoneIsWhole(c, fed, blocks);
    }
  }

  // A ready core stays as it is, so that words of a later message drain at one per cycle.
  lemma ReadyStays(c: CoreState, fed: seq<Entry>, blocks: nat, feed: Feed)
    requires CoreInv(c, fed, blocks) && Polite(c, feed) && c.ready
    ensures !c.pad.Full() && c.Next(feed).ready && c.Next(feed).perm == c.perm && !c.Ack()
    ensures PadInv(c.Next(feed).pad, fed, blocks) && FedNext(c, fed, feed) == fed
    ensures Left(c.Next(feed), fed, blocks) == Left(c, fed, blocks)
    ensures Whole(c, fed, blocks) && Whole(c.Next(feed), fed, blocks)
  {
    PadStep(c, fed, blocks, feed);
  }

  // With the last word pushed the FIFO only drains.
  lemma FrontDrains(f: FrontState, inp: Input, depth: nat, full: bool, closed: bool, ready: bool)
    requires FrontInv(f, closed, ready, depth) && f.sawLast && !inp.init && !(f.phase == Wait && ready)
    ensures
      var next := f.Next(inp, depth, full, ready);
      next.sawLast && |next.fifo| + (if f.Pop(full) then 1 else 0) == |f.fifo|
    ensures ready && !full ==> f.Pop(full)
    ensures full || closed || f.Pop(full)
  {
  }

  lemma EngineProgress(s: EngineState, inp: Input, popped: seq<Entry>, blocks: nat, depth: nat,
                       next: EngineState, poppedNext: seq<Entry>, blocksNext: nat)
    requires EngineInv(s, popped, blocks, depth) && s.front.sawLast && !inp.init
    requires !(s.front.phase == Wait && s.core.ready) && next == s.Next(inp, depth)
    requires poppedNext == popped + PoppedAt(s) && blocksNext == blocks + |AcknowledgedAt(s)|
    ensures EngineInv(next, poppedNext, blocksNext, depth) && next.front.sawLast
    ensures Measure(next, poppedNext, blocksNext, depth) < Measure(s, popped, blocks, depth)
  {
    EngineStep(s, inp, popped, blocks, depth);
    PoppedIsFed(s, popped);
    FrontDrains(s.front, inp, depth, s.core.pad.Full(), s.core.pad.closed, s.core.ready);
    CorePays(s.core, FirstMessage(popped), blocks, s.Feed(), FirstMessage(poppedNext), blocksNext);
  }

  // The core's share of the measure, against the 26 cycles set aside for a word fed.
  lemma CorePays(c: CoreState, fed: seq<Entry>, blocks: nat, feed: Feed, fedNext: seq<Entry>, blocksNext: nat)
    requires CoreInv(c, fed, blocks) && Polite(c, feed)
    requires feed.ready || c.pad.Full() || (c.pad.closed && !c.ready)
    requires fedNext == FedNext(c, fed, feed) && blocksNext == if c.Ack() then blocks + 1 else blocks
    ensures CoreInv(c.Next(feed), fedNext, blocksNext)
    ensures CoreCycles(c.Next(feed), Left(c.Next(feed), fedNext, blocksNext), Whole(c.Next(feed), fedNext, blocksNext)) <
            CoreCycles(c, Left(c, fed, blocks), Whole(c, fed, blocks)) + if feed.ready then 26 else 0
  {
    CoreStep(c, fed, blocks, feed, fedNext, blocksNext);
    if c.ready {
      ReadyStays(c, fed, blocks, feed);
    } else {
      CoreProgress(c, fed, blocks, feed, fedNext, blocksNext);
    }
  }

  // What the countdown carries from cycle to cycle: m bounds the cycles left.
  ghost predicate CountingAt(s: EngineState, popped: seq<Entry>, blocks: nat, depth: nat, m: int) {
    s.front.sawLast && EngineInv(s, popped, blocks, depth) && Measure(s, popped, blocks, depth) <= m
  }

  ghost predicate Counting(inputs: seq<Input>, depth: nat, m: int) {
    CountingAt(Execute(inputs, depth), Popped(inputs, depth), |Acknowledged(inputs, depth)|, depth, m)
  }

  lemma CountDown(s: EngineState, inp: Input, popped: seq<Entry>, blocks: nat, depth: nat,
                  next: EngineState, poppedNext: seq<Entry>, blocksNext: nat, m: int)
    requires CountingAt(s, popped, blocks, depth, m) && !inp.init && !next.front.done
    requires next == s.Next(inp, depth) && poppedNext == popped + PoppedAt(s) && blocksNext == blocks + |AcknowledgedAt(s)|
    ensures CountingAt(next, poppedNext, blocksNext, depth, m - 1)
  {
    EngineProgress(s, inp, popped, blocks, depth, next, poppedNext, blocksNext);
  }

  lemma OneCycle(before: seq<Input>, inp: Input, run: seq<Input>, depth: nat, m: int)
    requires run == before + [inp] && !inp.init && Counting(before, depth, m)
    requires !Execute(run, depth).front.done
    ensures Counting(run, depth, m - 1)
  {
    assert run[..|run| - 1] == before && run[|run| - 1] == inp;
    Unfold(run, depth);
    CountDown(Execute(before, depth), inp, Popped(before, depth), |Acknowledged(before, depth)|, depth,
              Execute(run, depth), Popped(run, depth), |Acknowledged(run, depth)|, m);
  }

  function After(before: seq<Input>, more: seq<Input>, k: nat): seq<Input>
    requires k <= |more|
  {
    before + more[..k]
  }

  lemma AfterStep(before: seq<Input>, more: seq<Input>, k: nat)
    requires 0 < k <= |more|
    ensures After(before, more, k) == After(before, more, k - 1) + [more[k - 1]]
  {
  }

  // Along a run that never shows done, the measure pays for every cycle.
  lemma {:induction false} Countdown(before: seq<Input>, more: seq<Input>, k: nat, depth: nat, m: int)
    requires Counting(before, depth, m)
    requires k <= |more|
    requires forall j :: 0 <= j < k ==> !more[j].init
    requires forall j :: 0 <= j <= k ==> !Execute(After(before, more, j), depth).front.done
    ensures Counting(After(before, more, k), depth, m - k)
  {
    if k == 0 {
      assert After(before, more, 0) == before;
    } else {
      Countdown(before, more, k - 1, depth, m);
      AfterStep(before, more, k);
      OneCycle(After(before, more, k - 1), more[k - 1], After(before, more, k), depth, m - k + 1);
    }
  }

  // Bounded response: 26 * depth + 524 cycles after its last word at the latest, a message is done.
  lemma MessageFinishes(before: seq<Input>, more: seq<Input>, depth: nat)
    requires Execute(before, depth).front.sawLast
    requires |more| == 26 * depth + 524 && forall k :: 0 <= k < |more| ==> !more[k].init
    ensures exists k :: 0 <= k <= |more| && Execute(After(before, more, k), depth).front.done
  {
    if forall k :: 0 <= k <= |more| ==> !Execute(After(before, more, k), depth).front.done {
      RunInv(before, depth);
      MeasureBound(Execute(before, depth), Popped(before, depth), |Acknowledged(before, depth)|, depth);
      Countdown(before, more, |more|, depth, 26 * depth + 523);
      assert false;
    }
  }
}
