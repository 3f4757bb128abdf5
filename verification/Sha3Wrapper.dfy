/** The wrapper's registers (`Project/sha3_real_wrapper.v`), refined to the state machine of
    Sha3Engine. The three parallel FIFO memories are one memory of entries here. */
module Sha3Wrapper {
  import opened Bits
  import opened KeccakPadder
  import opened KeccakCore
  import opened Sha3Message
  import opened Sha3Engine
  import Ring

  class Wrapper {
    const depth: nat
    const core: Keccak
    const fifo: array<Entry>
    var phase: Phase
    var wrPtr: nat
    var rdPtr: nat
    var fifoCount: nat
    var sawLast: bool
    var overflow: bool
    var busy: bool
    var done: bool

    ghost predicate FrontValid()
      reads this, fifo
    {
      && fifo.Length == depth > 0
      && fifoCount <= depth && rdPtr < depth && wrPtr < depth
      && wrPtr == Ring.Wrap(rdPtr + fifoCount, depth)
    }

    ghost predicate Valid()
      reads this, fifo, core, core.padder, core.permutation
    {
      core.Valid() && FrontValid()
    }

    ghost function Front(): (s: FrontState)
      reads this, fifo
      requires FrontValid()
    {
      FrontState(Ring.Contents(fifo[..], rdPtr, fifoCount), phase, sawLast, overflow, busy, done)
    }

    ghost function Abs(): (s: EngineState)
      reads this, fifo, core, core.padder, core.permutation
      requires Valid()
    {
      EngineState(core.Abs(), Front())
    }

    constructor (depth: nat)
      requires depth > 0
      ensures this.depth == depth && Valid() && Abs() == EMPTY_ENGINE
    {
      this.depth := depth;
      core := new Keccak();
      fifo := new Entry[depth](_ => Entry(Zeros(32), false, 0));
      phase, wrPtr, rdPtr, fifoCount := Idle, 0, 0, 0;
      sawLast, overflow, busy, done := false, false, false, false;
    }

    function InputReady(): (ready: bool)
      reads this, fifo
      requires FrontValid()
      ensures ready == Front().InputReady(depth)
    {
      fifoCount != depth && !sawLast && phase != Wait
    }

    // With nothing fed the core does not look at its data input.
    lemma IdleFeed(c: CoreState, feed: Feed)
      requires !feed.ready && !feed.last
      ensures c.Next(feed) == c.Next(Feed(Zeros(32), false, false, 0))
    {
    }

    // The FIFO's memory, pointers and count.
    method PushEntry(entry: Entry)
      requires FrontValid() && fifoCount < depth
      modifies fifo, this`wrPtr, this`fifoCount
      ensures FrontValid()
      ensures Ring.Contents(fifo[..], rdPtr, fifoCount) == old(Ring.Contents(fifo[..], rdPtr, fifoCount)) + [entry]
    {
      Ring.Push(fifo[..], rdPtr, fifoCount, entry);
      fifo[wrPtr] := entry;
      wrPtr := if wrPtr == depth - 1 then 0 else wrPtr + 1;
      fifoCount := fifoCount + 1;
    }

    method PopEntry()
      requires FrontValid() && fifoCount > 0
      modifies this`rdPtr, this`fifoCount
      ensures FrontValid()
      ensures Ring.Contents(fifo[..], rdPtr, fifoCount) == old(Ring.Contents(fifo[..], rdPtr, fifoCount))[1..]
    {
      Ring.Pop(fifo[..], rdPtr, fifoCount);
      rdPtr := if rdPtr == depth - 1 then 0 else rdPtr + 1;
      fifoCount := fifoCount - 1;
    }

    // The control registers at such an edge.
    method UpdateControl(inp: Input, push: bool, popLast: bool)
      modifies this`phase, this`sawLast, this`overflow, this`busy, this`done
      ensures phase == if popLast then Wait else if push && old(phase) == Idle then Run else old(phase)
      ensures sawLast == (old(sawLast) || (push && inp.last))
      ensures overflow == (old(overflow) || (inp.valid && !push))
      ensures busy == (old(busy) || (push && old(phase) == Idle))
      ensures done == (old(done) && !(old(phase) == Idle && (push || inp.start)))
    {
      if inp.start && phase == Idle {
        done := false;
      }
      if inp.valid && !push {
        overflow := true;
      }
      if push {
        if inp.last {
          sawLast := true;
        }
        if phase == Idle {
          phase, busy, done := Run, true, false;
        }
      }
      if popLast {
        phase := Wait;
      }
    }

    // The FIFO at such an edge.
    method MoveFifo(pop: bool, push: bool, entry: Entry)
      requires FrontValid() && (pop ==> fifoCount > 0) && (push ==> fifoCount < depth)
      modifies fifo, this`rdPtr, this`wrPtr, this`fifoCount
      ensures FrontValid()
      ensures
        var was := old(Ring.Contents(fifo[..], rdPtr, fifoCount));
        Ring.Contents(fifo[..], rdPtr, fifoCount) == (if pop then was[1..] else was) + (if push then [entry] else [])
    {
      if pop {
        PopEntry();
      }
      if push {
        PushEntry(entry);
      }
    }

    method MoveFront(inp: Input, full: bool)
      requires FrontValid()
      modifies this, fifo
      ensures FrontValid()
      ensures Front() == old(Front()).Move(inp, depth, full)
    {
      var pop := phase == Run && fifoCount != 0 && !full;
      var push := inp.valid && InputReady();
      var popLast := pop && fifo[rdPtr].last;
      if pop {
        Ring.Pop(fifo[..], rdPtr, fifoCount);
      }
      UpdateControl(inp, push, popLast);
      MoveFifo(pop, push, inp.Pushed());
    }

    // The always block of this module.
    method ClockFront(inp: Input, full: bool, coreReady: bool)
      requires FrontValid()
      modifies this, fifo
      ensures FrontValid()
      ensures Front() == old(Front()).Next(inp, depth, full, coreReady)
    {
      if inp.init || (phase == Wait && coreReady) {
        phase, wrPtr, rdPtr, fifoCount := Idle, 0, 0, 0;
        sawLast, overflow, busy, done := false, false, false, !inp.init;
      } else {
        MoveFront(inp, full);
      }
    }

    // The instance `u_keccak`.
    method ClockCore(init: bool, full: bool)
      requires Valid() && full == core.Abs().pad.Full()
      modifies core, core.padder, core.permutation
      ensures core.Valid()
      ensures core.Abs() == if init then EMPTY_CORE else old(core.Abs()).Next(old(Abs().Feed()))
    {
      var pop := phase == Run && fifoCount != 0 && !full;
      var head := fifo[rdPtr];
      var feed := Feed(head.data, pop, pop && head.last, head.byteNum);
      if pop {
        Ring.Pop(fifo[..], rdPtr, fifoCount);
        assert feed == Abs().Feed();
      } else {
        IdleFeed(core.Abs(), feed);
      }
      core.Clock(init, feed);
    }

    method Clock(inp: Input)
      requires Valid()
      modifies this, fifo, core, core.padder, core.permutation
      ensures Valid()
      ensures Abs() == old(Abs()).Next(inp, depth)
    {
      var full, ready := core.padder.BufferFull(), core.outReady;
      ClockCore(inp.init, full);
      ClockFront(inp, full, ready);
    }
  }
}
