/** The wrapper (`Project/sha3_real_wrapper.v`): a word FIFO in front of the core and the
    idle / run / wait machine around them, as a state machine over its clock edges. */
module Sha3Engine {
  import opened Bits
  import opened KeccakPadder
  import opened KeccakCore
  import opened Sha3Message

  datatype Phase = Idle | Run | Wait

  // init stands for `rst_i || init_i`.
  datatype Input = Input(init: bool, start: bool, valid: bool, data: Word, last: bool, byteNum: Num2) {
    function Pushed(): Entry {
      Entry(data, last, if last then byteNum else 0)
    }
  }

  // The wrapper without its core. full and ready are the core's outputs.
  datatype FrontState = FrontState(
    fifo: seq<Entry>, phase: Phase, sawLast: bool, overflow: bool, busy: bool, done: bool)
  {
    predicate InputReady(depth: nat) {
      |fifo| != depth && !sawLast && phase != Wait
    }

    predicate Push(inp: Input, depth: nat) {
      inp.valid && InputReady(depth)
    }

    predicate Pop(full: bool) {
      phase == Run && fifo != [] && !full
    }

    // What the core sees on its input ports; the head of an empty FIFO is not looked at.
    function CoreFeed(full: bool): Feed {
      if Pop(full) then Feed(fifo[0].data, true, fifo[0].last, fifo[0].byteNum)
      else Feed(Zeros(32), false, false, 0)
    }

    // An edge without reset at which no message finishes.
    function Move(inp: Input, depth: nat, full: bool): FrontState {
      FrontState(
        (if Pop(full) then fifo[1..] else fifo) + (if Push(inp, depth) then [inp.Pushed()] else []),
        if Pop(full) && fifo[0].last then Wait else if Push(inp, depth) && phase == Idle then Run else phase,
        sawLast || (Push(inp, depth) && inp.last),
        overflow || (inp.valid && !InputReady(depth)),
        busy || (Push(inp, depth) && phase == Idle),
        done && !(phase == Idle && (Push(inp, depth) || inp.start)))
    }

    function Next(inp: Input, depth: nat, full: bool, ready: bool): FrontState {
      if inp.init then EMPTY_FRONT
      else if phase == Wait && ready then FrontState([], Idle, false, false, false, true)
      else Move(inp, depth, full)
    }
  }

  const EMPTY_FRONT := FrontState([], Idle, false, false, false, false)

  datatype EngineState = EngineState(core: CoreState, front: FrontState) {
    function Feed(): Feed {
      front.CoreFeed(core.pad.Full())
    }

    function Next(inp: Input, depth: nat): EngineState {
      EngineState(if inp.init then EMPTY_CORE else core.Next(Feed()),
                  front.Next(inp, depth, core.pad.Full(), core.ready))
    }
  }

  const EMPTY_ENGINE := EngineState(EMPTY_CORE, EMPTY_FRONT)

  // The state after a whole run of inputs, starting from a reset.
  function Execute(inputs: seq<Input>, depth: nat): EngineState {
    if |inputs| == 0 then EMPTY_ENGINE
    else Execute(inputs[..|inputs| - 1], depth).Next(inputs[|inputs| - 1], depth)
  }

  // The entry accepted, the entry handed to the core and the block acknowledged at one edge.
  function PushedAt(s: EngineState, inp: Input, depth: nat): seq<Entry> {
    if s.front.Push(inp, depth) then [inp.Pushed()] else []
  }

  function PoppedAt(s: EngineState): seq<Entry> {
    if s.front.Pop(s.core.pad.Full()) then [s.front.fifo[0]] else []
  }

  function AcknowledgedAt(s: EngineState): seq<seq<Word>> {
    if s.core.Ack() then [s.core.pad.buf] else []
  }

  // The entries accepted since the last init.
  function Pushed(inputs: seq<Input>, depth: nat): seq<Entry> {
    if |inputs| == 0 || inputs[|inputs| - 1].init then []
    else Pushed(inputs[..|inputs| - 1], depth) +
         PushedAt(Execute(inputs[..|inputs| - 1], depth), inputs[|inputs| - 1], depth)
  }

  // The entries handed to the core since the last init.
  function Popped(inputs: seq<Input>, depth: nat): seq<Entry> {
    if |inputs| == 0 || inputs[|inputs| - 1].init then []
    else Popped(inputs[..|inputs| - 1], depth) + PoppedAt(Execute(inputs[..|inputs| - 1], depth))
  }

  // The blocks acknowledged by `f_ack` since the last init.
  function Acknowledged(inputs: seq<Input>, depth: nat): seq<seq<Word>> {
    if |inputs| == 0 || inputs[|inputs| - 1].init then []
    else Acknowledged(inputs[..|inputs| - 1], depth) + AcknowledgedAt(Execute(inputs[..|inputs| - 1], depth))
  }

  predicate HasLast(entries: seq<Entry>) {
    exists k :: 0 <= k < |entries| && entries[k].last
  }

  // The entries up to and including the first one marked last.
  function FirstMessage(entries: seq<Entry>): seq<Entry> {
    if |entries| > 0 && HasLast(entries[..|entries| - 1]) then FirstMessage(entries[..|entries| - 1]) else entries
  }
}
