/** The core (`Project/keccak.v`): padder and permutation side by side, the byte reordering
    between them, and the delayed `out_ready`. */
module KeccakCore {
  import opened Bits
  import opened Fips202
  import opened KeccakPadder
  import opened KeccakPermutation

  // `reorder byte`: byte b of the result is byte 7 - b of the lane.
  function ReverseBytes(l: Lane): Lane {
    var top: Bits := l[56..];
    top + l[48..56] + l[40..48] + l[32..40] + l[24..32] + l[16..24] + l[8..16] + l[..8]
  }

  function JoinWords(high: Word, low: Word): Lane {
    var bits: Bits := low;
    bits + high
  }

  // `padder_out`: lane j comes from words 2j and 2j + 1.
  function BlockOf(words: seq<Word>): Block
    requires |words| == BLOCK_WORDS
  {
    seq<Lane>(9, j requires 0 <= j < 9 => ReverseBytes(JoinWords(words[2 * j], words[2 * j + 1])))
  }

  // `{ReverseBytes(l3), ReverseBytes(l2), ReverseBytes(l1), ReverseBytes(l0)}`
  function FourLanes(l3: Lane, l2: Lane, l1: Lane, l0: Lane): (s: Bits)
    ensures |s| == 256
  {
    var low: Bits := ReverseBytes(l0);
    low + ReverseBytes(l1) + ReverseBytes(l2) + ReverseBytes(l3)
  }

  // `out`: the first eight lanes, most significant first, each with its bytes reversed.
  function DigestOut(a: StateArray): (out: Bits)
    ensures |out| == 512
  {
    FourLanes(a[4][0], a[0][1], a[1][1], a[2][1]) + FourLanes(a[0][0], a[1][0], a[2][0], a[3][0])
  }

  // final says that the block in flight was taken after the last word had been seen.
  datatype CoreState = CoreState(pad: PadderState, perm: PermState, final: bool, ready: bool) {
    predicate Ack() {
      perm.Accept(pad.Full())
    }

    function Next(feed: Feed): CoreState {
      CoreState(
        pad.Next(feed, Ack()),
        perm.Next(if pad.Full() then BlockOf(pad.buf) else seq(9, _ => Zeros(64)), pad.Full()),
        if Ack() then pad.closed else final && perm.round != 23,
        ready || (final && perm.round == 23))
    }
  }

  const EMPTY_CORE := CoreState(EMPTY_PADDER, IDLE_PERM, false, false)

  class Keccak {
    const padder: Padder
    const permutation: Permutation
    var i: Bits             // delays the acknowledgement of the final block
    var state: bool
    var outReady: bool
    ghost var final: bool

    ghost predicate Valid()
      reads this, padder, permutation
    {
      && padder.Valid() && permutation.Valid()
      && state == padder.state
      && (final ==> permutation.round > 0)
      && i == OneHot(23, if final then permutation.round - 1 else -1)
    }

    ghost function Abs(): (s: CoreState)
      reads this, padder, permutation
      requires Valid()
      ensures |s.pad.buf| <= BLOCK_WORDS && s.perm.round <= 23
    {
      CoreState(padder.Abs(), permutation.Abs(), final, outReady)
    }

    constructor ()
      ensures Valid() && Abs() == EMPTY_CORE
      ensures fresh(padder) && fresh(permutation)
    {
      padder := new Padder();
      permutation := new Permutation();
      i, state, outReady, final := OneHot(23, -1), false, false, false;
    }

    function Out(): (out: Bits)
      reads this, permutation
      requires permutation.Valid()
      ensures out == DigestOut(permutation.Abs().lanes)
    {
      DigestOut(permutation.out)
    }

    // The always blocks of this module alone; round and closed are what the submodules hold.
    method OwnRegisters(reset: bool, ack: bool, last: bool, ghost round: nat)
      requires round <= 23 && (ack ==> round == 0) && (final ==> round > 0)
      requires i == OneHot(23, if final then round - 1 else -1)
      modifies this
      ensures state == (!reset && (old(state) || last))
      ensures final == (!reset && if ack then old(state) else old(final) && round != 23)
      ensures outReady == (!reset && (old(outReady) || (old(final) && round == 23)))
      ensures i == OneHot(23, if !final then -1 else if ack then 0 else round)
    {
      if reset {
        i, state, outReady, final := OneHot(23, -1), false, false, false;
      } else {
        outReady := outReady || i[22];
        i := ShiftIn(i, state && ack);
        final := if ack then state else final && round != 23;
        state := state || last;
      }
    }

    method Clock(reset: bool, feed: Feed)
      requires Valid()
      modifies this, padder, permutation
      ensures Valid()
      ensures Abs() == if reset then EMPTY_CORE else old(Abs()).Next(feed)
    {
      var full := padder.BufferFull();
      var ack := permutation.Ack(full);
      var block := BlockOf(padder.out);
      assert full ==> padder.out == padder.Abs().buf;
      OwnRegisters(reset, ack, feed.last, permutation.round);
      padder.Clock(reset, feed, ack);
      permutation.Clock(reset, block, full);
    }
  }
}
