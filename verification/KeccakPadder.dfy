/** The padder (`Project/padder.v`, `Project/padder1.v`): an 18-word block buffer whose fill
    level is a thermometer register, refined to a queue of words. */
module KeccakPadder {
  import opened Bits

  const BLOCK_WORDS := 18

  // The byte 0x06.
  const SUFFIX: Byte := [false, true, true, false, false, false, false, false]

  // `padder1`: keep the first byteNum bytes, then the suffix byte, then zeros.
  function Padder1(w: Word, byteNum: Num2): Word {
    match byteNum
    case 0 => Zeros(24) + SUFFIX
    case 1 => Zeros(16) + SUFFIX + w[24..]
    case 2 => Zeros(8) + SUFFIX + w[16..]
    case _ => SUFFIX + w[8..]
  }

  // `v1[7] = v1[7] | b`: the most significant bit of the last byte of the word.
  function OrBit7(w: Word, b: Bit): Word {
    w[7 := w[7] || b]
  }

  datatype Feed = Feed(word: Word, ready: bool, last: bool, byteNum: Num2)

  // buf holds the words of the block being filled, oldest first.
  datatype PadderState = PadderState(buf: seq<Word>, closed: bool, done: bool) {
    predicate Full() {
      |buf| == BLOCK_WORDS
    }

    // The word that would be shifted in now.
    function Incoming(feed: Feed): Word {
      var lastSlot := |buf| >= BLOCK_WORDS - 1;
      if closed then OrBit7(Zeros(32), lastSlot)
      else if !feed.last then feed.word
      else OrBit7(Padder1(feed.word, feed.byteNum), lastSlot)
    }

    predicate Update(feed: Feed) {
      (feed.ready || closed) && !Full() && !done
    }

    function Next(feed: Feed, ack: bool): PadderState {
      PadderState(
        if ack then [] else if Update(feed) then buf + [Incoming(feed)] else buf,
        closed || feed.last,
        done || (closed && Full()))
    }
  }

  const EMPTY_PADDER := PadderState([], false, false)

  class Padder {
    var out: seq<Word>      // the 576-bit register, most significant word first
    var i: Bits             // thermometer: bit k says that more than k words are buffered
    var state: bool         // the last word has been seen
    var done: bool          // the final block has been handed over
    ghost var level: nat

    ghost predicate Valid()
      reads this
    {
      && |out| == BLOCK_WORDS
      && level <= BLOCK_WORDS
      && i == Thermometer(BLOCK_WORDS, level)
    }

    ghost function Abs(): (s: PadderState)
      reads this
      requires Valid()
      ensures |s.buf| <= BLOCK_WORDS
    {
      PadderState(out[BLOCK_WORDS - level..], state, done)
    }

    constructor ()
      ensures Valid() && Abs() == EMPTY_PADDER
    {
      out := seq(BLOCK_WORDS, _ => Zeros(32));
      i := Thermometer(BLOCK_WORDS, 0);
      level := 0;
      state, done := false, false;
    }

    function BufferFull(): (full: bool)
      reads this
      requires Valid()
      ensures full == Abs().Full()
    {
      i[17]
    }

    method Reset()
      modifies this
      ensures Valid() && Abs() == EMPTY_PADDER
    {
      out := seq(BLOCK_WORDS, _ => Zeros(32));
      i := Thermometer(BLOCK_WORDS, 0);
      level := 0;
      state, done := false, false;
    }

    // The combinational `v1`.
    method Incoming(feed: Feed) returns (v1: Word)
      requires Valid()
      ensures v1 == Abs().Incoming(feed)
    {
      if state {
        v1 := OrBit7(Zeros(32), i[16]);
      } else if !feed.last {
        v1 := feed.word;
      } else {
        v1 := OrBit7(Padder1(feed.word, feed.byteNum), i[16]);
      }
    }

    // The registers `out` and `i`.
    method ShiftBuffer(v1: Word, update: bool, ack: bool)
      requires Valid() && (update ==> level < BLOCK_WORDS)
      modifies this`out, this`i, this`level
      ensures Valid()
      ensures Abs().buf == if ack then [] else if update then old(Abs().buf) + [v1] else old(Abs().buf)
    {
      ShiftThermometer(BLOCK_WORDS, level);
      if update {
        out := out[1..] + [v1];
      }
      if ack {
        i, level := Thermometer(BLOCK_WORDS, 0), 0;
      } else if update {
        i, level := ShiftIn(i, true), level + 1;
      }
    }

    // The wires `accept` and `update`.
    method Updates(feed: Feed) returns (update: bool, full: bool)
      requires Valid()
      ensures full == Abs().Full() && update == Abs().Update(feed)
    {
      full := i[17];
      var accept := !state && feed.ready && !full;
      update := (accept || (state && !full)) && !done;
    }

    method Clock(reset: bool, feed: Feed, ack: bool)
      requires Valid()
      modifies this
      ensures Valid()
      ensures Abs() == if reset then EMPTY_PADDER else old(Abs()).Next(feed, ack)
    {
      if reset {
        Reset();
        return;
      }
      var update, full := Updates(feed);
      var v1 := Incoming(feed);
      ShiftBuffer(v1, update, ack);
      done := done || (state && full);
      state := state || feed.last;
    }
  }
}
