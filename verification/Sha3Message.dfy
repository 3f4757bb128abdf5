/** What a sequence of fed words means as a message, which words the padder must emit for it,
    and the proof that those words are the padded string of FIPS 202 (sections 5.1 and B.2). */
module Sha3Message {
  import opened Bits
  import opened Fips202
  import opened KeccakPadder

  // A FIFO entry: the last word of a message carries byteNum bytes, every other word four.
  datatype Entry = Entry(data: Word, last: bool, byteNum: Num2)

  // Only the final entry is marked last.
  ghost predicate Complete(fed: seq<Entry>) {
    && |fed| > 0
    && fed[|fed| - 1].last
    && Open(fed[..|fed| - 1])
  }

  ghost predicate Open(fed: seq<Entry>) {
    forall k :: 0 <= k < |fed| ==> !fed[k].last
  }

  // The bits of a word in message order: the most significant byte first, and the least
  // significant bit of a byte first (section B.1).
  function WordBits(w: Word): (s: Bits)
    ensures |s| == 32
  {
    w[24..] + w[16..24] + w[8..16] + w[..8]
  }

  function Stream(words: seq<Word>): (s: Bits)
    ensures |s| == 32 * |words|
  {
    if |words| == 0 then [] else Stream(words[..|words| - 1]) + WordBits(words[|words| - 1])
  }

  function EntryBits(e: Entry): Bits {
    if e.last then WordBits(e.data)[..8 * e.byteNum] else WordBits(e.data)
  }

  function MessageBits(fed: seq<Entry>): Bits {
    if |fed| == 0 then []
    else MessageBits(fed[..|fed| - 1]) + EntryBits(fed[|fed| - 1])
  }

  function Data(fed: seq<Entry>): (words: seq<Word>)
    ensures |words| == |fed|
  {
    seq(|fed|, k requires 0 <= k < |fed| => fed[k].data)
  }

  function ZeroWords(n: nat): (words: seq<Word>)
    ensures |words| == n
  {
    seq(n, _ => Zeros(32))
  }

  // The rest of a block whose next free slot takes the last word of the message.
  function PadTail(slot: nat, e: Entry): (words: seq<Word>)
    requires slot < BLOCK_WORDS
    ensures |words| == BLOCK_WORDS - slot
  {
    var word := Padder1(e.data, e.byteNum);
    if slot == BLOCK_WORDS - 1 then [OrBit7(word, true)]
    else [word] + ZeroWords(BLOCK_WORDS - 2 - slot) + [OrBit7(Zeros(32), true)]
  }

  // All the words of a complete message's padded blocks.
  function PaddedWords(fed: seq<Entry>): (words: seq<Word>)
    requires |fed| > 0
    ensures |words| == |fed| - 1 + BLOCK_WORDS - (|fed| - 1) % BLOCK_WORDS
  {
    var m := |fed| - 1;
    Data(fed[..m]) + PadTail(m % BLOCK_WORDS, fed[m])
  }

  lemma {:induction false} StreamConcat(a: seq<Word>, b: seq<Word>)
    ensures Stream(a + b) == Stream(a) + Stream(b)
  {
    if |b| == 0 {
      assert a + b == a;
    } else {
      var n := |b| - 1;
      assert (a + b)[..|a + b| - 1] == a + b[..n];
      StreamConcat(a, b[..n]);
    }
  }

  lemma {:induction false} StreamZeros(n: nat)
    ensures Stream(ZeroWords(n)) == Zeros(32 * n)
  {
    if n > 0 {
      assert ZeroWords(n)[..n - 1] == ZeroWords(n - 1);
      StreamZeros(n - 1);
    }
  }

  lemma StreamOne(w: Word)
    ensures Stream([w]) == WordBits(w)
  {
    assert [w][..0] == [];
  }

  lemma {:induction false} OpenMessage(fed: seq<Entry>)
    requires Open(fed)
    ensures MessageBits(fed) == Stream(Data(fed))
  {
    if |fed| > 0 {
      var n := |fed| - 1;
      OpenMessage(fed[..n]);
      assert Data(fed)[..n] == Data(fed[..n]);
    }
  }

  lemma SuffixedWord(w: Word, byteNum: Num2)
    ensures WordBits(Padder1(w, byteNum)) ==
            WordBits(w)[..8 * byteNum] + [false, true, true] + Zeros(29 - 8 * byteNum)
  {
    var p := Padder1(w, byteNum);
    var none := Zeros(8);
    if byteNum == 0 {
      assert p[24..] == SUFFIX && p[16..24] == p[8..16] == p[..8] == none;
    } else if byteNum == 1 {
      assert p[24..] == w[24..] && p[16..24] == SUFFIX && p[8..16] == p[..8] == none;
    } else if byteNum == 2 {
      assert p[24..] == w[24..] && p[16..24] == w[16..24] && p[8..16] == SUFFIX && p[..8] == none;
    } else {
      assert p[24..] == w[24..] && p[16..24] == w[16..24] && p[8..16] == w[8..16] && p[..8] == SUFFIX;
    }
  }

  lemma ClosingWord(w: Word)
    ensures WordBits(OrBit7(w, true)) == WordBits(w)[..31] + [true]
  {
  }

  // The tail is the message's last bytes, the bits 01, and 1 0* 1 up to the end of the block.
  lemma TailBits(slot: nat, e: Entry)
    requires slot < BLOCK_WORDS
    ensures Stream(PadTail(slot, e)) ==
            WordBits(e.data)[..8 * e.byteNum] + [false, true, true] +
            Zeros(32 * (BLOCK_WORDS - slot) - 8 * e.byteNum - 4) + [true]
  {
    var word, n := Padder1(e.data, e.byteNum), BLOCK_WORDS - 2 - slot;
    SuffixedWord(e.data, e.byteNum);
    if slot == BLOCK_WORDS - 1 {
      StreamOne(OrBit7(word, true));
      ClosingWord(word);
    } else {
      StreamConcat([word] + ZeroWords(n), [OrBit7(Zeros(32), true)]);
      StreamConcat([word], ZeroWords(n));
      StreamOne(word);
      StreamZeros(n);
      StreamOne(OrBit7(Zeros(32), true));
      ClosingWord(Zeros(32));
    }
  }

  function PadZeros(slot: nat, byteNum: Num2): Bits
    requires slot < BLOCK_WORDS
  {
    Zeros(32 * (BLOCK_WORDS - slot) - 8 * byteNum - 4)
  }

  lemma PadLength(m: nat, byteNum: Num2)
    ensures Pad101(RATE, 32 * m + 8 * byteNum + 2) == [true] + PadZeros(m % BLOCK_WORDS, byteNum) + [true]
  {
    var q, slot := m / BLOCK_WORDS, m % BLOCK_WORDS;
    assert -(32 * m + 8 * byteNum + 2) - 2 == -(q + 1) * RATE + (32 * (BLOCK_WORDS - slot) - 8 * byteNum - 4);
  }

  lemma Regroup(a: Bits, b: Bits, zeros: Bits)
    ensures a + (b + [false, true, true] + zeros + [true]) == (a + b + [false, true]) + ([true] + zeros + [true])
  {
  }

  lemma PaddedBits(a: Bits, m: nat, e: Entry)
    requires |a| == 32 * m
    ensures var N := a + WordBits(e.data)[..8 * e.byteNum] + [false, true];
            a + Stream(PadTail(m % BLOCK_WORDS, e)) == N + Pad101(RATE, |N|)
  {
    TailBits(m % BLOCK_WORDS, e);
    Regroup(a, WordBits(e.data)[..8 * e.byteNum], PadZeros(m % BLOCK_WORDS, e.byteNum));
    PadLength(m, e.byteNum);
  }

  // The emitted words spell the message, the SHA-3 suffix 01 and pad10*1.
  lemma PaddedWordsAreFips202(fed: seq<Entry>)
    requires Complete(fed)
    ensures var N := MessageBits(fed) + [false, true];
            Stream(PaddedWords(fed)) == N + Pad101(RATE, |N|)
  {
    var m := |fed| - 1;
    OpenMessage(fed[..m]);
    StreamConcat(Data(fed[..m]), PadTail(m % BLOCK_WORDS, fed[m]));
    PaddedBits(MessageBits(fed[..m]), m, fed[m]);
  }
}
