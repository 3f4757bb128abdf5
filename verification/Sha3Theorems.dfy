/** Consequences for users of the engine: which blocks are absorbed, that every byte message
    can be fed, and what happens to a second message sent without a new `init_i`. */
module Sha3Theorems {
  import opened Bits
  import opened Fips202
  import opened KeccakPadder
  import opened KeccakCore
  import opened Sha3Message
  import opened Sha3Core
  import opened Sha3Engine
  import opened Sha3Run

  lemma MessageLength(fed: seq<Entry>)
    requires Complete(fed)
    ensures |MessageBits(fed)| == 32 * (|fed| - 1) + 8 * fed[|fed| - 1].byteNum
  {
    OpenMessage(fed[..|fed| - 1]);
  }

  lemma WholeBlocksInBytes(m: nat, byteNum: Num2)
    ensures (4 * m + byteNum) / 72 == m / BLOCK_WORDS
  {
    var q, r := m / BLOCK_WORDS, m % BLOCK_WORDS;
    assert 4 * m + byteNum == 72 * q + (4 * r + byteNum);
  }

  lemma BlockCount(fed: seq<Entry>)
    requires Complete(fed)
    ensures |PaddedWords(fed)| == BLOCK_WORDS * (|MessageBits(fed)| / 8 / 72 + 1)
  {
    var m, byteNum := |fed| - 1, fed[|fed| - 1].byteNum;
    MessageLength(fed);
    WholeBlocks(fed);
    WholeBlocksInBytes(m, byteNum);
    assert |MessageBits(fed)| / 8 == 4 * m + byteNum;
  }

  // A message of n bytes is absorbed in n / 72 + 1 blocks, never more, and when the core is
  // ready the acknowledged blocks are the message padded as FIPS 202 asks.
  lemma BlocksAreThePaddedMessage(inputs: seq<Input>, depth: nat)
    requires HasLast(Popped(inputs, depth))
    ensures var message, acked := FirstMessage(Popped(inputs, depth)), Acknowledged(inputs, depth);
            && Complete(message)
            && |acked| <= |MessageBits(message)| / 8 / 72 + 1
            && (Execute(inputs, depth).core.ready ==>
                  var N := MessageBits(message) + [false, true];
                  && |acked| == |MessageBits(message)| / 8 / 72 + 1
                  && Stream(Concat(acked)) == N + Pad101(RATE, |N|))
  {
    AcknowledgedWords(inputs, depth);
    AckedWindow(Execute(inputs, depth).core, FirstMessage(Popped(inputs, depth)), Acknowledged(inputs, depth));
  }

  lemma AckedWindow(c: CoreState, message: seq<Entry>, acked: seq<seq<Word>>)
    requires CoreInv(c, message, |acked|) && c.pad.closed
    requires Concat(acked) == PaddedWords(message)[..BLOCK_WORDS * |acked|]
    ensures |acked| <= |MessageBits(message)| / 8 / 72 + 1
    ensures c.ready ==>
              var N := MessageBits(message) + [false, true];
              && |acked| == |MessageBits(message)| / 8 / 72 + 1
              && Stream(Concat(acked)) == N + Pad101(RATE, |N|)
  {
    BlockCount(message);
    PaddedWordsAreFips202(message);
    var words := PaddedWords(message);
    assert words[..|words|] == words;
  }

  lemma MessageSnoc(a: seq<Entry>, e: Entry)
    ensures MessageBits(a + [e]) == MessageBits(a) + EntryBits(e)
  {
    assert (a + [e])[..|a|] == a;
  }

  lemma Assoc(x: Bits, y: Bits, z: Bits)
    ensures (x + y) + z == x + (y + z)
  {
  }

  lemma {:induction false} MessageConcat(a: seq<Entry>, b: seq<Entry>)
    ensures MessageBits(a + b) == MessageBits(a) + MessageBits(b)
  {
    if |b| == 0 {
      assert a + b == a;
    } else {
      var front, e := b[..|b| - 1], b[|b| - 1];
      assert b == front + [e] && a + b == (a + front) + [e];
      MessageConcat(a, front);
      MessageSnoc(a + front, e);
      MessageSnoc(front, e);
      Assoc(MessageBits(a), MessageBits(front), EntryBits(e));
    }
  }

  function Flatten(bytes: seq<Byte>): Bits {
    if |bytes| == 0 then [] else var first: Bits := bytes[0]; first + Flatten(bytes[1..])
  }

  function ByteAt(bytes: seq<Byte>, k: nat): Byte {
    if k < |bytes| then bytes[k] else Zeros(8)
  }

  // Up to four bytes, the first one most significant.
  function PackWord(bytes: seq<Byte>): Word {
    var low: Bits := ByteAt(bytes, 3);
    low + ByteAt(bytes, 2) + ByteAt(bytes, 1) + ByteAt(bytes, 0)
  }

  // How a byte message is fed: whole words, then a last word with the remaining bytes.
  function Words(bytes: seq<Byte>): (fed: seq<Entry>)
    ensures |fed| > 0
  {
    if |bytes| < 4 then [Entry(PackWord(bytes), true, |bytes|)]
    else [Entry(PackWord(bytes[..4]), false, 0)] + Words(bytes[4..])
  }

  lemma PackedBits(bytes: seq<Byte>)
    ensures var first: Bits := ByteAt(bytes, 0);
            WordBits(PackWord(bytes)) == first + ByteAt(bytes, 1) + ByteAt(bytes, 2) + ByteAt(bytes, 3)
  {
    var w := PackWord(bytes);
    assert w[24..] == ByteAt(bytes, 0) && w[16..24] == ByteAt(bytes, 1);
    assert w[8..16] == ByteAt(bytes, 2) && w[..8] == ByteAt(bytes, 3);
  }

  lemma FlattenFrom(bytes: seq<Byte>, k: nat)
    requires k <= |bytes|
    ensures k == |bytes| ==> Flatten(bytes[k..]) == []
    ensures k < |bytes| ==> var first: Bits := bytes[k]; Flatten(bytes[k..]) == first + Flatten(bytes[k + 1..])
  {
    if k < |bytes| {
      assert bytes[k..][1..] == bytes[k + 1..];
    }
  }

  lemma ShortFlatten(bytes: seq<Byte>)
    requires |bytes| <= 4
    ensures Flatten(bytes) == WordBits(PackWord(bytes))[..8 * |bytes|]
  {
    hide WordBits, PackWord, Flatten;
    PackedBits(bytes);
    assert bytes[0..] == bytes;
    FlattenFrom(bytes, 0);
    if |bytes| > 0 {
      FlattenFrom(bytes, 1);
      if |bytes| > 1 {
        FlattenFrom(bytes, 2);
        if |bytes| > 2 {
          FlattenFrom(bytes, 3);
          if |bytes| > 3 {
            FlattenFrom(bytes, 4);
          }
        }
      }
    }
  }

  lemma {:induction false} FlattenSplit(bytes: seq<Byte>, n: nat)
    requires n <= |bytes|
    ensures Flatten(bytes) == Flatten(bytes[..n]) + Flatten(bytes[n..])
  {
    if n > 0 {
      FlattenSplit(bytes[1..], n - 1);
      assert bytes[..n][1..] == bytes[1..][..n - 1];
      assert bytes[1..][n - 1..] == bytes[n..];
    }
  }

  lemma CompleteCons(e: Entry, rest: seq<Entry>)
    requires !e.last && Complete(rest)
    ensures Complete([e] + rest)
  {
    var fed := [e] + rest;
    assert fed[..|fed| - 1] == [e] + rest[..|rest| - 1];
  }

  lemma OneEntry(e: Entry)
    ensures MessageBits([e]) == EntryBits(e)
  {
    assert [e][..0] == [];
  }

  lemma WordsUnfold(bytes: seq<Byte>)
    requires |bytes| >= 4 && Complete(Words(bytes[4..]))
    ensures Complete(Words(bytes))
    ensures MessageBits(Words(bytes)) == WordBits(PackWord(bytes[..4])) + MessageBits(Words(bytes[4..]))
  {
    var e, rest := Entry(PackWord(bytes[..4]), false, 0), Words(bytes[4..]);
    CompleteCons(e, rest);
    MessageConcat([e], rest);
    OneEntry(e);
  }

  // Every byte message is the message of some legal feeding.
  lemma {:induction false} EveryMessageCanBeFed(bytes: seq<Byte>)
    ensures Complete(Words(bytes)) && MessageBits(Words(bytes)) == Flatten(bytes)
  {
    if |bytes| < 4 {
      ShortFlatten(bytes);
      OneEntry(Entry(PackWord(bytes), true, |bytes|));
    } else {
      EveryMessageCanBeFed(bytes[4..]);
      WordsUnfold(bytes);
      ShortFlatten(bytes[..4]);
      FlattenSplit(bytes, 4);
    }
  }

  lemma {:induction false} FirstMessageShorter(entries: seq<Entry>)
    ensures |FirstMessage(entries)| <= |entries|
  {
    if |entries| > 0 {
      FirstMessageShorter(entries[..|entries| - 1]);
    }
  }

  lemma FirstIsAllIff(entries: seq<Entry>)
    requires entries != []
    ensures FirstMessage(entries) == entries <==> !HasLast(entries[..|entries| - 1])
  {
    FirstMessageShorter(entries[..|entries| - 1]);
  }

  // done_o shows the digest of the first message since the init, and that is all that has been pushed
  // exactly when no word was pushed after one marked last: a message must wait for an init.
  lemma DigestCoversAllIff(inputs: seq<Input>, depth: nat)
    requires Execute(inputs, depth).front.done
    ensures
      var pushed := Pushed(inputs, depth);
      && pushed != []
      && Spells(DigestOut(Execute(inputs, depth).core.perm.lanes), Sha3_512(MessageBits(FirstMessage(pushed))))
      && (FirstMessage(pushed) == pushed <==> !HasLast(pushed[..|pushed| - 1]))
  {
    hide Execute, Pushed, Sha3_512, DigestOut, Spells, FirstMessage, HasLast;
    DoneShowsDigest(inputs, depth);
    FirstMessageShorter(Pushed(inputs, depth));
    FirstIsAllIff(Pushed(inputs, depth));
  }

  lemma CompleteIsFirst(message: seq<Entry>)
    requires Complete(message)
    ensures FirstMessage(message) == message && HasLast(message)
  {
    assert message[|message| - 1].last;
  }

  // One message per init: done_o means that the digest of exactly that message is shown.
  lemma OneMessagePerInit(inputs: seq<Input>, depth: nat, bytes: seq<Byte>)
    requires Pushed(inputs, depth) == Words(bytes) && Execute(inputs, depth).front.done
    ensures Spells(DigestOut(Execute(inputs, depth).core.perm.lanes), Sha3_512(Flatten(bytes)))
  {
    EveryMessageCanBeFed(bytes);
    CompleteIsFirst(Words(bytes));
    DoneShowsDigest(inputs, depth);
  }
}
