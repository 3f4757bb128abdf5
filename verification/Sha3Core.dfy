/** The run invariant of the core: what has been fed determines the padder's buffer, the
    permutation's lanes and both completion flags, however the two overlap. */
module Sha3Core {
  import opened Bits
  import opened Fips202
  import KeccakRound
  import opened KeccakPadder
  import opened KeccakPermutation
  import opened KeccakCore
  import opened Sha3Message
  import opened Sha3Absorb

  ghost predicate FedOk(fed: seq<Entry>, closed: bool) {
    if closed then Complete(fed) else Open(fed)
  }

  // The words the padder has to emit, as far as they are determined by what has been fed.
  function Target(fed: seq<Entry>, closed: bool): (words: seq<Word>)
    requires FedOk(fed, closed)
  {
    if closed then PaddedWords(fed) else Data(fed)
  }

  // The buffer holds the words from position t on; n words have been fed.
  ghost predicate Buffered(pad: PadderState, words: seq<Word>, n: nat, t: nat) {
    var end := t + |pad.buf|;
    && |pad.buf| <= BLOCK_WORDS
    && end <= |words|
    && pad.buf == words[t..end]
    && (!pad.closed ==> n == end == |words| && !pad.done)
    && (pad.closed ==> n <= end)
    && (pad.done ==> end == |words|)
    && (pad.closed && !pad.done && end == |words| ==> pad.Full())
  }

  // blocks is the number of blocks acknowledged so far.
  ghost predicate PadInv(pad: PadderState, fed: seq<Entry>, blocks: nat) {
    && FedOk(fed, pad.closed)
    && Buffered(pad, Target(fed, pad.closed), |fed|, BLOCK_WORDS * blocks)
  }

  // taken is the concatenation of the acknowledged blocks.
  ghost predicate PermInv(perm: PermState, taken: seq<Word>) {
    && perm.round <= 23
    && if perm.round == 0 then perm.lanes == ToStateArray(Absorbed(taken))
       else
         && |taken| >= BLOCK_WORDS
         && var n := |taken| - BLOCK_WORDS;
         perm.lanes == Rounds(XorBlock(ToStateArray(Absorbed(taken[..n])), BlockOf(taken[n..])), perm.round)
  }

  ghost predicate CoreInv(s: CoreState, fed: seq<Entry>, blocks: nat) {
    && PadInv(s.pad, fed, blocks)
    && var words, t := Target(fed, s.pad.closed), BLOCK_WORDS * blocks;
    && PermInv(s.perm, words[..t])
    && s.final == (s.perm.round > 0 && s.pad.closed && t == |words|)
    && s.ready == (s.perm.round == 0 && s.pad.closed && t == |words|)
  }

  // The surrounding logic feeds no word into a full buffer and marks only fed words last.
  ghost predicate Polite(s: CoreState, feed: Feed) {
    (feed.ready ==> !s.pad.Full()) && (feed.last ==> feed.ready)
  }

  function FedNext(s: CoreState, fed: seq<Entry>, feed: Feed): seq<Entry> {
    if feed.ready && !s.pad.closed then fed + [Entry(feed.word, feed.last, feed.byteNum)] else fed
  }

  // Feeding one more word only extends the words to emit.
  lemma TargetGrows(fed: seq<Entry>, e: Entry)
    requires FedOk(fed, false)
    ensures FedOk(fed + [e], e.last)
    ensures var m, words := |fed|, Target(fed + [e], e.last);
            && |words| > m && words[..m] == Data(fed)
            && words[m] == if e.last then OrBit7(Padder1(e.data, e.byteNum), m % BLOCK_WORDS == BLOCK_WORDS - 1) else e.data
  {
    var next := fed + [e];
    assert next[..|next| - 1] == fed;
  }

  // Past the last word come zero words, the final one with its closing bit.
  lemma TargetTail(fed: seq<Entry>, t: nat)
    requires FedOk(fed, true) && |fed| <= t < |PaddedWords(fed)|
    ensures PaddedWords(fed)[t] == OrBit7(Zeros(32), t % BLOCK_WORDS == BLOCK_WORDS - 1)
  {
  }

  // The words to emit end with the first whole block that holds the last fed word.
  lemma FinalBlock(fed: seq<Entry>, blocks: nat)
    requires FedOk(fed, true)
    requires |fed| <= BLOCK_WORDS * blocks + BLOCK_WORDS <= |PaddedWords(fed)|
    ensures |PaddedWords(fed)| == BLOCK_WORDS * blocks + BLOCK_WORDS
  {
    WholeBlocks(fed);
  }

  lemma WholeBlocks(fed: seq<Entry>)
    requires FedOk(fed, true)
    ensures |PaddedWords(fed)| == BLOCK_WORDS * ((|fed| - 1) / BLOCK_WORDS + 1)
  {
  }

  lemma Slot(blocks: nat, k: nat)
    requires k < BLOCK_WORDS
    ensures (BLOCK_WORDS * blocks + k) % BLOCK_WORDS == k
  {
  }

  lemma PadAcknowledged(pad: PadderState, fed: seq<Entry>, blocks: nat, feed: Feed)
    requires PadInv(pad, fed, blocks) && pad.Full() && !feed.ready && !feed.last
    ensures PadInv(pad.Next(feed, true), fed, blocks + 1)
  {
    if pad.closed {
      FinalBlock(fed, blocks);
    }
  }

  // Taking the word due next keeps the buffer a window of the words.
  lemma WordTaken(pad: PadderState, words: seq<Word>, n: nat, t: nat, feed: Feed)
    requires Buffered(pad, words, n, t) && pad.closed && !pad.done && !pad.Full()
    requires pad.Incoming(feed) == words[t + |pad.buf|]
    requires t + |pad.buf| + 1 == |words| ==> |pad.buf| == BLOCK_WORDS - 1
    ensures Buffered(pad.Next(feed, false), words, n, t)
  {
    assert pad.Next(feed, false).buf == pad.buf + [words[t + |pad.buf|]];
  }

  lemma PadPadding(pad: PadderState, fed: seq<Entry>, blocks: nat, feed: Feed)
    requires PadInv(pad, fed, blocks) && !pad.Full() && pad.closed && !pad.done
    ensures PadInv(pad.Next(feed, false), fed, blocks)
  {
    hide PaddedWords, FedOk;
    var t := BLOCK_WORDS * blocks;
    var words := PaddedWords(fed);
    Slot(blocks, |pad.buf|);
    WholeBlocks(fed);
    TargetTail(fed, t + |pad.buf|);
    WordTaken(pad, words, |fed|, t, feed);
  }

  lemma WordFed(pad: PadderState, words: seq<Word>, grown: seq<Word>, t: nat, feed: Feed)
    requires Buffered(pad, words, |words|, t) && !pad.closed && !pad.Full() && feed.ready
    requires |grown| > |words| && grown[..|words|] == words && grown[|words|] == pad.Incoming(feed)
    requires !feed.last ==> |grown| == |words| + 1
    requires feed.last && |grown| == |words| + 1 ==> |pad.buf| == BLOCK_WORDS - 1
    ensures Buffered(pad.Next(feed, false), grown, |words| + 1, t)
  {
    assert grown[t..|words|] == words[t..];
    assert pad.Next(feed, false).buf == pad.buf + [grown[|words|]];
  }

  lemma PadFed(pad: PadderState, fed: seq<Entry>, blocks: nat, feed: Feed)
    requires PadInv(pad, fed, blocks) && !pad.Full() && feed.ready && !pad.closed
    ensures PadInv(pad.Next(feed, false), fed + [Entry(feed.word, feed.last, feed.byteNum)], blocks)
  {
    var e := Entry(feed.word, feed.last, feed.byteNum);
    TargetGrows(fed, e);
    Slot(blocks, |pad.buf|);
    if feed.last {
      WholeBlocks(fed + [e]);
    }
    WordFed(pad, Data(fed), Target(fed + [e], e.last), BLOCK_WORDS * blocks, feed);
  }

  lemma PadStep(s: CoreState, fed: seq<Entry>, blocks: nat, feed: Feed)
    requires PadInv(s.pad, fed, blocks) && Polite(s, feed)
    ensures PadInv(s.pad.Next(feed, s.Ack()), FedNext(s, fed, feed), if s.Ack() then blocks + 1 else blocks)
  {
    if s.Ack() {
      PadAcknowledged(s.pad, fed, blocks, feed);
    } else if feed.ready && !s.pad.closed {
      PadFed(s.pad, fed, blocks, feed);
    } else if s.pad.closed && !s.pad.Full() && !s.pad.done {
      PadPadding(s.pad, fed, blocks, feed);
    } else {
      PadHolds(s.pad, fed, blocks, feed);
    }
  }

  lemma PadHolds(pad: PadderState, fed: seq<Entry>, blocks: nat, feed: Feed)
    requires PadInv(pad, fed, blocks) && !pad.Update(feed) && (feed.last ==> pad.closed)
    ensures PadInv(pad.Next(feed, false), fed, blocks)
  {
    if pad.closed && pad.Full() {
      FinalBlock(fed, blocks);
    }
  }

  // A block taken when idle starts its first round on the absorbed state.
  lemma PermTakes(perm: PermState, taken: seq<Word>, block: seq<Word>)
    requires PermInv(perm, taken) && perm.round == 0 && |block| == BLOCK_WORDS
    ensures PermInv(perm.Next(BlockOf(block), true), taken + block)
  {
    assert (taken + block)[..|taken|] == taken && (taken + block)[|taken|..] == block;
    var start := XorBlock(perm.lanes, BlockOf(block));
    assert Rounds(start, 1) == Rnd(Rounds(start, 0), 0);
  }

  // Round by round the lanes advance; the twenty-fourth round completes the absorption.
  lemma PermAdvances(perm: PermState, taken: seq<Word>, block: Block, inReady: bool)
    requires PermInv(perm, taken) && perm.round > 0
    ensures PermInv(perm.Next(block, inReady), taken)
  {
    var n := |taken| - BLOCK_WORDS;
    var start := XorBlock(ToStateArray(Absorbed(taken[..n])), BlockOf(taken[n..]));
    assert Rounds(start, perm.round + 1) == Rnd(Rounds(start, perm.round), perm.round);
    if perm.round == 23 {
      AbsorbBlockAgrees(Absorbed(taken[..n]), taken[n..]);
    }
  }

  lemma PermStep(s: CoreState, taken: seq<Word>, feed: Feed)
    requires PermInv(s.perm, taken)
    ensures PermInv(s.Next(feed).perm, if s.Ack() then taken + s.pad.buf else taken)
  {
    if s.Ack() {
      PermTakes(s.perm, taken, s.pad.buf);
    } else if s.perm.round > 0 {
      PermAdvances(s.perm, taken, if s.pad.Full() then BlockOf(s.pad.buf) else seq(9, _ => Zeros(64)), s.pad.Full());
    }
  }

  // Words already determined never change; nothing changes at all once the core is closed.
  lemma TargetPrefix(s: CoreState, fed: seq<Entry>, blocks: nat, feed: Feed)
    requires PadInv(s.pad, fed, blocks) && Polite(s, feed)
    ensures var next, closed := FedNext(s, fed, feed), s.pad.closed || feed.last;
            && FedOk(next, closed)
            && (s.pad.closed || !feed.ready ==> next == fed && closed == s.pad.closed)
            && var words, grown, end := Target(fed, s.pad.closed), Target(next, closed), BLOCK_WORDS * blocks + |s.pad.buf|;
               && end <= |words| && end <= |grown| && grown[..end] == words[..end]
               && (!s.pad.closed && feed.ready ==> end < |grown|)
  {
    if feed.ready && !s.pad.closed {
      TargetGrows(fed, Entry(feed.word, feed.last, feed.byteNum));
    }
  }

  lemma FlagsStep(s: CoreState, fed: seq<Entry>, blocks: nat, feed: Feed)
    requires CoreInv(s, fed, blocks) && Polite(s, feed)
    ensures var next, n := s.Next(feed), FedNext(s, fed, feed);
            && FedOk(n, next.pad.closed)
            && var whole := next.pad.closed && BLOCK_WORDS * (if s.Ack() then blocks + 1 else blocks) == |Target(n, next.pad.closed)|;
            && next.final == (next.perm.round > 0 && whole)
            && next.ready == (next.perm.round == 0 && whole)
  {
    TargetPrefix(s, fed, blocks, feed);
    if s.Ack() && s.pad.closed {
      FinalBlock(fed, blocks);
    }
  }

  lemma Extend(words: seq<Word>, grown: seq<Word>, t: nat, end: nat)
    requires t <= end <= |words| && end <= |grown| && grown[..end] == words[..end]
    ensures grown[..t] == words[..t] && grown[..end] == words[..t] + words[t..end]
  {
    assert grown[..end][..t] == grown[..t] && words[..end][..t] == words[..t];
    assert words[..end] == words[..t] + words[t..end];
  }

  lemma TakenStep(s: CoreState, fed: seq<Entry>, blocks: nat, feed: Feed)
    requires CoreInv(s, fed, blocks) && Polite(s, feed)
    ensures var grown := Target(FedNext(s, fed, feed), s.pad.closed || feed.last);
            var t := BLOCK_WORDS * (if s.Ack() then blocks + 1 else blocks);
            t <= |grown| && PermInv(s.Next(feed).perm, grown[..t])
  {
    hide PermInv, Target, FedOk;
    var words, t := Target(fed, s.pad.closed), BLOCK_WORDS * blocks;
    TargetPrefix(s, fed, blocks, feed);
    Extend(words, Target(FedNext(s, fed, feed), s.pad.closed || feed.last), t, t + |s.pad.buf|);
    PermStep(s, words[..t], feed);
  }

  lemma CoreStep(s: CoreState, fed: seq<Entry>, blocks: nat, feed: Feed, fedNext: seq<Entry>, blocksNext: nat)
    requires CoreInv(s, fed, blocks) && Polite(s, feed)
    requires fedNext == FedNext(s, fed, feed) && blocksNext == if s.Ack() then blocks + 1 else blocks
    ensures CoreInv(s.Next(feed), fedNext, blocksNext)
  {
    PadStep(s, fed, blocks, feed);
    TakenStep(s, fed, blocks, feed);
    FlagsStep(s, fed, blocks, feed);
  }

  lemma CoreStarts()
    ensures CoreInv(EMPTY_CORE, [], 0)
  {
    SameLanes();
  }

  lemma SameLanes()
    ensures ZeroState() == ToStateArray(Zeros(STATE_BITS))
  {
    forall x: Coord, y: Coord, z: Depth
      ensures ZeroState()[x][y][z] == ToStateArray(Zeros(STATE_BITS))[x][y][z]
    {
    }
    KeccakRound.SameState(ZeroState(), ToStateArray(Zeros(STATE_BITS)));
  }

  // The register `out`, read byte by byte from the top, spells the digest.
  ghost predicate Spells(out: Bits, digest: Bits) {
    && |out| == |digest| == DIGEST_BITS
    && forall w, b :: 0 <= w < 8 && 0 <= b < 8 ==>
         ByteFromTop(out, 8 * w + b) == digest[64 * w + 8 * b..64 * w + 8 * b + 8]
  }

  lemma SpellsPrefix(S: Bits)
    requires |S| == STATE_BITS
    ensures Spells(DigestOut(ToStateArray(S)), S[..DIGEST_BITS])
  {
    var out := DigestOut(ToStateArray(S));
    forall w, b | 0 <= w < 8 && 0 <= b < 8
      ensures ByteFromTop(out, 8 * w + b) == S[..DIGEST_BITS][64 * w + 8 * b..64 * w + 8 * b + 8]
    {
      DigestAgrees(S, w, b);
      Subslice(S, 0, DIGEST_BITS, 64 * w + 8 * b, 64 * w + 8 * b + 8);
    }
  }

  lemma SpongeOfPaddedWords(fed: seq<Entry>, blocks: nat)
    requires FedOk(fed, true) && |PaddedWords(fed)| == BLOCK_WORDS * blocks
    ensures Sha3_512(MessageBits(fed)) == Absorbed(PaddedWords(fed))[..DIGEST_BITS]
  {
    PaddedWordsAreFips202(fed);
    AbsorbedIsSponge(PaddedWords(fed), blocks);
  }

  // When the core is ready it shows the SHA3-512 digest of exactly what was fed to it.
  lemma ReadyShowsDigest(s: CoreState, fed: seq<Entry>, blocks: nat)
    requires CoreInv(s, fed, blocks) && s.ready
    ensures FedOk(fed, true) && Spells(DigestOut(s.perm.lanes), Sha3_512(MessageBits(fed)))
  {
    var words := PaddedWords(fed);
    assert words[..|words|] == words;
    SpongeOfPaddedWords(fed, blocks);
    SpellsPrefix(Absorbed(words));
  }
}
