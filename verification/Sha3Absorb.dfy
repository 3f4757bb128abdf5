/** The lane-wise absorption of the hardware against the sponge of FIPS 202, section 4, whose
    states are 1600-bit strings. */
module Sha3Absorb {
  import opened Bits
  import opened Fips202
  import opened KeccakRound
  import opened KeccakPadder
  import opened KeccakPermutation
  import opened KeccakCore
  import opened Sha3Message

  lemma PlaneBit(A: StateArray, x: Coord, y: Coord, z: Depth)
    ensures Plane(A, y)[64 * x + z] == A[x][y][z]
  {
  }

  lemma StringBit(A: StateArray, x: Coord, y: Coord, z: Depth)
    ensures ToString(A)[64 * (5 * y + x) + z] == A[x][y][z]
  {
    PlaneBit(A, x, y, z);
  }

  lemma StringRoundTrip(A: StateArray)
    ensures ToStateArray(ToString(A)) == A
  {
    forall x: Coord, y: Coord, z: Depth
      ensures ToStateArray(ToString(A))[x][y][z] == A[x][y][z]
    {
      StringBit(A, x, y, z);
    }
    SameState(ToStateArray(ToString(A)), A);
  }

  // A lane of the block is the next 64 bits of the message.
  lemma ReorderedLane(high: Word, low: Word)
    ensures ReverseBytes(JoinWords(high, low)) == WordBits(high) + WordBits(low)
  {
    var l := JoinWords(high, low);
    assert l[56..] == high[24..] && l[48..56] == high[16..24] && l[40..48] == high[8..16] && l[32..40] == high[..8];
    assert l[24..32] == low[24..] && l[16..24] == low[16..24] && l[8..16] == low[8..16] && l[..8] == low[..8];
  }

  lemma {:induction false} StreamAt(words: seq<Word>, k: nat)
    requires k < |words|
    ensures Stream(words)[32 * k..32 * k + 32] == WordBits(words[k])
  {
    var n := |words| - 1;
    if k < n {
      StreamAt(words[..n], k);
    }
  }

  lemma Subslice(s: Bits, lo: nat, hi: nat, a: nat, b: nat)
    requires a <= b <= hi - lo && hi <= |s|
    ensures s[lo..hi][a..b] == s[lo + a..lo + b]
  {
    forall k | 0 <= k < b - a
      ensures s[lo..hi][a..b][k] == s[lo + a..lo + b][k]
    {
    }
  }

  lemma JoinSlices(s: Bits, lo: nat, mid: nat, hi: nat)
    requires lo <= mid <= hi <= |s|
    ensures s[lo..hi] == s[lo..mid] + s[mid..hi]
  {
  }

  lemma StreamLane(words: seq<Word>, j: nat)
    requires 2 * j + 1 < |words|
    ensures Stream(words)[64 * j..64 * j + 64] == ReverseBytes(JoinWords(words[2 * j], words[2 * j + 1]))
  {
    ReorderedLane(words[2 * j], words[2 * j + 1]);
    StreamAt(words, 2 * j);
    StreamAt(words, 2 * j + 1);
    JoinSlices(Stream(words), 64 * j, 64 * j + 32, 64 * j + 64);
  }

  lemma SliceBit(s: Bits, lo: nat, z: Depth)
    requires lo + 64 <= |s|
    ensures s[lo..lo + 64][z] == s[lo + z]
  {
  }

  lemma BlockLaneIs(words: seq<Word>, j: nat, lane: Lane)
    requires |words| == BLOCK_WORDS && j < 9 && lane == ReverseBytes(JoinWords(words[2 * j], words[2 * j + 1]))
    ensures BlockOf(words)[j] == lane
  {
  }

  lemma BlockLane(words: seq<Word>, j: nat, lane: Lane)
    requires |words| == BLOCK_WORDS && j < 9 && lane == BlockOf(words)[j]
    ensures lane == Stream(words)[64 * j..64 * j + 64]
  {
    BlockLaneIs(words, j, ReverseBytes(JoinWords(words[2 * j], words[2 * j + 1])));
    StreamLane(words, j);
  }

  lemma BlockBit(words: seq<Word>, j: nat, z: Depth)
    requires |words| == BLOCK_WORDS && j < 9
    ensures BlockOf(words)[j][z] == Stream(words)[64 * j + z]
  {
    BlockLane(words, j, BlockOf(words)[j]);
    SliceBit(Stream(words), 64 * j, z);
  }

  ghost predicate SameBlock(block: Block, bits: Bits) {
    |bits| == RATE && forall j, z :: 0 <= j < 9 && 0 <= z < 64 ==> block[j][z] == bits[64 * j + z]
  }

  lemma XorStringBit(S: Bits, mask: Bits, x: Coord, y: Coord, z: Depth)
    requires |S| == |mask| == STATE_BITS
    ensures ToStateArray(Xor(S, mask))[x][y][z] == (ToStateArray(S)[x][y][z] != mask[64 * (5 * y + x) + z])
  {
  }

  lemma XorBlockBit(S: Bits, block: Block, bits: Bits, x: Coord, y: Coord, z: Depth)
    requires |S| == STATE_BITS && SameBlock(block, bits)
    ensures XorBlock(ToStateArray(S), block)[x][y][z] ==
            ToStateArray(Xor(S, bits + Zeros(STATE_BITS - RATE)))[x][y][z]
  {
    var mask := bits + Zeros(STATE_BITS - RATE);
    var j := 5 * y + x;
    XorStringBit(S, mask, x, y, z);
    assert mask[64 * j + z] == (j < 9 && block[j][z]);
  }

  lemma XorBlockAgrees(S: Bits, block: Block, bits: Bits)
    requires |S| == STATE_BITS && SameBlock(block, bits)
    ensures XorBlock(ToStateArray(S), block) == ToStateArray(Xor(S, bits + Zeros(STATE_BITS - RATE)))
  {
    forall x: Coord, y: Coord, z: Depth
      ensures XorBlock(ToStateArray(S), block)[x][y][z] ==
              ToStateArray(Xor(S, bits + Zeros(STATE_BITS - RATE)))[x][y][z]
    {
      XorBlockBit(S, block, bits, x, y, z);
    }
    SameState(XorBlock(ToStateArray(S), block), ToStateArray(Xor(S, bits + Zeros(STATE_BITS - RATE))));
  }

  lemma BlockIsStream(words: seq<Word>)
    requires |words| == BLOCK_WORDS
    ensures SameBlock(BlockOf(words), Stream(words))
  {
    forall j, z | 0 <= j < 9 && 0 <= z < 64
      ensures BlockOf(words)[j][z] == Stream(words)[64 * j + z]
    {
      BlockBit(words, j, z);
    }
  }

  // Twenty-four hardware rounds on the lanes are one absorption step on the string.
  lemma AbsorbBlockAgrees(S: Bits, words: seq<Word>)
    requires |S| == STATE_BITS && |words| == BLOCK_WORDS
    ensures ToStateArray(AbsorbBlock(S, Stream(words))) == Rounds(XorBlock(ToStateArray(S), BlockOf(words)), ROUNDS)
  {
    BlockIsStream(words);
    XorBlockAgrees(S, BlockOf(words), Stream(words));
    StringRoundTrip(Rounds(XorBlock(ToStateArray(S), BlockOf(words)), ROUNDS));
  }

  // The sponge state after whole blocks of words.
  function Absorbed(words: seq<Word>): (S: Bits)
    ensures |S| == STATE_BITS
    decreases |words|
  {
    var n := |words| - BLOCK_WORDS;
    if n < 0 then Zeros(STATE_BITS) else AbsorbBlock(Absorbed(words[..n]), Stream(words[n..]))
  }

  lemma {:induction false} AbsorbLastBlock(S: Bits, P: Bits, n: nat, block: Bits)
    requires |S| == STATE_BITS && |P| == RATE * n && |block| == RATE
    ensures Absorb(S, P + block) == AbsorbBlock(Absorb(S, P), block)
    decreases n
  {
    if n == 0 {
      assert P + block == block && block[..RATE] == block;
    } else {
      assert (P + block)[..RATE] == P[..RATE] && (P + block)[RATE..] == P[RATE..] + block;
      AbsorbLastBlock(AbsorbBlock(S, P[..RATE]), P[RATE..], n - 1, block);
    }
  }

  lemma AbsorbedAppend(head: seq<Word>, block: seq<Word>)
    requires |block| == BLOCK_WORDS
    ensures Absorbed(head + block) == AbsorbBlock(Absorbed(head), Stream(block))
  {
    var words := head + block;
    assert words[..|words| - BLOCK_WORDS] == head && words[|words| - BLOCK_WORDS..] == block;
  }

  lemma SpongeAppend(head: seq<Word>, block: seq<Word>, n: nat)
    requires |head| == BLOCK_WORDS * n && |block| == BLOCK_WORDS
    requires Absorbed(head) == Absorb(Zeros(STATE_BITS), Stream(head))
    ensures Absorbed(head + block) == Absorb(Zeros(STATE_BITS), Stream(head + block))
  {
    AbsorbedAppend(head, block);
    StreamConcat(head, block);
    AbsorbLastBlock(Zeros(STATE_BITS), Stream(head), n, Stream(block));
  }

  lemma NoBlocks(words: seq<Word>)
    requires |words| == 0
    ensures Absorbed(words) == Absorb(Zeros(STATE_BITS), Stream(words))
  {
  }

  lemma {:induction false} AbsorbedIsSponge(words: seq<Word>, n: nat)
    requires |words| == BLOCK_WORDS * n
    ensures Absorbed(words) == Absorb(Zeros(STATE_BITS), Stream(words))
    decreases n
  {
    hide Absorb, Absorbed, AbsorbBlock, Stream, Zeros;
    if n == 0 {
      NoBlocks(words);
    } else {
      var m := BLOCK_WORDS * (n - 1);
      AbsorbedIsSponge(words[..m], n - 1);
      assert words[..m] + words[m..] == words;
      SpongeAppend(words[..m], words[m..], n - 1);
    }
  }

  // Byte j of a vector, counted from its most significant end.
  function ByteFromTop(v: Bits, j: nat): Bits
    requires 8 * j + 8 <= |v|
  {
    v[|v| - 8 * j - 8..|v| - 8 * j]
  }

  lemma ReversedByte(l: Lane, b: nat)
    requires b < 8
    ensures ReverseBytes(l)[56 - 8 * b..64 - 8 * b] == l[8 * b..8 * b + 8]
  {
  }

  lemma FourLanesSlice(l3: Lane, l2: Lane, l1: Lane, l0: Lane)
    ensures var s := FourLanes(l3, l2, l1, l0);
            && s[192..256] == ReverseBytes(l3) && s[128..192] == ReverseBytes(l2)
            && s[64..128] == ReverseBytes(l1) && s[..64] == ReverseBytes(l0)
  {
  }

  // Lane number w, counted as in the state string, for w < 8.
  function DigestLane(a: StateArray, w: nat): Lane
    requires w < 8
  {
    if w < 5 then a[w][0] else a[w - 5][1]
  }

  lemma SliceOfLow(high: Bits, low: Bits, lo: nat)
    requires |low| == 256 && lo + 64 <= 256
    ensures (low + high)[lo..lo + 64] == low[lo..lo + 64]
  {
  }

  lemma SliceOfHigh(high: Bits, low: Bits, lo: nat)
    requires |low| == 256 && lo + 64 <= |high|
    ensures (low + high)[256 + lo..256 + lo + 64] == high[lo..lo + 64]
  {
  }

  lemma DigestLaneHigh(a: StateArray, w: nat)
    requires w < 4
    ensures DigestOut(a)[448 - 64 * w..512 - 64 * w] == ReverseBytes(DigestLane(a, w))
  {
    var low := FourLanes(a[4][0], a[0][1], a[1][1], a[2][1]);
    var high := FourLanes(a[0][0], a[1][0], a[2][0], a[3][0]);
    SliceOfHigh(high, low, 192 - 64 * w);
    FourLanesSlice(a[0][0], a[1][0], a[2][0], a[3][0]);
  }

  lemma DigestLaneLow(a: StateArray, w: nat)
    requires 4 <= w < 8
    ensures DigestOut(a)[448 - 64 * w..512 - 64 * w] == ReverseBytes(DigestLane(a, w))
  {
    var low := FourLanes(a[4][0], a[0][1], a[1][1], a[2][1]);
    var high := FourLanes(a[0][0], a[1][0], a[2][0], a[3][0]);
    SliceOfLow(high, low, 448 - 64 * w);
    FourLanesSlice(a[4][0], a[0][1], a[1][1], a[2][1]);
  }

  lemma DigestLaneAt(a: StateArray, w: nat)
    requires w < 8
    ensures DigestOut(a)[448 - 64 * w..512 - 64 * w] == ReverseBytes(DigestLane(a, w))
  {
    if w < 4 {
      DigestLaneHigh(a, w);
    } else {
      DigestLaneLow(a, w);
    }
  }

  lemma LaneOfString(S: Bits, w: nat)
    requires |S| == STATE_BITS && w < 8
    ensures DigestLane(ToStateArray(S), w) == S[64 * w..64 * w + 64]
  {
    var x: Coord, y: Coord := if w < 5 then w else w - 5, if w < 5 then 0 else 1;
    forall z: Depth
      ensures ToStateArray(S)[x][y][z] == S[64 * w..64 * w + 64][z]
    {
    }
  }

  lemma ByteOfLane(out: Bits, lane: Lane, S: Bits, w: nat, b: nat)
    requires |out| == 512 && |S| == STATE_BITS && w < 8 && b < 8
    requires out[448 - 64 * w..512 - 64 * w] == ReverseBytes(lane)
    requires lane == S[64 * w..64 * w + 64]
    ensures ByteFromTop(out, 8 * w + b) == S[64 * w + 8 * b..64 * w + 8 * b + 8]
  {
    ReversedByte(lane, b);
    Subslice(out, 448 - 64 * w, 512 - 64 * w, 56 - 8 * b, 64 - 8 * b);
    Subslice(S, 64 * w, 64 * w + 64, 8 * b, 8 * b + 8);
  }

  // Read from the top, the output register spells the first 512 bits of the sponge state.
  lemma DigestAgrees(S: Bits, w: nat, b: nat)
    requires |S| == STATE_BITS && w < 8 && b < 8
    ensures ByteFromTop(DigestOut(ToStateArray(S)), 8 * w + b) == S[64 * w + 8 * b..64 * w + 8 * b + 8]
  {
    DigestLaneAt(ToStateArray(S), w);
    LaneOfString(S, w);
    ByteOfLane(DigestOut(ToStateArray(S)), DigestLane(ToStateArray(S), w), S, w, b);
  }
}
