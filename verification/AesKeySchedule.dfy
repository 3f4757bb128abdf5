/** The key schedule (`Project/KeyExpansion.v`): a group of Nk words at a time, the last group cut
    to four words, against the word recurrence of FIPS 197 section 5.2. */
module AesKeySchedule {
  import opened AesField
  import opened AesTables
  import opened AesRound

  // The key lengths of FIPS 197 in words, Nk.
  type KeyLength = n: nat | n == 4 || n == 6 || n == 8 witness 4
  type Key = k: seq<Column> | |k| == 4 || |k| == 6 || |k| == 8
    witness [ZERO_COLUMN, ZERO_COLUMN, ZERO_COLUMN, ZERO_COLUMN]

  const ZERO_COLUMN := Column(0, 0, 0, 0)

  function RotWord(w: Column): Column {
    Column(w.b1, w.b2, w.b3, w.b0)
  }

  // FIPS 197 section 5.2: word i of the expanded key, x^(i/Nk - 1) being the round constant.
  function ScheduleWord(key: Key, i: nat): Column {
    var nk := |key|;
    if i < nk then key[i]
    else
      var temp := ScheduleWord(key, i - 1);
      AddColumn(ScheduleWord(key, i - nk),
        if i % nk == 0 then AddColumn(SubWord(RotWord(temp)), Column(XtimePow(1, i / nk - 1), 0, 0, 0))
        else if nk > 6 && i % nk == 4 then SubWord(temp)
        else temp)
  }

  // The round count has four bits.
  type RoundCount = n: nat | n < 16 witness 0

  // `roundConstantStart`; its comparison with 16 never holds.
  function RoundConstant(roundCount: RoundCount): bv8 {
    match roundCount
    case 1 => 0x01 case 2 => 0x02 case 3 => 0x04 case 4 => 0x08
    case 5 => 0x10 case 6 => 0x20 case 7 => 0x40 case 8 => 0x80
    case 9 => 0x1b case 10 => 0x36 case 11 => 0x6c case 12 => 0xd8
    case 13 => 0xab case 14 => 0x4d case 15 => 0x9a
    case _ => 0x00
  }

  // `KeyExpansionRound`: word i of keyOut.
  function KeyOutWord(roundCount: RoundCount, keyIn: Key, i: nat): Column
    requires i < |keyIn|
  {
    if i == 0 then
      AddColumn(AddColumn(keyIn[0], SubWord(RotWord(keyIn[|keyIn| - 1]))),
                Column(RoundConstant(roundCount), 0, 0, 0))
    else
      var previous := KeyOutWord(roundCount, keyIn, i - 1);
      AddColumn(keyIn[i], if |keyIn| == 8 && i == 4 then SubWord(previous) else previous)
  }

  function KeyOut(roundCount: RoundCount, keyIn: Key): (out: Key)
    ensures |out| == |keyIn|
  {
    seq(|keyIn|, i requires 0 <= i < |keyIn| => KeyOutWord(roundCount, keyIn, i))
  }

  // Group n: the key itself, then one `KeyExpansionRound` after another.
  function Group(key: Key, n: RoundCount): (out: Key)
    ensures |out| == |key|
  {
    if n == 0 then key else KeyOut(n, Group(key, n - 1))
  }

  function Groups(key: Key, n: nat): (words: seq<Column>)
    requires n <= 16
    ensures |words| == n * |key|
  {
    if n == 0 then [] else Groups(key, n - 1) + Group(key, n - 1)
  }

  // The localparam `rounds`, for (Nk, Nr) = (4, 10), (6, 12) and (8, 14).
  function FullRounds(nk: KeyLength): nat {
    if nk == 4 then 9 else if nk == 6 then 7 else 6
  }

  // `KeyExpansion`: the key, the full groups, and the top four words of the last one.
  function KeyExpansion(key: Key): (words: seq<Column>)
  {
    var rounds := FullRounds(|key|);
    Groups(key, rounds + 1) + KeyOut(rounds + 1, Group(key, rounds))[..4]
  }

  lemma RoundConstantIsPower(n: RoundCount)
    requires n >= 1
    ensures RoundConstant(n) == XtimePow(1, n - 1)
  {
    assert XtimePow(1, 1) == 0x02 && XtimePow(1, 2) == 0x04 && XtimePow(1, 3) == 0x08;
    assert XtimePow(1, 4) == 0x10 && XtimePow(1, 5) == 0x20 && XtimePow(1, 6) == 0x40;
    assert XtimePow(1, 7) == 0x80 && XtimePow(1, 8) == 0x1b && XtimePow(1, 9) == 0x36;
    assert XtimePow(1, 10) == 0x6c && XtimePow(1, 11) == 0xd8 && XtimePow(1, 12) == 0xab;
    assert XtimePow(1, 13) == 0x4d && XtimePow(1, 14) == 0x9a;
  }

  lemma IndexParts(nk: KeyLength, g: nat, j: nat)
    requires j < nk
    ensures (g * nk + j) % nk == j && (g * nk + j) / nk == g
  {
    if nk == 4 {
    } else if nk == 6 {
    } else {
    }
  }

  lemma AddColumnAssociative(a: Column, b: Column, c: Column)
    ensures AddColumn(AddColumn(a, b), c) == AddColumn(a, AddColumn(b, c))
  {
    AddAssociative(a.b0, b.b0, c.b0);
    AddAssociative(a.b1, b.b1, c.b1);
    AddAssociative(a.b2, b.b2, c.b2);
    AddAssociative(a.b3, b.b3, c.b3);
  }

  // Word j of group g is word g * Nk + j of the schedule.
  predicate IsGroup(key: Key, g: nat, words: Key) {
    |words| == |key| && forall j :: 0 <= j < |key| ==> words[j] == ScheduleWord(key, g * |key| + j)
  }

  // Word i of the schedule, at the start of a group, from a substituted word.
  lemma GroupStart(key: Key, i: nat, substituted: Column, constant: bv8)
    requires i >= |key| && i % |key| == 0 && constant == XtimePow(1, i / |key| - 1)
    requires substituted == SubWord(RotWord(ScheduleWord(key, i - 1)))
    ensures ScheduleWord(key, i) ==
            AddColumn(AddColumn(ScheduleWord(key, i - |key|), substituted), Column(constant, 0, 0, 0))
  {
    AddColumnAssociative(ScheduleWord(key, i - |key|), substituted, Column(constant, 0, 0, 0));
  }

  lemma KeyOutFirst(key: Key, i: nat, roundCount: RoundCount, words: Key)
    requires 1 <= roundCount && |words| == |key| && i >= |key|
    requires i % |key| == 0 && i / |key| == roundCount
    requires words[|key| - 1] == ScheduleWord(key, i - 1) && words[0] == ScheduleWord(key, i - |key|)
    ensures KeyOutWord(roundCount, words, 0) == ScheduleWord(key, i)
  {
    RoundConstantIsPower(roundCount);
    GroupStart(key, i, SubWord(RotWord(words[|key| - 1])), RoundConstant(roundCount));
  }

  lemma FirstWord(key: Key, g: nat, words: Key)
    requires g < 15 && IsGroup(key, g, words)
    ensures KeyOutWord(g + 1, words, 0) == ScheduleWord(key, (g + 1) * |key|)
  {
    var nk := |key|;
    IndexParts(nk, g + 1, 0);
    FirstIndices(nk, g);
    KeyOutFirst(key, (g + 1) * nk, g + 1, words);
  }

  lemma FirstIndices(nk: KeyLength, g: nat)
    ensures (g + 1) * nk - nk == g * nk + 0 && (g + 1) * nk - 1 == g * nk + (nk - 1)
  {
  }

  // Word i of the schedule, inside a group.
  lemma InsideGroup(key: Key, i: nat, j: nat)
    requires i >= |key| && i % |key| == j > 0
    ensures ScheduleWord(key, i) ==
            AddColumn(ScheduleWord(key, i - |key|),
                      if |key| == 8 && j == 4 then SubWord(ScheduleWord(key, i - 1)) else ScheduleWord(key, i - 1))
  {
    hide AddColumn, SubWord;
  }

  lemma KeyOutInside(roundCount: RoundCount, words: Key, j: nat)
    requires 0 < j < |words|
    ensures KeyOutWord(roundCount, words, j) ==
            AddColumn(words[j], if |words| == 8 && j == 4 then SubWord(KeyOutWord(roundCount, words, j - 1))
                                else KeyOutWord(roundCount, words, j - 1))
  {
    hide AddColumn, SubWord;
  }

  lemma {:induction false} NextWord(key: Key, g: nat, words: Key, j: nat)
    requires g < 15 && IsGroup(key, g, words) && j < |key|
    ensures KeyOutWord(g + 1, words, j) == ScheduleWord(key, (g + 1) * |key| + j)
  {
    hide ScheduleWord, KeyOutWord, AddColumn, SubWord;
    var nk := |key|;
    var i := (g + 1) * nk + j;
    if j == 0 {
      FirstWord(key, g, words);
    } else {
      NextWord(key, g, words, j - 1);
      IndexParts(nk, g + 1, j);
      assert i - nk == g * nk + j;
      InsideGroup(key, i, j);
      KeyOutInside(g + 1, words, j);
    }
  }

  lemma NextGroup(key: Key, g: nat, words: Key)
    requires 1 <= g <= 15 && IsGroup(key, g - 1, words)
    ensures IsGroup(key, g, KeyOut(g, words))
  {
    var next := KeyOut(g, words);
    forall j | 0 <= j < |next|
      ensures next[j] == ScheduleWord(key, g * |key| + j)
    {
      NextWord(key, g - 1, words, j);
    }
  }

  lemma {:induction false} GroupsFollowSchedule(key: Key, g: nat)
    requires g <= 15
    ensures IsGroup(key, g, Group(key, g))
  {
    if g > 0 {
      GroupsFollowSchedule(key, g - 1);
      NextGroup(key, g, Group(key, g - 1));
    } else {
      assert 0 * |key| == 0;
    }
  }

  lemma {:induction false} GroupsAreSchedule(key: Key, n: nat)
    requires n <= 16
    ensures forall i :: 0 <= i < n * |key| ==> Groups(key, n)[i] == ScheduleWord(key, i)
  {
    if n > 0 {
      GroupsAreSchedule(key, n - 1);
      GroupsFollowSchedule(key, n - 1);
      forall i | (n - 1) * |key| <= i < n * |key|
        ensures Groups(key, n)[i] == ScheduleWord(key, i)
      {
        var j := i - (n - 1) * |key|;
        assert Group(key, n - 1)[j] == ScheduleWord(key, (n - 1) * |key| + j);
      }
    }
  }

  // The 4 (Nr + 1) words, Nr being Nk + 6, are those of the recurrence.
  lemma KeyExpansionIsFips197(key: Key)
    ensures |KeyExpansion(key)| == 4 * (|key| + 7)
    ensures forall i :: 0 <= i < |KeyExpansion(key)| ==> KeyExpansion(key)[i] == ScheduleWord(key, i)
  {
    var rounds := FullRounds(|key|);
    var full := (rounds + 1) * |key|;
    GroupsAreSchedule(key, rounds + 1);
    GroupsFollowSchedule(key, rounds + 1);
    forall i | full <= i < full + 4
      ensures KeyExpansion(key)[i] == ScheduleWord(key, i)
    {
      assert Group(key, rounds + 1)[i - full] == ScheduleWord(key, full + (i - full));
    }
  }

  lemma AddedWordByte(a: Column, b: Column, j: Index)
    ensures WordByte(AddColumn(a, b), j) == Add(WordByte(a, j), WordByte(b, j))
  {
    hide Add;
  }

  lemma SubbedWordByte(w: Column, j: Index)
    ensures WordByte(SubWord(w), j) == SubTable(WordByte(w, j))
    ensures WordByte(SubWord(RotWord(w)), j) == SubTable(WordByte(w, if j == 3 then 0 else j + 1))
  {
    hide SubTable;
  }

  // What byte j of word i adds to byte j of word i - Nk, previous being word i - 1.
  function ByteAdded(nk: KeyLength, i: nat, previous: Column, j: Index): bv8
    requires i >= nk
  {
    if i % nk == 0 then
      Add(SubTable(WordByte(previous, if j == 3 then 0 else j + 1)), if j == 0 then XtimePow(1, i / nk - 1) else 0)
    else if nk > 6 && i % nk == 4 then SubTable(WordByte(previous, j))
    else WordByte(previous, j)
  }

  lemma ScheduleByte(key: Key, i: nat, j: Index)
    ensures WordByte(ScheduleWord(key, i), j) ==
            if i < |key| then WordByte(key[i], j)
            else Add(WordByte(ScheduleWord(key, i - |key|), j), ByteAdded(|key|, i, ScheduleWord(key, i - 1), j))
  {
    hide Add, AddColumn, SubWord, RotWord, SubTable, WordByte, XtimePow;
    if i >= |key| {
      var temp := ScheduleWord(key, i - 1);
      var constant := Column(XtimePow(1, if i % |key| == 0 then i / |key| - 1 else 0), 0, 0, 0);
      SubbedWordByte(temp, j);
      ConstantByte(constant.b0, j);
      AddedWordByte(SubWord(RotWord(temp)), constant, j);
      AddedWordByte(ScheduleWord(key, i - |key|), AddColumn(SubWord(RotWord(temp)), constant), j);
      AddedWordByte(ScheduleWord(key, i - |key|), SubWord(temp), j);
      AddedWordByte(ScheduleWord(key, i - |key|), temp, j);
    }
  }

  lemma ConstantByte(x: bv8, j: Index)
    ensures WordByte(Column(x, 0, 0, 0), j) == if j == 0 then x else 0
  {
  }

  // The recurrence of FIPS 197 section 5.2 on the words the hardware gives, byte by byte; Add is the
  // exclusive or (AddIsXor).
  lemma ExpandedKeyBytes(key: Key, i: nat, j: Index)
    requires i < 4 * (|key| + 7)
    ensures
      var w, nk := KeyExpansion(key), |key|;
      && |w| == 4 * (nk + 7)
      && WordByte(w[i], j) ==
         if i < nk then WordByte(key[i], j)
         else if i % nk == 0 then
           Add(WordByte(w[i - nk], j),
               Add(SubTable(WordByte(w[i - 1], (j + 1) % 4)), if j == 0 then XtimePow(1, i / nk - 1) else 0))
         else if nk == 8 && i % nk == 4 then Add(WordByte(w[i - nk], j), SubTable(WordByte(w[i - 1], j)))
         else Add(WordByte(w[i - nk], j), WordByte(w[i - 1], j))
  {
    hide Add, KeyExpansion, ScheduleWord, SubTable, WordByte, XtimePow;
    KeyExpansionIsFips197(key);
    ScheduleByte(key, i, j);
  }

  // The round keys in the order of use: four words each.
  function RoundKeys(key: Key): (keys: seq<State>)
    ensures |keys| == |key| + 7
  {
    KeyExpansionIsFips197(key);
    var w := KeyExpansion(key);
    seq(|key| + 7, r requires 0 <= r < |key| + 7 => State(w[4 * r], w[4 * r + 1], w[4 * r + 2], w[4 * r + 3]))
  }

  // The key schedule as round keys: column c of round key r is word 4 r + c (FIPS 197 section 5.1.4).
  predicate IsKeySchedule(key: Key, keys: seq<State>) {
    && |keys| == |key| + 7
    && forall r, row: Index, c: Index :: 0 <= r < |keys| ==>
         At(keys[r], row, c) == WordByte(ScheduleWord(key, 4 * r + c), row)
  }

  lemma RoundKeyByte(key: Key, r: nat, row: Index, c: Index)
    requires r < |key| + 7
    ensures At(RoundKeys(key)[r], row, c) == WordByte(ScheduleWord(key, 4 * r + c), row)
  {
    hide KeyExpansion, ScheduleWord;
    KeyExpansionIsFips197(key);
  }

  lemma RoundKeysAreSchedule(key: Key, keys: seq<State>)
    ensures IsKeySchedule(key, keys) <==> keys == RoundKeys(key)
  {
    hide RoundKeys, ScheduleWord, At, WordByte;
    forall r, row: Index, c: Index | 0 <= r < |key| + 7
      ensures At(RoundKeys(key)[r], row, c) == WordByte(ScheduleWord(key, 4 * r + c), row)
    {
      RoundKeyByte(key, r, row, c);
    }
    if IsKeySchedule(key, keys) {
      forall r | 0 <= r < |keys|
        ensures keys[r] == RoundKeys(key)[r]
      {
        SameBytes(keys[r], RoundKeys(key)[r]);
      }
    }
  }
}
