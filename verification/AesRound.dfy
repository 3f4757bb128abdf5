/** The wires of one AES round (`Project/SubBytes.v`, `Project/ShiftRows.v`, `Project/MixColumns.v`,
    `Project/AddRoundKey.v` and their inverses), with the definitions of FIPS 197. */
module AesRound {
  import opened AesField
  import opened AesTables

  // A 32-bit vector, b0 being bits 31 to 24.
  datatype Column = Column(b0: bv8, b1: bv8, b2: bv8, b3: bv8)

  // A 128-bit vector, c0 being bits 127 to 96.
  datatype State = State(c0: Column, c1: Column, c2: Column, c3: Column)

  function AddColumn(a: Column, b: Column): Column {
    Column(Add(a.b0, b.b0), Add(a.b1, b.b1), Add(a.b2, b.b2), Add(a.b3, b.b3))
  }

  function SubWord(c: Column): Column {
    Column(SubTable(c.b0), SubTable(c.b1), SubTable(c.b2), SubTable(c.b3))
  }

  function InvSubWord(c: Column): Column {
    Column(InvSubTable(c.b0), InvSubTable(c.b1), InvSubTable(c.b2), InvSubTable(c.b3))
  }

  function MixColumn(c: Column): Column {
    Column(Sum4(Xtime(c.b0), Add(Xtime(c.b1), c.b1), c.b2, c.b3),
           Sum4(Xtime(c.b1), Add(Xtime(c.b2), c.b2), c.b3, c.b0),
           Sum4(Xtime(c.b2), Add(Xtime(c.b3), c.b3), c.b0, c.b1),
           Sum4(Xtime(c.b3), Add(Xtime(c.b0), c.b0), c.b1, c.b2))
  }

  // `mb0e`, `mb0d`, `mb0b` and `mb09`
  function Mb0e(b: bv8): bv8 {
    Add(Add(Xtime(Xtime(Xtime(b))), Xtime(Xtime(b))), Xtime(b))
  }

  function Mb0d(b: bv8): bv8 {
    Add(Add(Xtime(Xtime(Xtime(b))), Xtime(Xtime(b))), b)
  }

  function Mb0b(b: bv8): bv8 {
    Add(Add(Xtime(Xtime(Xtime(b))), Xtime(b)), b)
  }

  function Mb09(b: bv8): bv8 {
    Add(Xtime(Xtime(Xtime(b))), b)
  }

  function InvMixColumn(c: Column): Column {
    Column(Sum4(Mb0e(c.b0), Mb0b(c.b1), Mb0d(c.b2), Mb09(c.b3)),
           Sum4(Mb0e(c.b1), Mb0b(c.b2), Mb0d(c.b3), Mb09(c.b0)),
           Sum4(Mb0e(c.b2), Mb0b(c.b3), Mb0d(c.b0), Mb09(c.b1)),
           Sum4(Mb0e(c.b3), Mb0b(c.b0), Mb0d(c.b1), Mb09(c.b2)))
  }

  // FIPS 197 section 5.1.3: one row of a column times the polynomial k1 x^3 + k2 x^2 + k3 x + k0.
  function RowProduct(k0: bv8, k1: bv8, k2: bv8, k3: bv8, a: bv8, b: bv8, c: bv8, d: bv8): bv8 {
    Sum4(GfMul(a, k0), GfMul(b, k1), GfMul(c, k2), GfMul(d, k3))
  }

  function ColumnProduct(k0: bv8, k1: bv8, k2: bv8, k3: bv8, c: Column): Column {
    Column(RowProduct(k0, k1, k2, k3, c.b0, c.b1, c.b2, c.b3),
           RowProduct(k0, k1, k2, k3, c.b1, c.b2, c.b3, c.b0),
           RowProduct(k0, k1, k2, k3, c.b2, c.b3, c.b0, c.b1),
           RowProduct(k0, k1, k2, k3, c.b3, c.b0, c.b1, c.b2))
  }

  lemma Multipliers(b: bv8)
    ensures GfMul(b, 0x01) == b && GfMul(b, 0x02) == Xtime(b) && GfMul(b, 0x03) == Add(Xtime(b), b)
  {
  }

  lemma InvMultipliers(b: bv8)
    ensures GfMul(b, 0x0e) == Mb0e(b) && GfMul(b, 0x0b) == Mb0b(b)
    ensures GfMul(b, 0x0d) == Mb0d(b) && GfMul(b, 0x09) == Mb09(b)
  {
  }

  lemma MixColumnIsFips197(c: Column)
    ensures MixColumn(c) == ColumnProduct(0x02, 0x03, 0x01, 0x01, c)
  {
    Multipliers(c.b0);
    Multipliers(c.b1);
    Multipliers(c.b2);
    Multipliers(c.b3);
  }

  lemma InvMixColumnIsFips197(c: Column)
    ensures InvMixColumn(c) == ColumnProduct(0x0e, 0x0b, 0x0d, 0x09, c)
  {
    InvMultipliers(c.b0);
    InvMultipliers(c.b1);
    InvMultipliers(c.b2);
    InvMultipliers(c.b3);
  }

  lemma MultipliersAdditive(a: bv8, b: bv8)
    ensures Mb0e(Add(a, b)) == Add(Mb0e(a), Mb0e(b)) && Mb0b(Add(a, b)) == Add(Mb0b(a), Mb0b(b))
    ensures Mb0d(Add(a, b)) == Add(Mb0d(a), Mb0d(b)) && Mb09(Add(a, b)) == Add(Mb09(a), Mb09(b))
  {
    var (a1, b1) := (Xtime(a), Xtime(b));
    var (a2, b2) := (Xtime(a1), Xtime(b1));
    var (a3, b3) := (Xtime(a2), Xtime(b2));
    XtimeAdditive(a, b);
    XtimeAdditive(a1, b1);
    XtimeAdditive(a2, b2);
    Exchange(a3, b3, a2, b2);
    Exchange(a3, b3, a1, b1);
    Exchange(a3, b3, a, b);
    Exchange(Add(a3, a2), Add(b3, b2), a1, b1);
    Exchange(Add(a3, a2), Add(b3, b2), a, b);
    Exchange(Add(a3, a1), Add(b3, b1), a, b);
  }

  lemma MixRowAdditive(a: bv8, b: bv8, c: bv8, d: bv8, e: bv8, f: bv8, g: bv8, h: bv8)
    ensures Sum4(Xtime(Add(a, e)), Add(Xtime(Add(b, f)), Add(b, f)), Add(c, g), Add(d, h)) ==
            Add(Sum4(Xtime(a), Add(Xtime(b), b), c, d), Sum4(Xtime(e), Add(Xtime(f), f), g, h))
  {
    XtimeAdditive(a, e);
    XtimeAdditive(b, f);
    Exchange(Xtime(b), Xtime(f), b, f);
    Sum4Additive(Xtime(a), Add(Xtime(b), b), c, d, Xtime(e), Add(Xtime(f), f), g, h);
  }

  lemma MixColumnAdditive(p: Column, q: Column)
    ensures MixColumn(AddColumn(p, q)) == AddColumn(MixColumn(p), MixColumn(q))
  {
    MixRowAdditive(p.b0, p.b1, p.b2, p.b3, q.b0, q.b1, q.b2, q.b3);
    MixRowAdditive(p.b1, p.b2, p.b3, p.b0, q.b1, q.b2, q.b3, q.b0);
    MixRowAdditive(p.b2, p.b3, p.b0, p.b1, q.b2, q.b3, q.b0, q.b1);
    MixRowAdditive(p.b3, p.b0, p.b1, p.b2, q.b3, q.b0, q.b1, q.b2);
  }

  lemma InvMixRowAdditive(a: bv8, b: bv8, c: bv8, d: bv8, e: bv8, f: bv8, g: bv8, h: bv8)
    ensures Sum4(Mb0e(Add(a, e)), Mb0b(Add(b, f)), Mb0d(Add(c, g)), Mb09(Add(d, h))) ==
            Add(Sum4(Mb0e(a), Mb0b(b), Mb0d(c), Mb09(d)), Sum4(Mb0e(e), Mb0b(f), Mb0d(g), Mb09(h)))
  {
    MultipliersAdditive(a, e);
    MultipliersAdditive(b, f);
    MultipliersAdditive(c, g);
    MultipliersAdditive(d, h);
    Sum4Additive(Mb0e(a), Mb0b(b), Mb0d(c), Mb09(d), Mb0e(e), Mb0b(f), Mb0d(g), Mb09(h));
  }

  lemma InvMixColumnAdditive(p: Column, q: Column)
    ensures InvMixColumn(AddColumn(p, q)) == AddColumn(InvMixColumn(p), InvMixColumn(q))
  {
    InvMixRowAdditive(p.b0, p.b1, p.b2, p.b3, q.b0, q.b1, q.b2, q.b3);
    InvMixRowAdditive(p.b1, p.b2, p.b3, p.b0, q.b1, q.b2, q.b3, q.b0);
    InvMixRowAdditive(p.b2, p.b3, p.b0, p.b1, q.b2, q.b3, q.b0, q.b1);
    InvMixRowAdditive(p.b3, p.b0, p.b1, p.b2, q.b3, q.b0, q.b1, q.b2);
  }

  lemma MixUnit0(b: bv8)
    ensures InvMixColumn(MixColumn(Column(b, 0, 0, 0))) == Column(b, 0, 0, 0)
  {
  }

  lemma MixUnit1(b: bv8)
    ensures InvMixColumn(MixColumn(Column(0, b, 0, 0))) == Column(0, b, 0, 0)
  {
  }

  lemma MixUnit2(b: bv8)
    ensures InvMixColumn(MixColumn(Column(0, 0, b, 0))) == Column(0, 0, b, 0)
  {
  }

  lemma MixUnit3(b: bv8)
    ensures InvMixColumn(MixColumn(Column(0, 0, 0, b))) == Column(0, 0, 0, b)
  {
  }

  // Both mixers are additive, so they undo each other once they do so on single bytes.
  lemma MixColumnInverse(c: Column)
    ensures InvMixColumn(MixColumn(c)) == c
  {
    var u0, u1 := Column(c.b0, 0, 0, 0), Column(0, c.b1, 0, 0);
    var u2, u3 := Column(0, 0, c.b2, 0), Column(0, 0, 0, c.b3);
    var low, high := AddColumn(u0, u1), AddColumn(u2, u3);
    SplitColumn(c);
    MixUnit0(c.b0);
    MixUnit1(c.b1);
    MixUnit2(c.b2);
    MixUnit3(c.b3);
    MixInverseSum(u0, u1);
    MixInverseSum(u2, u3);
    MixInverseSum(low, high);
  }

  lemma SplitColumn(c: Column)
    ensures c == AddColumn(AddColumn(Column(c.b0, 0, 0, 0), Column(0, c.b1, 0, 0)),
                           AddColumn(Column(0, 0, c.b2, 0), Column(0, 0, 0, c.b3)))
  {
  }

  lemma MixInverseSum(p: Column, q: Column)
    requires InvMixColumn(MixColumn(p)) == p && InvMixColumn(MixColumn(q)) == q
    ensures InvMixColumn(MixColumn(AddColumn(p, q))) == AddColumn(p, q)
  {
    MixColumnAdditive(p, q);
    InvMixColumnAdditive(MixColumn(p), MixColumn(q));
  }

  // The calls of `mul2` made by `mb0e`, `mb0b`, `mb0d` and `mb09` multiply in the field.
  method InvMultiply(b: bv8) returns (by0e: bv8, by0b: bv8, by0d: bv8, by09: bv8)
    ensures by0e == GfMul(b, 0x0e) && by0b == GfMul(b, 0x0b)
    ensures by0d == GfMul(b, 0x0d) && by09 == GfMul(b, 0x09)
  {
    var b3 := Mul2(b, 3);
    var b2 := Mul2(b, 2);
    var b1 := Mul2(b, 1);
    assert XtimePow(b, 1) == Xtime(b) && XtimePow(b, 2) == Xtime(Xtime(b));
    by0e, by0b, by0d, by09 := Add(Add(b3, b2), b1), Add(Add(b3, b1), b), Add(Add(b3, b2), b), Add(b3, b);
    InvMultipliers(b);
  }

  // `SubBytes`, `InvSubBytes`, `MixColumns`, `InvMixColumns` and `AddRoundKey`
  function SubBytes(s: State): State {
    State(SubWord(s.c0), SubWord(s.c1), SubWord(s.c2), SubWord(s.c3))
  }

  function InvSubBytes(s: State): State {
    State(InvSubWord(s.c0), InvSubWord(s.c1), InvSubWord(s.c2), InvSubWord(s.c3))
  }

  function MixColumns(s: State): State {
    State(MixColumn(s.c0), MixColumn(s.c1), MixColumn(s.c2), MixColumn(s.c3))
  }

  function InvMixColumns(s: State): State {
    State(InvMixColumn(s.c0), InvMixColumn(s.c1), InvMixColumn(s.c2), InvMixColumn(s.c3))
  }

  function AddRoundKey(s: State, k: State): State {
    State(AddColumn(s.c0, k.c0), AddColumn(s.c1, k.c1), AddColumn(s.c2, k.c2), AddColumn(s.c3, k.c3))
  }

  // `ShiftRows`
  function ShiftRows(s: State): State {
    State(Column(s.c0.b0, s.c1.b1, s.c2.b2, s.c3.b3),
          Column(s.c1.b0, s.c2.b1, s.c3.b2, s.c0.b3),
          Column(s.c2.b0, s.c3.b1, s.c0.b2, s.c1.b3),
          Column(s.c3.b0, s.c0.b1, s.c1.b2, s.c2.b3))
  }

  // `InvShiftRows`
  function InvShiftRows(s: State): State {
    State(Column(s.c0.b0, s.c3.b1, s.c2.b2, s.c1.b3),
          Column(s.c1.b0, s.c0.b1, s.c3.b2, s.c2.b3),
          Column(s.c2.b0, s.c1.b1, s.c0.b2, s.c3.b3),
          Column(s.c3.b0, s.c2.b1, s.c1.b2, s.c0.b3))
  }

  type Index = n: nat | n < 4 witness 0

  // Byte j of a word, the most significant first.
  function WordByte(w: Column, j: Index): bv8 {
    if j == 0 then w.b0 else if j == 1 then w.b1 else if j == 2 then w.b2 else w.b3
  }

  // The byte in row r and column c of the state (FIPS 197 section 3.4).
  function At(s: State, r: Index, c: Index): bv8 {
    WordByte(if c == 0 then s.c0 else if c == 1 then s.c1 else if c == 2 then s.c2 else s.c3, r)
  }

  function Rotate(c: Index, r: Index): Index {
    if c + r < 4 then c + r else c + r - 4
  }

  lemma SameBytes(s: State, t: State)
    requires forall r: Index, c: Index :: At(s, r, c) == At(t, r, c)
    ensures s == t
  {
    SameColumn(s, t, 0);
    SameColumn(s, t, 1);
    SameColumn(s, t, 2);
    SameColumn(s, t, 3);
  }

  lemma SameColumn(s: State, t: State, c: Index)
    requires forall r: Index :: At(s, r, c) == At(t, r, c)
    ensures c == 0 ==> s.c0 == t.c0
    ensures c == 1 ==> s.c1 == t.c1
    ensures c == 2 ==> s.c2 == t.c2
    ensures c == 3 ==> s.c3 == t.c3
  {
    assert At(s, 0, c) == At(t, 0, c) && At(s, 1, c) == At(t, 1, c);
    assert At(s, 2, c) == At(t, 2, c) && At(s, 3, c) == At(t, 3, c);
  }

  // FIPS 197 sections 5.1.2 and 5.3.1.
  lemma ShiftRowsIsFips197(s: State, r: Index, c: Index)
    ensures At(ShiftRows(s), r, c) == At(s, r, Rotate(c, r))
    ensures At(InvShiftRows(s), r, Rotate(c, r)) == At(s, r, c)
  {
  }

  // Sections 5.1.1, 5.3.2 and 5.1.4, byte by byte.
  lemma SubBytesIsFips197(s: State, r: Index, c: Index)
    ensures At(SubBytes(s), r, c) == SubTable(At(s, r, c)) && At(InvSubBytes(s), r, c) == InvSubTable(At(s, r, c))
  {
    hide SubTable, InvSubTable;
  }

  lemma AddIsXor(a: bv8, b: bv8)
    ensures Add(a, b) == a ^ b
  {
  }

  lemma AddedByte(s: State, k: State, r: Index, c: Index)
    ensures At(AddRoundKey(s, k), r, c) == Add(At(s, r, c), At(k, r, c))
  {
    hide Add;
  }

  lemma AddRoundKeyIsFips197(s: State, k: State, r: Index, c: Index)
    ensures At(AddRoundKey(s, k), r, c) == At(s, r, c) ^ At(k, r, c)
  {
    hide Add, At, AddRoundKey;
    AddedByte(s, k, r, c);
    AddIsXor(At(s, r, c), At(k, r, c));
  }

  lemma Sum4IsXor(a: bv8, b: bv8, c: bv8, d: bv8)
    ensures Sum4(a, b, c, d) == a ^ b ^ c ^ d
  {
  }

  // Sections 5.1.3 and 5.3.3, byte by byte.
  lemma MixColumnsIsFips197(s: State, r: Index, c: Index)
    ensures At(MixColumns(s), r, c) ==
            GfMul(At(s, r, c), 0x02) ^ GfMul(At(s, Rotate(r, 1), c), 0x03) ^
            At(s, Rotate(r, 2), c) ^ At(s, Rotate(r, 3), c)
    ensures At(InvMixColumns(s), r, c) ==
            GfMul(At(s, r, c), 0x0e) ^ GfMul(At(s, Rotate(r, 1), c), 0x0b) ^
            GfMul(At(s, Rotate(r, 2), c), 0x0d) ^ GfMul(At(s, Rotate(r, 3), c), 0x09)
  {
    hide GfMul, Sum4, Xtime, Add, Mb0e, Mb0b, Mb0d, Mb09, MixColumns, InvMixColumns, At;
    var a, b := At(s, r, c), At(s, Rotate(r, 1), c);
    var x, y := At(s, Rotate(r, 2), c), At(s, Rotate(r, 3), c);
    MixedByte(s, r, c);
    Multipliers(a);
    Multipliers(b);
    Sum4IsXor(GfMul(a, 0x02), GfMul(b, 0x03), x, y);
    InvMultipliers(a);
    InvMultipliers(b);
    InvMultipliers(x);
    InvMultipliers(y);
    Sum4IsXor(GfMul(a, 0x0e), GfMul(b, 0x0b), GfMul(x, 0x0d), GfMul(y, 0x09));
  }

  lemma MixedByte(s: State, r: Index, c: Index)
    ensures At(MixColumns(s), r, c) ==
            Sum4(Xtime(At(s, r, c)), Add(Xtime(At(s, Rotate(r, 1), c)), At(s, Rotate(r, 1), c)),
                 At(s, Rotate(r, 2), c), At(s, Rotate(r, 3), c))
    ensures At(InvMixColumns(s), r, c) ==
            Sum4(Mb0e(At(s, r, c)), Mb0b(At(s, Rotate(r, 1), c)), Mb0d(At(s, Rotate(r, 2), c)), Mb09(At(s, Rotate(r, 3), c)))
  {
    hide Sum4, Xtime, Add, Mb0e, Mb0b, Mb0d, Mb09;
  }

  lemma ShiftRowsInverse(s: State)
    ensures InvShiftRows(ShiftRows(s)) == s
  {
  }

  lemma SubWordInverse(c: Column)
    ensures InvSubWord(SubWord(c)) == c
  {
    TablesInverse(c.b0);
    TablesInverse(c.b1);
    TablesInverse(c.b2);
    TablesInverse(c.b3);
  }

  lemma SubBytesInverse(s: State)
    ensures InvSubBytes(SubBytes(s)) == s
  {
    SubWordInverse(s.c0);
    SubWordInverse(s.c1);
    SubWordInverse(s.c2);
    SubWordInverse(s.c3);
  }

  lemma MixColumnsInverse(s: State)
    ensures InvMixColumns(MixColumns(s)) == s
  {
    MixColumnInverse(s.c0);
    MixColumnInverse(s.c1);
    MixColumnInverse(s.c2);
    MixColumnInverse(s.c3);
  }

  lemma AddTwice(a: bv8, b: bv8)
    ensures Add(Add(a, b), b) == a
  {
  }

  lemma AddColumnTwice(c: Column, k: Column)
    ensures AddColumn(AddColumn(c, k), k) == c
  {
    AddTwice(c.b0, k.b0);
    AddTwice(c.b1, k.b1);
    AddTwice(c.b2, k.b2);
    AddTwice(c.b3, k.b3);
  }

  lemma AddRoundKeyTwice(s: State, k: State)
    ensures AddRoundKey(AddRoundKey(s, k), k) == s
  {
    AddColumnTwice(s.c0, k.c0);
    AddColumnTwice(s.c1, k.c1);
    AddColumnTwice(s.c2, k.c2);
    AddColumnTwice(s.c3, k.c3);
  }
}
