/** The 128-bit counter register as a block, most significant byte first. */
module AesCounterBlock {
  import opened ByteNumbers
  import opened AesRound
  import opened AesCtr

  // Byte k of a number, counted from the least significant.
  function ByteAt(n: nat, k: nat): bv8 {
    if k == 0 then ByteOf(n % 256) else ByteAt(n / 256, k - 1)
  }

  function CounterColumn(n: nat, k: nat): Column {
    Column(ByteAt(n, k + 3), ByteAt(n, k + 2), ByteAt(n, k + 1), ByteAt(n, k))
  }

  function CounterBlock(n: nat): State {
    State(CounterColumn(n, 12), CounterColumn(n, 8), CounterColumn(n, 4), CounterColumn(n, 0))
  }

  // The bytes of a block, least significant first, and the number they stand for.
  function Bytes(s: State): seq<bv8> {
    [s.c3.b3, s.c3.b2, s.c3.b1, s.c3.b0, s.c2.b3, s.c2.b2, s.c2.b1, s.c2.b0,
     s.c1.b3, s.c1.b2, s.c1.b1, s.c1.b0, s.c0.b3, s.c0.b2, s.c0.b1, s.c0.b0]
  }

  function Value(bytes: seq<bv8>): nat {
    if bytes == [] then 0 else NumberOf(bytes[0]) + 256 * Value(bytes[1..])
  }

  function Power256(m: nat): nat {
    if m == 0 then 1 else 256 * Power256(m - 1)
  }

  function Digits(n: nat, m: nat): (d: seq<bv8>)
    ensures |d| == m
  {
    if m == 0 then [] else [ByteOf(n % 256)] + Digits(n / 256, m - 1)
  }

  lemma {:induction false} DigitIsByte(n: nat, m: nat, k: nat)
    requires k < m
    ensures Digits(n, m)[k] == ByteAt(n, k)
  {
    if k > 0 {
      DigitIsByte(n / 256, m - 1, k - 1);
    }
  }

  lemma ValueOfByte(x: nat, rest: seq<bv8>)
    requires x < 256
    ensures Value([ByteOf(x)] + rest) == x + 256 * Value(rest)
  {
    ByteAsNumber(x);
    assert ([ByteOf(x)] + rest)[1..] == rest;
  }

  lemma {:induction false} DigitsValue(n: nat, m: nat)
    requires n < Power256(m)
    ensures Value(Digits(n, m)) == n
  {
    if m > 0 {
      DigitsValue(n / 256, m - 1);
      ValueOfByte(n % 256, Digits(n / 256, m - 1));
    }
  }

  lemma Power256Of16()
    ensures Power256(16) == MODULUS
  {
    assert Power256(4) == 0x1_0000_0000;
    assert Power256(8) == 0x1_0000_0000_0000_0000;
    assert Power256(12) == 0x1_0000_0000_0000_0000_0000_0000;
  }

  // The block is the register: no two counters share one.
  lemma CounterBlockValue(n: nat)
    requires n < MODULUS
    ensures Value(Bytes(CounterBlock(n))) == n
  {
    var digits := Digits(n, 16);
    forall k | 0 <= k < 16
      ensures digits[k] == ByteAt(n, k)
    {
      DigitIsByte(n, 16, k);
    }
    assert Bytes(CounterBlock(n)) == digits;
    Power256Of16();
    DigitsValue(n, 16);
  }

  lemma CountersDistinct(a: nat, b: nat)
    requires a < MODULUS && b < MODULUS && CounterBlock(a) == CounterBlock(b)
    ensures a == b
  {
    CounterBlockValue(a);
    CounterBlockValue(b);
  }
}

/** Bytes as numbers, by way of their two hexadecimal digits. */
module ByteNumbers {
  function Byte(high: bv4, low: bv4): bv8 {
    ((high as bv8) << 4) | (low as bv8)
  }

  function High(b: bv8): bv4 {
    (b >> 4) as bv4
  }

  function Low(b: bv8): bv4 {
    (b & 15) as bv4
  }

  function ByteOf(x: nat): bv8
    requires x < 256
  {
    Byte((x / 16) as bv4, (x % 16) as bv4)
  }

  function NumberOf(b: bv8): nat {
    16 * (High(b) as nat) + (Low(b) as nat)
  }

  lemma DigitsOfByte(high: bv4, low: bv4)
    ensures High(Byte(high, low)) == high && Low(Byte(high, low)) == low
  {
  }

  lemma DigitAsNumber(x: nat)
    requires x < 16
    ensures (x as bv4) as nat == x
  {
  }

  // The digits are those of the binary value.
  lemma NumberIsValue(b: bv8)
    ensures NumberOf(b) == b as nat
  {
  }

  lemma ByteAsNumber(x: nat)
    requires x < 256
    ensures NumberOf(ByteOf(x)) == x
  {
    DigitsOfByte((x / 16) as bv4, (x % 16) as bv4);
    DigitAsNumber(x / 16);
    DigitAsNumber(x % 16);
  }
}
