/** Bit vectors as sequences of bits, index 0 being the least significant bit, so that a
    Verilog part select `v[hi:lo]` is the slice `v[lo..hi + 1]` and `{a, b}` is `b + a`. */
module Bits {
  type Bit = bool
  type Bits = seq<bool>
  type Byte = b: Bits | |b| == 8 witness seq(8, _ => false)
  type Word = w: Bits | |w| == 32 witness seq(32, _ => false)
  type Lane = l: Bits | |l| == 64 witness seq(64, _ => false)

  // A two-bit number.
  type Num2 = n: nat | n < 4 witness 0

  function Zeros(n: nat): (s: Bits)
    ensures |s| == n
  {
    seq(n, _ => false)
  }

  function Xor(a: Bits, b: Bits): (s: Bits)
    requires |a| == |b|
    ensures |s| == |a| && forall i :: 0 <= i < |a| ==> s[i] == (a[i] != b[i])
  {
    seq(|a|, i requires 0 <= i < |a| => a[i] != b[i])
  }

  // A register with exactly bit `at` set, or none when `at` is out of range.
  function OneHot(width: nat, at: int): (s: Bits)
    ensures |s| == width && forall i :: 0 <= i < width ==> s[i] == (i == at)
  {
    seq(width, i => i == at)
  }

  // A register whose `level` low bits are set.
  function Thermometer(width: nat, level: nat): (s: Bits)
    ensures |s| == width && forall i :: 0 <= i < width ==> s[i] == (i < level)
  {
    seq(width, i => i < level)
  }

  // `{v[width-2:0], b}`: shift towards the most significant bit.
  function ShiftIn(v: Bits, b: Bit): (s: Bits)
    requires |v| > 0
    ensures |s| == |v| && s[0] == b && forall i :: 0 < i < |v| ==> s[i] == v[i - 1]
  {
    [b] + v[..|v| - 1]
  }

  lemma ShiftThermometer(width: nat, level: nat)
    requires width > 0
    ensures ShiftIn(Thermometer(width, level), true) == Thermometer(width, level + 1)
  {
  }
}
