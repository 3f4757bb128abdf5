/** Arithmetic in GF(2^8) (FIPS 197 section 4.2) as the column mixers do it
    (`Project/MixColumns.v`, `Project/InvMixColumns.v`). */
module AesField {
  // Multiplication by x: 0x1b is added when the top bit is shifted out.
  function Xtime(b: bv8): bv8 {
    (b << 1) ^ ((b >> 7) * 0x1b)
  }

  // `xtime` as the hardware decides it.
  lemma XtimeBranches(b: bv8)
    ensures Xtime(b) == if b >> 7 == 1 then (b << 1) ^ 0x1b else b << 1
  {
  }

  // n multiplications by x.
  function XtimePow(b: bv8, n: nat): bv8 {
    if n == 0 then b else Xtime(XtimePow(b, n - 1))
  }

  // `mul2`
  method Mul2(b: bv8, n: nat) returns (r: bv8)
    ensures r == XtimePow(b, n)
  {
    r := b;
    for i := 0 to n
      invariant r == XtimePow(b, i)
    {
      if r >> 7 == 1 {
        r := (r << 1) ^ 0x1b;
      } else {
        r := r << 1;
      }
    }
  }

  // Multiplication of polynomials modulo x^8 + x^4 + x^3 + x + 1, by shift and add.
  function GfMul(a: bv8, b: bv8): bv8 {
    var a1 := Xtime(a);
    var a2 := Xtime(a1);
    var a3 := Xtime(a2);
    var a4 := Xtime(a3);
    var a5 := Xtime(a4);
    var a6 := Xtime(a5);
    var a7 := Xtime(a6);
    (a * (b & 1)) ^ (a1 * ((b >> 1) & 1)) ^ (a2 * ((b >> 2) & 1)) ^ (a3 * ((b >> 3) & 1)) ^
    (a4 * ((b >> 4) & 1)) ^ (a5 * ((b >> 5) & 1)) ^ (a6 * ((b >> 6) & 1)) ^ (a7 * (b >> 7))
  }

  // Addition (FIPS 197 section 4.1).
  function Add(a: bv8, b: bv8): bv8 {
    a ^ b
  }

  function Sum4(a: bv8, b: bv8, c: bv8, d: bv8): bv8 {
    Add(Add(Add(a, b), c), d)
  }

  lemma Exchange(a: bv8, b: bv8, c: bv8, d: bv8)
    ensures Add(Add(a, b), Add(c, d)) == Add(Add(a, c), Add(b, d))
  {
    assert Add(a ^ b, c ^ d) == Add(a ^ c, b ^ d);
  }

  lemma AddAssociative(a: bv8, b: bv8, c: bv8)
    ensures Add(Add(a, b), c) == Add(a, Add(b, c))
  {
    assert Add(a ^ b, c) == Add(a, b ^ c);
  }

  lemma Sum4Additive(a: bv8, b: bv8, c: bv8, d: bv8, e: bv8, f: bv8, g: bv8, h: bv8)
    ensures Sum4(Add(a, e), Add(b, f), Add(c, g), Add(d, h)) == Add(Sum4(a, b, c, d), Sum4(e, f, g, h))
  {
    Exchange(a, e, b, f);
    Exchange(Add(a, b), Add(e, f), c, g);
    Exchange(Add(Add(a, b), c), Add(Add(e, f), g), d, h);
  }

  lemma XtimeAdditive(a: bv8, b: bv8)
    ensures Xtime(Add(a, b)) == Add(Xtime(a), Xtime(b))
  {
  }
}
