/** The 64-bit mixing function that gives tree nodes their priorities, and why it never collides. */
module SplitMix {
  import opened Basics
  import opened Bits

  /** Bitwise exclusive or. */
  function Xor(a: nat, b: nat): nat {
    if a == 0 && b == 0 then 0 else 2 * Xor(a / 2, b / 2) + (a + b) % 2
  }

  /** `x >> k`. */
  function Shr(x: nat, k: nat): (r: nat)
    ensures r <= x && (k > 0 && x > 0 ==> r < x)
  {
    if k == 0 then x else Shr(x / 2, k - 1)
  }

  function XorShift(z: nat, k: nat): nat {
    Xor(z, Shr(z, k))
  }

  /** One round: `(z ^ (z >> k)).wrapping_mul(c)`. */
  function Round(z: nat, k: nat, c: nat): (r: nat)
    ensures r < WORD
  {
    (XorShift(z, k) * c) % WORD
  }

  function SplitMix64(key: nat): nat {
    var x := (key + 0x9E3779B97F4A7C15) % WORD;
    XorShift(Round(Round(x, 30, 0xBF58476D1CE4E5B9), 27, 0x94D049BB133111EB), 31)
  }

  lemma XorBits(a: nat, b: nat)
    ensures Xor(a, b) / 2 == Xor(a / 2, b / 2) && Xor(a, b) % 2 == (a + b) % 2
  {
  }

  lemma {:induction false} XorCancels(a: nat, b: nat)
    ensures Xor(Xor(a, b), b) == a
    decreases a + b
  {
    if a + b > 0 {
      XorBits(a, b);
      XorCancels(a / 2, b / 2);
      XorBits(Xor(a, b), b);
    }
  }

  lemma {:induction false} XorShr(a: nat, b: nat, k: nat)
    ensures Shr(Xor(a, b), k) == Xor(Shr(a, k), Shr(b, k))
    decreases k
  {
    if k > 0 { XorShr(a / 2, b / 2, k - 1); }
  }

  /** Each bit of `z` is recovered from the bits above it. */
  lemma {:induction false} XorShiftInjective(x: nat, y: nat, k: nat)
    requires k > 0 && XorShift(x, k) == XorShift(y, k)
    ensures x == y
    decreases x + y
  {
    if x + y > 0 {
      XorShr(x, Shr(x, k), k);
      XorShr(y, Shr(y, k), k);
      XorShiftInjective(Shr(x, k), Shr(y, k), k);
      XorCancels(x, Shr(x, k));
      XorCancels(y, Shr(y, k));
    }
  }

  lemma {:induction false} XorBound(a: nat, b: nat, n: nat)
    requires a < Pow2(n) && b < Pow2(n)
    ensures Xor(a, b) < Pow2(n)
    decreases n
  {
    if n > 0 { XorBound(a / 2, b / 2, n - 1); }
  }

  lemma XorShiftWord(z: nat, k: nat)
    requires z < WORD
    ensures XorShift(z, k) < WORD
  {
    PowWord();
    XorBound(z, Shr(z, k), 64);
  }

  lemma PowWord()
    ensures Pow2(64) == WORD
  {
    assert Pow2(4) == 16;
    PowSum(4, 4);
    PowSum(8, 8);
    PowSum(16, 16);
    PowSum(32, 32);
  }

  lemma {:induction false} PowSum(a: nat, b: nat)
    ensures Pow2(a + b) == Pow2(a) * Pow2(b)
    decreases a
  {
    if a > 0 { PowSum(a - 1, b); }
  }

  /** Multiplication by a unit of the word ring is injective. */
  lemma MulInjective(x: nat, y: nat, c: nat, inverse: nat, q: nat)
    requires x < WORD && y < WORD && c * inverse == q * WORD + 1
    requires (x * c) % WORD == (y * c) % WORD
    ensures x == y
  {
    var t := x * c / WORD - y * c / WORD;
    var d := x - y;
    assert d * c == t * WORD by { assert d * c == x * c - y * c; }
    assert d * (c * inverse) == (t * inverse) * WORD by { assert d * c * inverse == t * WORD * inverse; }
    assert d * (q * WORD + 1) == (d * q) * WORD + d;
    var m := t * inverse - d * q;
    assert d == m * WORD by { assert (t * inverse) * WORD - (d * q) * WORD == m * WORD; }
    SmallMultiple(d, m);
  }

  lemma SmallMultiple(d: int, m: int)
    requires -WORD < d < WORD && d == m * WORD
    ensures d == 0
  {
  }

  lemma RoundInjective(x: nat, y: nat, k: nat, c: nat, inverse: nat, q: nat)
    requires x < WORD && y < WORD && k > 0 && c * inverse == q * WORD + 1
    requires Round(x, k, c) == Round(y, k, c)
    ensures x == y
  {
    hide Xor, Shr;
    XorShiftWord(x, k);
    XorShiftWord(y, k);
    MulInjective(XorShift(x, k), XorShift(y, k), c, inverse, q);
    XorShiftInjective(x, y, k);
  }

  /** Distinct 64-bit keys get distinct priorities. */
  lemma Injective(a: nat, b: nat)
    requires a < WORD && b < WORD && SplitMix64(a) == SplitMix64(b)
    ensures a == b
  {
    hide Xor, Shr, Round, XorShift;
    var xa, xb := (a + 0x9E3779B97F4A7C15) % WORD, (b + 0x9E3779B97F4A7C15) % WORD;
    var ya, yb := Round(xa, 30, 0xBF58476D1CE4E5B9), Round(xb, 30, 0xBF58476D1CE4E5B9);
    XorShiftInjective(Round(ya, 27, 0x94D049BB133111EB), Round(yb, 27, 0x94D049BB133111EB), 31);
    RoundInjective(ya, yb, 27, 0x94D049BB133111EB, 0x319642B2D24D8EC3, 0x1CD336EDA85F1453);
    RoundInjective(xa, xb, 30, 0xBF58476D1CE4E5B9, 0x96DE1B173F119089, 0x70C3BCA78F27F46C);
  }
}
