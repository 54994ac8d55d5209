/** Powers of two and the bit tricks of a buddy allocator: alignment, `p ^ (1 << k)`,
    rounding up to a power of two, trailing zeros and the integer logarithm. */
module Bits {

  function Pow2(k: nat): (r: nat)
    ensures r >= 1
  {
    if k == 0 then 1 else 2 * Pow2(k - 1)
  }

  /** The low `k` bits of `p` are zero. */
  predicate Aligned(p: nat, k: nat) {
    k == 0 || (p % 2 == 0 && Aligned(p / 2, k - 1))
  }

  /** `p ^ (1 << k)`. */
  function BuddyOf(p: nat, k: nat): nat {
    if k > 0 then 2 * BuddyOf(p / 2, k - 1) + p % 2
    else if p % 2 == 0 then p + 1
    else p - 1
  }

  /** `(p + (1 << k) - 1) & !((1 << k) - 1)`. */
  function AlignUp(p: nat, k: nat): (r: nat)
    ensures Aligned(r, k) && p <= r < p + Pow2(k)
  {
    if k == 0 then p else 2 * AlignUp((p + 1) / 2, k - 1)
  }

  /** `p.trailing_zeros()` of a 64-bit word. */
  function TrailingZeros(p: nat): nat {
    if p == 0 then 64 else if p % 2 == 1 then 0 else 1 + TrailingZeros(p / 2)
  }

  /** `63 - n.leading_zeros()` of a 64-bit word `n > 0`. */
  function FloorLog2(n: nat): (k: nat)
    requires n > 0
    ensures Pow2(k) <= n < 2 * Pow2(k)
  {
    if n == 1 then 0 else 1 + FloorLog2(n / 2)
  }

  lemma {:induction false} AlignedZero(k: nat)
    ensures Aligned(0, k)
  {
    if k > 0 { AlignedZero(k - 1); }
  }

  lemma {:induction false} TrailingZerosAligned(p: nat, k: nat)
    requires k <= TrailingZeros(p)
    ensures Aligned(p, k)
  {
    if p == 0 { AlignedZero(k); } else if k > 0 { TrailingZerosAligned(p / 2, k - 1); }
  }

  lemma {:induction false} Coarser(q: nat, j: nat, k: nat)
    requires j <= k && Aligned(q, k)
    ensures Aligned(q, j)
  {
    if 0 < j { Coarser(q / 2, j - 1, k - 1); }
  }

  /** An aligned block of order k + 1 is two aligned blocks of order k. */
  lemma {:induction false} Halves(p: nat, k: nat)
    requires Aligned(p, k + 1)
    ensures Aligned(p, k) && Aligned(p + Pow2(k), k)
    ensures !Aligned(p + Pow2(k), k + 1)
    ensures BuddyOf(p, k) == p + Pow2(k) && BuddyOf(p + Pow2(k), k) == p
  {
    if k > 0 {
      Halves(p / 2, k - 1);
      assert (p + Pow2(k)) / 2 == p / 2 + Pow2(k - 1);
    }
  }

  /** The buddy of an aligned block: the lower of the two starts the block of the next order. */
  lemma {:induction false} BuddyFacts(p: nat, k: nat)
    requires Aligned(p, k)
    ensures BuddyOf(p, k) != p && Aligned(BuddyOf(p, k), k)
    ensures BuddyOf(BuddyOf(p, k), k) == p
    ensures BuddyOf(p, k) > p ==> Aligned(p, k + 1) && BuddyOf(p, k) == p + Pow2(k)
    ensures BuddyOf(p, k) < p ==> Aligned(BuddyOf(p, k), k + 1) && p == BuddyOf(p, k) + Pow2(k)
  {
    if k > 0 { BuddyFacts(p / 2, k - 1); }
  }

  /** A smaller aligned block that starts inside a larger one lies inside it. */
  lemma {:induction false} Nested(p: nat, j: nat, q: nat, k: nat)
    requires Aligned(p, j) && Aligned(q, k) && j <= k
    requires q <= p < q + Pow2(k)
    ensures p + Pow2(j) <= q + Pow2(k)
  {
    if j > 0 { Nested(p / 2, j - 1, q / 2, k - 1); }
  }

  /** A larger aligned block that starts inside a smaller one starts where the smaller one does. */
  lemma {:induction false} SameStart(p: nat, j: nat, q: nat, k: nat)
    requires Aligned(p, j) && Aligned(q, k) && j <= k
    requires p <= q < p + Pow2(j)
    ensures p == q
  {
    if j > 0 { SameStart(p / 2, j - 1, q / 2, k - 1); }
  }

  lemma {:induction false} Monotone(j: nat, k: nat)
    requires j <= k
    ensures Pow2(j) <= Pow2(k)
  {
    if j < k { Monotone(j, k - 1); }
  }
}
