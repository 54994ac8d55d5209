/** Word sizes and small functions that several parts share. */
module Basics {
  /** One more than the largest 64-bit and 32-bit word. */
  const WORD: int := 0x1_0000_0000_0000_0000
  const U32: nat := 0x1_0000_0000

  function Least(a: nat, b: nat): nat {
    if a < b then a else b
  }

  function Greatest(a: nat, b: nat): nat {
    if a < b then b else a
  }

  function Zeros(n: nat): (z: seq<nat>)
    ensures |z| == n && forall i :: 0 <= i < n ==> z[i] == 0
  {
    seq(n, i => 0)
  }

  /** Part of a set is no larger than the set, and as large only if it is all of it. */
  lemma {:induction false} SubsetSize(a: set<nat>, b: set<nat>)
    requires a <= b
    ensures |a| <= |b| && (|a| == |b| ==> a == b)
  {
    if a != {} {
      var x :| x in a;
      SubsetSize(a - {x}, b - {x});
    }
  }

  /** The sequence without its `k`th element. */
  function Without<T>(s: seq<T>, k: nat): (r: seq<T>)
    requires k < |s|
    ensures |r| == |s| - 1
  {
    s[..k] + s[k + 1..]
  }
}
