/** The in-memory file: one vector of bytes, grown with zeros when written past its end. */
module FlatFile {
  import opened Basics

  /** The vector after `buf` has been written at `offset`. */
  function Written(data: seq<nat>, offset: nat, buf: seq<nat>): (r: seq<nat>)
  {
    var end := offset + |buf|;
    var d := if end > |data| then data + Zeros(end - |data|) else data;
    d[..offset] + buf + d[end..]
  }

  /** The bytes a read of `n` bytes at `offset` gives. */
  function Part(data: seq<nat>, offset: nat, n: nat): (r: seq<nat>)
  {
    if offset >= |data| then []
    else data[offset..if offset + n < |data| then offset + n else |data|]
  }

  lemma WrittenMeaning(data: seq<nat>, offset: nat, buf: seq<nat>)
    ensures var r, end := Written(data, offset, buf), offset + |buf|;
      && |r| == (if end > |data| then end else |data|)
      && forall i :: 0 <= i < |r| ==>
         r[i] == if offset <= i < end then buf[i - offset] else if i < |data| then data[i] else 0
  {
  }

  /** What was written is read back, and a gap before it reads as zeros. */
  lemma ReadBack(data: seq<nat>, offset: nat, buf: seq<nat>)
    ensures Part(Written(data, offset, buf), offset, |buf|) == buf
    ensures |data| <= offset ==> Part(Written(data, offset, buf), |data|, offset - |data|) == Zeros(offset - |data|)
    ensures forall o: nat, n: nat :: o + n <= offset && o + n <= |data| ==>
      Part(Written(data, offset, buf), o, n) == Part(data, o, n)
  {
    hide Written;
    WrittenMeaning(data, offset, buf);
  }

  /** Nothing but zeros from `n` on. */
  predicate ZeroFrom(h: seq<nat>, n: nat) {
    forall i :: n <= i < |h| ==> h[i] == 0
  }

  /** The bytes between the size `n` and `offset` are zero. */
  predicate GapZero(h: seq<nat>, n: nat, offset: nat) {
    forall i :: n <= i < |h| && i < offset ==> h[i] == 0
  }

  /** The first `k` bytes of `buf`, written at `offset`, put only zeros at `n` or beyond. */
  predicate ZeroBeyond(buf: seq<nat>, n: nat, offset: nat, k: nat) {
    forall j :: 0 <= j < k && j < |buf| && n <= offset + j ==> buf[j] == 0
  }

  /** The vector after only the first `k` bytes of `buf` have been written. */
  function Short(data: seq<nat>, offset: nat, buf: seq<nat>, k: nat): (r: seq<nat>)
    requires k <= |buf|
  {
    if k == 0 then data else Written(data, offset, buf[..k])
  }

  lemma ShortMeaning(data: seq<nat>, offset: nat, buf: seq<nat>, k: nat)
    requires k <= |buf|
    ensures var r := Short(data, offset, buf, k);
      && |r| == (if k == 0 then |data| else Greatest(|data|, offset + k))
      && forall i :: 0 <= i < |r| ==>
         r[i] == if offset <= i < offset + k then buf[i - offset] else if i < |data| then data[i] else 0
  {
    hide Written;
    WrittenMeaning(data, offset, buf[..k]);
  }

  /** A file of `n` bytes that holds `h` is written as the in-memory file would be exactly when the gap
      that the write opens is zero. */
  lemma WriteRefines(h: seq<nat>, n: nat, offset: nat, buf: seq<nat>)
    requires n <= |h| && buf != []
    ensures var w, m := Written(h, offset, buf), Greatest(n, offset + |buf|);
      && m <= |w| && (w[..m] == Written(h[..n], offset, buf) <==> GapZero(h, n, offset))
      && (ZeroFrom(h, n) ==> ZeroFrom(w, m))
  {
    hide Written;
    WrittenMeaning(h, offset, buf);
    WrittenMeaning(h[..n], offset, buf);
    var w, m, f := Written(h, offset, buf), Greatest(n, offset + |buf|), Written(h[..n], offset, buf);
    if w[..m] == f {
      forall i | n <= i < |h| && i < offset ensures h[i] == 0 { assert w[..m][i] == f[i]; }
    }
  }

  /** After a write was cut short, the bytes of the file are those of the prefix written over them, and
      zeros follow them exactly when no other byte was written at or beyond the size. */
  lemma ShortRefines(h: seq<nat>, n: nat, offset: nat, buf: seq<nat>, k: nat)
    requires n <= |h| && k <= |buf|
    ensures var r := Short(h, offset, buf, k);
      && n <= |r| && (forall i :: 0 <= i < n ==> r[i] == if offset <= i < offset + k then buf[i - offset] else h[i])
      && (ZeroFrom(h, n) ==> (ZeroFrom(r, n) <==> ZeroBeyond(buf, n, offset, k)))
  {
    hide Short;
    ShortMeaning(h, offset, buf, k);
    var r := Short(h, offset, buf, k);
    if ZeroFrom(r, n) {
      forall j | 0 <= j < k && n <= offset + j ensures buf[j] == 0 { assert r[offset + j] == buf[j]; }
    }
  }

  class TmpfsFile {
    var data: seq<nat>

    constructor ()
      ensures data == []
    {
      data := [];
    }

    /** Copies into `buf` and says how many bytes. */
    method Read(offset: nat, buf: array<nat>) returns (n: nat)
      modifies buf
      ensures n <= buf.Length && buf[..n] == Part(data, offset, buf.Length)
      ensures forall k :: n <= k < buf.Length ==> buf[k] == old(buf[k])
    {
      if offset >= |data| { return 0; }
      var end := if offset + buf.Length < |data| then offset + buf.Length else |data|;
      n := 0;
      while n < end - offset
        invariant 0 <= n <= end - offset <= buf.Length
        invariant forall k :: 0 <= k < n ==> buf[k] == data[offset + k]
        invariant forall k :: n <= k < buf.Length ==> buf[k] == old(buf[k])
      {
        buf[n] := data[offset + n];
        n := n + 1;
      }
      assert buf[..n] == data[offset..end];
    }

    method Write(offset: nat, buf: seq<nat>) returns (n: nat)
      modifies this
      ensures n == |buf| && data == Written(old(data), offset, buf)
    {
      var end := offset + |buf|;
      if end > |data| { data := data + Zeros(end - |data|); }
      data := data[..offset] + buf + data[end..];
      n := |buf|;
    }
  }
}
