/** What a cluster chain holds: a vector of bytes, and zeros from its end to the end of the chain. */
module FatContents {
  import opened FatDevice
  import opened FlatFile

  /** The position of the first byte of the `q`th cluster of a chain. */
  function Pos(cs: nat, q: nat): nat {
    q * cs
  }

  ghost predicate AllInRange(g: Geometry, ch: seq<nat>) {
    forall q :: 0 <= q < |ch| ==> InRange(g, ch[q])
  }

  /** The byte a file must have at position `i` when `buf` has been written at `offset` up to `limit`. */
  function Expected(data: seq<nat>, offset: nat, buf: seq<nat>, limit: nat, i: nat): nat {
    if offset <= i < limit && i - offset < |buf| then buf[i - offset] else if i < |data| then data[i] else 0
  }

  /** The chain holds `data` padded with zeros, with `buf` written over it up to `limit`. */
  ghost predicate Partly(g: Geometry, dev: seq<nat>, ch: seq<nat>, data: seq<nat>, offset: nat, buf: seq<nat>,
                         limit: nat)
    requires Fits(g, dev) && AllInRange(g, ch)
  {
    forall q: nat, r: nat :: q < |ch| && r < g.clusterSize ==>
      Data(g, dev, ch[q])[r] == Expected(data, offset, buf, limit, Pos(g.clusterSize, q) + r)
  }

  ghost predicate ChainHolds(g: Geometry, dev: seq<nat>, ch: seq<nat>, data: seq<nat>)
    requires Fits(g, dev) && AllInRange(g, ch)
  {
    |data| <= Pos(g.clusterSize, |ch|) && Partly(g, dev, ch, data, 0, [], 0)
  }

  /** A position is in one place of one cluster. */
  lemma Place(i: nat, cs: nat)
    requires cs >= 1
    ensures Pos(cs, i / cs) + i % cs == i && i % cs < cs
  {
  }

  /** The chain and the length determine the bytes. */
  lemma HeldOnce(g: Geometry, dev: seq<nat>, ch: seq<nat>, a: seq<nat>, b: seq<nat>)
    requires Fits(g, dev) && AllInRange(g, ch) && ChainHolds(g, dev, ch, a) && ChainHolds(g, dev, ch, b) && |a| == |b|
    ensures a == b
  {
    forall i | 0 <= i < |a| ensures a[i] == b[i] { HeldAt(g, dev, ch, a, i); HeldAt(g, dev, ch, b, i); }
  }

  lemma HeldAt(g: Geometry, dev: seq<nat>, ch: seq<nat>, data: seq<nat>, i: nat)
    requires Fits(g, dev) && AllInRange(g, ch) && ChainHolds(g, dev, ch, data) && i < |data|
    ensures i / g.clusterSize < |ch| && data[i] == Data(g, dev, ch[i / g.clusterSize])[i % g.clusterSize]
  {
    hide Data, Fits, InRange, Pos;
    FitsSize(g, dev);
    var q, r := i / g.clusterSize, i % g.clusterSize;
    Place(i, g.clusterSize);
    if q >= |ch| {
      Spread(|ch|, q, g.clusterSize);
      assert false;
    }
  }

  lemma FitsSize(g: Geometry, dev: seq<nat>)
    requires Fits(g, dev)
    ensures g.clusterSize >= 1
  {
  }

  lemma Spread(a: nat, b: nat, cs: nat)
    ensures a <= b ==> Pos(cs, a) <= Pos(cs, b)
    ensures a < b ==> Pos(cs, a) + cs <= Pos(cs, b)
  {
    if a < b { Steps(a, b, cs); }
  }

  /** Fresh zeroed clusters at the end of the chain extend the padding. */
  lemma GrownPartly(g: Geometry, dev: seq<nat>, ch: seq<nat>, more: seq<nat>, data: seq<nat>, offset: nat,
                    buf: seq<nat>, limit: nat)
    requires Fits(g, dev) && AllInRange(g, ch) && AllInRange(g, ch + more)
    requires Partly(g, dev, ch, data, offset, buf, limit)
    requires |data| <= Pos(g.clusterSize, |ch|) && (limit <= offset || limit <= Pos(g.clusterSize, |ch|))
    requires forall q :: |ch| <= q < |ch + more| ==> forall r :: 0 <= r < g.clusterSize ==>
      Data(g, dev, (ch + more)[q])[r] == 0
    ensures Partly(g, dev, ch + more, data, offset, buf, limit)
  {
    hide Data, Fits, InRange, Pos;
    forall q: nat, r: nat | q < |ch + more| && r < g.clusterSize
      ensures Data(g, dev, (ch + more)[q])[r] == Expected(data, offset, buf, limit, Pos(g.clusterSize, q) + r)
    {
      Spread(|ch|, q, g.clusterSize);
      if q < |ch| { assert (ch + more)[q] == ch[q]; }
    }
  }

  /** How far the write has come when everything below position `base` is done. */
  function Limit(offset: nat, end: nat, base: nat): nat {
    var l := if end < base then end else base;
    if l < offset then offset else l
  }

  /** The part of the cluster at `base` that the write covers. */
  function From(offset: nat, base: nat): nat {
    if offset > base then offset - base else 0
  }

  function To(end: nat, cs: nat, base: nat): nat {
    var rest := if end > base then end - base else 0;
    if cs < rest then cs else rest
  }

  lemma ExpectedElsewhere(data: seq<nat>, offset: nat, buf: seq<nat>, cs: nat, base: nat, i: nat)
    requires i < base || base + cs <= i
    ensures Expected(data, offset, buf, Limit(offset, offset + |buf|, base + cs), i) ==
      Expected(data, offset, buf, Limit(offset, offset + |buf|, base), i)
  {
  }

  lemma ExpectedHere(data: seq<nat>, offset: nat, buf: seq<nat>, cs: nat, base: nat, r: nat)
    requires base < offset + |buf| && offset < base + cs && r < cs
    ensures var from, to := From(offset, base), To(offset + |buf|, cs, base);
      && from <= to <= cs && (from <= r < to ==> 0 <= base + r - offset < |buf|)
      && Expected(data, offset, buf, Limit(offset, offset + |buf|, base + cs), base + r) ==
         if from <= r < to then buf[base + r - offset]
           else Expected(data, offset, buf, Limit(offset, offset + |buf|, base), base + r)
  {
  }

  /** The cluster after the slice of `buf` that belongs to it has been copied in. */
  function Patched(old0: seq<nat>, offset: nat, buf: seq<nat>, base: nat): (r: seq<nat>)
    requires base < offset + |buf| && offset < base + |old0|
    ensures |r| == |old0|
  {
    var from, to := From(offset, base), To(offset + |buf|, |old0|, base);
    old0[..from] + buf[base + from - offset..base + to - offset] + old0[to..]
  }

  /** Writing the slice that belongs to cluster `idx` brings the file one cluster further. */
  lemma SliceWritten(g: Geometry, dev: seq<nat>, n: seq<nat>, ch: seq<nat>, data: seq<nat>, offset: nat, buf: seq<nat>,
                     idx: nat)
    requires Fits(g, dev) && Fits(g, n) && AllInRange(g, ch) && idx < |ch|
    requires Partly(g, dev, ch, data, offset, buf, Limit(offset, offset + |buf|, Pos(g.clusterSize, idx)))
    requires forall q :: 0 <= q < |ch| && q != idx ==> Data(g, n, ch[q]) == Data(g, dev, ch[q])
    requires Pos(g.clusterSize, idx) < offset + |buf| && offset < Pos(g.clusterSize, idx) + g.clusterSize
    requires Data(g, n, ch[idx]) == Patched(Data(g, dev, ch[idx]), offset, buf, Pos(g.clusterSize, idx))
    ensures Partly(g, n, ch, data, offset, buf, Limit(offset, offset + |buf|, Pos(g.clusterSize, idx) + g.clusterSize))
  {
    hide Data, Fits, InRange, Expected, Limit, Pos;
    var cs, base := g.clusterSize, Pos(g.clusterSize, idx);
    forall q: nat, r: nat | q < |ch| && r < cs
      ensures Data(g, n, ch[q])[r] ==
        Expected(data, offset, buf, Limit(offset, offset + |buf|, base + cs), Pos(cs, q) + r)
    {
      Spread(q, idx, cs);
      Spread(idx, q, cs);
      if q == idx {
        ExpectedHere(data, offset, buf, cs, base, r);
        PatchedAt(Data(g, dev, ch[idx]), offset, buf, base, r);
      } else {
        ExpectedElsewhere(data, offset, buf, cs, base, Pos(cs, q) + r);
      }
    }
  }

  lemma PatchedAt(old0: seq<nat>, offset: nat, buf: seq<nat>, base: nat, r: nat)
    requires base < offset + |buf| && offset < base + |old0| && r < |old0|
    ensures var from, to := From(offset, base), To(offset + |buf|, |old0|, base);
      Patched(old0, offset, buf, base)[r] == if from <= r < to then buf[base + r - offset] else old0[r]
  {
  }

  /** Once all clusters of the write are done, the chain holds what the in-memory file would. */
  lemma AllWritten(g: Geometry, dev: seq<nat>, ch: seq<nat>, data: seq<nat>, offset: nat, buf: seq<nat>, idx: nat)
    requires Fits(g, dev) && AllInRange(g, ch)
    requires Partly(g, dev, ch, data, offset, buf, Limit(offset, offset + |buf|, Pos(g.clusterSize, idx)))
    requires |data| <= Pos(g.clusterSize, |ch|) && offset + |buf| <= Pos(g.clusterSize, idx) && idx <= |ch|
    ensures ChainHolds(g, dev, ch, Written(data, offset, buf))
  {
    hide Data, Fits, InRange, Written, Pos;
    WrittenMeaning(data, offset, buf);
    Spread(idx, |ch|, g.clusterSize);
  }

  /** How many bytes from `offset` on fit into `n` clusters. */
  function Room(cs: nat, n: nat, offset: nat): nat {
    if Pos(cs, n) > offset then Pos(cs, n) - offset else 0
  }

  lemma RoomFits(cs: nat, n: nat, offset: nat, buf: seq<nat>)
    requires Pos(cs, n) < offset + |buf|
    ensures Room(cs, n, offset) <= |buf|
  {
  }

  /** A write that cannot go on has filled the clusters there are. */
  lemma CutShort(g: Geometry, dev: seq<nat>, ch: seq<nat>, data: seq<nat>, offset: nat, buf: seq<nat>, idx: nat)
    requires Fits(g, dev) && AllInRange(g, ch)
    requires Partly(g, dev, ch, data, offset, buf, Limit(offset, offset + |buf|, Pos(g.clusterSize, idx)))
    requires |data| <= Pos(g.clusterSize, |ch|) && Pos(g.clusterSize, idx) < offset + |buf| && |ch| <= idx
    requires Pos(g.clusterSize, idx) <= offset || idx <= |ch|
    ensures Pos(g.clusterSize, |ch|) < offset + |buf|
    ensures ChainHolds(g, dev, ch, Short(data, offset, buf, Room(g.clusterSize, |ch|, offset)))
  {
    hide Data, Fits, InRange, Short, Pos;
    Spread(|ch|, idx, g.clusterSize);
    ShortMeaning(data, offset, buf, Room(g.clusterSize, |ch|, offset));
  }

  lemma NotYet(g: Geometry, dev: seq<nat>, ch: seq<nat>, data: seq<nat>, offset: nat, buf: seq<nat>, idx: nat)
    requires Fits(g, dev) && AllInRange(g, ch) && ChainHolds(g, dev, ch, data) && Pos(g.clusterSize, idx) <= offset
    ensures Partly(g, dev, ch, data, offset, buf, Limit(offset, offset + |buf|, Pos(g.clusterSize, idx)))
  {
    hide Data, Fits, InRange, Pos;
  }
}
