/** A FAT32 volume as flat bytes: the copies of the allocation table, then the data clusters. Every
    write is described by what it does to table entries and to cluster contents. */
module FatDevice {
  const ENTRY_MASK: nat := 0x1000_0000
  const FAT_EOC: nat := 0x0FFF_FFFF
  const END_MARK: nat := 0x0FFF_FFF8
  const FIRST_CLUSTER: nat := 2

  datatype Geometry = Geometry(fatOffset: nat, fatSize: nat, numFats: nat, dataOffset: nat, clusterSize: nat,
    clusterCount: nat)

  /** Where copy `k` of the table starts. */
  function CopyBase(g: Geometry, k: nat): nat {
    g.fatOffset + k * g.fatSize
  }

  function DataBase(g: Geometry, c: nat): nat
    requires c >= FIRST_CLUSTER
  {
    g.dataOffset + (c - FIRST_CLUSTER) * g.clusterSize
  }

  /** The tables lie before the data area, the data area fits the device, and no cluster number looks
      like an end mark. */
  ghost predicate Fits(g: Geometry, dev: seq<nat>) {
    && g.numFats >= 1 && g.clusterSize >= 1 && g.fatSize >= 1 && g.clusterCount + FIRST_CLUSTER <= END_MARK
       && CopyBase(g, g.numFats) <= g.dataOffset
    && g.dataOffset + g.clusterCount * g.clusterSize <= |dev|
  }

  /** A cluster that exists both in the table and in the data area. */
  predicate InRange(g: Geometry, c: nat) {
    FIRST_CLUSTER <= c < g.clusterCount + FIRST_CLUSTER && 4 * c + 4 <= g.fatSize
  }

  lemma {:induction false} Steps(j: nat, k: nat, n: nat)
    requires j < k
    ensures j * n + n <= k * n
  {
    assert k * n == (k - 1) * n + n;
    if j + 1 < k { Steps(j, k - 1, n); }
  }

  lemma CopyOrder(g: Geometry, j: nat, k: nat)
    ensures j < k ==> CopyBase(g, j) + g.fatSize <= CopyBase(g, k)
  {
    if j < k { Steps(j, k, g.fatSize); }
  }

  lemma ClusterOrder(g: Geometry, c: nat, d: nat)
    requires FIRST_CLUSTER <= c && FIRST_CLUSTER <= d
    ensures c < d ==> DataBase(g, c) + g.clusterSize <= DataBase(g, d)
    ensures c < g.clusterCount + FIRST_CLUSTER ==>
      DataBase(g, c) + g.clusterSize <= g.dataOffset + g.clusterCount * g.clusterSize
    ensures DataBase(g, c) >= g.dataOffset
  {
    if c < d { Steps(c - FIRST_CLUSTER, d - FIRST_CLUSTER, g.clusterSize); }
    if c < g.clusterCount + FIRST_CLUSTER { Steps(c - FIRST_CLUSTER, g.clusterCount, g.clusterSize); }
  }

  function Splice(dev: seq<nat>, off: nat, bytes: seq<nat>): (r: seq<nat>)
    requires off + |bytes| <= |dev|
    ensures |r| == |dev|
    ensures forall i :: 0 <= i < |dev| ==> r[i] == if off <= i < off + |bytes| then bytes[i - off] else dev[i]
  {
    dev[..off] + bytes + dev[off + |bytes|..]
  }

  /** Little-endian 32-bit words. */
  function Word(b: seq<nat>): nat
    requires |b| == 4
  {
    b[0] + 0x100 * b[1] + 0x1_0000 * b[2] + 0x100_0000 * b[3]
  }

  function WordBytes(v: nat): (b: seq<nat>)
    ensures |b| == 4
  {
    [v % 0x100, v / 0x100 % 0x100, v / 0x1_0000 % 0x100, v / 0x100_0000 % 0x100]
  }

  lemma WordRoundTrip(v: nat)
    requires v < 0x1_0000_0000
    ensures Word(WordBytes(v)) == v
  {
    var q := v / 0x1_0000;
    assert v / 0x100 % 0x100 == v % 0x1_0000 / 0x100;
    assert v / 0x100_0000 == q / 0x100;
    assert v == q * 0x1_0000 + v % 0x1_0000;
  }

  /** The 28-bit table entry of a cluster, read from the first copy. */
  function Entry(g: Geometry, dev: seq<nat>, c: nat): nat
    requires Fits(g, dev) && 4 * c + 4 <= g.fatSize
  {
    CopyOrder(g, 0, g.numFats);
    var off := g.fatOffset + 4 * c;
    Word(dev[off..off + 4]) % ENTRY_MASK
  }

  function Data(g: Geometry, dev: seq<nat>, c: nat): (b: seq<nat>)
    requires Fits(g, dev) && InRange(g, c)
    ensures |b| == g.clusterSize
  {
    ClusterOrder(g, c, c);
    dev[DataBase(g, c)..DataBase(g, c) + g.clusterSize]
  }

  /** All copies of the table hold the same bytes. */
  ghost predicate CopiesEqual(g: Geometry, dev: seq<nat>)
    requires Fits(g, dev)
  {
    forall k: nat, i: nat :: k < g.numFats && i < g.fatSize ==> CopyByte(g, dev, k, i) == CopyByte(g, dev, 0, i)
  }

  function CopyByte(g: Geometry, dev: seq<nat>, k: nat, i: nat): nat
    requires Fits(g, dev) && k < g.numFats && i < g.fatSize
  {
    CopyOrder(g, k, g.numFats);
    dev[CopyBase(g, k) + i]
  }

  /** The device after the entry has been written in the first `k` copies. */
  function WrittenCopies(g: Geometry, dev: seq<nat>, c: nat, bytes: seq<nat>, k: nat): (r: seq<nat>)
    requires Fits(g, dev) && 4 * c + 4 <= g.fatSize && |bytes| == 4 && k <= g.numFats
    ensures |r| == |dev|
  {
    if k == 0 then dev
    else
      CopyOrder(g, k - 1, g.numFats);
      Splice(WrittenCopies(g, dev, c, bytes, k - 1), CopyBase(g, k - 1) + 4 * c, bytes)
  }

  /** One copy written: copies do not overlap each other or the data area. */
  lemma OneCopy(g: Geometry, dev: seq<nat>, c: nat, bytes: seq<nat>, k: nat)
    requires Fits(g, dev) && 4 * c + 4 <= g.fatSize && |bytes| == 4 && k < g.numFats
    ensures CopyBase(g, k) + 4 * c + 4 <= g.dataOffset <= |dev|
    ensures var n := Splice(dev, CopyBase(g, k) + 4 * c, bytes);
      && (forall j: nat, i: nat :: j < g.numFats && i < g.fatSize ==>
            CopyByte(g, n, j, i) == if j == k && 4 * c <= i < 4 * c + 4 then bytes[i - 4 * c]
              else CopyByte(g, dev, j, i))
      && (forall i: nat :: g.dataOffset <= i < |dev| ==> n[i] == dev[i])
  {
    hide CopyBase;
    CopyOrder(g, k, g.numFats);
    var n := Splice(dev, CopyBase(g, k) + 4 * c, bytes);
    forall j: nat, i: nat | j < g.numFats && i < g.fatSize
      ensures CopyByte(g, n, j, i) == if j == k && 4 * c <= i < 4 * c + 4 then bytes[i - 4 * c]
        else CopyByte(g, dev, j, i)
    {
      CopyOrder(g, j, k);
      CopyOrder(g, k, j);
      CopyOrder(g, j, g.numFats);
    }
  }

  /** `n` is `dev` with the entry's bytes in the first `k` copies. */
  ghost predicate InCopies(g: Geometry, dev: seq<nat>, n: seq<nat>, c: nat, bytes: seq<nat>, k: nat)
    requires Fits(g, dev) && |n| == |dev| && |bytes| == 4
  {
    && (forall j: nat, i: nat :: j < g.numFats && i < g.fatSize ==>
          CopyByte(g, n, j, i) == if j < k && 4 * c <= i < 4 * c + 4 then bytes[i - 4 * c] else CopyByte(g, dev, j, i))
    && (forall i: nat :: g.dataOffset <= i < |dev| ==> n[i] == dev[i])
  }

  lemma {:induction false} CopiesMeaning(g: Geometry, dev: seq<nat>, c: nat, bytes: seq<nat>, k: nat)
    requires Fits(g, dev) && 4 * c + 4 <= g.fatSize && |bytes| == 4 && k <= g.numFats
    ensures InCopies(g, dev, WrittenCopies(g, dev, c, bytes, k), c, bytes, k)
  {
    hide CopyBase, CopyByte, Splice;
    if k > 0 {
      var p := WrittenCopies(g, dev, c, bytes, k - 1);
      CopiesMeaning(g, dev, c, bytes, k - 1);
      OneCopy(g, p, c, bytes, k - 1);
    }
  }

  function WithEntry(g: Geometry, dev: seq<nat>, c: nat, v: nat): seq<nat>
    requires Fits(g, dev) && 4 * c + 4 <= g.fatSize
  {
    WrittenCopies(g, dev, c, WordBytes(v % ENTRY_MASK), g.numFats)
  }

  lemma EntryBytes(g: Geometry, dev: seq<nat>, c: nat)
    requires Fits(g, dev) && 4 * c + 4 <= g.fatSize
    ensures Entry(g, dev, c) ==
      Word([CopyByte(g, dev, 0, 4 * c), CopyByte(g, dev, 0, 4 * c + 1), CopyByte(g, dev, 0, 4 * c + 2),
        CopyByte(g, dev, 0, 4 * c + 3)]) % ENTRY_MASK
  {
    CopyOrder(g, 0, g.numFats);
  }

  /** Writing an entry changes that entry, in every copy, and nothing else. */
  lemma EntryWritten(g: Geometry, dev: seq<nat>, c: nat, v: nat)
    requires Fits(g, dev) && 4 * c + 4 <= g.fatSize
    ensures var n := WithEntry(g, dev, c, v);
      && |n| == |dev| && Fits(g, n)
      && Entry(g, n, c) == v % ENTRY_MASK
      && (forall d: nat :: d != c && 4 * d + 4 <= g.fatSize ==> Entry(g, n, d) == Entry(g, dev, d))
      && (forall d: nat :: InRange(g, d) ==> Data(g, n, d) == Data(g, dev, d))
      && (CopiesEqual(g, dev) ==> CopiesEqual(g, n))
  {
    hide CopyBase, DataBase, Entry, WrittenCopies, CopyByte, Word, WordBytes, CopiesEqual;
    var bytes := WordBytes(v % ENTRY_MASK);
    var n := WithEntry(g, dev, c, v);
    CopiesMeaning(g, dev, c, bytes, g.numFats);
    forall d: nat | 4 * d + 4 <= g.fatSize ensures Entry(g, n, d) == if d == c then v % ENTRY_MASK
        else Entry(g, dev, d) {
      EntryBytes(g, dev, d);
      EntryBytes(g, n, d);
      assert bytes == [bytes[0], bytes[1], bytes[2], bytes[3]];
      WordRoundTrip(v % ENTRY_MASK);
    }
    forall d: nat | InRange(g, d) ensures Data(g, n, d) == Data(g, dev, d) { DataKept(g, dev, c, v, d); }
    if CopiesEqual(g, dev) { CopiesKept(g, dev, c, v); }
  }

  lemma DataKept(g: Geometry, dev: seq<nat>, c: nat, v: nat, d: nat)
    requires Fits(g, dev) && 4 * c + 4 <= g.fatSize && InRange(g, d)
    ensures Data(g, WithEntry(g, dev, c, v), d) == Data(g, dev, d)
  {
    hide WrittenCopies, CopyBase, DataBase, WordBytes;
    ClusterOrder(g, d, d);
    CopiesMeaning(g, dev, c, WordBytes(v % ENTRY_MASK), g.numFats);
  }

  lemma CopiesKept(g: Geometry, dev: seq<nat>, c: nat, v: nat)
    requires Fits(g, dev) && 4 * c + 4 <= g.fatSize && CopiesEqual(g, dev)
    ensures CopiesEqual(g, WithEntry(g, dev, c, v))
  {
    hide WrittenCopies, CopyBase, CopyByte, WordBytes;
    CopiesMeaning(g, dev, c, WordBytes(v % ENTRY_MASK), g.numFats);
    forall k: nat, i: nat | k < g.numFats && i < g.fatSize
      ensures CopyByte(g, WithEntry(g, dev, c, v), k, i) == CopyByte(g, WithEntry(g, dev, c, v), 0, i)
    {
      assert CopyByte(g, dev, k, i) == CopyByte(g, dev, 0, i);
    }
  }

  /** Writing bytes inside a cluster changes that cluster only, and never the table. */
  lemma ClusterWritten(g: Geometry, dev: seq<nat>, c: nat, at: nat, bytes: seq<nat>)
    requires Fits(g, dev) && InRange(g, c) && at + |bytes| <= g.clusterSize
    ensures DataBase(g, c) + at + |bytes| <= |dev|
    ensures var n := Splice(dev, DataBase(g, c) + at, bytes);
      && Fits(g, n) && Data(g, n, c) == Splice(Data(g, dev, c), at, bytes)
      && (forall d: nat :: d != c && InRange(g, d) ==> Data(g, n, d) == Data(g, dev, d))
      && (forall d: nat :: 4 * d + 4 <= g.fatSize ==> Entry(g, n, d) == Entry(g, dev, d))
      && (CopiesEqual(g, dev) ==> CopiesEqual(g, n))
  {
    hide CopyBase, DataBase, Word;
    ClusterOrder(g, c, c);
    var n := Splice(dev, DataBase(g, c) + at, bytes);
    assert n[..g.dataOffset] == dev[..g.dataOffset];
    forall d: nat | d != c && InRange(g, d) ensures Data(g, n, d) == Data(g, dev, d) {
      ClusterOrder(g, c, d);
      ClusterOrder(g, d, c);
    }
    forall d: nat | 4 * d + 4 <= g.fatSize ensures Entry(g, n, d) == Entry(g, dev, d) {
      TableBelow(g, dev, n, d);
    }
    if CopiesEqual(g, dev) {
      forall k: nat, i: nat | k < g.numFats && i < g.fatSize ensures CopyByte(g, n, k, i) == CopyByte(g, dev, k, i) {
        CopyOrder(g, k, g.numFats);
      }
    }
  }

  lemma TableBelow(g: Geometry, dev: seq<nat>, n: seq<nat>, d: nat)
    requires Fits(g, dev) && Fits(g, n) && |n| == |dev| && n[..g.dataOffset] == dev[..g.dataOffset]
    requires 4 * d + 4 <= g.fatSize
    ensures Entry(g, n, d) == Entry(g, dev, d)
  {
    CopyOrder(g, 0, g.numFats);
    var off := g.fatOffset + 4 * d;
    assert n[off..off + 4] == n[..g.dataOffset][off..off + 4];
    assert dev[off..off + 4] == dev[..g.dataOffset][off..off + 4];
  }
}
