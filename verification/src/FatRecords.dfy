/** Handles of files and directories, and the directory entries that record them on the device. */
module FatRecords {
  import opened Basics
  import opened FatDevice
  import opened Options

  const DIR_ENTRY: nat := 32

  /** The handle of an open file or directory. */
  datatype Node = Node(first: nat, size: nat, isDir: bool, entryOffset: Option<nat>)

  /** The first cluster and the size as a directory entry records them. */
  function EntryFirst(b: seq<nat>): nat
    requires |b| == DIR_ENTRY
  {
    b[26] + 0x100 * b[27] + 0x1_0000 * (b[20] + 0x100 * b[21])
  }

  function EntrySize(b: seq<nat>): nat
    requires |b| == DIR_ENTRY
  {
    Word(b[28..32])
  }

  function Half(v: nat): (b: seq<nat>)
    ensures |b| == 2
  {
    [v % 0x100, v / 0x100 % 0x100]
  }

  function Recorded(b: seq<nat>, first: nat, size: nat): (r: seq<nat>)
    requires |b| == DIR_ENTRY
    ensures |r| == DIR_ENTRY
  {
    b[..20] + Half(first / 0x1_0000) + b[22..26] + Half(first % 0x1_0000) + WordBytes(size)
  }

  /** A directory entry gives back what was recorded, and keeps its name and attributes. */
  lemma RecordRoundTrip(b: seq<nat>, first: nat, size: nat)
    requires |b| == DIR_ENTRY && first < U32 && size < U32
    ensures EntryFirst(Recorded(b, first, size)) == first && EntrySize(Recorded(b, first, size)) == size
    ensures Recorded(b, first, size)[..20] == b[..20]
    ensures var r := Recorded(b, first, size);
      && r[20] + 0x100 * r[21] == first / 0x1_0000 && r[26] + 0x100 * r[27] == first % 0x1_0000
      && r[28] + 0x100 * r[29] + 0x1_0000 * r[30] + 0x100_0000 * r[31] == size
      && forall i :: 0 <= i < 26 && i != 20 && i != 21 ==> r[i] == b[i]
  {
    hide Word, WordBytes;
    var r := Recorded(b, first, size);
    WordRoundTrip(size);
    assert r[28..32] == WordBytes(size);
    WordValue(r[28..32]);
    HalfRoundTrip(first / 0x1_0000);
    HalfRoundTrip(first % 0x1_0000);
  }

  lemma WordValue(b: seq<nat>)
    requires |b| == 4
    ensures Word(b) == b[0] + 0x100 * b[1] + 0x1_0000 * b[2] + 0x100_0000 * b[3]
  {
  }

  lemma HalfRoundTrip(v: nat)
    requires v < 0x1_0000
    ensures Half(v)[0] + 0x100 * Half(v)[1] == v
  {
  }

  /** The directory entry on the device says what the handle says. */
  ghost predicate Says(dev: seq<nat>, n: Node) {
    n.entryOffset.Some? ==>
      && n.entryOffset.value + DIR_ENTRY <= |dev|
      && var e := dev[n.entryOffset.value..n.entryOffset.value + DIR_ENTRY];
         EntryFirst(e) == n.first && EntrySize(e) == n.size
  }

  ghost predicate Entered(dev: seq<nat>, nodes: map<nat, Node>) {
    forall k :: k in nodes ==> Says(dev, nodes[k])
  }

  /** Entries of different nodes do not overlap. */
  ghost predicate Separate(nodes: map<nat, Node>) {
    forall j, k :: j in nodes && k in nodes && j != k ==> Apart(nodes[j].entryOffset, nodes[k].entryOffset)
  }

  predicate Apart(a: Option<nat>, b: Option<nat>) {
    a.Some? && b.Some? ==> a.value + DIR_ENTRY <= b.value || b.value + DIR_ENTRY <= a.value
  }

  ghost predicate KeptOutside(dev: seq<nat>, n: seq<nat>, lo: nat, hi: nat) {
    |n| == |dev| && forall i :: 0 <= i < |dev| && !(lo <= i < hi) ==> n[i] == dev[i]
  }

  /** Recording one node leaves the entries of all others alone. */
  lemma EntryEntered(dev: seq<nat>, n: seq<nat>, nodes: map<nat, Node>, nodes2: map<nat, Node>, id: nat)
    requires Entered(dev, nodes) && Separate(nodes) && id in nodes2 && nodes2 == nodes[id := nodes2[id]]
    requires id in nodes && nodes2[id].entryOffset == nodes[id].entryOffset && Says(n, nodes2[id])
    requires nodes2[id].entryOffset.None? ==> n == dev
    requires nodes2[id].entryOffset.Some? ==>
      KeptOutside(dev, n, nodes2[id].entryOffset.value, nodes2[id].entryOffset.value + DIR_ENTRY)
    ensures Entered(n, nodes2) && Separate(nodes2)
  {
    hide EntryFirst, EntrySize;
    forall k | k in nodes2 ensures Says(n, nodes2[k]) {
      if k != id && nodes[k].entryOffset.Some? && nodes[id].entryOffset.Some? {
        var o := nodes[k].entryOffset.value;
        assert Says(dev, nodes[k]) && Apart(nodes[k].entryOffset, nodes[id].entryOffset);
        assert n[o..o + DIR_ENTRY] == dev[o..o + DIR_ENTRY];
      }
    }
    forall j, k | j in nodes2 && k in nodes2 && j != k ensures Apart(nodes2[j].entryOffset, nodes2[k].entryOffset) {
      assert Apart(nodes[j].entryOffset, nodes[k].entryOffset);
    }
  }
}
