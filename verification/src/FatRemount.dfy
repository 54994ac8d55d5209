/** Mounting again: the device alone determines the files. */
module FatRemount {
  import opened FatChains
  import opened FatContents
  import opened FatDevice
  import opened FatFiles
  import opened FatGrowth
  import opened FatRecords

  /** The table leads from a first cluster through one chain only. */
  lemma {:induction false} ChainUnique(v: Volume, w: Volume, i: nat, j: nat, q: nat)
    requires Sound(v) && Sound(w) && w.g == v.g && w.dev == v.dev && i in v.chains && j in w.chains
    requires FirstOf(v.chains[i]) == FirstOf(w.chains[j])
    ensures q < |v.chains[i]| <==> q < |w.chains[j]|
    ensures q < |v.chains[i]| ==> v.chains[i][q] == w.chains[j][q]
  {
    hide Sound, Entry;
    FirstCluster(v, i);
    FirstCluster(w, j);
    if q > 0 {
      ChainUnique(v, w, i, j, q - 1);
      if q - 1 < |v.chains[i]| {
        ChainsApart(v, i, q - 1, i, q - 1);
        ChainsApart(w, j, q - 1, j, q - 1);
      }
    }
  }

  lemma SameChain(v: Volume, w: Volume, i: nat, j: nat)
    requires Sound(v) && Sound(w) && w.g == v.g && w.dev == v.dev && i in v.chains && j in w.chains
    requires FirstOf(v.chains[i]) == FirstOf(w.chains[j])
    ensures v.chains[i] == w.chains[j]
  {
    hide Sound;
    var a, b := v.chains[i], w.chains[j];
    ChainUnique(v, w, i, j, |a|);
    ChainUnique(v, w, i, j, |b|);
    forall q | 0 <= q < |a| ensures a[q] == b[q] { ChainUnique(v, w, i, j, q); }
  }

  /** Two mounts of the same bytes, whatever else they know, have the same file behind the same directory entry. */
  lemma DeviceDetermines(v: Volume, nodes: map<nat, Node>, held: map<nat, seq<nat>>, i: nat,
                         w: Volume, nodes2: map<nat, Node>, held2: map<nat, seq<nat>>, j: nat)
    requires AllOk(v, nodes, held) && Entered(v.dev, nodes) && AllOk(w, nodes2, held2) && Entered(w.dev, nodes2)
    requires w.g == v.g && w.dev == v.dev && i in nodes && j in nodes2 && !nodes[i].isDir && !nodes2[j].isDir
    requires nodes[i].entryOffset.Some? && nodes2[j].entryOffset == nodes[i].entryOffset
    ensures nodes2[j].first == nodes[i].first && nodes2[j].size == nodes[i].size
    ensures i in held && j in held2 && nodes[i].size <= |held[i]| && nodes[i].size <= |held2[j]|
    ensures held2[j][..nodes2[j].size] == held[i][..nodes[i].size]
  {
    hide AllOk, Sound, Fits, Data, AllInRange, ChainHolds, EntryFirst, EntrySize;
    assert Says(v.dev, nodes[i]) && Says(w.dev, nodes2[j]);
    OpenFile(v, nodes, held, i);
    OpenFile(w, nodes2, held2, j);
    SameChain(v, w, i, j);
    var n := nodes[i].size;
    forall k | 0 <= k < n ensures held[i][..n][k] == held2[j][..n][k] {
      HeldAt(v.g, v.dev, v.chains[i], held[i], k);
      HeldAt(w.g, w.dev, w.chains[j], held2[j], k);
    }
  }
}
