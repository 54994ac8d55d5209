/** Files on a FAT volume: reading, writing and freeing cluster chains. */
module FatFiles {
  import opened Basics
  import opened FatChains
  import opened FatContents
  import opened FatDevice
  import opened FatGrowth
  import opened FatRecords
  import opened FatSpace
  import opened FlatFile
  import opened Options

  datatype FsError = Invalid | NoDev

  /** The directory entry lies inside a cluster of a directory. */
  ghost predicate EntryOk(v: Volume, nodes: map<nat, Node>, c: nat, o: nat) {
    && c in v.owner && v.owner[c].chain in nodes && nodes[v.owner[c].chain].isDir && InRange(v.g, c)
    && DataBase(v.g, c) <= o && o + DIR_ENTRY <= DataBase(v.g, c) + v.g.clusterSize
  }

  ghost predicate NodeOk(v: Volume, nodes: map<nat, Node>, id: nat)
    requires id in nodes
  {
    && id in v.chains && nodes[id].first == FirstOf(v.chains[id]) && nodes[id].size < U32
    && (nodes[id].entryOffset.Some? ==> exists c :: EntryOk(v, nodes, c, nodes[id].entryOffset.value))
  }

  /** The chain of a file holds at least as many bytes as its size says, padded with zeros. */
  ghost predicate FileOk(v: Volume, nodes: map<nat, Node>, held: map<nat, seq<nat>>, id: nat)
    requires id in nodes
  {
    && id in v.chains && id in held && nodes[id].size <= |held[id]| && Fits(v.g, v.dev) && AllInRange(v.g, v.chains[id])
    && ChainHolds(v.g, v.dev, v.chains[id], held[id])
  }

  ghost predicate AllOk(v: Volume, nodes: map<nat, Node>, held: map<nat, seq<nat>>) {
    && Sound(v) && v.chains.Keys == nodes.Keys && held.Keys <= nodes.Keys
    && (forall k :: k in nodes ==> NodeOk(v, nodes, k))
    && (forall k :: k in nodes && !nodes[k].isDir ==> FileOk(v, nodes, held, k))
  }

  /** How many clusters `n` bytes take. */
  function ClustersFor(g: Geometry, n: nat): nat {
    if g.clusterSize == 0 then 0 else (n + g.clusterSize - 1) / g.clusterSize
  }

  /** A file was given just the clusters it lacked, out of the free ones. */
  ghost predicate Supplied(v: Volume, w: Volume, id: nat, n: nat) {
    && id in v.chains && id in w.chains && |w.chains[id]| == Greatest(|v.chains[id]|, n)
    && |w.chains[id]| + |FreeSet(w.g, w.dev)| == |v.chains[id]| + |FreeSet(v.g, v.dev)|
    && Stray(w) == Stray(v)
  }

  lemma IsSupplied(v: Volume, w: Volume, id: nat, n: nat)
    requires id in v.chains && id in w.chains && |w.chains[id]| == Greatest(|v.chains[id]|, n)
    requires |w.chains[id]| + |FreeSet(w.g, w.dev)| == |v.chains[id]| + |FreeSet(v.g, v.dev)| && Stray(w) == Stray(v)
    ensures Supplied(v, w, id, n)
  {
  }

  /** All free clusters are gone: they are part of the file, or of no file when the file had none before. */
  ghost predicate UsedUp(v: Volume, w: Volume, id: nat, node: Node) {
    && id in v.chains && id in w.chains && FreeSet(w.g, w.dev) == {}
    && (node.first != 0 ==> |w.chains[id]| == |v.chains[id]| + |FreeSet(v.g, v.dev)| && Stray(w) == Stray(v))
    && (node.first == 0 ==> w.chains[id] == [] && Stray(w) == Stray(v) + FreeSet(v.g, v.dev))
  }

  /** A failed write loses clusters exactly when the file had none and there were free ones. */
  lemma ClustersLost(v: Volume, w: Volume, id: nat, node: Node)
    requires UsedUp(v, w, id, node)
    ensures Stray(w) == Stray(v) <==> node.first != 0 || FreeSet(v.g, v.dev) == {}
  {
    hide FreeSet, Stray;
    FreeNotStray(v);
    if node.first == 0 && FreeSet(v.g, v.dev) != {} {
      var c :| c in FreeSet(v.g, v.dev);
      assert c in Stray(w) && c !in Stray(v);
    }
  }

  class FatFs {
    const g: Geometry
    var dev: seq<nat>
    var nodes: map<nat, Node>
    ghost var chains: map<nat, seq<nat>>
    ghost var owner: map<nat, Link>
    /** What the chains hold, up to and beyond the size of the file. */
    ghost var held: map<nat, seq<nat>>

    ghost function Vol(): Volume
      reads this
    {
      Volume(g, dev, chains, owner)
    }

    ghost predicate Valid()
      reads this
    {
      AllOk(Vol(), nodes, held) && Entered(dev, nodes) && Separate(nodes)
    }

    /** The bytes of a file: what its chain holds up to its size. */
    ghost function File(id: nat): seq<nat>
      requires Valid() && id in nodes && !nodes[id].isDir
      reads this
    {
      assert FileOk(Vol(), nodes, held, id);
      held[id][..nodes[id].size]
    }

    /** What the chain holds beyond the size of the file is zero. */
    ghost predicate Clean(id: nat)
      requires Valid() && id in nodes && !nodes[id].isDir
      reads this
    {
      assert FileOk(Vol(), nodes, held, id);
      ZeroFrom(held[id], nodes[id].size)
    }

    /** A mounted volume, with the handles of its open files and directories. */
    constructor (geometry: Geometry, bytes: seq<nat>, handles: map<nat, Node>, ghost ch: map<nat, seq<nat>>,
      ghost own: map<nat, Link>, ghost contents: map<nat, seq<nat>>)
      requires AllOk(Volume(geometry, bytes, ch, own), handles, contents)
      requires Entered(bytes, handles) && Separate(handles)
      ensures Valid() && g == geometry && dev == bytes && nodes == handles && chains == ch && held == contents
      ensures owner == own
    {
      g, dev, nodes, chains, owner, held := geometry, bytes, handles, ch, own, contents;
    }

    method ReadFatEntry(c: nat) returns (r: Result<nat, FsError>)
      requires Fits(g, dev)
      ensures r == if 4 * c + 4 > g.fatSize then Err(Invalid) else Ok(Entry(g, dev, c))
    {
      var off := g.fatOffset + c * 4;
      if off + 4 > g.fatOffset + g.fatSize { return Err(Invalid); }
      CopyOrder(g, 0, g.numFats);
      r := Ok(Word(dev[off..off + 4]) % ENTRY_MASK);
    }

    method WriteFatEntry(c: nat, v: nat) returns (r: Result<(), FsError>)
      requires Fits(g, dev)
      modifies this`dev
      ensures r.Ok? <==> 4 * c + 4 <= g.fatSize
      ensures r.Err? ==> dev == old(dev)
      ensures r.Ok? ==> SameButEntry(g, old(dev), dev, c) && Entry(g, dev, c) == v % ENTRY_MASK
    {
      hide CopyBase, DataBase, Entry, Data, Word, WordBytes, CopiesEqual, InRange;
      var off := g.fatOffset + c * 4;
      if off + 4 > g.fatOffset + g.fatSize { return Err(Invalid); }
      var bytes := WordBytes(v % ENTRY_MASK);
      var k := 0;
      while k < g.numFats
        invariant 0 <= k <= g.numFats && Fits(g, old(dev))
        invariant dev == WrittenCopies(g, old(dev), c, bytes, k)
      {
        var fatOff := off + k * g.fatSize;
        assert fatOff == CopyBase(g, k) + 4 * c by { BaseOf(g, k); }
        CopyOrder(g, k, g.numFats);
        dev := Splice(dev, fatOff, bytes);
        k := k + 1;
      }
      EntryWritten(g, old(dev), c, v);
      r := Ok(());
    }

    /** Overwrites part of a cluster. */
    method WriteInCluster(c: nat, at: nat, bytes: seq<nat>)
      requires Fits(g, dev) && InRange(g, c) && at + |bytes| <= g.clusterSize
      modifies this`dev
      ensures SameButData(g, old(dev), dev, c) && Data(g, dev, c) == Splice(Data(g, old(dev), c), at, bytes)
    {
      hide CopyBase, DataBase, Entry, Data, CopiesEqual, Splice;
      ClusterWritten(g, dev, c, at, bytes);
      dev := Splice(dev, DataBase(g, c) + at, bytes);
    }

    /** The first free cluster, marked as the end of a chain and zeroed. */
    method AllocateCluster() returns (r: Result<nat, FsError>)
      requires Sound(Vol())
      modifies this`dev
      ensures r.Ok? ==> Claimed(g, old(dev), dev, r.value) && forall c: nat :: InRange(g, c) && c < r.value ==>
        Entry(g, old(dev), c) != 0
      ensures r.Err? ==> dev == old(dev) && Full(g, dev)
    {
      hide ChainOk, OwnerOk, Entry, Data, CopiesEqual;
      var max := g.clusterCount + 2;
      var cluster := 2;
      while cluster < max
        invariant 2 <= cluster <= max
        invariant dev == old(dev)
        invariant forall c: nat :: InRange(g, c) && c < cluster ==> Entry(g, dev, c) != 0
      {
        var val := ReadFatEntry(cluster);
        if val.Err? { return Err(Invalid); }
        if val.value == 0 {
          var w := WriteFatEntry(cluster, FAT_EOC);
          WriteInCluster(cluster, 0, Zeros(g.clusterSize));
          return Ok(cluster);
        }
        cluster := cluster + 1;
      }
      r := Err(NoDev);
    }

    method NextCluster(c: nat) returns (r: Result<Option<nat>, FsError>)
      requires Fits(g, dev)
      ensures r == if 4 * c + 4 > g.fatSize then Err(Invalid)
        else Ok(if Entry(g, dev, c) >= END_MARK then None else Some(Entry(g, dev, c)))
    {
      var val := ReadFatEntry(c);
      if val.Err? { return Err(val.error); }
      r := Ok(if val.value >= 0x0FFF_FFF8 then None else Some(val.value));
    }

    /** Links a fresh cluster behind the last one. */
    method GrowChain(cluster: nat, ghost id: nat, ghost v0: Volume) returns (r: Result<nat, FsError>)
      requires Sound(Vol()) && id in chains && chains[id] != [] && cluster == chains[id][|chains[id]| - 1]
      requires Grew(v0, Vol(), id) && Spends(v0, Vol(), id)
      modifies this`dev, this`chains, this`owner
      ensures Sound(Vol()) && Grew(v0, Vol(), id) && chains.Keys == old(chains.Keys) && Spends(v0, Vol(), id)
      ensures r.Ok? ==> chains[id] == old(chains[id]) + [r.value]
      ensures r.Err? ==> chains == old(chains) && dev == old(dev) && owner == old(owner) && Fits(g, dev) && Full(g, dev)
    {
      hide ChainOk, OwnerOk, LinkOk, Entry, Data, CopiesEqual, Fits, InRange, Grew, Sound, SameButEntry, Full, Spends;
      ghost var v := Vol();
      SoundFits(v);
      ChainsApart(v, id, |chains[id]| - 1, id, |chains[id]| - 1);
      RangeInTable(g, cluster);
      r := AllocateCluster();
      if r.Err? { return; }
      RangeInTable(g, r.value);
      ghost var n := dev;
      var w := WriteFatEntry(cluster, r.value);
      SmallCluster(v, r.value);
      GrewExtend(v, n, dev, id, r.value);
      ghost var u := Extended(v.(dev := n), dev, id, r.value);
      GrewTrans(v0, v, u, id);
      SpendsExtend(v, n, dev, id, r.value);
      SpendsTrans(v0, v, u, id);
      SoundFits(u);
      w := WriteFatEntry(r.value, FAT_EOC);
      SameEntryAgain(v0, u, dev, r.value, id);
      SameKeepsEntries(g, u.dev, dev, r.value);
      SpendsKept(v0, u, dev, id);
      chains, owner := chains[id := chains[id] + [r.value]], owner[r.value := Link(id, |chains[id]|)];
    }

    /** The cluster at index `idx` of the chain, growing the chain as needed. */
    method EnsureCluster(first0: nat, idx: nat, ghost id: nat) returns (r: Result<(nat, nat), FsError>)
      requires Sound(Vol()) && id in chains && first0 == FirstOf(chains[id])
      modifies this`dev, this`chains, this`owner
      ensures Sound(Vol()) && Grew(old(Vol()), Vol(), id) && chains.Keys == old(chains.Keys)
      ensures Spends(old(Vol()), Vol(), id)
      ensures r.Ok? ==> idx < |chains[id]| && r.value == (chains[id][0], chains[id][idx])
      ensures r.Ok? ==> |chains[id]| == Greatest(|old(chains[id])|, idx + 1)
      ensures r.Err? ==> Fits(g, dev) && Full(g, dev) && |chains[id]| <= idx
    {
      hide ChainOk, OwnerOk, LinkOk, Entry, Data, CopiesEqual, Fits, InRange, Grew, Sound, Claimed, SameButEntry, Full,
        Spends;
      ghost var v0 := Vol();
      GrewRefl(v0, id);
      SpendsNone(v0, id);
      SoundFits(v0);
      FirstCluster(v0, id);
      var first, cluster := first0, first0;
      if cluster == 0 {
        var taken := AllocateCluster();
        if taken.Err? { return Err(taken.error); }
        GrewStart(v0, dev, id, taken.value);
        SpendsStart(v0, dev, id, taken.value);
        chains, owner := chains[id := [taken.value]], owner[taken.value := Link(id, 0)];
        cluster := taken.value;
        first := cluster;
      }
      var i := 0;
      while i < idx
        invariant 0 <= i <= idx && Sound(Vol()) && Grew(v0, Vol(), id) && chains.Keys == old(chains.Keys)
        invariant Spends(v0, Vol(), id)
        invariant i < |chains[id]| && cluster == chains[id][i] && first == chains[id][0]
        invariant |chains[id]| == Greatest(|old(chains[id])|, i + 1)
      {
        SoundFits(Vol());
        ChainsApart(Vol(), id, i, id, i);
        RangeInTable(g, cluster);
        var next := NextCluster(cluster);
        if next.Err? { assert false; }
        if next.value.Some? {
          cluster := next.value.value;
        } else {
          var grown := GrowChain(cluster, id, v0);
          if grown.Err? { return Err(grown.error); }
          cluster := grown.value;
        }
        i := i + 1;
      }
      r := Ok((first, cluster));
    }

    /** Frees a chain cluster by cluster, following it to its end mark. */
    method FreeChain(start: nat, ghost id: nat)
      requires Sound(Vol()) && id in chains && chains[id] != [] && start == chains[id][0]
      modifies this`dev, this`chains, this`owner
      ensures Sound(Vol()) && Vol() == Dropped(old(Vol()), id).(dev := dev)
      ensures Fits(g, old(dev)) && Freed(g, old(dev), dev, old(chains[id]), |old(chains[id])|)
    {
      hide ChainOk, OwnerOk, LinkOk, Entry, Data, CopiesEqual, Fits, InRange, Sound, SameButEntry, Freed;
      ghost var v0, ch := Vol(), chains[id];
      DropChain(v0, id);
      SoundFits(v0);
      NoneFreed(g, dev, ch);
      chains, owner := Dropped(v0, id).chains, Dropped(v0, id).owner;
      ghost var w0 := Vol();
      var cluster := start;
      ghost var k := 0;
      while true
        invariant 0 <= k < |ch| && cluster == ch[k] && Sound(Vol()) && Vol() == w0.(dev := dev)
        invariant Freed(g, v0.dev, dev, ch, k)
        decreases |ch| - k
      {
        SoundFits(Vol());
        StillLinked(v0, id, dev, k);
        RangeInTable(g, cluster);
        var next := NextCluster(cluster);
        ghost var before := dev;
        var w := WriteFatEntry(cluster, 0);
        DropUnowned(v0, id, k);
        UnownedEntry(w0.(dev := before), dev, cluster);
        OneFreed(g, v0.dev, before, dev, ch, k);
        if next.Err? { assert false; }
        if next.value.None? { break; }
        cluster := next.value.value;
        k := k + 1;
      }
    }

    method ReadCluster(c: nat) returns (b: seq<nat>)
      requires Fits(g, dev) && InRange(g, c)
      ensures b == Data(g, dev, c) && |b| == g.clusterSize
    {
      ClusterOrder(g, c, c);
      var off := g.dataOffset + (c - 2) * g.clusterSize;
      b := dev[off..off + g.clusterSize];
    }

    /** Writes the part of `buf` that belongs to cluster `idx`, growing the chain up to it. */
    method WriteOne(offset: nat, buf: seq<nat>, first: nat, idx: nat, ghost id: nat, ghost data: seq<nat>,
                    ghost v0: Volume)
      returns (r: Result<nat, FsError>)
      requires Writing(v0, Vol(), id, data, offset, buf, idx) && first == FirstOf(chains[id]) && Spends(v0, Vol(), id)
      requires Pos(g.clusterSize, idx) < offset + |buf| && offset < Pos(g.clusterSize, idx) + g.clusterSize
      modifies this`dev, this`chains, this`owner
      ensures Sound(Vol()) && Beside(v0, Vol(), id) && id in chains && v0.chains[id] <= chains[id]
      ensures Spends(v0, Vol(), id)
      ensures r.Ok? ==> Writing(v0, Vol(), id, data, offset, buf, idx + 1) && r.value == FirstOf(chains[id])
      ensures r.Ok? ==> |chains[id]| == Greatest(|old(chains[id])|, idx + 1)
      ensures r.Err? ==> Writing(v0, Vol(), id, data, offset, buf, idx) && |chains[id]| <= idx && Full(g, dev)
    {
      hide ChainOk, OwnerOk, LinkOk, Entry, Data, CopiesEqual, Fits, InRange, Grew, Sound, Full, Partly, Pos, Beside,
        AllInRange, SameButData, Splice, Limit, Patched, Spends;
      ghost var v := Vol();
      var cur := EnsureCluster(first, idx, id);
      GrewBeside(v0, v, Vol(), id);
      GrewPrefix(v, Vol(), id);
      SpendsTrans(v0, v, Vol(), id);
      ghost var w := Vol();
      ChainInRange(w, id);
      LimitFits(offset, offset + |buf|, g.clusterSize, idx, |v.chains[id]|);
      GrewPartly(v, w, id, data, offset, buf, Limit(offset, offset + |buf|, Pos(g.clusterSize, idx)));
      if cur.Err? { return Err(cur.error); }
      var cluster := cur.value.1;
      InRangeAt(g, chains[id], idx);
      var clusterOff := idx * g.clusterSize;
      PosOf(g.clusterSize, idx);
      var clusterBuf := ReadCluster(cluster);
      var patched := Patch(clusterBuf, offset, buf, clusterOff);
      WriteInCluster(cluster, 0, patched);
      WholeSplice(clusterBuf, patched);
      PatchBeside(v0, w, dev, id, idx);
      DataKeepsEntries(g, w.dev, dev, cluster);
      SpendsKept(v0, w, dev, id);
      SoundFits(Vol());
      SliceWritten(g, w.dev, dev, chains[id], data, offset, buf, idx);
      NextPos(g.clusterSize, idx);
      r := Ok(cur.value.0);
    }

    /** Writes the clusters from the one that holds `offset` to the end of `buf`, growing the chain. */
    method WriteClusters(offset: nat, buf: seq<nat>, first0: nat, ghost id: nat, ghost data: seq<nat>)
      returns (r: Result<nat, FsError>)
      requires Sound(Vol()) && id in chains && first0 == FirstOf(chains[id]) && buf != []
      requires AllInRange(g, chains[id]) && ChainHolds(g, dev, chains[id], data)
      modifies this`dev, this`chains, this`owner
      ensures Sound(Vol()) && Beside(old(Vol()), Vol(), id) && id in chains && old(chains[id]) <= chains[id]
      ensures Spends(old(Vol()), Vol(), id)
      ensures r.Ok? <==> offset + |buf| <= Pos(g.clusterSize, |old(chains[id])| + |FreeSet(g, old(dev))|)
      ensures r.Ok? ==> chains[id] != [] && r.value == chains[id][0] && Fits(g, dev) && AllInRange(g, chains[id])
      ensures r.Ok? ==> ChainHolds(g, dev, chains[id], Written(data, offset, buf))
      ensures r.Ok? ==> |chains[id]| == Greatest(|old(chains[id])|, ClustersFor(g, offset + |buf|))
      ensures r.Err? ==> Fits(g, dev) && Full(g, dev) && AllInRange(g, chains[id])
      ensures r.Err? ==> Pos(g.clusterSize, |chains[id]|) < offset + |buf|
      ensures r.Err? ==>
        ChainHolds(g, dev, chains[id], Short(data, offset, buf, Room(g.clusterSize, |chains[id]|, offset)))
    {
      hide ChainOk, OwnerOk, LinkOk, Entry, Data, CopiesEqual, Fits, InRange, Grew, Sound, Full, Partly, Pos, Written,
        Beside, AllInRange, Limit, Short, Room, FreeSet, Stray;
      ghost var v0 := Vol();
      SoundFits(v0);
      FitsSize(g, dev);
      BesideSelf(v0, id);
      SpendsNone(v0, id);
      var startIdx := offset / g.clusterSize;
      var endOffset := offset + |buf|;
      var endIdx := (endOffset + g.clusterSize - 1) / g.clusterSize;
      assert endIdx == ClustersFor(g, endOffset);
      WriteBounds(offset, endOffset, g.clusterSize);
      NotYet(g, dev, chains[id], data, offset, buf, startIdx);
      var first := first0;
      var idx := startIdx;
      while idx < endIdx
        invariant startIdx <= idx <= endIdx && Writing(v0, Vol(), id, data, offset, buf, idx)
        invariant first == FirstOf(chains[id]) && Spends(v0, Vol(), id)
        invariant |chains[id]| == if idx == startIdx then |v0.chains[id]| else Greatest(|v0.chains[id]|, idx)
      {
        IndexBounds(offset, endOffset, g.clusterSize, idx);
        var one := WriteOne(offset, buf, first, idx, id, data, v0);
        if one.Err? {
          CutShort(g, dev, chains[id], data, offset, buf, idx);
          FullSet(g, dev);
          return Err(one.error);
        }
        first := one.value;
        idx := idx + 1;
      }
      AllWritten(g, dev, chains[id], data, offset, buf, endIdx);
      WrittenMeaning(data, offset, buf);
      Spread(|chains[id]|, |v0.chains[id]| + |FreeSet(g, v0.dev)|, g.clusterSize);
      r := Ok(first);
    }

    /** Records the first cluster and the size of the node in its directory entry. */
    method UpdateEntry(id: nat)
      requires Sound(Vol()) && id in nodes && NodeOk(Vol(), nodes, id)
      modifies this`dev
      ensures nodes[id].entryOffset.None? ==> dev == old(dev)
      ensures nodes[id].entryOffset.Some? ==>
        && nodes[id].entryOffset.value + DIR_ENTRY <= |dev| == |old(dev)|
        && exists c :: EntryOk(old(Vol()), nodes, c, nodes[id].entryOffset.value) && SameButData(g, old(dev), dev, c)
      ensures Says(dev, nodes[id])
      ensures nodes[id].entryOffset.Some? ==>
        KeptOutside(old(dev), dev, nodes[id].entryOffset.value, nodes[id].entryOffset.value + DIR_ENTRY)
    {
      hide ChainOk, OwnerOk, LinkOk, Entry, CopiesEqual, Recorded, EntryFirst, EntrySize, DataBase, CopyBase;
      if nodes[id].entryOffset.None? { return; }
      var o := nodes[id].entryOffset.value;
      ghost var c :| EntryOk(Vol(), nodes, c, o);
      SmallFirst(Vol(), id);
      ClusterOrder(g, c, c);
      var entry := dev[o..o + DIR_ENTRY];
      RecordRoundTrip(entry, nodes[id].first, nodes[id].size);
      entry := Recorded(entry, nodes[id].first, nodes[id].size);
      ClusterWritten(g, dev, c, o - DataBase(g, c), entry);
      dev := Splice(dev, o, entry);
      assert dev[o..o + DIR_ENTRY] == entry;
    }

    /** Writes `buf` at `offset`. When clusters run out, as many bytes as the chain has room for are
        written, the size stays, and the volume is full. */
    method Write(id: nat, offset: nat, buf: seq<nat>) returns (r: Result<nat, FsError>)
      requires Valid() && id in nodes
      modifies this
      ensures Valid() && nodes.Keys == old(nodes.Keys) && forall k :: k in nodes && k != id ==>
        nodes[k] == old(nodes[k])
      ensures Says(dev, nodes[id])
      ensures old(nodes[id].isDir) ==> r == Err(Invalid)
      ensures old(nodes[id].isDir) || buf == [] ==> dev == old(dev) && nodes == old(nodes) && held == old(held)
      ensures !old(nodes[id].isDir) ==> !nodes[id].isDir && id in old(held)
      ensures !old(nodes[id].isDir) && buf == [] ==> r == Ok(0)
      ensures !old(nodes[id].isDir) && buf != [] ==>
        && id in old(chains)
        && (r.Ok? <==> offset + |buf| <= Pos(g.clusterSize, |old(chains[id])| + |FreeSet(g, old(dev))|))
      ensures r.Ok? && buf != [] ==> Supplied(old(Vol()), Vol(), id, ClustersFor(g, offset + |buf|))
      ensures r.Err? && !old(nodes[id].isDir) ==> UsedUp(old(Vol()), Vol(), id, old(nodes)[id])
      ensures r.Ok? && buf != [] ==> r.value == |buf| && held == old(held)[id := Written(old(held)[id], offset, buf)]
      ensures r.Ok? && buf != [] ==> nodes[id].size == Greatest(old(nodes[id].size), offset + |buf|) % U32
      ensures r.Err? && !old(nodes[id].isDir) ==> nodes == old(nodes) && Fits(g, dev) && Full(g, dev) && id in chains
      ensures r.Err? && !old(nodes[id].isDir) ==> Pos(g.clusterSize, |chains[id]|) < offset + |buf|
      ensures r.Err? && !old(nodes[id].isDir) ==>
        held == old(held)[id := Short(old(held)[id], offset, buf, Room(g.clusterSize, |chains[id]|, offset))]
      ensures forall k :: k in nodes && k != id && !nodes[k].isDir ==>
        File(k) == old(File(k)) && (Clean(k) <==> old(Clean(k)))
      ensures !old(nodes[id].isDir) && r.Ok? && buf != [] && offset + |buf| < U32 ==>
        (File(id) == Written(old(File(id)), offset, buf) <==> GapZero(old(held)[id], old(nodes[id].size), offset))
      ensures !old(nodes[id].isDir) && r.Ok? && offset + |buf| < U32 && old(Clean(id)) ==> Clean(id)
      ensures !old(nodes[id].isDir) && r.Err? && old(Clean(id)) ==>
        (Clean(id) <==> ZeroBeyond(buf, old(nodes[id].size), offset, Room(g.clusterSize, |chains[id]|, offset)))
    {
      hide ChainOk, OwnerOk, LinkOk, Entry, Data, CopiesEqual, Fits, InRange, Sound, Full, Pos, Written, Beside,
        AllInRange, ChainHolds, SameButData, NodeOk, FileOk, AllOk, Short, Room, GapZero, ZeroBeyond, ZeroFrom, FreeSet,
        Stray, Supplied, UsedUp, ClustersFor, Says, Separate;
      var node := nodes[id];
      if node.isDir { return Err(Invalid); }
      OpenFile(Vol(), nodes, held, id);
      if buf == [] { return Ok(0); }
      ghost var data := held[id];
      r := WriteData(id, offset, buf);
      if r.Err? {
        RoomFits(g.clusterSize, |chains[id]|, offset, buf);
        ShortRefines(data, node.size, offset, buf, Room(g.clusterSize, |chains[id]|, offset));
      } else if offset + |buf| < U32 {
        WriteRefines(data, node.size, offset, buf);
      }
    }

    /** Writes the clusters, and then the handle and the directory entry if there were enough of them. */
    method WriteData(id: nat, offset: nat, buf: seq<nat>) returns (r: Result<nat, FsError>)
      requires Valid() && id in nodes && !nodes[id].isDir && buf != []
      modifies this
      ensures Valid() && id in old(chains) && id in chains && id in old(held)
      ensures r.Ok? <==> offset + |buf| <= Pos(g.clusterSize, |old(chains[id])| + |FreeSet(g, old(dev))|)
      ensures r.Ok? ==> r.value == |buf| && Supplied(old(Vol()), Vol(), id, ClustersFor(g, offset + |buf|))
      ensures r.Ok? ==> held == old(held)[id := Written(old(held)[id], offset, buf)]
      ensures r.Ok? ==> nodes == old(nodes)[id := old(nodes)[id].(first := FirstOf(chains[id]),
        size := Greatest(old(nodes[id].size), offset + |buf|) % U32)]
      ensures r.Err? ==> nodes == old(nodes) && Fits(g, dev) && Full(g, dev)
      ensures r.Err? ==> UsedUp(old(Vol()), Vol(), id, nodes[id])
      ensures r.Err? ==> Pos(g.clusterSize, |chains[id]|) < offset + |buf|
      ensures r.Err? ==>
        held == old(held)[id := Short(old(held)[id], offset, buf, Room(g.clusterSize, |chains[id]|, offset))]
    {
      hide ChainOk, OwnerOk, LinkOk, Entry, Data, CopiesEqual, Fits, InRange, Sound, Full, Pos, Written, Beside,
        AllInRange, ChainHolds, SameButData, NodeOk, FileOk, AllOk, Short, Room, FreeSet, Stray, Spends, Supplied,
        UsedUp, ClustersFor, Entered, Separate;
      ghost var v0 := Vol();
      OpenFile(v0, nodes, held, id);
      var first := WriteClusters(offset, buf, nodes[id].first, id, held[id]);
      EntriesBeside(v0, Vol(), nodes, held, id);
      if first.Err? {
        FullSet(g, dev);
        GiveUp(id, offset, buf, v0);
        return Err(first.error);
      }
      Finish(id, offset, buf, first.value, v0);
      IsSupplied(v0, Vol(), id, ClustersFor(g, offset + |buf|));
      r := Ok(|buf|);
    }

    /** The handle keeps its first cluster and its size: a file that had no cluster has none. */
    ghost method GiveUp(id: nat, offset: nat, buf: seq<nat>, v0: Volume)
      requires AllOk(v0, nodes, held) && Sound(Vol()) && Beside(v0, Vol(), id) && id in nodes && !nodes[id].isDir
      requires id in held && buf != [] && Entered(dev, nodes) && Separate(nodes)
      requires id in chains && id in v0.chains && v0.chains[id] <= chains[id] && Fits(g, dev)
      requires AllInRange(g, chains[id])
      requires Pos(g.clusterSize, |chains[id]|) < offset + |buf|
      requires Spends(v0, Vol(), id) && FreeSet(g, dev) == {}
      requires ChainHolds(g, dev, chains[id], Short(held[id], offset, buf, Room(g.clusterSize, |chains[id]|, offset)))
      modifies this`chains, this`owner, this`held
      ensures Valid() && id in chains && Pos(g.clusterSize, |chains[id]|) < offset + |buf|
      ensures UsedUp(v0, Vol(), id, nodes[id])
      ensures held == old(held)[id := Short(old(held)[id], offset, buf, Room(g.clusterSize, |chains[id]|, offset))]
    {
      hide ChainOk, OwnerOk, LinkOk, Entry, Data, CopiesEqual, Fits, InRange, Sound, Full, Pos, Written, Beside,
        AllInRange, ChainHolds, NodeOk, FileOk, AllOk, Short, Room, FreeSet, Stray, Spends, Entered,
        Separate;
      var data, held0 := held[id], held;
      OpenFile(v0, nodes, held, id);
      BesideKeys(v0, Vol(), id);
      if nodes[id].first == 0 {
        ResetSound(v0, Vol(), id);
        ResetStray(v0, Vol(), id);
        var w := Reset(Vol(), id);
        chains, owner := w.chains, w.owner;
        NothingHeld(g, v0.dev, dev, data, offset, buf);
      } else {
        SpendsStray(v0, Vol(), id);
      }
      RoomFits(g.clusterSize, |chains[id]|, offset, buf);
      ShortMeaning(data, offset, buf, Room(g.clusterSize, |chains[id]|, offset));
      held := held[id := Short(data, offset, buf, Room(g.clusterSize, |chains[id]|, offset))];
      DoneWrite(v0, Vol(), nodes, nodes, held0, held, id);
    }

    /** Records the new size and the first cluster in the handle and in the directory. */
    method Finish(id: nat, offset: nat, buf: seq<nat>, first: nat, ghost v0: Volume)
      requires AllOk(v0, nodes, held) && Sound(Vol()) && Beside(v0, Vol(), id) && id in nodes && !nodes[id].isDir
      requires id in held && Spends(v0, Vol(), id) && Entered(dev, nodes) && Separate(nodes)
      requires id in chains && first == FirstOf(chains[id]) && Fits(g, dev) && AllInRange(g, chains[id])
      requires ChainHolds(g, dev, chains[id], Written(held[id], offset, buf))
      modifies this`dev, this`nodes, this`held
      ensures Valid() && held == old(held)[id := Written(old(held)[id], offset, buf)]
      ensures id in v0.chains && |chains[id]| + |FreeSet(g, dev)| == |v0.chains[id]| + |FreeSet(g, v0.dev)|
      ensures Stray(Vol()) == Stray(v0)
      ensures nodes == old(nodes)[id := old(nodes)[id].(first := first,
        size := Greatest(old(nodes[id].size), offset + |buf|) % U32)]
    {
      hide ChainOk, OwnerOk, LinkOk, Entry, Data, CopiesEqual, Fits, InRange, Sound, Full, Pos, Written, Beside,
        AllInRange, ChainHolds, SameButData, NodeOk, FileOk, AllOk, Stray, FreeSet, Spends, Entered, Separate, Says,
        KeptOutside;
      SpendsStray(v0, Vol(), id);
      OpenFile(v0, nodes, held, id);
      BesideKeys(v0, Vol(), id);
      WrittenMeaning(held[id], offset, buf);
      ghost var nodes0, held0 := nodes, held;
      var newSize := Greatest(nodes[id].size, offset + |buf|) % U32;
      nodes := nodes[id := nodes[id].(first := first, size := newSize)];
      held := held[id := Written(held[id], offset, buf)];
      ghost var v1 := Vol();
      DoneWrite(v0, v1, nodes0, nodes, held0, held, id);
      NodeOf(v1, nodes, held, id);
      UpdateEntry(id);
      EntryWrite(v1, dev, nodes, held, id);
      EntryKeepsStray(v1, dev, nodes, id);
      EntryEntered(v1.dev, dev, nodes0, nodes, id);
    }

    /** Follows the chain to the cluster that holds `offset`. */
    method Seek(first: nat, offset: nat, ghost id: nat, ghost data: seq<nat>)
      returns (cluster: nat, skip: nat, ghost k: nat)
      requires Sound(Vol()) && id in chains && first == FirstOf(chains[id]) && Fits(g, dev) && AllInRange(g, chains[id])
      requires ChainHolds(g, dev, chains[id], data) && offset < |data|
      ensures k < |chains[id]| && cluster == chains[id][k] && skip < g.clusterSize
      ensures Pos(g.clusterSize, k) + skip == offset
    {
      hide ChainOk, OwnerOk, LinkOk, Entry, Data, CopiesEqual, Fits, InRange, Sound, Pos, AllInRange, Partly;
      ghost var ch := chains[id];
      FitsSize(g, dev);
      NoRoom(g);
      cluster, skip, k := first, offset, 0;
      while skip >= g.clusterSize
        invariant 0 <= k < |ch| && cluster == ch[k] && Pos(g.clusterSize, k) + skip == offset
      {
        MoreToCome(Vol(), id, data, k, offset);
        var next := NextCluster(cluster);
        if next.Err? || next.value.None? { assert false; }
        cluster := next.value.value;
        skip := skip - g.clusterSize;
        k := k + 1;
      }
    }

    /** Copies `total` bytes into `buf`, cluster by cluster, starting `skip0` bytes into the `k0`th. */
    method ReadFrom(cluster0: nat, skip0: nat, offset: nat, total: nat, buf: array<nat>, ghost id: nat,
                    ghost data: seq<nat>, ghost k0: nat)
      returns (written: nat)
      requires Sound(Vol()) && id in chains && Fits(g, dev) && AllInRange(g, chains[id])
      requires ChainHolds(g, dev, chains[id], data)
      requires k0 < |chains[id]| && cluster0 == chains[id][k0] && skip0 < g.clusterSize
      requires Pos(g.clusterSize, k0) + skip0 == offset
      requires offset + total <= |data| && total <= buf.Length
      modifies buf
      ensures written == total && buf[..total] == data[offset..offset + total]
      ensures forall j :: total <= j < buf.Length ==> buf[j] == old(buf[j])
    {
      hide ChainOk, OwnerOk, LinkOk, Entry, Data, CopiesEqual, Fits, InRange, Sound, Pos, AllInRange, ChainHolds;
      ghost var ch := chains[id];
      var cluster, skip, remaining := cluster0, skip0, total;
      written := 0;
      ghost var k := k0;
      while true
        invariant 0 <= k < |ch| && cluster == ch[k] && 0 <= skip < g.clusterSize
        invariant 0 <= written <= total && remaining == total - written
        invariant Pos(g.clusterSize, k) + skip == offset + written
        invariant forall j :: 0 <= j < written ==> buf[j] == data[offset + j]
        invariant forall j :: written <= j < buf.Length ==> buf[j] == old(buf[j])
        decreases |ch| - k
      {
        ChunkHeld(g, dev, ch, data, k);
        var clusterBuf := ReadCluster(cluster);
        var available := |clusterBuf| - skip;
        var take := if available < remaining then available else remaining;
        CopyInto(buf, written, clusterBuf[skip..skip + take]);
        forall j | written <= j < written + take ensures buf[j] == data[offset + j] {
          assert clusterBuf[skip + (j - written)] == data[Pos(g.clusterSize, k) + (skip + (j - written))];
        }
        written := written + take;
        remaining := remaining - take;
        if remaining == 0 { break; }
        skip := 0;
        MoreToCome(Vol(), id, data, k, offset + written);
        var next := NextCluster(cluster);
        if next.Err? || next.value.None? { assert false; }
        cluster := next.value.value;
        k := k + 1;
      }
      assert buf[..total] == data[offset..offset + total];
    }

    /** Reads into `buf` exactly the bytes the in-memory file would give. */
    method Read(id: nat, offset: nat, buf: array<nat>) returns (r: Result<nat, FsError>)
      requires Valid() && id in nodes
      modifies buf
      ensures nodes[id].isDir ==> r == Err(Invalid) && buf[..] == old(buf[..])
      ensures !nodes[id].isDir ==>
        r.Ok? && r.value <= buf.Length && buf[..r.value] == Part(File(id), offset, buf.Length)
      ensures r.Ok? ==> forall k :: r.value <= k < buf.Length ==> buf[k] == old(buf[k])
    {
      hide Sound, Pos, AllInRange, NodeOk, FileOk, AllOk, Fits;
      if nodes[id].isDir { return Err(Invalid); }
      OpenFile(Vol(), nodes, held, id);
      ghost var data := held[id];
      NoRoom(g);
      if nodes[id].first == 0 || nodes[id].size == 0 { return Ok(0); }
      if offset >= nodes[id].size { return Ok(0); }
      var remaining := if buf.Length < nodes[id].size - offset then buf.Length else nodes[id].size - offset;
      var cluster, skip, k := Seek(nodes[id].first, offset, id, data);
      var written := ReadFrom(cluster, skip, offset, remaining, buf, id, data, k);
      PartOf(data, nodes[id].size, offset, buf.Length);
      r := Ok(written);
    }
  }

  lemma PartOf(h: seq<nat>, n: nat, offset: nat, len: nat)
    requires offset < n <= |h|
    ensures Part(h[..n], offset, len) == h[offset..offset + if len < n - offset then len else n - offset]
  {
  }

  /** As long as bytes of the file follow, so does a cluster. */
  lemma MoreToCome(v: Volume, id: nat, data: seq<nat>, k: nat, at: nat)
    requires Sound(v) && id in v.chains && k < |v.chains[id]| && Fits(v.g, v.dev) && AllInRange(v.g, v.chains[id])
    requires ChainHolds(v.g, v.dev, v.chains[id], data) && at < |data|
    requires Pos(v.g.clusterSize, k) + v.g.clusterSize <= at
    ensures k + 1 < |v.chains[id]| && Pos(v.g.clusterSize, k + 1) == Pos(v.g.clusterSize, k) + v.g.clusterSize
    ensures 4 * v.chains[id][k] + 4 <= v.g.fatSize
    ensures Entry(v.g, v.dev, v.chains[id][k]) == v.chains[id][k + 1] < END_MARK
  {
    hide Pos, Entry, Data;
    NextPos(v.g.clusterSize, k);
    Spread(|v.chains[id]|, k + 1, v.g.clusterSize);
    ChainsApart(v, id, k, id, k);
  }

  method CopyInto(buf: array<nat>, at: nat, src: seq<nat>)
    requires at + |src| <= buf.Length
    modifies buf
    ensures forall k :: 0 <= k < buf.Length ==> buf[k] == if at <= k < at + |src| then src[k - at] else old(buf[k])
  {
    var i := 0;
    while i < |src|
      invariant 0 <= i <= |src|
      invariant forall k :: 0 <= k < buf.Length ==> buf[k] == if at <= k < at + i then src[k - at] else old(buf[k])
    {
      buf[at + i] := src[i];
      i := i + 1;
    }
  }

  lemma ChunkHeld(g: Geometry, dev: seq<nat>, ch: seq<nat>, data: seq<nat>, k: nat)
    requires Fits(g, dev) && AllInRange(g, ch) && ChainHolds(g, dev, ch, data) && k < |ch|
    ensures InRange(g, ch[k])
    ensures forall r: nat :: r < g.clusterSize && Pos(g.clusterSize, k) + r < |data| ==>
      Data(g, dev, ch[k])[r] == data[Pos(g.clusterSize, k) + r]
  {
    hide Data, Fits, Pos;
  }

  /** No cluster, no bytes. */
  lemma NoRoom(g: Geometry)
    ensures Pos(g.clusterSize, 0) == 0
  {
  }

  lemma SmallFirst(v: Volume, id: nat)
    requires Sound(v) && id in v.chains
    ensures FirstOf(v.chains[id]) < U32
  {
    if v.chains[id] != [] { ChainsApart(v, id, 0, id, 0); }
  }

  lemma OpenFile(v: Volume, nodes: map<nat, Node>, held: map<nat, seq<nat>>, id: nat)
    requires AllOk(v, nodes, held) && id in nodes && !nodes[id].isDir
    ensures Sound(v) && id in v.chains && Fits(v.g, v.dev) && AllInRange(v.g, v.chains[id])
    ensures id in held && ChainHolds(v.g, v.dev, v.chains[id], held[id])
    ensures nodes[id].first == FirstOf(v.chains[id]) && nodes[id].size <= |held[id]| && nodes[id].size < U32
    ensures FirstOf(v.chains[id]) == 0 <==> v.chains[id] == []
  {
    hide ChainHolds, AllInRange, Sound, Fits, EntryOk;
    assert NodeOk(v, nodes, id) && FileOk(v, nodes, held, id);
    FirstCluster(v, id);
  }

  lemma NodeOf(v: Volume, nodes: map<nat, Node>, held: map<nat, seq<nat>>, id: nat)
    requires AllOk(v, nodes, held) && id in nodes
    ensures Sound(v) && NodeOk(v, nodes, id)
  {
  }

  /** A chain without clusters holds nothing, whatever was to be written. */
  lemma NothingHeld(g: Geometry, dev: seq<nat>, n: seq<nat>, data: seq<nat>, offset: nat, buf: seq<nat>)
    requires Fits(g, dev) && Fits(g, n) && ChainHolds(g, dev, [], data) && buf != []
    ensures Pos(g.clusterSize, 0) < offset + |buf|
    ensures AllInRange(g, []) && ChainHolds(g, n, [], Short(data, offset, buf, Room(g.clusterSize, 0, offset)))
  {
  }

  lemma SelfKept(v: Volume, w: Volume, id: nat, nodes: map<nat, Node>, nodes2: map<nat, Node>)
    requires Beside(v, w, id) && id in nodes && !nodes[id].isDir && id in nodes2 && nodes2 == nodes[id := nodes2[id]]
    requires NodeOk(v, nodes, id) && id in w.chains && nodes2[id].first == FirstOf(w.chains[id])
    requires nodes2[id].size < U32
    requires nodes2[id].entryOffset == nodes[id].entryOffset
    ensures NodeOk(w, nodes2, id)
  {
    hide Beside, EntryOk;
    if nodes[id].entryOffset.Some? { EntryKept(v, w, id, nodes, nodes2, nodes[id].entryOffset.value); }
  }

  /** After a change of one file, complete or not, everything is in order again. */
  lemma DoneWrite(v: Volume, w: Volume, nodes: map<nat, Node>, nodes2: map<nat, Node>, held: map<nat, seq<nat>>,
                  held2: map<nat, seq<nat>>, id: nat)
    requires AllOk(v, nodes, held) && Sound(w) && Beside(v, w, id) && id in nodes && !nodes[id].isDir
    requires id in nodes2 && nodes2 == nodes[id := nodes2[id]] && id in held2 && held2 == held[id := held2[id]]
    requires !nodes2[id].isDir && nodes2[id].entryOffset == nodes[id].entryOffset && nodes2[id].size < U32
    requires id in w.chains && nodes2[id].first == FirstOf(w.chains[id]) && nodes2[id].size <= |held2[id]|
    requires Fits(w.g, w.dev) && AllInRange(w.g, w.chains[id]) && ChainHolds(w.g, w.dev, w.chains[id], held2[id])
    ensures AllOk(w, nodes2, held2)
  {
    hide Sound, Beside, NodeOk, ChainHolds, AllInRange, Fits;
    BesideKeys(v, w, id);
    forall k | k in nodes && k != id ensures NodeOk(w, nodes2, k) && (!nodes[k].isDir ==> FileOk(w, nodes2, held2, k)) {
      OthersKept(v, w, id, nodes, nodes2, held, held2, k);
    }
    SelfKept(v, w, id, nodes, nodes2);
  }

  lemma EntryWrite(v: Volume, n: seq<nat>, nodes: map<nat, Node>, held: map<nat, seq<nat>>, id: nat)
    requires AllOk(v, nodes, held) && id in nodes && !nodes[id].isDir
    requires nodes[id].entryOffset.None? ==> n == v.dev
    requires nodes[id].entryOffset.Some? ==>
      exists c :: EntryOk(v, nodes, c, nodes[id].entryOffset.value) && SameButData(v.g, v.dev, n, c)
    ensures AllOk(v.(dev := n), nodes, held)
  {
    hide Sound, FileOk, NodeOk, SameButData, DataBase, InRange;
    if nodes[id].entryOffset.None? {
      assert v.(dev := n) == v;
    } else {
      var c :| EntryOk(v, nodes, c, nodes[id].entryOffset.value) && SameButData(v.g, v.dev, n, c);
      SameEntries(v, n, c);
      forall k | k in nodes
        ensures NodeOk(v.(dev := n), nodes, k)
        ensures !nodes[k].isDir && FileOk(v, nodes, held, k) ==> FileOk(v.(dev := n), nodes, held, k)
      {
        DirectoryWrite(v, n, nodes, held, c, k);
      }
    }
  }

  lemma EntryKeepsStray(v: Volume, n: seq<nat>, nodes: map<nat, Node>, id: nat)
    requires id in nodes && (nodes[id].entryOffset.None? ==> n == v.dev)
    requires nodes[id].entryOffset.Some? ==>
      exists c :: EntryOk(v, nodes, c, nodes[id].entryOffset.value) && SameButData(v.g, v.dev, n, c)
    ensures Stray(v.(dev := n)) == Stray(v) && FreeSet(v.g, n) == FreeSet(v.g, v.dev)
  {
    hide Stray, EntryOk, SameButData, FreeSet, EntriesKept;
    if nodes[id].entryOffset.None? {
      assert v.(dev := n) == v;
    } else {
      var c :| EntryOk(v, nodes, c, nodes[id].entryOffset.value) && SameButData(v.g, v.dev, n, c);
      DataKeepsEntries(v.g, v.dev, n, c);
      KeptSpace(v, n);
    }
  }

  /** Directory entries lie in directories, so a change beside those leaves them alone. */
  lemma EntriesBeside(v: Volume, w: Volume, nodes: map<nat, Node>, held: map<nat, seq<nat>>, id: nat)
    requires AllOk(v, nodes, held) && Beside(v, w, id) && id in nodes && !nodes[id].isDir && Entered(v.dev, nodes)
    ensures Entered(w.dev, nodes)
  {
    hide Data, CopiesEqual, ChainOk, OwnerOk, FileOk, EntryFirst, EntrySize, CopyBase;
    forall k | k in nodes ensures Says(w.dev, nodes[k]) {
      assert NodeOk(v, nodes, k) && Says(v.dev, nodes[k]);
      if nodes[k].entryOffset.Some? {
        var o := nodes[k].entryOffset.value;
        var c :| EntryOk(v, nodes, c, o);
        SameBytes(v.g, v.dev, w.dev, c, o);
      }
    }
  }

  lemma SameBytes(g: Geometry, dev: seq<nat>, n: seq<nat>, c: nat, o: nat)
    requires Fits(g, dev) && Fits(g, n) && InRange(g, c) && Data(g, n, c) == Data(g, dev, c)
    requires DataBase(g, c) <= o && o + DIR_ENTRY <= DataBase(g, c) + g.clusterSize
    ensures o + DIR_ENTRY <= |dev| && o + DIR_ENTRY <= |n| && n[o..o + DIR_ENTRY] == dev[o..o + DIR_ENTRY]
  {
    hide DataBase, CopyBase, CopiesEqual, Data;
    var base := DataBase(g, c);
    DataSlice(g, dev, c, o - base, o + DIR_ENTRY - base);
    DataSlice(g, n, c, o - base, o + DIR_ENTRY - base);
  }

  lemma DataSlice(g: Geometry, dev: seq<nat>, c: nat, lo: nat, hi: nat)
    requires Fits(g, dev) && InRange(g, c) && lo <= hi <= g.clusterSize
    ensures DataBase(g, c) + hi <= |dev| && dev[DataBase(g, c) + lo..DataBase(g, c) + hi] == Data(g, dev, c)[lo..hi]
  {
    hide CopyBase, CopiesEqual;
    ClusterOrder(g, c, c);
    PartOfPart(dev, DataBase(g, c), g.clusterSize, lo, hi);
  }

  lemma PartOfPart(s: seq<nat>, a: nat, n: nat, lo: nat, hi: nat)
    requires lo <= hi <= n && a + n <= |s|
    ensures s[a + lo..a + hi] == s[a..a + n][lo..hi]
  {
    var t := s[a..a + n];
    forall i | 0 <= i < hi - lo ensures s[a + lo..a + hi][i] == t[lo..hi][i] {
    }
  }

  /** After a change beside them, the other nodes and files are as they were. */
  lemma OthersKept(v: Volume, w: Volume, id: nat, nodes: map<nat, Node>, nodes2: map<nat, Node>,
                   held: map<nat, seq<nat>>, held2: map<nat, seq<nat>>, k: nat)
    requires Sound(v) && Beside(v, w, id) && id in nodes && !nodes[id].isDir && id in nodes2
    requires nodes2 == nodes[id := nodes2[id]]
    requires !nodes2[id].isDir && id in held2 && held2 == held[id := held2[id]]
    requires k in nodes && k != id && NodeOk(v, nodes, k) && (!nodes[k].isDir ==> FileOk(v, nodes, held, k))
    ensures NodeOk(w, nodes2, k) && (!nodes[k].isDir ==> FileOk(w, nodes2, held2, k))
  {
    hide Data, Fits, InRange, Entry, CopiesEqual, Pos, Expected, DataBase;
    if nodes[k].entryOffset.Some? { EntryKept(v, w, id, nodes, nodes2, nodes[k].entryOffset.value); }
    assert ChainOk(v, k);
    forall q | 0 <= q < |v.chains[k]| ensures v.chains[k][q] in v.owner && v.owner[v.chains[k][q]].chain == k
        && InRange(v.g, v.chains[k][q]) {
      assert LinkOk(v, k, q);
    }
  }

  lemma EntryKept(v: Volume, w: Volume, id: nat, nodes: map<nat, Node>, nodes2: map<nat, Node>, o: nat)
    requires Beside(v, w, id) && id in nodes && !nodes[id].isDir && id in nodes2 && nodes2 == nodes[id := nodes2[id]]
    requires exists c :: EntryOk(v, nodes, c, o)
    ensures exists c :: EntryOk(w, nodes2, c, o)
  {
    hide Data, Fits, InRange, DataBase;
    var c :| EntryOk(v, nodes, c, o);
    assert EntryOk(w, nodes2, c, o);
  }

  /** Writing into a directory's cluster leaves the files alone. */
  lemma DirectoryWrite(v: Volume, n: seq<nat>, nodes: map<nat, Node>, held: map<nat, seq<nat>>, c: nat, k: nat)
    requires Sound(v) && SameButData(v.g, v.dev, n, c) && c in v.owner && v.owner[c].chain in nodes
    requires nodes[v.owner[c].chain].isDir
    requires k in nodes && NodeOk(v, nodes, k)
    ensures NodeOk(v.(dev := n), nodes, k)
    ensures !nodes[k].isDir && FileOk(v, nodes, held, k) ==> FileOk(v.(dev := n), nodes, held, k)
  {
    hide Data, Fits, InRange, Entry, CopiesEqual, Pos, Expected, DataBase;
    assert ChainOk(v, k);
    forall q | 0 <= q < |v.chains[k]| ensures v.chains[k][q] in v.owner && v.owner[v.chains[k][q]].chain == k
        && InRange(v.g, v.chains[k][q]) {
      assert LinkOk(v, k, q);
    }
    if nodes[k].entryOffset.Some? {
      var d :| EntryOk(v, nodes, d, nodes[k].entryOffset.value);
      assert EntryOk(v.(dev := n), nodes, d, nodes[k].entryOffset.value);
    }
  }

  /** A write to chain `id` has reached cluster `idx`. */
  ghost predicate Writing(v0: Volume, v: Volume, id: nat, data: seq<nat>, offset: nat, buf: seq<nat>, idx: nat) {
    && Sound(v) && v.g == v0.g && Beside(v0, v, id) && id in v.chains && id in v0.chains
       && v0.chains[id] <= v.chains[id]
    && Fits(v.g, v.dev) && AllInRange(v.g, v.chains[id]) && |data| <= Pos(v.g.clusterSize, |v.chains[id]|)
    && Partly(v.g, v.dev, v.chains[id], data, offset, buf, Limit(offset, offset + |buf|, Pos(v.g.clusterSize, idx)))
    && (Pos(v.g.clusterSize, idx) <= offset || idx <= |v.chains[id]|)
  }

  /** Copies into a cluster's bytes the slice of `buf` that belongs there. */
  method Patch(clusterBuf: seq<nat>, offset: nat, buf: seq<nat>, clusterOff: nat) returns (r: seq<nat>)
    requires clusterOff < offset + |buf| && offset < clusterOff + |clusterBuf|
    ensures r == Patched(clusterBuf, offset, buf, clusterOff)
  {
    var endOffset := offset + |buf|;
    var start := if offset > clusterOff then offset - clusterOff else 0;
    var end := if |clusterBuf| < endOffset - clusterOff then |clusterBuf| else endOffset - clusterOff;
    var sliceStart := clusterOff + start - offset;
    var sliceEnd := sliceStart + (end - start);
    r := clusterBuf[..start] + buf[sliceStart..sliceEnd] + clusterBuf[end..];
  }

  lemma BesideSelf(v: Volume, id: nat)
    requires Sound(v)
    ensures Beside(v, v, id)
  {
  }

  lemma BesideKeys(v: Volume, w: Volume, id: nat)
    requires Beside(v, w, id)
    ensures w.g == v.g && w.chains.Keys == v.chains.Keys
  {
  }

  lemma GrewPrefix(v: Volume, w: Volume, id: nat)
    requires Grew(v, w, id)
    ensures id in w.chains && v.chains[id] <= w.chains[id]
  {
    assert v.chains[id] == w.chains[id][..|v.chains[id]|];
  }

  lemma InRangeAt(g: Geometry, ch: seq<nat>, q: nat)
    requires AllInRange(g, ch) && q < |ch|
    ensures InRange(g, ch[q])
  {
  }

  lemma PosOf(cs: nat, q: nat)
    ensures Pos(cs, q) == q * cs
  {
  }

  lemma NextPos(cs: nat, q: nat)
    ensures Pos(cs, q + 1) == Pos(cs, q) + cs
  {
  }

  lemma WholeSplice(a: seq<nat>, b: seq<nat>)
    requires |a| == |b|
    ensures Splice(a, 0, b) == b
  {
  }

  /** Where the first and the last cluster of a write lie. */
  lemma WriteBounds(offset: nat, end: nat, cs: nat)
    requires cs >= 1 && offset < end
    ensures var s, e := offset / cs, (end + cs - 1) / cs;
      s < e && Pos(cs, s) <= offset < Pos(cs, s) + cs && end <= Pos(cs, e) && Pos(cs, e) < end + cs
  {
    hide Pos;
    Place(offset, cs);
    Place(end + cs - 1, cs);
    Spread((end + cs - 1) / cs, offset / cs, cs);
  }

  lemma IndexBounds(offset: nat, end: nat, cs: nat, idx: nat)
    requires cs >= 1 && offset < end && offset / cs <= idx < (end + cs - 1) / cs
    ensures Pos(cs, idx) < end && offset < Pos(cs, idx) + cs
  {
    hide Pos;
    WriteBounds(offset, end, cs);
    Spread(offset / cs, idx, cs);
    Spread(idx, (end + cs - 1) / cs, cs);
  }

  lemma LimitFits(offset: nat, end: nat, cs: nat, idx: nat, n: nat)
    requires Pos(cs, idx) <= offset || idx <= n
    ensures var l := Limit(offset, end, Pos(cs, idx)); l <= offset || l <= Pos(cs, n)
  {
    hide Pos;
    Spread(idx, n, cs);
  }
}
