/** How chains grow and are freed, one table entry at a time. */
module FatGrowth {
  import opened FatChains
  import opened FatContents
  import opened FatDevice

  function FirstOf(ch: seq<nat>): nat {
    if ch == [] then 0 else ch[0]
  }

  /** Nothing of other chains changed, and chain `id` only grew, by zeroed clusters. */
  ghost predicate Grew(v: Volume, w: Volume, id: nat) {
    && w.g == v.g && w.chains.Keys == v.chains.Keys && id in v.chains && Fits(v.g, v.dev) && Fits(w.g, w.dev)
    && (forall k :: k in v.chains && k != id ==> w.chains[k] == v.chains[k])
    && |v.chains[id]| <= |w.chains[id]| && w.chains[id][..|v.chains[id]|] == v.chains[id]
    && (forall c :: c in v.owner ==> c in w.owner && w.owner[c] == v.owner[c])
    && (forall c :: c in v.owner && InRange(v.g, c) ==> Data(w.g, w.dev, c) == Data(v.g, v.dev, c))
    && (forall q :: |v.chains[id]| <= q < |w.chains[id]| ==> Blank(w, w.chains[id][q]))
  }

  ghost predicate Blank(v: Volume, c: nat) {
    Fits(v.g, v.dev) && InRange(v.g, c) && c in v.owner && forall r :: 0 <= r < v.g.clusterSize ==>
      Data(v.g, v.dev, c)[r] == 0
  }

  lemma GrewRefl(v: Volume, id: nat)
    requires Sound(v) && id in v.chains
    ensures Grew(v, v, id)
  {
  }

  lemma GrewTrans(u: Volume, v: Volume, w: Volume, id: nat)
    requires Grew(u, v, id) && Grew(v, w, id)
    ensures Grew(u, w, id)
  {
    hide Data, Fits, InRange;
    assert w.chains[id][..|u.chains[id]|] == w.chains[id][..|v.chains[id]|][..|u.chains[id]|];
    forall q | |u.chains[id]| <= q < |w.chains[id]| ensures Blank(w, w.chains[id][q]) {
      if q < |v.chains[id]| {
        assert w.chains[id][q] == w.chains[id][..|v.chains[id]|][q];
        assert Blank(v, v.chains[id][q]);
      }
    }
  }

  /** A free cluster was taken: its entry is now an end mark and its bytes are zero. */
  ghost predicate Claimed(g: Geometry, dev: seq<nat>, n: seq<nat>, c: nat) {
    && Fits(g, dev) && Fits(g, n) && |n| == |dev| && InRange(g, c) && (CopiesEqual(g, dev) ==> CopiesEqual(g, n))
    && Entry(g, dev, c) == 0 && Entry(g, n, c) == FAT_EOC
       && (forall r :: 0 <= r < g.clusterSize ==> Data(g, n, c)[r] == 0)
    && (forall d: nat :: d != c && 4 * d + 4 <= g.fatSize ==> Entry(g, n, d) == Entry(g, dev, d))
    && (forall d: nat :: d != c && InRange(g, d) ==> Data(g, n, d) == Data(g, dev, d))
  }

  /** No cluster is free. */
  ghost predicate Full(g: Geometry, dev: seq<nat>)
    requires Fits(g, dev)
  {
    forall c: nat :: InRange(g, c) ==> Entry(g, dev, c) != 0
  }

  lemma ClaimSound(v: Volume, n: seq<nat>, c: nat)
    requires Sound(v) && Claimed(v.g, v.dev, n, c)
    ensures c !in v.owner && Sound(v.(dev := n))
  {
    hide Fits, CopiesEqual, Entry, Data;
    FreeUnowned(v, c);
    var w := v.(dev := n);
    forall id | id in w.chains ensures ChainOk(w, id) {
      assert ChainOk(v, id);
      forall p | 0 <= p < |w.chains[id]| ensures LinkOk(w, id, p) { assert LinkOk(v, id, p); }
    }
    forall d | d in w.owner ensures OwnerOk(w, d) { assert OwnerOk(v, d); }
  }

  lemma GrewStart(v: Volume, n: seq<nat>, id: nat, c: nat)
    requires Sound(v) && Claimed(v.g, v.dev, n, c) && id in v.chains && v.chains[id] == []
    ensures var w := Started(v.(dev := n), id, c); Sound(w) && Grew(v, w, id)
  {
    hide Fits, CopiesEqual, Entry, Data, InRange;
    ClaimSound(v, n, c);
    StartChain(v.(dev := n), id, c);
  }

  lemma GrewExtend(v: Volume, n: seq<nat>, n2: seq<nat>, id: nat, c: nat)
    requires Sound(v) && Claimed(v.g, v.dev, n, c) && id in v.chains && v.chains[id] != []
    requires var last := v.chains[id][|v.chains[id]| - 1];
      4 * last + 4 <= v.g.fatSize && SameButEntry(v.g, n, n2, last) && Entry(v.g, n2, last) == c
    ensures var w := Extended(v.(dev := n), n2, id, c); Sound(w) && Grew(v, w, id) && Entry(v.g, n2, c) == FAT_EOC
  {
    hide Fits, CopiesEqual, Entry, Data, InRange;
    ClaimSound(v, n, c);
    RangeInTable(v.g, c);
    var z := |v.chains[id]| - 1;
    assert ChainOk(v, id) && LinkOk(v, id, z);
    ExtendChain(v.(dev := n), n2, id, c);
    assert Blank(Extended(v.(dev := n), n2, id, c), c);
  }

  /** Writing the end mark over itself. */
  lemma SameEntryAgain(u: Volume, v: Volume, n: seq<nat>, c: nat, id: nat)
    requires Sound(v) && SameButEntry(v.g, v.dev, n, c) && 4 * c + 4 <= v.g.fatSize
    requires Entry(v.g, n, c) == Entry(v.g, v.dev, c)
    requires Grew(u, v, id)
    ensures Sound(v.(dev := n)) && Grew(u, v.(dev := n), id)
  {
    hide Fits, CopiesEqual, Entry, Data, InRange;
    SameEntries(v, n, c);
    forall q | |u.chains[id]| <= q < |v.chains[id]| ensures Blank(v.(dev := n),
      v.chains[id][q]) { assert Blank(v, v.chains[id][q]); }
  }

  /** The first `k` clusters of the chain are free; every other entry and all contents are as before. */
  ghost predicate Freed(g: Geometry, dev: seq<nat>, n: seq<nat>, ch: seq<nat>, k: nat) {
    && Fits(g, dev) && Fits(g, n) && k <= |ch|
    && (forall c: nat :: 4 * c + 4 <= g.fatSize ==> Entry(g, n, c) == if c in ch[..k] then 0 else Entry(g, dev, c))
    && (forall c: nat :: InRange(g, c) ==> Data(g, n, c) == Data(g, dev, c))
  }

  lemma NoneFreed(g: Geometry, dev: seq<nat>, ch: seq<nat>)
    requires Fits(g, dev)
    ensures Freed(g, dev, dev, ch, 0)
  {
  }

  lemma OneFreed(g: Geometry, dev: seq<nat>, n: seq<nat>, n2: seq<nat>, ch: seq<nat>, k: nat)
    requires Freed(g, dev, n, ch, k) && k < |ch| && SameButEntry(g, n, n2, ch[k])
    requires 4 * ch[k] + 4 <= g.fatSize && Entry(g, n2, ch[k]) == 0
    ensures Freed(g, dev, n2, ch, k + 1)
  {
    hide Entry, Data, Fits, InRange, CopiesEqual;
    assert ch[..k + 1] == ch[..k] + [ch[k]];
  }

  /** What is left of the chain can still be followed. */
  lemma StillLinked(v: Volume, id: nat, n: seq<nat>, k: nat)
    requires Sound(v) && id in v.chains && k < |v.chains[id]| && Freed(v.g, v.dev, n, v.chains[id], k)
    ensures InRange(v.g, v.chains[id][k])
    ensures var e := Entry(v.g, n, v.chains[id][k]);
      if k + 1 < |v.chains[id]| then e == v.chains[id][k + 1] && e < END_MARK else e >= END_MARK
  {
    hide Data, CopiesEqual;
    ChainsApart(v, id, k, id, k);
    forall j | 0 <= j < k ensures v.chains[id][j] != v.chains[id][k] { ChainsApart(v, id, j, id, k); }
  }

  lemma DropUnowned(v: Volume, id: nat, k: nat)
    requires Sound(v) && id in v.chains && k < |v.chains[id]|
    ensures v.chains[id][k] !in Dropped(v, id).owner
  {
    assert ChainOk(v, id) && LinkOk(v, id, k);
  }

  lemma SoundFits(v: Volume)
    requires Sound(v)
    ensures Fits(v.g, v.dev)
  {
  }

  lemma SmallCluster(v: Volume, c: nat)
    requires Sound(v) && InRange(v.g, c)
    ensures c % ENTRY_MASK == c
  {
  }

  /** Cluster numbers start above zero, so zero can stand for no chain. */
  lemma FirstCluster(v: Volume, id: nat)
    requires Sound(v) && id in v.chains
    ensures FirstOf(v.chains[id]) == 0 <==> v.chains[id] == []
  {
    if v.chains[id] != [] { ChainsApart(v, id, 0, id, 0); }
  }

  lemma BaseOf(g: Geometry, k: nat)
    ensures CopyBase(g, k) == g.fatOffset + k * g.fatSize
  {
  }

  /** Only chain `id` changed: other chains keep their clusters and their bytes. */
  ghost predicate Beside(v: Volume, w: Volume, id: nat) {
    && w.g == v.g && w.chains.Keys == v.chains.Keys && Fits(v.g, v.dev) && Fits(w.g, w.dev)
    && (forall k :: k in v.chains && k != id ==> w.chains[k] == v.chains[k])
    && (forall c :: c in v.owner && v.owner[c].chain != id ==> c in w.owner && w.owner[c] == v.owner[c])
    && (forall c :: c in v.owner && v.owner[c].chain != id && InRange(v.g, c) ==>
       Data(w.g, w.dev, c) == Data(v.g, v.dev, c))
  }

  lemma GrewBeside(u: Volume, v: Volume, w: Volume, id: nat)
    requires Beside(u, v, id) && Grew(v, w, id)
    ensures Beside(u, w, id)
  {
    hide Data, Fits, InRange;
  }

  /** Overwriting a cluster of the chain. */
  lemma PatchBeside(u: Volume, v: Volume, n: seq<nat>, id: nat, q: nat)
    requires Beside(u, v, id) && Sound(v) && id in v.chains && q < |v.chains[id]|
    requires SameButData(v.g, v.dev, n, v.chains[id][q])
    ensures Beside(u, v.(dev := n), id) && Sound(v.(dev := n))
    ensures forall p :: 0 <= p < |v.chains[id]| && p != q ==>
      InRange(v.g, v.chains[id][p]) && Data(v.g, n, v.chains[id][p]) == Data(v.g, v.dev, v.chains[id][p])
  {
    hide Data, Fits, InRange, Entry, CopiesEqual;
    SameEntries(v, n, v.chains[id][q]);
    assert ChainOk(v, id) && LinkOk(v, id, q);
    forall p | 0 <= p < |v.chains[id]| && p != q
      ensures InRange(v.g, v.chains[id][p]) && Data(v.g, n, v.chains[id][p]) == Data(v.g, v.dev, v.chains[id][p])
    {
      assert LinkOk(v, id, p);
    }
  }

  lemma ChainInRange(v: Volume, id: nat)
    requires Sound(v) && id in v.chains
    ensures AllInRange(v.g, v.chains[id]) && Fits(v.g, v.dev)
    ensures forall q :: 0 <= q < |v.chains[id]| ==> v.chains[id][q] in v.owner
  {
    forall q | 0 <= q < |v.chains[id]| ensures InRange(v.g, v.chains[id][q]) && v.chains[id][q] in v.owner {
      assert ChainOk(v, id) && LinkOk(v, id, q);
    }
  }

  /** Growing the chain keeps what it holds, with more padding. */
  lemma GrewPartly(v: Volume, w: Volume, id: nat, data: seq<nat>, offset: nat, buf: seq<nat>, limit: nat)
    requires Sound(v) && Sound(w) && Grew(v, w, id) && AllInRange(v.g, v.chains[id]) && AllInRange(w.g, w.chains[id])
    requires Partly(v.g, v.dev, v.chains[id], data, offset, buf, limit)
    requires |data| <= Pos(v.g.clusterSize, |v.chains[id]|)
    requires limit <= offset || limit <= Pos(v.g.clusterSize, |v.chains[id]|)
    ensures Partly(w.g, w.dev, w.chains[id], data, offset, buf, limit) && |data| <= Pos(w.g.clusterSize, |w.chains[id]|)
  {
    hide Data, Fits, InRange, Pos, Expected, Entry, CopiesEqual, Sound;
    ChainInRange(v, id);
    var ch := v.chains[id];
    var more := w.chains[id][|ch|..];
    assert w.chains[id] == ch + more;
    assert Partly(w.g, w.dev, ch, data, offset, buf, limit);
    forall q | |ch| <= q < |ch + more| ensures forall r :: 0 <= r < w.g.clusterSize ==>
        Data(w.g, w.dev, (ch + more)[q])[r] == 0 {
      assert Blank(w, w.chains[id][q]);
    }
    GrownPartly(w.g, w.dev, ch, more, data, offset, buf, limit);
    Spread(|ch|, |w.chains[id]|, w.g.clusterSize);
  }
}
