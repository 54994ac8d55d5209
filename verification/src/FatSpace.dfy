/** The free clusters of a volume, and those that are marked as used but belong to no file. */
module FatSpace {
  import opened FatChains
  import opened FatDevice
  import opened FatGrowth

  /** Clusters that can be taken. */
  ghost function FreeSet(g: Geometry, dev: seq<nat>): set<nat> {
    set c: nat | c < g.clusterCount + FIRST_CLUSTER && IsFree(g, dev, c)
  }

  ghost predicate IsFree(g: Geometry, dev: seq<nat>, c: nat) {
    Fits(g, dev) && InRange(g, c) && Entry(g, dev, c) == 0
  }

  /** Clusters that are neither free nor part of a chain. */
  ghost function Stray(v: Volume): set<nat> {
    set c: nat | c < v.g.clusterCount + FIRST_CLUSTER && IsStray(v, c)
  }

  ghost predicate IsStray(v: Volume, c: nat) {
    Fits(v.g, v.dev) && InRange(v.g, c) && Entry(v.g, v.dev, c) != 0 && c !in v.owner
  }

  /** Chain `id` grew by clusters that were free, one for one, and nothing else changed hands. */
  ghost predicate Spends(v: Volume, w: Volume, id: nat) {
    && w.g == v.g && id in v.chains && id in w.chains
    && FreeSet(w.g, w.dev) <= FreeSet(v.g, v.dev)
    && w.owner.Keys == v.owner.Keys + (FreeSet(v.g, v.dev) - FreeSet(w.g, w.dev))
    && |w.chains[id]| + |FreeSet(w.g, w.dev)| == |v.chains[id]| + |FreeSet(v.g, v.dev)|
    && Stray(w) == Stray(v)
  }

  lemma SpendsNone(v: Volume, id: nat)
    requires id in v.chains
    ensures Spends(v, v, id)
  {
    hide FreeSet, Stray;
  }

  lemma SpendsTrans(u: Volume, v: Volume, w: Volume, id: nat)
    requires Spends(u, v, id) && Spends(v, w, id)
    ensures Spends(u, w, id)
  {
    hide FreeSet, Stray;
    var a, b, c := FreeSet(u.g, u.dev), FreeSet(v.g, v.dev), FreeSet(w.g, w.dev);
    assert u.owner.Keys + (a - b) + (b - c) == u.owner.Keys + (a - c);
  }

  /** Every entry of the table is as it was. */
  ghost predicate EntriesKept(g: Geometry, dev: seq<nat>, n: seq<nat>) {
    Fits(g, dev) && Fits(g, n) && forall c: nat :: 4 * c + 4 <= g.fatSize ==> Entry(g, n, c) == Entry(g, dev, c)
  }

  lemma KeptSpace(v: Volume, n: seq<nat>)
    requires EntriesKept(v.g, v.dev, n)
    ensures FreeSet(v.g, n) == FreeSet(v.g, v.dev) && Stray(v.(dev := n)) == Stray(v)
  {
    hide Fits, Entry;
  }

  lemma SpendsKept(u: Volume, v: Volume, n: seq<nat>, id: nat)
    requires Spends(u, v, id) && EntriesKept(v.g, v.dev, n)
    ensures Spends(u, v.(dev := n), id)
  {
    hide FreeSet, Stray, EntriesKept;
    KeptSpace(v, n);
  }

  lemma DataKeepsEntries(g: Geometry, dev: seq<nat>, n: seq<nat>, c: nat)
    requires SameButData(g, dev, n, c)
    ensures EntriesKept(g, dev, n)
  {
    hide Fits, Entry, Data;
  }

  lemma SameKeepsEntries(g: Geometry, dev: seq<nat>, n: seq<nat>, c: nat)
    requires SameButEntry(g, dev, n, c) && 4 * c + 4 <= g.fatSize && Entry(g, n, c) == Entry(g, dev, c)
    ensures EntriesKept(g, dev, n)
  {
    hide Fits, Entry, Data;
  }

  lemma ClaimedSpace(v: Volume, n: seq<nat>, c: nat)
    requires Claimed(v.g, v.dev, n, c)
    ensures c in FreeSet(v.g, v.dev) && FreeSet(v.g, n) == FreeSet(v.g, v.dev) - {c}
  {
    hide Fits, Entry, Data;
  }

  /** A chain starts with a free cluster. */
  lemma SpendsStart(v: Volume, n: seq<nat>, id: nat, c: nat)
    requires Sound(v) && Claimed(v.g, v.dev, n, c) && id in v.chains && v.chains[id] == []
    ensures Spends(v, Started(v.(dev := n), id, c), id)
  {
    hide Fits, Entry, Data, FreeSet, ChainOk, OwnerOk;
    ClaimedSpace(v, n, c);
    FreeUnowned(v, c);
    var w := Started(v.(dev := n), id, c);
    forall d: nat ensures IsStray(w, d) == IsStray(v, d) { }
    assert FreeSet(v.g, v.dev) - FreeSet(w.g, w.dev) == {c};
  }

  /** A free cluster is linked behind the last one. */
  lemma SpendsExtend(v: Volume, n: seq<nat>, n2: seq<nat>, id: nat, c: nat)
    requires Sound(v) && Claimed(v.g, v.dev, n, c) && id in v.chains && v.chains[id] != []
    requires var last := v.chains[id][|v.chains[id]| - 1];
      4 * last + 4 <= v.g.fatSize && SameButEntry(v.g, n, n2, last) && Entry(v.g, n2, last) == c
    ensures Spends(v, Extended(v.(dev := n), n2, id, c), id)
  {
    hide Fits, Entry, Data, ChainOk, OwnerOk, CopiesEqual;
    var z := |v.chains[id]| - 1;
    var last := v.chains[id][z];
    ChainsApart(v, id, z, id, z);
    assert last in v.owner by { OwnedAt(v, id, z); }
    ClaimedSpace(v, n, c);
    FreeUnowned(v, c);
    var w := Extended(v.(dev := n), n2, id, c);
    forall d: nat ensures IsFree(w.g, n2, d) == IsFree(w.g, n, d) { }
    assert FreeSet(w.g, n2) == FreeSet(w.g, n);
    forall d: nat ensures IsStray(w, d) == IsStray(v, d) { }
    assert FreeSet(v.g, v.dev) - FreeSet(w.g, w.dev) == {c};
  }

  lemma OwnedAt(v: Volume, id: nat, p: nat)
    requires Sound(v) && id in v.chains && p < |v.chains[id]|
    ensures v.chains[id][p] in v.owner && v.owner[v.chains[id][p]] == Link(id, p)
  {
    assert ChainOk(v, id) && LinkOk(v, id, p);
  }

  lemma FullSet(g: Geometry, dev: seq<nat>)
    requires Fits(g, dev)
    ensures Full(g, dev) <==> FreeSet(g, dev) == {}
  {
    hide Fits, Entry;
    if FreeSet(g, dev) == {} {
      forall c: nat | InRange(g, c) ensures Entry(g, dev, c) != 0 { assert c !in FreeSet(g, dev); }
    }
  }

  lemma FreeNotStray(v: Volume)
    ensures FreeSet(v.g, v.dev) !! Stray(v)
  {
    hide Fits, Entry;
  }

  lemma SpendsStray(v: Volume, w: Volume, id: nat)
    requires Spends(v, w, id)
    ensures Stray(w) == Stray(v) && id in v.chains && id in w.chains
    ensures |w.chains[id]| + |FreeSet(w.g, w.dev)| == |v.chains[id]| + |FreeSet(v.g, v.dev)|
  {
  }

  /** The clusters a failed write took for a file that had none belong to no chain. */
  function Reset(v: Volume, id: nat): Volume {
    var d := Dropped(v, id);
    d.(chains := d.chains[id := []])
  }

  lemma ResetSound(u: Volume, v: Volume, id: nat)
    requires Sound(v) && Beside(u, v, id) && id in v.chains
    ensures Sound(Reset(v, id)) && Beside(u, Reset(v, id), id)
  {
    hide Data, Fits, InRange, Entry, CopiesEqual;
    DropChain(v, id);
    var d, w := Dropped(v, id), Reset(v, id);
    forall k | k in w.chains ensures ChainOk(w, k) {
      if k != id {
        assert ChainOk(d, k);
        forall p | 0 <= p < |w.chains[k]| ensures LinkOk(w, k, p) { assert LinkOk(d, k, p); }
      }
    }
    forall c | c in w.owner ensures OwnerOk(w, c) { assert OwnerOk(d, c); }
  }

  /** When the whole volume went into a chain that is then forgotten, every cluster that was free is lost. */
  lemma ResetStray(u: Volume, v: Volume, id: nat)
    requires Sound(u) && Sound(v) && Beside(u, v, id) && Spends(u, v, id) && u.chains[id] == []
    requires FreeSet(v.g, v.dev) == {}
    ensures Stray(Reset(v, id)) == Stray(u) + FreeSet(u.g, u.dev)
  {
    hide Data, Fits, Entry, CopiesEqual, Beside;
    var w := Reset(v, id);
    forall c: nat ensures IsStray(w, c) == (IsStray(v, c) || c in FreeSet(u.g, u.dev)) {
      LostCluster(u, v, id, c);
    }
    assert Stray(v) == Stray(u);
  }

  lemma LostCluster(u: Volume, v: Volume, id: nat, c: nat)
    requires Sound(u) && Sound(v) && Beside(u, v, id) && Spends(u, v, id) && u.chains[id] == []
    requires FreeSet(v.g, v.dev) == {}
    ensures IsStray(Reset(v, id), c) == (IsStray(v, c) || c in FreeSet(u.g, u.dev))
  {
    hide Data, Fits, Entry, CopiesEqual, Stray;
    if c in v.owner {
      assert OwnerOk(v, c);
      var l := v.owner[c];
      ChainsApart(v, l.chain, l.pos, l.chain, l.pos);
      NonZero(v, c);
      if c in u.owner {
        assert OwnerOk(u, c);
        assert v.owner[c] == u.owner[c];
        if c in FreeSet(u.g, u.dev) { FreeUnowned(u, c); }
      } else if l.chain != id {
        OwnedAt(u, l.chain, l.pos);
      }
    }
  }

  lemma NonZero(v: Volume, c: nat)
    requires Sound(v) && c in v.owner
    ensures InRange(v.g, c) && Entry(v.g, v.dev, c) != 0
  {
    assert OwnerOk(v, c);
    var l := v.owner[c];
    ChainsApart(v, l.chain, l.pos, l.chain, l.pos);
    if Entry(v.g, v.dev, c) == 0 { FreeUnowned(v, c); }
  }
}
