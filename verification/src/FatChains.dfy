/** Cluster chains on a FAT volume. Every cluster of a chain knows its chain and its place in it, so
    chains are disjoint and never come back to themselves. */
module FatChains {
  import opened FatDevice

  datatype Link = Link(chain: nat, pos: nat)

  datatype Volume = Volume(g: Geometry, dev: seq<nat>, chains: map<nat, seq<nat>>, owner: map<nat, Link>)

  /** The table leads from each cluster of the chain to the next and ends with an end mark. */
  ghost predicate ChainOk(v: Volume, id: nat)
    requires id in v.chains && Fits(v.g, v.dev)
  {
    forall p :: 0 <= p < |v.chains[id]| ==> LinkOk(v, id, p)
  }

  ghost predicate LinkOk(v: Volume, id: nat, p: nat)
    requires id in v.chains && p < |v.chains[id]| && Fits(v.g, v.dev)
  {
    var ch := v.chains[id];
    && InRange(v.g, ch[p]) && ch[p] in v.owner && v.owner[ch[p]] == Link(id, p)
    && (if p + 1 < |ch| then Entry(v.g, v.dev, ch[p]) == ch[p + 1] else Entry(v.g, v.dev, ch[p]) >= END_MARK)
  }

  ghost predicate OwnerOk(v: Volume, c: nat)
    requires c in v.owner
  {
    var l := v.owner[c];
    l.chain in v.chains && l.pos < |v.chains[l.chain]| && v.chains[l.chain][l.pos] == c
  }

  ghost predicate Sound(v: Volume) {
    && Fits(v.g, v.dev) && CopiesEqual(v.g, v.dev)
    && (forall id :: id in v.chains ==> ChainOk(v, id))
    && (forall c :: c in v.owner ==> OwnerOk(v, c))
  }

  /** Live chains are acyclic, pairwise disjoint, inside the data area and ended by an end mark. */
  lemma ChainsApart(v: Volume, i: nat, p: nat, j: nat, q: nat)
    requires Sound(v) && i in v.chains && j in v.chains && p < |v.chains[i]| && q < |v.chains[j]|
    ensures v.chains[i][p] == v.chains[j][q] ==> i == j && p == q
    ensures InRange(v.g, v.chains[i][p])
    ensures var e := Entry(v.g, v.dev, v.chains[i][p]);
      if p + 1 < |v.chains[i]| then e == v.chains[i][p + 1] && e < END_MARK else e >= END_MARK
  {
    assert ChainOk(v, i) && ChainOk(v, j) && LinkOk(v, i, p) && LinkOk(v, j, q);
    if p + 1 < |v.chains[i]| { assert LinkOk(v, i, p + 1); }
  }

  /** A cluster whose entry is zero belongs to no chain. */
  lemma FreeUnowned(v: Volume, c: nat)
    requires Sound(v) && InRange(v.g, c) && Entry(v.g, v.dev, c) == 0
    ensures c !in v.owner
  {
    if c in v.owner {
      var l := v.owner[c];
      assert OwnerOk(v, c);
      ChainsApart(v, l.chain, l.pos, l.chain, l.pos);
      if l.pos + 1 < |v.chains[l.chain]| {
        ChainsApart(v, l.chain, l.pos + 1, l.chain, l.pos + 1);
      }
      assert false;
    }
  }

  /** Cluster contents and table entries agree except at `c`. */
  ghost predicate SameButEntry(g: Geometry, dev: seq<nat>, n: seq<nat>, c: nat) {
    && Fits(g, dev) && Fits(g, n) && |n| == |dev| && (CopiesEqual(g, dev) ==> CopiesEqual(g, n))
    && (forall d: nat :: d != c && 4 * d + 4 <= g.fatSize ==> Entry(g, n, d) == Entry(g, dev, d))
    && (forall d: nat :: InRange(g, d) ==> Data(g, n, d) == Data(g, dev, d))
  }

  ghost predicate SameButData(g: Geometry, dev: seq<nat>, n: seq<nat>, c: nat) {
    && Fits(g, dev) && Fits(g, n) && |n| == |dev| && (CopiesEqual(g, dev) ==> CopiesEqual(g, n))
    && (forall d: nat :: 4 * d + 4 <= g.fatSize ==> Entry(g, n, d) == Entry(g, dev, d))
    && (forall d: nat :: d != c && InRange(g, d) ==> Data(g, n, d) == Data(g, dev, d))
  }

  /** The entry of a cluster outside all chains may change. */
  lemma UnownedEntry(v: Volume, n: seq<nat>, c: nat)
    requires Sound(v) && c !in v.owner && SameButEntry(v.g, v.dev, n, c)
    ensures Sound(v.(dev := n))
  {
    hide Fits, CopiesEqual, Entry, Data, InRange;
    var w := v.(dev := n);
    forall id | id in w.chains ensures ChainOk(w, id) {
      assert ChainOk(v, id);
      forall p | 0 <= p < |w.chains[id]| ensures LinkOk(w, id, p) {
        assert LinkOk(v, id, p);
        LinkInTable(v, id, p);
      }
    }
    forall d | d in w.owner ensures OwnerOk(w, d) { assert OwnerOk(v, d); }
  }

  lemma LinkInTable(v: Volume, id: nat, p: nat)
    requires id in v.chains && p < |v.chains[id]| && Fits(v.g, v.dev) && LinkOk(v, id, p)
    ensures 4 * v.chains[id][p] + 4 <= v.g.fatSize
  {
  }

  lemma SameEntries(v: Volume, n: seq<nat>, c: nat)
    requires Sound(v) && SameButData(v.g, v.dev, n, c)
    ensures Sound(v.(dev := n))
  {
    hide Fits, CopiesEqual, Entry, Data, InRange;
    var w := v.(dev := n);
    forall id | id in w.chains ensures ChainOk(w, id) {
      assert ChainOk(v, id);
      forall p | 0 <= p < |w.chains[id]| ensures LinkOk(w, id, p) {
        assert LinkOk(v, id, p);
        LinkInTable(v, id, p);
      }
    }
    forall d | d in w.owner ensures OwnerOk(w, d) { assert OwnerOk(v, d); }
  }

  /** An unowned cluster with an end mark becomes a chain of its own. */
  function Started(v: Volume, id: nat, c: nat): Volume {
    v.(chains := v.chains[id := [c]], owner := v.owner[c := Link(id, 0)])
  }

  lemma StartChain(v: Volume, id: nat, c: nat)
    requires Sound(v) && (id in v.chains ==> v.chains[id] == [])
    requires c !in v.owner && InRange(v.g, c) && Entry(v.g, v.dev, c) >= END_MARK
    ensures Sound(Started(v, id, c))
  {
    hide Fits, CopiesEqual, Entry, Data, InRange;
    var w := Started(v, id, c);
    forall k | k in w.chains ensures ChainOk(w, k) {
      if k != id {
        assert ChainOk(v, k);
        forall p | 0 <= p < |w.chains[k]| ensures LinkOk(w, k, p) { assert LinkOk(v, k, p); }
      }
    }
    forall d | d in w.owner ensures OwnerOk(w, d) {
      assert d != c ==> OwnerOk(v, d);
    }
  }

  /** The chain `id` extended by cluster `c`, which the entry of its last cluster now names. */
  function Extended(v: Volume, n: seq<nat>, id: nat, c: nat): Volume
    requires id in v.chains
  {
    v.(dev := n, chains := v.chains[id := v.chains[id] + [c]], owner := v.owner[c := Link(id, |v.chains[id]|)])
  }

  lemma ExtendChain(v: Volume, n: seq<nat>, id: nat, c: nat)
    requires Sound(v) && id in v.chains && v.chains[id] != []
    requires c !in v.owner && InRange(v.g, c) && Entry(v.g, v.dev, c) >= END_MARK
    requires var last := v.chains[id][|v.chains[id]| - 1];
      SameButEntry(v.g, v.dev, n, last) && 4 * last + 4 <= v.g.fatSize && Entry(v.g, n, last) == c
    ensures Sound(Extended(v, n, id, c))
  {
    hide Fits, CopiesEqual, Entry, Data, InRange;
    var w := Extended(v, n, id, c);
    var z := |v.chains[id]| - 1;
    assert ChainOk(v, id) && LinkOk(v, id, z);
    RangeInTable(v.g, c);
    forall k | k in w.chains ensures ChainOk(w, k) {
      assert ChainOk(v, k);
      forall p | 0 <= p < |w.chains[k]| ensures LinkOk(w, k, p) {
        if p < |v.chains[k]| {
          assert LinkOk(v, k, p);
          LinkInTable(v, k, p);
        }
      }
    }
    forall d | d in w.owner ensures OwnerOk(w, d) {
      assert d != c ==> OwnerOk(v, d);
    }
  }

  lemma RangeInTable(g: Geometry, c: nat)
    requires InRange(g, c)
    ensures 4 * c + 4 <= g.fatSize && c >= FIRST_CLUSTER
  {
  }

  /** The volume once the chain is no longer counted as live. */
  function Dropped(v: Volume, id: nat): Volume {
    v.(chains := v.chains - {id}, owner := map c | c in v.owner && v.owner[c].chain != id :: v.owner[c])
  }

  lemma DropChain(v: Volume, id: nat)
    requires Sound(v)
    ensures Sound(Dropped(v, id))
  {
    hide Fits, CopiesEqual, Entry, Data, InRange;
    var w := Dropped(v, id);
    forall k | k in w.chains ensures ChainOk(w, k) {
      assert ChainOk(v, k);
      forall p | 0 <= p < |w.chains[k]| ensures LinkOk(w, k, p) { assert LinkOk(v, k, p); }
    }
    forall d | d in w.owner ensures OwnerOk(w, d) { assert OwnerOk(v, d); }
  }
}
