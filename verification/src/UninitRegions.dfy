/** The uninitialised regions as the allocator keeps them: a fixed array of optional intervals. */
module UninitRegions {
  import opened Bits
  import opened BuddySpace
  import opened Options

  datatype UninitRegion = UninitRegion(start: nat, end: nat)

  type Regions = seq<Option<UninitRegion>>

  predicate InRegion(regs: Regions, i: int, f: int) {
    0 <= i < |regs| && regs[i].Some? && regs[i].value.start <= f < regs[i].value.end
  }

  /** The regions are non-empty, pairwise disjoint, and hold exactly the uninitialised frames. */
  ghost predicate RegionsOk(regs: Regions, own: seq<Owner>) {
    && (forall i :: 0 <= i < |regs| && regs[i].Some? ==> regs[i].value.start < regs[i].value.end <= |own|)
    && (forall i, j, f :: InRegion(regs, i, f) && InRegion(regs, j, f) ==> i == j)
    && (forall i, f :: InRegion(regs, i, f) ==> own[f].Uninit?)
    && (forall f :: 0 <= f < |own| && own[f].Uninit? ==> exists i :: InRegion(regs, i, f))
  }

  /** An aligned run of 2^order frames fits in region `i`. */
  predicate Fits(regs: Regions, i: int, order: nat) {
    0 <= i < |regs| && regs[i].Some? &&
    AlignUp(regs[i].value.start, order) + Pow2(order) <= regs[i].value.end
  }

  /** Region `i` with everything below `cut` taken. */
  function Shrink(regs: Regions, i: nat, cut: nat): Regions
    requires i < |regs| && regs[i].Some?
  {
    regs[i := if cut == regs[i].value.end then None else Some(UninitRegion(cut, regs[i].value.end))]
  }

  lemma ShrinkKeeps(regs: Regions, s: Space, i: nat, cut: nat, t: Space)
    requires RegionsOk(regs, s.own) && i < |regs| && regs[i].Some?
    requires regs[i].value.start <= cut <= regs[i].value.end
    requires UninitMinus(s, t, regs[i].value.start, cut)
    ensures RegionsOk(Shrink(regs, i, cut), t.own)
  {
    var lo, now := regs[i].value.start, Shrink(regs, i, cut);
    forall j, f ensures InRegion(now, j, f) <==> InRegion(regs, j, f) && !(lo <= f < cut) {
      if j != i {
        assert InRegion(now, j, f) <==> InRegion(regs, j, f);
        assert lo <= f < cut ==> InRegion(regs, i, f);
      }
    }
    forall f | 0 <= f < |t.own| && t.own[f].Uninit? ensures exists j :: InRegion(now, j, f) {
      var j :| InRegion(regs, j, f);
      assert InRegion(now, j, f);
    }
  }

  lemma SameKeeps(regs: Regions, s: Space, t: Space)
    requires RegionsOk(regs, s.own) && SameUninit(s, t)
    ensures RegionsOk(regs, t.own)
  {
  }

  lemma RegionUninit(regs: Regions, s: Space, i: nat)
    requires RegionsOk(regs, s.own) && i < |regs| && regs[i].Some?
    ensures AllUninit(s, regs[i].value.start, regs[i].value.end)
  {
    forall f | regs[i].value.start <= f < regs[i].value.end ensures s.own[f].Uninit? {
      assert InRegion(regs, i, f);
    }
  }

  /** `(last + offset) % len` visits every index once as `offset` runs through `0..len`. */
  function Rotate(last: nat, offset: nat, len: nat): (i: nat)
    requires last < len && offset < len
    ensures i < len
  {
    if last + offset < len then last + offset else last + offset - len
  }

  /** `i` is the first region from `last` on, in rotation, that the run fits. */
  ghost predicate FirstFit(regs: Regions, last: nat, i: nat, order: nat) {
    && last < |regs| && Fits(regs, i, order)
    && exists o: nat :: o < |regs| && i == Rotate(last, o, |regs|) && forall n: nat :: n < o ==>
       !Fits(regs, Rotate(last, n, |regs|), order)
  }

  lemma RotateIsMod(last: nat, offset: nat, len: nat)
    requires last < len && offset < len
    ensures Rotate(last, offset, len) == (last + offset) % len
  {
  }

  /** Regions a boot memory map may give: non-empty, inside memory, pairwise disjoint. */
  ghost predicate BootRegions(regs: Regions, total: nat) {
    && (forall i :: 0 <= i < |regs| && regs[i].Some? ==> regs[i].value.start < regs[i].value.end <= total)
    && (forall i, j, f :: InRegion(regs, i, f) && InRegion(regs, j, f) ==> i == j)
  }

  ghost function BootOwners(regs: Regions, total: nat): (own: seq<Owner>)
    requires BootRegions(regs, total)
    ensures |own| == total && RegionsOk(regs, own)
    ensures forall f :: 0 <= f < total ==> own[f].Uninit? || own[f].NoOne?
  {
    seq(total, f requires 0 <= f < total => if exists i :: InRegion(regs, i, f) then Uninit else NoOne)
  }

  /** Every usable frame is in exactly one region and no block, or in exactly one block and no region. */
  lemma OneHome(regs: Regions, s: Space, f: nat)
    requires WellFormed(s) && RegionsOk(regs, s.own) && f < |s.own| && !s.own[f].NoOne?
    ensures s.own[f].Uninit? <==> exists i :: InRegion(regs, i, f)
    ensures forall i, j :: InRegion(regs, i, f) && InRegion(regs, j, f) ==> i == j
    ensures s.own[f].Of? <==> exists p :: Covers(s, p, f)
    ensures forall p, q :: Covers(s, p, f) && Covers(s, q, f) ==> p == q
  {
    assert GoodOwner(s, f);
    if s.own[f].Of? { assert Covers(s, s.own[f].head, f); }
    forall p | Covers(s, p, f) ensures s.own[f] == Of(p) { assert GoodBlock(s, p); }
  }

  predicate Covers(s: Space, p: nat, f: nat) {
    p in s.blocks && p <= f < p + Pow2(s.blocks[p].order)
  }
}
