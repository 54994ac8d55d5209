/** The abstract state of the physical frame allocator: which frames form which block, and where
    each block is kept. Every frame has one owner, so the blocks and the uninitialised rest are a
    partition of usable memory by construction; the lemmas show that moving, splitting, merging
    and carving blocks keep it one. */
module BuddySpace {
  import opened Bits

  const MAX_ORDER: nat := 19

  /** Where a block is kept. `Held` blocks belong to a caller (or are in the hands of a running
      allocator operation). */
  datatype Place = Held | Reserve | PerCpu(cpu: nat) | Global

  datatype Block = Block(order: nat, place: Place)

  datatype Owner = NoOne | Uninit | Of(head: nat)

  /** `own[f]` is the owner of frame `f`; `blocks` maps the first frame of a block to the block. */
  datatype Space = Space(own: seq<Owner>, blocks: map<nat, Block>)

  /** The `n` frames from `p` on are owned by the block at `p`. */
  ghost predicate Owns(own: seq<Owner>, p: nat, n: nat) {
    p + n <= |own| && forall f :: p <= f < p + n ==> own[f] == Of(p)
  }

  ghost predicate GoodBlock(s: Space, p: nat)
    requires p in s.blocks
  {
    && s.blocks[p].order < MAX_ORDER
    && (s.blocks[p].place.Reserve? ==> s.blocks[p].order == 0)
    && Aligned(p, s.blocks[p].order)
    && Owns(s.own, p, Pow2(s.blocks[p].order))
  }

  ghost predicate GoodOwner(s: Space, f: nat)
    requires f < |s.own|
  {
    s.own[f].Of? ==>
      var p := s.own[f].head;
      p in s.blocks && p <= f < p + Pow2(s.blocks[p].order)
  }

  ghost predicate WellFormed(s: Space) {
    && (forall p :: p in s.blocks ==> GoodBlock(s, p))
    && (forall f :: 0 <= f < |s.own| ==> GoodOwner(s, f))
  }

  predicate HasGlobal(s: Space, p: nat, k: nat) {
    p in s.blocks && s.blocks[p] == Block(k, Global)
  }

  /** No two buddies below the top order are both on the global lists. */
  ghost predicate Coalesced(s: Space) {
    forall p :: p in s.blocks && s.blocks[p].place.Global? && s.blocks[p].order < MAX_ORDER - 1 ==>
      !HasGlobal(s, BuddyOf(p, s.blocks[p].order), s.blocks[p].order)
  }

  /** Frame `f` lies in a block kept in `place`. */
  predicate FrameIn(s: Space, f: int, place: Place) {
    0 <= f < |s.own| && s.own[f].Of? && s.own[f].head in s.blocks && s.blocks[s.own[f].head].place == place
  }

  /** No frame changes between usable and unusable, or between carved and uninitialised. */
  ghost predicate SameUninit(s: Space, t: Space) {
    && |s.own| == |t.own|
    && forall f :: 0 <= f < |s.own| ==>
      (s.own[f].NoOne? <==> t.own[f].NoOne?) && (s.own[f].Uninit? <==> t.own[f].Uninit?)
  }

  // ---------- the four ways a space changes ----------

  function Paint(own: seq<Owner>, lo: nat, hi: nat, o: Owner): (r: seq<Owner>)
    ensures |r| == |own|
    ensures forall f :: 0 <= f < |own| ==> r[f] == if lo <= f < hi then o else own[f]
  {
    seq(|own|, f requires 0 <= f < |own| => if lo <= f < hi then o else own[f])
  }

  function Move(s: Space, p: nat, place: Place): Space
    requires p in s.blocks
  {
    s.(blocks := s.blocks[p := s.blocks[p].(place := place)])
  }

  /** A block becomes its two halves, in the same place. */
  function Split(s: Space, p: nat): Space
    requires p in s.blocks && s.blocks[p].order > 0
  {
    var half := s.blocks[p].(order := s.blocks[p].order - 1);
    var q := p + Pow2(half.order);
    Space(Paint(s.own, q, q + Pow2(half.order), Of(q)), s.blocks[p := half][q := half])
  }

  /** The block at `p` swallows its buddy above it. */
  function Merge(s: Space, p: nat): Space
    requires p in s.blocks
  {
    var b := s.blocks[p];
    var q := p + Pow2(b.order);
    Space(Paint(s.own, q, q + Pow2(b.order), Of(p)), (s.blocks - {q})[p := b.(order := b.order + 1)])
  }

  /** Uninitialised frames become a held block. */
  function Claim(s: Space, p: nat, k: nat): Space {
    Space(Paint(s.own, p, p + Pow2(k), Of(p)), s.blocks[p := Block(k, Held)])
  }

  lemma HeadOwnsItself(s: Space, p: nat)
    requires WellFormed(s)
    ensures p in s.blocks ==> p < |s.own| && s.own[p] == Of(p)
  {
    if p in s.blocks { assert GoodBlock(s, p); }
  }

  lemma BlockGood(s: Space, p: nat)
    requires WellFormed(s) && p in s.blocks
    ensures GoodBlock(s, p)
  {
  }

  lemma OutOfRange(s: Space, p: nat)
    requires WellFormed(s)
    ensures p >= |s.own| ==> p !in s.blocks
  {
    HeadOwnsItself(s, p);
  }

  lemma MoveKeeps(s: Space, p: nat, place: Place)
    requires WellFormed(s) && p in s.blocks && (place.Reserve? ==> s.blocks[p].order == 0)
    ensures WellFormed(Move(s, p, place))
  {
    var t := Move(s, p, place);
    forall q | q in t.blocks ensures GoodBlock(t, q) { assert GoodBlock(s, q); }
    forall f | 0 <= f < |t.own| ensures GoodOwner(t, f) { assert GoodOwner(s, f); }
  }

  lemma MoveOffGlobal(s: Space, p: nat, place: Place)
    requires Coalesced(s) && p in s.blocks && !place.Global?
    ensures Coalesced(Move(s, p, place))
  {
    var t := Move(s, p, place);
    forall q | q in t.blocks && t.blocks[q].place.Global? && t.blocks[q].order < MAX_ORDER - 1
      ensures !HasGlobal(t, BuddyOf(q, t.blocks[q].order), t.blocks[q].order)
    {
      assert s.blocks[q] == t.blocks[q];
    }
  }

  lemma MoveToGlobal(s: Space, p: nat)
    requires WellFormed(s) && Coalesced(s) && p in s.blocks
    requires s.blocks[p].order < MAX_ORDER - 1 ==>
      !HasGlobal(s, BuddyOf(p, s.blocks[p].order), s.blocks[p].order)
    ensures Coalesced(Move(s, p, Global))
  {
    var t := Move(s, p, Global);
    forall q | q in t.blocks && t.blocks[q].place.Global? && t.blocks[q].order < MAX_ORDER - 1
      ensures !HasGlobal(t, BuddyOf(q, t.blocks[q].order), t.blocks[q].order)
    {
      assert GoodBlock(s, q);
      BuddyFacts(q, t.blocks[q].order);
    }
  }

  lemma SplitKeeps(s: Space, p: nat, k: nat)
    requires WellFormed(s) && p in s.blocks && s.blocks[p].order == k + 1
    ensures WellFormed(Split(s, p)) && p + Pow2(k) !in s.blocks && p + Pow2(k) < |s.own|
  {
    hide Aligned;
    var t, n := Split(s, p), Pow2(k);
    SplitHalves(s, p, k);
    forall b | b in t.blocks ensures GoodBlock(t, b) {
      if b != p && b != p + n {
        assert GoodBlock(s, b);
        OthersUntouched(s.own, t.own, b, Pow2(s.blocks[b].order));
      }
    }
    forall f | 0 <= f < |t.own| ensures GoodOwner(t, f) { assert GoodOwner(s, f); }
  }

  lemma SplitHalves(s: Space, p: nat, k: nat)
    requires WellFormed(s) && p in s.blocks && s.blocks[p].order == k + 1
    ensures p + Pow2(k) !in s.blocks && p + Pow2(k) < |s.own| && s.own[p + Pow2(k)] == Of(p)
    ensures GoodBlock(Split(s, p), p) && GoodBlock(Split(s, p), p + Pow2(k))
  {
    hide Aligned, WellFormed, Paint;
    BlockGood(s, p);
    assert Pow2(k + 1) == 2 * Pow2(k);
    SplitOwners(s.own, p, Pow2(k));
    HeadOwnsItself(s, p + Pow2(k));
    Halves(p, k);
  }

  lemma SplitOwners(own: seq<Owner>, p: nat, n: nat)
    requires Owns(own, p, 2 * n)
    ensures var own' := Paint(own, p + n, p + n + n, Of(p + n)); Owns(own', p, n) && Owns(own', p + n, n)
  {
  }

  lemma OthersUntouched(own: seq<Owner>, own': seq<Owner>, b: nat, n: nat)
    requires Owns(own, b, n) && |own'| == |own|
    requires forall f :: 0 <= f < |own| && own[f] == Of(b) ==> own'[f] == Of(b)
    ensures Owns(own', b, n)
  {
  }

  lemma SplitCoalesced(s: Space, p: nat)
    requires WellFormed(s) && Coalesced(s) && p in s.blocks && s.blocks[p].order > 0
    requires s.blocks[p].place.Held?
    ensures Coalesced(Split(s, p))
  {
    var t := Split(s, p);
    forall q | q in t.blocks && t.blocks[q].place.Global? && t.blocks[q].order < MAX_ORDER - 1
      ensures !HasGlobal(t, BuddyOf(q, t.blocks[q].order), t.blocks[q].order)
    {
      assert s.blocks[q] == t.blocks[q];
    }
  }

  lemma MergeKeeps(s: Space, p: nat, k: nat)
    requires WellFormed(s) && k < MAX_ORDER - 1 && Aligned(p, k + 1)
    requires p in s.blocks && p + Pow2(k) in s.blocks
    requires s.blocks[p].order == k == s.blocks[p + Pow2(k)].order && s.blocks[p].place.Held?
    ensures WellFormed(Merge(s, p))
  {
    hide Aligned;
    var t, n := Merge(s, p), Pow2(k);
    MergeOwners(s, p, k);
    forall b | b in t.blocks ensures GoodBlock(t, b) {
      if b != p {
        assert GoodBlock(s, b);
        OthersUntouched(s.own, t.own, b, Pow2(s.blocks[b].order));
      }
    }
    forall f | 0 <= f < |t.own| ensures GoodOwner(t, f) { assert GoodOwner(s, f); }
  }

  lemma MergeOwners(s: Space, p: nat, k: nat)
    requires WellFormed(s) && k < MAX_ORDER - 1 && Aligned(p, k + 1)
    requires p in s.blocks && p + Pow2(k) in s.blocks
    requires s.blocks[p].order == k == s.blocks[p + Pow2(k)].order && s.blocks[p].place.Held?
    ensures GoodBlock(Merge(s, p), p)
    ensures Owns(s.own, p, Pow2(k)) && Owns(s.own, p + Pow2(k), Pow2(k))
  {
    assert GoodBlock(s, p) && GoodBlock(s, p + Pow2(k));
    assert Pow2(k + 1) == 2 * Pow2(k);
  }

  lemma MergeCoalesced(s: Space, p: nat)
    requires Coalesced(s) && p in s.blocks && s.blocks[p].place.Held?
    ensures Coalesced(Merge(s, p))
  {
    var t := Merge(s, p);
    forall q | q in t.blocks && t.blocks[q].place.Global? && t.blocks[q].order < MAX_ORDER - 1
      ensures !HasGlobal(t, BuddyOf(q, t.blocks[q].order), t.blocks[q].order)
    {
      assert s.blocks[q] == t.blocks[q];
    }
  }

  lemma ClaimKeeps(s: Space, p: nat, k: nat)
    requires WellFormed(s) && k < MAX_ORDER && Aligned(p, k) && p + Pow2(k) <= |s.own|
    requires forall f :: p <= f < p + Pow2(k) ==> s.own[f] == Uninit
    ensures WellFormed(Claim(s, p, k)) && p !in s.blocks
    ensures Coalesced(s) ==> Coalesced(Claim(s, p, k))
  {
    var t := Claim(s, p, k);
    assert s.own[p] == Uninit;
    HeadOwnsItself(s, p);
    forall b | b in t.blocks ensures GoodBlock(t, b) {
      if b != p {
        assert GoodBlock(s, b);
        OthersUntouched(s.own, t.own, b, Pow2(s.blocks[b].order));
      }
    }
    forall f | 0 <= f < |t.own| ensures GoodOwner(t, f) { assert GoodOwner(s, f); }
    if Coalesced(s) {
      forall q | q in t.blocks && t.blocks[q].place.Global? && t.blocks[q].order < MAX_ORDER - 1
        ensures !HasGlobal(t, BuddyOf(q, t.blocks[q].order), t.blocks[q].order)
      {
        assert s.blocks[q] == t.blocks[q];
      }
    }
  }

  // ---------- consequences ----------

  /** Two blocks never share a frame. */
  lemma BlocksDisjoint(s: Space, p: nat, q: nat, f: nat)
    requires WellFormed(s) && p in s.blocks && q in s.blocks
    requires p <= f < p + Pow2(s.blocks[p].order)
    ensures q <= f < q + Pow2(s.blocks[q].order) ==> p == q
  {
    assert GoodBlock(s, p) && GoodBlock(s, q);
    assert s.own[f] == Of(p);
  }

  /** An aligned run [a, a + 2^k) of globally free frames lies inside one global block: with all
      buddies coalesced, free space of that shape cannot be hidden in pieces. */
  lemma {:induction false} FreeRunInOneBlock(s: Space, a: nat, k: nat)
    requires WellFormed(s) && Coalesced(s)
    requires k < MAX_ORDER && Aligned(a, k) && a + Pow2(k) <= |s.own|
    requires forall f :: a <= f < a + Pow2(k) ==> FrameIn(s, f, Global)
    ensures FrameIn(s, a, Global)
    ensures var p := s.own[a].head;
      s.blocks[p].order >= k && p <= a && a + Pow2(k) <= p + Pow2(s.blocks[p].order)
    decreases k
  {
    assert FrameIn(s, a, Global) && GoodOwner(s, a);
    var p := s.own[a].head;
    var j := s.blocks[p].order;
    assert GoodBlock(s, p);
    if j >= k {
      Nested(a, k, p, j);
    } else {
      SameStart(p, j, a, k);
      Coarser(a, j + 1, k);
      Halves(a, j);
      Monotone(j + 1, k);
      FreeRunInOneBlock(s, a + Pow2(j), j);
      var q := s.own[a + Pow2(j)].head;
      assert GoodBlock(s, q);
      HolderOfUpperHalf(a, j, q, s.blocks[q].order);
      BlocksDisjoint(s, p, q, a);
      assert false; // the block at `a` and its buddy are both global
    }
  }

  /** A block that holds the upper half of [a, a + 2^(j+1)) is that half, or holds `a` too. */
  lemma HolderOfUpperHalf(a: nat, j: nat, q: nat, k: nat)
    requires Aligned(a, j + 1) && Aligned(q, k) && j <= k
    requires q <= a + Pow2(j) < q + Pow2(k)
    ensures k == j ==> q == a + Pow2(j)
    ensures k > j ==> q <= a < q + Pow2(k)
  {
    Halves(a, j);
    if k == j {
      SameStart(q, j, a + Pow2(j), j);
    } else if q > a {
      SameStart(a, j + 1, q, k);
    }
  }

  /** An aligned run of 2^k globally free frames. */
  ghost predicate GlobalRun(s: Space, a: nat, k: nat) {
    && Aligned(a, k) && a + Pow2(k) <= |s.own|
    && forall f :: a <= f < a + Pow2(k) ==> FrameIn(s, f, Global)
  }

  /** No global block of order k or more means no free aligned run of 2^k frames anywhere. */
  lemma NoBlockNoRun(s: Space, k: nat)
    requires WellFormed(s) && Coalesced(s) && k < MAX_ORDER
    requires forall p, j :: k <= j < MAX_ORDER ==> !HasGlobal(s, p, j)
    ensures forall a: nat :: !GlobalRun(s, a, k)
  {
    forall a: nat | GlobalRun(s, a, k) ensures false {
      FreeRunInOneBlock(s, a, k);
      assert GoodBlock(s, s.own[a].head);
      assert HasGlobal(s, s.own[a].head, s.blocks[s.own[a].head].order);
    }
  }

  // ---------- which frames are where ----------

  lemma MoveFrames(s: Space, p: nat, place: Place)
    requires WellFormed(s) && p in s.blocks
    ensures forall f, x :: FrameIn(Move(s, p, place), f, x) <==>
      if p <= f < p + Pow2(s.blocks[p].order) then x == place else FrameIn(s, f, x)
  {
    var t := Move(s, p, place);
    assert GoodBlock(s, p);
    forall f, x
      ensures FrameIn(t, f, x) <==> if p <= f < p + Pow2(s.blocks[p].order) then x == place else FrameIn(s, f, x)
    {
      if 0 <= f < |s.own| { assert GoodOwner(s, f); }
    }
  }

  lemma SplitFrames(s: Space, p: nat)
    requires WellFormed(s) && p in s.blocks && s.blocks[p].order > 0
    ensures forall f, x :: FrameIn(Split(s, p), f, x) <==> FrameIn(s, f, x)
  {
    SplitKeeps(s, p, s.blocks[p].order - 1);
    var t := Split(s, p);
    assert GoodBlock(s, p);
    forall f, x ensures FrameIn(t, f, x) <==> FrameIn(s, f, x) {
      if 0 <= f < |s.own| { assert GoodOwner(s, f) && GoodOwner(t, f); }
    }
  }

  lemma MergeFrames(s: Space, p: nat, k: nat)
    requires WellFormed(s) && k < MAX_ORDER - 1 && Aligned(p, k + 1)
    requires p in s.blocks && p + Pow2(k) in s.blocks
    requires s.blocks[p] == s.blocks[p + Pow2(k)] == Block(k, Held)
    ensures forall f, x :: FrameIn(Merge(s, p), f, x) <==> FrameIn(s, f, x)
  {
    MergeKeeps(s, p, k);
    var t := Merge(s, p);
    assert GoodBlock(s, p) && GoodBlock(s, p + Pow2(k));
    forall f, x ensures FrameIn(t, f, x) <==> FrameIn(s, f, x) {
      if 0 <= f < |s.own| { assert GoodOwner(s, f) && GoodOwner(t, f); }
    }
  }

  lemma ClaimFrames(s: Space, p: nat, k: nat)
    requires WellFormed(s) && k < MAX_ORDER && Aligned(p, k) && p + Pow2(k) <= |s.own|
    requires forall f :: p <= f < p + Pow2(k) ==> s.own[f] == Uninit
    ensures forall f, x :: FrameIn(Claim(s, p, k), f, x) <==>
      if p <= f < p + Pow2(k) then x == Held else FrameIn(s, f, x)
  {
    ClaimKeeps(s, p, k);
    var t := Claim(s, p, k);
    forall f, x ensures FrameIn(t, f, x) <==> if p <= f < p + Pow2(k) then x == Held else FrameIn(s, f, x) {
      if 0 <= f < |s.own| { assert GoodOwner(s, f) && GoodOwner(t, f); }
    }
  }

  // ---------- the held blocks ----------

  /** The held blocks, with their orders. */
  function HeldMap(s: Space): map<nat, nat> {
    map p | p in s.blocks && s.blocks[p].place.Held? :: s.blocks[p].order
  }

  lemma HeldMapMove(s: Space, p: nat, place: Place)
    requires p in s.blocks
    ensures HeldMap(Move(s, p, place)) ==
      if place.Held? then HeldMap(s)[p := s.blocks[p].order] else HeldMap(s) - {p}
  {
  }

  lemma HeldMapMerge(s: Space, p: nat, k: nat)
    requires p in s.blocks && s.blocks[p] == Block(k, Held)
    ensures HeldMap(Merge(s, p)) == (HeldMap(s) - {p + Pow2(k)})[p := k + 1]
  {
  }

  lemma HeldMapSplit(s: Space, p: nat, k: nat)
    requires p in s.blocks && s.blocks[p] == Block(k + 1, Held)
    ensures HeldMap(Split(s, p)) == HeldMap(s)[p := k][p + Pow2(k) := k]
  {
  }

  lemma HeldMapClaim(s: Space, p: nat, k: nat)
    ensures HeldMap(Claim(s, p, k)) == HeldMap(s)[p := k]
  {
  }

  /** The sum of 2^order over the blocks of `held` that start below `n`. */
  function HeldFrames(held: map<nat, nat>, n: nat): nat {
    if n == 0 then 0 else HeldFrames(held, n - 1) + if n - 1 in held then Pow2(held[n - 1]) else 0
  }

  lemma {:induction false} HeldAdd(held: map<nat, nat>, p: nat, k: nat, n: nat)
    requires p !in held
    ensures HeldFrames(held[p := k], n) == HeldFrames(held, n) + if p < n then Pow2(k) else 0
  {
    if n > 0 { HeldAdd(held, p, k, n - 1); }
  }

  lemma HeldRemove(held: map<nat, nat>, p: nat, n: nat)
    requires p in held
    ensures HeldFrames(held, n) == HeldFrames(held - {p}, n) + if p < n then Pow2(held[p]) else 0
  {
    assert (held - {p})[p := held[p]] == held;
    HeldAdd(held - {p}, p, held[p], n);
  }

  // ---------- freeing with coalescing ----------

  function Lower(p: nat, q: nat): nat {
    if q < p then q else p
  }

  /** One round of coalescing: the held block at `p` swallows its global buddy. */
  function Absorb(s: Space, p: nat, k: nat): Space
    requires BuddyOf(p, k) in s.blocks && p in s.blocks
  {
    Merge(Move(s, BuddyOf(p, k), Held), Lower(p, BuddyOf(p, k)))
  }

  ghost predicate CanAbsorb(s: Space, p: nat, k: nat) {
    && WellFormed(s) && Coalesced(s) && k < MAX_ORDER - 1
    && p in s.blocks && s.blocks[p] == Block(k, Held) && HasGlobal(s, BuddyOf(p, k), k)
  }

  lemma AbsorbBase(s: Space, p: nat, k: nat)
    requires CanAbsorb(s, p, k)
    ensures var m := Move(s, BuddyOf(p, k), Held); var lo := Lower(p, BuddyOf(p, k));
      && WellFormed(m) && Coalesced(m) && Aligned(lo, k + 1)
      && lo in m.blocks && lo + Pow2(k) in m.blocks
      && m.blocks[lo] == Block(k, Held) == m.blocks[lo + Pow2(k)]
      && {lo, lo + Pow2(k)} == {p, BuddyOf(p, k)}
  {
    assert GoodBlock(s, p);
    BuddyFacts(p, k);
    MoveKeeps(s, BuddyOf(p, k), Held);
    MoveOffGlobal(s, BuddyOf(p, k), Held);
  }

  lemma AbsorbKeeps(s: Space, p: nat, k: nat)
    requires CanAbsorb(s, p, k)
    ensures var t := Absorb(s, p, k); var lo := Lower(p, BuddyOf(p, k));
      && WellFormed(t) && Coalesced(t) && lo in t.blocks && t.blocks[lo] == Block(k + 1, Held)
      && HeldMap(t) == (HeldMap(s) - {p})[lo := k + 1]
  {
    hide WellFormed, Coalesced, Aligned, Paint;
    AbsorbBase(s, p, k);
    var m, lo := Move(s, BuddyOf(p, k), Held), Lower(p, BuddyOf(p, k));
    MergeKeeps(m, lo, k);
    MergeCoalesced(m, lo);
    HeldMapMove(s, BuddyOf(p, k), Held);
    HeldMapMerge(m, lo, k);
    Swap(HeldMap(s), p, BuddyOf(p, k), lo, lo + Pow2(k), k);
  }

  lemma Swap(h: map<nat, nat>, p: nat, b: nat, lo: nat, hi: nat, k: nat)
    requires {lo, hi} == {p, b} && lo != hi && b !in h
    ensures (h[b := k] - {hi})[lo := k + 1] == (h - {p})[lo := k + 1]
  {
    assert lo in {lo, hi} && hi in {lo, hi} && p in {p, b} && b in {p, b};
  }

  lemma AbsorbRange(s: Space, p: nat, k: nat)
    requires CanAbsorb(s, p, k)
    ensures var lo := Lower(p, BuddyOf(p, k));
      && lo <= p && p + Pow2(k) <= lo + Pow2(k + 1)
      && (forall f :: lo <= f < lo + Pow2(k + 1) && !(p <= f < p + Pow2(k)) ==>
            BuddyOf(p, k) <= f < BuddyOf(p, k) + Pow2(k) && FrameIn(s, f, Global))
  {
    assert GoodBlock(s, p) && GoodBlock(s, BuddyOf(p, k));
    BuddyFacts(p, k);
    assert Pow2(k + 1) == 2 * Pow2(k);
  }

  lemma AbsorbFrames(s: Space, p: nat, k: nat)
    requires CanAbsorb(s, p, k)
    ensures var lo := Lower(p, BuddyOf(p, k));
      forall f, x :: FrameIn(Absorb(s, p, k), f, x) <==>
        if lo <= f < lo + Pow2(k + 1) then x == Held else FrameIn(s, f, x)
  {
    AbsorbBase(s, p, k);
    AbsorbRange(s, p, k);
    var m, lo := Move(s, BuddyOf(p, k), Held), Lower(p, BuddyOf(p, k));
    MergeFrames(m, lo, k);
    MoveFrames(s, BuddyOf(p, k), Held);
    MoveFrames(s, p, Held);
    assert Move(s, p, Held).blocks == s.blocks;
    assert Pow2(k + 1) == 2 * Pow2(k);
  }

  lemma AbsorbUninit(s: Space, p: nat, k: nat)
    requires CanAbsorb(s, p, k)
    ensures SameUninit(s, Absorb(s, p, k))
  {
    AbsorbBase(s, p, k);
    MergeOwners(Move(s, BuddyOf(p, k), Held), Lower(p, BuddyOf(p, k)), k);
  }

  ghost predicate PlacesExcept(s: Space, t: Space, p: nat, n: nat, place: Place) {
    forall f, x :: FrameIn(t, f, x) <==> if p <= f < p + n then x == place else FrameIn(s, f, x)
  }

  /** `t` is `s` with the held block of order `k` at `p` freed: its frames are now global, every
      other frame is where it was, and no other held block changed. */
  ghost predicate Freed(s: Space, p: nat, k: nat, t: Space) {
    && SameUninit(s, t)
    && HeldMap(t) == HeldMap(s) - {p}
    && PlacesExcept(s, t, p, Pow2(k), Global)
  }

  /** Midway through freeing [p0, p0 + 2^k0): it has grown into the held block of order `k` at `p`. */
  ghost predicate Freeing(s0: Space, p0: nat, k0: nat, s: Space, p: nat, k: nat) {
    && SameUninit(s0, s)
    && p in s.blocks && s.blocks[p] == Block(k, Held)
    && HeldMap(s) - {p} == HeldMap(s0) - {p0}
    && PlacesExcept(s0, s, p, Pow2(k), Held)
    && p <= p0 && p0 + Pow2(k0) <= p + Pow2(k)
    && forall f :: p <= f < p + Pow2(k) && !(p0 <= f < p0 + Pow2(k0)) ==> FrameIn(s0, f, Global)
  }

  lemma FreeStart(s: Space, p: nat, k: nat)
    requires WellFormed(s) && p in s.blocks && s.blocks[p] == Block(k, Held)
    ensures Freeing(s, p, k, s, p, k) && k < MAX_ORDER
  {
    MoveFrames(s, p, Held);
    assert Move(s, p, Held) == s;
    assert GoodBlock(s, p);
  }

  lemma FreeStep(s0: Space, p0: nat, k0: nat, s: Space, p: nat, k: nat)
    requires Freeing(s0, p0, k0, s, p, k) && WellFormed(s) && Coalesced(s)
    requires k < MAX_ORDER - 1 && HasGlobal(s, BuddyOf(p, k), k)
    ensures CanAbsorb(s, p, k)
    ensures Freeing(s0, p0, k0, Absorb(s, p, k), Lower(p, BuddyOf(p, k)), k + 1)
  {
    hide WellFormed, Coalesced, Aligned, Paint;
    assert CanAbsorb(s, p, k);
    AbsorbKeeps(s, p, k);
    AbsorbRange(s, p, k);
    AbsorbFrames(s, p, k);
    AbsorbUninit(s, p, k);
    FreeStepHeld(HeldMap(s), p, Lower(p, BuddyOf(p, k)), k + 1);
  }

  lemma FreeStepHeld(h: map<nat, nat>, p: nat, lo: nat, k: nat)
    requires lo == p || lo !in h
    ensures (h - {p})[lo := k] - {lo} == h - {p}
  {
  }

  lemma FreeEnd(s0: Space, p0: nat, k0: nat, s: Space, p: nat, k: nat)
    requires Freeing(s0, p0, k0, s, p, k) && WellFormed(s)
    ensures p in s.blocks && s.blocks[p] == Block(k, Held)
    ensures Freed(s0, p0, k0, Move(s, p, Global))
  {
    MoveFrames(s, p, Global);
    HeldMapMove(s, p, Global);
    var t := Move(s, p, Global);
    forall f, x
      ensures FrameIn(t, f, x) <==> if p0 <= f < p0 + Pow2(k0) then x == Global else FrameIn(s0, f, x)
    {
      if p <= f < p + Pow2(k) && !(p0 <= f < p0 + Pow2(k0)) { assert FrameIn(s0, f, Global); }
    }
  }

  // ---------- granting, with splitting ----------

  /** `t` is `s` with the aligned run of 2^k frames at `p` taken from the global lists and held as
      one block; every other frame is where it was, and no other held block changed. */
  ghost predicate Granted(s: Space, p: nat, k: nat, t: Space) {
    && SameUninit(s, t)
    && p in t.blocks && t.blocks[p] == Block(k, Held)
    && p !in HeldMap(s) && HeldMap(t) == HeldMap(s)[p := k]
    && PlacesExcept(s, t, p, Pow2(k), Held)
    && forall f :: p <= f < p + Pow2(k) ==> FrameIn(s, f, Global)
  }

  lemma GrantStart(s: Space, p: nat, k: nat)
    requires WellFormed(s) && HasGlobal(s, p, k)
    ensures Granted(s, p, k, Move(s, p, Held))
  {
    MoveFrames(s, p, Held);
    HeldMapMove(s, p, Held);
    assert GoodBlock(s, p);
  }

  /** The upper half of the held block at `p` goes back to the global lists. */
  function GiveBack(s: Space, p: nat, k: nat): Space
    requires p in s.blocks && s.blocks[p] == Block(k + 1, Held)
  {
    Move(Split(s, p), p + Pow2(k), Global)
  }

  lemma GrantStep(s0: Space, s: Space, p: nat, k: nat)
    requires Granted(s0, p, k + 1, s) && WellFormed(s)
    ensures p in s.blocks && s.blocks[p] == Block(k + 1, Held)
    ensures Granted(s0, p, k, GiveBack(s, p, k))
  {
    hide Aligned, WellFormed, FrameIn;
    SplitKeeps(s, p, k);
    SplitUninit(s, p, k);
    GrantStepHeld(s0, s, p, k);
    GrantStepPlaces(s0, s, p, k);
  }

  lemma GrantStepHeld(s0: Space, s: Space, p: nat, k: nat)
    requires p in s.blocks && s.blocks[p] == Block(k + 1, Held) && p + Pow2(k) !in s.blocks
    requires p !in HeldMap(s0) && HeldMap(s) == HeldMap(s0)[p := k + 1]
    ensures HeldMap(GiveBack(s, p, k)) == HeldMap(s0)[p := k]
  {
    HeldMapSplit(s, p, k);
    HeldMapMove(Split(s, p), p + Pow2(k), Global);
    assert p + Pow2(k) !in HeldMap(s);
  }

  lemma GrantStepPlaces(s0: Space, s: Space, p: nat, k: nat)
    requires WellFormed(s) && p in s.blocks && s.blocks[p] == Block(k + 1, Held)
    requires PlacesExcept(s0, s, p, Pow2(k + 1), Held)
    requires forall f :: p <= f < p + Pow2(k + 1) ==> FrameIn(s0, f, Global)
    ensures PlacesExcept(s0, GiveBack(s, p, k), p, Pow2(k), Held)
    ensures forall f :: p <= f < p + Pow2(k) ==> FrameIn(s0, f, Global)
  {
    hide Aligned, WellFormed;
    var m, t, q := Split(s, p), GiveBack(s, p, k), p + Pow2(k);
    SplitKeeps(s, p, k);
    SplitFrames(s, p);
    MoveFrames(m, q, Global);
    assert Pow2(k + 1) == 2 * Pow2(k);
    forall f, x ensures FrameIn(t, f, x) <==> if p <= f < p + Pow2(k) then x == Held else FrameIn(s0, f, x) {
      if q <= f < q + Pow2(k) {
        assert FrameIn(s0, f, Global);
      } else {
        assert FrameIn(t, f, x) <==> FrameIn(s, f, x);
      }
    }
  }

  lemma SplitUninit(s: Space, p: nat, k: nat)
    requires WellFormed(s) && p in s.blocks && s.blocks[p].order == k + 1
    ensures SameUninit(s, Split(s, p))
  {
    assert GoodBlock(s, p) && Pow2(k + 1) == 2 * Pow2(k);
  }

  // ---------- carving uninitialised memory ----------

  ghost predicate AllUninit(s: Space, lo: nat, hi: nat) {
    hi <= |s.own| && forall f :: lo <= f < hi ==> s.own[f].Uninit?
  }

  /** No frame becomes usable or unusable, and exactly [lo, hi) stops being uninitialised. */
  ghost predicate UninitMinus(s: Space, t: Space, lo: nat, hi: nat) {
    && |s.own| == |t.own|
    && forall f :: 0 <= f < |s.own| ==>
      && (s.own[f].NoOne? <==> t.own[f].NoOne?)
      && (t.own[f].Uninit? <==> s.own[f].Uninit? && !(lo <= f < hi))
  }

  /** `t` is `s` with the uninitialised frames [lo, hi) released to the global lists. */
  ghost predicate Released(s: Space, lo: nat, hi: nat, t: Space) {
    && AllUninit(s, lo, hi) && UninitMinus(s, t, lo, hi)
    && HeldMap(t) == HeldMap(s)
    && (forall f, x :: FrameIn(t, f, x) <==> if lo <= f < hi then x == Global else FrameIn(s, f, x))
  }

  /** `t` is `s` with the uninitialised run of 2^k frames at `p` carved into a held block, after
      the alignment gap [lo, p) was released. */
  ghost predicate Carved(s: Space, lo: nat, p: nat, k: nat, t: Space) {
    && lo <= p && AllUninit(s, lo, p + Pow2(k)) && UninitMinus(s, t, lo, p + Pow2(k))
    && p in t.blocks && t.blocks[p] == Block(k, Held)
    && p !in HeldMap(s) && HeldMap(t) == HeldMap(s)[p := k]
    && (forall f, x :: FrameIn(t, f, x) <==>
          if lo <= f < p then x == Global else if p <= f < p + Pow2(k) then x == Held else FrameIn(s, f, x))
  }

  lemma ReleaseStep(s0: Space, lo: nat, s: Space, p: nat, k: nat, t: Space)
    requires Released(s0, lo, p, s) && AllUninit(s0, lo, p + Pow2(k)) && lo <= p
    requires WellFormed(s) && k < MAX_ORDER && Aligned(p, k)
    requires Freed(Claim(s, p, k), p, k, t)
    ensures Released(s0, lo, p + Pow2(k), t)
  {
    hide Aligned, WellFormed, Coalesced;
    StillUninit(s0, lo, s, p, k);
    ClaimKeeps(s, p, k);
    ClaimFrames(s, p, k);
    HeldMapClaim(s, p, k);
    assert HeldMap(t) == HeldMap(s);
  }

  lemma StillUninit(s0: Space, lo: nat, s: Space, p: nat, k: nat)
    requires Released(s0, lo, p, s) && AllUninit(s0, lo, p + Pow2(k)) && lo <= p
    ensures AllUninit(s, p, p + Pow2(k))
  {
  }

  lemma CarveStep(s0: Space, lo: nat, s: Space, p: nat, k: nat)
    requires Released(s0, lo, p, s) && AllUninit(s0, lo, p + Pow2(k)) && lo <= p
    requires WellFormed(s) && k < MAX_ORDER && Aligned(p, k)
    ensures Carved(s0, lo, p, k, Claim(s, p, k))
  {
    hide Aligned, WellFormed, Coalesced;
    StillUninit(s0, lo, s, p, k);
    ClaimKeeps(s, p, k);
    ClaimFrames(s, p, k);
    HeldMapClaim(s, p, k);
  }
}
