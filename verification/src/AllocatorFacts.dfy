/** What allocating, freeing, draining and compacting mean for the blocks, lists and counters. */
module AllocatorFacts {
  import opened Basics
  import opened Bits
  import opened BuddySpace
  import opened FrameLists
  import opened FramePool
  import opened Options
  import opened UninitRegions

  const ORDER_4K: nat := 0
  const RESERVE_PAGES: nat := 32

  function PerCpuLimit(order: nat): nat {
    if order <= 1 then 64 else if order <= 4 then 32 else if order <= 8 then 16
    else if order <= 12 then 8 else if order <= 16 then 4 else 2
  }

  function PerCpuBatch(order: nat): nat {
    if PerCpuLimit(order) > 8 then 8 else PerCpuLimit(order)
  }

  /** The per-CPU caches and the reserve hold the same lists. */
  ghost predicate SameCaches(a: map<ListId, seq<nat>>, b: map<ListId, seq<nat>>) {
    forall id :: id in a && !id.GlobalList? ==> id in b && b[id] == a[id]
  }

  ghost predicate SameOrders(f: seq<BuddyFrame>, g: seq<BuddyFrame>) {
    |f| == |g| && forall x :: 0 <= x < |f| ==> f[x].order == g[x].order
  }

  lemma FreshPool(P: Pool)
    requires P.space.blocks == map[] && |P.frames| == |P.space.own|
    requires forall f :: 0 <= f < |P.space.own| ==> !P.space.own[f].Of?
    requires forall f :: 0 <= f < |P.frames| ==> P.frames[f].state == Allocated
    requires P.heads.Keys == P.lists.Keys == AllLists()
    requires forall id :: id in P.lists ==> P.heads[id] == None && P.lists[id] == []
    ensures Inv(P)
  {
    forall id | id in P.lists ensures GoodList(P, id) {}
  }

  lemma {:induction false} HeldNone(n: nat)
    ensures HeldFrames(map[], n) == 0
  {
    if n > 0 { HeldNone(n - 1); }
  }

  /** A served block shares no frame with a block that was held before. */
  lemma NoOverlap(s: Space, p: nat, k: nat, t: Space, q: nat)
    requires Served(s, p, k, t) && WellFormed(t) && q in HeldMap(s)
    ensures p + Pow2(k) <= q || q + Pow2(HeldMap(s)[q]) <= p
  {
    assert q in HeldMap(t);
    var f := if p < q then q else p;
    if p < q { BlocksDisjoint(t, q, p, f); } else { BlocksDisjoint(t, p, q, f); }
  }

  lemma PopServes(P: Pool, id: ListId, p: nat, Q: Pool)
    requires Popped(P, id, p, Q) && WellFormed(P.space)
    requires id.CacheList? || id.ReserveList?
    requires LimitsOk(P.lists)
    ensures Served(P.space, p, if id.CacheList? then id.order else ORDER_4K, Q.space)
    ensures LimitsOk(Q.lists)
  {
    assert GoodBlock(P.space, p);
    HeldMapMove(P.space, p, Held);
  }

  lemma ServedCount(s: Space, p: nat, k: nat, t: Space, n: nat)
    requires Served(s, p, k, t) && WellFormed(t) && n == |t.own|
    ensures |s.own| == n && HeldFrames(HeldMap(t), n) == HeldFrames(HeldMap(s), n) + Pow2(k)
  {
    HeldAdd(HeldMap(s), p, k, n);
    HeadOwnsItself(t, p);
  }

  lemma ReturnedCount(s: Space, p: nat, k: nat, t: Space, n: nat)
    requires Returned(s, p, k, t) && WellFormed(s) && n == |t.own| && p in HeldMap(s) && HeldMap(s)[p] == k
    ensures |s.own| == n && HeldFrames(HeldMap(s), n) == HeldFrames(HeldMap(t), n) + Pow2(k)
  {
    HeldRemove(HeldMap(s), p, n);
    HeadOwnsItself(s, p);
  }

  lemma CompactServes(s: Space, m: Space, r: Option<nat>, k: nat, t: Space)
    requires Compacting(s, m)
    ensures r.Some? && Served(m, r.value, k, t) ==> Served(s, r.value, k, t)
    ensures HeldMap(m) == HeldMap(s) && SameUninit(s, m)
  {
  }

  lemma HeldMeta(P: Pool, p: nat)
    requires Inv(P) && HeldOrders(P, {})
    ensures p in HeldMap(P.space) ==>
      && p < |P.frames| && P.frames[p].state.Allocated? && P.frames[p].order == HeldMap(P.space)[p]
      && p in P.space.blocks && P.space.blocks[p] == Block(HeldMap(P.space)[p], Held)
  {
    if p in HeldMap(P.space) { assert GoodMeta(P, p); }
  }

  lemma LimitsReserve(lists: map<ListId, seq<nat>>, xs: seq<nat>)
    requires LimitsOk(lists)
    ensures LimitsOk(lists[ReserveList := xs])
  {
  }

  predicate OfOrder(id: ListId, k: nat) {
    (id.GlobalList? || id.CacheList?) && id.order == k
  }

  predicate EmptyList(lists: map<ListId, seq<nat>>, id: ListId) {
    id in lists && lists[id] == []
  }

  /** Some free block has order `k`. */
  ghost predicate SomeFree(s: Space, k: nat) {
    exists p :: p in s.blocks && s.blocks[p].order == k && (s.blocks[p].place.Global? || s.blocks[p].place.PerCpu?)
  }

  lemma SomeFreeList(P: Pool, k: nat)
    requires Inv(P) && exists id :: id in P.lists && OfOrder(id, k) && P.lists[id] != []
    ensures SomeFree(P.space, k)
  {
    var id :| id in P.lists && OfOrder(id, k) && P.lists[id] != [];
    assert GoodList(P, id);
    assert P.lists[id][0] in P.lists[id];
  }

  lemma NoFreeList(P: Pool, k: nat)
    requires Inv(P)
    requires forall s :: 0 <= s < SHARD_COUNT ==> EmptyList(P.lists, GlobalList(k, s))
    requires forall c :: 0 <= c < MAX_CPUS ==> EmptyList(P.lists, CacheList(c, k))
    ensures !SomeFree(P.space, k)
  {
    forall p | p in P.space.blocks && P.space.blocks[p].order == k
      ensures !P.space.blocks[p].place.Global? && !P.space.blocks[p].place.PerCpu?
    {
      assert GoodMeta(P, p);
      var b := P.space.blocks[p];
      assert b.place.PerCpu? ==> LegalList(CacheList(b.place.cpu, k));
    }
  }

  lemma AllGlobal(P: Pool, s: Space)
    requires Inv(P) && Compacting(s, P.space)
    requires forall id :: LegalList(id) && id.CacheList? ==> id in P.lists && P.lists[id] == []
    ensures |s.own| == |P.space.own| && forall f :: FrameIn(P.space, f, Global) <==> FreeFrame(s, f)
  {
    forall f | FreeFrame(P.space, f) ensures FrameIn(P.space, f, Global) {
      assert GoodMeta(P, P.space.own[f].head);
    }
  }

  lemma CompactGrows(s: Space, t: Space, k: nat)
    requires WellFormed(s) && WellFormed(t) && Coalesced(t) && k < MAX_ORDER && SomeFree(s, k)
    requires |s.own| == |t.own| && forall f :: FrameIn(t, f, Global) <==> FreeFrame(s, f)
    ensures exists j :: k <= j < MAX_ORDER && SomeFree(t, j)
  {
    var p :| p in s.blocks && s.blocks[p].order == k && (s.blocks[p].place.Global? || s.blocks[p].place.PerCpu?);
    assert GoodBlock(s, p);
    forall f | p <= f < p + Pow2(k) ensures FrameIn(t, f, Global) { assert FreeFrame(s, f); }
    FreeRunInOneBlock(t, p, k);
    assert GoodBlock(t, t.own[p].head);
    assert SomeFree(t, t.blocks[t.own[p].head].order);
  }

  ghost predicate LimitsOk(lists: map<ListId, seq<nat>>) {
    forall id :: LegalList(id) && id.CacheList? ==> id in lists && |lists[id]| <= PerCpuLimit(id.order)
  }

  ghost predicate LimitsExcept(lists: map<ListId, seq<nat>>, x: ListId) {
    forall id :: LegalList(id) && id.CacheList? && id != x ==> id in lists && |lists[id]| <= PerCpuLimit(id.order)
  }

  lemma LimitsPopped(a: map<ListId, seq<nat>>, b: map<ListId, seq<nat>>, x: ListId)
    requires x in a && |a[x]| > 0 && SameCaches(a[x := a[x][1..]], b) && LimitsExcept(a, x)
    ensures LimitsExcept(b, x)
  {
  }

  lemma LimitsShrink(a: map<ListId, seq<nat>>, b: map<ListId, seq<nat>>, x: ListId)
    requires x in a && |a[x]| > 0 && SameCaches(a[x := a[x][1..]], b) && LimitsOk(a)
    ensures LimitsOk(b)
  {
  }

  lemma LimitsWeaker(lists: map<ListId, seq<nat>>, x: ListId)
    requires LimitsOk(lists)
    ensures LimitsExcept(lists, x)
  {
  }

  lemma LimitsStronger(lists: map<ListId, seq<nat>>, x: ListId)
    requires LimitsExcept(lists, x) && x in lists && x.CacheList? && |lists[x]| <= PerCpuLimit(x.order)
    ensures LimitsOk(lists)
  {
  }

  lemma LimitsKept(a: map<ListId, seq<nat>>, b: map<ListId, seq<nat>>)
    requires LimitsOk(a) && SameCaches(a, b)
    ensures LimitsOk(b)
  {
  }

  lemma EmptyKept(a: map<ListId, seq<nat>>, b: map<ListId, seq<nat>>)
    requires SameCaches(a, b) && forall id :: LegalList(id) && id.CacheList? ==> EmptyList(a, id)
    ensures forall id :: LegalList(id) && id.CacheList? ==> EmptyList(b, id)
  {
  }

  lemma LimitsSame(a: map<ListId, seq<nat>>, b: map<ListId, seq<nat>>, x: ListId)
    requires LimitsExcept(a, x) && SameCaches(a, b)
    ensures LimitsExcept(b, x)
  {
  }

  lemma LimitsAt(a: map<ListId, seq<nat>>, x: ListId, xs: seq<nat>)
    requires LimitsExcept(a, x)
    ensures LimitsExcept(a[x := xs], x)
  {
  }

  /** Serving a second block and moving it off to a list leaves the first one served. */
  lemma ServedTwice(s: Space, p: nat, t: Space, q: nat, k: nat, u: Space, place: Place)
    requires Served(s, p, k, t) && Served(t, q, k, u) && !place.Held?
    ensures q in u.blocks && u.blocks[q] == Block(k, Held) && Served(s, p, k, Move(u, q, place))
  {
    HeldMapMove(u, q, place);
    assert p in HeldMap(t) && p != q;
    assert p in HeldMap(u);
    assert HeldMap(Move(u, q, place)) == HeldMap(t);
  }

  lemma SameCachesAt(a: map<ListId, seq<nat>>, b: map<ListId, seq<nat>>, x: ListId)
    requires SameCaches(a, b) && x in a && !x.GlobalList?
    ensures x in b && b[x] == a[x]
  {
  }

  /** Frame `f` is free: on a global list or in a per-CPU cache. */
  predicate FreeFrame(s: Space, f: int) {
    && 0 <= f < |s.own| && s.own[f].Of? && s.own[f].head in s.blocks
    && (s.blocks[s.own[f].head].place.Global? || s.blocks[s.own[f].head].place.PerCpu?)
  }

  /** `t` is `s` with some cached frames moved to the global lists. */
  ghost predicate Compacting(s: Space, t: Space) {
    && HeldMap(t) == HeldMap(s) && SameUninit(s, t)
    && (forall f :: FreeFrame(t, f) <==> FreeFrame(s, f))
    && (forall f :: FrameIn(s, f, Global) ==> FrameIn(t, f, Global))
    && (forall f :: FrameIn(t, f, Reserve) <==> FrameIn(s, f, Reserve))
  }

  lemma CompactingRefl(s: Space)
    ensures Compacting(s, s)
  {
  }

  lemma CompactingTransitive(s: Space, t: Space, u: Space)
    requires Compacting(s, t) && Compacting(t, u)
    ensures Compacting(s, u)
  {
  }

  /** `t` is `s` with the held block of order `k` at `p` given back: its frames are free or in the
      reserve, and no other frame changed between held, reserve, free and uninitialised. */
  ghost predicate Returned(s: Space, p: nat, k: nat, t: Space) {
    && HeldMap(t) == HeldMap(s) - {p} && SameUninit(s, t)
    && (forall f :: p <= f < p + Pow2(k) ==> FreeFrame(t, f) || FrameIn(t, f, Reserve))
    && (forall f :: !(p <= f < p + Pow2(k)) ==>
          (FreeFrame(t, f) <==> FreeFrame(s, f)) && (FrameIn(t, f, Reserve) <==> FrameIn(s, f, Reserve)))
  }

  lemma PushReturns(s: Space, p: nat, k: nat, place: Place, t: Space)
    requires WellFormed(s) && p in s.blocks && s.blocks[p] == Block(k, Held)
    requires place.PerCpu? || place.Reserve?
    requires Compacting(Move(s, p, place), t)
    ensures Returned(s, p, k, t)
  {
    var m := Move(s, p, place);
    MoveFrames(s, p, place);
    HeldMapMove(s, p, place);
    assert GoodBlock(s, p);
    forall f
      ensures p <= f < p + Pow2(k) ==> FreeFrame(m, f) || FrameIn(m, f, Reserve)
      ensures !(p <= f < p + Pow2(k)) ==> (FreeFrame(m, f) <==> FreeFrame(s, f))
    {
      FreeFramePlaces(s, f);
      FreeFramePlaces(m, f);
    }
  }

  lemma PoppedFacts(P: Pool, id: ListId, p: nat, Q: Pool)
    requires Popped(P, id, p, Q) && id.CacheList?
    ensures P.space.blocks[p] == Block(id.order, PerCpu(id.cpu))
    ensures p in Q.space.blocks && Q.space.blocks[p] == Block(id.order, Held)
    ensures SameUninit(P.space, Q.space)
  {
  }

  lemma FreedUninit(s: Space, p: nat, k: nat, t: Space)
    requires Freed(s, p, k, t)
    ensures SameUninit(s, t)
  {
  }

  /** Taking a block to a cache and straight on to the global lists is freeing it. */
  lemma ThroughCache(s: Space, p: nat, k: nat, cpu: nat, t: Space)
    requires WellFormed(s) && p in s.blocks && s.blocks[p] == Block(k, Held)
    requires Freed(Move(Move(s, p, PerCpu(cpu)), p, Held), p, k, t)
    ensures Freed(s, p, k, t)
  {
    assert Move(Move(s, p, PerCpu(cpu)), p, Held) == s;
  }

  lemma DrainStep(s: Space, p: nat, k: nat, cpu: nat, t: Space)
    requires WellFormed(s) && p in s.blocks && s.blocks[p] == Block(k, PerCpu(cpu))
    requires Freed(Move(s, p, Held), p, k, t)
    ensures Compacting(s, t)
  {
    MoveFrames(s, p, Held);
    HeldMapMove(s, p, Held);
    assert HeldMap(t) == HeldMap(s);
    assert GoodBlock(s, p);
    forall f ensures FreeFrame(t, f) <==> FreeFrame(s, f) {
      FreeFramePlaces(s, f);
      FreeFramePlaces(t, f);
    }
  }

  /** A frame owned by a block is in exactly one place. */
  lemma FreeFramePlaces(s: Space, f: int)
    ensures FreeFrame(s, f) <==> FrameIn(s, f, Global) || exists c :: FrameIn(s, f, PerCpu(c))
  {
    if FreeFrame(s, f) && !FrameIn(s, f, Global) {
      assert FrameIn(s, f, PerCpu(s.blocks[s.own[f].head].place.cpu));
    }
  }

  /** Per-CPU counts and the reserve count are the lengths of their lists. */
  ghost predicate CountsOk(counts: map<ListId, nat>, reserveCount: nat, lists: map<ListId, seq<nat>>) {
    && (forall id :: LegalList(id) && id.CacheList? ==> id in counts && id in lists && counts[id] == |lists[id]|)
    && ReserveList in lists && reserveCount == |lists[ReserveList]|
  }

  lemma CountsSame(counts: map<ListId, nat>, reserveCount: nat, a: map<ListId, seq<nat>>, b: map<ListId, seq<nat>>)
    requires CountsOk(counts, reserveCount, a) && SameCaches(a, b)
    ensures CountsOk(counts, reserveCount, b)
  {
  }

  lemma CountFacts(counts: map<ListId, nat>, reserveCount: nat, lists: map<ListId, seq<nat>>, id: ListId)
    requires CountsOk(counts, reserveCount, lists) && LegalList(id)
    ensures id.CacheList? ==> id in counts && id in lists && counts[id] == |lists[id]|
    ensures id.ReserveList? ==> id in lists && reserveCount == |lists[id]|
  {
  }

  lemma CountsPopped(counts: map<ListId, nat>, reserveCount: nat, lists: map<ListId, seq<nat>>, id: ListId)
    requires CountsOk(counts, reserveCount, lists) && LegalList(id) && id in lists && |lists[id]| > 0
    ensures id.CacheList? ==> id in counts && counts[id] > 0
    ensures id.CacheList? ==> CountsOk(counts[id := counts[id] - 1], reserveCount, lists[id := lists[id][1..]])
    ensures id.ReserveList? ==> reserveCount > 0
    ensures id.ReserveList? ==> CountsOk(counts, reserveCount - 1, lists[id := lists[id][1..]])
  {
  }

  lemma CountsPushed(counts: map<ListId, nat>, reserveCount: nat, lists: map<ListId, seq<nat>>, id: ListId, p: nat)
    requires CountsOk(counts, reserveCount, lists) && LegalList(id) && id in lists
    ensures id.CacheList? ==> id in counts
    ensures id.CacheList? ==> CountsOk(counts[id := counts[id] + 1], reserveCount, lists[id := [p] + lists[id]])
    ensures id.ReserveList? ==> CountsOk(counts, reserveCount + 1, lists[id := [p] + lists[id]])
  {
  }

  /** `Q` is `P` with the head `p` of list `id` taken. */
  ghost predicate Popped(P: Pool, id: ListId, p: nat, Q: Pool) {
    && id in P.lists && |P.lists[id]| > 0 && P.lists[id][0] == p
    && Q.lists == P.lists[id := P.lists[id][1..]]
    && p in P.space.blocks && Home(p, P.space.blocks[p]) == Some(id)
    && Q.space == Move(P.space, p, Held)
  }

  lemma PopKeeps(P: Pool, id: ListId, Q: Pool, stale: set<nat>)
    requires Inv(P) && HeldOrders(P, stale) && LegalList(id) && !id.GlobalList?
    requires id in P.heads && P.heads[id].Some? && P.heads[id].value < |P.frames| && id in P.lists
    requires var p := P.heads[id].value;
      && p in P.space.blocks && Q.space == Move(P.space, p, Held)
      && Q.heads == P.heads[id := P.frames[p].next]
      && |P.lists[id]| > 0 && Q.lists == P.lists[id := P.lists[id][1..]]
      && Q.frames == P.frames[p := P.frames[p].(next := None, prev := None, state := Allocated, migratable := true)]
    ensures Inv(Q) && HeldOrders(Q, stale) && Popped(P, id, P.heads[id].value, Q)
  {
    hide WellFormed, Coalesced;
    HeadFacts(P, id);
    var p := P.heads[id].value;
    assert GoodList(P, id) && GoodMeta(P, p);
    assert Node(P.frames, P.lists[id], 0, false);
    assert Without(P.lists[id], 0) == P.lists[id][1..];
    TakeKeeps(P, id, 0, Q);
  }

  lemma BlockInRange(s: Space, p: nat)
    requires WellFormed(s) && p in s.blocks
    ensures s.blocks[p].order < MAX_ORDER && p < |s.own| && Aligned(p, s.blocks[p].order)
  {
    assert GoodBlock(s, p);
    HeadOwnsItself(s, p);
  }

  /** No frame becomes usable or unusable. */
  ghost predicate SameUsable(s: Space, t: Space) {
    |s.own| == |t.own| && forall f :: 0 <= f < |s.own| ==> (s.own[f].NoOne? <==> t.own[f].NoOne?)
  }

  /** `t` is `s` with one more held block, of order `k` at `p`. */
  ghost predicate Served(s: Space, p: nat, k: nat, t: Space) {
    && p in t.blocks && t.blocks[p] == Block(k, Held)
    && p !in HeldMap(s) && HeldMap(t) == HeldMap(s)[p := k] && SameUsable(s, t)
  }

  /** Neither the free lists nor the regions hold an aligned run of 2^order frames. */
  ghost predicate Exhausted(s: Space, regs: Regions, order: nat) {
    (forall a: nat :: !GlobalRun(s, a, order)) && (forall i :: !Fits(regs, i, order))
  }

  /** Frame `f` belongs to the block at `p`, which is on list `id`. */
  ghost predicate Kept(P: Pool, id: ListId, p: nat, f: nat) {
    id in P.lists && p in P.lists[id] && Covers(P.space, p, f)
  }

  ghost predicate HeldBy(P: Pool, p: nat, f: nat) {
    Covers(P.space, p, f) && P.space.blocks[p].place.Held?
  }

  /** The partition of memory: a usable frame is in one uninitialised region, in one held block, or in one block on one
      list, and in no two of these. */
  lemma OnePlace(P: Pool, regs: Regions, f: nat)
    requires Inv(P) && RegionsOk(regs, P.space.own) && f < |P.space.own| && !P.space.own[f].NoOne?
    ensures (exists i :: InRegion(regs, i, f)) || (exists p :: HeldBy(P, p, f)) || exists id, p :: Kept(P, id, p, f)
    ensures forall i, p :: InRegion(regs, i, f) ==> !Covers(P.space, p, f)
    ensures forall i, j :: InRegion(regs, i, f) && InRegion(regs, j, f) ==> i == j
    ensures forall p, q :: HeldBy(P, p, f) && HeldBy(P, q, f) ==> p == q
    ensures forall p, id, q :: HeldBy(P, p, f) ==> !Kept(P, id, q, f)
    ensures forall id, p, jd, q :: Kept(P, id, p, f) && Kept(P, jd, q, f) ==> id == jd && p == q
  {
    hide WellFormed, Coalesced, ListsInv, MetaInv, RegionsOk, Home, InRegion;
    OneHome(regs, P.space, f);
    forall id, p | Kept(P, id, p, f) ensures Home(p, P.space.blocks[p]) == Some(id) && !P.space.blocks[p].place.Held? {
      OneList(P, p, id);
      HomeOfHeld(p, P.space.blocks[p]);
    }
    if P.space.own[f].Of? {
      var p :| Covers(P.space, p, f);
      if !P.space.blocks[p].place.Held? {
        var id := HomeListed(P, p);
        OneList(P, p, id);
        assert Kept(P, id, p, f);
      } else {
        assert HeldBy(P, p, f);
      }
    }
  }

  lemma HomeOfHeld(p: nat, b: Block)
    ensures Home(p, b).None? <==> b.place.Held?
  {
  }

  lemma HomeListed(P: Pool, p: nat) returns (id: ListId)
    requires Inv(P) && p in P.space.blocks && !P.space.blocks[p].place.Held?
    ensures Home(p, P.space.blocks[p]) == Some(id) && id in P.lists
  {
    id := Home(p, P.space.blocks[p]).value;
    assert GoodMeta(P, p);
    assert GoodBlock(P.space, p);
  }

  /** The cache and everything behind it but the reserve have nothing of that order. */
  ghost predicate Wanting(lists: map<ListId, seq<nat>>, s: Space, regs: Regions, cache: ListId, order: nat) {
    EmptyList(lists, cache) && Exhausted(s, regs, order)
  }

  /** `p` is the head of the first list of `order` that is not empty, from the shard of `cpu` on. */
  ghost predicate ShardHead(lists: map<ListId, seq<nat>>, cpu: nat, order: nat, p: nat) {
    exists o: nat :: o < SHARD_COUNT && HeadAt(lists, cpu, order, o, p)
  }

  ghost predicate HeadAt(lists: map<ListId, seq<nat>>, cpu: nat, order: nat, o: nat, p: nat) {
    var id := GlobalList(order, ShardAt(cpu % SHARD_COUNT, o));
    && id in lists && lists[id] != [] && lists[id][0] == p
    && forall n: nat :: n < o ==> EmptyList(lists, GlobalList(order, ShardAt(cpu % SHARD_COUNT, n)))
  }

  /** `p` is that head for the smallest order, from `order` on, that has a free block at all. */
  ghost predicate SmallestFit(lists: map<ListId, seq<nat>>, s: Space, cpu: nat, order: nat, p: nat) {
    exists j: nat :: order <= j < MAX_ORDER && ShardHead(lists, cpu, j, p) && NoneBelow(s, order, j)
  }

  ghost predicate NoneBelow(s: Space, order: nat, j: nat) {
    forall p, i :: order <= i < j ==> !HasGlobal(s, p, i)
  }

  /** `p` is where the first region, in rotation, that fits has its first aligned run. */
  ghost predicate FirstRun(regs: Regions, last: nat, order: nat, p: nat) {
    exists i: nat :: FirstFit(regs, last, i, order) && p == AlignUp(regs[i].value.start, order)
  }

  ghost predicate SomeRun(s: Space, order: nat) {
    exists a: nat :: GlobalRun(s, a, order)
  }

  /** The block that is served next from the lists, and from the regions only when the lists have no run. */
  ghost predicate Chosen(lists: map<ListId, seq<nat>>, s: Space, regs: Regions, last: nat, cpu: nat, order: nat,
                         p: nat) {
    if SomeRun(s, order) then SmallestFit(lists, s, cpu, order, p) else FirstRun(regs, last, order, p)
  }

  lemma GrantChosen(P: Pool, regs: Regions, last: nat, cpu: nat, p: nat, k: nat, Q: Pool)
    requires Granted(P.space, p, k, Q.space) && Inv(Q) && SmallestFit(P.lists, P.space, cpu, k, p)
    ensures Chosen(P.lists, P.space, regs, last, cpu, k, p) && SomeRun(P.space, k)
  {
    hide SmallestFit;
    assert GoodBlock(Q.space, p);
    assert GlobalRun(P.space, p, k);
  }

  lemma CarveChosen(lists: map<ListId, seq<nat>>, s: Space, regs: Regions, last: nat, i: nat, cpu: nat, k: nat, p: nat)
    requires (forall a: nat :: !GlobalRun(s, a, k)) && FirstFit(regs, last, i, k)
    requires p == AlignUp(regs[i].value.start, k)
    ensures Chosen(lists, s, regs, last, cpu, k, p) && !SomeRun(s, k)
  {
  }

  /** Where a block comes from: the front of the cache; failing that, lists and regions; failing these, for single
      frames, the front of the reserve. */
  ghost predicate Sourced(lists: map<ListId, seq<nat>>, s: Space, regs: Regions, last: nat, cpu: nat, order: nat,
                          r: Option<nat>, now: map<ListId, seq<nat>>) {
    var cache := CacheList(cpu % MAX_CPUS, order);
    && cache in lists && ReserveList in lists && ReserveList in now
    && (lists[cache] != [] ==> r == Some(lists[cache][0]) && now == lists[cache := lists[cache][1..]])
    && (lists[cache] == [] && !Exhausted(s, regs, order) ==>
          r.Some? && Chosen(lists, s, regs, last, cpu, order, r.value) && now[ReserveList] == lists[ReserveList])
    && (Wanting(lists, s, regs, cache, order) && order != ORDER_4K ==> r.None?)
    && (Wanting(lists, s, regs, cache, order) && order == ORDER_4K ==>
          if lists[ReserveList] == [] then r.None?
          else r == Some(lists[ReserveList][0]) && now == lists[ReserveList := lists[ReserveList][1..]])
  }

  lemma NoneWanting(lists: map<ListId, seq<nat>>, s: Space, regs: Regions, last: nat, cpu: nat, order: nat,
                    r: Option<nat>, now: map<ListId, seq<nat>>)
    requires Sourced(lists, s, regs, last, cpu, order, r, now)
    ensures r.None? ==> Wanting(lists, s, regs, CacheList(cpu % MAX_CPUS, order), order)
    ensures r.Some? && order != ORDER_4K ==> !Wanting(lists, s, regs, CacheList(cpu % MAX_CPUS, order), order)
  {
    hide Exhausted, Chosen;
  }

  /** An aligned run of 2^k free frames, on global lists or in caches. */
  ghost predicate FreeRun(s: Space, a: nat, k: nat) {
    Aligned(a, k) && a + Pow2(k) <= |s.own| && forall f :: a <= f < a + Pow2(k) ==> FreeFrame(s, f)
  }

  /** Compaction is tried: the order is not a single frame, nothing was found, the last compaction is 1024 calls ago,
      and no free block, cached or not, has that order or more. */
  ghost predicate Retried(lists: map<ListId, seq<nat>>, s: Space, regs: Regions, cpu: nat, order: nat, calls: nat,
                          last: nat) {
    && order > ORDER_4K && Wanting(lists, s, regs, CacheList(cpu % MAX_CPUS, order), order)
    && calls - last >= 1024 && forall k :: order <= k < MAX_ORDER ==> !SomeFree(s, k)
  }

  /** After compaction, a run of free frames is a run on the global lists. */
  lemma CompactedRuns(s: Space, t: Space, k: nat)
    requires |s.own| == |t.own| && forall f :: FrameIn(t, f, Global) <==> FreeFrame(s, f)
    ensures SomeRun(t, k) <==> exists a: nat :: FreeRun(s, a, k)
  {
    hide FreeFrame, FrameIn;
    if SomeRun(t, k) {
      var a: nat :| GlobalRun(t, a, k);
      assert FreeRun(s, a, k);
    }
    if a: nat :| FreeRun(s, a, k) { assert GlobalRun(t, a, k); }
  }

  lemma WantingExhausted(lists: map<ListId, seq<nat>>, s: Space, regs: Regions, cache: ListId, order: nat)
    ensures Wanting(lists, s, regs, cache, order) ==> Exhausted(s, regs, order)
  {
  }

  lemma SameOwners(s: Space, t: Space)
    requires Compacting(s, t)
    ensures |s.own| == |t.own|
  {
  }

  /** A block pushed and popped again. */
  lemma BackAgain(lists: map<ListId, seq<nat>>, id: ListId, p: nat)
    requires id in lists
    ensures var pushed := lists[id := [p] + lists[id]]; pushed[id := pushed[id][1..]] == lists
  {
  }

  lemma ExhaustedRun(s: Space, t: Space, regs: Regions, k: nat)
    requires Exhausted(s, regs, k)
    ensures Exhausted(t, regs, k) <==> !SomeRun(t, k)
  {
  }

  /** Where a block that is given back goes: a single frame to the reserve while that is short of 32, any other block
      to the front of the cache, or, when the cache is full, to the global lists. */
  ghost predicate PutAway(lists: map<ListId, seq<nat>>, s: Space, p: nat, k: nat, cpu: nat, now: map<ListId, seq<nat>>,
                          t: Space) {
    && ReserveList in lists
    && if k == ORDER_4K && |lists[ReserveList]| < RESERVE_PAGES
       then now == lists[ReserveList := [p] + lists[ReserveList]]
       else Cached(lists, s, p, k, cpu, now, t)
  }

  ghost predicate Cached(lists: map<ListId, seq<nat>>, s: Space, p: nat, k: nat, cpu: nat, now: map<ListId, seq<nat>>,
                         t: Space) {
    var cache := CacheList(cpu % MAX_CPUS, k);
    && cache in lists
    && if |lists[cache]| < PerCpuLimit(k) then now == lists[cache := [p] + lists[cache]]
       else SameCaches(lists, now) && Freed(s, p, k, t)
  }

  /** No block that is given back makes the reserve larger than 32 frames, and none makes it smaller. */
  lemma ReserveBounded(lists: map<ListId, seq<nat>>, s: Space, p: nat, k: nat, cpu: nat, now: map<ListId, seq<nat>>,
                       t: Space)
    requires PutAway(lists, s, p, k, cpu, now, t)
    ensures ReserveList in now && |lists[ReserveList]| <= |now[ReserveList]|
    ensures |now[ReserveList]| <= Greatest(|lists[ReserveList]|, RESERVE_PAGES)
    ensures |now[ReserveList]| > |lists[ReserveList]| ==> k == ORDER_4K && now[ReserveList][0] == p
  {
    hide Freed;
  }

  /** The cache holds all of a batch but its first block. */
  ghost predicate Batched(lists: map<ListId, seq<nat>>, cpu: nat, order: nat) {
    CacheList(cpu, order) in lists && |lists[CacheList(cpu, order)]| == PerCpuBatch(order) - 1
  }

  lemma BatchSize(order: nat)
    ensures PerCpuBatch(order) >= 1
  {
  }

  lemma HasReserve(P: Pool)
    requires Inv(P)
    ensures ReserveList in P.lists
  {
    assert LegalList(ReserveList);
  }

  /** A block can only be granted out of a free run. */
  lemma GrantHad(P: Pool, p: nat, k: nat, Q: Pool, regs: Regions)
    requires Granted(P.space, p, k, Q.space) && Inv(Q)
    ensures !Exhausted(P.space, regs, k)
  {
    assert GoodBlock(Q.space, p);
    assert GlobalRun(P.space, p, k);
  }

  lemma NoRunEither(s: Space, regs: Regions, k: nat)
    ensures (forall a: nat :: !GlobalRun(s, a, k)) ==> (Exhausted(s, regs, k) <==> forall i :: !Fits(regs, i, k))
  {
  }

  lemma GrantServes(s: Space, p: nat, k: nat, t: Space, regs: Regions)
    requires Granted(s, p, k, t) && RegionsOk(regs, s.own)
    ensures Served(s, p, k, t) && RegionsOk(regs, t.own)
  {
    SameKeeps(regs, s, t);
  }

  lemma CarveServes(regs: Regions, s: Space, p: nat, k: nat, t: Space)
    requires exists i :: CarvedFrom(regs, i, s, p, k, t)
    ensures Served(s, p, k, t) && p < |t.own| && !Exhausted(s, regs, k)
  {
    var i :| CarvedFrom(regs, i, s, p, k, t);
  }

  /** The block came from region `i`: the first aligned run in it. */
  ghost predicate CarvedFrom(regs: Regions, i: int, s: Space, p: nat, order: nat, t: Space) {
    && Fits(regs, i, order) && p == AlignUp(regs[i].value.start, order)
    && Carved(s, regs[i].value.start, p, order, t)
  }

  lemma SameOrdersRefl(f: seq<BuddyFrame>)
    ensures SameOrders(f, f)
  {
  }

  lemma GapFits(cursor: nat, hi: nat, order: nat)
    requires cursor < hi
    requires order == Least(Least(FloorLog2(hi - cursor), MAX_ORDER - 1), TrailingZeros(cursor))
    ensures Aligned(cursor, order) && cursor + Pow2(order) <= hi && order < MAX_ORDER
  {
    TrailingZerosAligned(cursor, order);
    Monotone(order, FloorLog2(hi - cursor));
  }

  lemma ReleaseStart(s: Space, lo: nat, hi: nat)
    requires AllUninit(s, lo, hi) && lo <= hi
    ensures Released(s, lo, lo, s)
  {
  }

  lemma UninitPart(s: Space, lo: nat, hi: nat, mid: nat)
    requires AllUninit(s, lo, hi) && mid <= hi
    ensures AllUninit(s, lo, mid)
  {
  }

  lemma CachesTransitive(a: map<ListId, seq<nat>>, b: map<ListId, seq<nat>>, c: map<ListId, seq<nat>>)
    ensures SameCaches(a, a)
    ensures SameCaches(a, b) && SameCaches(b, c) ==> SameCaches(a, c)
  {
  }

  lemma SplitBuddies(s: Space, p: nat, k: nat)
    requires WellFormed(s) && p in s.blocks && s.blocks[p] == Block(k + 1, Held)
    ensures !HasGlobal(Split(s, p), BuddyOf(p + Pow2(k), k), k)
  {
    assert GoodBlock(s, p);
    Halves(p, k);
  }

  lemma PopOrders(P: Pool, Q: Pool, r: Option<nat>, k: nat, stale: set<nat>)
    requires Inv(P) && HeldOrders(P, stale) && SameOrders(P.frames, Q.frames)
    requires if r.None? then Q == P else HasGlobal(P.space, r.value, k) && Q.space == Move(P.space, r.value, Held)
    ensures HeldOrders(Q, stale)
    ensures r.Some? ==> Granted(P.space, r.value, k, Q.space)
  {
    if r.Some? {
      GrantStart(P.space, r.value, k);
      assert GoodMeta(P, r.value);
    }
  }

  lemma StaleMore(P: Pool, stale: set<nat>, x: nat)
    requires HeldOrders(P, stale)
    ensures HeldOrders(P, stale + {x})
  {
  }

  lemma GrantedBlock(s: Space, p: nat, k: nat, t: Space)
    requires Granted(s, p, k, t) && WellFormed(t)
    ensures p in t.blocks && t.blocks[p] == Block(k, Held) && p < |t.own|
  {
    HeadOwnsItself(t, p);
  }

  lemma PositionOf(P: Pool, p: nat, order: nat) returns (k: nat)
    requires Inv(P) && HasGlobal(P.space, p, order)
    ensures var id := GlobalList(order, p % SHARD_COUNT);
      p < |P.frames| && order < MAX_ORDER && id in P.lists && k < |P.lists[id]| && P.lists[id][k] == p
  {
    assert GoodMeta(P, p) && GoodBlock(P.space, p);
    k :| 0 <= k < |P.lists[GlobalList(order, p % SHARD_COUNT)]| && P.lists[GlobalList(order, p % SHARD_COUNT)][k] == p;
  }

  lemma BuddyCheck(P: Pool, b: nat, k: nat)
    requires Inv(P) && b < |P.frames|
    ensures HasGlobal(P.space, b, k) <==> P.frames[b].state.FreeGlobal? && P.frames[b].order == k
  {
    if b in P.space.blocks { assert GoodMeta(P, b); }
  }

  lemma AbsorbPool(P: Pool, p: nat, k: nat, T: Pool, stale: set<nat>)
    requires Inv(P) && CanAbsorb(P.space, p, k) && HeldOrders(P, stale + {p})
    requires Inv(T) && SameOrders(P.frames, T.frames) && T.space == Move(P.space, BuddyOf(p, k), Held)
    ensures var lo := Lower(p, BuddyOf(p, k)); var Q := T.(space := Merge(T.space, lo));
      Inv(Q) && HeldOrders(Q, stale + {lo})
  {
    hide WellFormed, Coalesced, ListsInv, MetaInv, CanAbsorb, HeldOrders, SameOrders;
    AbsorbBase(P.space, p, k);
    AbsorbKeeps(P.space, p, k);
    var lo := Lower(p, BuddyOf(p, k));
    var Q := T.(space := Merge(T.space, lo));
    SpaceKeeps(T, Q.space);
    AbsorbOrders(P, p, k, T, stale);
  }

  lemma AbsorbOrders(P: Pool, p: nat, k: nat, T: Pool, stale: set<nat>)
    requires CanAbsorb(P.space, p, k) && HeldOrders(P, stale + {p}) && SameOrders(P.frames, T.frames)
    ensures HeldOrders(T.(space := Absorb(P.space, p, k)), stale + {Lower(p, BuddyOf(p, k))})
  {
    hide WellFormed, Coalesced, Paint, Aligned;
    AbsorbBase(P.space, p, k);
    var Q := T.(space := Absorb(P.space, p, k));
    forall x | x in Q.space.blocks && Q.space.blocks[x].place.Held? && x !in stale + {Lower(p, BuddyOf(p, k))}
      ensures x < |Q.frames| && Q.frames[x].order == Q.space.blocks[x].order
    {
      assert x in P.space.blocks && P.space.blocks[x] == Q.space.blocks[x];
    }
  }

  function ShardAt(start: nat, o: nat): nat {
    (start + o) % SHARD_COUNT
  }

  ghost predicate EmptyShard(P: Pool, order: nat, shard: nat) {
    var id := GlobalList(order, shard); id in P.heads && P.heads[id].None?
  }

  lemma EmptyShards(P: Pool, order: nat, start: nat)
    requires Inv(P) && order < MAX_ORDER && start < SHARD_COUNT
    requires forall o :: 0 <= o < SHARD_COUNT ==> EmptyShard(P, order, ShardAt(start, o))
    ensures forall p :: !HasGlobal(P.space, p, order)
  {
    forall p | p in P.space.blocks ensures P.space.blocks[p] != Block(order, Global) {
      var s := p % SHARD_COUNT;
      assert s == ShardAt(start, if s >= start then s - start else s + SHARD_COUNT - start);
      assert EmptyShard(P, order, s);
      assert GoodList(P, GlobalList(order, s)) && GoodMeta(P, p);
    }
  }

  lemma HeadFacts(P: Pool, id: ListId)
    requires Inv(P) && LegalList(id)
    ensures id in P.heads && id in P.lists
    ensures P.heads[id].None? ==> P.lists[id] == []
    ensures P.heads[id].Some? ==>
      var p := P.heads[id].value;
      && |P.lists[id]| > 0 && P.lists[id][0] == p && p < |P.frames|
      && p in P.space.blocks && Home(p, P.space.blocks[p]) == Some(id)
  {
    assert GoodList(P, id);
    if P.heads[id].Some? { assert P.lists[id][0] in P.lists[id]; assert GoodMeta(P, P.lists[id][0]); }
  }

  lemma PushFacts(P: Pool, p: nat, order: nat, id: ListId)
    requires Inv(P) && LegalList(id)
    requires p in P.space.blocks && P.space.blocks[p] == Block(order, Held)
    ensures p < |P.frames| && order < MAX_ORDER && id in P.heads && id in P.lists
    ensures P.heads[id].Some? ==> P.heads[id].value < |P.frames| && P.heads[id].value != p
  {
    assert GoodBlock(P.space, p) && GoodMeta(P, p);
    HeadFacts(P, id);
  }

  lemma TakenSummary(P: Pool, id: ListId, k: nat, Q: Pool)
    requires Taken(P, id, k, Q)
    ensures SameOrders(P.frames, Q.frames)
    ensures id.GlobalList? ==> SameCaches(P.lists, Q.lists)
  {
  }

  lemma PushedSummary(P: Pool, p: nat, place: Place, Q: Pool, stale: set<nat>)
    requires MetaInv(P) && Pushed(P, p, place, Q) && HeldOrders(P, stale + {p})
    ensures HeldOrders(Q, stale)
    ensures place.Global? ==> SameCaches(P.lists, Q.lists)
  {
    forall x | x in Q.space.blocks && Q.space.blocks[x].place.Held? && x !in stale
      ensures x < |Q.frames| && Q.frames[x].order == Q.space.blocks[x].order
    {
      assert GoodMeta(P, x);
    }
  }

  lemma LinksInRange(frames: seq<BuddyFrame>, head: Option<nat>, xs: seq<nat>, doubly: bool, k: nat)
    requires Linked(frames, head, xs, doubly) && k < |xs|
    ensures xs[k] < |frames|
    ensures var b := frames[xs[k]];
      && (b.next.Some? ==> b.next.value < |frames| && b.next.value != xs[k])
      && (b.prev.Some? ==> b.prev.value < |frames| && b.prev.value != xs[k])
      && (k == 0 ==> b.prev.None?) && (doubly && k > 0 ==> b.prev.Some?)
  {
    assert Node(frames, xs, k, doubly);
    if k + 1 < |xs| { assert Node(frames, xs, k + 1, doubly); }
    if k > 0 { assert Node(frames, xs, k - 1, doubly); }
  }
}
