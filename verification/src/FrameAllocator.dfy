/** The lazy buddy allocator: global sharded free lists, per-CPU caches, the emergency reserve and
    the uninitialised regions, updated in place. Each operation runs to completion under its lock. */
module FrameAllocator {
  import opened AllocatorFacts
  import opened Basics
  import opened Bits
  import opened BuddySpace
  import opened FrameLists
  import opened FramePool
  import opened Options
  import opened UninitRegions

  class LazyBuddyAllocator {
    var frames: seq<BuddyFrame>
    var heads: map<ListId, Option<nat>>
    var counts: map<ListId, nat>
    var reserveCount: nat
    var regions: Regions
    var lastUninit: nat
    var allocatedFrames: nat
    var allocCalls: nat
    var compactLastAllocCall: nat
    var compactLastBefore: nat
    var compactLastAfter: nat

    ghost var lists: map<ListId, seq<nat>>
    ghost var space: Space

    ghost function Snap(): Pool
      reads this`frames, this`heads, this`lists, this`space
    {
      Pool(frames, heads, lists, space)
    }

    /** A fresh allocator over the uninitialised regions of a machine with `total` frames. */
    constructor (total: nat, regs: Regions)
      requires BootRegions(regs, total)
      ensures Valid() && regions == regs && |frames| == total
      ensures space == Space(BootOwners(regs, total), map[])
    {
      hide Inv, HeldFrames, AllLists, BootOwners, RegionsOk;
      frames := seq(total, _ => BuddyFrame(0, Allocated, true, None, None));
      heads := map id | id in AllLists() :: None;
      counts := map id | id in AllLists() && id.CacheList? :: 0;
      reserveCount, lastUninit, allocatedFrames, allocCalls, compactLastAllocCall := 0, 0, 0, 0, 0;
      compactLastBefore, compactLastAfter := 0, 0;
      regions := regs;
      lists := map id | id in AllLists() :: [];
      space := Space(BootOwners(regs, total), map[]);
      new;
      FreshPool(Snap());
      assert HeldMap(space) == map[];
      HeldNone(|frames|);
    }

    /** Sets single frames aside for the reserve while there are any. */
    method InitReserve(pages: nat) returns (added: nat)
      requires Valid()
      modifies this`frames, this`heads, this`lists, this`space, this`regions, this`lastUninit, this`reserveCount
      ensures Valid() && HeldMap(space) == HeldMap(old(space)) && SameUsable(old(space), space)
      ensures added <= pages && reserveCount == old(reserveCount) + added
      ensures added < pages ==> Exhausted(space, regions, ORDER_4K)
    {
      hide WellFormed, Coalesced, ListsInv, MetaInv, HeldOrders, RegionsOk, CountsOk, LimitsOk, Exhausted;
      added := 0;
      while added < pages
        invariant added <= pages && reserveCount == old(reserveCount) + added
        invariant Valid() && HeldMap(space) == HeldMap(old(space)) && SameUsable(old(space), space)
      {
        ghost var P := Snap();
        var r := AllocGlobal(ORDER_4K, 0, {});
        LimitsKept(P.lists, lists);
        if r.None? { break; }
        StaleMore(Snap(), {}, r.value);
        ghost var Q := Snap();
        ReservePush(r.value, {});
        HeldMapMove(Q.space, r.value, Reserve);
        LimitsReserve(Q.lists, [r.value] + Q.lists[ReserveList]);
        assert HeldMap(space) == HeldMap(P.space) && |frames| == |P.frames|;
        added := added + 1;
      }
    }

    /** Unlinks a frame from the doubly linked list `id`. */
    method RemoveFromList(pfn: nat, id: ListId)
      requires pfn < |frames| && id in heads
      requires frames[pfn].prev.Some? ==> frames[pfn].prev.value < |frames| && frames[pfn].prev.value != pfn
      requires frames[pfn].next.Some? ==> frames[pfn].next.value < |frames| && frames[pfn].next.value != pfn
      modifies this`frames, this`heads
      ensures |frames| == |old(frames)|
      ensures heads == old(heads)[id := if old(frames[pfn].prev).None? then old(frames[pfn].next) else old(heads[id])]
      ensures frames[pfn] == old(frames[pfn]).(next := None, prev := None)
      ensures forall x :: 0 <= x < |frames| && x != pfn ==>
        frames[x] == Relinked(old(frames)[x], x, old(frames[pfn]), true)
    {
      var prev, next := frames[pfn].prev, frames[pfn].next;
      frames := frames[pfn := frames[pfn].(next := None, prev := None)];
      if prev.Some? {
        frames := frames[prev.value := frames[prev.value].(next := next)];
        assert heads[id := heads[id]] == heads;
      } else {
        heads := heads[id := next];
      }
      if next.Some? {
        frames := frames[next.value := frames[next.value].(prev := prev)];
      }
    }

    /** Takes entry `k` of a global list: unlinks it and marks it allocated. */
    method TakeGlobal(pfn: nat, order: nat, ghost k: nat)
      requires Inv(Snap()) && order < MAX_ORDER && pfn < |frames|
      requires var id := GlobalList(order, pfn % SHARD_COUNT); k < |lists[id]| && lists[id][k] == pfn
      modifies this`frames, this`heads, this`lists, this`space
      ensures Inv(Snap()) && SameCaches(old(lists), lists) && SameOrders(old(frames), frames)
      ensures space == Move(old(space), pfn, Held)
    {
      ghost var id := GlobalList(order, pfn % SHARD_COUNT);
      ghost var P := Snap();
      assert GoodList(P, id);
      assert Node(P.frames, P.lists[id], k, true);
      LinksInRange(P.frames, P.heads[id], P.lists[id], true, k);
      RemoveFromList(pfn, GlobalList(order, pfn % SHARD_COUNT));
      frames := frames[pfn := frames[pfn].(state := Allocated, migratable := true)];
      lists := lists[id := Without(lists[id], k)];
      space := Move(space, pfn, Held);
      TakeKeeps(P, id, k, Snap());
      TakenSummary(P, id, k, Snap());
    }

    /** Takes the head of the first non-empty shard, scanning from the shard of `cpu`. */
    method PopFromGlobal(order: nat, cpu: nat) returns (r: Option<nat>)
      requires Inv(Snap()) && order < MAX_ORDER
      modifies this`frames, this`heads, this`lists, this`space
      ensures Inv(Snap()) && SameCaches(old(lists), lists)
      ensures r.None? ==> Snap() == old(Snap()) && forall p :: !HasGlobal(space, p, order)
      ensures r.Some? ==> HasGlobal(old(space), r.value, order) && space == Move(old(space), r.value, Held)
      ensures r.Some? ==> ShardHead(old(lists), cpu, order, r.value)
      ensures SameOrders(old(frames), frames)
    {
      hide ListsInv, MetaInv, WellFormed, Coalesced, SameOrders;
      CachesTransitive(lists, lists, lists);
      SameOrdersRefl(frames);
      var start := cpu % SHARD_COUNT;
      for offset := 0 to SHARD_COUNT
        invariant Snap() == old(Snap())
        invariant forall o :: 0 <= o < offset ==> EmptyShard(Snap(), order, ShardAt(start, o))
        invariant forall o :: 0 <= o < offset ==> EmptyList(lists, GlobalList(order, ShardAt(start, o)))
      {
        var shard := ShardAt(start, offset);
        HeadFacts(Snap(), GlobalList(order, shard));
        if heads[GlobalList(order, shard)].Some? {
          var pfn := heads[GlobalList(order, shard)].value;
          assert HeadAt(lists, cpu, order, offset, pfn);
          TakeGlobal(pfn, order, 0);
          return Some(pfn);
        }
      }
      EmptyShards(Snap(), order, start);
      return None;
    }

    /** Puts the held block at `pfn` at the front of its global list. */
    method PushToGlobal(pfn: nat, order: nat, ghost stale: set<nat>)
      requires Inv(Snap()) && HeldOrders(Snap(), stale + {pfn})
      requires pfn in space.blocks && space.blocks[pfn] == Block(order, Held)
      requires order < MAX_ORDER - 1 ==> !HasGlobal(space, BuddyOf(pfn, order), order)
      modifies this`frames, this`heads, this`lists, this`space
      ensures Inv(Snap()) && HeldOrders(Snap(), stale) && SameCaches(old(lists), lists)
      ensures space == Move(old(space), pfn, Global)
      ensures var id := GlobalList(order, pfn % SHARD_COUNT);
        id in old(lists) && lists == old(lists)[id := [pfn] + old(lists)[id]]
    {
      hide ListsInv, MetaInv, WellFormed, Coalesced, HeldOrders;
      ghost var P := Snap();
      BlockInRange(space, pfn);
      var id := GlobalList(order, pfn % SHARD_COUNT);
      PushFacts(P, pfn, order, id);
      var head := heads[id];
      frames := frames[pfn := BuddyFrame(order, FreeGlobal, true, head, None)];
      if head.Some? {
        frames := frames[head.value := frames[head.value].(prev := Some(pfn))];
      }
      heads := heads[id := Some(pfn)];
      lists := lists[id := [pfn] + lists[id]];
      space := Move(space, pfn, Global);
      assert Pushed(P, pfn, Global, Snap());
      PushKeeps(P, pfn, Global, Snap());
      PushedSummary(P, pfn, Global, Snap(), stale);
    }

    /** The held block at `pfn` swallows its buddy, which is on the global list of `order`. */
    method AbsorbBuddy(pfn: nat, order: nat, ghost stale: set<nat>)
      requires Inv(Snap()) && CanAbsorb(space, pfn, order) && HeldOrders(Snap(), stale + {pfn})
      modifies this`frames, this`heads, this`lists, this`space
      ensures Inv(Snap()) && HeldOrders(Snap(), stale + {Lower(pfn, BuddyOf(pfn, order))})
      ensures space == Absorb(old(space), pfn, order) && SameCaches(old(lists), lists)
    {
      hide ListsInv, MetaInv, WellFormed, Coalesced, HeldOrders;
      var buddy := BuddyOf(pfn, order);
      ghost var k := PositionOf(Snap(), buddy, order);
      TakeGlobal(buddy, order, k);
      ghost var P := Snap();
      space := Merge(space, Lower(pfn, buddy));
      AbsorbPool(old(Snap()), pfn, order, P, stale);
    }

    /** Frees the held block at `pfn`, coalescing with free buddies as far as they go. */
    method FreeAndMerge(pfn0: nat, order0: nat, ghost stale: set<nat>)
      requires Inv(Snap()) && HeldOrders(Snap(), stale + {pfn0})
      requires pfn0 in space.blocks && space.blocks[pfn0] == Block(order0, Held)
      modifies this`frames, this`heads, this`lists, this`space
      ensures Inv(Snap()) && HeldOrders(Snap(), stale) && SameCaches(old(lists), lists)
      ensures Freed(old(space), pfn0, order0, space)
    {
      hide ListsInv, MetaInv, Freeing, Freed, HeldOrders, SameCaches, WellFormed, Coalesced;
      CachesTransitive(lists, lists, lists);
      var pfn: nat, order: nat := pfn0, order0;
      FreeStart(space, pfn0, order0);
      while order < MAX_ORDER - 1
        invariant Inv(Snap()) && SameCaches(old(lists), lists)
        invariant Freeing(old(space), pfn0, order0, space, pfn, order) && order < MAX_ORDER
        invariant HeldOrders(Snap(), stale + {pfn})
        decreases MAX_ORDER - order
      {
        var buddy := BuddyOf(pfn, order);
        if buddy >= |frames| { break; }
        BuddyCheck(Snap(), buddy, order);
        if !frames[buddy].state.FreeGlobal? || frames[buddy].order != order { break; }
        FreeStep(old(space), pfn0, order0, space, pfn, order);
        ghost var P := Snap();
        AbsorbBuddy(pfn, order, stale);
        CachesTransitive(old(lists), P.lists, lists);
        if buddy < pfn { pfn := buddy; }
        order := order + 1;
      }
      FreeEnd(old(space), pfn0, order0, space, pfn, order);
      OutOfRange(space, BuddyOf(pfn, order));
      ghost var P := Snap();
      PushToGlobal(pfn, order, stale);
      CachesTransitive(old(lists), P.lists, lists);
    }

    /** Gives the upper half of the held block at `pfn` back to the global list of `order`. */
    method SplitOnce(pfn: nat, order: nat, ghost stale: set<nat>)
      requires Inv(Snap()) && HeldOrders(Snap(), stale + {pfn})
      requires pfn in space.blocks && space.blocks[pfn] == Block(order + 1, Held)
      modifies this`frames, this`heads, this`lists, this`space
      ensures Inv(Snap()) && HeldOrders(Snap(), stale + {pfn}) && SameCaches(old(lists), lists)
      ensures space == GiveBack(old(space), pfn, order)
    {
      hide ListsInv, MetaInv, WellFormed, Coalesced, HeldOrders, Aligned, Paint;
      var buddy := pfn + Pow2(order);
      SplitPool(Snap(), pfn, order, stale);
      SplitBuddies(space, pfn, order);
      space := Split(space, pfn);
      var m := BuddyFrame(order, Allocated, true, None, None);
      WriteKeeps(Snap(), buddy, m);
      WriteOrders(Snap(), buddy, m, stale + {pfn});
      frames := frames[buddy := m];
      PushToGlobal(buddy, order, stale + {pfn});
    }

    /** The smallest free block that fits, split down to `order`. */
    method AllocFromList(order: nat, cpu: nat, ghost stale: set<nat>) returns (r: Option<nat>)
      requires Inv(Snap()) && HeldOrders(Snap(), stale) && order < MAX_ORDER
      modifies this`frames, this`heads, this`lists, this`space
      ensures Inv(Snap()) && HeldOrders(Snap(), stale) && SameCaches(old(lists), lists)
      ensures r.None? ==> Snap() == old(Snap()) && forall a: nat :: !GlobalRun(space, a, order)
      ensures r.Some? ==> Granted(old(space), r.value, order, space)
      ensures r.Some? ==> SmallestFit(old(lists), old(space), cpu, order, r.value)
    {
      hide ListsInv, MetaInv, WellFormed, Coalesced, HeldOrders, Granted, SameCaches, SameOrders, ShardHead;
      r := PopFromGlobal(order, cpu);
      PopOrders(old(Snap()), Snap(), r, order, stale);
      if r.Some? {
        assert NoneBelow(old(space), order, order);
        return;
      }
      for higher := order + 1 to MAX_ORDER
        invariant r.None? && Snap() == old(Snap())
        invariant forall p, j :: order <= j < higher ==> !HasGlobal(space, p, j)
      {
        r := PopFromGlobal(higher, cpu);
        if r.Some? {
          PopOrders(old(Snap()), Snap(), r, higher, stale);
          assert NoneBelow(old(space), order, higher);
          SplitDown(r.value, order, higher, stale, old(Snap()));
          return;
        }
      }
      NoBlockNoRun(space, order);
    }

    /** Splits the held block of order `higher` at `idx` down to `order`. */
    method SplitDown(idx: nat, order: nat, higher: nat, ghost stale: set<nat>, ghost P: Pool)
      requires Inv(Snap()) && HeldOrders(Snap(), stale) && order <= higher
      requires Granted(P.space, idx, higher, space) && SameCaches(P.lists, lists)
      modifies this`frames, this`heads, this`lists, this`space
      ensures Inv(Snap()) && HeldOrders(Snap(), stale) && SameCaches(P.lists, lists)
      ensures Granted(P.space, idx, order, space)
    {
      hide ListsInv, MetaInv, WellFormed, Coalesced, Granted, SameCaches, HeldOrders;
      StaleMore(Snap(), stale, idx);
      var j := higher;
      while j > order
        invariant order <= j <= higher
        invariant Inv(Snap()) && HeldOrders(Snap(), stale + {idx}) && SameCaches(P.lists, lists)
        invariant Granted(P.space, idx, j, space)
      {
        j := j - 1;
        GrantStep(P.space, space, idx, j);
        ghost var Q := Snap();
        SplitOnce(idx, j, stale);
        CachesTransitive(P.lists, Q.lists, lists);
      }
      GrantedBlock(P.space, idx, order, space);
      var m := BuddyFrame(order, Allocated, true, None, None);
      WriteKeeps(Snap(), idx, m);
      WriteOrders(Snap(), idx, m, stale);
      frames := frames[idx := m];
    }

    /** Releases an uninitialised stretch to the buddy system in the largest aligned blocks that fit. */
    method ReleaseGap(lo: nat, hi: nat, ghost stale: set<nat>)
      requires Inv(Snap()) && HeldOrders(Snap(), stale) && lo <= hi && AllUninit(space, lo, hi)
      modifies this`frames, this`heads, this`lists, this`space
      ensures Inv(Snap()) && HeldOrders(Snap(), stale) && SameCaches(old(lists), lists)
      ensures Released(old(space), lo, hi, space)
    {
      hide ListsInv, MetaInv, WellFormed, Coalesced, HeldOrders, SameCaches, Released, AllUninit, Freed;
      ReleaseStart(space, lo, hi);
      CachesTransitive(lists, lists, lists);
      var cursor := lo;
      while cursor < hi
        invariant lo <= cursor <= hi
        invariant Inv(Snap()) && HeldOrders(Snap(), stale) && SameCaches(old(lists), lists)
        invariant Released(old(space), lo, cursor, space)
      {
        var maxFit := Least(FloorLog2(hi - cursor), MAX_ORDER - 1);
        var order := Least(maxFit, TrailingZeros(cursor));
        GapFits(cursor, hi, order);
        UninitPart(old(space), lo, hi, cursor + Pow2(order));
        StillUninit(old(space), lo, space, cursor, order);
        ghost var P, s := Snap(), space;
        ClaimBlock(cursor, order, BuddyFrame(order, Allocated, true, None, None), stale);
        FreeAndMerge(cursor, order, stale);
        ReleaseStep(old(space), lo, s, cursor, order, space);
        CachesTransitive(old(lists), P.lists, lists);
        cursor := cursor + Pow2(order);
      }
    }

    /** Turns uninitialised frames into a held block and writes its metadata. */
    method ClaimBlock(p: nat, order: nat, m: BuddyFrame, ghost stale: set<nat>)
      requires Inv(Snap()) && HeldOrders(Snap(), stale)
      requires order < MAX_ORDER && Aligned(p, order) && AllUninit(space, p, p + Pow2(order))
      requires m.state.Allocated?
      modifies this`frames, this`space
      ensures Inv(Snap()) && HeldOrders(Snap(), stale + {p}) && p < |frames|
      ensures m.order == order ==> HeldOrders(Snap(), stale)
      ensures space == Claim(old(space), p, order)
      ensures p in space.blocks && space.blocks[p] == Block(order, Held)
      ensures Pow2(order) > 0 && frames == old(frames)[p := m]
    {
      hide ListsInv, MetaInv, WellFormed, Coalesced, HeldOrders, Aligned, Paint;
      ClaimPool(Snap(), p, order, stale);
      space := Claim(space, p, order);
      WriteKeeps(Snap(), p, m);
      WriteOrders(Snap(), p, m, stale);
      frames := frames[p := m];
    }

    /** Carves a block out of the first region that fits, from the one used last on. Its metadata
        order is not written yet. */
    method AllocFromUninit(order: nat, ghost stale: set<nat>) returns (r: Option<nat>)
      requires Inv(Snap()) && HeldOrders(Snap(), stale) && order < MAX_ORDER
      requires RegionsOk(regions, space.own) && (lastUninit < |regions| || lastUninit == 0)
      modifies this`frames, this`heads, this`lists, this`space, this`regions, this`lastUninit
      ensures Inv(Snap()) && SameCaches(old(lists), lists)
      ensures RegionsOk(regions, space.own) && (lastUninit < |regions| || lastUninit == 0)
      ensures |regions| == |old(regions)|
      ensures r.None? ==> Snap() == old(Snap()) && regions == old(regions) && HeldOrders(Snap(), stale)
      ensures r.None? ==> lastUninit == old(lastUninit) && forall i :: !Fits(regions, i, order)
      ensures r.Some? ==> HeldOrders(Snap(), stale + {r.value})
      ensures r.Some? ==> FirstFit(old(regions), old(lastUninit), lastUninit, order)
      ensures r.Some? ==> CarvedFrom(old(regions), lastUninit, old(space), r.value, order, space)
      ensures r.Some? ==> regions == Shrink(old(regions), lastUninit, r.value + Pow2(order))
    {
      hide ListsInv, MetaInv, WellFormed, Coalesced, HeldOrders, SameCaches, Released, AllUninit, Carved, RegionsOk;
      CachesTransitive(lists, lists, lists);
      var len := |regions|;
      for offset := 0 to len
        invariant Snap() == old(Snap()) && regions == old(regions) && lastUninit == old(lastUninit)
        invariant forall o :: 0 <= o < offset ==> !Fits(regions, Rotate(lastUninit, o, len), order)
      {
        RotateIsMod(lastUninit, offset, len);
        var i := (lastUninit + offset) % len;
        if regions[i].Some? {
          var region := regions[i].value;
          var start := AlignUp(region.start, order);
          if start + Pow2(order) <= region.end {
            Carve(i, start, order, stale);
            assert i == Rotate(old(lastUninit), offset, len);
            return Some(start);
          }
        }
      }
      forall i ensures !Fits(regions, i, order) {
        if 0 <= i < len {
          assert i == Rotate(lastUninit, if i >= lastUninit then i - lastUninit else i + len - lastUninit, len);
        }
      }
      return None;
    }

    /** Releases the alignment gap of region `i`, carves the block at `start`, shrinks the region. */
    method Carve(i: nat, start: nat, order: nat, ghost stale: set<nat>)
      requires Inv(Snap()) && HeldOrders(Snap(), stale) && order < MAX_ORDER
      requires RegionsOk(regions, space.own) && Fits(regions, i, order)
      requires start == AlignUp(regions[i].value.start, order)
      modifies this`frames, this`heads, this`lists, this`space, this`regions, this`lastUninit
      ensures Inv(Snap()) && HeldOrders(Snap(), stale + {start}) && SameCaches(old(lists), lists)
      ensures Carved(old(space), old(regions)[i].value.start, start, order, space)
      ensures RegionsOk(regions, space.own) && |regions| == |old(regions)| && lastUninit == i
      ensures regions == Shrink(old(regions), i, start + Pow2(order))
    {
      hide ListsInv, MetaInv, WellFormed, Coalesced, HeldOrders, SameCaches, Released, AllUninit, RegionsOk, Aligned;
      var region := regions[i].value;
      RegionUninit(regions, space, i);
      UninitPart(space, region.start, region.end, start);
      UninitPart(space, region.start, region.end, start + Pow2(order));
      ReleaseGap(region.start, start, stale);
      StillUninit(old(space), region.start, space, start, order);
      CarveStep(old(space), region.start, space, start, order);
      ClaimBlock(start, order, frames[start].(state := Allocated), stale);
      ShrinkKeeps(regions, old(space), i, start + Pow2(order), space);
      if start + Pow2(order) == region.end {
        regions := regions[i := None];
      } else {
        regions := regions[i := Some(region.(start := start + Pow2(order)))];
      }
      lastUninit := i;
    }

    /** Lists, metadata, regions and counters agree; `stale` held blocks await their metadata order. */
    ghost predicate Consistent(stale: set<nat>)
      reads this
    {
      && Inv(Snap()) && HeldOrders(Snap(), stale)
      && RegionsOk(regions, space.own) && (lastUninit < |regions| || lastUninit == 0)
      && CountsOk(counts, reserveCount, lists)
    }

    /** A block from the free lists or, failing that, from the uninitialised regions. */
    method AllocGlobal(order: nat, cpu: nat, ghost stale: set<nat>) returns (r: Option<nat>)
      requires Consistent(stale) && order < MAX_ORDER
      modifies this`frames, this`heads, this`lists, this`space, this`regions, this`lastUninit
      ensures Consistent(stale) && SameCaches(old(lists), lists)
      ensures r.None? ==> Snap() == old(Snap()) && regions == old(regions) && lastUninit == old(lastUninit)
      ensures r.None? <==> Exhausted(old(space), old(regions), order)
      ensures r.Some? ==> Served(old(space), r.value, order, space)
      ensures r.Some? ==> Chosen(old(lists), old(space), old(regions), old(lastUninit), cpu, order, r.value)
      ensures r.Some? && SomeRun(old(space), order) ==>
        Granted(old(space), r.value, order, space) && regions == old(regions) && lastUninit == old(lastUninit)
      ensures r.Some? && !SomeRun(old(space), order) ==>
        && CarvedFrom(old(regions), lastUninit, old(space), r.value, order, space)
        && regions == Shrink(old(regions), lastUninit, r.value + Pow2(order))
    {
      hide ListsInv, MetaInv, WellFormed, Coalesced, HeldOrders, SameCaches, CountsOk, RegionsOk, Granted, Carved,
        Served, FirstFit, Exhausted, SmallestFit, SomeRun, Chosen;
      r := AllocFromList(order, cpu, stale);
      CountsSame(counts, reserveCount, old(lists), lists);
      if r.Some? {
        GrantServes(old(space), r.value, order, space, regions);
        GrantHad(old(Snap()), r.value, order, Snap(), regions);
        GrantChosen(old(Snap()), regions, lastUninit, cpu, r.value, order, Snap());
        return;
      }
      NoRunEither(space, regions, order);
      r := AllocFromUninit(order, stale);
      CountsSame(counts, reserveCount, old(lists), lists);
      if r.Some? {
        CarveServes(old(regions), old(space), r.value, order, space);
        CarveChosen(old(lists), old(space), old(regions), old(lastUninit), lastUninit, cpu, order, r.value);
        var m := BuddyFrame(order, Allocated, true, None, None);
        WriteKeeps(Snap(), r.value, m);
        WriteOrders(Snap(), r.value, m, stale);
        frames := frames[r.value := m];
      }
    }

    /** Takes the head of a per-CPU list. */
    method PercpuPopRaw(cpu: nat, order: nat, ghost stale: set<nat>) returns (r: Option<nat>)
      requires Consistent(stale) && order < MAX_ORDER
      modifies this`frames, this`heads, this`lists, this`space, this`counts
      ensures Consistent(stale)
      ensures LegalList(CacheList(cpu % MAX_CPUS, order)) && CacheList(cpu % MAX_CPUS, order) in old(lists)
      ensures r.None? ==>
        Snap() == old(Snap()) && counts == old(counts) && lists[CacheList(cpu % MAX_CPUS, order)] == []
      ensures r.Some? ==> Popped(old(Snap()), CacheList(cpu % MAX_CPUS, order), r.value, Snap())
    {
      hide ListsInv, MetaInv, WellFormed, Coalesced, HeldOrders, CountsOk, RegionsOk;
      var id := CacheList(cpu % MAX_CPUS, order);
      ghost var P := Snap();
      HeadFacts(P, id);
      CountFacts(counts, reserveCount, lists, id);
      if heads[id].None? {
        return None;
      }
      var pfn := heads[id].value;
      heads := heads[id := frames[pfn].next];
      counts := counts[id := counts[id] - 1];
      frames := frames[pfn := frames[pfn].(next := None, prev := None, state := Allocated, migratable := true)];
      lists := lists[id := lists[id][1..]];
      space := Move(space, pfn, Held);
      PopKeeps(P, id, Snap(), stale);
      CountsPopped(old(counts), reserveCount, P.lists, id);
      SameKeeps(regions, P.space, space);
      return Some(pfn);
    }

    /** Puts a held block at the front of a per-CPU list. */
    method PercpuPushRaw(cpu: nat, pfn: nat, order: nat, ghost stale: set<nat>)
      requires Consistent(stale + {pfn}) && pfn in space.blocks && space.blocks[pfn] == Block(order, Held)
      modifies this`frames, this`heads, this`lists, this`space, this`counts
      ensures Consistent(stale)
      ensures space == Move(old(space), pfn, PerCpu(cpu % MAX_CPUS))
      ensures var id := CacheList(cpu % MAX_CPUS, order);
        id in old(lists) && lists == old(lists)[id := [pfn] + old(lists)[id]]
    {
      hide ListsInv, MetaInv, WellFormed, Coalesced, HeldOrders, CountsOk, RegionsOk;
      var id := CacheList(cpu % MAX_CPUS, order);
      ghost var P := Snap();
      BlockInRange(space, pfn);
      PushFacts(P, pfn, order, id);
      CountFacts(counts, reserveCount, lists, id);
      frames := frames[pfn := BuddyFrame(order, FreePerCpu, true, heads[id], None)];
      heads := heads[id := Some(pfn)];
      counts := counts[id := counts[id] + 1];
      lists := lists[id := [pfn] + lists[id]];
      space := Move(space, pfn, PerCpu(cpu % MAX_CPUS));
      PushKeeps(P, pfn, PerCpu(cpu % MAX_CPUS), Snap());
      PushedSummary(P, pfn, PerCpu(cpu % MAX_CPUS), Snap(), stale);
      CountsPushed(old(counts), reserveCount, P.lists, id, pfn);
      SameKeeps(regions, P.space, space);
    }

    method ReservePop(ghost stale: set<nat>) returns (r: Option<nat>)
      requires Consistent(stale)
      modifies this`frames, this`heads, this`lists, this`space, this`reserveCount
      ensures Consistent(stale) && ReserveList in old(lists)
      ensures r.None? ==> Snap() == old(Snap()) && lists[ReserveList] == []
      ensures r.Some? ==> Popped(old(Snap()), ReserveList, r.value, Snap())
    {
      hide ListsInv, MetaInv, WellFormed, Coalesced, HeldOrders, CountsOk, RegionsOk;
      var id := ReserveList;
      ghost var P := Snap();
      HeadFacts(P, id);
      CountFacts(counts, reserveCount, lists, id);
      if heads[id].None? {
        return None;
      }
      var pfn := heads[id].value;
      heads := heads[id := frames[pfn].next];
      frames := frames[pfn := frames[pfn].(next := None, prev := None, state := Allocated, migratable := true)];
      lists := lists[id := lists[id][1..]];
      space := Move(space, pfn, Held);
      PopKeeps(P, id, Snap(), stale);
      CountsPopped(counts, reserveCount, P.lists, id);
      SameKeeps(regions, P.space, space);
      reserveCount := reserveCount - 1;
      return Some(pfn);
    }

    method ReservePush(pfn: nat, ghost stale: set<nat>)
      requires Consistent(stale + {pfn}) && pfn in space.blocks && space.blocks[pfn] == Block(ORDER_4K, Held)
      modifies this`frames, this`heads, this`lists, this`space, this`reserveCount
      ensures Consistent(stale)
      ensures space == Move(old(space), pfn, Reserve) && reserveCount == old(reserveCount) + 1
      ensures ReserveList in old(lists) && lists == old(lists)[ReserveList := [pfn] + old(lists)[ReserveList]]
    {
      hide ListsInv, MetaInv, WellFormed, Coalesced, HeldOrders, CountsOk, RegionsOk;
      var id := ReserveList;
      ghost var P := Snap();
      PushFacts(P, pfn, ORDER_4K, id);
      frames := frames[pfn := BuddyFrame(ORDER_4K, Allocated, true, heads[id], None)];
      heads := heads[id := Some(pfn)];
      lists := lists[id := [pfn] + lists[id]];
      space := Move(space, pfn, Reserve);
      PushKeeps(P, pfn, Reserve, Snap());
      PushedSummary(P, pfn, Reserve, Snap(), stale);
      CountsPushed(counts, reserveCount, P.lists, id, pfn);
      SameKeeps(regions, P.space, space);
      reserveCount := reserveCount + 1;
    }

    /** Moves the head of a per-CPU list to the global lists, coalescing it. */
    method DrainOne(cpu: nat, order: nat) returns (r: Option<nat>)
      requires Consistent({}) && order < MAX_ORDER
      modifies this`frames, this`heads, this`lists, this`space, this`counts
      ensures Consistent({}) && CacheList(cpu % MAX_CPUS, order) in old(lists)
      ensures Compacting(old(space), space)
      ensures r.None? ==> Snap() == old(Snap()) && lists[CacheList(cpu % MAX_CPUS, order)] == []
      ensures r.Some? ==> |old(lists)[CacheList(cpu % MAX_CPUS, order)]| > 0
      ensures r.Some? ==> var id := CacheList(cpu % MAX_CPUS, order);
        && r.value == old(lists)[id][0] && SameCaches(old(lists)[id := old(lists)[id][1..]], lists)
        && r.value in old(space).blocks && Freed(Move(old(space), r.value, Held), r.value, order, space)
    {
      hide ListsInv, MetaInv, WellFormed, Coalesced, HeldOrders, CountsOk, RegionsOk, Freed, SameCaches, Compacting;
      r := PercpuPopRaw(cpu, order, {});
      if r.None? {
        CompactingRefl(space);
        return;
      }
      ghost var P := Snap();
      PoppedFacts(old(Snap()), CacheList(cpu % MAX_CPUS, order), r.value, P);
      StaleMore(P, {}, r.value);
      FreeAndMerge(r.value, order, {});
      DrainStep(old(space), r.value, order, cpu % MAX_CPUS, space);
      FreedUninit(P.space, r.value, order, space);
      SameKeeps(regions, P.space, space);
      CountsSame(counts, reserveCount, P.lists, lists);
    }

    /** Caches a held block on `cpu`, draining what exceeds the limit. */
    method PercpuPush(cpu: nat, pfn: nat, order: nat)
      requires Consistent({}) && LimitsOk(lists)
      requires pfn in space.blocks && space.blocks[pfn] == Block(order, Held)
      modifies this`frames, this`heads, this`lists, this`space, this`counts
      ensures Consistent({}) && LimitsOk(lists)
      ensures Returned(old(space), pfn, order, space)
      ensures Cached(old(lists), old(space), pfn, order, cpu, lists, space)
    {
      hide ListsInv, MetaInv, WellFormed, Coalesced, HeldOrders, CountsOk, RegionsOk, SameCaches, Compacting, Returned,
        Freed;
      var id := CacheList(cpu % MAX_CPUS, order);
      BlockInRange(space, pfn);
      StaleMore(Snap(), {}, pfn);
      PercpuPushRaw(cpu, pfn, order, {});
      CountFacts(counts, reserveCount, lists, id);
      ghost var s := space;
      CompactingRefl(s);
      ghost var pushed := lists;
      var toDrain := if counts[id] > PerCpuLimit(order) then counts[id] - PerCpuLimit(order) else 0;
      assert toDrain == if |old(lists)[id]| < PerCpuLimit(order) then 0 else 1;
      while toDrain > 0
        invariant toDrain <= 1 && Consistent({}) && id in lists && |lists[id]| <= PerCpuLimit(order) + toDrain
        invariant LimitsExcept(lists, id) && Compacting(s, space)
        invariant toDrain == 1 || |old(lists)[id]| < PerCpuLimit(order) ==> lists == pushed && space == s
        invariant toDrain == 0 && |old(lists)[id]| >= PerCpuLimit(order) ==>
          SameCaches(old(lists), lists) && Freed(old(space), pfn, order, space)
      {
        ghost var before, t := lists, space;
        var r := DrainOne(cpu, order);
        CompactingTransitive(s, t, space);
        if r.None? { break; }
        SameCachesAt(before[id := before[id][1..]], lists, id);
        LimitsPopped(before, lists, id);
        BackAgain(old(lists), id, pfn);
        ThroughCache(old(space), pfn, order, cpu % MAX_CPUS, space);
        toDrain := toDrain - 1;
      }
      PushReturns(old(space), pfn, order, PerCpu(cpu % MAX_CPUS), space);
    }

    /** Empties every per-CPU cache into the global lists. */
    method DrainPercpuAll() returns (drained: nat)
      requires Consistent({}) && LimitsOk(lists)
      modifies this`frames, this`heads, this`lists, this`space, this`counts
      ensures Consistent({}) && LimitsOk(lists) && Compacting(old(space), space)
      ensures forall id :: LegalList(id) && id.CacheList? ==> id in lists && lists[id] == []
    {
      hide ListsInv, MetaInv, WellFormed, Coalesced, HeldOrders, CountsOk, RegionsOk, SameCaches, Compacting, LimitsOk;
      drained := 0;
      CompactingRefl(space);
      for cpu := 0 to MAX_CPUS
        invariant Consistent({}) && LimitsOk(lists) && Compacting(old(space), space)
        invariant forall id :: LegalList(id) && id.CacheList? && id.cpu < cpu ==> id in lists && lists[id] == []
      {
        for order := 0 to MAX_ORDER
          invariant Consistent({}) && LimitsOk(lists) && Compacting(old(space), space)
          invariant forall id ::
            LegalList(id) && id.CacheList? && (id.cpu < cpu || (id.cpu == cpu && id.order < order)) ==>
              id in lists && lists[id] == []
        {
          var n := DrainList(cpu, order, old(space));
          drained := drained + n;
        }
      }
    }

    /** Empties one per-CPU list. */
    method DrainList(cpu: nat, order: nat, ghost s: Space) returns (drained: nat)
      requires Consistent({}) && LimitsOk(lists) && cpu < MAX_CPUS && order < MAX_ORDER && Compacting(s, space)
      modifies this`frames, this`heads, this`lists, this`space, this`counts
      ensures Consistent({}) && LimitsOk(lists) && Compacting(s, space)
      ensures CacheList(cpu, order) in lists && lists[CacheList(cpu, order)] == []
      ensures forall id :: id in old(lists) && !id.GlobalList? && id != CacheList(cpu, order) ==>
        id in lists && lists[id] == old(lists)[id]
    {
      hide ListsInv, MetaInv, WellFormed, Coalesced, HeldOrders, CountsOk, RegionsOk, Compacting, LimitsOk;
      var id := CacheList(cpu, order);
      drained := 0;
      CountFacts(counts, reserveCount, lists, id);
      while true
        invariant Consistent({}) && LimitsOk(lists) && Compacting(s, space) && id in lists
        invariant forall l :: l in old(lists) && !l.GlobalList? && l != id ==> l in lists && lists[l] == old(lists)[l]
        decreases if id in lists then |lists[id]| else 0
      {
        ghost var before, t := lists, space;
        var r := DrainOne(cpu, order);
        CompactingTransitive(s, t, space);
        if r.None? { break; }
        LimitsShrink(before, lists, id);
        drained := drained + 1;
      }
    }

    /** Length of a list, by walking its `next` links. */
    method CountList(id: ListId) returns (n: nat)
      requires Inv(Snap()) && LegalList(id)
      ensures id in lists && n == |lists[id]|
    {
      HeadFacts(Snap(), id);
      assert GoodList(Snap(), id);
      n := 0;
      var cur := heads[id];
      while cur.Some?
        invariant n <= |lists[id]| && cur == At(lists[id], n)
        decreases |lists[id]| - n
      {
        assert Node(frames, lists[id], n, id.GlobalList?);
        cur := frames[cur.value].next;
        n := n + 1;
      }
    }

    /** The largest order with a free block, on a global list or in a cache; 0 if there is none. */
    method MaxFreeOrder() returns (r: nat)
      requires Consistent({})
      ensures r < MAX_ORDER && (r > 0 ==> SomeFree(space, r))
      ensures forall k :: r < k < MAX_ORDER ==> !SomeFree(space, k)
    {
      hide WellFormed, Coalesced, ListsInv, MetaInv, HeldOrders, RegionsOk, SomeFree;
      r := MAX_ORDER;
      while r > 0
        invariant r <= MAX_ORDER
        invariant forall k :: r <= k < MAX_ORDER ==> !SomeFree(space, k)
      {
        r := r - 1;
        var n: nat := 0;
        for shard := 0 to SHARD_COUNT
          invariant n > 0 ==> exists id :: id in lists && OfOrder(id, r) && lists[id] != []
          invariant n == 0 ==> forall s :: 0 <= s < shard ==> EmptyList(lists, GlobalList(r, s))
        {
          var m := CountList(GlobalList(r, shard));
          n := n + m;
        }
        for cpu := 0 to MAX_CPUS
          invariant n > 0 ==> exists id :: id in lists && OfOrder(id, r) && lists[id] != []
          invariant n == 0 ==> forall s :: 0 <= s < SHARD_COUNT ==> EmptyList(lists, GlobalList(r, s))
          invariant n == 0 ==> forall c :: 0 <= c < cpu ==> EmptyList(lists, CacheList(c, r))
        {
          CountFacts(counts, reserveCount, lists, CacheList(cpu, r));
          n := n + counts[CacheList(cpu, r)];
        }
        if n > 0 {
          SomeFreeList(Snap(), r);
          return;
        }
        NoFreeList(Snap(), r);
      }
    }

    /** Drains every cache. Free memory ends up on the global lists, in blocks at least as large. */
    method Compact()
      requires Consistent({}) && LimitsOk(lists)
      modifies this`frames, this`heads, this`lists, this`space, this`counts, this`compactLastBefore,
        this`compactLastAfter
      ensures Consistent({}) && LimitsOk(lists) && Compacting(old(space), space)
      ensures forall f :: FrameIn(space, f, Global) <==> FreeFrame(old(space), f)
      ensures forall id :: LegalList(id) && id.CacheList? ==> EmptyList(lists, id)
      ensures compactLastBefore <= compactLastAfter < MAX_ORDER
      ensures compactLastBefore > 0 ==> SomeFree(old(space), compactLastBefore)
      ensures forall k :: compactLastBefore < k < MAX_ORDER ==> !SomeFree(old(space), k)
      ensures compactLastAfter > 0 ==> SomeFree(space, compactLastAfter)
      ensures forall k :: compactLastAfter < k < MAX_ORDER ==> !SomeFree(space, k)
    {
      hide WellFormed, Coalesced, ListsInv, MetaInv, HeldOrders, RegionsOk, SomeFree, Compacting, LimitsOk;
      var before := MaxFreeOrder();
      var drained := DrainPercpuAll();
      var after := MaxFreeOrder();
      compactLastBefore, compactLastAfter := before, after;
      AllGlobal(Snap(), old(space));
      if before > 0 { CompactGrows(old(space), space, before); }
    }

    /** Fills the empty cache of `cpu` with a batch and keeps the first block for the caller. */
    method PercpuRefill(cpu: nat, order: nat) returns (first: Option<nat>)
      requires Consistent({}) && LimitsOk(lists) && order < MAX_ORDER
      requires EmptyList(lists, CacheList(cpu % MAX_CPUS, order))
      modifies this`frames, this`heads, this`lists, this`space, this`counts, this`regions, this`lastUninit
      ensures Consistent({}) && LimitsOk(lists)
      ensures first.None? ==> Snap() == old(Snap()) && counts == old(counts) && regions == old(regions)
      ensures first.None? ==> lastUninit == old(lastUninit)
      ensures first.None? <==> Exhausted(old(space), old(regions), order)
      ensures first.Some? ==> Served(old(space), first.value, order, space)
      ensures first.Some? ==>
        Chosen(old(lists), old(space), old(regions), old(lastUninit), cpu, order, first.value)
      ensures first.Some? ==> Batched(lists, cpu % MAX_CPUS, order) || Exhausted(space, regions, order)
      ensures ReserveList in old(lists) && ReserveList in lists && lists[ReserveList] == old(lists)[ReserveList]
    {
      hide WellFormed, Coalesced, ListsInv, MetaInv, HeldOrders, RegionsOk, CountsOk, LimitsOk, Served, SameCaches,
        Exhausted, Chosen, SomeRun, Granted, Carved;
      var id := CacheList(cpu % MAX_CPUS, order);
      first := None;
      HasReserve(Snap());
      LimitsWeaker(lists, id);
      for i := 0 to PerCpuBatch(order)
        invariant Consistent({}) && LimitsExcept(lists, id)
        invariant id in lists && |lists[id]| == (if i == 0 then 0 else i - 1)
        invariant ReserveList in lists && lists[ReserveList] == old(lists)[ReserveList]
        invariant first.None? ==> i == 0 && Snap() == old(Snap()) && counts == old(counts) && regions == old(regions)
        invariant first.None? ==> lastUninit == old(lastUninit)
        invariant first.Some? ==>
          Chosen(old(lists), old(space), old(regions), old(lastUninit), cpu, order, first.value)
        invariant first.Some? ==>
          i > 0 && Served(old(space), first.value, order, space) && !Exhausted(old(space), old(regions), order)
      {
        ghost var P := Snap();
        var r := AllocGlobal(order, cpu, {});
        if r.None? {
          LimitsStronger(lists, id);
          return;
        }
        SameCachesAt(P.lists, lists, id);
        SameCachesAt(P.lists, lists, ReserveList);
        LimitsSame(P.lists, lists, id);
        if first.None? {
          first := r;
        } else {
          ServedTwice(old(space), first.value, P.space, r.value, order, space, PerCpu(cpu % MAX_CPUS));
          StaleMore(Snap(), {}, r.value);
          ghost var Q := Snap();
          PercpuPushRaw(cpu, r.value, order, {});
          LimitsAt(Q.lists, id, [r.value] + Q.lists[id]);
        }
      }
      BatchSize(order);
      LimitsStronger(lists, id);
    }

    /** What holds between calls. */
    ghost predicate Valid()
      reads this
    {
      Consistent({}) && LimitsOk(lists) && allocatedFrames == HeldFrames(HeldMap(space), |frames|)
    }

    /** This CPU has nothing left to give for `order`. */
    ghost predicate Dry(order: nat, cpu: nat)
      reads this
    {
      && Exhausted(space, regions, order)
      && EmptyList(lists, CacheList(cpu % MAX_CPUS, order))
      && (order == ORDER_4K ==> EmptyList(lists, ReserveList))
    }

    /** Cache, refill, global lists and regions, then the reserve for single frames. */
    method TryAllocate(order: nat, cpu: nat) returns (r: Option<nat>)
      requires Consistent({}) && LimitsOk(lists) && order < MAX_ORDER
      modifies this`frames, this`heads, this`lists, this`space, this`counts, this`regions, this`lastUninit,
        this`reserveCount
      ensures Consistent({}) && LimitsOk(lists)
      ensures r.Some? ==> Served(old(space), r.value, order, space)
      ensures r.None? ==> Snap() == old(Snap()) && Dry(order, cpu)
      ensures r.None? ==> regions == old(regions) && lastUninit == old(lastUninit)
      ensures Sourced(old(lists), old(space), old(regions), old(lastUninit), cpu, order, r, lists)
    {
      hide WellFormed, Coalesced, ListsInv, MetaInv, HeldOrders, RegionsOk, CountsOk, LimitsOk, Served, Exhausted,
        SameCaches, Chosen, SomeRun, Granted, Carved;
      HasReserve(Snap());
      r := PercpuPopRaw(cpu, order, {});
      if r.Some? {
        PopServes(old(Snap()), CacheList(cpu % MAX_CPUS, order), r.value, Snap());
        return;
      }
      r := PercpuRefill(cpu, order);
      if r.Some? { return; }
      r := AllocGlobal(order, cpu, {});
      LimitsKept(old(lists), lists);
      if r.Some? { return; }
      if order == ORDER_4K {
        r := ReservePop({});
        if r.Some? { PopServes(old(Snap()), ReserveList, r.value, Snap()); }
      }
    }

    /** Compacts and tries the global lists and regions once more. */
    method CompactAndRetry(order: nat, cpu: nat) returns (r: Option<nat>)
      requires Consistent({}) && LimitsOk(lists) && order < MAX_ORDER
      modifies this`frames, this`heads, this`lists, this`space, this`counts, this`regions, this`lastUninit,
        this`compactLastBefore, this`compactLastAfter
      ensures Consistent({}) && LimitsOk(lists)
      ensures r.Some? ==> Served(old(space), r.value, order, space)
      ensures r.None? ==> HeldMap(space) == HeldMap(old(space)) && SameUninit(old(space), space)
      ensures r.None? ==> Exhausted(space, regions, order)
      ensures forall id :: LegalList(id) && id.CacheList? ==> EmptyList(lists, id)
      ensures Exhausted(old(space), old(regions), order) ==>
        (r.Some? <==> exists a: nat :: FreeRun(old(space), a, order))
    {
      hide WellFormed, Coalesced, ListsInv, MetaInv, HeldOrders, RegionsOk, CountsOk, LimitsOk, Served, Exhausted,
        Compacting, SomeFree, SameCaches, Chosen, SomeRun, Granted, Carved, FreeRun, FreeFrame, FrameIn;
      Compact();
      ghost var P, regions0 := Snap(), regions;
      r := AllocGlobal(order, cpu, {});
      LimitsKept(P.lists, lists);
      EmptyKept(P.lists, lists);
      CompactServes(old(space), P.space, r, order, space);
      SameOwners(old(space), P.space);
      CompactedRuns(old(space), P.space, order);
      if Exhausted(old(space), regions0, order) { ExhaustedRun(old(space), P.space, regions0, order); }
    }

    /** A block of 2^order frames for the caller. None means that the free lists, the regions and
        this CPU's cache hold no block of that order, and the reserve no frame. */
    method Allocate(order: nat, cpu: nat) returns (r: Option<nat>)
      requires Valid()
      modifies this
      ensures Valid()
      ensures order >= MAX_ORDER ==> r.None?
      ensures r.Some? ==> Served(old(space), r.value, order, space)
      ensures r.None? ==> HeldMap(space) == HeldMap(old(space)) && SameUninit(old(space), space)
      ensures r.None? && order < MAX_ORDER ==> Dry(order, cpu)
      ensures order < MAX_ORDER ==> allocCalls == old(allocCalls) + 1
      ensures order < MAX_ORDER && !Retried(old(lists), old(space), old(regions), cpu, order, allocCalls,
        old(compactLastAllocCall)) ==>
        && Sourced(old(lists), old(space), old(regions), old(lastUninit), cpu, order, r, lists)
        && compactLastAllocCall == old(compactLastAllocCall) && (r.None? ==> Snap() == old(Snap()))
      ensures order < MAX_ORDER && Retried(old(lists), old(space), old(regions), cpu, order, allocCalls,
        old(compactLastAllocCall)) ==>
        && (r.Some? <==> exists a: nat :: FreeRun(old(space), a, order))
        && compactLastAllocCall == allocCalls && forall id :: LegalList(id) && id.CacheList? ==> EmptyList(lists, id)
    {
      hide WellFormed, Coalesced, ListsInv, MetaInv, HeldOrders, RegionsOk, CountsOk, LimitsOk, Served, Exhausted,
        SomeFree, Sourced, Wanting, FreeRun;
      if order >= MAX_ORDER { return None; }
      allocCalls := allocCalls + 1;
      r := TryAllocate(order, cpu);
      NoneWanting(old(lists), old(space), old(regions), old(lastUninit), cpu, order, r, lists);
      WantingExhausted(old(lists), old(space), old(regions), CacheList(cpu % MAX_CPUS, order), order);
      if r.None? && order > ORDER_4K && allocCalls - compactLastAllocCall >= 1024 {
        var maxOrder := MaxFreeOrder();
        if maxOrder < order {
          compactLastAllocCall := allocCalls;
          r := CompactAndRetry(order, cpu);
        }
      }
      if r.Some? {
        ServedCount(old(space), r.value, order, space, |frames|);
        allocatedFrames := allocatedFrames + Pow2(order);
      }
    }

    /** Gives a block back. Unknown and already free frames are rejected; a frame whose metadata
        says `Allocated` must be the start of a held block. */
    method Deallocate(pfn: nat, cpu: nat)
      requires Valid()
      requires pfn < |frames| && frames[pfn].state.Allocated? ==> pfn in HeldMap(space)
      modifies this`frames, this`heads, this`lists, this`space, this`counts, this`reserveCount, this`allocatedFrames
      ensures Valid()
      ensures pfn !in HeldMap(old(space)) ==> Snap() == old(Snap()) && allocatedFrames == old(allocatedFrames)
      ensures pfn in HeldMap(old(space)) ==> Returned(old(space), pfn, HeldMap(old(space))[pfn], space)
      ensures pfn in HeldMap(old(space)) ==>
        PutAway(old(lists), old(space), pfn, HeldMap(old(space))[pfn], cpu, lists, space)
      ensures reserveCount <= Greatest(old(reserveCount), RESERVE_PAGES)
    {
      hide WellFormed, Coalesced, ListsInv, MetaInv, HeldOrders, RegionsOk, CountsOk, LimitsOk, Returned, Compacting,
        Cached;
      CountFacts(counts, reserveCount, lists, ReserveList);
      HeldMeta(Snap(), pfn);
      if pfn >= |frames| { return; }
      if !frames[pfn].state.Allocated? { return; }
      var order := frames[pfn].order;
      if order == ORDER_4K && reserveCount < RESERVE_PAGES {
        StaleMore(Snap(), {}, pfn);
        ghost var P := Snap();
        ReservePush(pfn, {});
        CompactingRefl(space);
        PushReturns(old(space), pfn, order, Reserve, space);
        LimitsReserve(P.lists, [pfn] + P.lists[ReserveList]);
      } else {
        PercpuPush(cpu, pfn, order);
      }
      ReturnedCount(old(space), pfn, order, space, |frames|);
      allocatedFrames := allocatedFrames - Pow2(order);
    }
  }
}
