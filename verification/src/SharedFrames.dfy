/** A frame mapped at two pages: moving one of them frees a frame that is still in use. */
module SharedFrames {
  import opened AddressTables
  import opened Areas
  import opened Basics
  import opened Forking
  import opened PageCopies
  import opened Options
  import opened PageEntry
  import opened PageWalk
  import opened ReverseMap
  import opened TableEdits
  import opened TableProbe
  import opened UserMemory

  /** Mapping a frame that is not free leaves no free frame mapped. */
  lemma MappedFree(m: Mem, n: Mem, spot: map<nat, Spot>, pool: set<nat>, p4: nat, page: nat, frame: nat, flags: Flags)
    requires FreeUnmapped(m, spot, pool) && Frame(frame) && frame !in pool && Root(spot, p4)
    requires Remapped(m, n, spot, p4, page, 1, Some(Mapping(Encode(frame, flags), 1)))
    ensures FreeUnmapped(n, spot, pool)
  {
    hide Look, Encode, FlagsOf, AddrOf, Root, FrameOf;
    DecodeAddr(frame, flags);
    forall r: nat, va: nat, f: nat | Root(spot, r) && va < LOW_END && Uses(n, r, va, f) ensures f !in pool {
      if r == p4 && va / Span(1) == page / Span(1) {
        Within(frame, va % PAGE_SIZE);
      } else {
        assert Uses(m, r, va, f);
      }
    }
  }

  /** Maps an unmapped page, with three frames free for tables. */
  method MapUser(memory: Memory, p4: nat, page: nat, frame: nat, flags: Flags)
    requires memory.Valid() && IsPage(memory.tables.spot, p4, page) && Look(memory.tables.mem, p4, 4, page) == None
    requires Frame(frame) && frame > 0 && frame !in memory.tables.pool && frame !in memory.tables.mem
    requires HUGE_PAGE !in flags && USER_ACCESSIBLE in flags && |memory.tables.pool| >= 3
    modifies memory.tables
    ensures memory.Valid() && memory.tables.counts.Keys == old(memory.tables.counts.Keys)
    ensures Root(memory.tables.spot, p4)
    ensures memory.tables.rmap == Added(old(memory.tables.rmap), frame, RmapEntry(p4, page, flags))
    ensures memory.tables.pool <= old(memory.tables.pool) && |memory.tables.pool| + 3 >= |old(memory.tables.pool)|
    ensures memory.tables.mem.Keys == old(memory.tables.mem.Keys) + (old(memory.tables.pool) - memory.tables.pool)
    ensures forall va: nat :: va < LOW_END && va / PAGE_SIZE != page / PAGE_SIZE ==>
      Look(memory.tables.mem, p4, 4, va) == old(Look(memory.tables.mem, p4, 4, va))
  {
    hide Look, Encode, FlagsOf, AddrOf, WellLinked, CountsOk, PoolOk, Consistent, FreeUnmapped, Added, UserFrames,
      Vacant, Verdict, Reach, SameView, Root;
    ghost var m, s, pool, rm := memory.tables.mem, memory.tables.spot, memory.tables.pool, memory.tables.rmap;
    VerdictCause(m, s, |pool|, p4, page, frame, flags);
    var mapped := memory.tables.MapPage(p4, page, frame, flags);
    MappedFree(m, memory.tables.mem, s, pool, p4, page, frame, flags + {PRESENT});
    FewerFree(memory.tables.mem, s, pool, memory.tables.pool);
    SameRoots(memory.tables.mem, s, memory.tables.spot, memory.tables.pool);
    AddedKeys(rm, frame, RmapEntry(p4, page, flags));
    MappedUserFrames(m, s, rm, pool, memory.tables.mem, memory.tables.rmap, memory.tables.pool, frame);
  }

  /** One empty address space and one frame in hand. */
  method EmptySpace(free: set<nat>) returns (memory: Memory, root: nat, frame: nat)
    requires |free| >= 9 && forall f :: f in free ==> f > 0 && Frame(f)
    ensures fresh(memory) && fresh(memory.tables) && memory.Valid() && Root(memory.tables.spot, root)
    ensures memory.tables.rmap == map[]
    ensures |memory.tables.pool| >= 7 && frame > 0 && Frame(frame) && frame in memory.tables.counts
    ensures frame !in memory.tables.pool && frame !in memory.tables.mem
    ensures forall va: nat :: va < LOW_END ==> Look(memory.tables.mem, root, 4, va) == None
  {
    hide Look, WellLinked, CountsOk, PoolOk, Consistent, FreeUnmapped, UserFrames, SameView, Root;
    memory := new Memory(free);
    ghost var a := Now(memory);
    var made := memory.tables.NewBare(Zeros(ENTRY_COUNT));
    root := made.value;
    NewChild(a, Now(memory), 0, root, []);
    NewRootFrames(a.mem, a.spot, memory.tables.rmap, a.pool, memory.tables.mem, root);
    var taken := memory.tables.AllocateFrame();
    frame := taken.value;
    FewerFree(memory.tables.mem, memory.tables.spot, a.pool - {root}, memory.tables.pool);
  }

  /** With any nine free frames: one frame at two pages of one address space, and one migration. Afterwards the
      allocator holds a frame that is still mapped. */
  method FreedInUse(free: set<nat>) returns (memory: Memory)
    requires |free| >= 9 && forall f :: f in free ==> f > 0 && Frame(f)
    ensures memory.tables.Valid() && !memory.Valid()
  {
    hide Look, Encode, FlagsOf, AddrOf, WellLinked, CountsOk, PoolOk, Consistent, FreeUnmapped, UserFrames, SameView,
      ByteAt, OnlyUse, Root, UserPagesOnly;
    var root, frame;
    memory, root, frame := EmptySpace(free);
    MapUser(memory, root, 0, frame, {USER_ACCESSIBLE});
    MapUser(memory, root, PAGE_SIZE, frame, {USER_ACCESSIBLE});
    SharedStays(memory.tables.mem, memory.tables.spot, memory.tables.rmap, frame);
    var done, f, e, g := memory.MigrateOne(true);
  }
}
