/** Dropping an address space: its pages go back to the allocator, and so does its top-level table. */
module Dropping {
  import opened AddressTables
  import opened Areas
  import opened Options
  import opened PageCopies
  import opened PageEntry
  import opened PageWalk
  import opened ReverseMap
  import opened TableEdits
  import opened UserMemory

  /** The child maps `va` on frame `f`. */
  ghost predicate OnFrame(mem: Mem, child: nat, va: nat, f: nat) {
    Look(mem, child, 4, va).Some? && AddrOf(Look(mem, child, 4, va).value.entry) == f
  }

  /** The child's pages lie on frames of their own that were free at `a`; every other frame taken since is a page
      table or lost. */
  ghost predicate Owned(a: Snap, b: Snap, child: nat, lost: set<nat>) {
    && (forall va: nat, f: nat :: va < LOW_END && OnFrame(b.mem, child, va, f) ==>
          Look(b.mem, child, 4, va).value.level == 1 && f in a.pool && f !in b.mem)
    && (forall va: nat, wa: nat, f: nat ::
          va < LOW_END && wa < LOW_END && OnFrame(b.mem, child, va, f) && OnFrame(b.mem, child, wa, f) ==>
            va / PAGE_SIZE == wa / PAGE_SIZE)
    && (forall f :: f in a.pool && f !in b.pool ==> Spent(b, child, lost, f))
  }

  ghost predicate Spent(b: Snap, child: nat, lost: set<nat>, f: nat) {
    f in b.mem || f in lost || exists va: nat :: va < LOW_END && OnFrame(b.mem, child, va, f)
  }

  /** The frame of a 4K page is in use. */
  lemma UsedFrame(b: Snap, child: nat, va: nat, f: nat)
    requires Look(b.mem, child, 4, va).Some? && Look(b.mem, child, 4, va).value.level == 1 && va < LOW_END
    ensures OnFrame(b.mem, child, va, f) <==> Uses(b.mem, child, va, f)
    ensures Root(b.spot, child) && FreeUnmapped(b.mem, b.spot, b.pool) && OnFrame(b.mem, child, va, f) ==> f !in b.pool
  {
    hide Look, AddrOf, FrameOf;
    InFrame(Look(b.mem, child, 4, va).value.entry, 1, va);
  }

  lemma NewOwned(a: Snap, b: Snap, child: nat)
    requires a.pool - b.pool <= {child} && child in b.mem
    requires forall va: nat :: va < LOW_END ==> Look(b.mem, child, 4, va) == None
    ensures Owned(a, b, child, {})
  {
    hide Look;
    forall f | f in a.pool && f !in b.pool ensures Spent(b, child, {}, f) { assert f in a.pool - b.pool; }
  }

  /** Another page filled on a fresh frame. */
  lemma FilledOwned(a: Snap, b: Snap, c: Snap, child: nat, page: nat, g: nat, flags: Flags, bytes: seq<nat>)
    requires Apart(a, b, child) && Owned(a, b, child, {}) && Filled(b, c, child, page, g, flags, bytes)
    requires c.mem.Keys == b.mem.Keys + (b.pool - {g} - c.pool) && g !in b.mem
    ensures Owned(a, c, child, {})
  {
    hide Look, Root, Encode, AddrOf, FlagsOf, FrameOf, PageBytes, Translation, ByteAt, Filled;
    FilledPools(b, c, child, page, g, flags, bytes);
    forall va: nat, f: nat | va < LOW_END && OnFrame(c.mem, child, va, f)
      ensures Look(c.mem, child, 4, va).value.level == 1 && f in a.pool && f !in c.mem
      ensures va / PAGE_SIZE == page / PAGE_SIZE ==> f == g
      ensures va / PAGE_SIZE != page / PAGE_SIZE ==> f != g && OnFrame(b.mem, child, va, f)
    {
      FilledFrame(a, b, c, child, page, g, flags, bytes, va, f);
    }
    forall f | f in a.pool && f !in c.pool ensures Spent(c, child, {}, f) {
      FilledSpent(a, b, c, child, page, g, flags, bytes, f);
    }
  }

  lemma FilledPools(b: Snap, c: Snap, child: nat, page: nat, g: nat, flags: Flags, bytes: seq<nat>)
    requires Filled(b, c, child, page, g, flags, bytes)
    ensures g in b.pool && c.pool <= b.pool - {g} && page < LOW_END && Root(b.spot, child)
    ensures forall va: nat :: va < LOW_END && va / PAGE_SIZE == page / PAGE_SIZE ==> Look(b.mem, child, 4, va) == None
  {
    hide Look;
  }

  lemma FilledFrame(a: Snap, b: Snap, c: Snap, child: nat, page: nat, g: nat, flags: Flags, bytes: seq<nat>, va: nat,
                    f: nat)
    requires Apart(a, b, child) && Owned(a, b, child, {}) && Filled(b, c, child, page, g, flags, bytes)
    requires c.mem.Keys == b.mem.Keys + (b.pool - {g} - c.pool) && g !in b.mem && va < LOW_END
    requires OnFrame(c.mem, child, va, f)
    ensures Look(c.mem, child, 4, va).value.level == 1 && f in a.pool && f !in c.mem
    ensures va / PAGE_SIZE == page / PAGE_SIZE ==> f == g
    ensures va / PAGE_SIZE != page / PAGE_SIZE ==> f != g && OnFrame(b.mem, child, va, f)
  {
    hide Look, Root, Encode, AddrOf, FlagsOf, FrameOf, PageBytes, Translation, ByteAt, Filled, Spent;
    FilledPools(b, c, child, page, g, flags, bytes);
    if va / PAGE_SIZE == page / PAGE_SIZE {
      FilledPage(b, c, child, page, g, flags, bytes, va);
    } else {
      FilledElsewhere(b, c, child, page, g, flags, bytes, child, va);
      assert OnFrame(b.mem, child, va, f);
      UsedFrame(b, child, va, f);
    }
  }

  lemma FilledSpent(a: Snap, b: Snap, c: Snap, child: nat, page: nat, g: nat, flags: Flags, bytes: seq<nat>, f: nat)
    requires Apart(a, b, child) && Owned(a, b, child, {}) && Filled(b, c, child, page, g, flags, bytes)
    requires c.mem.Keys == b.mem.Keys + (b.pool - {g} - c.pool) && f in a.pool && f !in c.pool
    ensures Spent(c, child, {}, f)
  {
    hide Look, Root, Encode, AddrOf, FlagsOf, FrameOf, PageBytes, Translation, ByteAt, Filled;
    FilledPools(b, c, child, page, g, flags, bytes);
    if f == g {
      FilledPage(b, c, child, page, g, flags, bytes, page);
      assert OnFrame(c.mem, child, page, g);
    } else if f !in b.pool && f !in b.mem {
      assert Spent(b, child, {}, f);
      var va: nat :| va < LOW_END && OnFrame(b.mem, child, va, f);
      FilledElsewhere(b, c, child, page, g, flags, bytes, child, va);
      assert OnFrame(c.mem, child, va, f);
    }
  }

  /** A page could not be mapped: the frame for it is lost. */
  lemma FailedOwned(a: Snap, b: Snap, c: Snap, child: nat, g: nat)
    requires Apart(a, b, child) && Owned(a, b, child, {}) && SameView(b.mem, c.mem, b.spot)
    requires c.pool <= b.pool - {g} && c.mem.Keys == b.mem.Keys + (b.pool - {g} - c.pool)
    ensures Owned(a, c, child, {g})
  {
    hide Look, AddrOf, FrameOf;
    forall va: nat, f: nat | va < LOW_END && OnFrame(c.mem, child, va, f)
      ensures OnFrame(b.mem, child, va, f) && Look(c.mem, child, 4, va).value.level == 1 && f in a.pool && f !in c.mem
    {
      assert OnFrame(b.mem, child, va, f);
      UsedFrame(b, child, va, f);
    }
    forall f | f in a.pool && f !in c.pool ensures Spent(c, child, {g}, f) {
      if f !in b.pool && f !in b.mem {
        assert Spent(b, child, {}, f);
        var va: nat :| va < LOW_END && OnFrame(b.mem, child, va, f);
        assert OnFrame(c.mem, child, va, f);
      }
    }
  }

  /** One page given back. */
  ghost predicate GaveBack(b: Snap, c: Snap, root: nat, page: nat, f: nat) {
    && Root(b.spot, root) && page < LOW_END && OnFrame(b.mem, root, page, f)
       && Look(b.mem, root, 4, page).value.level == 1
    && Remapped(b.mem, c.mem, b.spot, root, page, 1, None)
    && c.mem.Keys == b.mem.Keys && c.spot == b.spot && c.pool == b.pool + {f} && c.data == b.data
  }

  lemma BackElsewhere(b: Snap, c: Snap, root: nat, page: nat, f: nat, r: nat, va: nat)
    requires GaveBack(b, c, root, page, f) && Root(b.spot, r) && va < LOW_END
    ensures r == root && va / PAGE_SIZE == page / PAGE_SIZE ==> Look(c.mem, r, 4, va) == None
    ensures !(r == root && va / PAGE_SIZE == page / PAGE_SIZE) ==> Look(c.mem, r, 4, va) == Look(b.mem, r, 4, va)
  {
    hide Look;
  }

  lemma BackPools(b: Snap, c: Snap, root: nat, page: nat, f: nat)
    requires GaveBack(b, c, root, page, f)
    ensures Root(b.spot, root) && page < LOW_END && OnFrame(b.mem, root, page, f)
    ensures c.mem.Keys == b.mem.Keys && c.spot == b.spot && c.pool == b.pool + {f} && c.data == b.data
  {
  }

  /** Since `o`, pages of `root` were given back, and nothing else changed. */
  ghost predicate Shed(o: Snap, b: Snap, root: nat) {
    && Root(o.spot, root) && b.spot == o.spot && b.mem.Keys == o.mem.Keys && b.data == o.data
    && (forall r: nat, va: nat :: Root(o.spot, r) && r != root && va < LOW_END ==>
          Look(b.mem, r, 4, va) == Look(o.mem, r, 4, va))
    && (forall va: nat :: va < LOW_END && Look(b.mem, root, 4, va).Some? ==>
          Look(b.mem, root, 4, va) == Look(o.mem, root, 4, va))
    && (forall f :: f in b.pool <==> f in o.pool || Released(o, b, root, f))
  }

  /** A page that is no longer mapped was on this frame. */
  ghost predicate Released(o: Snap, b: Snap, root: nat, f: nat) {
    exists va: nat :: va < LOW_END && OnFrame(o.mem, root, va, f) && Look(b.mem, root, 4, va) == None
  }

  lemma NoneShed(o: Snap, root: nat)
    requires Root(o.spot, root)
    ensures Shed(o, o, root)
  {
    hide Look, AddrOf;
  }

  lemma MoreShed(o: Snap, b: Snap, c: Snap, root: nat, page: nat, f: nat)
    requires Shed(o, b, root) && GaveBack(b, c, root, page, f)
    ensures Shed(o, c, root)
  {
    hide Look, AddrOf, Root, GaveBack, OnFrame, Released;
    BackPools(b, c, root, page, f);
    forall r: nat, va: nat | Root(o.spot, r) && r != root && va < LOW_END
      ensures Look(c.mem, r, 4, va) == Look(o.mem, r, 4, va)
    {
      BackElsewhere(b, c, root, page, f, r, va);
    }
    forall va: nat | va < LOW_END && Look(c.mem, root, 4, va).Some?
      ensures Look(c.mem, root, 4, va) == Look(o.mem, root, 4, va)
    {
      BackElsewhere(b, c, root, page, f, root, va);
    }
    forall h ensures Released(o, c, root, h) <==> Released(o, b, root, h) || h == f {
      MoreReleased(o, b, c, root, page, f, h);
    }
  }

  lemma MoreReleased(o: Snap, b: Snap, c: Snap, root: nat, page: nat, f: nat, h: nat)
    requires Shed(o, b, root) && GaveBack(b, c, root, page, f)
    ensures Released(o, c, root, h) <==> Released(o, b, root, h) || h == f
  {
    hide Look, AddrOf, Root, GaveBack;
    BackPools(b, c, root, page, f);
    BackElsewhere(b, c, root, page, f, root, page);
    assert OnFrame(o.mem, root, page, f);
    if Released(o, c, root, h) {
      var va: nat :| va < LOW_END && OnFrame(o.mem, root, va, h) && Look(c.mem, root, 4, va) == None;
      BackElsewhere(b, c, root, page, f, root, va);
      if va / PAGE_SIZE == page / PAGE_SIZE { PageAlike(o.mem, root, page, va); }
    }
    if Released(o, b, root, h) {
      var va: nat :| va < LOW_END && OnFrame(o.mem, root, va, h) && Look(b.mem, root, 4, va) == None;
      BackElsewhere(b, c, root, page, f, root, va);
      assert Look(c.mem, root, 4, va) == None;
    }
  }

  /** What is still mapped lies in the pages from `page` of area `i` on. */
  ghost predicate Remaining(b: Snap, root: nat, s: seq<Area>, i: nat, page: nat) {
    forall va: nat :: va < LOW_END && Look(b.mem, root, 4, va).Some? ==> Ahead(s, i, page, va)
  }

  ghost predicate Ahead(s: seq<Area>, i: nat, page: nat, va: nat) {
    exists j: nat :: j < |s| && InPages(s[j], va) && (j > i || (j == i && va >= page))
  }

  /** Everything that is mapped lies in pages of the areas. */
  ghost predicate Inside(b: Snap, root: nat, s: seq<Area>) {
    forall va: nat :: va < LOW_END && Look(b.mem, root, 4, va).Some? ==> exists j: nat :: j < |s| && InPages(s[j], va)
  }

  lemma WithinRemaining(b: Snap, root: nat, s: seq<Area>)
    requires Inside(b, root, s)
    ensures Remaining(b, root, s, 0, 0)
  {
    hide Look, InPages;
    forall va: nat | va < LOW_END && Look(b.mem, root, 4, va).Some? ensures Ahead(s, 0, 0, va) {
      var j: nat :| j < |s| && InPages(s[j], va);
    }
  }

  lemma AheadNext(s: seq<Area>, i: nat, page: nat, va: nat)
    requires i < |s| && Ahead(s, i, page, va) && page % PAGE_SIZE == 0 && va / PAGE_SIZE != page / PAGE_SIZE
    ensures Ahead(s, i, page + PAGE_SIZE, va)
  {
    hide InPages;
    var j: nat :| j < |s| && InPages(s[j], va) && (j > i || (j == i && va >= page));
    assert j == i ==> va >= page + PAGE_SIZE;
  }

  lemma AheadArea(s: seq<Area>, i: nat, page: nat, va: nat)
    requires i < |s| && Ahead(s, i, page, va) && page >= PageEnd(s[i])
    ensures Ahead(s, i + 1, 0, va)
  {
    hide PageEnd, PageStart;
    var j: nat :| j < |s| && InPages(s[j], va) && (j > i || (j == i && va >= page));
  }

  lemma BackRemaining(b: Snap, c: Snap, root: nat, page: nat, f: nat, s: seq<Area>, i: nat)
    requires GaveBack(b, c, root, page, f) && Remaining(b, root, s, i, page) && i < |s| && page % PAGE_SIZE == 0
    ensures Remaining(c, root, s, i, page + PAGE_SIZE)
  {
    hide Look, GaveBack, Ahead, Root;
    BackPools(b, c, root, page, f);
    forall va: nat | va < LOW_END && Look(c.mem, root, 4, va).Some? ensures Ahead(s, i, page + PAGE_SIZE, va) {
      BackElsewhere(b, c, root, page, f, root, va);
      AheadNext(s, i, page, va);
    }
  }

  lemma SkippedRemaining(b: Snap, root: nat, page: nat, s: seq<Area>, i: nat)
    requires Remaining(b, root, s, i, page) && i < |s| && page % PAGE_SIZE == 0 && page < LOW_END
    requires Look(b.mem, root, 4, page) == None
    ensures Remaining(b, root, s, i, page + PAGE_SIZE)
  {
    hide Look, Ahead;
    forall va: nat | va < LOW_END && Look(b.mem, root, 4, va).Some? ensures Ahead(s, i, page + PAGE_SIZE, va) {
      if va / PAGE_SIZE == page / PAGE_SIZE { PageAlike(b.mem, root, page, va); }
      AheadNext(s, i, page, va);
    }
  }

  lemma AreaRemaining(b: Snap, root: nat, s: seq<Area>, i: nat, page: nat)
    requires i < |s| && Remaining(b, root, s, i, page) && page >= PageEnd(s[i])
    ensures Remaining(b, root, s, i + 1, 0)
  {
    hide Look, Ahead, PageEnd;
    forall va: nat | va < LOW_END && Look(b.mem, root, 4, va).Some? ensures Ahead(s, i + 1, 0, va) {
      AheadArea(s, i, page, va);
    }
  }

  lemma AreaStart(b: Snap, root: nat, s: seq<Area>, i: nat)
    requires i < |s| && Remaining(b, root, s, i, 0)
    ensures Remaining(b, root, s, i, PageStart(s[i]))
  {
    hide Look, PageEnd, PageStart;
    forall va: nat | va < LOW_END && Look(b.mem, root, 4, va).Some? ensures Ahead(s, i, PageStart(s[i]), va) {
      assert Ahead(s, i, 0, va);
      var j: nat :| j < |s| && InPages(s[j], va) && (j > i || (j == i && va >= 0));
    }
  }

  lemma NothingRemains(b: Snap, root: nat, s: seq<Area>)
    requires Remaining(b, root, s, |s|, 0)
    ensures forall va: nat :: va < LOW_END ==> Look(b.mem, root, 4, va) == None
  {
    hide Look, InPages;
    forall va: nat | va < LOW_END ensures Look(b.mem, root, 4, va) == None {
      assert !Ahead(s, |s|, 0, va);
    }
  }

  /** The pages are 4K pages on frames the allocator manages, none of which is a page table. */
  ghost predicate OwnPages(mem: Mem, root: nat, managed: set<nat>) {
    forall va: nat :: va < LOW_END && Look(mem, root, 4, va).Some? ==>
      OwnPage(mem, managed, Look(mem, root, 4, va).value)
  }

  ghost predicate OwnPage(mem: Mem, managed: set<nat>, m: Mapping) {
    var f := AddrOf(m.entry);
    m.level == 1 && f > 0 && Frame(f) && f in managed && f !in mem
  }

  lemma ShedPage(o: Snap, b: Snap, root: nat, managed: set<nat>, page: nat)
    requires Shed(o, b, root) && OwnPages(o.mem, root, managed) && page < LOW_END && Look(b.mem, root, 4, page).Some?
    ensures OwnPage(b.mem, managed, Look(b.mem, root, 4, page).value)
  {
    hide Look, AddrOf, Frame, Released;
    assert OwnPage(o.mem, managed, Look(o.mem, root, 4, page).value);
  }

  lemma ShedRoot(o: Snap, b: Snap, root: nat)
    requires Shed(o, b, root)
    ensures Root(b.spot, root) && b.spot == o.spot && b.mem.Keys == o.mem.Keys
  {
  }

  lemma UnmappedPage(b: Snap, c: Snap, rm: Rmap, rm2: Rmap, root: nat, page: nat, m: Mapping, f: nat)
    requires Root(b.spot, root) && page < LOW_END && Look(b.mem, root, 4, page) == Some(m) && m.level == 1
    requires Emptied(b.mem, rm, c.mem, rm2, b.spot, root, page, m, f)
    requires c.mem.Keys == b.mem.Keys && c.spot == b.spot && c.pool == b.pool + {f} && c.data == b.data
    ensures GaveBack(b, c, root, page, f) && OnFrame(b.mem, root, page, f) && rm2.Keys <= rm.Keys
  {
    hide Look, AddrOf, Retain;
  }

  lemma FewerUserFrames(mem: Mem, n: Mem, rm: Rmap, rm2: Rmap)
    requires UserFrames(mem, rm) && n.Keys <= mem.Keys && rm2.Keys <= rm.Keys
    ensures UserFrames(n, rm2)
  {
    forall f | f in rm2 ensures f > 0 && f !in n { assert f in rm; }
  }

  lemma EmptiedFrame(m: Mem, rm: Rmap, n: Mem, rm2: Rmap, spot: map<nat, Spot>, p4: nat, page: nat, was: Mapping,
                     frame: nat)
    requires Emptied(m, rm, n, rm2, spot, p4, page, was, frame)
    ensures frame == AddrOf(was.entry)
  {
  }

  /** The tables are in order, and what the reverse map lists is not a table. */
  ghost predicate TablesOk(memory: Memory)
    reads memory, memory.tables
  {
    memory.tables.Valid() && UserFrames(memory.tables.mem, memory.tables.rmap)
  }

  /** Unmaps one page, if it is mapped, and gives its frame back. */
  method DropPage(memory: Memory, root: nat, page: nat, ghost o: Snap, ghost managed: set<nat>, ghost s: seq<Area>,
                  ghost i: nat)
    requires TablesOk(memory) && Shed(o, Now(memory), root) && OwnPages(o.mem, root, managed)
    requires managed <= memory.tables.counts.Keys
    requires page < LOW_END && page % PAGE_SIZE == 0 && i < |s| && Remaining(Now(memory), root, s, i, page)
    modifies memory.tables
    ensures TablesOk(memory) && Shed(o, Now(memory), root) && managed <= memory.tables.counts.Keys
    ensures Remaining(Now(memory), root, s, i, page + PAGE_SIZE)
  {
    hide Look, AddrOf, WellLinked, CountsOk, PoolOk, Consistent, UserFrames, Shed, Remaining, Emptied, GaveBack, Root,
      Frame, OwnPages;
    ghost var b, rm := Now(memory), memory.tables.rmap;
    ShedRoot(o, b, root);
    var r := memory.tables.UnmapPage(root, page);
    if r.Err? {
      SkippedRemaining(b, root, page, s, i);
      return;
    }
    ghost var was := Look(b.mem, root, 4, page).value;
    ShedPage(o, b, root, managed, page);
    EmptiedFrame(b.mem, rm, memory.tables.mem, memory.tables.rmap, b.spot, root, page, was, r.value);
    memory.tables.DeallocateFrame(r.value);
    ghost var c := Now(memory);
    UnmappedPage(b, c, rm, memory.tables.rmap, root, page, was, r.value);
    MoreShed(o, b, c, root, page, r.value);
    BackRemaining(b, c, root, page, r.value, s, i);
    FewerUserFrames(b.mem, c.mem, rm, memory.tables.rmap);
  }

  /** Unmaps the pages of all areas. */
  method DropPages(memory: Memory, root: nat, areas: seq<Area>, ghost o: Snap, ghost managed: set<nat>)
    requires TablesOk(memory) && Shed(o, Now(memory), root) && OwnPages(o.mem, root, managed)
    requires managed <= memory.tables.counts.Keys && UserAreas(areas) && Remaining(Now(memory), root, areas, 0, 0)
    modifies memory.tables
    ensures TablesOk(memory) && Shed(o, Now(memory), root) && managed <= memory.tables.counts.Keys
    ensures forall va: nat :: va < LOW_END ==> Look(memory.tables.mem, root, 4, va) == None
  {
    hide Look, TablesOk, Shed, Remaining, UserAreas, PageStart, PageEnd, OwnPages;
    var i := 0;
    while i < |areas|
      invariant 0 <= i <= |areas| && TablesOk(memory) && Shed(o, Now(memory), root)
      invariant managed <= memory.tables.counts.Keys && Remaining(Now(memory), root, areas, i, 0)
    {
      PagesLow(areas, i);
      AreaStart(Now(memory), root, areas, i);
      var page := PageStart(areas[i]);
      while page < PageEnd(areas[i])
        invariant page % PAGE_SIZE == 0 && TablesOk(memory) && Shed(o, Now(memory), root)
        invariant managed <= memory.tables.counts.Keys && Remaining(Now(memory), root, areas, i, page)
      {
        PageStep(page, PageEnd(areas[i]), page);
        DropPage(memory, root, page, o, managed, areas, i);
        page := page + PAGE_SIZE;
      }
      AreaRemaining(Now(memory), root, areas, i, page);
      i := i + 1;
    }
    NothingRemains(Now(memory), root, areas);
  }

  /** A frame of a page of the space, or of its top-level table. */
  ghost predicate Belongs(o: Snap, root: nat, f: nat) {
    f == root || exists va: nat :: va < LOW_END && OnFrame(o.mem, root, va, f)
  }

  /** The space is gone: its pages' frames and its top-level table are free, and all else is as before. */
  ghost predicate Gone(o: Snap, c: Snap, root: nat) {
    && SameView(o.mem, c.mem, c.spot) && (forall q: nat :: Root(c.spot, q) <==> Root(o.spot, q) && q != root)
    && c.mem.Keys == o.mem.Keys - {root} && c.data == o.data
    && (forall f :: f in c.pool <==> f in o.pool || Belongs(o, root, f))
  }

  /** No other space maps a frame of this one. */
  ghost predicate Unshared(o: Snap, root: nat) {
    forall r: nat, va: nat, f: nat :: Root(o.spot, r) && r != root && va < LOW_END && Uses(o.mem, r, va, f) ==>
      !Belongs(o, root, f)
  }

  lemma AllShed(o: Snap, b: Snap, c: Snap, root: nat)
    requires Shed(o, b, root) && c.pool == b.pool + {root} && c.mem.Keys == b.mem.Keys - {root} && c.data == b.data
    requires forall va: nat :: va < LOW_END ==> Look(b.mem, root, 4, va) == None
    requires (forall q: nat :: Root(c.spot, q) <==> Root(b.spot, q) && q != root) && SameView(b.mem, c.mem, c.spot)
    ensures Gone(o, c, root)
  {
    hide Look, AddrOf, Root, OnFrame;
    forall r: nat, va: nat | Root(c.spot, r) && va < LOW_END ensures Look(c.mem, r, 4, va) == Look(o.mem, r, 4, va) { }
    forall f ensures f in c.pool <==> f in o.pool || Belongs(o, root, f) {
      assert Released(o, b, root, f) <==> exists va: nat :: va < LOW_END && OnFrame(o.mem, root, va, f);
    }
  }

  /** Dropping a space leaves no free frame mapped exactly when it shared none with another space. */
  lemma GoneFree(o: Snap, c: Snap, root: nat)
    requires Gone(o, c, root) && FreeUnmapped(o.mem, o.spot, o.pool)
    ensures FreeUnmapped(c.mem, c.spot, c.pool) <==> Unshared(o, root)
  {
    hide Look, AddrOf, Root, FrameOf, Belongs;
    if FreeUnmapped(c.mem, c.spot, c.pool) {
      forall r: nat, va: nat, f: nat | Root(o.spot, r) && r != root && va < LOW_END && Uses(o.mem, r, va, f)
        ensures !Belongs(o, root, f)
      {
        assert Uses(c.mem, r, va, f);
      }
    }
    if Unshared(o, root) {
      forall r: nat, va: nat, f: nat | Root(c.spot, r) && va < LOW_END && Uses(c.mem, r, va, f) ensures f !in c.pool {
        assert Uses(o.mem, r, va, f);
      }
    }
  }

  /** Drops an address space with these areas. */
  method DropSpace(memory: Memory, root: nat, areas: seq<Area>)
    requires memory.Valid() && Root(memory.tables.spot, root) && UserAreas(areas) && Inside(Now(memory), root, areas)
    requires root > 0 && Frame(root) && root in memory.tables.counts
    requires OwnPages(memory.tables.mem, root, memory.tables.counts.Keys)
    modifies memory.tables
    ensures TablesOk(memory) && Gone(old(Now(memory)), Now(memory), root)
    ensures memory.Valid() <==> Unshared(old(Now(memory)), root)
  {
    hide Look, WellLinked, CountsOk, PoolOk, Consistent, FreeUnmapped, UserFrames, Shed, Remaining, UserAreas, Frame,
      Root, SameView, Gone, Inside, OwnPages, Unshared;
    ghost var o, managed := Now(memory), memory.tables.counts.Keys;
    NoneShed(o, root);
    WithinRemaining(o, root, areas);
    DropPages(memory, root, areas, o, managed);
    ghost var b := Now(memory);
    ShedRoot(o, b, root);
    memory.tables.DropRoot(root);
    AllShed(o, b, Now(memory), root);
    FewerUserFrames(b.mem, memory.tables.mem, memory.tables.rmap, memory.tables.rmap);
    GoneFree(o, Now(memory), root);
  }

  /** Frames the allocator manages. */
  ghost predicate Managed(pool: set<nat>, counts: map<nat, nat>) {
    forall f :: f in pool ==> f > 0 && Frame(f) && f in counts
  }

  lemma PoolManaged(mem: Mem, counts: map<nat, nat>, pool: set<nat>)
    requires PoolOk(mem, counts, pool)
    ensures Managed(pool, counts)
  {
  }

  /** The child was made since `a`, and only its own pages were filled in. */
  ghost predicate Child(a: Snap, b: Snap, child: nat, lost: set<nat>) {
    Apart(a, b, child) && Owned(a, b, child, lost)
  }

  /** A half-built child can be dropped. */
  lemma ChildPages(a: Snap, b: Snap, child: nat, lost: set<nat>, counts: map<nat, nat>)
    requires Child(a, b, child, lost) && Managed(a.pool, counts) && child in a.pool
    ensures OwnPages(b.mem, child, counts.Keys) && Root(b.spot, child) && Unshared(b, child)
    ensures child > 0 && Frame(child) && child in counts
  {
    hide Look, AddrOf, Spent, Frame, FrameOf, Root;
    forall va: nat | va < LOW_END && Look(b.mem, child, 4, va).Some?
      ensures OwnPage(b.mem, counts.Keys, Look(b.mem, child, 4, va).value)
    {
      assert OnFrame(b.mem, child, va, AddrOf(Look(b.mem, child, 4, va).value.entry));
    }
    forall r: nat, va: nat, f: nat | Root(b.spot, r) && r != child && va < LOW_END && Uses(b.mem, r, va, f)
      ensures !Belongs(b, child, f)
    {
      assert Uses(a.mem, r, va, f);
    }
  }

  /** What is left of an address space that was given up: its other page tables, and the frame in hand when it
      failed. */
  ghost predicate GivenUp(a: Snap, c: Snap, lost: set<nat>) {
    && SameView(a.mem, c.mem, a.spot) && (forall q: nat :: Root(c.spot, q) <==> Root(a.spot, q))
    && FreeUnmapped(c.mem, c.spot, c.pool)
       && (forall f :: f !in a.pool ==> PageBytes(c.data, f) == PageBytes(a.data, f))
    && c.pool <= a.pool && a.pool - c.pool <= c.mem.Keys + lost
  }

  lemma ChildGone(a: Snap, b: Snap, c: Snap, child: nat, lost: set<nat>)
    requires Child(a, b, child, lost) && child in a.pool && Gone(b, c, child)
    requires FreeUnmapped(c.mem, c.spot, c.pool)
    ensures GivenUp(a, c, lost)
  {
    hide Look, AddrOf, Root, PageBytes, FrameOf, Translation, Uses, FreeUnmapped;
    forall r: nat, va: nat | Root(a.spot, r) && va < LOW_END ensures Look(c.mem, r, 4, va) == Look(a.mem, r, 4, va) { }
    forall f | f in a.pool - c.pool ensures f in c.mem.Keys + lost { assert Spent(b, child, lost, f); }
  }
}
