/** Copying an address space page by page. */
module Forking {
  import opened AddressTables
  import opened AreaMerging
  import opened Areas
  import opened Dropping
  import opened Options
  import opened PageCopies
  import opened PageEntry
  import opened PageWalk
  import opened ReverseMap
  import opened TableEdits
  import opened TableProbe
  import opened Treap
  import opened UserMemory
  import V = VmaTree

  datatype MmError = FrameAllocationFailed | Map(error: MapError)

  /** The page belongs to an earlier area too. */
  ghost predicate Shared(s: seq<Area>, i: nat, page: nat) {
    exists j: nat :: j < i && j < |s| && InPages(s[j], page)
  }

  /** Two areas have a page in common. */
  ghost predicate SharePages(s: seq<Area>) {
    exists i: nat, page: nat :: i < |s| && InPages(s[i], page) && page % PAGE_SIZE == 0 && Shared(s, i, page)
  }

  predicate OutOfFrames(e: MmError) {
    e == MmError.FrameAllocationFailed || e == Map(MapError.FrameAllocationFailed)
  }

  /** Why copying a page fails: the page is there already, or there is no frame for it or for a table. */
  ghost predicate Failed(e: MmError, s: seq<Area>, i: nat, page: nat, free: nat) {
    (e == Map(PageAlreadyMapped) && Shared(s, i, page)) || (OutOfFrames(e) && free < 4)
  }

  lemma VerdictCause(mem: Mem, spot: map<nat, Spot>, free: nat, p4: nat, page: nat, frame: nat, flags: Flags)
    requires WellLinked(mem, spot) && Root(spot, p4) && page < LOW_END && HUGE_PAGE !in flags
    requires Look(mem, p4, 4, page).Some? ==> Look(mem, p4, 4, page).value.level == 1
    ensures var v := Verdict(mem, free, p4, page, frame, flags);
      && (v.Ok? ==> Look(mem, p4, 4, page) == None && Reach(mem, p4, 4, page, 1).missing <= 3)
      && (v.Err? ==>
            || (v.error == PageAlreadyMapped && Look(mem, p4, 4, page).Some?)
            || (v.error == MapError.FrameAllocationFailed && free < 3))
  {
    hide Look, WellLinked, Reach;
    ReachLook(mem, spot, p4, p4, 4, page);
  }

  /** The child has a page exactly when an earlier area does. */
  lemma SharedMapped(a: Snap, b: Snap, parent: nat, child: nat, s: seq<Area>, i: nat, page: nat)
    requires Copied(a, b, parent, child, s, i, page) && i < |s| && page < LOW_END
    ensures Look(b.mem, child, 4, page).Some? <==> Shared(s, i, page)
    ensures Look(b.mem, child, 4, page).Some? ==> Look(b.mem, child, 4, page).value.level == 1
  {
    hide Look, ByteAt, FlagsOf, AddrOf, PageStart, PageEnd;
    if Shared(s, i, page) {
      var j: nat :| j < i && j < |s| && InPages(s[j], page);
      assert Done(s, i, page, j, page);
    }
    if Look(b.mem, child, 4, page).Some? {
      var j: nat :| Done(s, i, page, j, page);
      assert CopiedAt(a, b, parent, child, page, s[j].flags);
    }
  }

  /** Maps one page of the child on a new frame and fills it. */
  method CopyPage(memory: Memory, parent: nat, child: nat, page: nat, ghost a: Snap, s: seq<Area>, i: nat)
    returns (r: Result<(), MmError>, ghost lost: set<nat>)
    requires memory.Valid() && Root(a.spot, parent) && UserAreas(s) && i < |s| && InPages(s[i], page)
    requires page % PAGE_SIZE == 0
    requires Child(a, Now(memory), child, {}) && Copied(a, Now(memory), parent, child, s, i, page)
    modifies memory, memory.tables
    ensures memory.Valid() && Child(a, Now(memory), child, lost)
    ensures memory.tables.counts.Keys == old(memory.tables.counts.Keys)
    ensures |lost| <= 1 && (r.Ok? ==> lost == {}) && (r.Err? ==> Inside(Now(memory), child, s))
    ensures r.Ok? ==> Copied(a, Now(memory), parent, child, s, i, page + PAGE_SIZE) && !Shared(s, i, page)
    ensures r.Err? ==> Failed(r.error, s, i, page, |old(memory.tables.pool)|)
    ensures r.Ok? ==> |memory.tables.pool| + 4 >= |old(memory.tables.pool)|
  {
    hide Look, Encode, FlagsOf, AddrOf, WellLinked, CountsOk, PoolOk, Consistent, FreeUnmapped, ByteAt, Remapped, Added,
      Translation, UserFrames, Copied, SameView, Vacant, ZeroPage, PageStart, PageEnd, PageBytes, Verdict, Filled,
      Apart, FrameOf, Shared, Reach, Root, Owned, Inside;
    ghost var b := Now(memory);
    PagesLow(s, i);
    CopiedWithin(a, b, parent, child, s, i, page);
    SharedMapped(a, b, parent, child, s, i, page);
    ApartRoots(a, b, child, parent);
    var frame := memory.tables.AllocateFrame();
    if frame.None? { return Err(MmError.FrameAllocationFailed), {}; }
    FewerFree(b.mem, b.spot, b.pool, memory.tables.pool);
    ghost var rm := memory.tables.rmap;
    VerdictCause(b.mem, b.spot, |memory.tables.pool|, child, page, frame.value, s[i].flags);
    var mapped := memory.tables.MapPage(child, page, frame.value, s[i].flags);
    ghost var c := Now(memory);
    AddedKeys(rm, frame.value, RmapEntry(child, page, s[i].flags));
    MappedUserFrames(b.mem, b.spot, rm, b.pool, c.mem, memory.tables.rmap, c.pool, frame.value);
    if mapped.Err? {
      StillApart(a, b, c, child);
      FailedOwned(a, b, c, child, frame.value);
      SameWithin(b, c, child, s);
      return Err(Map(mapped.error)), {frame.value};
    }
    var source := memory.tables.Translate(parent, page);
    var bytes := if source.Some? then PageBytes(memory.data, FrameOf(source.value)) else ZeroPage();
    memory.data := memory.data[frame.value := bytes];
    FilledNow(b, Now(memory), parent, child, page, frame.value, s[i].flags, bytes);
    FilledApart(a, b, Now(memory), child, page, frame.value, s[i].flags, bytes);
    FilledCopied(a, b, Now(memory), parent, child, s, i, page, frame.value);
    FilledOwned(a, b, Now(memory), child, page, frame.value, s[i].flags, bytes);
    ApartRoots(a, Now(memory), child, parent);
    r, lost := Ok(()), {};
  }

  /** How many pages an area has. */
  function PageCount(a: Area): nat {
    if PageStart(a) < PageEnd(a) then (PageEnd(a) - PageStart(a)) / PAGE_SIZE else 0
  }

  function PageTotal(s: seq<Area>, i: nat): nat
    requires i <= |s|
  {
    if i == 0 then 0 else PageTotal(s, i - 1) + PageCount(s[i - 1])
  }

  lemma {:induction false} TotalGrows(s: seq<Area>, i: nat, j: nat)
    requires i <= j <= |s|
    ensures PageTotal(s, i) <= PageTotal(s, j)
    decreases j - i
  {
    hide PageCount;
    if i < j { TotalGrows(s, i, j - 1); }
  }

  lemma TotalNone(s: seq<Area>)
    ensures PageTotal(s, 0) == 0
  {
  }

  lemma TotalStep(s: seq<Area>, i: nat)
    requires i < |s|
    ensures PageTotal(s, i + 1) == PageTotal(s, i) + PageCount(s[i]) <= PageTotal(s, |s|)
  {
    hide PageCount;
    TotalGrows(s, i + 1, |s|);
  }

  /** No page of the area belongs to an earlier one. */
  ghost predicate AloneArea(s: seq<Area>, i: nat) {
    i < |s| && forall page: nat :: InPages(s[i], page) && page % PAGE_SIZE == 0 ==> !Shared(s, i, page)
  }

  lemma AllAlone(s: seq<Area>)
    requires forall i: nat :: i < |s| ==> AloneArea(s, i)
    ensures !SharePages(s)
  {
    hide Shared, InPages;
    forall i: nat, page: nat | i < |s| && InPages(s[i], page) && page % PAGE_SIZE == 0 ensures !Shared(s, i, page) {
      assert AloneArea(s, i);
    }
  }

  /** Copies the pages of one area. */
  method CopyArea(memory: Memory, parent: nat, child: nat, ghost a: Snap, s: seq<Area>, i: nat)
    returns (r: Result<(), MmError>, ghost lost: set<nat>)
    requires memory.Valid() && Root(a.spot, parent) && UserAreas(s) && i < |s| && s[i].start < s[i].end
    requires Child(a, Now(memory), child, {}) && Copied(a, Now(memory), parent, child, s, i, 0)
    modifies memory, memory.tables
    ensures memory.Valid() && Child(a, Now(memory), child, lost)
    ensures memory.tables.counts.Keys == old(memory.tables.counts.Keys)
    ensures |lost| <= 1 && (r.Ok? ==> lost == {}) && (r.Err? ==> Inside(Now(memory), child, s))
    ensures r.Ok? ==> Copied(a, Now(memory), parent, child, s, i + 1, 0) && AloneArea(s, i)
    ensures r.Err? ==> (r.error == Map(PageAlreadyMapped) && SharePages(s)) ||
                       (OutOfFrames(r.error) && |old(memory.tables.pool)| < 4 * PageCount(s[i]))
    ensures r.Ok? ==> |memory.tables.pool| + 4 * PageCount(s[i]) >= |old(memory.tables.pool)|
  {
    hide WellLinked, CountsOk, PoolOk, Consistent, FreeUnmapped, UserFrames, Copied, Child, PageStart, PageEnd, Shared,
      Inside;
    PagesLow(s, i);
    NotStarted(a, Now(memory), parent, child, s, i);
    var page := PageStart(s[i]);
    ghost var k := 0;
    while page < PageEnd(s[i])
      invariant PageStart(s[i]) <= page <= PageEnd(s[i]) && page % PAGE_SIZE == 0
      invariant page == PageStart(s[i]) + k * PAGE_SIZE
      invariant |memory.tables.pool| + 4 * k >= |old(memory.tables.pool)|
      invariant forall p: nat :: PageStart(s[i]) <= p < page && p % PAGE_SIZE == 0 ==> !Shared(s, i, p)
      invariant memory.Valid() && Child(a, Now(memory), child, {}) && Copied(a, Now(memory), parent, child, s, i, page)
      invariant memory.tables.counts.Keys == old(memory.tables.counts.Keys)
    {
      PageStep(page, PageEnd(s[i]), page);
      r, lost := CopyPage(memory, parent, child, page, a, s, i);
      if r.Err? { return; }
      page := page + PAGE_SIZE;
      k := k + 1;
    }
    AreaCopied(a, Now(memory), parent, child, s, i, 0);
    r, lost := Ok(()), {};
  }

  /** Collects the areas in order and stores them in a new tree, which comes out the same. */
  method CloneAreas(vma: V.VmaTree) returns (tree: V.VmaTree, areas: seq<Area>)
    requires vma.Valid()
    ensures fresh(tree) && tree.Valid() && tree.root == vma.root && areas == vma.Contents()
  {
    hide Shaped, InOrder, GoodAreas, MergedInto, Maps, Holds, Free;
    areas := InOrderWalk(vma.root);
    tree := new V.VmaTree();
    var i := 0;
    while i < |areas|
      invariant 0 <= i <= |areas| && tree.Valid() && tree.Contents() == areas[..i] && fresh(tree)
    {
      AreaFits(areas, i);
      var pushed := tree.InsertArea(areas[i]);
      ghost var m :| MergedInto(areas[..i], areas[i], m, tree.Contents());
      StoredAsIs(areas, i, m, tree.Contents());
      i := i + 1;
    }
    assert areas[..i] == areas;
    TreeSame(vma.root, tree.root);
  }

  lemma TreeSame(t: Tree, u: Tree)
    requires Shaped(t) && Shaped(u) && InOrder(t) == InOrder(u) && GoodAreas(InOrder(t))
    ensures t == u
  {
    hide Shaped, InOrder;
    GoodSorted(InOrder(t));
    ShapeUnique(t, u);
  }

  lemma NotStarted(a: Snap, b: Snap, parent: nat, child: nat, s: seq<Area>, i: nat)
    requires i < |s| && Copied(a, b, parent, child, s, i, 0)
    ensures Copied(a, b, parent, child, s, i, PageStart(s[i]))
  {
    hide PageStart, PageEnd, CopiedAt, Look;
    assert forall j: nat, va: nat :: Done(s, i, PageStart(s[i]), j, va) <==> Done(s, i, 0, j, va);
  }

  /** The child holds exactly the pages of the areas, byte for byte, on frames of its own. */
  ghost predicate Forked(a: Snap, b: Snap, parent: nat, child: nat, s: seq<Area>) {
    && (forall j: nat, va: nat :: j < |s| && InPages(s[j], va) ==> CopiedAt(a, b, parent, child, va, s[j].flags))
    && (forall va: nat :: va < LOW_END && Look(b.mem, child, 4, va).Some? ==>
       exists j: nat :: j < |s| && InPages(s[j], va))
    && (forall va: nat, r: nat, x: nat, f: nat :: va < LOW_END && Root(a.spot, r) && x < LOW_END ==>
          !(Uses(b.mem, child, va, f) && Uses(b.mem, r, x, f)))
  }

  lemma AllCopied(a: Snap, b: Snap, parent: nat, child: nat, s: seq<Area>)
    requires Apart(a, b, child) && Copied(a, b, parent, child, s, |s|, 0) && Root(a.spot, parent)
    ensures Forked(a, b, parent, child, s)
  {
    hide CopiedAt, Look, Translation, PageStart, PageEnd;
    assert forall j: nat, va: nat :: Done(s, |s|, 0, j, va) <==> j < |s| && InPages(s[j], va);
    forall va: nat, r: nat, x: nat, f: nat | va < LOW_END && Root(a.spot, r) && x < LOW_END && Uses(b.mem, child, va, f)
      ensures !Uses(b.mem, r, x, f)
    {
      ChildFrame(a, b, parent, child, s, va, f);
      ApartBytes(a, b, child, r, x);
    }
  }

  lemma ChildFrame(a: Snap, b: Snap, parent: nat, child: nat, s: seq<Area>, va: nat, f: nat)
    requires Copied(a, b, parent, child, s, |s|, 0) && va < LOW_END && Uses(b.mem, child, va, f)
    ensures f in a.pool
  {
    hide Look, FlagsOf, AddrOf, ByteAt, FrameOf;
    var j: nat :| Done(s, |s|, 0, j, va);
    assert CopiedAt(a, b, parent, child, va, s[j].flags);
    InFrame(Look(b.mem, child, 4, va).value.entry, 1, va);
  }

  lemma NewChild(a: Snap, b: Snap, parent: nat, child: nat, s: seq<Area>)
    requires FreeUnmapped(a.mem, a.spot, a.pool) && SameView(a.mem, b.mem, a.spot) && !Root(a.spot, child)
    requires (forall q: nat :: Root(b.spot, q) <==> Root(a.spot, q) || q == child) && b.pool <= a.pool
    requires b.data == a.data
    requires forall va: nat :: va < LOW_END ==> Look(b.mem, child, 4, va) == None
    ensures Apart(a, b, child) && FreeUnmapped(b.mem, b.spot, b.pool) && Copied(a, b, parent, child, s, 0, 0)
  {
    hide Look, PageBytes, FrameOf, AddrOf;
    forall r: nat, va: nat, f: nat | Root(b.spot, r) && va < LOW_END && Uses(b.mem, r, va, f) ensures f !in b.pool {
      assert r != child ==> Uses(a.mem, r, va, f);
    }
  }

  lemma NewRootFrames(mem: Mem, spot: map<nat, Spot>, rm: Rmap, pool: set<nat>, n: Mem, f: nat)
    requires UserFrames(mem, rm) && Consistent(mem, spot, rm) && FreeUnmapped(mem, spot, pool) && f in pool
    requires n.Keys == mem.Keys + {f}
    ensures UserFrames(n, rm)
  {
    hide Consistent, FreeUnmapped;
    forall g | g in rm ensures g !in pool { ListedNotFree(mem, spot, rm, pool, g); }
  }

  /** Every address of every earlier address space reads as before. */
  ghost predicate Untouched(a: Snap, b: Snap) {
    && SameView(a.mem, b.mem, a.spot)
    && forall r: nat, va: nat :: Root(a.spot, r) && va < LOW_END ==>
       ByteAt(b.mem, b.data, r, va) == ByteAt(a.mem, a.data, r, va)
  }

  lemma ApartUntouched(a: Snap, b: Snap, child: nat)
    requires Apart(a, b, child)
    ensures Untouched(a, b)
  {
    hide Look, Root, ByteAt;
    forall r: nat, va: nat | Root(a.spot, r)
        && va < LOW_END ensures ByteAt(b.mem, b.data, r, va) == ByteAt(a.mem, a.data, r, va) {
      ApartBytes(a, b, child, r, va);
    }
  }

  /** Copies the pages of all areas. */
  method CopyAreas(memory: Memory, parent: nat, child: nat, ghost a: Snap, areas: seq<Area>)
    returns (r: Result<(), MmError>, ghost lost: set<nat>)
    requires memory.Valid() && Root(a.spot, parent) && UserAreas(areas) && GoodAreas(areas)
    requires Child(a, Now(memory), child, {}) && Copied(a, Now(memory), parent, child, areas, 0, 0)
    modifies memory, memory.tables
    ensures memory.Valid() && Child(a, Now(memory), child, lost)
    ensures memory.tables.counts.Keys == old(memory.tables.counts.Keys)
    ensures |lost| <= 1 && (r.Ok? ==> lost == {}) && (r.Err? ==> Inside(Now(memory), child, areas))
    ensures r.Ok? ==> Copied(a, Now(memory), parent, child, areas, |areas|, 0) && !SharePages(areas)
    ensures r.Err? ==> (r.error == Map(PageAlreadyMapped) && SharePages(areas)) ||
                       (OutOfFrames(r.error) && |old(memory.tables.pool)| < 4 * PageTotal(areas, |areas|))
  {
    hide WellLinked, CountsOk, PoolOk, Consistent, FreeUnmapped, UserFrames, Copied, Child, UserAreas, GoodAreas,
      AloneArea, SharePages, PageCount, PageTotal, Inside;
    TotalNone(areas);
    var i := 0;
    while i < |areas|
      invariant 0 <= i <= |areas| && memory.Valid() && Child(a, Now(memory), child, {})
      invariant memory.tables.counts.Keys == old(memory.tables.counts.Keys)
      invariant Copied(a, Now(memory), parent, child, areas, i, 0)
      invariant |memory.tables.pool| + 4 * PageTotal(areas, i) >= |old(memory.tables.pool)|
        && forall j: nat :: j < i ==> AloneArea(areas, j)
    {
      AreaFits(areas, i);
      TotalStep(areas, i);
      r, lost := CopyArea(memory, parent, child, a, areas, i);
      if r.Err? { return; }
      i := i + 1;
    }
    AllAlone(areas);
    r, lost := Ok(()), {};
  }

  /** Copies the address space of `parent`, whose areas are `vma`. It fails when two areas have a page in common or
      when frames run out, which four for each page rule out. On failure the half-built child is dropped: no address
      space is left behind, all others are untouched, and all frames but those of its lower page tables and one more
      at most go back to the allocator. */
  method Fork(memory: Memory, parent: nat, vma: V.VmaTree, kernel: seq<nat>)
    returns (r: Result<(nat, V.VmaTree), MmError>)
    requires memory.Valid() && Root(memory.tables.spot, parent) && |kernel| == ENTRY_COUNT
    requires vma.Valid() && UserAreas(vma.Contents())
    modifies memory, memory.tables
    ensures memory.Valid() && Untouched(old(Now(memory)), Now(memory))
    ensures r.Ok? ==>
      var (child, tree) := r.value;
      && fresh(tree) && tree.Valid() && tree.root == vma.root
      && !Root(old(memory.tables.spot), child) && Root(memory.tables.spot, child)
      && Forked(old(Now(memory)), Now(memory), parent, child, vma.Contents())
      && !SharePages(vma.Contents())
    ensures r.Err? ==> exists lost: set<nat> :: |lost| <= 1 && GivenUp(old(Now(memory)), Now(memory), lost)
    ensures r.Err? ==> var s := vma.Contents();
      (r.error == Map(PageAlreadyMapped) && SharePages(s))
        || (OutOfFrames(r.error) && |old(memory.tables.pool)| <= 4 * PageTotal(s, |s|))
  {
    hide WellLinked, CountsOk, PoolOk, Consistent, FreeUnmapped, UserFrames, Copied, Apart, SameView, Forked, UserAreas,
      InOrder, Shaped, GoodAreas, Look, Untouched, ByteAt, AloneArea, SharePages, PageCount, PageTotal, Owned, Inside,
      Managed, GivenUp, OwnPages, Gone, Unshared;
    ghost var a := Now(memory);
    PoolManaged(a.mem, memory.tables.counts, a.pool);
    NothingGivenUp(a);
    var p4 := memory.tables.NewBare(kernel);
    if p4.None? {
      GivenUpUntouched(a, Now(memory), {});
      return Err(MmError.FrameAllocationFailed);
    }
    var child := p4.value;
    NewRootFrames(a.mem, a.spot, memory.tables.rmap, a.pool, memory.tables.mem, child);
    var tree, areas := CloneAreas(vma);
    NewChild(a, Now(memory), parent, child, areas);
    NewOwned(a, Now(memory), child);
    var copied, lost := CopyAreas(memory, parent, child, a, areas);
    if copied.Err? {
      StillManaged(a.pool, old(memory.tables.counts), memory.tables.counts);
      ghost var b := Now(memory);
      ChildPages(a, b, child, lost, memory.tables.counts);
      DropSpace(memory, child, areas);
      ChildGone(a, b, Now(memory), child, lost);
      GivenUpUntouched(a, Now(memory), lost);
      return Err(copied.error);
    }
    ApartUntouched(a, Now(memory), child);
    ApartRoots(a, Now(memory), child, parent);
    AllCopied(a, Now(memory), parent, child, areas);
    r := Ok((child, tree));
  }

  lemma NothingGivenUp(a: Snap)
    requires FreeUnmapped(a.mem, a.spot, a.pool)
    ensures GivenUp(a, a, {})
  {
  }

  lemma StillManaged(pool: set<nat>, c: map<nat, nat>, d: map<nat, nat>)
    requires Managed(pool, c) && c.Keys == d.Keys
    ensures Managed(pool, d)
  {
    forall f | f in pool ensures f in d { assert f in c.Keys; }
  }

  lemma GivenUpUntouched(a: Snap, c: Snap, lost: set<nat>)
    requires GivenUp(a, c, lost) && FreeUnmapped(a.mem, a.spot, a.pool)
    ensures Untouched(a, c)
  {
    hide Look, Root, PageBytes, AddrOf, FrameOf;
    forall r: nat, va: nat | Root(a.spot, r)
        && va < LOW_END ensures ByteAt(c.mem, c.data, r, va) == ByteAt(a.mem, a.data, r, va) {
      assert Translation(a.mem, r, va).Some? ==> Uses(a.mem, r, va, FrameOf(Translation(a.mem, r, va).value));
    }
  }

  lemma CopiedWithin(a: Snap, b: Snap, parent: nat, child: nat, s: seq<Area>, i: nat, cur: nat)
    requires Copied(a, b, parent, child, s, i, cur)
    ensures Inside(b, child, s)
  {
    hide Look, CopiedAt, InPages;
    forall va: nat | va < LOW_END && Look(b.mem, child, 4, va).Some?
      ensures exists j: nat :: j < |s| && InPages(s[j], va)
    {
      var j: nat :| Done(s, i, cur, j, va);
    }
  }

  lemma SameWithin(b: Snap, c: Snap, child: nat, s: seq<Area>)
    requires Inside(b, child, s) && SameView(b.mem, c.mem, b.spot) && Root(b.spot, child)
    ensures Inside(c, child, s)
  {
    hide Look, InPages;
  }
}
