/** The bytes user code sees: page tables over physical pages, and the migration of pages. */
module UserMemory {
  import opened AddressTables
  import opened Areas
  import opened Options
  import opened PageEntry
  import opened PageWalk
  import opened ReverseMap
  import opened TableEdits

  /** User areas lie in the lower half and are mapped by 4K pages. */
  ghost predicate UserAreas(s: seq<Area>) {
    forall i :: 0 <= i < |s| ==> s[i].end <= LOW_END && HUGE_PAGE !in s[i].flags
  }

  type Pages = map<nat, seq<nat>>

  function ZeroPage(): (b: seq<nat>)
    ensures |b| == PAGE_SIZE
  {
    seq(PAGE_SIZE, i => 0)
  }

  function PageBytes(data: Pages, f: nat): (b: seq<nat>)
    ensures |b| == PAGE_SIZE
  {
    if f in data && |data[f]| == PAGE_SIZE then data[f] else ZeroPage()
  }

  function FrameOf(pa: nat): nat {
    pa / PAGE_SIZE * PAGE_SIZE
  }

  /** The byte at an address of the address space of `p4`. */
  function ByteAt(mem: Mem, data: Pages, p4: nat, va: nat): Option<nat> {
    match Translation(mem, p4, va)
    case None => None
    case Some(pa) => Some(PageBytes(data, FrameOf(pa))[pa % PAGE_SIZE])
  }

  /** An address is translated page by page, whatever the size of the mapping. */
  lemma InFrame(e: nat, level: nat, va: nat)
    ensures var pa := AddrOf(e) + va % Span(level);
      && pa % PAGE_SIZE == va % PAGE_SIZE
      && FrameOf(pa) == AddrOf(e) + va % Span(level) / PAGE_SIZE * PAGE_SIZE
      && (level <= 1 ==> FrameOf(pa) == AddrOf(e))
  {
    var a, o := e / 4096 % 0x100_0000_0000, va % Span(level);
    assert o % 4096 == va % 4096;
    assert (a * 4096 + o) / 4096 == a + o / 4096;
  }

  ghost predicate Uses(mem: Mem, r: nat, va: nat, f: nat) {
    Translation(mem, r, va).Some? && FrameOf(Translation(mem, r, va).value) == f
  }

  /** No frame the allocator may hand out is mapped anywhere. */
  ghost predicate FreeUnmapped(mem: Mem, spot: map<nat, Spot>, pool: set<nat>) {
    forall r: nat, va: nat, f: nat :: Root(spot, r) && va < LOW_END && Uses(mem, r, va, f) ==> f !in pool
  }

  /** Frame `f` is mapped by no page but this one. */
  ghost predicate OnlyUse(mem: Mem, spot: map<nat, Spot>, f: nat, p4: nat, page: nat) {
    forall r: nat, va: nat :: Root(spot, r) && va < LOW_END && Uses(mem, r, va, f) ==>
      r == p4 && va / PAGE_SIZE == page / PAGE_SIZE
  }

  /** The 4K page `page` of `p4` moved from `f` to `g`. */
  ghost predicate Moved(m: Mem, n: Mem, spot: map<nat, Spot>, p4: nat, page: nat, f: nat, g: nat, flags: Flags) {
    && Root(spot, p4) && page < LOW_END && Frame(f) && Frame(g)
    && Look(m, p4, 4, page) == Some(Mapping(Encode(f, flags), 1))
    && (forall va: nat :: va < LOW_END && va / PAGE_SIZE == page / PAGE_SIZE ==>
       Look(m, p4, 4, va) == Look(m, p4, 4, page))
    && Remapped(m, n, spot, p4, page, 1, Some(Mapping(Encode(g, flags), 1)))
  }

  lemma Within(f: nat, o: nat)
    requires Frame(f) && o < PAGE_SIZE
    ensures FrameOf(f + o) == f && (f + o) % PAGE_SIZE == o
  {
    assert f == f / 4096 * 4096;
    assert (f / 4096 * 4096 + o) / 4096 == f / 4096;
  }

  lemma MovedUses(m: Mem, n: Mem, spot: map<nat, Spot>, p4: nat, page: nat, f: nat, g: nat, flags: Flags, r: nat,
                  va: nat)
    requires Moved(m, n, spot, p4, page, f, g, flags) && Root(spot, r) && va < LOW_END
    ensures r == p4 && va / PAGE_SIZE == page / PAGE_SIZE ==>
      Translation(m, r, va) == Some(f + va % PAGE_SIZE) && Translation(n, r, va) == Some(g + va % PAGE_SIZE)
    ensures !(r == p4 && va / PAGE_SIZE == page / PAGE_SIZE) ==> Translation(n, r, va) == Translation(m, r, va)
    ensures var o := va % PAGE_SIZE;
      FrameOf(f + o) == f && FrameOf(g + o) == g && (f + o) % PAGE_SIZE == o && (g + o) % PAGE_SIZE == o
  {
    hide Look, Encode, FlagsOf, AddrOf, Root;
    DecodeAddr(f, flags);
    DecodeAddr(g, flags);
    Within(f, va % PAGE_SIZE);
    Within(g, va % PAGE_SIZE);
  }

  /** Copying a page and moving its mapping leaves every byte of every address space in place. */
  lemma MovedBytes(m: Mem, n: Mem, spot: map<nat, Spot>, pool: set<nat>, data: Pages, p4: nat, page: nat, f: nat,
                   g: nat, flags: Flags)
    requires Moved(m, n, spot, p4, page, f, g, flags) && FreeUnmapped(m, spot, pool) && g in pool
    ensures forall r: nat, va: nat :: Root(spot, r) && va < LOW_END ==>
      ByteAt(n, data[g := PageBytes(data, f)], r, va) == ByteAt(m, data, r, va)
  {
    hide Look, Encode, FlagsOf, AddrOf, Root, Translation, FrameOf, Moved;
    forall r: nat, va: nat | Root(spot, r) && va < LOW_END
      ensures ByteAt(n, data[g := PageBytes(data, f)], r, va) == ByteAt(m, data, r, va)
    {
      MovedUses(m, n, spot, p4, page, f, g, flags, r, va);
      assert Translation(m, r, va).Some? ==> Uses(m, r, va, FrameOf(Translation(m, r, va).value));
    }
  }

  /** Freeing the old frame is safe exactly when nothing else mapped it. */
  lemma MovedFree(m: Mem, n: Mem, spot: map<nat, Spot>, pool: set<nat>, p4: nat, page: nat, f: nat, g: nat,
                  flags: Flags)
    requires Moved(m, n, spot, p4, page, f, g, flags) && FreeUnmapped(m, spot, pool) && g in pool
    ensures FreeUnmapped(n, spot, pool - {g} + {f}) <==> OnlyUse(m, spot, f, p4, page)
  {
    hide Look, Encode, FlagsOf, AddrOf, Root, Translation, FrameOf;
    MovedUses(m, n, spot, p4, page, f, g, flags, p4, page);
    assert Uses(m, p4, page, f);
    forall r: nat, va: nat, x: nat | Root(spot, r) && va < LOW_END
      ensures Uses(n, r, va, x) <==> if r == p4 && va / PAGE_SIZE == page / PAGE_SIZE then x == g else Uses(m, r, va, x)
    {
      MovedUses(m, n, spot, p4, page, f, g, flags, r, va);
    }
  }

  /** The frame of a user page the reverse map knows is held, and is not a page table. */
  ghost predicate UserFrames(mem: Mem, rm: Rmap) {
    forall f :: f in rm ==> f > 0 && f !in mem
  }

  lemma SameRoots(m: Mem, s: map<nat, Spot>, s2: map<nat, Spot>, pool: set<nat>)
    requires forall q: nat :: Root(s, q) <==> Root(s2, q)
    ensures FreeUnmapped(m, s, pool) <==> FreeUnmapped(m, s2, pool)
  {
    hide Root, Uses;
  }

  /** What the reverse map says of its entries, page by page. */
  lemma Picked(mem: Mem, spot: map<nat, Spot>, rm: Rmap, f: nat, e: RmapEntry)
    requires Consistent(mem, spot, rm) && f in rm && e in rm[f]
    ensures Agrees(mem, spot, f, e) && AddrOf(Encode(f, e.flags + {PRESENT})) == f
    ensures UserLeaf(Look(mem, e.p4, 4, e.vaddr))
    ensures forall va: nat :: va < LOW_END && va / PAGE_SIZE == e.vaddr / PAGE_SIZE ==>
      Look(mem, e.p4, 4, va) == Look(mem, e.p4, 4, e.vaddr)
  {
    hide Look, Encode, FlagsOf, AddrOf;
    assert FrameOk(mem, spot, rm, f);
    Decode(f, e.flags + {PRESENT});
    forall va: nat | va < LOW_END
        && va / PAGE_SIZE == e.vaddr / PAGE_SIZE ensures Look(mem, e.p4, 4, va) == Look(mem, e.p4, 4, e.vaddr) {
      PageIsSpan(va, e.vaddr, 1);
      AlikeInPage(mem, e.p4, 4, va, e.vaddr);
    }
  }

  lemma SameKeys(m: Mem, n: Mem, rm: Rmap)
    requires UserFrames(m, rm) && m.Keys == n.Keys
    ensures UserFrames(n, rm)
  {
  }

  lemma UserFrame(mem: Mem, rm: Rmap)
    requires UserFrames(mem, rm)
    ensures forall f :: f in rm ==> f > 0 && f !in mem
  {
  }

  /** A user frame that is listed twice stays mapped after one of its pages has moved away. */
  lemma SharedStays(mem: Mem, spot: map<nat, Spot>, rm: Rmap, f: nat)
    requires Consistent(mem, spot, rm) && f in rm && |rm[f]| > 1
    ensures !OnlyUse(mem, spot, f, rm[f][0].p4, rm[f][0].vaddr)
  {
    hide Look, Encode, FlagsOf, AddrOf, FrameOf;
    var e, d := rm[f][0], rm[f][1];
    assert FrameOk(mem, spot, rm, f);
    Picked(mem, spot, rm, f, d);
    Picked(mem, spot, rm, f, e);
    Within(f, 0);
    assert d.vaddr % Span(1) == 0;
    assert Translation(mem, d.p4, d.vaddr) == Some(f);
    assert Uses(mem, d.p4, d.vaddr, f);
    assert d.vaddr / PAGE_SIZE == e.vaddr / PAGE_SIZE ==> d.vaddr == e.vaddr;
  }

  /** Every mapping of the lower half is a 4K page that user code may follow. */
  ghost predicate UserPagesOnly(mem: Mem, spot: map<nat, Spot>) {
    forall r: nat, va: nat :: Root(spot, r) && va < LOW_END && Look(mem, r, 4, va).Some? ==>
      UserLeaf(Look(mem, r, 4, va))
  }

  /** Where there are only such pages, a use of a frame is listed under it. */
  lemma UseListed(mem: Mem, spot: map<nat, Spot>, rm: Rmap, f: nat, r: nat, va: nat)
    requires Consistent(mem, spot, rm) && UserPagesOnly(mem, spot) && Root(spot, r) && va < LOW_END
    requires Uses(mem, r, va, f)
    ensures Listed(Entries(rm, f), r, va / PAGE_SIZE * PAGE_SIZE)
  {
    hide Look, Encode, FlagsOf, AddrOf, FrameOf, Consistent, Entries;
    var page := va / PAGE_SIZE * PAGE_SIZE;
    assert page <= va && page % PAGE_SIZE == 0 && page / PAGE_SIZE == va / PAGE_SIZE;
    PageIsSpan(va, page, 1);
    AlikeInPage(mem, r, 4, va, page);
    InFrame(Look(mem, r, 4, va).value.entry, 1, va);
    Exact(mem, spot, rm, f, r, page);
  }

  /** Then the length of its list tells whether a frame is shared, and so whether moving its first page is safe. */
  lemma SoleEntry(mem: Mem, spot: map<nat, Spot>, rm: Rmap, f: nat)
    requires Consistent(mem, spot, rm) && UserPagesOnly(mem, spot) && f in rm
    ensures rm[f] != [] && (OnlyUse(mem, spot, f, rm[f][0].p4, rm[f][0].vaddr) <==> |rm[f]| == 1)
  {
    hide Look, Encode, FlagsOf, AddrOf, FrameOf, Uses, Consistent, UserPagesOnly;
    ListNotEmpty(mem, spot, rm, f);
    if |rm[f]| > 1 {
      SharedStays(mem, spot, rm, f);
    } else {
      forall r: nat, va: nat | Root(spot, r) && va < LOW_END && Uses(mem, r, va, f)
        ensures r == rm[f][0].p4 && va / PAGE_SIZE == rm[f][0].vaddr / PAGE_SIZE
      {
        UseListed(mem, spot, rm, f, r, va);
      }
    }
  }

  lemma ListNotEmpty(mem: Mem, spot: map<nat, Spot>, rm: Rmap, f: nat)
    requires Consistent(mem, spot, rm) && f in rm
    ensures rm[f] != []
  {
    hide Look;
    assert FrameOk(mem, spot, rm, f);
  }

  /** The lowest frame the reverse map lists is one the allocator manages. */
  ghost predicate LowestManaged(rm: Rmap, counts: map<nat, nat>) {
    exists f :: f in rm && f in counts && forall g :: g in rm ==> f <= g
  }

  lemma MoveUserFrames(mem: Mem, rm: Rmap, f: nat, e: RmapEntry, g: nat)
    requires UserFrames(mem, rm) && g > 0 && g !in mem
    ensures UserFrames(mem, Added(Removed(rm, f, e.p4, e.vaddr), g, e))
  {
  }

  class Memory {
    const tables: Mapper
    var data: Pages

    ghost predicate Valid()
      reads this, tables
    {
      tables.Valid() && FreeUnmapped(tables.mem, tables.spot, tables.pool) && UserFrames(tables.mem, tables.rmap)
    }

    constructor (free: set<nat>)
      requires forall f :: f in free ==> f > 0 && Frame(f)
      ensures Valid() && fresh(tables) && tables.pool == free && tables.spot == map[] && tables.rmap == map[]
        && tables.counts.Keys == free
    {
      tables := new Mapper(free);
      data := map[];
    }

    ghost predicate SameBytes(m: Mem, s: map<nat, Spot>, d: Pages)
      reads this, tables
    {
      forall r: nat, va: nat :: Root(s, r) && va < LOW_END ==> ByteAt(tables.mem, data, r, va) == ByteAt(m, d, r, va)
    }

    /** Moves the page the reverse map lists first to another frame and frees the old one. `movable`
        says whether the frame's metadata allows it. */
    method MigrateOne(movable: bool) returns (done: bool, ghost f: nat, ghost e: RmapEntry, ghost g: nat)
      requires Valid()
      modifies this, tables
      ensures tables.Valid() && SameBytes(old(tables.mem), old(tables.spot), old(data))
      ensures done ==>
        && f in old(tables.rmap) && (forall h :: h in old(tables.rmap) ==> f <= h) && old(tables.rmap)[f] != []
        && e == old(tables.rmap)[f][0] && g in old(tables.pool)
        && tables.pool == old(tables.pool) - {g} + {f}
        && tables.rmap == Added(Removed(old(tables.rmap), f, e.p4, e.vaddr), g, e)
        && (Valid() <==> OnlyUse(old(tables.mem), old(tables.spot), f, e.p4, e.vaddr))
        && (UserPagesOnly(old(tables.mem), old(tables.spot)) ==> (Valid() <==> |old(tables.rmap)[f]| == 1))
      ensures !done ==>
        tables.mem == old(tables.mem) && tables.pool == old(tables.pool) && tables.rmap == old(tables.rmap)
          && data == old(data)
      ensures done <==> movable && old(tables.pool) != {} && LowestManaged(old(tables.rmap), old(tables.counts))
    {
      hide Look, Encode, FlagsOf, AddrOf, WellLinked, CountsOk, PoolOk, Consistent, FreeUnmapped, OnlyUse, ByteAt,
        Remapped, Added, Removed, Translation, UserFrames, UserPagesOnly;
      UserFrame(tables.mem, tables.rmap);
      var first := tables.RmapAny();
      if first.None? { return false, 0, RmapEntry(0, 0, {}), 0; }
      var (old0, entry) := first.value;
      f, e := old0, entry;
      if UserPagesOnly(tables.mem, tables.spot) { SoleEntry(tables.mem, tables.spot, tables.rmap, f); }
      if old0 !in tables.counts || !movable { return false, f, e, 0; }
      var taken := tables.AllocateFrame();
      if taken.None? { return false, f, e, 0; }
      g := taken.value;
      data := data[taken.value := PageBytes(data, old0)];
      Picked(tables.mem, tables.spot, tables.rmap, f, e);
      var r := tables.MigratePage(entry.p4, entry.vaddr, taken.value, entry.flags);
      if r.Err? { assert false; }
      MovedBytes(old(tables.mem), tables.mem, old(tables.spot), old(tables.pool), old(data), e.p4, e.vaddr, f, g,
                 e.flags + {PRESENT});
      MovedFree(old(tables.mem), tables.mem, old(tables.spot), old(tables.pool), e.p4, e.vaddr, f, g,
                e.flags + {PRESENT});
      MoveUserFrames(old(tables.mem), old(tables.rmap), f, e, g);
      SameKeys(old(tables.mem), tables.mem, tables.rmap);
      SameRoots(tables.mem, old(tables.spot), tables.spot, old(tables.pool) - {g} + {f});
      tables.DeallocateFrame(r.value);
      done := true;
    }
  }
}
