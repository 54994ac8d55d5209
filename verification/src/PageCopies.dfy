/** Copying an address space: what has been copied so far, and what one more page adds. */
module PageCopies {
  import opened Areas
  import opened Options
  import opened PageEntry
  import opened PageWalk
  import opened ReverseMap
  import opened TableEdits
  import opened UserMemory

  function PageStart(a: Area): nat {
    a.start / PAGE_SIZE * PAGE_SIZE
  }

  function PageEnd(a: Area): nat {
    (a.end + PAGE_SIZE - 1) / PAGE_SIZE * PAGE_SIZE
  }

  predicate InPages(a: Area, va: nat) {
    PageStart(a) <= va < PageEnd(a)
  }

  /** Page tables, the bytes in frames and the frames still free, at one moment. */
  datatype Snap = Snap(mem: Mem, spot: map<nat, Spot>, pool: set<nat>, data: Pages)

  /** The byte the child must see: the parent's, or zero where the parent has nothing mapped. */
  function Inherited(a: Snap, parent: nat, va: nat): nat {
    var b := ByteAt(a.mem, a.data, parent, va);
    if b.Some? then b.value else 0
  }

  /** The child maps `va` with these flags on a frame that was free before, holding the right byte. */
  ghost predicate CopiedAt(a: Snap, b: Snap, parent: nat, child: nat, va: nat, flags: Flags) {
    var m := Look(b.mem, child, 4, va);
    && m.Some? && m.value.level == 1 && FlagsOf(m.value.entry) == flags + {PRESENT} && AddrOf(m.value.entry) in a.pool
    && ByteAt(b.mem, b.data, child, va) == Some(Inherited(a, parent, va))
  }

  /** Page by page, area `j` has been copied as far as `va` when area `i` is copied up to `cur`. */
  predicate Done(s: seq<Area>, i: nat, cur: nat, j: nat, va: nat) {
    j < |s| && InPages(s[j], va) && (j < i || (j == i && va < cur))
  }

  ghost predicate SomeDone(s: seq<Area>, i: nat, cur: nat, va: nat) {
    exists j: nat :: Done(s, i, cur, j, va)
  }

  /** Since `a` a child was made and only its own pages were filled in. */
  ghost predicate Apart(a: Snap, b: Snap, child: nat) {
    && SameView(a.mem, b.mem, a.spot) && !Root(a.spot, child)
    && (forall q: nat :: Root(b.spot, q) <==> Root(a.spot, q) || q == child)
    && b.pool <= a.pool && FreeUnmapped(a.mem, a.spot, a.pool) && FreeUnmapped(b.mem, b.spot, b.pool)
    && (forall f :: f !in a.pool ==> PageBytes(b.data, f) == PageBytes(a.data, f))
  }

  ghost predicate Copied(a: Snap, b: Snap, parent: nat, child: nat, s: seq<Area>, i: nat, cur: nat) {
    && (forall j: nat, va: nat :: Done(s, i, cur, j, va) ==> CopiedAt(a, b, parent, child, va, s[j].flags))
    && (forall va: nat :: va < LOW_END && Look(b.mem, child, 4, va).Some? ==> SomeDone(s, i, cur, va))
  }

  lemma ApartBytes(a: Snap, b: Snap, child: nat, r: nat, va: nat)
    requires Apart(a, b, child) && Root(a.spot, r) && va < LOW_END
    ensures Translation(b.mem, r, va) == Translation(a.mem, r, va)
    ensures ByteAt(b.mem, b.data, r, va) == ByteAt(a.mem, a.data, r, va)
    ensures Translation(a.mem, r, va).Some? ==> FrameOf(Translation(a.mem, r, va).value) !in a.pool
  {
    hide Look, Root, PageBytes, AddrOf, FrameOf;
    assert Translation(a.mem, r, va).Some? ==> Uses(a.mem, r, va, FrameOf(Translation(a.mem, r, va).value));
  }

  /** The bytes of the parent's page, as the copy loop reads them. */
  function SourceBytes(m: Mem, data: Pages, parent: nat, page: nat): (s: seq<nat>)
    ensures |s| == PAGE_SIZE
  {
    match Translation(m, parent, page)
    case None => ZeroPage()
    case Some(pa) => PageBytes(data, FrameOf(pa))
  }

  lemma PageAlike(m: Mem, parent: nat, page: nat, va: nat)
    requires page < LOW_END && va < LOW_END && va / PAGE_SIZE == page / PAGE_SIZE
    ensures Look(m, parent, 4, va) == Look(m, parent, 4, page)
  {
    hide Look;
    PageIsSpan(va, page, 1);
    AlikeInPage(m, parent, 4, va, page);
  }

  lemma OneFrame(e: nat, level: nat, page: nat, va: nat)
    requires va / PAGE_SIZE == page / PAGE_SIZE
    ensures FrameOf(AddrOf(e) + va % Span(level)) == FrameOf(AddrOf(e) + page % Span(level))
    ensures (AddrOf(e) + va % Span(level)) % PAGE_SIZE == va % PAGE_SIZE
  {
    hide AddrOf, FrameOf;
    InFrame(e, level, va);
    InFrame(e, level, page);
    SameOffset(va, page, level);
  }

  lemma SourceFrame(m: Mem, parent: nat, page: nat, va: nat)
    requires page < LOW_END && va < LOW_END && va / PAGE_SIZE == page / PAGE_SIZE
    ensures var s, t := Translation(m, parent, page), Translation(m, parent, va);
      && (s.Some? <==> t.Some?)
      && (t.Some? ==> FrameOf(t.value) == FrameOf(s.value) && t.value % PAGE_SIZE == va % PAGE_SIZE)
  {
    hide Look, AddrOf, FrameOf;
    PageAlike(m, parent, page, va);
    var l := Look(m, parent, 4, page);
    if l.Some? { OneFrame(l.value.entry, l.value.level, page, va); }
  }

  /** Reading a page once gives the byte of each of its addresses. */
  lemma SourceByte(m: Mem, data: Pages, parent: nat, page: nat, va: nat)
    requires page < LOW_END && va < LOW_END && va / PAGE_SIZE == page / PAGE_SIZE
    ensures var b := ByteAt(m, data, parent, va);
      SourceBytes(m, data, parent, page)[va % PAGE_SIZE] == if b.Some? then b.value else 0
  {
    hide Translation, PageBytes, FrameOf;
    SourceFrame(m, parent, page, va);
  }

  lemma SameOffset(va: nat, page: nat, level: nat)
    requires va / PAGE_SIZE == page / PAGE_SIZE
    ensures va % Span(level) / PAGE_SIZE == page % Span(level) / PAGE_SIZE
  {
    PageInSpan(va);
    PageInSpan(page);
  }

  /** The page within a huge page is given by the address divided by the page size. */
  lemma PageInSpan(va: nat)
    ensures va % Span(1) / PAGE_SIZE == 0
    ensures va % Span(2) / PAGE_SIZE == va / PAGE_SIZE % 512
    ensures va % Span(3) / PAGE_SIZE == va / PAGE_SIZE % 0x4_0000
    ensures va % Span(4) / PAGE_SIZE == va / PAGE_SIZE % 0x800_0000
  {
    assert va / 4096 == va / 0x20_0000 * 512 + va % 0x20_0000 / 4096;
    assert va / 4096 == va / 0x4000_0000 * 0x4_0000 + va % 0x4000_0000 / 4096;
    assert va / 4096 == va / 0x80_0000_0000 * 0x800_0000 + va % 0x80_0000_0000 / 4096;
  }

  /** One page mapped and filled. */
  ghost predicate Filled(b: Snap, c: Snap, child: nat, page: nat, g: nat, flags: Flags, bytes: seq<nat>) {
    && Root(b.spot, child) && page < LOW_END && page % PAGE_SIZE == 0 && Frame(g) && g in b.pool && |bytes| == PAGE_SIZE
    && (forall q: nat :: Root(c.spot, q) <==> Root(b.spot, q))
    && Vacant(b.mem, child, page, 1)
    && Remapped(b.mem, c.mem, b.spot, child, page, 1, Some(Mapping(Encode(g, flags + {PRESENT}), 1)))
    && c.pool <= b.pool - {g} && c.data == b.data[g := bytes]
  }

  lemma FilledPage(b: Snap, c: Snap, child: nat, page: nat, g: nat, flags: Flags, bytes: seq<nat>, va: nat)
    requires Filled(b, c, child, page, g, flags, bytes) && va < LOW_END && va / PAGE_SIZE == page / PAGE_SIZE
    ensures Look(c.mem, child, 4, va) == Some(Mapping(Encode(g, flags + {PRESENT}), 1))
    ensures AddrOf(Encode(g, flags + {PRESENT})) == g && FlagsOf(Encode(g, flags + {PRESENT})) == flags + {PRESENT}
    ensures Translation(c.mem, child, va) == Some(g + va % PAGE_SIZE) && FrameOf(g + va % PAGE_SIZE) == g
    ensures ByteAt(c.mem, c.data, child, va) == Some(bytes[va % PAGE_SIZE])
  {
    hide Look, Root, Encode, AddrOf, FlagsOf, FrameOf;
    Decode(g, flags + {PRESENT});
    Within(g, va % PAGE_SIZE);
  }

  lemma FilledElsewhere(b: Snap, c: Snap, child: nat, page: nat, g: nat, flags: Flags, bytes: seq<nat>, r: nat, va: nat)
    requires Filled(b, c, child, page, g, flags, bytes) && FreeUnmapped(b.mem, b.spot, b.pool)
    requires Root(b.spot, r) && va < LOW_END && !(r == child && va / PAGE_SIZE == page / PAGE_SIZE)
    ensures Look(c.mem, r, 4, va) == Look(b.mem, r, 4, va)
    ensures Translation(c.mem, r, va) == Translation(b.mem, r, va)
    ensures ByteAt(c.mem, c.data, r, va) == ByteAt(b.mem, b.data, r, va)
  {
    hide Look, Root, Encode, AddrOf, FlagsOf, FrameOf;
    assert Translation(b.mem, r, va).Some? ==> Uses(b.mem, r, va, FrameOf(Translation(b.mem, r, va).value));
  }

  lemma FilledApart(a: Snap, b: Snap, c: Snap, child: nat, page: nat, g: nat, flags: Flags, bytes: seq<nat>)
    requires Apart(a, b, child) && Filled(b, c, child, page, g, flags, bytes)
    ensures Apart(a, c, child)
  {
    hide Look, Root, Encode, AddrOf, FlagsOf, FrameOf, PageBytes, Translation;
    forall r: nat, va: nat | Root(a.spot, r) && va < LOW_END ensures Look(c.mem, r, 4, va) == Look(a.mem, r, 4, va) {
      FilledElsewhere(b, c, child, page, g, flags, bytes, r, va);
    }
    forall r: nat, va: nat, f: nat | Root(c.spot, r) && va < LOW_END && Uses(c.mem, r, va, f) ensures f !in c.pool {
      if r == child && va / PAGE_SIZE == page / PAGE_SIZE {
        FilledPage(b, c, child, page, g, flags, bytes, va);
      } else {
        FilledElsewhere(b, c, child, page, g, flags, bytes, r, va);
        assert Uses(b.mem, r, va, f);
      }
    }
    forall f | f !in a.pool ensures PageBytes(c.data, f) == PageBytes(a.data, f) {
      OtherPage(b.data, g, bytes, f);
    }
  }

  lemma OtherPage(data: Pages, g: nat, bytes: seq<nat>, f: nat)
    ensures f != g ==> PageBytes(data[g := bytes], f) == PageBytes(data, f)
  {
  }

  lemma PagesLow(s: seq<Area>, j: nat)
    requires UserAreas(s) && j < |s|
    ensures PageEnd(s[j]) <= LOW_END && PageEnd(s[j]) % PAGE_SIZE == 0 && PageStart(s[j]) % PAGE_SIZE == 0
    ensures s[j].start < s[j].end ==> PageStart(s[j]) < PageEnd(s[j])
  {
    Multiple(s[j].start / PAGE_SIZE);
    Multiple((s[j].end + PAGE_SIZE - 1) / PAGE_SIZE);
  }

  lemma Multiple(k: nat)
    ensures k * PAGE_SIZE % PAGE_SIZE == 0
  {
  }

  lemma PageStep(page: nat, end: nat, va: nat)
    requires page % PAGE_SIZE == 0 && end % PAGE_SIZE == 0 && page < end
    ensures page + PAGE_SIZE <= end && (page + PAGE_SIZE) % PAGE_SIZE == 0
    ensures page <= va < page + PAGE_SIZE <==> va / PAGE_SIZE == page / PAGE_SIZE
  {
  }

  /** Copying one more page. */
  lemma FilledCopied(a: Snap, b: Snap, c: Snap, parent: nat, child: nat, s: seq<Area>, i: nat, page: nat, g: nat)
    requires Apart(a, b, child) && Root(a.spot, parent) && UserAreas(s) && i < |s| && InPages(s[i], page)
    requires Copied(a, b, parent, child, s, i, page)
    requires Filled(b, c, child, page, g, s[i].flags, SourceBytes(b.mem, b.data, parent, page))
    ensures Copied(a, c, parent, child, s, i, page + PAGE_SIZE)
  {
    hide Look, Root, Encode, AddrOf, FlagsOf, FrameOf, PageBytes, Translation, ByteAt, SourceBytes, PageStart, PageEnd;
    var bytes := SourceBytes(b.mem, b.data, parent, page);
    PagesLow(s, i);
    forall j: nat, va: nat | Done(s, i, page + PAGE_SIZE, j, va) ensures CopiedAt(a, c, parent, child, va, s[j].flags) {
      PagesLow(s, j);
      PageStep(page, PageEnd(s[i]), va);
      if Done(s, i, page, j, va) {
        assert CopiedAt(a, b, parent, child, va, s[j].flags);
        FilledElsewhere(b, c, child, page, g, s[i].flags, bytes, child, va);
      } else {
        FilledPage(b, c, child, page, g, s[i].flags, bytes, va);
        SourceByte(b.mem, b.data, parent, page, va);
        ApartBytes(a, b, child, parent, va);
      }
    }
    forall va: nat | va < LOW_END && Look(c.mem, child, 4, va).Some? ensures SomeDone(s, i, page + PAGE_SIZE, va) {
      PageStep(page, PageEnd(s[i]), va);
      if va / PAGE_SIZE == page / PAGE_SIZE {
        assert Done(s, i, page + PAGE_SIZE, i, va);
      } else {
        FilledElsewhere(b, c, child, page, g, s[i].flags, bytes, child, va);
        var j: nat :| Done(s, i, page, j, va);
        assert Done(s, i, page + PAGE_SIZE, j, va);
      }
    }
  }

  /** An area is done when its last page is. */
  lemma AreaCopied(a: Snap, b: Snap, parent: nat, child: nat, s: seq<Area>, i: nat, cur: nat)
    requires i < |s| && Copied(a, b, parent, child, s, i, PageEnd(s[i]))
    requires i + 1 < |s| ==> cur <= PageStart(s[i + 1])
    ensures Copied(a, b, parent, child, s, i + 1, cur)
  {
    hide PageStart, PageEnd, CopiedAt, Look;
    assert forall j: nat, va: nat :: Done(s, i + 1, cur, j, va) <==> Done(s, i, PageEnd(s[i]), j, va);
  }

  ghost function Now(memory: Memory): Snap
    reads memory, memory.tables
  {
    Snap(memory.tables.mem, memory.tables.spot, memory.tables.pool, memory.data)
  }

  /** Frames the reverse map lists are mapped, hence not free. */
  lemma ListedNotFree(mem: Mem, spot: map<nat, Spot>, rm: Rmap, pool: set<nat>, f: nat)
    requires Consistent(mem, spot, rm) && FreeUnmapped(mem, spot, pool) && f in rm
    ensures f !in pool
  {
    hide Look, Encode, FlagsOf, AddrOf, FrameOf;
    assert FrameOk(mem, spot, rm, f);
    var e := rm[f][0];
    Picked(mem, spot, rm, f, e);
    Within(f, 0);
    assert e.vaddr % Span(1) == 0;
    assert Uses(mem, e.p4, e.vaddr, f);
  }

  lemma MappedUserFrames(mem: Mem, spot: map<nat, Spot>, rm: Rmap, pool: set<nat>, n: Mem, rm2: Rmap, pool2: set<nat>,
                         g: nat)
    requires UserFrames(mem, rm) && Consistent(mem, spot, rm) && FreeUnmapped(mem, spot, pool) && pool2 <= pool - {g}
    requires n.Keys == mem.Keys + (pool - {g} - pool2) && g > 0 && g !in mem && rm2.Keys <= rm.Keys + {g}
    ensures UserFrames(n, rm2)
  {
    hide Consistent, FreeUnmapped;
    forall f | f in rm ensures f !in pool { ListedNotFree(mem, spot, rm, pool, f); }
    forall f | f in rm2 ensures f > 0 && f !in n { assert f in rm.Keys + {g}; }
  }

  lemma AddedKeys(rm: Rmap, f: nat, e: RmapEntry)
    ensures Added(rm, f, e).Keys == rm.Keys + {f}
  {
  }

  lemma ApartRoots(a: Snap, b: Snap, child: nat, parent: nat)
    requires Apart(a, b, child) && Root(a.spot, parent)
    ensures Root(b.spot, parent) && Root(b.spot, child) && parent != child
    ensures FreeUnmapped(b.mem, b.spot, b.pool)
  {
  }

  lemma FewerFree(m: Mem, spot: map<nat, Spot>, pool: set<nat>, pool2: set<nat>)
    requires FreeUnmapped(m, spot, pool) && pool2 <= pool
    ensures FreeUnmapped(m, spot, pool2)
  {
  }

  /** Using up free frames without changing what is mapped. */
  lemma StillApart(a: Snap, b: Snap, c: Snap, child: nat)
    requires Apart(a, b, child) && SameView(b.mem, c.mem, b.spot)
    requires (forall q: nat :: Root(c.spot, q) <==> Root(b.spot, q))
    requires c.pool <= b.pool && c.data == b.data
    ensures Apart(a, c, child) && FreeUnmapped(c.mem, c.spot, c.pool)
  {
    hide Look, Root, PageBytes, FrameOf, AddrOf;
    forall r: nat, va: nat, f: nat | Root(c.spot, r) && va < LOW_END && Uses(c.mem, r, va, f) ensures f !in c.pool {
      assert Uses(b.mem, r, va, f);
    }
  }

  lemma FilledNow(b: Snap, c: Snap, parent: nat, child: nat, page: nat, g: nat, flags: Flags, bytes: seq<nat>)
    requires Root(b.spot, child) && Root(b.spot, parent) && parent != child && page < LOW_END && page % PAGE_SIZE == 0
    requires Frame(g) && g in b.pool && (forall q: nat :: Root(c.spot, q) <==> Root(b.spot, q))
    requires Vacant(b.mem, child, page, 1)
    requires Remapped(b.mem, c.mem, b.spot, child, page, 1, Some(Mapping(Encode(g, flags + {PRESENT}), 1)))
    requires c.pool <= b.pool - {g} && c.data == b.data[g := bytes] && bytes == SourceBytes(c.mem, b.data, parent, page)
    ensures bytes == SourceBytes(b.mem, b.data, parent, page)
    ensures Filled(b, c, child, page, g, flags, bytes)
  {
    hide Look, Root, Encode, Vacant, AddrOf, FrameOf, PageBytes;
    assert Look(c.mem, parent, 4, page) == Look(b.mem, parent, 4, page);
  }
}
