/** The mapper over the page tables of all address spaces, with the side table of entry counts and
    the reverse map. The frame allocator appears as the set of frames it may still hand out. */
module AddressTables {
  import opened Areas
  import opened Basics
  import opened Options
  import opened PageEntry
  import opened PageWalk
  import opened ReverseMap
  import opened TableEdits
  import opened TableProbe

  datatype MapError = FrameAllocationFailed | PageAlreadyMapped | PageNotMapped | ParentEntryHugePage
                    | HugePageNotAligned

  const COUNT_LIMIT: nat := 0x1_0000

  /** Entries of the table that map memory. */
  function LeafCount(row: seq<nat>, level: nat): (n: nat)
    ensures n <= |row|
  {
    if row == [] then 0 else LeafCount(row[1..], level) + if LeafEntry(level, row[0]) then 1 else 0
  }

  lemma {:induction false} LeafCountWrite(row: seq<nat>, level: nat, i: nat, e: nat)
    requires i < |row|
    ensures LeafCount(row[i := e], level) ==
      LeafCount(row, level) - (if LeafEntry(level, row[i]) then 1 else 0) + (if LeafEntry(level, e) then 1 else 0)
  {
    hide FlagsOf;
    if i == 0 {
      assert row[i := e][1..] == row[1..];
    } else {
      assert row[i := e][1..] == row[1..][i - 1 := e];
      LeafCountWrite(row[1..], level, i - 1, e);
    }
  }

  lemma {:induction false} LeafCountNone(row: seq<nat>, level: nat)
    requires forall i :: 0 <= i < |row| ==> !LeafEntry(level, row[i])
    ensures LeafCount(row, level) == 0
  {
    if row != [] { LeafCountNone(row[1..], level); }
  }

  /** A table made by the mapper is counted once for itself and once for each leaf entry, other
      frames not at all. */
  ghost predicate CountsOk(mem: Mem, spot: map<nat, Spot>, counts: map<nat, nat>)
    requires mem.Keys == spot.Keys
  {
    && (forall t :: t in mem && 1 <= LevelOf(spot[t]) < 4 ==>
          t in counts && counts[t] == 1 + LeafCount(mem[t], LevelOf(spot[t])))
    && (forall f :: f in counts && (f !in mem || LevelOf(spot[f]) == 4) ==> counts[f] == 0)
  }

  ghost predicate PoolOk(mem: Mem, counts: map<nat, nat>, pool: set<nat>) {
    forall f :: f in pool ==> f > 0 && Frame(f) && f !in mem && f in counts
  }

  /** Fetch-and-add on a 16-bit counter. */
  function Inc(counts: map<nat, nat>, t: nat): map<nat, nat> {
    if t in counts then counts[t := (counts[t] + 1) % COUNT_LIMIT] else counts
  }

  function Dec(counts: map<nat, nat>, t: nat): map<nat, nat> {
    if t in counts then counts[t := (counts[t] + COUNT_LIMIT - 1) % COUNT_LIMIT] else counts
  }

  lemma HangCounts(mem: Mem, spot: map<nat, Spot>, counts: map<nat, nat>, pool: set<nat>, t: nat, i: nat, f: nat)
    requires WellLinked(mem, spot) && CountsOk(mem, spot, counts) && PoolOk(mem, counts, pool) && f in pool
    requires t in mem && LevelOf(spot[t]) > 1 && i < |mem[t]| && mem[t][i] == 0
    ensures f != t && Hang(mem, t, i, f).Keys == spot[f := Down(spot[t], i)].Keys
    ensures CountsOk(Hang(mem, t, i, f), spot[f := Down(spot[t], i)], Inc(counts, f))
    ensures PoolOk(Hang(mem, t, i, f), Inc(counts, f), pool - {f})
  {
    hide FlagsOf, AddrOf, Encode, LeafCount, GoodEntry, Present, Huge;
    assert GoodTable(mem, spot, t);
    TableEntry(f);
    LeafCountWrite(mem[t], LevelOf(spot[t]), i, Encode(f, TABLE_FLAGS));
    LeafCountNone(Zeros(ENTRY_COUNT), LevelOf(spot[t]) - 1);
  }

  lemma LeafMade(mem: Mem, spot: map<nat, Spot>, counts: map<nat, nat>, pool: set<nat>, t: nat, i: nat, e: nat)
    requires WellLinked(mem, spot) && CountsOk(mem, spot, counts) && PoolOk(mem, counts, pool)
    requires t in mem && 1 <= LevelOf(spot[t]) < 4 && i < |mem[t]|
    requires mem[t][i] == 0 && LeafEntry(LevelOf(spot[t]), e)
    ensures var m := Write(mem, t, i, e);
      m.Keys == spot.Keys && CountsOk(m, spot, Inc(counts, t)) && PoolOk(m, Inc(counts, t), pool)
  {
    hide FlagsOf, AddrOf, Encode, LeafCount, GoodEntry, Present, Huge;
    assert GoodTable(mem, spot, t);
    TableEntry(0);
    LeafCountWrite(mem[t], LevelOf(spot[t]), i, e);
  }

  /** Clearing a leaf never brings the count of its table to zero, so the table is never reclaimed. */
  lemma LeafCleared(mem: Mem, spot: map<nat, Spot>, counts: map<nat, nat>, pool: set<nat>, t: nat, i: nat)
    requires WellLinked(mem, spot) && CountsOk(mem, spot, counts) && PoolOk(mem, counts, pool)
    requires t in mem && 1 <= LevelOf(spot[t]) < 4 && i < |mem[t]| && LeafEntry(LevelOf(spot[t]), mem[t][i])
    ensures var m := Write(mem, t, i, 0);
      && m.Keys == spot.Keys && CountsOk(m, spot, Dec(counts, t)) && PoolOk(m, Dec(counts, t), pool)
      && t in Dec(counts, t) && Dec(counts, t)[t] >= 1
  {
    hide FlagsOf, AddrOf, Encode, LeafCount, GoodEntry, Present, Huge;
    assert GoodTable(mem, spot, t);
    TableEntry(0);
    LeafCountWrite(mem[t], LevelOf(spot[t]), i, 0);
  }

  /** The level a page is mapped at. */
  function TargetLevel(page: nat, frame: nat, flags: Flags): nat {
    if HUGE_PAGE !in flags then 1
    else if page % Span(3) == 0 && frame % Span(3) == 0 then 3
    else 2
  }

  /** When mapping fails, and how. */
  function Verdict(mem: Mem, free: nat, p4: nat, page: nat, frame: nat, flags: Flags): Result<(), MapError> {
    var level := TargetLevel(page, frame, flags);
    match Reach(mem, p4, 4, page, level)
    case Blocked => Err(ParentEntryHugePage)
    case Slot(missing, entry) =>
      if free < missing then Err(FrameAllocationFailed)
      else if entry != 0 then Err(PageAlreadyMapped)
      else if level == 2 && (page % Span(2) != 0 || frame % Span(2) != 0) then Err(HugePageNotAligned)
      else Ok(())
  }

  /** Since `m0` only tables towards `l` were added, each paid for by a frame of the pool. */
  ghost predicate Onward(m0: Mem, s0: map<nat, Spot>, pool0: set<nat>, m: Mem, s: map<nat, Spot>, pool: set<nat>,
                         p4: nat, page: nat, l: nat)
    requires 1 <= l <= 4
  {
    && SameView(m0, m, s0) && (forall q: nat :: Root(s, q) <==> Root(s0, q))
    && pool <= pool0 && m.Keys == m0.Keys + (pool0 - pool)
    && match Reach(m0, p4, 4, page, l)
       case Blocked => Reach(m, p4, 4, page, l) == Blocked
       case Slot(k, e) =>
         var now := Reach(m, p4, 4, page, l);
         now.Slot? && now.entry == e && |pool| - now.missing == |pool0| - k
  }

  lemma Start(m: Mem, s: map<nat, Spot>, pool: set<nat>, p4: nat, page: nat, l: nat)
    requires 1 <= l <= 4 && WellLinked(m, s) && Root(s, p4)
    ensures Onward(m, s, pool, m, s, pool, p4, page, l) && TableAt(m, p4, 4, page, 4) == Some(p4)
  {
    hide Look, FlagsOf, AddrOf, Idx;
    assert GoodTable(m, s, p4);
  }

  /** The walk has reached its level, so nothing was in the way. */
  lemma Arrived(m0: Mem, s0: map<nat, Spot>, pool0: set<nat>, m: Mem, s: map<nat, Spot>, pool: set<nat>, p4: nat,
                page: nat, l: nat)
    requires 1 <= l <= 3 && Onward(m0, s0, pool0, m, s, pool, p4, page, l) && TableAt(m, p4, 4, page, l).Some?
    ensures var t := TableAt(m, p4, 4, page, l).value;
      && t in m && |m[t]| == ENTRY_COUNT
      && Reach(m0, p4, 4, page, l).Slot? && Reach(m0, p4, 4, page, l).missing == |pool0| - |pool|
      && Reach(m0, p4, 4, page, l).entry == m[t][Idx(page, l)]
  {
    hide FlagsOf, AddrOf, Idx, SameView;
    Resume(m, p4, 4, page, l, l);
  }

  lemma SameViewTrans(m0: Mem, m: Mem, n: Mem, s0: map<nat, Spot>, s: map<nat, Spot>)
    requires SameView(m0, m, s0) && SameView(m, n, s) && forall q: nat :: Root(s, q) <==> Root(s0, q)
    ensures SameView(m0, n, s0)
  {
    hide Look, Root;
  }

  lemma ViewThen(m0: Mem, m: Mem, n: Mem, s0: map<nat, Spot>, s: map<nat, Spot>, p4: nat, page: nat, level: nat,
                 to: Option<Mapping>)
    requires SameView(m0, m, s0) && (forall q: nat :: Root(s, q) <==> Root(s0, q)) && Root(s, p4)
    requires Vacant(m, p4, page, level) && Remapped(m, n, s, p4, page, level, to)
    ensures Vacant(m0, p4, page, level) && Remapped(m0, n, s0, p4, page, level, to)
  {
    hide Look, Root, Span;
  }

  lemma HangValid(mem: Mem, spot: map<nat, Spot>, counts: map<nat, nat>, pool: set<nat>, rm: Rmap, t: nat, i: nat,
                  f: nat)
    requires WellLinked(mem, spot) && CountsOk(mem, spot, counts) && PoolOk(mem, counts, pool)
    requires Consistent(mem, spot, rm)
    requires t in mem && LevelOf(spot[t]) > 1 && i < |mem[t]| && mem[t][i] == 0 && f in pool
    ensures Frame(f) && f !in mem
    ensures var m, s := Hang(mem, t, i, f), spot[f := Down(spot[t], i)];
      WellLinked(m, s) && CountsOk(m, s, Inc(counts, f)) && PoolOk(m, Inc(counts, f), pool - {f})
        && Consistent(m, s, rm)
  {
    hide Present, Huge, FlagsOf, AddrOf, Encode, Idx, WellLinked, CountsOk, PoolOk, Consistent, SameView, Write, Inc;
    PoolFrame(mem, counts, pool, f);
    HangKeeps(mem, spot, t, i, f);
    HangCounts(mem, spot, counts, pool, t, i, f);
    SameViewKeeps(mem, Hang(mem, t, i, f), spot, spot[f := Down(spot[t], i)], rm);
  }

  lemma HangOnward(m0: Mem, s0: map<nat, Spot>, pool0: set<nat>, m: Mem, s: map<nat, Spot>, pool: set<nat>, p4: nat,
                   page: nat, level: nat, l: nat, t: nat, f: nat)
    requires WellLinked(m, s) && Root(s, p4) && page < LOW_END && 1 <= l < level <= 4 && f in pool
    requires TableAt(m, p4, 4, page, level) == Some(t) && f !in m && Frame(f)
    requires t in m && t in s && LevelOf(s[t]) == level && |m[t]| == ENTRY_COUNT && m[t][Idx(page, level)] == 0
    requires Onward(m0, s0, pool0, m, s, pool, p4, page, l)
    ensures var n, s2 := Hang(m, t, Idx(page, level), f), s[f := Down(s[t], Idx(page, level))];
      && Onward(m0, s0, pool0, n, s2, pool - {f}, p4, page, l) && Root(s2, p4)
      && TableAt(n, p4, 4, page, level - 1) == Some(f)
  {
    hide FlagsOf, AddrOf, Encode, Idx, WellLinked, SameView, TableAt, Reach, Hang, Write;
    HangKeeps(m, s, t, Idx(page, level), f);
    HangReach(m, s, p4, page, level, t, f, l);
    SameViewTrans(m0, m, Hang(m, t, Idx(page, level), f), s0, s);
  }

  /** The page that `was` mapped has been cleared, and with it its record in the reverse map. */
  ghost predicate Emptied(m: Mem, rm: Rmap, n: Mem, rm2: Rmap, spot: map<nat, Spot>, p4: nat, page: nat, was: Mapping,
                          frame: nat) {
    && frame == AddrOf(was.entry) && 1 <= was.level <= 3
    && (forall va: nat :: va < LOW_END && va / Span(was.level) == page / Span(was.level) ==>
       Look(m, p4, 4, va) == Some(was))
    && Remapped(m, n, spot, p4, page, was.level, None)
    && Reach(n, p4, 4, page, was.level) == Slot(0, 0)
    && (forall l :: was.level < l <= 3 ==> Reach(n, p4, 4, page, l).Slot? && Reach(n, p4, 4, page, l).entry != 0)
    && rm2 == if UserLeaf(Some(was)) then Removed(rm, frame, p4, page) else rm
  }

  lemma Occupied(mem: Mem, spot: map<nat, Spot>, p4: nat, page: nat, level: nat, t: nat)
    requires WellLinked(mem, spot) && Root(spot, p4) && page < LOW_END && 1 <= level <= 3
    requires TableAt(mem, p4, 4, page, level) == Some(t) && t in mem && |mem[t]| == ENTRY_COUNT
    requires LeafEntry(level, mem[t][Idx(page, level)])
    ensures forall va: nat :: va < LOW_END && va / Span(level) == page / Span(level) ==>
      Look(mem, p4, 4, va) == Some(Mapping(mem[t][Idx(page, level)], level))
  {
    hide WellLinked, FlagsOf, Look, TableAt, Span, Idx;
    forall va: nat | va < LOW_END && va / Span(level) == page / Span(level)
      ensures Look(mem, p4, 4, va) == Some(Mapping(mem[t][Idx(page, level)], level))
    {
      PageLook(mem, spot, p4, page, level, t, va);
    }
  }

  predicate EntryAllows(e: nat, required: Flags) {
    Present(e) && required <= FlagsOf(e)
  }

  /** The address is mapped by an entry that carries the required flags. */
  ghost predicate Permits(mem: Mem, p4: nat, va: nat, required: Flags) {
    Look(mem, p4, 4, va).Some? && required <= FlagsOf(Look(mem, p4, 4, va).value.entry)
  }

  class Mapper {
    var mem: Mem
    var counts: map<nat, nat>
    var pool: set<nat>
    var rmap: Rmap
    ghost var spot: map<nat, Spot>

    ghost predicate Valid()
      reads this
    {
      WellLinked(mem, spot) && CountsOk(mem, spot, counts) && PoolOk(mem, counts, pool) && Consistent(mem, spot, rmap)
    }

    /** No address space yet; `free` are the frames the allocator manages. */
    constructor (free: set<nat>)
      requires forall f :: f in free ==> f > 0 && Frame(f)
      ensures Valid() && pool == free && spot == map[] && rmap == map[] && counts.Keys == free
    {
      mem, counts, pool, rmap, spot := map[], map f | f in free :: 0, free, map[], map[];
    }

    method AllocateFrame() returns (f: Option<nat>)
      modifies this`pool
      ensures old(Valid()) ==>
        Valid() && (f.Some? ==> f.value > 0 && Frame(f.value) && f.value !in mem && f.value in counts)
      ensures f.None? <==> old(pool) == {}
      ensures f.None? ==> pool == old(pool)
      ensures f.Some? ==> f.value in old(pool) && pool == old(pool) - {f.value}
    {
      if pool == {} { return None; }
      var x :| x in pool;
      pool := pool - {x};
      f := Some(x);
    }

    /** Makes the top-level table of a new address space, sharing the kernel's upper half. */
    method NewBare(kernel: seq<nat>) returns (r: Option<nat>)
      requires Valid() && |kernel| == ENTRY_COUNT
      modifies this`mem, this`pool, this`spot
      ensures Valid() && (r.None? <==> old(pool) == {})
      ensures r.None? ==> mem == old(mem) && pool == old(pool) && spot == old(spot)
      ensures r.Some? ==>
        && r.value in old(pool) && pool == old(pool) - {r.value} && mem.Keys == old(mem.Keys) + {r.value}
        && Root(spot, r.value) && (forall q: nat :: Root(spot, q) <==> Root(old(spot), q) || q == r.value)
           && !Root(old(spot), r.value)
        && SameView(old(mem), mem, old(spot)) && (forall va: nat :: va < LOW_END ==> Look(mem, r.value, 4, va) == None)
        && |mem[r.value]| == ENTRY_COUNT && mem[r.value][LOW_HALF..] == kernel[LOW_HALF..]
    {
      hide Look, WellLinked, Consistent, SameView, CountsOk, PoolOk, FlagsOf, Frame;
      r := AllocateFrame();
      if r.Some? {
        LinkedKeys(mem, spot);
        PoolFrame(mem, counts, old(pool), r.value);
        RootKeeps(mem, spot, r.value, kernel);
        RootCounts(mem, spot, counts, old(pool), r.value, kernel);
        NewSpaceKeeps(mem, mem[r.value := RootRow(kernel)], spot, spot[r.value := Spot(r.value, [])], rmap, r.value);
        mem := mem[r.value := RootRow(kernel)];
        spot := spot[r.value := Spot(r.value, [])];
      }
    }

    /** Gives back the top-level table of an address space in which nothing is mapped any more. Its other tables
        stay. */
    method DropRoot(p4: nat)
      requires Valid() && Root(spot, p4) && p4 > 0 && Frame(p4) && p4 in counts
      requires forall va: nat :: va < LOW_END ==> Look(mem, p4, 4, va) == None
      modifies this`mem, this`pool, this`spot
      ensures Valid() && pool == old(pool) + {p4} && mem.Keys == old(mem.Keys) - {p4}
      ensures forall q: nat :: Root(spot, q) <==> Root(old(spot), q) && q != p4
      ensures SameView(old(mem), mem, spot)
    {
      hide Look, Consistent, SameView, PoolOk, FlagsOf, Frame, WellLinked, CountsOk;
      LinkedKeys(mem, spot);
      RootGone(mem, spot, p4);
      RootUncounted(mem, spot, counts, pool, p4);
      SpaceGone(mem, mem - {p4}, spot, spot - {p4}, rmap, p4);
      mem, spot := mem - {p4}, spot - {p4};
      pool := pool + {p4};
    }

    /** Gives a frame back to the allocator. */
    method DeallocateFrame(f: nat)
      requires Valid() && f > 0 && Frame(f) && f in counts && f !in mem
      modifies this`pool
      ensures Valid() && pool == old(pool) + {f}
    {
      pool := pool + {f};
    }

    /** Steps to the next table, creating it if need be, on the way to level `l` since `m0` and `s0`. */
    method NextTable(t: nat, index: nat, ghost p4: nat, ghost page: nat, ghost level: nat, ghost l: nat,
                     ghost m0: Mem, ghost s0: map<nat, Spot>, ghost pool0: set<nat>)
      returns (r: Result<nat, MapError>)
      requires Valid() && Root(spot, p4) && page < LOW_END && 1 <= l < level <= 4
      requires TableAt(mem, p4, 4, page, level) == Some(t) && index == Idx(page, level)
      requires Onward(m0, s0, pool0, mem, spot, pool, p4, page, l)
      modifies this`mem, this`counts, this`pool, this`rmap, this`spot
      ensures Valid() && rmap == old(rmap) && Root(spot, p4) && counts.Keys == old(counts.Keys)
      ensures Onward(m0, s0, pool0, mem, spot, pool, p4, page, l)
      ensures r.Ok? ==> TableAt(mem, p4, 4, page, level - 1) == Some(r.value)
      ensures r.Err? ==>
        var s := Reach(m0, p4, 4, page, l);
        (s.Blocked? && r.error == ParentEntryHugePage)
          || (s.Slot? && s.missing > |pool0| && r.error == FrameAllocationFailed)
    {
      hide Present, Huge, FlagsOf, AddrOf, Encode, Idx, WellLinked, CountsOk, PoolOk, Consistent, SameView, TableAt,
        Reach, Hang, Write, Inc;
      FollowReach(mem, spot, p4, page, level, t, l);
      var entry := mem[t][index];
      if Present(entry) {
        if Huge(entry) { return Err(ParentEntryHugePage); }
        return Ok(AddrOf(entry));
      }
      var f := AllocateFrame();
      if f.None? { return Err(FrameAllocationFailed); }
      HangValid(mem, spot, counts, old(pool), rmap, t, index, f.value);
      HangOnward(m0, s0, pool0, mem, spot, old(pool), p4, page, level, l, t, f.value);
      mem := Hang(mem, t, index, f.value);
      CountKeys(counts, f.value);
      counts := Inc(counts, f.value);
      spot := spot[f.value := Down(spot[t], index)];
      r := Ok(f.value);
    }

    /** Fills an unused entry, counts it, and records a 4K user page in the reverse map. */
    method FillLeaf(t: nat, p4: nat, page: nat, level: nat, frame: nat, flags: Flags, ghost m0: Mem,
                    ghost s0: map<nat, Spot>)
      requires Valid() && IsPage(spot, p4, page) && 1 <= level <= 3 && Frame(frame)
      requires (HUGE_PAGE in flags <==> level > 1)
      requires TableAt(mem, p4, 4, page, level) == Some(t)
      requires t in mem && |mem[t]| == ENTRY_COUNT && mem[t][Idx(page, level)] == 0
      requires SameView(m0, mem, s0) && forall q: nat :: Root(spot, q) <==> Root(s0, q)
      modifies this`mem, this`counts, this`pool, this`rmap, this`spot
      ensures Valid() && spot == old(spot) && pool == old(pool) && counts.Keys == old(counts.Keys)
      ensures mem.Keys == old(mem.Keys)
      ensures Vacant(m0, p4, page, level)
      ensures Remapped(m0, mem, s0, p4, page, level, Some(Mapping(Encode(frame, flags + {PRESENT}), level)))
      ensures rmap == if level == 1 && USER_ACCESSIBLE in flags
        then Added(old(rmap), frame, RmapEntry(p4, page, flags)) else old(rmap)
    {
      hide Present, Huge, FlagsOf, AddrOf, Encode, Idx, WellLinked, CountsOk, PoolOk, Consistent, Remapped, Vacant,
        TableAt, Look, Added;
      var e := Encode(frame, flags + {PRESENT});
      LeafOf(frame, flags, level);
      WriteLeaf(mem, spot, p4, page, level, t, e);
      VacantPage(mem, spot, p4, page, level, t);
      LeafMade(mem, spot, counts, pool, t, Idx(page, level), e);
      mem := Write(mem, t, Idx(page, level), e);
      CountKeys(counts, t);
      counts := Inc(counts, t);
      if level == 1 && USER_ACCESSIBLE in flags {
        AddKeeps(old(mem), mem, spot, rmap, p4, page, frame, flags);
        rmap := Added(rmap, frame, RmapEntry(p4, page, flags));
      } else {
        OtherKeeps(old(mem), mem, spot, rmap, p4, page, level, Some(Mapping(e, level)));
      }
      ViewThen(m0, old(mem), mem, s0, spot, p4, page, level, Some(Mapping(e, level)));
    }

    method MapPage(p4: nat, page: nat, frame: nat, flags: Flags) returns (r: Result<(), MapError>)
      requires Valid() && IsPage(spot, p4, page) && Frame(frame)
      modifies this`mem, this`counts, this`pool, this`rmap, this`spot
      ensures Valid() && forall q: nat :: Root(spot, q) <==> Root(old(spot), q)
      ensures r == Verdict(old(mem), |old(pool)|, p4, page, frame, flags)
      ensures pool <= old(pool) && mem.Keys == old(mem.Keys) + (old(pool) - pool) && counts.Keys == old(counts.Keys)
      ensures var level := TargetLevel(page, frame, flags);
        && (r.Err? ==> SameView(old(mem), mem, old(spot)) && rmap == old(rmap))
        && (r.Ok? ==>
              && |pool| == |old(pool)| - Reach(old(mem), p4, 4, page, level).missing
              && Vacant(old(mem), p4, page, level)
              && Remapped(old(mem), mem, old(spot), p4, page, level,
                 Some(Mapping(Encode(frame, flags + {PRESENT}), level)))
              && rmap == if level == 1 && USER_ACCESSIBLE in flags
                 then Added(old(rmap), frame, RmapEntry(p4, page, flags)) else old(rmap))
    {
      hide Present, Huge, FlagsOf, AddrOf, Encode, Idx, WellLinked, CountsOk, PoolOk, Consistent, Remapped, Vacant,
        SameView, TableAt, Reach, Look, Added, Span;
      ghost var l, m0, s0, pool0 := TargetLevel(page, frame, flags), mem, spot, pool;
      Start(mem, spot, pool, p4, page, l);
      var p3 := NextTable(p4, Idx(page, 4), p4, page, 4, l, m0, s0, pool0);
      if p3.Err? { return Err(p3.error); }
      if HUGE_PAGE in flags && page % Span(3) == 0 && frame % Span(3) == 0 {
        Arrived(m0, s0, pool0, mem, spot, pool, p4, page, 3);
        if mem[p3.value][Idx(page, 3)] != 0 { return Err(PageAlreadyMapped); }
        FillLeaf(p3.value, p4, page, 3, frame, flags, m0, s0);
        return Ok(());
      }
      var p2 := NextTable(p3.value, Idx(page, 3), p4, page, 3, l, m0, s0, pool0);
      if p2.Err? { return Err(p2.error); }
      if HUGE_PAGE in flags {
        Arrived(m0, s0, pool0, mem, spot, pool, p4, page, 2);
        if mem[p2.value][Idx(page, 2)] != 0 { return Err(PageAlreadyMapped); }
        if page % Span(2) != 0 || frame % Span(2) != 0 { return Err(HugePageNotAligned); }
        FillLeaf(p2.value, p4, page, 2, frame, flags, m0, s0);
        return Ok(());
      }
      var p1 := NextTable(p2.value, Idx(page, 2), p4, page, 2, l, m0, s0, pool0);
      if p1.Err? { return Err(p1.error); }
      Arrived(m0, s0, pool0, mem, spot, pool, p4, page, 1);
      if mem[p1.value][Idx(page, 1)] != 0 { return Err(PageAlreadyMapped); }
      FillLeaf(p1.value, p4, page, 1, frame, flags, m0, s0);
      r := Ok(());
    }

    /** Empties an entry, uncounts it, and forgets a 4K user page. */
    method ClearLeaf(t: nat, p4: nat, page: nat, level: nat) returns (frame: nat)
      requires Valid() && IsPage(spot, p4, page) && 1 <= level <= 3 && TableAt(mem, p4, 4, page, level) == Some(t)
      requires t in mem && |mem[t]| == ENTRY_COUNT && t in spot && LevelOf(spot[t]) == level
      requires LeafEntry(level, mem[t][Idx(page, level)])
      modifies this`mem, this`counts, this`pool, this`rmap, this`spot
      ensures Valid() && spot == old(spot) && pool == old(pool) && counts.Keys == old(counts.Keys)
      ensures mem.Keys == old(mem.Keys)
      ensures Emptied(old(mem), old(rmap), mem, rmap, spot, p4, page,
        Mapping(old(mem[t][Idx(page, level)]), level), frame)
    {
      hide Present, Huge, FlagsOf, AddrOf, Encode, Idx, WellLinked, CountsOk, PoolOk, Consistent, Remapped, TableAt,
        Look, Reach, Removed, Dec, Write, LevelOf;
      ghost var was := Mapping(mem[t][Idx(page, level)], level);
      frame := AddrOf(mem[t][Idx(page, level)]);
      var user := level == 1 && USER_ACCESSIBLE in FlagsOf(mem[t][Idx(page, level)]);
      Occupied(mem, spot, p4, page, level, t);
      WriteLeaf(mem, spot, p4, page, level, t, 0);
      WriteReach(mem, spot, p4, p4, 4, page, level, t, 0);
      LeafCleared(mem, spot, counts, pool, t, Idx(page, level));
      mem := Write(mem, t, Idx(page, level), 0);
      CountKeys(counts, t);
      counts := Dec(counts, t);
      if user {
        RemoveKeeps(old(mem), mem, spot, rmap, p4, page);
        rmap := Removed(rmap, frame, p4, page);
      } else {
        ClearKeeps(old(mem), mem, spot, rmap, p4, page, was);
      }
      // The table would be given back when its count drops to zero, but it never does.
      if counts[t] == 0 { assert false; }
    }

    method UnmapPage(p4: nat, page: nat) returns (r: Result<nat, MapError>)
      requires Valid() && IsPage(spot, p4, page)
      modifies this`mem, this`counts, this`pool, this`rmap, this`spot
      ensures Valid() && spot == old(spot) && pool == old(pool) && counts.Keys == old(counts.Keys)
      ensures mem.Keys == old(mem.Keys)
      ensures match Look(old(mem), p4, 4, page)
        case None => r == Err(PageNotMapped) && mem == old(mem) && rmap == old(rmap)
        case Some(m) => r.Ok? && Emptied(old(mem), old(rmap), mem, rmap, spot, p4, page, m, r.value)
    {
      hide Present, Huge, FlagsOf, AddrOf, Encode, Idx, WellLinked, CountsOk, PoolOk, Consistent, TableAt, Look,
        Emptied;
      Start(mem, spot, pool, p4, page, 1);
      Descend(mem, spot, p4, page, 4, p4);
      var e4 := mem[p4][Idx(page, 4)];
      if !Present(e4) { return Err(PageNotMapped); }
      var p3 := AddrOf(e4);
      Descend(mem, spot, p4, page, 3, p3);
      var e3 := mem[p3][Idx(page, 3)];
      if !Present(e3) { return Err(PageNotMapped); }
      if Huge(e3) {
        var frame := ClearLeaf(p3, p4, page, 3);
        return Ok(frame);
      }
      var p2 := AddrOf(e3);
      Descend(mem, spot, p4, page, 2, p2);
      var e2 := mem[p2][Idx(page, 2)];
      if !Present(e2) { return Err(PageNotMapped); }
      if Huge(e2) {
        var frame := ClearLeaf(p2, p4, page, 2);
        return Ok(frame);
      }
      var p1 := AddrOf(e2);
      Descend(mem, spot, p4, page, 1, p1);
      if !Present(mem[p1][Idx(page, 1)]) { return Err(PageNotMapped); }
      var frame := ClearLeaf(p1, p4, page, 1);
      r := Ok(frame);
    }

    /** Moves a page to another frame. The pages moved are 4K pages found in the reverse map; for
        those the second step cannot fail, so the roll-back is never taken. */
    method MigratePage(p4: nat, page: nat, newFrame: nat, flags: Flags) returns (r: Result<nat, MapError>)
      requires Valid() && IsPage(spot, p4, page) && Frame(newFrame)
      modifies this`mem, this`counts, this`pool, this`rmap, this`spot
      ensures Valid() && counts.Keys == old(counts.Keys) && forall q: nat :: Root(spot, q) <==> Root(old(spot), q)
      ensures match Look(old(mem), p4, 4, page)
        case None => r == Err(PageNotMapped) && mem == old(mem) && rmap == old(rmap) && pool == old(pool)
        case Some(m) =>
          m.level == 1 && HUGE_PAGE !in flags ==>
            && r == Ok(AddrOf(m.entry)) && pool == old(pool) && mem.Keys == old(mem.Keys)
            && Remapped(old(mem), mem, old(spot), p4, page, 1, Some(Mapping(Encode(newFrame, flags + {PRESENT}), 1)))
            && rmap == (var rm := if UserLeaf(Some(m)) then Removed(old(rmap), AddrOf(m.entry), p4, page)
               else old(rmap);
                        if USER_ACCESSIBLE in flags then Added(rm, newFrame, RmapEntry(p4, page, flags)) else rm)
    {
      hide Present, Huge, FlagsOf, AddrOf, Encode, Idx, WellLinked, CountsOk, PoolOk, Consistent, TableAt, Look,
        Remapped, SameView, Vacant, Reach, Span, Added, Removed;
      ghost var m0, s0 := mem, spot;
      var u := UnmapPage(p4, page);
      if u.Err? { return u; }
      ghost var m1 := mem;
      AddrFrame(Look(m0, p4, 4, page).value.entry);
      var v := MapPage(p4, page, newFrame, flags);
      SubsetSize(pool, old(pool));
      if v.Ok? {
        Remap(m0, m1, mem, s0, p4, page, Some(Mapping(Encode(newFrame, flags + {PRESENT}), 1)));
        return Ok(u.value);
      }
      var w := MapPage(p4, page, u.value, flags);
      r := Err(v.error);
    }

    /** The first entry of the lowest frame in the reverse map. */
    method RmapAny() returns (r: Option<(nat, RmapEntry)>)
      requires Valid()
      ensures r.None? <==> rmap.Keys == {}
      ensures r.Some? ==>
        var (f, e) := r.value;
        f in rmap && (forall g :: g in rmap ==> f <= g) && rmap[f] != [] && e == rmap[f][0]
    {
      hide WellLinked, CountsOk, PoolOk, Agrees, PageOk;
      if rmap.Keys == {} { return None; }
      Lowest(rmap.Keys);
      var f :| f in rmap.Keys && IsLowest(rmap.Keys, f);
      assert FrameOk(mem, spot, rmap, f);
      r := Some((f, rmap[f][0]));
    }

    /** Whether the page is mapped by entries that carry the required flags. Tables never narrow
        what the leaf allows, so the leaf alone decides. */
    method PageAccessOk(p4: nat, page: nat, required: Flags) returns (ok: bool)
      requires Valid() && Root(spot, p4) && page < LOW_END
      ensures ok <==> Permits(mem, p4, page, required)
    {
      hide FlagsOf, AddrOf, Encode, Idx, WellLinked, CountsOk, PoolOk, Consistent, TableAt, Look;
      var hierarchy := required * {USER_ACCESSIBLE, WRITABLE};
      Start(mem, spot, pool, p4, page, 1);
      Descend(mem, spot, p4, page, 4, p4);
      var e4 := mem[p4][Idx(page, 4)];
      if !EntryAllows(e4, hierarchy) { return false; }
      var p3 := AddrOf(e4);
      Descend(mem, spot, p4, page, 3, p3);
      var e3 := mem[p3][Idx(page, 3)];
      if !EntryAllows(e3, hierarchy) { return false; }
      if Huge(e3) { return EntryAllows(e3, required); }
      var p2 := AddrOf(e3);
      Descend(mem, spot, p4, page, 2, p2);
      var e2 := mem[p2][Idx(page, 2)];
      if !EntryAllows(e2, hierarchy) { return false; }
      if Huge(e2) { return EntryAllows(e2, required); }
      var p1 := AddrOf(e2);
      Descend(mem, spot, p4, page, 1, p1);
      ok := EntryAllows(mem[p1][Idx(page, 1)], required);
    }

    method Translate(p4: nat, addr: nat) returns (r: Option<nat>)
      requires Valid() && Root(spot, p4) && addr < LOW_END
      ensures r == Translation(mem, p4, addr)
    {
      hide Present, Huge, FlagsOf, AddrOf, Encode, Idx, WellLinked, CountsOk, PoolOk, Consistent, TableAt, Look;
      Start(mem, spot, pool, p4, addr, 1);
      Descend(mem, spot, p4, addr, 4, p4);
      var e4 := mem[p4][Idx(addr, 4)];
      if !Present(e4) { return None; }
      var p3 := AddrOf(e4);
      Descend(mem, spot, p4, addr, 3, p3);
      var e3 := mem[p3][Idx(addr, 3)];
      if !Present(e3) { return None; }
      if Huge(e3) { return Some(AddrOf(e3) + addr % 0x4000_0000); }
      var p2 := AddrOf(e3);
      Descend(mem, spot, p4, addr, 2, p2);
      var e2 := mem[p2][Idx(addr, 2)];
      if !Present(e2) { return None; }
      if Huge(e2) { return Some(AddrOf(e2) + addr % 0x20_0000); }
      var p1 := AddrOf(e2);
      Descend(mem, spot, p4, addr, 1, p1);
      var e1 := mem[p1][Idx(addr, 1)];
      if !Present(e1) { return None; }
      r := Some(AddrOf(e1) + addr % 0x1000);
    }
  }

  /** Unmapping what was just mapped restores every mapping and the reverse map. */
  lemma MapThenUnmap(m0: Mem, m1: Mem, m2: Mem, spot: map<nat, Spot>, rm0: Rmap, rm1: Rmap, rm2: Rmap, p4: nat,
                     page: nat, frame: nat, flags: Flags, level: nat, out: nat)
    requires Consistent(m0, spot, rm0) && IsPage(spot, p4, page) && Frame(frame) && 1 <= level <= 3
    requires (HUGE_PAGE in flags <==> level > 1)
    requires var to := Mapping(Encode(frame, flags + {PRESENT}), level);
      && Vacant(m0, p4, page, level) && Remapped(m0, m1, spot, p4, page, level, Some(to))
      && rm1 == (if level == 1 && USER_ACCESSIBLE in flags then Added(rm0, frame, RmapEntry(p4, page, flags)) else rm0)
      && Emptied(m1, rm1, m2, rm2, spot, p4, page, to, out)
    ensures out == frame && SameView(m0, m2, spot) && rm2 == rm0
  {
    hide Look, Encode, FlagsOf, AddrOf, Reach, Root, Span, Retain;
    Decode(frame, flags + {PRESENT});
    if level == 1 && USER_ACCESSIBLE in flags {
      var v := Entries(rm0, frame);
      RetainNone(v, RmapEntry(p4, page, flags));
      forall e | e in v ensures e.p4 != p4 || e.vaddr != page {
        assert FrameOk(m0, spot, rm0, frame) && Agrees(m0, spot, frame, e);
      }
      RetainAll(v, p4, page);
      assert frame in rm0 ==> FrameOk(m0, spot, rm0, frame);
    }
  }

  lemma {:induction false} RetainAll(v: seq<RmapEntry>, p4: nat, va: nat)
    requires forall e :: e in v ==> e.p4 != p4 || e.vaddr != va
    ensures Retain(v, p4, va) == v
  {
    if v != [] { RetainAll(v[1..], p4, va); }
  }

  lemma {:induction false} RetainNone(v: seq<RmapEntry>, e: RmapEntry)
    ensures Retain(v + [e], e.p4, e.vaddr) == Retain(v, e.p4, e.vaddr)
  {
    if v != [] {
      assert (v + [e])[1..] == v[1..] + [e];
      RetainNone(v[1..], e);
    }
  }

  lemma AddrFrame(e: nat)
    ensures Frame(AddrOf(e))
  {
  }

  predicate IsLowest(s: set<nat>, k: nat) {
    forall j :: j in s ==> k <= j
  }

  lemma {:induction false} Lowest(s: set<nat>)
    requires s != {}
    ensures exists k :: k in s && IsLowest(s, k)
  {
    var x :| x in s;
    if s == {x} {
      assert IsLowest(s, x);
    } else {
      Lowest(s - {x});
      var y :| y in s - {x} && IsLowest(s - {x}, y);
      assert IsLowest(s, if x <= y then x else y) by {
        forall j | j in s ensures (if x <= y then x else y) <= j { assert j == x || j in s - {x}; }
      }
    }
  }

  lemma Remap(m0: Mem, m1: Mem, m2: Mem, s: map<nat, Spot>, p4: nat, page: nat, to: Option<Mapping>)
    ensures Remapped(m0, m1, s, p4, page, 1, None) && Remapped(m1, m2, s, p4, page, 1, to) ==>
      Remapped(m0, m2, s, p4, page, 1, to)
  {
    hide Look, Root;
  }

  lemma LeafOf(frame: nat, flags: Flags, level: nat)
    requires Frame(frame) && 1 <= level <= 3 && (HUGE_PAGE in flags <==> level > 1)
    ensures var e := Encode(frame, flags + {PRESENT});
      && LeafEntry(level, e) && e != 0
      && (!(level == 1 && USER_ACCESSIBLE in flags) ==> !UserLeaf(Some(Mapping(e, level))))
  {
    hide Encode, FlagsOf;
    Decode(frame, flags + {PRESENT});
  }

  lemma VacantPage(mem: Mem, spot: map<nat, Spot>, p4: nat, page: nat, level: nat, t: nat)
    requires WellLinked(mem, spot) && Root(spot, p4) && page < LOW_END && 1 <= level <= 3
    requires TableAt(mem, p4, 4, page, level) == Some(t) && t in mem && |mem[t]| == ENTRY_COUNT
    requires mem[t][Idx(page, level)] == 0
    ensures Vacant(mem, p4, page, level)
  {
    hide WellLinked, FlagsOf, Look, TableAt, Span;
    forall va: nat | va < LOW_END && va / Span(level) == page / Span(level) ensures Look(mem, p4, 4, va) == None {
      PageLook(mem, spot, p4, page, level, t, va);
    }
  }

  lemma CountKeys(counts: map<nat, nat>, t: nat)
    ensures Inc(counts, t).Keys == counts.Keys && Dec(counts, t).Keys == counts.Keys
  {
  }

  lemma RootCounts(mem: Mem, spot: map<nat, Spot>, counts: map<nat, nat>, pool: set<nat>, f: nat, kernel: seq<nat>)
    requires mem.Keys == spot.Keys && CountsOk(mem, spot, counts) && PoolOk(mem, counts, pool) && f in pool
    requires |kernel| == ENTRY_COUNT
    ensures var m, s := mem[f := RootRow(kernel)], spot[f := Spot(f, [])];
      m.Keys == s.Keys && CountsOk(m, s, counts) && PoolOk(m, counts, pool - {f})
  {
    hide LeafCount, Frame, RootRow;
  }

  lemma RootUncounted(mem: Mem, spot: map<nat, Spot>, counts: map<nat, nat>, pool: set<nat>, p4: nat)
    requires mem.Keys == spot.Keys && CountsOk(mem, spot, counts) && PoolOk(mem, counts, pool)
    requires Root(spot, p4) && p4 > 0 && Frame(p4) && p4 in counts
    ensures var m, s := mem - {p4}, spot - {p4};
      m.Keys == s.Keys && CountsOk(m, s, counts) && PoolOk(m, counts, pool + {p4})
  {
    hide LeafCount, Frame;
  }

  lemma LinkedKeys(mem: Mem, spot: map<nat, Spot>)
    requires WellLinked(mem, spot)
    ensures mem.Keys == spot.Keys
  {
  }

  lemma PoolFrame(mem: Mem, counts: map<nat, nat>, pool: set<nat>, f: nat)
    requires PoolOk(mem, counts, pool) && f in pool
    ensures f > 0 && Frame(f) && f !in mem && f in counts
  {
  }
}
