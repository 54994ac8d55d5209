/** What editing the page tables does to the flat map from addresses to mappings. */
module TableEdits {
  import opened Basics
  import opened Options
  import opened PageEntry
  import opened PageWalk

  /** Every address of every address space is mapped as before. */
  ghost predicate SameView(m: Mem, n: Mem, spot: map<nat, Spot>) {
    forall r: nat, va: nat :: Root(spot, r) && va < LOW_END ==> Look(n, r, 4, va) == Look(m, r, 4, va)
  }

  /** The addresses of one page of `p4` are mapped to `to`, every other address as before. */
  ghost predicate Remapped(m: Mem, n: Mem, spot: map<nat, Spot>, p4: nat, page: nat, level: nat, to: Option<Mapping>) {
    forall r: nat, va: nat :: Root(spot, r) && va < LOW_END ==>
      Look(n, r, 4, va) == if r == p4 && va / Span(level) == page / Span(level) then to else Look(m, r, 4, va)
  }

  /** A fresh empty table `f` hung under entry `i` of `t`. */
  function Hang(mem: Mem, t: nat, i: nat, f: nat): Mem
    requires t in mem && i < |mem[t]| && Frame(f) && f != t
  {
    Write(mem[f := Zeros(ENTRY_COUNT)], t, i, Encode(f, TABLE_FLAGS))
  }

  lemma TableEntry(f: nat)
    requires Frame(f)
    ensures var e := Encode(f, TABLE_FLAGS); Present(e) && !Huge(e) && AddrOf(e) == f && FlagsOf(e) == TABLE_FLAGS
    ensures !Present(0) && !Huge(0)
  {
    Decode(f, TABLE_FLAGS);
    Unused();
  }

  lemma {:induction false} HangLook(mem: Mem, spot: map<nat, Spot>, t0: nat, i0: nat, f: nat, r: nat, t: nat,
                                    level: nat, va: nat)
    requires WellLinked(mem, spot) && OnTrail(spot, r, t, level, va) && 1 <= level && va < LOW_END
    requires t0 in mem && LevelOf(spot[t0]) > 1 && i0 < |mem[t0]| && mem[t0][i0] == 0 && f !in mem && Frame(f)
    ensures Look(Hang(mem, t0, i0, f), t, level, va) == Look(mem, t, level, va)
    decreases level
  {
    hide FlagsOf, AddrOf, WellLinked, Idx, Encode;
    Step(mem, spot, r, t, level, va);
    TableEntry(f);
    var e := mem[t][Idx(va, level)];
    if t == t0 && Idx(va, level) == i0 {
      assert Look(Hang(mem, t0, i0, f), f, level - 1, va) == None;
    } else if Present(e) && !LeafEntry(level, e) {
      HangLook(mem, spot, t0, i0, f, r, AddrOf(e), level - 1, va);
    }
  }

  lemma HangGood(mem: Mem, spot: map<nat, Spot>, t0: nat, i0: nat, f: nat, t: nat)
    requires WellLinked(mem, spot) && t in mem + map[f := Zeros(ENTRY_COUNT)]
    requires t0 in mem && LevelOf(spot[t0]) > 1 && i0 < |mem[t0]| && mem[t0][i0] == 0 && f !in mem && Frame(f)
    ensures GoodTable(Hang(mem, t0, i0, f), spot[f := Down(spot[t0], i0)], t)
  {
    hide FlagsOf, AddrOf, Encode, Idx;
    TableEntry(f);
    var m, s := Hang(mem, t0, i0, f), spot[f := Down(spot[t0], i0)];
    assert GoodTable(mem, spot, t0);
    assert t != f ==> GoodTable(mem, spot, t);
    forall i | 0 <= i < ENTRY_COUNT && (LevelOf(s[t]) < 4 || i < LOW_HALF) ensures GoodEntry(m, s, t, i) {
      assert t != f ==> GoodEntry(mem, spot, t, i);
    }
  }

  /** Hanging an empty table in an unused entry changes no mapping. */
  lemma HangKeeps(mem: Mem, spot: map<nat, Spot>, t0: nat, i0: nat, f: nat)
    requires WellLinked(mem, spot)
    requires t0 in mem && LevelOf(spot[t0]) > 1 && i0 < |mem[t0]| && mem[t0][i0] == 0 && f !in mem && Frame(f)
    ensures var m, s := Hang(mem, t0, i0, f), spot[f := Down(spot[t0], i0)];
      && WellLinked(m, s) && SameView(mem, m, spot) && m.Keys == mem.Keys + {f}
      && forall r: nat :: Root(s, r) <==> Root(spot, r)
  {
    hide FlagsOf, AddrOf, Encode, Idx, GoodTable, Look;
    var m, s := Hang(mem, t0, i0, f), spot[f := Down(spot[t0], i0)];
    forall t | t in m ensures GoodTable(m, s, t) { HangGood(mem, spot, t0, i0, f, t); }
    forall r: nat, va: nat | Root(spot, r) && va < LOW_END ensures Look(m, r, 4, va) == Look(mem, r, 4, va) {
      HangLook(mem, spot, t0, i0, f, r, r, 4, va);
    }
  }

  lemma WriteGood(mem: Mem, spot: map<nat, Spot>, t0: nat, i0: nat, e0: nat, t: nat)
    requires WellLinked(mem, spot) && t in mem && t0 in mem && i0 < |mem[t0]| && 1 <= LevelOf(spot[t0]) < 4
    requires e0 == 0 || LeafEntry(LevelOf(spot[t0]), e0)
    ensures GoodTable(Write(mem, t0, i0, e0), spot, t)
  {
    hide FlagsOf, AddrOf, Idx;
    TableEntry(0);
    var m := Write(mem, t0, i0, e0);
    assert GoodTable(mem, spot, t);
    forall i | 0 <= i < ENTRY_COUNT && (LevelOf(spot[t]) < 4 || i < LOW_HALF) ensures GoodEntry(m, spot, t, i) {
      assert GoodEntry(mem, spot, t, i);
    }
  }

  /** Writing a leaf, or clearing one, remaps exactly its page. */
  lemma WriteLeaf(mem: Mem, spot: map<nat, Spot>, p4: nat, page: nat, level: nat, t0: nat, e0: nat)
    requires WellLinked(mem, spot) && Root(spot, p4) && page < LOW_END && 1 <= level <= 3
    requires TableAt(mem, p4, 4, page, level) == Some(t0) && (e0 == 0 || LeafEntry(level, e0))
    ensures t0 in mem && |mem[t0]| == ENTRY_COUNT && t0 in spot && LevelOf(spot[t0]) == level
    ensures var m := Write(mem, t0, Idx(page, level), e0);
      && WellLinked(m, spot) && m.Keys == mem.Keys
      && Remapped(mem, m, spot, p4, page, level, if e0 == 0 then None else Some(Mapping(e0, level)))
  {
    hide FlagsOf, AddrOf, Idx, GoodTable, Look;
    TableSpot(mem, spot, p4, p4, 4, page, level);
    Step(mem, spot, p4, t0, level, page);
    TableEntry(0);
    var i := Idx(page, level);
    var m := Write(mem, t0, i, e0);
    forall t | t in m ensures GoodTable(m, spot, t) { WriteGood(mem, spot, t0, i, e0, t); }
    forall r: nat, va: nat | Root(spot, r) && va < LOW_END
      ensures Look(m, r, 4, va) == if r == p4 && va / Span(level) == page / Span(level)
        then (if e0 == 0 then None else Some(Mapping(e0, level))) else Look(mem, r, 4, va)
    {
      PageIsSpan(va, page, level);
      if r == p4 && SamePage(va, page, level) {
        WriteHere(mem, spot, p4, p4, 4, page, level, t0, e0, va);
      } else {
        WriteElsewhere(mem, spot, t0, i, e0, r, r, 4, va);
      }
    }
  }

  /** The entry at the end of the walk decides every address of its page. */
  lemma PageLook(mem: Mem, spot: map<nat, Spot>, p4: nat, page: nat, level: nat, t0: nat, va: nat)
    requires WellLinked(mem, spot) && Root(spot, p4) && page < LOW_END && va < LOW_END && 1 <= level <= 3
    requires TableAt(mem, p4, 4, page, level) == Some(t0) && va / Span(level) == page / Span(level)
    ensures t0 in mem && |mem[t0]| == ENTRY_COUNT
    ensures var e := mem[t0][Idx(page, level)];
      && (e == 0 ==> Look(mem, p4, 4, va) == None)
      && (LeafEntry(level, e) ==> Look(mem, p4, 4, va) == Some(Mapping(e, level)))
  {
    hide FlagsOf, AddrOf, Idx, WellLinked, GoodTable;
    TableSpot(mem, spot, p4, p4, 4, page, level);
    Step(mem, spot, p4, t0, level, page);
    TableEntry(0);
    PageIsSpan(va, page, level);
    WriteHere(mem, spot, p4, p4, 4, page, level, t0, 0, va);
  }

  /** The first row of a new address space: nothing mapped below, the kernel's entries above. */
  function RootRow(kernel: seq<nat>): (row: seq<nat>)
    requires |kernel| == ENTRY_COUNT
  {
    seq(ENTRY_COUNT, i requires 0 <= i < ENTRY_COUNT => if i < LOW_HALF then 0 else kernel[i])
  }

  lemma {:induction false} RootLook(mem: Mem, spot: map<nat, Spot>, f: nat, row: seq<nat>, r: nat, t: nat, level: nat,
                                    va: nat)
    requires WellLinked(mem, spot) && OnTrail(spot, r, t, level, va) && 1 <= level && va < LOW_END && f !in mem
    ensures Look(mem[f := row], t, level, va) == Look(mem, t, level, va)
    decreases level
  {
    hide FlagsOf, AddrOf, WellLinked, Idx;
    Step(mem, spot, r, t, level, va);
    var e := mem[t][Idx(va, level)];
    if Present(e) && !LeafEntry(level, e) { RootLook(mem, spot, f, row, r, AddrOf(e), level - 1, va); }
  }

  /** A new address space maps nothing and leaves the others alone. */
  lemma RootKeeps(mem: Mem, spot: map<nat, Spot>, f: nat, kernel: seq<nat>)
    requires WellLinked(mem, spot) && f !in mem && |kernel| == ENTRY_COUNT
    ensures var m, s := mem[f := RootRow(kernel)], spot[f := Spot(f, [])];
      && WellLinked(m, s) && SameView(mem, m, spot) && Root(s, f)
      && (forall va: nat :: va < LOW_END ==> Look(m, f, 4, va) == None)
      && forall r: nat :: Root(s, r) <==> Root(spot, r) || r == f
  {
    hide FlagsOf, AddrOf;
    var m, s := mem[f := RootRow(kernel)], spot[f := Spot(f, [])];
    TableEntry(0);
    forall t | t in m ensures GoodTable(m, s, t) {
      if t != f {
        assert GoodTable(mem, spot, t);
        forall i | 0 <= i < ENTRY_COUNT && (LevelOf(s[t]) < 4 || i < LOW_HALF) ensures GoodEntry(m, s, t, i) {
          assert GoodEntry(mem, spot, t, i);
        }
      }
    }
    forall r: nat, va: nat | Root(spot, r) && va < LOW_END ensures Look(m, r, 4, va) == Look(mem, r, 4, va) {
      RootLook(mem, spot, f, RootRow(kernel), r, r, 4, va);
    }
    forall va: nat | va < LOW_END ensures Look(m, f, 4, va) == None {
      assert Idx(va, 4) < LOW_HALF;
    }
  }

  lemma {:induction false} GoneLook(mem: Mem, spot: map<nat, Spot>, p4: nat, r: nat, t: nat, level: nat, va: nat)
    requires WellLinked(mem, spot) && OnTrail(spot, r, t, level, va) && 1 <= level && va < LOW_END && Root(spot, p4)
    requires t != p4
    ensures Look(mem - {p4}, t, level, va) == Look(mem, t, level, va)
    decreases level
  {
    hide FlagsOf, AddrOf, WellLinked, Idx;
    Step(mem, spot, r, t, level, va);
    var e := mem[t][Idx(va, level)];
    if Present(e) && !LeafEntry(level, e) { GoneLook(mem, spot, p4, r, AddrOf(e), level - 1, va); }
  }

  /** Taking away a top-level table leaves the other address spaces alone. */
  lemma RootGone(mem: Mem, spot: map<nat, Spot>, p4: nat)
    requires WellLinked(mem, spot) && Root(spot, p4)
    ensures var m, s := mem - {p4}, spot - {p4};
      && WellLinked(m, s) && SameView(mem, m, s) && forall r: nat :: Root(s, r) <==> Root(spot, r) && r != p4
  {
    hide FlagsOf, AddrOf;
    var m, s := mem - {p4}, spot - {p4};
    forall t | t in m ensures GoodTable(m, s, t) {
      assert GoodTable(mem, spot, t);
      forall i | 0 <= i < ENTRY_COUNT && (LevelOf(s[t]) < 4 || i < LOW_HALF) ensures GoodEntry(m, s, t, i) {
        assert GoodEntry(mem, spot, t, i);
      }
    }
    forall r: nat, va: nat | Root(s, r) && va < LOW_END ensures Look(m, r, 4, va) == Look(mem, r, 4, va) {
      GoneLook(mem, spot, p4, r, r, 4, va);
    }
  }
}
