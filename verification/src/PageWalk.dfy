/** Four-level page tables as a map from table frames to their 512 entries. A table knows the one
    place it hangs (`Spot`): the address space and the indices that lead to it, so the tables of
    all address spaces form disjoint trees by construction. Only the lower half of each top-level
    table, the user half, is covered; the upper half is shared kernel space. */
module PageWalk {
  import opened Areas
  import opened Options
  import opened PageEntry

  const ENTRY_COUNT: nat := 512
  const LOW_HALF: nat := 256
  const LOW_END: nat := 0x8000_0000_0000

  /** What an entry that points at a table allows; the leaf decides. */
  const TABLE_FLAGS: Flags := {PRESENT, WRITABLE, USER_ACCESSIBLE}

  type Mem = map<nat, seq<nat>>

  predicate Present(e: nat) {
    PRESENT in FlagsOf(e)
  }

  predicate Huge(e: nat) {
    HUGE_PAGE in FlagsOf(e)
  }

  /** Bytes one entry of a table of this level spans. */
  function Span(level: nat): (r: nat)
    ensures r > 0
  {
    if level <= 1 then 0x1000 else if level == 2 then 0x20_0000 else if level == 3 then 0x4000_0000 else 0x80_0000_0000
  }

  /** The table index of an address at a level. */
  function Idx(va: nat, level: nat): (i: nat)
    ensures i < ENTRY_COUNT
  {
    va / Span(level) % 512
  }

  predicate LeafEntry(level: nat, e: nat) {
    Present(e) && (level == 1 || (level < 4 && Huge(e)))
  }

  /** The entry that maps an address, with the level it sits on. */
  datatype Mapping = Mapping(entry: nat, level: nat)

  /** What table `t` of this level, and the tables below it, map `va` to. */
  function Look(mem: Mem, t: nat, level: nat, va: nat): Option<Mapping>
    requires 1 <= level <= 4
    decreases level
  {
    if t !in mem || |mem[t]| != ENTRY_COUNT then None
    else
      var e := mem[t][Idx(va, level)];
      if !Present(e) then None
      else if LeafEntry(level, e) then Some(Mapping(e, level))
      else Look(mem, AddrOf(e), level - 1, va)
  }

  /** The physical address of `va` in the address space of `p4`. */
  function Translation(mem: Mem, p4: nat, va: nat): Option<nat> {
    match Look(mem, p4, 4, va)
    case None => None
    case Some(m) => Some(AddrOf(m.entry) + va % Span(m.level))
  }

  /** The table the walk to `va` is in at level `l`, if it gets there. */
  function TableAt(mem: Mem, t: nat, level: nat, va: nat, l: nat): Option<nat>
    requires 1 <= l <= level <= 4
    decreases level
  {
    if t !in mem || |mem[t]| != ENTRY_COUNT then None
    else if level == l then Some(t)
    else
      var e := mem[t][Idx(va, level)];
      if !Present(e) || LeafEntry(level, e) then None else TableAt(mem, AddrOf(e), level - 1, va, l)
  }

  datatype Spot = Spot(space: nat, path: seq<nat>)

  function Down(s: Spot, i: nat): Spot {
    Spot(s.space, s.path + [i])
  }

  function LevelOf(s: Spot): int {
    4 - |s.path|
  }

  /** The indices that lead to the table of `level` on the way to `va`. */
  function Trail(va: nat, level: nat): (p: seq<nat>)
    requires level <= 4
    ensures |p| == 4 - level
    decreases 4 - level
  {
    if level == 4 then [] else Trail(va, level + 1) + [Idx(va, level + 1)]
  }

  /** Both addresses are mapped by the same entry of a table of this level. */
  predicate SamePage(a: nat, b: nat, level: nat)
    requires level <= 4
  {
    Trail(a, level) == Trail(b, level) && Idx(a, level) == Idx(b, level)
  }

  lemma SameAbove(a: nat, b: nat, l: nat, level: nat)
    requires l <= level <= 4 && SamePage(a, b, l)
    ensures SamePage(a, b, level)
    decreases level - l
  {
    hide Idx;
    if l < level {
      assert Trail(a, l)[..3 - l] == Trail(a, l + 1) && Trail(b, l)[..3 - l] == Trail(b, l + 1);
      SameAbove(a, b, l + 1, level);
    }
  }

  /** In the lower half, addresses share a page exactly when they lie in the same aligned span. */
  lemma PageIsSpan(a: nat, b: nat, level: nat)
    requires a < LOW_END && b < LOW_END && 1 <= level <= 4
    ensures SamePage(a, b, level) <==> a / Span(level) == b / Span(level)
    decreases 4 - level
  {
    if level < 4 {
      PageIsSpan(a, b, level + 1);
      assert SamePage(a, b, level) <==> SamePage(a, b, level + 1) && Idx(a, level) == Idx(b, level) by {
        hide Idx;
        if SamePage(a, b, level) { SameAbove(a, b, level, level + 1); }
      }
      SpanStep(a, level);
      SpanStep(b, level);
    }
  }

  lemma SpanStep(a: nat, level: nat)
    requires 1 <= level <= 3
    ensures a / Span(level) == a / Span(level + 1) * 512 + Idx(a, level)
  {
    assert a / Span(level + 1) == a / Span(level) / 512;
  }

  ghost predicate GoodEntry(mem: Mem, spot: map<nat, Spot>, t: nat, i: nat)
    requires t in mem && t in spot && i < |mem[t]|
  {
    var e, level := mem[t][i], LevelOf(spot[t]);
    && (e == 0 || Present(e))
    && (level == 4 ==> !Huge(e))
    && (Present(e) && level >= 1 && !LeafEntry(level, e) ==>
          && level > 1 && TABLE_FLAGS <= FlagsOf(e) && AddrOf(e) in mem && AddrOf(e) in spot
             && spot[AddrOf(e)] == Down(spot[t], i))
  }

  ghost predicate GoodTable(mem: Mem, spot: map<nat, Spot>, t: nat)
    requires t in mem && t in spot
  {
    && |mem[t]| == ENTRY_COUNT && 1 <= LevelOf(spot[t]) <= 4
    && (spot[t].path == [] ==> spot[t].space == t)
    && (forall i :: 0 <= i < ENTRY_COUNT && (LevelOf(spot[t]) < 4 || i < LOW_HALF) ==> GoodEntry(mem, spot, t, i))
  }

  ghost predicate WellLinked(mem: Mem, spot: map<nat, Spot>) {
    mem.Keys == spot.Keys && forall t :: t in mem ==> GoodTable(mem, spot, t)
  }

  /** `t` is the top-level table of an address space. */
  ghost predicate Root(spot: map<nat, Spot>, t: nat) {
    t in spot && spot[t] == Spot(t, [])
  }

  /** Table `t` of address space `r` is where the walk to `va` is at this level. */
  ghost predicate OnTrail(spot: map<nat, Spot>, r: nat, t: nat, level: nat, va: nat) {
    t in spot && level <= 4 && spot[t] == Spot(r, Trail(va, level))
  }

  lemma Step(mem: Mem, spot: map<nat, Spot>, r: nat, t: nat, level: nat, va: nat)
    requires WellLinked(mem, spot) && OnTrail(spot, r, t, level, va) && 1 <= level && va < LOW_END
    ensures t in mem && |mem[t]| == ENTRY_COUNT && LevelOf(spot[t]) == level
    ensures var e := mem[t][Idx(va, level)];
      && (e == 0 || Present(e)) && (level == 1 && Present(e) ==> LeafEntry(level, e)) && (level == 4 ==> !Huge(e))
      && (Present(e) && !LeafEntry(level, e) ==>
            level > 1 && TABLE_FLAGS <= FlagsOf(e) && OnTrail(spot, r, AddrOf(e), level - 1, va))
  {
    hide FlagsOf, AddrOf;
    assert GoodTable(mem, spot, t);
    assert level == 4 ==> Idx(va, 4) < LOW_HALF;
    assert GoodEntry(mem, spot, t, Idx(va, level));
  }

  function Write(mem: Mem, t: nat, i: nat, e: nat): Mem
    requires t in mem && i < |mem[t]|
  {
    var row: seq<nat> := mem[t][i := e];
    mem[t := row]
  }

  /** Writing one entry changes only the walks whose trail runs through that entry. */
  lemma {:induction false} WriteElsewhere(mem: Mem, spot: map<nat, Spot>, t0: nat, i0: nat, e0: nat, r: nat, t: nat,
                                          level: nat, va: nat)
    requires WellLinked(mem, spot) && OnTrail(spot, r, t, level, va) && 1 <= level && va < LOW_END
    requires t0 in mem && i0 < |mem[t0]|
    requires !(1 <= LevelOf(spot[t0]) <= level && OnTrail(spot, r, t0, LevelOf(spot[t0]), va)
      && i0 == Idx(va, LevelOf(spot[t0])))
    ensures Look(Write(mem, t0, i0, e0), t, level, va) == Look(mem, t, level, va)
    decreases level
  {
    hide FlagsOf, AddrOf, WellLinked, Idx;
    Step(mem, spot, r, t, level, va);
    assert t0 == t ==> LevelOf(spot[t0]) == level;
    var e := mem[t][Idx(va, level)];
    if Present(e) && !LeafEntry(level, e) { WriteElsewhere(mem, spot, t0, i0, e0, r, AddrOf(e), level - 1, va); }
  }

  /** The walk reaches a table only where that table hangs. */
  lemma {:induction false} TableSpot(mem: Mem, spot: map<nat, Spot>, r: nat, t: nat, level: nat, va: nat, l: nat)
    requires WellLinked(mem, spot) && OnTrail(spot, r, t, level, va) && 1 <= l <= level && va < LOW_END
    ensures var a := TableAt(mem, t, level, va, l); a.Some? ==> a.value in mem && OnTrail(spot, r, a.value, l, va)
    decreases level
  {
    hide FlagsOf, AddrOf, WellLinked, Idx;
    Step(mem, spot, r, t, level, va);
    var e := mem[t][Idx(va, level)];
    if l < level && Present(e) && !LeafEntry(level, e) { TableSpot(mem, spot, r, AddrOf(e), level - 1, va, l); }
  }

  /** Every address of the page meets the written entry. */
  lemma {:induction false} WriteHere(mem: Mem, spot: map<nat, Spot>, r: nat, t: nat, level: nat, page: nat, l: nat,
                                     t0: nat, e0: nat, va: nat)
    requires WellLinked(mem, spot) && OnTrail(spot, r, t, level, page) && 1 <= l <= level && page < LOW_END
    requires TableAt(mem, t, level, page, l) == Some(t0) && SamePage(va, page, l) && Idx(page, l) < |mem[t0]|
    requires !Present(e0) || LeafEntry(l, e0)
    ensures Look(Write(mem, t0, Idx(page, l), e0), t, level, va) == if Present(e0) then Some(Mapping(e0, l)) else None
    ensures Look(mem, t, level, va) == Look(mem, t0, l, va)
    decreases level
  {
    hide FlagsOf, AddrOf, WellLinked, Idx;
    Step(mem, spot, r, t, level, page);
    if l < level {
      TableSpot(mem, spot, r, t, level, page, l);
      assert LevelOf(spot[t0]) == l && t0 != t;
      SameAbove(va, page, l, level);
      var e := mem[t][Idx(page, level)];
      WriteHere(mem, spot, r, AddrOf(e), level - 1, page, l, t0, e0, va);
    }
  }

  /** The walk goes on from any table it has reached. */
  lemma {:induction false} LookVia(mem: Mem, t: nat, level: nat, va: nat, l: nat)
    requires 1 <= l <= level <= 4 && TableAt(mem, t, level, va, l).Some?
    ensures Look(mem, t, level, va) == Look(mem, TableAt(mem, t, level, va, l).value, l, va)
    decreases level
  {
    hide FlagsOf, AddrOf, Idx;
    if l < level { LookVia(mem, AddrOf(mem[t][Idx(va, level)]), level - 1, va, l); }
  }

  /** Addresses of one 4K page are mapped alike. */
  lemma {:induction false} AlikeInPage(mem: Mem, t: nat, level: nat, a: nat, b: nat)
    requires 1 <= level <= 4 && SamePage(a, b, 1)
    ensures Look(mem, t, level, a) == Look(mem, t, level, b)
    decreases level
  {
    hide FlagsOf, AddrOf, Idx;
    SameAbove(a, b, 1, level);
    if t in mem && |mem[t]| == ENTRY_COUNT {
      var e := mem[t][Idx(a, level)];
      if Present(e) && !LeafEntry(level, e) { AlikeInPage(mem, AddrOf(e), level - 1, a, b); }
    }
  }
}
