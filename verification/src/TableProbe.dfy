/** What a walk that may create tables finds on its way to the level it maps at. */
module TableProbe {
  import opened Basics
  import opened Options
  import opened PageEntry
  import opened PageWalk
  import opened TableEdits

  /** Either a huge page stands in the way, or `missing` tables must be made to reach `entry`. */
  datatype Probe = Blocked | Slot(missing: nat, entry: nat)

  function Reach(mem: Mem, t: nat, level: nat, va: nat, l: nat): Probe
    requires 1 <= l <= level <= 4
    decreases level
  {
    if t !in mem || |mem[t]| != ENTRY_COUNT then Slot(level - l, 0)
    else
      var e := mem[t][Idx(va, level)];
      if level == l then Slot(0, e)
      else if !Present(e) then Slot(level - l, 0)
      else if LeafEntry(level, e) then Blocked
      else Reach(mem, AddrOf(e), level - 1, va, l)
  }

  /** A walk can be continued from the table it has reached. */
  lemma {:induction false} Resume(mem: Mem, t: nat, level: nat, va: nat, k: nat, l: nat)
    requires 1 <= l <= k <= level <= 4 && TableAt(mem, t, level, va, k).Some?
    ensures var u := TableAt(mem, t, level, va, k).value;
      && u in mem && |mem[u]| == ENTRY_COUNT
      && TableAt(mem, t, level, va, l) == TableAt(mem, u, k, va, l)
      && Reach(mem, t, level, va, l) == Reach(mem, u, k, va, l)
    decreases level
  {
    hide FlagsOf, AddrOf, Idx;
    if k < level { Resume(mem, AddrOf(mem[t][Idx(va, level)]), level - 1, va, k, l); }
  }

  /** Hanging a table below the end of a walk leaves the walk as it was. */
  lemma {:induction false} HangWalk(mem: Mem, spot: map<nat, Spot>, t0: nat, i0: nat, f: nat, r: nat, t: nat,
                                    level: nat, va: nat, k: nat)
    requires WellLinked(mem, spot) && OnTrail(spot, r, t, level, va) && 1 <= k <= level && va < LOW_END
    requires TableAt(mem, t, level, va, k) == Some(t0) && f !in mem && Frame(f) && i0 < ENTRY_COUNT
    ensures t0 in mem && |mem[t0]| == ENTRY_COUNT && t0 != f
    ensures TableAt(Hang(mem, t0, i0, f), t, level, va, k) == Some(t0)
    decreases level
  {
    hide FlagsOf, AddrOf, WellLinked, Idx, Encode;
    Step(mem, spot, r, t, level, va);
    if k < level {
      TableSpot(mem, spot, r, t, level, va, k);
      assert LevelOf(spot[t0]) == k && t0 != t;
      HangWalk(mem, spot, t0, i0, f, r, AddrOf(mem[t][Idx(va, level)]), level - 1, va, k);
    }
  }

  /** A hung table brings the walk one level further and costs one missing table. */
  lemma HangReach(mem: Mem, spot: map<nat, Spot>, p4: nat, page: nat, level: nat, t: nat, f: nat, l: nat)
    requires WellLinked(mem, spot) && Root(spot, p4) && page < LOW_END && 1 <= l < level <= 4
    requires TableAt(mem, p4, 4, page, level) == Some(t) && f !in mem && Frame(f)
    ensures t in mem && |mem[t]| == ENTRY_COUNT && t != f
    ensures mem[t][Idx(page, level)] == 0 ==>
      var m := Hang(mem, t, Idx(page, level), f);
      && TableAt(m, p4, 4, page, level - 1) == Some(f)
      && Reach(mem, p4, 4, page, l) == Slot(level - l, 0) && Reach(m, p4, 4, page, l) == Slot(level - 1 - l, 0)
  {
    hide FlagsOf, AddrOf, WellLinked, Idx, Encode;
    HangWalk(mem, spot, t, Idx(page, level), f, p4, p4, 4, page, level);
    TableEntry(f);
    var m := Hang(mem, t, Idx(page, level), f);
    Resume(mem, p4, 4, page, level, l);
    Resume(m, p4, 4, page, level, level - 1);
    Resume(m, p4, 4, page, level, l);
    assert m[f] == Zeros(ENTRY_COUNT);
    assert Reach(m, f, level - 1, page, l) == Slot(level - 1 - l, 0);
  }

  /** Following a present entry. */
  lemma FollowReach(mem: Mem, spot: map<nat, Spot>, p4: nat, page: nat, level: nat, t: nat, l: nat)
    requires WellLinked(mem, spot) && Root(spot, p4) && page < LOW_END && 1 <= l < level <= 4
    requires TableAt(mem, p4, 4, page, level) == Some(t)
    ensures t in mem && |mem[t]| == ENTRY_COUNT && t in spot && LevelOf(spot[t]) == level
    ensures var e := mem[t][Idx(page, level)];
      && (e == 0 || Present(e))
      && (Present(e) && Huge(e) ==> Reach(mem, p4, 4, page, l) == Blocked)
      && (Present(e) && !Huge(e) ==> TableAt(mem, p4, 4, page, level - 1) == Some(AddrOf(e)))
      && (!Present(e) ==> Reach(mem, p4, 4, page, l) == Slot(level - l, 0))
  {
    hide FlagsOf, AddrOf, WellLinked, Idx;
    TableSpot(mem, spot, p4, p4, 4, page, level);
    Step(mem, spot, p4, t, level, page);
    Resume(mem, p4, 4, page, level, l);
    Resume(mem, p4, 4, page, level, level - 1);
    var e := mem[t][Idx(page, level)];
    if Present(e) && !Huge(e) { Step(mem, spot, p4, AddrOf(e), level - 1, page); }
  }

  /** What the entry of the table reached so far says about the address. */
  lemma Descend(mem: Mem, spot: map<nat, Spot>, p4: nat, va: nat, level: nat, t: nat)
    requires WellLinked(mem, spot) && Root(spot, p4) && va < LOW_END && 1 <= level <= 4
    requires TableAt(mem, p4, 4, va, level) == Some(t)
    ensures t in mem && |mem[t]| == ENTRY_COUNT && t in spot && LevelOf(spot[t]) == level
    ensures var e := mem[t][Idx(va, level)];
      && (e == 0 || Present(e)) && (level == 4 ==> !Huge(e))
      && (!Present(e) ==> Look(mem, p4, 4, va) == None)
      && (LeafEntry(level, e) ==> level <= 3 && Look(mem, p4, 4, va) == Some(Mapping(e, level)))
      && (Present(e) && !LeafEntry(level, e) ==>
            level > 1 && TABLE_FLAGS <= FlagsOf(e) && TableAt(mem, p4, 4, va, level - 1) == Some(AddrOf(e)))
  {
    hide FlagsOf, AddrOf, WellLinked, Idx;
    TableSpot(mem, spot, p4, p4, 4, va, level);
    Step(mem, spot, p4, t, level, va);
    LookVia(mem, p4, 4, va, level);
    var e := mem[t][Idx(va, level)];
    if Present(e) && !LeafEntry(level, e) {
      Resume(mem, p4, 4, va, level, level - 1);
      Step(mem, spot, p4, AddrOf(e), level - 1, va);
    }
  }

  /** Writing the entry at the end of a walk changes what the walk finds there and nothing on its way. */
  lemma {:induction false} WriteReach(mem: Mem, spot: map<nat, Spot>, r: nat, t: nat, level: nat, va: nat, l: nat,
                                      t0: nat, e0: nat)
    requires WellLinked(mem, spot) && OnTrail(spot, r, t, level, va) && 1 <= l <= level && va < LOW_END
    requires TableAt(mem, t, level, va, l) == Some(t0) && Idx(va, l) < |mem[t0]|
    ensures Reach(Write(mem, t0, Idx(va, l), e0), t, level, va, l) == Slot(0, e0)
    ensures forall k :: l < k <= level ==>
      Reach(Write(mem, t0, Idx(va, l), e0), t, level, va, k).Slot?
        && Reach(Write(mem, t0, Idx(va, l), e0), t, level, va, k).entry != 0
    decreases level
  {
    hide FlagsOf, AddrOf, WellLinked, Idx;
    Step(mem, spot, r, t, level, va);
    if l < level {
      TableSpot(mem, spot, r, t, level, va, l);
      assert LevelOf(spot[t0]) == l && t0 != t;
      TableEntry(0);
      WriteReach(mem, spot, r, AddrOf(mem[t][Idx(va, level)]), level - 1, va, l, t0, e0);
    }
  }

  /** On its way to a 4K entry a walk is blocked by a huge mapping, finds the mapping there is, or finds an unused
      entry. */
  lemma {:induction false} ReachLook(mem: Mem, spot: map<nat, Spot>, r: nat, t: nat, level: nat, va: nat)
    requires WellLinked(mem, spot) && OnTrail(spot, r, t, level, va) && 1 <= level <= 4 && va < LOW_END
    ensures var p, m := Reach(mem, t, level, va, 1), Look(mem, t, level, va);
      && (p.Blocked? ==> m.Some? && m.value.level > 1)
      && (p.Slot? ==> p.missing < level && (p.entry != 0 <==> m.Some?))
    decreases level
  {
    hide FlagsOf, AddrOf, WellLinked, Idx;
    Step(mem, spot, r, t, level, va);
    TableEntry(0);
    var e := mem[t][Idx(va, level)];
    if level > 1 && Present(e) && !LeafEntry(level, e) {
      ReachLook(mem, spot, r, AddrOf(e), level - 1, va);
    }
  }
}
