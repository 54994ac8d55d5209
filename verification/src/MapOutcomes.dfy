/** What mapping a page comes to, by what is mapped and which tables there are. */
module MapOutcomes {
  import opened AddressTables
  import opened Areas
  import opened Options
  import opened PageEntry
  import opened PageWalk
  import opened TableEdits
  import opened TableProbe

  /** A walk is blocked exactly when a larger page maps the address; otherwise it lacks the tables below the last one
      there is, and finds the entry of the table it wants if that is there. */
  lemma {:induction false} ReachMeans(mem: Mem, spot: map<nat, Spot>, r: nat, t: nat, level: nat, va: nat, l: nat)
    requires WellLinked(mem, spot) && OnTrail(spot, r, t, level, va) && 1 <= l <= level <= 4 && va < LOW_END
    ensures var p, m := Reach(mem, t, level, va, l), Look(mem, t, level, va);
      && (p.Blocked? <==> m.Some? && m.value.level > l)
      && (p.Slot? ==>
         && l + p.missing <= level && TableAt(mem, t, level, va, l + p.missing).Some?
         && (p.missing > 0 ==> TableAt(mem, t, level, va, l + p.missing - 1) == None && p.entry == 0)
         && (p.missing == 0 ==>
            var u := TableAt(mem, t, level, va, l).value;
            u in mem && |mem[u]| == ENTRY_COUNT && p.entry == mem[u][Idx(va, l)]))
    decreases level
  {
    hide FlagsOf, AddrOf, WellLinked, Idx;
    Step(mem, spot, r, t, level, va);
    TableEntry(0);
    var e := mem[t][Idx(va, level)];
    if level > l && Present(e) && !LeafEntry(level, e) {
      ReachMeans(mem, spot, r, AddrOf(e), level - 1, va, l);
    }
  }

  /** The four indices and the offset are the digits of a virtual address, nine bits each and twelve (section 4.5 of the
      Intel 64 and IA-32 Architectures Software Developer's Manual, volume 3A). */
  lemma IndexDigits(va: nat)
    requires va < 0x1_0000_0000_0000
    ensures va == 0x80_0000_0000 * Idx(va, 4) + 0x4000_0000 * Idx(va, 3) + 0x20_0000 * Idx(va, 2)
      + 0x1000 * Idx(va, 1) + va % 0x1000
  {
    assert va / 0x1000 / 512 == va / 0x20_0000;
    assert va / 0x20_0000 / 512 == va / 0x4000_0000;
    assert va / 0x4000_0000 / 512 == va / 0x80_0000_0000;
  }

  /** A walk that reaches a table has passed one on each level above it. */
  lemma {:induction false} TablesAbove(mem: Mem, t: nat, level: nat, va: nat, l: nat, k: nat)
    requires 1 <= l <= k <= level <= 4 && TableAt(mem, t, level, va, l).Some?
    ensures TableAt(mem, t, level, va, k).Some?
    decreases level
  {
    hide FlagsOf, AddrOf, Idx;
    if k < level {
      TablesAbove(mem, AddrOf(mem[t][Idx(va, level)]), level - 1, va, l, k);
    }
  }

  ghost function Absent(mem: Mem, p4: nat, page: nat, level: nat): nat
    requires 1 <= level <= 4
  {
    if TableAt(mem, p4, 4, page, level).None? then 1 else 0
  }

  /** How many tables a page of this level lacks. */
  ghost function Lacking(mem: Mem, p4: nat, page: nat, l: nat): nat
    requires 1 <= l <= 4
  {
    Absent(mem, p4, page, 3) + (if l <= 2 then Absent(mem, p4, page, 2) else 0)
    + if l <= 1 then Absent(mem, p4, page, 1) else 0
  }

  lemma MissingLacking(mem: Mem, spot: map<nat, Spot>, p4: nat, page: nat, l: nat)
    requires WellLinked(mem, spot) && Root(spot, p4) && page < LOW_END && 1 <= l <= 3
    ensures var p := Reach(mem, p4, 4, page, l);
      p.Slot? ==> p.missing == Lacking(mem, p4, page, l) && (p.missing > 0 ==> TableAt(mem, p4, 4, page, l).None?)
  {
    hide WellLinked, Reach, TableAt, Look, Idx;
    ReachMeans(mem, spot, p4, p4, 4, page, l);
    var p := Reach(mem, p4, 4, page, l);
    if p.Slot? {
      forall k | l + p.missing <= k <= 3 ensures TableAt(mem, p4, 4, page, k).Some? {
        TablesAbove(mem, p4, 4, page, l + p.missing, k);
      }
      forall k | l <= k < l + p.missing ensures TableAt(mem, p4, 4, page, k).None? {
        if TableAt(mem, p4, 4, page, k).Some? { TablesAbove(mem, p4, 4, page, k, l + p.missing - 1); }
      }
    }
  }

  /** The slot of the page on its level is taken. */
  ghost predicate Taken(mem: Mem, p4: nat, page: nat, l: nat)
    requires 1 <= l <= 4
  {
    var u := TableAt(mem, p4, 4, page, l);
    u.Some? && u.value in mem && Idx(page, l) < |mem[u.value]| && mem[u.value][Idx(page, l)] != 0
  }

  /** When mapping succeeds, and which error it gives when it does not: a larger page in the way comes before a lack of
      frames for tables, that before a slot in use, and that before a huge page that is out of line. */
  lemma MapOutcome(mem: Mem, spot: map<nat, Spot>, free: nat, p4: nat, page: nat, frame: nat, flags: Flags)
    requires WellLinked(mem, spot) && Root(spot, p4) && page < LOW_END
    ensures var l := if HUGE_PAGE !in flags then 1
        else if page % 0x4000_0000 == 0 && frame % 0x4000_0000 == 0 then 3 else 2;
      var m, v := Look(mem, p4, 4, page), Verdict(mem, free, p4, page, frame, flags);
      var blocked := m.Some? && m.value.level > l;
      var short, taken := Lacking(mem, p4, page, l) > free, Taken(mem, p4, page, l);
      var crooked := HUGE_PAGE in flags && (page % 0x20_0000 != 0 || frame % 0x20_0000 != 0);
      && (v == Ok(()) <==> !blocked && !short && !taken && !crooked)
      && (v == Err(ParentEntryHugePage) <==> blocked)
      && (v == Err(FrameAllocationFailed) <==> !blocked && short)
      && (v == Err(PageAlreadyMapped) <==> !blocked && !short && taken)
      && (v == Err(HugePageNotAligned) <==> !blocked && !short && !taken && crooked)
  {
    hide WellLinked, Reach, TableAt, Look, Idx, Lacking;
    var l := TargetLevel(page, frame, flags);
    ReachMeans(mem, spot, p4, p4, 4, page, l);
    MissingLacking(mem, spot, p4, page, l);
    Multiples(page);
    Multiples(frame);
  }

  lemma Multiples(n: nat)
    ensures n % 0x4000_0000 == 0 ==> n % 0x20_0000 == 0
  {
    var k := n / 0x4000_0000;
    if n % 0x4000_0000 == 0 {
      assert n == 0x20_0000 * (512 * k);
      assert n / 0x20_0000 == 512 * k;
    }
  }
}
