/** The reverse map: for each frame, the pages of all address spaces whose user entry points at it. */
module ReverseMap {
  import opened Areas
  import opened Options
  import opened PageEntry
  import opened PageWalk
  import opened TableEdits

  datatype RmapEntry = RmapEntry(p4: nat, vaddr: nat, flags: Flags)

  type Rmap = map<nat, seq<RmapEntry>>

  function Entries(rm: Rmap, f: nat): seq<RmapEntry> {
    if f in rm then rm[f] else []
  }

  function Added(rm: Rmap, f: nat, e: RmapEntry): Rmap {
    rm[f := Entries(rm, f) + [e]]
  }

  function Retain(v: seq<RmapEntry>, p4: nat, va: nat): seq<RmapEntry> {
    if v == [] then []
    else (if v[0].p4 == p4 && v[0].vaddr == va then [] else [v[0]]) + Retain(v[1..], p4, va)
  }

  function Removed(rm: Rmap, f: nat, p4: nat, va: nat): Rmap {
    if f !in rm then rm
    else
      var v := Retain(rm[f], p4, va);
      if v == [] then rm - {f} else rm[f := v]
  }

  ghost predicate Unrepeated(v: seq<RmapEntry>) {
    forall i, j :: 0 <= i < j < |v| ==> v[i].p4 != v[j].p4 || v[i].vaddr != v[j].vaddr
  }

  lemma {:induction false} RetainMeaning(v: seq<RmapEntry>, p4: nat, va: nat)
    ensures forall e :: e in Retain(v, p4, va) <==> e in v && !(e.p4 == p4 && e.vaddr == va)
    ensures Unrepeated(v) ==> Unrepeated(Retain(v, p4, va))
  {
    if v != [] {
      var w := Retain(v[1..], p4, va);
      RetainMeaning(v[1..], p4, va);
      assert v == [v[0]] + v[1..];
      if Unrepeated(v) && !(v[0].p4 == p4 && v[0].vaddr == va) {
        forall j | 0 <= j < |w| ensures v[0].p4 != w[j].p4 || v[0].vaddr != w[j].vaddr {
          assert w[j] in v[1..];
          var k :| 0 <= k < |v[1..]| && v[1..][k] == w[j];
          assert v[k + 1] == w[j];
        }
        assert Retain(v, p4, va) == [v[0]] + w;
      }
    }
  }

  /** A 4K entry that user code may follow. */
  ghost predicate UserLeaf(m: Option<Mapping>) {
    m.Some? && m.value.level == 1 && USER_ACCESSIBLE in FlagsOf(m.value.entry)
  }

  ghost predicate IsPage(spot: map<nat, Spot>, r: nat, va: nat) {
    Root(spot, r) && va < LOW_END && va % PAGE_SIZE == 0
  }

  ghost predicate Agrees(mem: Mem, spot: map<nat, Spot>, f: nat, e: RmapEntry) {
    && IsPage(spot, e.p4, e.vaddr) && Frame(f) && USER_ACCESSIBLE in e.flags && HUGE_PAGE !in e.flags
    && Look(mem, e.p4, 4, e.vaddr) == Some(Mapping(Encode(f, e.flags + {PRESENT}), 1))
  }

  ghost predicate Listed(v: seq<RmapEntry>, r: nat, va: nat) {
    exists e :: e in v && e.p4 == r && e.vaddr == va
  }

  ghost predicate FrameOk(mem: Mem, spot: map<nat, Spot>, rm: Rmap, f: nat)
    requires f in rm
  {
    rm[f] != [] && Unrepeated(rm[f]) && forall e :: e in rm[f] ==> Agrees(mem, spot, f, e)
  }

  ghost predicate PageOk(mem: Mem, rm: Rmap, r: nat, va: nat) {
    var m := Look(mem, r, 4, va);
    UserLeaf(m) ==> Listed(Entries(rm, AddrOf(m.value.entry)), r, va)
  }

  /** The reverse map and the tables say the same. */
  ghost predicate Consistent(mem: Mem, spot: map<nat, Spot>, rm: Rmap) {
    && (forall f :: f in rm ==> FrameOk(mem, spot, rm, f))
    && (forall r: nat, va: nat :: IsPage(spot, r, va) ==> PageOk(mem, rm, r, va))
  }

  /** For each frame the map lists, once each, exactly the pages whose user entry points at it. */
  lemma Exact(mem: Mem, spot: map<nat, Spot>, rm: Rmap, f: nat, r: nat, va: nat)
    requires Consistent(mem, spot, rm) && IsPage(spot, r, va)
    ensures Unrepeated(Entries(rm, f))
    ensures Listed(Entries(rm, f), r, va) <==>
      (UserLeaf(Look(mem, r, 4, va)) && AddrOf(Look(mem, r, 4, va).value.entry) == f)
  {
    hide Look, Encode, FlagsOf, AddrOf;
    assert PageOk(mem, rm, r, va);
    if Listed(Entries(rm, f), r, va) {
      var e :| e in Entries(rm, f) && e.p4 == r && e.vaddr == va;
      assert FrameOk(mem, spot, rm, f) && Agrees(mem, spot, f, e);
      Decode(f, e.flags + {PRESENT});
    }
  }

  lemma SameViewKeeps(m: Mem, n: Mem, spot: map<nat, Spot>, spot2: map<nat, Spot>, rm: Rmap)
    requires Consistent(m, spot, rm) && SameView(m, n, spot) && forall r: nat :: Root(spot2, r) <==> Root(spot, r)
    ensures Consistent(n, spot2, rm)
  {
    hide Look, Encode, FlagsOf, AddrOf, Root, Unrepeated;
    forall f | f in rm ensures FrameOk(n, spot2, rm, f) {
      assert FrameOk(m, spot, rm, f);
      forall e | e in rm[f] ensures Agrees(n, spot2, f, e) { assert Agrees(m, spot, f, e); }
    }
    forall r: nat, va: nat | IsPage(spot2, r, va) ensures PageOk(n, rm, r, va) { assert PageOk(m, rm, r, va); }
  }

  /** A new address space in which nothing is mapped yet. */
  lemma NewSpaceKeeps(m: Mem, n: Mem, spot: map<nat, Spot>, spot2: map<nat, Spot>, rm: Rmap, p4: nat)
    requires Consistent(m, spot, rm) && SameView(m, n, spot) && forall r: nat :: Root(spot2, r) <==>
      Root(spot, r) || r == p4
    requires !Root(spot, p4) && forall va: nat :: va < LOW_END ==> Look(n, p4, 4, va) == None
    ensures Consistent(n, spot2, rm)
  {
    hide Look, Encode, FlagsOf, AddrOf, Root, Unrepeated;
    forall f | f in rm ensures FrameOk(n, spot2, rm, f) {
      assert FrameOk(m, spot, rm, f);
      forall e | e in rm[f] ensures Agrees(n, spot2, f, e) { assert Agrees(m, spot, f, e); }
    }
    forall r: nat, va: nat | IsPage(spot2, r, va) ensures PageOk(n, rm, r, va) {
      assert r != p4 ==> PageOk(m, rm, r, va);
    }
  }

  /** An address space without mappings is gone. */
  lemma SpaceGone(m: Mem, n: Mem, spot: map<nat, Spot>, spot2: map<nat, Spot>, rm: Rmap, p4: nat)
    requires Consistent(m, spot, rm) && SameView(m, n, spot2) && forall r: nat :: Root(spot2, r) <==>
      Root(spot, r) && r != p4
    requires forall va: nat :: va < LOW_END ==> Look(m, p4, 4, va) == None
    ensures Consistent(n, spot2, rm)
  {
    hide Look, Encode, FlagsOf, AddrOf, Root, Unrepeated;
    forall f | f in rm ensures FrameOk(n, spot2, rm, f) {
      assert FrameOk(m, spot, rm, f);
      forall e | e in rm[f] ensures Agrees(n, spot2, f, e) { assert Agrees(m, spot, f, e); }
    }
    forall r: nat, va: nat | IsPage(spot2, r, va) ensures PageOk(n, rm, r, va) { assert PageOk(m, rm, r, va); }
  }

  /** Nothing of the page is mapped. */
  ghost predicate Vacant(m: Mem, p4: nat, page: nat, level: nat) {
    forall va: nat :: va < LOW_END && va / Span(level) == page / Span(level) ==> Look(m, p4, 4, va) == None
  }

  /** Mapping a vacant page by an entry that is no 4K user entry needs no change. */
  lemma OtherKeeps(m: Mem, n: Mem, spot: map<nat, Spot>, rm: Rmap, p4: nat, page: nat, level: nat, to: Option<Mapping>)
    requires Consistent(m, spot, rm) && Vacant(m, p4, page, level) && Remapped(m, n, spot, p4, page, level, to)
    requires !UserLeaf(to)
    ensures Consistent(n, spot, rm)
  {
    hide Look, Encode, FlagsOf, AddrOf, Root, Unrepeated, Span;
    forall f | f in rm ensures FrameOk(n, spot, rm, f) {
      assert FrameOk(m, spot, rm, f);
      forall e | e in rm[f] ensures Agrees(n, spot, f, e) { assert Agrees(m, spot, f, e); }
    }
    forall r: nat, va: nat | IsPage(spot, r, va) ensures PageOk(n, rm, r, va) { assert PageOk(m, rm, r, va); }
  }

  /** Mapping a vacant page for the user and recording it. */
  lemma AddKeeps(m: Mem, n: Mem, spot: map<nat, Spot>, rm: Rmap, p4: nat, page: nat, f: nat, flags: Flags)
    requires Consistent(m, spot, rm) && Vacant(m, p4, page, 1) && IsPage(spot, p4, page) && Frame(f)
    requires USER_ACCESSIBLE in flags && HUGE_PAGE !in flags
    requires Remapped(m, n, spot, p4, page, 1, Some(Mapping(Encode(f, flags + {PRESENT}), 1)))
    ensures Consistent(n, spot, Added(rm, f, RmapEntry(p4, page, flags)))
  {
    hide Look, Encode, FlagsOf, AddrOf, Root;
    var rm2 := Added(rm, f, RmapEntry(p4, page, flags));
    Decode(f, flags + {PRESENT});
    forall g | g in rm2 ensures FrameOk(n, spot, rm2, g) {
      assert g in rm ==> FrameOk(m, spot, rm, g);
      forall e | e in Entries(rm, g) ensures Agrees(n, spot, g, e) && (e.p4 != p4 || e.vaddr != page) {
        assert Agrees(m, spot, g, e);
      }
    }
    forall r: nat, va: nat | IsPage(spot, r, va) ensures PageOk(n, rm2, r, va) {
      assert PageOk(m, rm, r, va);
      assert va / Span(1) == page / Span(1) ==> va == page;
      assert RmapEntry(p4, page, flags) in rm2[f];
      assert forall g, e :: e in Entries(rm, g) ==> e in Entries(rm2, g);
    }
  }

  /** Clearing a 4K page and forgetting it. */
  lemma RemoveKeeps(m: Mem, n: Mem, spot: map<nat, Spot>, rm: Rmap, p4: nat, page: nat)
    requires Consistent(m, spot, rm) && IsPage(spot, p4, page) && UserLeaf(Look(m, p4, 4, page))
    requires Remapped(m, n, spot, p4, page, 1, None)
    ensures Consistent(n, spot, Removed(rm, AddrOf(Look(m, p4, 4, page).value.entry), p4, page))
  {
    hide Look, Encode, FlagsOf, AddrOf, Root, Retain, Unrepeated;
    var f := AddrOf(Look(m, p4, 4, page).value.entry);
    var rm2 := Removed(rm, f, p4, page);
    assert PageOk(m, rm, p4, page);
    RetainMeaning(rm[f], p4, page);
    forall g | g in rm2 ensures FrameOk(n, spot, rm2, g) {
      assert FrameOk(m, spot, rm, g);
      forall e | e in rm2[g] ensures Agrees(n, spot, g, e) {
        assert Agrees(m, spot, g, e);
        Exact(m, spot, rm, g, p4, page);
        assert e.p4 == p4 && e.vaddr == page ==> Listed(Entries(rm, g), p4, page);
        assert e.vaddr / Span(1) == page / Span(1) ==> e.vaddr == page;
      }
    }
    forall r: nat, va: nat | IsPage(spot, r, va) ensures PageOk(n, rm2, r, va) {
      assert PageOk(m, rm, r, va);
    }
  }

  /** Clearing a page that is not a 4K user page needs no change. */
  lemma ClearKeeps(m: Mem, n: Mem, spot: map<nat, Spot>, rm: Rmap, p4: nat, page: nat, was: Mapping)
    requires Consistent(m, spot, rm) && !UserLeaf(Some(was)) && Remapped(m, n, spot, p4, page, was.level, None)
    requires forall va: nat :: va < LOW_END && va / Span(was.level) == page / Span(was.level) ==>
      Look(m, p4, 4, va) == Some(was)
    ensures Consistent(n, spot, rm)
  {
    hide Look, Encode, FlagsOf, AddrOf, Root, Unrepeated, Span;
    forall f | f in rm ensures FrameOk(n, spot, rm, f) {
      assert FrameOk(m, spot, rm, f);
      forall e | e in rm[f] ensures Agrees(n, spot, f, e) {
        assert Agrees(m, spot, f, e);
        Decode(f, e.flags + {PRESENT});
      }
    }
    forall r: nat, va: nat | IsPage(spot, r, va) ensures PageOk(n, rm, r, va) { assert PageOk(m, rm, r, va); }
  }
}
