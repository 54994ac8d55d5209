/** The areas of one address space. Inserting merges touching areas with equal flags and rejects
    overlaps; coverage queries walk the areas. */
module VmaTree {
  import opened AreaMerging
  import opened Areas
  import opened Basics
  import opened Options
  import opened Treap

  datatype VmaError = InvalidAccess

  class VmaTree {
    var root: Tree

    ghost function Contents(): seq<Area>
      reads this
    {
      InOrder(root)
    }

    ghost predicate Valid()
      reads this
    {
      Shaped(root) && GoodAreas(InOrder(root))
    }

    constructor ()
      ensures Valid() && Contents() == []
    {
      root := Nil;
    }

    /** First half of a round: reject on an overlapping predecessor, swallow a touching one. */
    method MergePrev(area: Area, ghost l: seq<Area>, ghost r: seq<Area>, ghost a: Area, ghost mL: bool, ghost mR: bool)
      returns (ok: bool, merged: bool, grown: Area, ghost nL: bool)
      requires Shaped(root) && Stage(l, r, a, mL, mR, InOrder(root), area)
      requires Settled(l, r, a, mL, mR) || (!mL && !mR)
      modifies this
      ensures !ok ==> root == old(root) && !mL && !mR && !ClearLeft(l, a) && !Settled(l, r, a, mL, mR)
      ensures ok ==> Shaped(root) && Stage(l, r, a, nL, mR, InOrder(root), grown)
      ensures ok ==> Settled(l, r, a, nL, mR) || HalfWay(l, r, a, nL, mR)
      ensures !merged ==> root == old(root) && nL == mL && grown == area
      ensures merged ==> nL && |InOrder(root)| < |old(InOrder(root))|
    {
      hide Shaped, GoodAreas, InOrder, Stage, Settled, Sorted, Cut, RemoveNode;
      merged, grown, nL := false, area, mL;
      StageGood(l, r, a, mL, mR, InOrder(root), area);
      var prev, pl, pr := FindPrev(root, area.start);
      PrevFacts(l, r, a, mL, mR, InOrder(root), area, pl, pr);
      if prev.Some? {
        if prev.value.end > area.start {
          return false, false, area, mL;
        }
        if prev.value.end == area.start && prev.value.flags == area.flags {
          RemovePrev(l, r, a, root);
          var (newRoot, _) := RemoveNode(root, prev.value.start);
          root := newRoot;
          grown := area.(start := prev.value.start);
          nL := true;
          merged := true;
        }
      }
      ok := true;
    }

    /** Second half of a round: reject on an overlapping successor, swallow a touching one. */
    method MergeNext(area: Area, ghost l: seq<Area>, ghost r: seq<Area>, ghost a: Area, ghost mL: bool, ghost mR: bool)
      returns (ok: bool, merged: bool, grown: Area, ghost nR: bool)
      requires Shaped(root) && Stage(l, r, a, mL, mR, InOrder(root), area)
      requires Settled(l, r, a, mL, mR) || HalfWay(l, r, a, mL, mR)
      modifies this
      ensures !ok ==> root == old(root) && HalfWay(l, r, a, mL, mR) && !ClearRight(r, a) && !Settled(l, r, a, mL, mR)
      ensures !ok ==> InOrder(root) == LeftPart(l, mL) + r
      ensures ok ==> Shaped(root) && Stage(l, r, a, mL, nR, InOrder(root), grown) && Settled(l, r, a, mL, nR)
      ensures !merged ==> root == old(root) && nR == mR && grown == area
      ensures merged ==> nR && |InOrder(root)| < |old(InOrder(root))|
    {
      hide Shaped, GoodAreas, InOrder, Stage, Settled, Sorted, Cut, RemoveNode;
      merged, grown, nR := false, area, mR;
      StageGood(l, r, a, mL, mR, InOrder(root), area);
      var next, nl, nr := FindNext(root, area.start);
      NextFacts(l, r, a, mL, mR, InOrder(root), area, nl, nr);
      if next.Some? {
        if next.value.start < area.end {
          return false, false, area, mR;
        }
        if next.value.start == area.end && next.value.flags == area.flags {
          RemoveNext(l, r, a, mL, root, area);
          var (newRoot, _) := RemoveNode(root, next.value.start);
          root := newRoot;
          grown := area.(end := next.value.end);
          nR := true;
          merged := true;
        }
      }
      ok := true;
    }

    /** Rounds of merging until nothing more merges. */
    method Settle(a: Area, ghost l: seq<Area>, ghost r: seq<Area>)
      returns (res: Result<Area, VmaError>, ghost mL: bool, ghost mR: bool)
      requires Shaped(root) && InOrder(root) == l + r && Stage(l, r, a, false, false, l + r, a)
      modifies this
      ensures Shaped(root)
      ensures res.Ok? ==> Stage(l, r, a, mL, mR, InOrder(root), res.value) && Settled(l, r, a, mL, mR)
      ensures res.Err? ==> Rejected(l + r, a, InOrder(root))
      ensures res.Err? && (forall p :: !Extends(l + r, a, p)) ==> root == old(root)
    {
      hide Shaped, InOrder, Stage, Settled, Rejected, Extends, ClearLeft, ClearRight;
      var area := a;
      mL, mR := false, false;
      while true
        invariant Shaped(root) && Stage(l, r, a, mL, mR, InOrder(root), area)
        invariant Settled(l, r, a, mL, mR) || (!mL && !mR && root == old(root))
        decreases |InOrder(root)|
      {
        var ok, mergedPrev, mergedNext;
        ok, mergedPrev, area, mL := MergePrev(area, l, r, a, mL, mR);
        if !ok {
          RejectBefore(l, r, a);
          return Err(InvalidAccess), mL, mR;
        }
        ok, mergedNext, area, mR := MergeNext(area, l, r, a, mL, mR);
        if !ok {
          RejectAfter(l, r, a, mL, InOrder(root));
          return Err(InvalidAccess), mL, mR;
        }
        if !mergedPrev && !mergedNext {
          break;
        }
      }
      return Ok(area), mL, mR;
    }

    /** Adds an area, growing it over touching neighbours with the same flags. A rejected insert
        leaves the tree alone, unless a predecessor it extends was already taken out. */
    method InsertArea(area0: Area) returns (res: Result<(), VmaError>)
      requires Valid() && area0.end < WORD
      modifies this
      ensures Valid()
      ensures res.Ok? <==> area0.start < area0.end && Free(old(Contents()), area0)
      ensures res.Ok? ==> exists m :: MergedInto(old(Contents()), area0, m, Contents())
      ensures res.Ok? ==> forall x, flags :: Maps(Contents(), x, flags) <==>
        if Holds(area0, x) then flags == area0.flags else Maps(old(Contents()), x, flags)
      ensures res.Err? && (area0.start >= area0.end || forall p :: !Extends(old(Contents()), area0, p)) ==>
        root == old(root)
      ensures res.Err? && area0.start < area0.end ==> Rejected(old(Contents()), area0, Contents())
    {
      hide Shaped, GoodAreas, InOrder, Stage, Settled, MergedInto, Extends, Free, Maps, InsertNode, NewNode;
      if area0.start >= area0.end {
        return Err(InvalidAccess);
      }
      ghost var l, r := FirstStage(InOrder(root), area0);
      var settled, mL, mR := Settle(area0, l, r);
      if settled.Err? {
        return Err(InvalidAccess);
      }
      Finish(old(InOrder(root)), l, r, area0, mL, mR, root, settled.value);
      root := InsertNode(root, NewNode(settled.value));
      assert MergedInto(old(Contents()), area0, settled.value, Contents());
      return Ok(());
    }

    /** Every address of [addr, addr + size) lies in an area that carries the required flags. */
    method CheckRange(addr: nat, size: nat, required: Flags) returns (ok: bool)
      requires Valid() && addr < WORD && size < WORD
      ensures ok <==> forall x :: addr <= x < addr + size ==> Allows(Contents(), x, required)
    {
      hide Shaped, GoodAreas, InOrder, Allows, Cut, Sorted;
      if size == 0 {
        return true;
      }
      GoodSortedAll(InOrder(root));
      var end := addr + size;
      if end >= WORD {
        TopUnmapped(InOrder(root), required);
        assert !Allows(Contents(), WORD - 1, required);
        return false;
      }
      var cur := addr;
      var area := FindContaining(root, cur);
      if area.None? {
        ghost var l, r;
        area, l, r := FindNext(root, cur);
        NextIsCandidate(InOrder(root), cur, l, r, None);
      } else {
        HolderIsCandidate(InOrder(root), cur, area.value);
      }
      while cur < end
        invariant addr <= cur <= end
        invariant forall x :: addr <= x < cur ==> Allows(InOrder(root), x, required)
        invariant cur < end ==> Candidate(InOrder(root), cur, area)
        decreases end - cur
      {
        CandidateFacts(InOrder(root), cur, area, required);
        if area.None? || area.value.start > cur || !(required <= area.value.flags) {
          assert !Allows(Contents(), cur, required);
          return false;
        }
        cur := if area.value.end < end then area.value.end else end;
        if cur < end {
          ghost var l, r;
          ghost var was := area;
          area, l, r := FindNext(root, cur);
          NextIsCandidate(InOrder(root), cur, l, r, was);
        }
      }
      return true;
    }
  }

  /** `area` is the only stored area that may hold `x`: it does, unless it starts above `x`. */
  ghost predicate Candidate(s: seq<Area>, x: int, area: Option<Area>) {
    && (area.Some? ==> area.value in s && (Holds(area.value, x) || x < area.value.start))
    && (forall a :: a in s && Holds(a, x) ==> area == Some(a))
  }

  lemma GoodSortedAll(s: seq<Area>)
    requires GoodAreas(s)
    ensures Sorted(s) && Ordered(s)
  {
    GoodSorted(s);
  }

  lemma TopUnmapped(s: seq<Area>, required: Flags)
    requires GoodAreas(s)
    ensures !Allows(s, WORD - 1, required)
  {
  }

  lemma HolderIsCandidate(s: seq<Area>, x: int, a: Area)
    requires Ordered(s) && a in s && Holds(a, x)
    ensures Candidate(s, x, Some(a))
  {
    forall b | b in s && Holds(b, x) ensures b == a {
      var i :| 0 <= i < |s| && s[i] == a;
      var j :| 0 <= j < |s| && s[j] == b;
    }
  }

  /** The first area from `x` on is the candidate if none holds `x` yet, or `x` is where one ends. */
  lemma NextIsCandidate(s: seq<Area>, x: int, l: seq<Area>, r: seq<Area>, ended: Option<Area>)
    requires GoodAreas(s) && Cut(s, x, l, r)
    requires if ended.Some? then ended.value in s && ended.value.end == x else forall a :: a in s ==> !Holds(a, x)
    ensures Candidate(s, x, First(r))
  {
    assert forall i :: 0 <= i < |l| ==> s[i] == l[i];
    assert forall i :: 0 <= i < |r| ==> s[|l| + i] == r[i];
    if r != [] { assert s[|l|] == r[0]; assert s[|l|].start < s[|l|].end; }
    forall a | a in s && Holds(a, x) ensures First(r) == Some(a) {
      var j :| 0 <= j < |s| && s[j] == a;
      if ended.Some? {
        var i :| 0 <= i < |s| && s[i] == ended.value;
        assert i < j;
        assert j >= |l|;
      }
    }
  }

  lemma CandidateFacts(s: seq<Area>, x: int, area: Option<Area>, required: Flags)
    requires Candidate(s, x, area) && Ordered(s)
    ensures area.Some? && area.value.start <= x ==> Holds(area.value, x)
    ensures Allows(s, x, required) <==> area.Some? && area.value.start <= x && required <= area.value.flags
    ensures area.Some? && area.value.start <= x && required <= area.value.flags ==>
      forall y :: x <= y < area.value.end ==> Allows(s, y, required)
  {
    if area.Some? && area.value.start <= x && required <= area.value.flags {
      var i :| 0 <= i < |s| && s[i] == area.value;
      assert forall y :: x <= y < area.value.end ==> Holds(s[i], y);
    }
  }

  /** The outcome of a rejected insert of `a` into `s`: it overlapped, and a predecessor it extends
      is gone. */
  ghost predicate Rejected(s: seq<Area>, a: Area, t: seq<Area>) {
    GoodAreas(t) && !Free(s, a) && forall p :: Extends(s, a, p) ==> Lost(s, p, t)
  }

  /** `t` is `s` without the entry `p`. */
  ghost predicate Lost(s: seq<Area>, p: Area, t: seq<Area>) {
    exists i :: 0 <= i < |s| && s[i] == p && t == s[..i] + s[i + 1..]
  }

  const FIRST: Area := Area(0x1000, 0x2000, {PRESENT}, Anonymous)
  const SECOND: Area := Area(0x3000, 0x4000, {WRITABLE}, Anonymous)
  const THIRD: Area := Area(0x2000, 0x3800, {PRESENT}, Anonymous)

  lemma RejectedThird(t: seq<Area>)
    ensures GoodAreas([FIRST, SECOND]) && !Free([FIRST, SECOND], THIRD)
    ensures Rejected([FIRST, SECOND], THIRD, t) ==> t == [SECOND]
  {
    var s := [FIRST, SECOND];
    assert SECOND in s && Overlap(THIRD, SECOND);
    assert Extends(s, THIRD, FIRST);
    if Rejected(s, THIRD, t) {
      assert Lost(s, FIRST, t);
      var i :| 0 <= i < |s| && s[i] == FIRST && t == s[..i] + s[i + 1..];
      assert i == 0;
    }
  }

  /** An insert that is rejected and yet loses an area: it extends the first of two areas and runs into the second. */
  method RejectionLoses() returns (tree: VmaTree, res: Result<(), VmaError>)
    ensures fresh(tree) && tree.Valid() && res.Err? && FIRST !in tree.Contents() && tree.Contents() == [SECOND]
  {
    hide Shaped, InOrder, GoodAreas, MergedInto, Maps, Free, Rejected;
    ghost var s := [FIRST, SECOND];
    RejectedThird([]);
    tree := new VmaTree();
    AreaFits(s, 0);
    assert s[..0] == [];
    res := tree.InsertArea(FIRST);
    ghost var m :| MergedInto(s[..0], FIRST, m, tree.Contents());
    StoredAsIs(s, 0, m, tree.Contents());
    AreaFits(s, 1);
    res := tree.InsertArea(SECOND);
    ghost var n :| MergedInto(s[..1], SECOND, n, tree.Contents());
    StoredAsIs(s, 1, n, tree.Contents());
    assert s[..2] == s;
    res := tree.InsertArea(THIRD);
    RejectedThird(tree.Contents());
  }

  lemma CutAt(s: seq<Area>, key: int) returns (l: seq<Area>, r: seq<Area>)
    requires Sorted(s)
    ensures Cut(s, key, l, r)
  {
    if s == [] {
      return [], [];
    }
    var n := |s| - 1;
    if s[n].start < key {
      return s, [];
    }
    l, r := CutAt(s[..n], key);
    assert s == s[..n] + [s[n]];
    assert StartsFrom([s[n]], key);
    Bounds(r, [s[n]], key);
    r := r + [s[n]];
  }

  lemma FirstStage(s: seq<Area>, a: Area) returns (l: seq<Area>, r: seq<Area>)
    requires GoodAreas(s) && a.start < a.end < WORD
    ensures s == l + r && Stage(l, r, a, false, false, s, a) && Stage(l, r, a, false, false, l + r, a)
  {
    GoodSorted(s);
    l, r := CutAt(s, a.start + 1);
  }

  /** Between the two searches of the first round. */
  ghost predicate HalfWay(l: seq<Area>, r: seq<Area>, a: Area, mL: bool, mR: bool) {
    !mR && ClearLeft(l, a) && (mL <==> TouchesLeft(l, a))
  }

  lemma PrevFacts(l: seq<Area>, r: seq<Area>, a: Area, mL: bool, mR: bool, s: seq<Area>, b: Area, pl: seq<Area>,
                  pr: seq<Area>)
    requires Stage(l, r, a, mL, mR, s, b) && Cut(s, b.start + 1, pl, pr)
    ensures pl == LeftPart(l, mL)
    ensures Settled(l, r, a, mL, mR) ==> ClearLeft(pl, b) && !TouchesLeft(pl, b)
    ensures !mL && !mR ==> b == a && pl == l && s == l + r && Stage(l, r, a, false, false, l + r, a)
    ensures Settled(l, r, a, mL, mR) ==> ClearLeft(l, a)
  {
    hide GoodAreas;
    LeftView(l, r, a, mL, mR, s, b);
    CutUnique(pl, pr, LeftPart(l, mL), RightPart(r, mR), b.start + 1);
    if Settled(l, r, a, mL, mR) { SettledView(l, r, a, mL, mR, s, b); }
  }

  lemma NextFacts(l: seq<Area>, r: seq<Area>, a: Area, mL: bool, mR: bool, s: seq<Area>, b: Area, nl: seq<Area>,
                  nr: seq<Area>)
    requires Stage(l, r, a, mL, mR, s, b) && Cut(s, b.start, nl, nr)
    requires Settled(l, r, a, mL, mR) || HalfWay(l, r, a, mL, mR)
    ensures nr == RightPart(r, mR) && s == LeftPart(l, mL) + nr
    ensures Settled(l, r, a, mL, mR) ==> ClearRight(nr, b) && !TouchesRight(nr, b)
    ensures !mR ==> nr == r && b.end == a.end && b.flags == a.flags
    ensures HalfWay(l, r, a, mL, mR) && ClearRight(r, a) ==>
      Settled(l, r, a, mL, TouchesRight(r, a))
  {
    hide GoodAreas;
    LeftView(l, r, a, mL, mR, s, b);
    CutUnique(nl, nr, LeftPart(l, mL), RightPart(r, mR), b.start);
    if Settled(l, r, a, mL, mR) { SettledView(l, r, a, mL, mR, s, b); }
  }

  lemma RemovePrev(l: seq<Area>, r: seq<Area>, a: Area, t: Tree)
    requires Shaped(t) && Stage(l, r, a, false, false, InOrder(t), a) && TouchesLeft(l, a)
    ensures var (u, _) := RemoveNode(t, l[|l| - 1].start);
      && Shaped(u) && InOrder(u) == LeftPart(l, true) + r && |InOrder(u)| < |InOrder(t)|
      && Stage(l, r, a, true, false, InOrder(u), a.(start := l[|l| - 1].start))
  {
    hide Shaped, InOrder, RemoveNode;
    StageGood(l, r, a, false, false, InOrder(t), a);
    SwallowLeft(l, r, a, false, InOrder(t), a);
    assert (l + r)[|l| - 1] == l[|l| - 1];
    RemoveMeaning(t, LeftPart(l, true), l[|l| - 1], r);
  }

  lemma RemoveNext(l: seq<Area>, r: seq<Area>, a: Area, mL: bool, t: Tree, b: Area)
    requires Shaped(t) && Stage(l, r, a, mL, false, InOrder(t), b) && TouchesRight(r, a)
    ensures var (u, _) := RemoveNode(t, r[0].start);
      && Shaped(u) && |InOrder(u)| < |InOrder(t)|
      && Stage(l, r, a, mL, true, InOrder(u), b.(end := r[0].end))
  {
    hide Shaped, InOrder, RemoveNode;
    StageGood(l, r, a, mL, false, InOrder(t), b);
    SwallowRight(l, r, a, mL, InOrder(t), b);
    assert (l + r)[|l|] == r[0];
    RemoveMeaning(t, LeftPart(l, mL), r[0], RightPart(r, true));
  }

  lemma RejectBefore(l: seq<Area>, r: seq<Area>, a: Area)
    requires Stage(l, r, a, false, false, l + r, a) && !ClearLeft(l, a)
    ensures Rejected(l + r, a, l + r)
  {
    RejectLeft(l, r, a);
  }

  lemma RejectAfter(l: seq<Area>, r: seq<Area>, a: Area, mL: bool, t: seq<Area>)
    requires Stage(l, r, a, false, false, l + r, a) && HalfWay(l, r, a, mL, false) && !ClearRight(r, a)
    requires t == LeftPart(l, mL) + r
    ensures Rejected(l + r, a, t)
    ensures mL ==> exists p :: Extends(l + r, a, p)
  {
    var s := l + r;
    hide GoodAreas, Stage, Lost, Extends, Free;
    RejectRight(l, r, a);
    StagePlain(l, r, a);
    if mL {
      DropLast(l, r);
      forall q | Extends(s, a, q) ensures q == l[|l| - 1] { ExtendsLast(l, r, a, q); }
    }
  }

  lemma StagePlain(l: seq<Area>, r: seq<Area>, a: Area)
    requires Stage(l, r, a, false, false, l + r, a)
    ensures GoodAreas(l + r)
  {
  }

  lemma ExtendsLast(l: seq<Area>, r: seq<Area>, a: Area, q: Area)
    requires Stage(l, r, a, false, false, l + r, a) && ClearLeft(l, a) && Extends(l + r, a, q)
    ensures l != [] && q == l[|l| - 1]
  {
    hide GoodAreas;
    var i :| 0 <= i < |l + r| && (l + r)[i] == q;
    StartsDiffer(l, r, a, i);
  }

  lemma DropLast(l: seq<Area>, r: seq<Area>)
    requires GoodAreas(l + r) && l != []
    ensures GoodAreas(LeftPart(l, true) + r) && Lost(l + r, l[|l| - 1], LeftPart(l, true) + r)
  {
    hide Separated;
    var s, m, n := l + r, LeftPart(l, true), |l| - 1;
    assert s[n] == l[n] && s[..n] == m && s[n + 1..] == r;
    assert n > 0 ==> m[n - 1] == s[n - 1];
    assert r != [] ==> r[0] == s[n + 1];
    Slices(s, n, n + 1);
    Join(m, r);
    JoinSeparated(m, r);
  }

  lemma Finish(s: seq<Area>, l: seq<Area>, r: seq<Area>, a: Area, mL: bool, mR: bool, t: Tree, b: Area)
    requires s == l + r && Shaped(t) && Stage(l, r, a, mL, mR, InOrder(t), b) && Settled(l, r, a, mL, mR)
    ensures var u := InsertNode(t, NewNode(b));
      && Shaped(u) && GoodAreas(InOrder(u)) && Free(s, a) && MergedInto(s, a, b, InOrder(u))
      && forall x, flags :: Maps(InOrder(u), x, flags) <==> if Holds(a, x) then flags == a.flags else Maps(s, x, flags)
  {
    hide Shaped, InOrder, InsertNode, GoodAreas, Maps, MergedInto, Free;
    var u := InsertNode(t, NewNode(b));
    StageGood(l, r, a, mL, mR, InOrder(t), b);
    LeftView(l, r, a, mL, mR, InOrder(t), b);
    InsertMeaning(t, b, LeftPart(l, mL), RightPart(r, mR));
    InsertedGood(l, r, a, mL, mR, InOrder(t), b);
    InsertedMerges(l, r, a, mL, mR, InOrder(t), b);
    forall x, flags
      ensures Maps(InOrder(u), x, flags) <==> if Holds(a, x) then flags == a.flags else Maps(s, x, flags)
    {
      InsertedMaps(l, r, a, mL, mR, InOrder(t), b, x, flags);
    }
  }
}
