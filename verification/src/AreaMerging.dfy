/** Inserting an area into an ordered sequence of areas, step by step: `l` are the stored areas that
    start at or below the new area, `r` those above; the last of `l` and the first of `r` may have been
    swallowed so far. */
module AreaMerging {
  import opened Areas
  import opened Basics
  import opened Treap

  /** `m` is the stored area that came out of inserting `a` into `s`; everything else was there. */
  ghost predicate MergedInto(s: seq<Area>, a: Area, m: Area, t: seq<Area>) {
    && m in t && m.start <= a.start && a.end <= m.end && m.flags == a.flags && m.backing == a.backing
    && (forall b :: b in t ==> b == m || b in s)
    && (forall b :: b in s ==> b in t || (m.start <= b.start && b.end <= m.end && b.flags == a.flags))
  }

  /** A predecessor that `a` extends: it ends where `a` starts, has its flags, and no stored area
      starts where `a` does. */
  ghost predicate Extends(s: seq<Area>, a: Area, p: Area) {
    p in s && p.end == a.start && p.flags == a.flags && forall b :: b in s ==> b.start != a.start
  }

  ghost predicate Free(s: seq<Area>, a: Area) {
    forall b :: b in s ==> !Overlap(a, b)
  }

  function LeftPart(l: seq<Area>, swallowed: bool): seq<Area> {
    if swallowed && l != [] then l[..|l| - 1] else l
  }

  function RightPart(r: seq<Area>, swallowed: bool): seq<Area> {
    if swallowed && r != [] then r[1..] else r
  }

  predicate TouchesLeft(l: seq<Area>, a: Area) {
    l != [] && l[|l| - 1].end == a.start && l[|l| - 1].flags == a.flags
  }

  predicate TouchesRight(r: seq<Area>, a: Area) {
    r != [] && r[0].start == a.end && r[0].flags == a.flags
  }

  function Grown(l: seq<Area>, r: seq<Area>, a: Area, mL: bool, mR: bool): Area {
    Area(if mL && l != [] then l[|l| - 1].start else a.start,
         if mR && r != [] then r[0].end else a.end, a.flags, a.backing)
  }

  /** `s` and `b` are what is left of the stored areas and what the new area has grown to. */
  ghost predicate Stage(l: seq<Area>, r: seq<Area>, a: Area, mL: bool, mR: bool, s: seq<Area>, b: Area) {
    && GoodAreas(l + r) && StartsBelow(l, a.start + 1) && StartsFrom(r, a.start + 1)
    && a.start < a.end < WORD
    && (mL ==> TouchesLeft(l, a)) && (mR ==> TouchesRight(r, a))
    && s == LeftPart(l, mL) + RightPart(r, mR) && b == Grown(l, r, a, mL, mR)
  }

  predicate ClearLeft(l: seq<Area>, a: Area) {
    l != [] ==> l[|l| - 1].end <= a.start
  }

  predicate ClearRight(r: seq<Area>, a: Area) {
    r != [] ==> a.end <= r[0].start
  }

  /** Nothing overlaps and whatever touches with equal flags has been swallowed. */
  ghost predicate Settled(l: seq<Area>, r: seq<Area>, a: Area, mL: bool, mR: bool) {
    && ClearLeft(l, a) && ClearRight(r, a)
    && (TouchesLeft(l, a) ==> mL) && (TouchesRight(r, a) ==> mR)
  }

  lemma GoodSorted(s: seq<Area>)
    requires Proper(s) && Ordered(s)
    ensures Sorted(s)
  {
    forall i, j | 0 <= i < j < |s| ensures s[i].start < s[j].start { assert s[i].start < s[i].end; }
  }

  /** Dropping a stretch from the middle keeps the order. */
  lemma SkipMiddle(g: seq<Area>, k: nat, d: nat)
    requires Proper(g) && Ordered(g) && k + d <= |g|
    ensures Proper(g[..k] + g[k + d..]) && Ordered(g[..k] + g[k + d..])
  {
    var s := g[..k] + g[k + d..];
    forall i | 0 <= i < |s| ensures s[i] == g[if i < k then i else i + d] {}
    forall i, j | 0 <= i < j < |s| ensures s[i].end <= s[j].start {
      assert s[i] == g[if i < k then i else i + d] && s[j] == g[if j < k then j else j + d];
    }
  }

  lemma StageGood(l: seq<Area>, r: seq<Area>, a: Area, mL: bool, mR: bool, s: seq<Area>, b: Area)
    requires Stage(l, r, a, mL, mR, s, b)
    ensures Proper(s) && Ordered(s) && Sorted(s)
  {
    hide Proper, Ordered, Sorted, Separated, StartsBelow, StartsFrom;
    var p, q := LeftPart(l, mL), RightPart(r, mR);
    assert (l + r)[..|p|] == p && (l + r)[|l| + |r| - |q|..] == q;
    SkipMiddle(l + r, |p|, |l| + |r| - |q| - |p|);
    GoodSorted(s);
  }

  /** What a search at the start of the grown area sees. */
  lemma LeftView(l: seq<Area>, r: seq<Area>, a: Area, mL: bool, mR: bool, s: seq<Area>, b: Area)
    requires Stage(l, r, a, mL, mR, s, b)
    ensures Cut(s, b.start + 1, LeftPart(l, mL), RightPart(r, mR))
    ensures b.start <= a.start && a.end <= b.end
    ensures ClearLeft(l, a) ==> Cut(s, b.start, LeftPart(l, mL), RightPart(r, mR))
  {
    LeftBelow(l, r, a, mL, mR, s, b);
    var q := RightPart(r, mR);
    assert forall i :: 0 <= i < |q| ==> q[i] == r[|r| - |q| + i];
    if r != [] { FirstProper(l, r); }
  }

  lemma LeftBelow(l: seq<Area>, r: seq<Area>, a: Area, mL: bool, mR: bool, s: seq<Area>, b: Area)
    requires Stage(l, r, a, mL, mR, s, b)
    ensures b.start <= a.start && StartsBelow(LeftPart(l, mL), b.start + 1)
    ensures ClearLeft(l, a) ==> StartsBelow(LeftPart(l, mL), b.start)
  {
    var g, p := l + r, LeftPart(l, mL);
    GoodSorted(g);
    forall i | 0 <= i < |p| ensures p[i].start < b.start + 1 && (ClearLeft(l, a) ==> p[i].start < b.start) {
      assert p[i] == g[i] && g[|l| - 1] == l[|l| - 1];
      assert g[|l| - 1].start < g[|l| - 1].end;
      assert i < |l| - 1 ==> g[i].start < g[|l| - 1].start;
    }
  }

  /** Once settled, the remaining neighbours neither overlap nor merge. */
  lemma SettledView(l: seq<Area>, r: seq<Area>, a: Area, mL: bool, mR: bool, s: seq<Area>, b: Area)
    requires Stage(l, r, a, mL, mR, s, b) && Settled(l, r, a, mL, mR)
    ensures ClearLeft(LeftPart(l, mL), b) && !TouchesLeft(LeftPart(l, mL), b)
    ensures ClearRight(RightPart(r, mR), b) && !TouchesRight(RightPart(r, mR), b)
  {
    var g, n := l + r, |l|;
    if mL && n > 1 { assert g[n - 2] == l[n - 2] && g[n - 1] == l[n - 1]; }
    if mR && |r| > 1 { assert g[n] == r[0] && g[n + 1] == r[1]; }
  }

  lemma SwallowLeft(l: seq<Area>, r: seq<Area>, a: Area, mR: bool, s: seq<Area>, b: Area)
    requires Stage(l, r, a, false, mR, s, b) && TouchesLeft(l, a)
    ensures var p := l[|l| - 1]; var m := LeftPart(l, true);
      && s == m + [p] + RightPart(r, mR)
      && Stage(l, r, a, true, mR, m + RightPart(r, mR), b.(start := p.start))
  {
    assert l == l[..|l| - 1] + [l[|l| - 1]];
  }

  lemma SwallowRight(l: seq<Area>, r: seq<Area>, a: Area, mL: bool, s: seq<Area>, b: Area)
    requires Stage(l, r, a, mL, false, s, b) && TouchesRight(r, a)
    ensures var p := r[0]; var m := RightPart(r, true);
      && s == LeftPart(l, mL) + [p] + m
      && Stage(l, r, a, mL, true, LeftPart(l, mL) + m, b.(end := p.end))
  {
    assert LeftPart(l, mL) + r == LeftPart(l, mL) + [r[0]] + r[1..];
  }

  /** The predecessor overlaps: the insert is rejected before anything is touched. */
  lemma RejectLeft(l: seq<Area>, r: seq<Area>, a: Area)
    requires Stage(l, r, a, false, false, l + r, a) && !ClearLeft(l, a)
    ensures !Free(l + r, a) && forall p :: !Extends(l + r, a, p)
  {
    var g, q := l + r, l[|l| - 1];
    assert q == g[|l| - 1];
    assert q in g;
    forall p | p in g && p.end == a.start ensures exists b :: b in g && b.start == a.start {
      var i :| 0 <= i < |g| && g[i] == p;
      assert forall k :: |l| <= k < |g| ==> g[k] == r[k - |l|];
      assert g[i].end <= q.start;
    }
  }

  lemma StartsDiffer(l: seq<Area>, r: seq<Area>, a: Area, i: nat)
    requires Stage(l, r, a, false, false, l + r, a) && ClearLeft(l, a) && i < |l + r|
    ensures (l + r)[i].start != a.start
    ensures (l + r)[i].end == a.start ==> i == |l| - 1
  {
    var g := l + r;
    if i < |l| {
      assert g[i] == l[i] && g[|l| - 1] == l[|l| - 1];
      assert g[i].start < g[i].end && g[|l| - 1].start < g[|l| - 1].end;
    } else {
      assert g[i] == r[i - |l|];
      assert g[i].start < g[i].end;
    }
  }

  /** The successor overlaps: the insert is rejected, after a predecessor it extends was dropped. */
  lemma RejectRight(l: seq<Area>, r: seq<Area>, a: Area)
    requires Stage(l, r, a, false, false, l + r, a) && ClearLeft(l, a) && !ClearRight(r, a)
    ensures !Free(l + r, a)
    ensures TouchesLeft(l, a) ==> Extends(l + r, a, l[|l| - 1])
    ensures !TouchesLeft(l, a) ==> forall p :: !Extends(l + r, a, p)
  {
    hide GoodAreas;
    var g := l + r;
    assert g[|l|] == r[0];
    assert Overlap(a, r[0]) && r[0] in g by { assert StartsFrom(r, a.start + 1); FirstProper(l, r); }
    forall b | b in g ensures b.start != a.start && (b.end == a.start ==> l != [] && b == l[|l| - 1]) {
      var i :| 0 <= i < |g| && g[i] == b;
      StartsDiffer(l, r, a, i);
    }
    if l != [] { assert g[|l| - 1] == l[|l| - 1]; assert l[|l| - 1] in g; }
  }

  lemma FirstProper(l: seq<Area>, r: seq<Area>)
    requires GoodAreas(l + r) && r != []
    ensures r[0].start < r[0].end
  {
    assert (l + r)[|l|] == r[0];
  }

  /** The stored areas after the insert. */
  function Inserted(l: seq<Area>, r: seq<Area>, a: Area, mL: bool, mR: bool): seq<Area> {
    LeftPart(l, mL) + [Grown(l, r, a, mL, mR)] + RightPart(r, mR)
  }

  lemma Join(x: seq<Area>, y: seq<Area>)
    requires Proper(x) && Proper(y) && Ordered(x) && Ordered(y)
    requires x != [] && y != [] ==> x[|x| - 1].end <= y[0].start
    ensures Proper(x + y) && Ordered(x + y)
  {
    forall i, j | 0 <= i < j < |x + y| ensures (x + y)[i].end <= (x + y)[j].start {
      if i < |x| <= j {
        assert i < |x| - 1 ==> x[i].end <= x[|x| - 1].start < x[|x| - 1].end;
        assert j > |x| ==> y[0].start < y[0].end <= y[j - |x|].start;
      }
    }
  }

  lemma JoinSeparated(x: seq<Area>, y: seq<Area>)
    requires Separated(x) && Separated(y)
    requires y != [] ==> !TouchesLeft(x, y[0])
    ensures Separated(x + y)
  {
    var s := x + y;
    forall i | 0 < i < |s| && s[i - 1].end == s[i].start ensures s[i - 1].flags != s[i].flags {
      if i < |x| {
        assert s[i] == x[i] && s[i - 1] == x[i - 1];
      } else if i > |x| {
        assert s[i] == y[i - |x|] && s[i - 1] == y[i - |x| - 1];
      }
    }
  }

  lemma Slices(g: seq<Area>, i: nat, j: nat)
    requires GoodAreas(g) && i <= j <= |g|
    ensures GoodAreas(g[..i]) && GoodAreas(g[j..])
  {
    assert forall k :: 0 <= k < |g| - j ==> g[j..][k] == g[j + k];
  }

  /** An area that touches neither neighbour fits between two good sequences. */
  lemma Between(p: seq<Area>, b: Area, q: seq<Area>)
    requires GoodAreas(p) && GoodAreas(q) && b.start < b.end < WORD
    requires ClearLeft(p, b) && !TouchesLeft(p, b) && ClearRight(q, b) && !TouchesRight(q, b)
    ensures GoodAreas(p + [b] + q)
  {
    hide Proper, Ordered, Separated;
    One(b);
    Join(p, [b]);
    Join(p + [b], q);
    JoinSeparated(p, [b]);
    JoinSeparated(p + [b], q);
  }

  /** Around the grown area everything keeps its distance. */
  lemma InsertedGood(l: seq<Area>, r: seq<Area>, a: Area, mL: bool, mR: bool, s: seq<Area>, b: Area)
    requires Stage(l, r, a, mL, mR, s, b) && Settled(l, r, a, mL, mR)
    ensures GoodAreas(Inserted(l, r, a, mL, mR))
  {
    hide GoodAreas, StartsBelow, StartsFrom, ClearLeft, ClearRight, TouchesLeft, TouchesRight;
    var p, q := LeftPart(l, mL), RightPart(r, mR);
    StageSlices(l, r, mL, mR);
    SettledView(l, r, a, mL, mR, s, b);
    LeftView(l, r, a, mL, mR, s, b);
    StageEnd(l, r, a, mL, mR, s, b);
    Between(p, b, q);
  }

  lemma StageSlices(l: seq<Area>, r: seq<Area>, mL: bool, mR: bool)
    requires GoodAreas(l + r)
    ensures GoodAreas(LeftPart(l, mL)) && GoodAreas(RightPart(r, mR))
  {
    hide GoodAreas;
    var p, q := LeftPart(l, mL), RightPart(r, mR);
    assert (l + r)[..|p|] == p && (l + r)[|l| + |r| - |q|..] == q;
    Slices(l + r, |p|, |l| + |r| - |q|);
  }

  lemma StageEnd(l: seq<Area>, r: seq<Area>, a: Area, mL: bool, mR: bool, s: seq<Area>, b: Area)
    requires Stage(l, r, a, mL, mR, s, b)
    ensures b.end < WORD
  {
    hide Ordered, Separated, Proper, StartsBelow, StartsFrom;
    if mR { ProperAt(l, r); }
  }

  lemma ProperAt(l: seq<Area>, r: seq<Area>)
    requires Proper(l + r) && r != []
    ensures r[0].start < r[0].end < WORD
  {
    assert (l + r)[|l|] == r[0];
  }

  lemma One(b: Area)
    requires b.start < b.end < WORD
    ensures GoodAreas([b])
  {
  }

  /** Membership before and after. */
  lemma Members(l: seq<Area>, r: seq<Area>, a: Area, mL: bool, mR: bool)
    requires (mL ==> l != []) && (mR ==> r != [])
    ensures forall c :: c in l + r <==>
      c in LeftPart(l, mL) || c in RightPart(r, mR) || (mL && c == l[|l| - 1]) || (mR && c == r[0])
    ensures forall c :: c in Inserted(l, r, a, mL, mR) <==>
      c in LeftPart(l, mL) || c in RightPart(r, mR) || c == Grown(l, r, a, mL, mR)
  {
    assert mL ==> l == LeftPart(l, mL) + [l[|l| - 1]];
    assert mR ==> r == [r[0]] + RightPart(r, mR);
  }

  lemma InsertedMerges(l: seq<Area>, r: seq<Area>, a: Area, mL: bool, mR: bool, s: seq<Area>, b: Area)
    requires Stage(l, r, a, mL, mR, s, b) && Settled(l, r, a, mL, mR)
    ensures Free(l + r, a) && MergedInto(l + r, a, b, Inserted(l, r, a, mL, mR))
  {
    var g, t := l + r, Inserted(l, r, a, mL, mR);
    Members(l, r, a, mL, mR);
    InsertedGood(l, r, a, mL, mR, s, b);
    LeftView(l, r, a, mL, mR, s, b);
    if l != [] { assert l[|l| - 1] == g[|l| - 1]; }
    if r != [] { FirstProper(l, r); }
    forall c | c in g ensures !Overlap(a, c) {
      if c in LeftPart(l, mL) || c in RightPart(r, mR) { OthersClear(LeftPart(l, mL), b, RightPart(r, mR), c); }
    }
  }

  lemma OthersClear(p: seq<Area>, b: Area, q: seq<Area>, c: Area)
    requires Ordered(p + [b] + q) && (c in p || c in q)
    ensures !Overlap(b, c)
  {
    var t := p + [b] + q;
    assert t[|p|] == b;
    if c in p {
      var i :| 0 <= i < |p| && p[i] == c;
      assert t[i] == c;
    } else {
      var i :| 0 <= i < |q| && q[i] == c;
      assert t[|p| + 1 + i] == c;
    }
  }

  lemma MapsIn(s: seq<Area>, x: int, flags: Flags)
    ensures Maps(s, x, flags) <==> exists c :: c in s && Holds(c, x) && c.flags == flags
  {
    if c :| c in s && Holds(c, x) && c.flags == flags {
      var i :| 0 <= i < |s| && s[i] == c;
    }
  }

  /** The address-to-flags map afterwards is the old one plus the new range. */
  lemma InsertedMaps(l: seq<Area>, r: seq<Area>, a: Area, mL: bool, mR: bool, s: seq<Area>, b: Area, x: int,
                     flags: Flags)
    requires Stage(l, r, a, mL, mR, s, b) && Settled(l, r, a, mL, mR)
    ensures Maps(Inserted(l, r, a, mL, mR), x, flags) <==>
      if Holds(a, x) then flags == a.flags else Maps(l + r, x, flags)
  {
    hide GoodAreas;
    var t := Inserted(l, r, a, mL, mR);
    MapsIn(t, x, flags);
    MapsIn(l + r, x, flags);
    Members(l, r, a, mL, mR);
    InsertedGood(l, r, a, mL, mR, s, b);
    LeftView(l, r, a, mL, mR, s, b);
    assert b in t;
    forall c | c in t && Holds(c, x) && Holds(a, x) ensures c == b {
      if c in LeftPart(l, mL) || c in RightPart(r, mR) {
        assert Ordered(LeftPart(l, mL) + [b] + RightPart(r, mR)) by { GoodOrdered(t); }
        OthersClear(LeftPart(l, mL), b, RightPart(r, mR), c);
      }
    }
  }

  lemma GoodOrdered(s: seq<Area>)
    requires GoodAreas(s)
    ensures Ordered(s)
  {
  }

  /** Just before and just after an area nothing of the same kind is stored below it. */
  lemma NothingAlike(s: seq<Area>, i: nat)
    requires GoodAreas(s) && i < |s|
    ensures !Maps(s[..i], s[i].start - 1, s[i].flags) && !Maps(s[..i], s[i].end, s[i].flags)
  {
    forall j | 0 <= j < i ensures s[j].end <= s[i].start && (j < i - 1 ==> s[j].end < s[i].start) {
      assert j < i - 1 ==> s[j].end <= s[i - 1].start < s[i - 1].end <= s[i].start;
    }
  }

  lemma HeldMaps(t: seq<Area>, m: Area, x: int)
    requires m in t
    ensures Holds(m, x) ==> Maps(t, x, m.flags)
  {
    var k :| 0 <= k < |t| && t[k] == m;
  }

  /** An area that overlaps and touches nothing alike is stored as it is. */
  lemma StoredAsIs(s: seq<Area>, i: nat, m: Area, t: seq<Area>)
    requires GoodAreas(s) && i < |s| && GoodAreas(t) && MergedInto(s[..i], s[i], m, t)
    requires forall x, flags :: Maps(t, x, flags) <==>
      if Holds(s[i], x) then flags == s[i].flags else Maps(s[..i], x, flags)
    ensures t == s[..i + 1]
  {
    var a := s[i];
    assert m == a by {
      hide Maps;
      NothingAlike(s, i);
      HeldMaps(t, m, a.start - 1);
      HeldMaps(t, m, a.end);
    }
    StoredSame(s, i, t);
  }

  lemma StoredSame(s: seq<Area>, i: nat, t: seq<Area>)
    requires GoodAreas(s) && i < |s| && GoodAreas(t) && MergedInto(s[..i], s[i], s[i], t)
    ensures t == s[..i + 1]
  {
    var a := s[i];
    GoodSorted(s);
    GoodSorted(t);
    forall b ensures b in t <==> b in s[..i + 1] {
      assert s[..i + 1] == s[..i] + [a];
      if b in s[..i] {
        var j :| 0 <= j < i && s[j] == b;
        assert b.start < b.end <= a.start;
      }
    }
    SameElements(t, s[..i + 1]);
  }

  lemma AreaFits(s: seq<Area>, i: nat)
    requires GoodAreas(s) && i < |s|
    ensures s[i].start < s[i].end < WORD && Free(s[..i], s[i])
  {
  }
}
