/** The interval tree behind an address space: a treap keyed by area start, with the largest end of
    every subtree cached in `maxEnd`. Its meaning is the in-order sequence of its areas. */
module Treap {
  import opened Areas
  import opened Basics
  import opened Options
  import opened SplitMix

  datatype Tree = Nil | Node(key: nat, area: Area, maxEnd: nat, prio: nat, left: Tree, right: Tree)

  function NewNode(area: Area): (t: Tree)
    ensures t.Node?
  {
    Node(area.start, area, area.end, SplitMix64(area.start), Nil, Nil)
  }

  function Recalc(t: Tree): Tree
    requires t.Node?
  {
    var m := t.area.end;
    var m := if t.left.Node? then Greatest(m, t.left.maxEnd) else m;
    var m := if t.right.Node? then Greatest(m, t.right.maxEnd) else m;
    t.(maxEnd := m)
  }

  function Merge(a: Tree, b: Tree): Tree {
    if a.Nil? then b
    else if b.Nil? then a
    else if a.prio >= b.prio then Recalc(a.(right := Merge(a.right, b)))
    else Recalc(b.(left := Merge(a, b.left)))
  }

  function Split(t: Tree, key: nat): (Tree, Tree) {
    match t
    case Nil => (Nil, Nil)
    case Node(k, _, _, _, left, right) =>
      if key <= k then
        var (l, r) := Split(left, key);
        (l, Recalc(t.(left := r)))
      else
        var (l, r) := Split(right, key);
        (Recalc(t.(right := l)), r)
  }

  function InsertNode(t: Tree, node: Tree): Tree
    requires node.Node?
  {
    if t.Nil? then node else
    var (l, r) := Split(t, node.key);
    Merge(Merge(l, node), r)
  }

  function RemoveNode(t: Tree, key: nat): (Tree, Option<Area>) {
    var (l, r) := Split(t, key);
    if key == WORD - 1 then
      (l, if r.Node? then Some(r.area) else None)
    else
      var (mid, r2) := Split(r, key + 1);
      (Merge(l, r2), if mid.Node? then Some(mid.area) else None)
  }

  function InOrder(t: Tree): seq<Area> {
    match t
    case Nil => []
    case Node(_, area, _, _, left, right) => InOrder(left) + [area] + InOrder(right)
  }

  /** -1 for the empty tree, else the priority of the root. */
  function Top(t: Tree): int {
    if t.Nil? then -1 else t.prio
  }

  /** Keys are starts, priorities are mixed keys, priorities fall from the root, `maxEnd` is exact. */
  predicate Shaped(t: Tree) {
    t.Node? ==>
      && t.key == t.area.start && t.prio == SplitMix64(t.key)
      && Top(t.left) <= t.prio && Top(t.right) <= t.prio
      && t == Recalc(t)
      && Shaped(t.left) && Shaped(t.right)
  }

  predicate StartsBelow(s: seq<Area>, key: int) {
    forall i :: 0 <= i < |s| ==> s[i].start < key
  }

  predicate StartsFrom(s: seq<Area>, key: int) {
    forall i :: 0 <= i < |s| ==> key <= s[i].start
  }

  ghost predicate Sorted(s: seq<Area>) {
    forall i, j :: 0 <= i < j < |s| ==> s[i].start < s[j].start
  }

  lemma RebuildLeft(t: Tree, x: Tree)
    requires t.Node? && Shaped(t) && Shaped(x) && Top(x) <= t.prio
    ensures var u := Recalc(t.(left := x));
      Shaped(u) && u.prio == t.prio && InOrder(u) == InOrder(x) + ([t.area] + InOrder(t.right))
  {
    hide SplitMix64;
    RecalcFacts(t.(left := x));
    Assoc(InOrder(x), [t.area], InOrder(t.right));
  }

  lemma RebuildRight(t: Tree, x: Tree)
    requires t.Node? && Shaped(t) && Shaped(x) && Top(x) <= t.prio
    ensures var u := Recalc(t.(right := x));
      Shaped(u) && u.prio == t.prio && InOrder(u) == (InOrder(t.left) + [t.area]) + InOrder(x)
  {
    hide SplitMix64;
    RecalcFacts(t.(right := x));
  }

  lemma RecalcFacts(t: Tree)
    requires t.Node?
    ensures var u := Recalc(t);
      && u.Node? && u.key == t.key && u.area == t.area && u.prio == t.prio
      && u.left == t.left && u.right == t.right && Recalc(u) == u
  {
  }

  lemma {:induction false} MergeMeaning(a: Tree, b: Tree)
    requires Shaped(a) && Shaped(b)
    ensures Shaped(Merge(a, b)) && InOrder(Merge(a, b)) == InOrder(a) + InOrder(b)
    ensures Top(Merge(a, b)) <= if Top(a) >= Top(b) then Top(a) else Top(b)
  {
    hide SplitMix64, Recalc;
    if a.Node? && b.Node? {
      if a.prio >= b.prio {
        MergeMeaning(a.right, b);
        RebuildRight(a, Merge(a.right, b));
        Assoc(InOrder(a.left) + [a.area], InOrder(a.right), InOrder(b));
      } else {
        MergeMeaning(a, b.left);
        RebuildLeft(b, Merge(a, b.left));
        Assoc(InOrder(a), InOrder(b.left), [b.area] + InOrder(b.right));
        Assoc(InOrder(b.left), [b.area], InOrder(b.right));
      }
    }
  }

  lemma Assoc(a: seq<Area>, b: seq<Area>, c: seq<Area>)
    ensures (a + b) + c == a + (b + c)
  {
  }

  lemma {:induction false} SplitMeaning(t: Tree, key: nat)
    requires Shaped(t) && Sorted(InOrder(t))
    ensures var (l, r) := Split(t, key);
      && Shaped(l) && Shaped(r) && Top(l) <= Top(t) && Top(r) <= Top(t)
      && InOrder(t) == InOrder(l) + InOrder(r)
      && StartsBelow(InOrder(l), key) && StartsFrom(InOrder(r), key)
  {
    hide SplitMix64, Recalc, Sorted, StartsBelow, StartsFrom;
    if t.Nil? {
      Bounds([], [], key);
    } else {
      SortedParts(InOrder(t.left), t.area, InOrder(t.right));
      if key <= t.key {
        SplitMeaning(t.left, key);
        var (l, r) := Split(t.left, key);
        RebuildLeft(t, r);
        Bounds(InOrder(r), [t.area] + InOrder(t.right), key);
        Above(t.area, InOrder(t.right), key);
        Assoc(InOrder(l), InOrder(r), [t.area] + InOrder(t.right));
        Assoc(InOrder(t.left), [t.area], InOrder(t.right));
      } else {
        SplitMeaning(t.right, key);
        var (l, r) := Split(t.right, key);
        RebuildRight(t, l);
        Bounds(InOrder(t.left) + [t.area], InOrder(l), key);
        Below(InOrder(t.left), t.area, key);
        Assoc(InOrder(t.left) + [t.area], InOrder(l), InOrder(r));
      }
    }
  }

  lemma Bounds(a: seq<Area>, b: seq<Area>, key: int)
    ensures StartsBelow(a, key) && StartsBelow(b, key) ==> StartsBelow(a + b, key)
    ensures StartsFrom(a, key) && StartsFrom(b, key) ==> StartsFrom(a + b, key)
    ensures StartsBelow([], key) && StartsFrom([], key)
  {
  }

  lemma Above(a: Area, r: seq<Area>, key: int)
    requires key <= a.start && StartsFrom(r, a.start + 1)
    ensures StartsFrom([a] + r, key)
  {
  }

  lemma Below(l: seq<Area>, a: Area, key: int)
    requires a.start < key && StartsBelow(l, a.start)
    ensures StartsBelow(l + [a], key)
  {
  }

  lemma SortedParts(l: seq<Area>, a: Area, r: seq<Area>)
    requires Sorted(l + [a] + r)
    ensures Sorted(l) && Sorted(r) && StartsBelow(l, a.start) && StartsFrom(r, a.start + 1)
  {
    var s := l + [a] + r;
    assert forall i :: 0 <= i < |l| ==> l[i] == s[i];
    assert s[|l|] == a;
    assert forall i :: 0 <= i < |r| ==> r[i] == s[|l| + 1 + i];
  }

  /** A sorted sequence is cut at a key in one way only. */
  lemma CutUnique(a: seq<Area>, b: seq<Area>, c: seq<Area>, d: seq<Area>, key: int)
    requires a + b == c + d
    requires StartsBelow(a, key) && StartsFrom(b, key) && StartsBelow(c, key) && StartsFrom(d, key)
    ensures a == c && b == d
  {
    var s := a + b;
    assert forall i :: 0 <= i < |s| ==> (i < |a| <==> s[i].start < key);
    assert forall i :: 0 <= i < |s| ==> s[i] == (c + d)[i];
    assert forall i :: 0 <= i < |s| ==> (i < |c| <==> s[i].start < key);
    assert |a| < |s| ==> !(s[|a|].start < key);
    assert |c| < |s| ==> !(s[|c|].start < key);
    assert a == s[..|a|] && c == s[..|c|];
  }

  lemma NewNodeShaped(area: Area)
    ensures Shaped(NewNode(area)) && InOrder(NewNode(area)) == [area]
  {
  }

  /** Inserting puts the area between those that start below it and those that start above it. */
  lemma InsertMeaning(t: Tree, area: Area, l: seq<Area>, r: seq<Area>)
    requires Shaped(t) && Sorted(InOrder(t)) && InOrder(t) == l + r
    requires StartsBelow(l, area.start) && StartsFrom(r, area.start)
    ensures var u := InsertNode(t, NewNode(area)); Shaped(u) && InOrder(u) == l + [area] + r
  {
    hide Shaped, InOrder, Sorted, StartsBelow, StartsFrom, Merge, Split, SplitMix64;
    NewNodeShaped(area);
    if t.Nil? {
      assert InOrder(t) == [] by { NilInOrder(t); }
      assert l == [] && r == [];
    } else {
      SplitMeaning(t, area.start);
      var (a, b) := Split(t, area.start);
      CutUnique(InOrder(a), InOrder(b), l, r, area.start);
      MergeMeaning(a, NewNode(area));
      MergeMeaning(Merge(a, NewNode(area)), b);
    }
  }

  lemma NilInOrder(t: Tree)
    ensures t.Nil? ==> InOrder(t) == []
  {
  }

  /** Removing by key takes out exactly the area that starts there. */
  lemma RemoveMeaning(t: Tree, l: seq<Area>, area: Area, r: seq<Area>)
    requires Shaped(t) && Sorted(InOrder(t)) && InOrder(t) == l + [area] + r && area.start < WORD - 1
    ensures var (u, found) := RemoveNode(t, area.start); Shaped(u) && InOrder(u) == l + r && found == Some(area)
  {
    hide Shaped, InOrder, Sorted, StartsBelow, StartsFrom, Merge, Split, SplitMix64;
    var key := area.start;
    SortedParts(l, area, r);
    SplitMeaning(t, key);
    var (a, b) := Split(t, key);
    Above(area, r, key);
    Assoc(l, [area], r);
    CutUnique(InOrder(a), InOrder(b), l, [area] + r, key);
    SortedTail(area, r);
    SplitMeaning(b, key + 1);
    var (mid, c) := Split(b, key + 1);
    Single(area, key + 1);
    CutUnique(InOrder(mid), InOrder(c), [area], r, key + 1);
    MergeMeaning(a, c);
    SingleTree(mid, area);
  }

  /** Where no area starts, nothing is removed. */
  lemma RemoveMissing(t: Tree, key: nat)
    requires Shaped(t) && Sorted(InOrder(t)) && key < WORD - 1 && forall a :: a in InOrder(t) ==> a.start != key
    ensures var (u, found) := RemoveNode(t, key); Shaped(u) && InOrder(u) == InOrder(t) && found == None
  {
    hide Shaped, InOrder, Sorted, Merge, Split, SplitMix64;
    SplitMeaning(t, key);
    var (a, b) := Split(t, key);
    SortedHalves(InOrder(a), InOrder(b));
    SplitMeaning(b, key + 1);
    var (mid, c) := Split(b, key + 1);
    NothingAt(InOrder(a), InOrder(b), InOrder(mid), InOrder(c), key);
    EmptyTree(mid);
    MergeMeaning(a, c);
  }

  lemma SortedHalves(a: seq<Area>, b: seq<Area>)
    requires Sorted(a + b)
    ensures Sorted(a) && Sorted(b)
  {
    forall i, j | 0 <= i < j < |a| ensures a[i].start < a[j].start { assert (a + b)[i].start < (a + b)[j].start; }
    forall i, j | 0 <= i < j < |b| ensures b[i].start < b[j].start {
      assert (a + b)[|a| + i].start < (a + b)[|a| + j].start;
    }
  }

  lemma NothingAt(a: seq<Area>, b: seq<Area>, mid: seq<Area>, c: seq<Area>, key: int)
    requires b == mid + c && StartsBelow(a, key) && StartsFrom(b, key) && StartsBelow(mid, key + 1)
    requires forall x :: x in a + b ==> x.start != key
    ensures mid == [] && c == b && StartsFrom(c, key + 1)
  {
    forall i | 0 <= i < |b| ensures b[i].start != key { assert (a + b)[|a| + i] == b[i]; }
    assert mid == b[..|mid|];
    assert StartsFrom(mid, key + 1);
    NoneBoth(mid, key + 1);
  }

  lemma NoneBoth(s: seq<Area>, key: int)
    requires StartsBelow(s, key) && StartsFrom(s, key)
    ensures s == []
  {
    assert First(s).None?;
  }

  lemma EmptyTree(t: Tree)
    requires InOrder(t) == []
    ensures t.Nil?
  {
  }

  lemma SortedTail(a: Area, r: seq<Area>)
    requires Sorted(r) && StartsFrom(r, a.start + 1)
    ensures Sorted([a] + r)
  {
  }

  lemma Single(a: Area, key: int)
    requires a.start < key
    ensures StartsBelow([a], key)
  {
  }

  lemma SingleTree(t: Tree, a: Area)
    requires InOrder(t) == [a]
    ensures t.Node? && t.area == a
  {
    assert t.Node? ==> InOrder(t)[|InOrder(t.left)|] == t.area;
  }

  // ---------- the shape is canonical ----------

  lemma {:induction false} RootIsHighest(t: Tree, i: nat)
    requires Shaped(t) && i < |InOrder(t)|
    ensures SplitMix64(InOrder(t)[i].start) <= Top(t)
  {
    hide SplitMix64;
    var n := |InOrder(t.left)|;
    if i < n { RootIsHighest(t.left, i); } else if i > n { RootIsHighest(t.right, i - n - 1); }
  }

  /** Two trees over the same areas are the same tree, whatever the order of insertions. */
  lemma {:induction false} ShapeUnique(a: Tree, b: Tree)
    requires Shaped(a) && Shaped(b) && InOrder(a) == InOrder(b)
    requires Sorted(InOrder(a)) && Proper(InOrder(a))
    ensures a == b
  {
    hide SplitMix64;
    if a.Node? && b.Node? {
      RootsAgree(a, b);
      var s, n := InOrder(a), |InOrder(a.left)|;
      assert InOrder(a.left) == s[..n] && InOrder(b.left) == s[..n];
      assert InOrder(a.right) == s[n + 1..] && InOrder(b.right) == s[n + 1..];
      ShapeUnique(a.left, b.left);
      ShapeUnique(a.right, b.right);
    }
  }

  /** Ascending sequences with the same elements are equal. */
  lemma {:induction false} SameElements(s: seq<Area>, t: seq<Area>)
    requires Sorted(s) && Sorted(t) && forall a :: a in s <==> a in t
    ensures s == t
  {
    assert |s| > 0 ==> s[0] in s;
    assert |t| > 0 ==> t[0] in t;
    if s != [] {
      assert s == [s[0]] + s[1..] && t == [t[0]] + t[1..];
      assert s[0] == t[0];
      assert s[0] !in s[1..] && t[0] !in t[1..];
      forall a ensures a in s[1..] <==> a in t[1..] {
        assert a in s <==> a == s[0] || a in s[1..];
        assert a in t <==> a == t[0] || a in t[1..];
      }
      SameElements(s[1..], t[1..]);
    }
  }

  /** The tree depends on the set of stored areas only, not on the order they came in. */
  lemma SameAreasSameTree(a: Tree, b: Tree)
    requires Shaped(a) && Shaped(b) && Sorted(InOrder(a)) && Sorted(InOrder(b)) && Proper(InOrder(a))
    requires forall x :: x in InOrder(a) <==> x in InOrder(b)
    ensures a == b
  {
    hide SplitMix64, Shaped, InOrder;
    SameElements(InOrder(a), InOrder(b));
    ShapeUnique(a, b);
  }

  lemma RootsAgree(a: Tree, b: Tree)
    requires a.Node? && b.Node? && Shaped(a) && Shaped(b) && InOrder(a) == InOrder(b)
    requires Sorted(InOrder(a)) && Proper(InOrder(a))
    ensures |InOrder(a.left)| == |InOrder(b.left)| && a.area == b.area
  {
    hide SplitMix64;
    var s, i, j := InOrder(a), |InOrder(a.left)|, |InOrder(b.left)|;
    assert s[i] == a.area && s[j] == b.area;
    RootIsHighest(a, j);
    RootIsHighest(b, i);
    Injective(s[i].start, s[j].start);
  }

  // ---------- finders ----------

  function Last(s: seq<Area>): Option<Area> {
    if s == [] then None else Some(s[|s| - 1])
  }

  function First(s: seq<Area>): Option<Area> {
    if s == [] then None else Some(s[0])
  }

  /** `s` is cut into the areas that start below `key` and the rest. */
  ghost predicate Cut(s: seq<Area>, key: int, l: seq<Area>, r: seq<Area>) {
    s == l + r && StartsBelow(l, key) && StartsFrom(r, key)
  }

  /** A search has narrowed `s` down to the subtree `t`; `pre` starts below `key`, `post` does not. */
  ghost predicate Narrowed(s: seq<Area>, key: int, pre: seq<Area>, t: Tree, post: seq<Area>) {
    && s == pre + (InOrder(t) + post) && Shaped(t) && Sorted(InOrder(t))
    && StartsBelow(pre, key) && StartsFrom(post, key)
  }

  lemma GoLeft(s: seq<Area>, key: int, pre: seq<Area>, t: Tree, post: seq<Area>)
    requires Narrowed(s, key, pre, t, post) && t.Node? && key <= t.key
    ensures Narrowed(s, key, pre, t.left, [t.area] + InOrder(t.right) + post)
  {
    hide SplitMix64, Recalc, Sorted, StartsBelow, StartsFrom;
    SortedParts(InOrder(t.left), t.area, InOrder(t.right));
    Above(t.area, InOrder(t.right), key);
    Bounds([t.area] + InOrder(t.right), post, key);
    Assoc(InOrder(t.left), [t.area], InOrder(t.right));
    Assoc(InOrder(t.left), [t.area] + InOrder(t.right), post);
  }

  lemma GoRight(s: seq<Area>, key: int, pre: seq<Area>, t: Tree, post: seq<Area>)
    requires Narrowed(s, key, pre, t, post) && t.Node? && t.key < key
    ensures Narrowed(s, key, pre + InOrder(t.left) + [t.area], t.right, post)
  {
    hide SplitMix64, Recalc, Sorted, StartsBelow, StartsFrom;
    SortedParts(InOrder(t.left), t.area, InOrder(t.right));
    Below(InOrder(t.left), t.area, key);
    Bounds(pre, InOrder(t.left) + [t.area], key);
    Assoc(pre, InOrder(t.left), [t.area]);
    Assoc(InOrder(t.left) + [t.area], InOrder(t.right), post);
    Assoc(pre, InOrder(t.left) + [t.area], InOrder(t.right) + post);
  }

  /** The ends of the two halves of a cut are its nearest areas. */
  lemma CutEnds(s: seq<Area>, key: int, l: seq<Area>, r: seq<Area>)
    requires Cut(s, key, l, r) && Sorted(s)
    ensures l == [] ==> forall a :: a in s ==> a.start >= key
    ensures r == [] ==> forall a :: a in s ==> a.start < key
    ensures l != [] ==> l[|l| - 1] in s && l[|l| - 1].start < key && forall a :: a in s && a.start < key ==>
      a.start <= l[|l| - 1].start
    ensures r != [] ==> r[0] in s && r[0].start >= key && forall a :: a in s && a.start >= key ==> r[0].start <= a.start
  {
    var n := |l|;
    assert n > 0 ==> s[n - 1] == l[n - 1];
    assert r != [] ==> s[n] == r[0];
    forall a | a in s
      ensures a.start < key ==> n > 0 && a.start <= s[n - 1].start
      ensures a.start >= key ==> r != [] && s[n].start <= a.start
    {
      var i :| 0 <= i < |s| && s[i] == a;
      assert i < n ==> s[i] == l[i];
      assert i >= n ==> s[i] == r[i - n];
    }
  }

  /** The last area that starts at or below `key`. */
  method FindPrev(root: Tree, key: nat) returns (res: Option<Area>, ghost l: seq<Area>, ghost r: seq<Area>)
    requires Shaped(root) && Sorted(InOrder(root))
    ensures Cut(InOrder(root), key + 1, l, r) && res == Last(l)
    ensures res.None? ==> forall a :: a in InOrder(root) ==> a.start > key
    ensures res.Some? ==> res.value in InOrder(root) && res.value.start <= key
    ensures res.Some? ==> forall a :: a in InOrder(root) && a.start <= key ==> a.start <= res.value.start
  {
    hide Shaped, Sorted, InOrder;
    var cur := root;
    res, l, r := None, [], [];
    while cur.Node?
      invariant Narrowed(InOrder(root), key + 1, l, cur, r) && res == Last(l)
      decreases cur
    {
      if key < cur.key {
        GoLeft(InOrder(root), key + 1, l, cur, r);
        r := [cur.area] + InOrder(cur.right) + r;
        cur := cur.left;
      } else {
        GoRight(InOrder(root), key + 1, l, cur, r);
        res := Some(cur.area);
        l := l + InOrder(cur.left) + [cur.area];
        cur := cur.right;
      }
    }
    NilInOrder(cur);
    CutEnds(InOrder(root), key + 1, l, r);
  }

  /** The first area that starts at or above `key`. */
  method FindNext(root: Tree, key: nat) returns (res: Option<Area>, ghost l: seq<Area>, ghost r: seq<Area>)
    requires Shaped(root) && Sorted(InOrder(root))
    ensures Cut(InOrder(root), key, l, r) && res == First(r)
    ensures res.None? ==> forall a :: a in InOrder(root) ==> a.start < key
    ensures res.Some? ==> res.value in InOrder(root) && res.value.start >= key
    ensures res.Some? ==> forall a :: a in InOrder(root) && a.start >= key ==> a.start >= res.value.start
  {
    hide Shaped, Sorted, InOrder;
    var cur := root;
    res, l, r := None, [], [];
    while cur.Node?
      invariant Narrowed(InOrder(root), key, l, cur, r) && res == First(r)
      decreases cur
    {
      if key <= cur.key {
        GoLeft(InOrder(root), key, l, cur, r);
        res := Some(cur.area);
        r := [cur.area] + InOrder(cur.right) + r;
        cur := cur.left;
      } else {
        GoRight(InOrder(root), key, l, cur, r);
        l := l + InOrder(cur.left) + [cur.area];
        cur := cur.right;
      }
    }
    NilInOrder(cur);
    CutEnds(InOrder(root), key, l, r);
  }

  predicate EndsBy(s: seq<Area>, x: int) {
    forall i :: 0 <= i < |s| ==> s[i].end <= x
  }

  /** `maxEnd` is the largest end in the subtree. */
  lemma {:induction false} MaxEndMeaning(t: Tree)
    requires Shaped(t) && t.Node?
    ensures EndsBy(InOrder(t), t.maxEnd)
    ensures exists i :: 0 <= i < |InOrder(t)| && InOrder(t)[i].end == t.maxEnd
  {
    hide SplitMix64;
    var l, r := InOrder(t.left), InOrder(t.right);
    assert InOrder(t)[|l|] == t.area;
    if t.left.Node? {
      MaxEndMeaning(t.left);
      var i :| 0 <= i < |l| && l[i].end == t.left.maxEnd;
      assert InOrder(t)[i] == l[i];
    }
    if t.right.Node? {
      MaxEndMeaning(t.right);
      var i :| 0 <= i < |r| && r[i].end == t.right.maxEnd;
      assert InOrder(t)[|l| + 1 + i] == r[i];
    }
  }

  /** A lookup of `x` has narrowed `s` down to the subtree `t`. */
  ghost predicate Looking(s: seq<Area>, x: int, t: Tree) {
    && Shaped(t) && Ordered(InOrder(t))
    && (forall a :: a in InOrder(t) ==> a in s)
    && (forall a :: a in s && Holds(a, x) ==> a in InOrder(t))
  }

  lemma LookLeft(s: seq<Area>, x: int, t: Tree)
    requires Looking(s, x, t) && t.Node? && t.left.Node? && t.left.maxEnd > x
    ensures Looking(s, x, t.left)
  {
    hide SplitMix64;
    var l, r := InOrder(t.left), InOrder(t.right);
    OrderedParts(l, t.area, r);
    MaxEndMeaning(t.left);
    var i :| 0 <= i < |l| && l[i].end == t.left.maxEnd;
    StartsAfter(l, t.area, r, i);
  }

  lemma LookRight(s: seq<Area>, x: int, t: Tree)
    requires Looking(s, x, t) && t.Node? && !(t.left.Node? && t.left.maxEnd > x) && !Holds(t.area, x)
    ensures Looking(s, x, t.right)
  {
    hide SplitMix64;
    OrderedParts(InOrder(t.left), t.area, InOrder(t.right));
    if t.left.Node? { MaxEndMeaning(t.left); }
  }

  lemma OrderedParts(l: seq<Area>, a: Area, r: seq<Area>)
    requires Ordered(l + [a] + r)
    ensures Ordered(l) && Ordered(r)
  {
    var s := l + [a] + r;
    assert forall i :: 0 <= i < |l| ==> l[i] == s[i];
    assert forall i :: 0 <= i < |r| ==> r[i] == s[|l| + 1 + i];
  }

  lemma StartsAfter(l: seq<Area>, a: Area, r: seq<Area>, i: nat)
    requires Ordered(l + [a] + r) && i < |l|
    ensures l[i].end <= a.start && forall b :: b in r ==> l[i].end <= b.start
  {
    var s := l + [a] + r;
    assert s[i] == l[i] && s[|l|] == a;
    assert forall k :: 0 <= k < |r| ==> r[k] == s[|l| + 1 + k];
  }

  /** The area that holds `addr`. */
  method FindContaining(root: Tree, addr: nat) returns (res: Option<Area>)
    requires Shaped(root) && Ordered(InOrder(root))
    ensures res.Some? ==> res.value in InOrder(root) && Holds(res.value, addr)
    ensures res.None? ==> forall a :: a in InOrder(root) ==> !Holds(a, addr)
  {
    hide Shaped, Ordered, SplitMix64;
    var cur := root;
    while cur.Node?
      invariant Looking(InOrder(root), addr, cur)
      decreases cur
    {
      if cur.left.Node? && cur.left.maxEnd > addr {
        LookLeft(InOrder(root), addr, cur);
        cur := cur.left;
      } else if addr < cur.area.start || addr >= cur.area.end {
        LookRight(InOrder(root), addr, cur);
        cur := cur.right;
      } else {
        assert cur.area in InOrder(cur);
        return Some(cur.area);
      }
    }
    return None;
  }

  /** What an in-order walk still has to visit: the nodes on the stack, top last, with their right subtrees. */
  function Pending(stack: seq<Tree>): seq<Area>
  {
    if stack == [] then []
    else
      var node := stack[|stack| - 1];
      (if node.Node? then [node.area] + InOrder(node.right) else []) + Pending(stack[..|stack| - 1])
  }

  /** Visits all areas in address order. */
  method InOrderWalk(root: Tree) returns (out: seq<Area>)
    ensures out == InOrder(root)
  {
    hide InOrder, Pending;
    var stack: seq<Tree> := [];
    var cur := root;
    out := [];
    NothingPending(root);
    while cur.Node? || stack != []
      invariant out + (InOrder(cur) + Pending(stack)) == InOrder(root)
      invariant forall i :: 0 <= i < |stack| ==> stack[i].Node?
      decreases |InOrder(root)| - |out|
    {
      while cur.Node?
        invariant out + (InOrder(cur) + Pending(stack)) == InOrder(root)
        invariant forall i :: 0 <= i < |stack| ==> stack[i].Node?
        invariant cur.Node? || stack != []
        decreases cur
      {
        PushPending(cur, stack);
        stack := stack + [cur];
        cur := cur.left;
      }
      var node := stack[|stack| - 1];
      PopPending(out, cur, stack);
      stack := stack[..|stack| - 1];
      out := out + [node.area];
      cur := node.right;
    }
    NothingPending(cur);
  }

  lemma NothingPending(t: Tree)
    ensures InOrder(t) + Pending([]) == InOrder(t) && [] + InOrder(t) == InOrder(t) && (t.Nil? ==> InOrder(t) == [])
  {
  }

  lemma PopPending(out: seq<Area>, cur: Tree, stack: seq<Tree>)
    requires cur.Nil? && stack != [] && stack[|stack| - 1].Node?
    ensures var node, rest := stack[|stack| - 1], stack[..|stack| - 1];
      out + (InOrder(cur) + Pending(stack)) == (out + [node.area]) + (InOrder(node.right) + Pending(rest))
  {
    var node, rest := stack[|stack| - 1], stack[..|stack| - 1];
    Assoc([node.area], InOrder(node.right), Pending(rest));
    Assoc(out, [node.area], InOrder(node.right) + Pending(rest));
  }

  lemma PushPending(t: Tree, stack: seq<Tree>)
    requires t.Node?
    ensures InOrder(t) + Pending(stack) == InOrder(t.left) + Pending(stack + [t])
  {
    assert (stack + [t])[..|stack|] == stack;
    Assoc(InOrder(t.left), [t.area], InOrder(t.right));
    Assoc(InOrder(t.left), [t.area] + InOrder(t.right), Pending(stack));
  }
}
