/** The cells of a text screen and the queue of cells still to be drawn. */
module ScreenCells {
  import opened Basics
  import opened Options

  datatype Char = Char(c: nat, fg: nat, bg: nat)

  datatype Item = Item(x: nat, y: nat, c: Char)

  /** The index of column `x` in row `y`. */
  function At(cols: nat, x: nat, y: nat): nat {
    y * cols + x
  }

  lemma AtOrder(cols: nat, x: nat, y: nat, rows: nat)
    requires x < cols && y < rows
    ensures At(cols, x, y) < At(cols, 0, rows) && At(cols, 0, y) + x == At(cols, x, y)
  {
    RowOrder(cols, y + 1, rows);
    assert (y + 1) * cols == y * cols + cols;
  }

  lemma {:induction false} RowOrder(cols: nat, y: nat, z: nat)
    requires y <= z
    ensures At(cols, 0, y) <= At(cols, 0, z)
    ensures y < z ==> At(cols, 0, y) + cols <= At(cols, 0, z)
  {
    if y < z {
      RowOrder(cols, y, z - 1);
      assert (z - 1) * cols + cols == z * cols;
    }
  }

  function Col(cols: nat, i: nat): nat
    requires cols >= 1
  {
    i % cols
  }

  function Row(cols: nat, i: nat): nat
    requires cols >= 1
  {
    i / cols
  }

  /** An index determines its column and row. */
  lemma Split(cols: nat, i: nat, rows: nat)
    requires cols >= 1 && i < At(cols, 0, rows)
    ensures At(cols, Col(cols, i), Row(cols, i)) == i && Col(cols, i) < cols && Row(cols, i) < rows
  {
    assert i == i / cols * cols + i % cols;
    if i / cols >= rows {
      RowOrder(cols, rows, i / cols);
      assert false;
    }
  }

  lemma SameCell(cols: nat, x: nat, y: nat, u: nat, v: nat)
    requires x < cols && u < cols && At(cols, x, y) == At(cols, u, v)
    ensures x == u && y == v
  {
    if y < v { RowOrder(cols, y, v); assert false; }
    if v < y { RowOrder(cols, v, y); assert false; }
  }

  /** Where a queued item belongs. */
  function Spot(cols: nat, q: Item): nat {
    At(cols, q.x, q.y)
  }

  /** Queued items and mapped cells correspond one to one. */
  ghost predicate Paired(cols: nat, rows: nat, queue: seq<Item>, n: nat, pending: seq<Option<nat>>) {
    && n <= |queue|
    && (forall i :: 0 <= i < |pending| && pending[i].Some? ==>
       pending[i].value < n && Spot(cols, queue[pending[i].value]) == i)
    && (forall k :: 0 <= k < n ==>
       OnScreen(cols, rows, queue[k]) && Spot(cols, queue[k]) < |pending| && pending[Spot(cols, queue[k])] == Some(k))
  }

  predicate OnScreen(cols: nat, rows: nat, q: Item) {
    q.x < cols && q.y < rows
  }

  ghost function Spots(cols: nat, queue: seq<Item>, n: nat): set<nat>
    requires n <= |queue|
  {
    set k | 0 <= k < n :: Spot(cols, queue[k])
  }

  lemma {:induction false} SpotsCount(cols: nat, rows: nat, queue: seq<Item>, n: nat, m: nat, pending: seq<Option<nat>>)
    requires Paired(cols, rows, queue, m, pending) && n <= m
    ensures |Spots(cols, queue, n)| == n
  {
    if n > 0 {
      SpotsCount(cols, rows, queue, n - 1, m, pending);
      var last := Spot(cols, queue[n - 1]);
      assert last !in Spots(cols, queue, n - 1);
      assert Spots(cols, queue, n) == Spots(cols, queue, n - 1) + {last};
    }
  }

  ghost function UpTo(n: nat): set<nat> {
    if n == 0 then {} else UpTo(n - 1) + {n - 1}
  }

  lemma {:induction false} UpToMeaning(n: nat)
    ensures |UpTo(n)| == n && forall i: nat :: i in UpTo(n) <==> i < n
  {
    if n > 0 { UpToMeaning(n - 1); }
  }

  /** A cell that is not queued never meets a full queue. */
  lemma RoomLeft(cols: nat, rows: nat, queue: seq<Item>, n: nat, pending: seq<Option<nat>>, i: nat)
    requires Paired(cols, rows, queue, n, pending) && i < |pending| && pending[i].None?
    ensures n < |pending|
  {
    SpotsCount(cols, rows, queue, n, n, pending);
    var all := UpTo(|pending|);
    UpToMeaning(|pending|);
    assert Spots(cols, queue, n) <= all - {i};
    SubsetSize(Spots(cols, queue, n), all - {i});
    assert |all - {i}| == |all| - 1;
  }

  /** What the screen is meant to show. */
  function Logical(grid: seq<Char>, queue: seq<Item>, pending: seq<Option<nat>>): (s: seq<Char>)
    ensures |s| == |grid|
  {
    seq(|grid|, i requires 0 <= i < |grid| =>
      if i < |pending| && pending[i].Some? && pending[i].value < |queue| then queue[pending[i].value].c else grid[i])
  }

  /** A cell that was not queued is. */
  lemma Queued(cols: nat, rows: nat, grid: seq<Char>, queue: seq<Item>, n: nat, pending: seq<Option<nat>>, q: Item,
               queue2: seq<Item>)
    requires |grid| == |pending| && OnScreen(cols, rows, q) && Spot(cols, q) < |pending|
    requires Paired(cols, rows, queue, n, pending) && pending[Spot(cols, q)].None?
    requires |queue2| >= n + 1 && queue2[..n] == queue[..n] && queue2[n] == q
    ensures Paired(cols, rows, queue2, n + 1, pending[Spot(cols, q) := Some(n)])
    ensures Logical(grid, queue2, pending[Spot(cols, q) := Some(n)]) ==
      Logical(grid, queue, pending)[Spot(cols, q) := q.c]
  {
    hide Spot;
    assert forall k :: 0 <= k < n ==> queue2[k] == queue2[..n][k] == queue[..n][k] == queue[k];
  }

  /** A queued cell gets another character. */
  lemma Requeued(cols: nat, rows: nat, grid: seq<Char>, queue: seq<Item>, n: nat, pending: seq<Option<nat>>, i: nat,
                 c: Char)
    requires |grid| == |pending| && i < |pending| && Paired(cols, rows, queue, n, pending) && pending[i].Some?
    ensures pending[i].value < |queue|
    ensures var queue2 := queue[pending[i].value := queue[pending[i].value].(c := c)];
      && Paired(cols, rows, queue2, n, pending)
      && Logical(grid, queue2, pending) == Logical(grid, queue, pending)[i := c]
  {
    var k := pending[i].value;
    var queue2 := queue[k := queue[k].(c := c)];
    assert forall j :: 0 <= j < n ==> Spot(cols, queue2[j]) == Spot(cols, queue[j]);
  }
}
