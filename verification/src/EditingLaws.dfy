/** What the editing and cursor functions do, cell by cell in rows and columns, and how they undo one another. */
module EditingLaws {
  import opened Basics
  import opened ControlFunctions
  import opened Screen
  import opened ScreenCells
  import opened ScreenEditing

  /** Cells stand in reading order. */
  lemma CellOrder(cols: nat, x: nat, y: nat, j: nat, w: nat)
    requires x < cols && j < cols
    ensures At(cols, x, y) <= At(cols, j, w) <==> y < w || (y == w && x <= j)
    ensures At(cols, 0, y) <= At(cols, j, w) <==> y <= w
  {
    if y < w {
      RowOrder(cols, y, w);
      NextRow(cols, y);
    } else if w < y {
      RowOrder(cols, w, y);
      NextRow(cols, w);
    }
  }

  lemma RowPlus(cols: nat, j: nat, w: nat, n: nat)
    ensures At(cols, j, w) + At(cols, 0, n) == At(cols, j, w + n)
  {
    assert (w + n) * cols == w * cols + n * cols;
  }

  predicate OnView(v: View, text: seq<Char>, j: nat, w: nat) {
    && v.x < v.cols && v.y < v.rows && v.top < v.bottom <= v.rows && |text| == At(v.cols, 0, v.rows)
    && j < v.cols && w < v.rows
  }

  lemma InText(v: View, text: seq<Char>, j: nat, w: nat)
    requires OnView(v, text, j, w)
    ensures At(v.cols, j, w) < |text|
  {
    AtOrder(v.cols, j, w, v.rows);
  }

  /** Erasing, by column and row. */
  lemma ErasedCell(n: nat, v: View, text: seq<Char>, j: nat, w: nat)
    requires OnView(v, text, j, w)
    ensures At(v.cols, j, w) < |text|
    ensures |Edited('K', n, v, text)| == |Edited('X', n, v, text)| == |Edited('J', n, v, text)| == |text|
    ensures Edited('K', n, v, text)[At(v.cols, j, w)] ==
      if w == v.y && ((n == 0 && v.x <= j) || (n == 1 && j <= v.x) || n == 2) then v.blank
      else text[At(v.cols, j, w)]
    ensures Edited('X', n, v, text)[At(v.cols, j, w)] ==
      if w == v.y && v.x <= j < v.x + n then v.blank else text[At(v.cols, j, w)]
    ensures Edited('J', n, v, text)[At(v.cols, j, w)] ==
      if || (n == 0 && (v.y < w || (v.y == w && v.x <= j)))
         || (n == 1 && (w < v.y || (w == v.y && j <= v.x)))
         || n == 2 || n == 3 then v.blank
      else text[At(v.cols, j, w)]
  {
    InText(v, text, j, w);
    AtOrder(v.cols, v.x, v.y, v.rows);
    AtOrder(v.cols, j, w, v.rows);
    NextRow(v.cols, v.y);
    CellOrder(v.cols, v.x, v.y, j, w);
    CellOrder(v.cols, j, w, v.x, v.y);
    CellOrder(v.cols, 0, v.y + 1, j, w);
    NextRow(v.cols, w);
    hide At;
  }

  /** Inserting and deleting characters: the rest of the line moves, and no other line. */
  lemma ShiftedCell(n: nat, v: View, text: seq<Char>, j: nat, w: nat)
    requires OnView(v, text, j, w)
    ensures At(v.cols, j, w) < |text| && (j + n < v.cols ==> At(v.cols, j + n, w) < |text|)
    ensures j >= n ==> At(v.cols, j - n, w) < |text|
    ensures |Edited('@', n, v, text)| == |Edited('P', n, v, text)| == |text|
    ensures Edited('P', n, v, text)[At(v.cols, j, w)] ==
      if w != v.y || j < v.x then text[At(v.cols, j, w)]
      else if j + n < v.cols then text[At(v.cols, j + n, w)] else v.blank
    ensures Edited('@', n, v, text)[At(v.cols, j, w)] ==
      if w != v.y || j < v.x then text[At(v.cols, j, w)]
      else if j >= v.x + n then text[At(v.cols, j - n, w)] else v.blank
  {
    InText(v, text, j, w);
    if j + n < v.cols { InText(v, text, j + n, w); }
    if j >= n { InText(v, text, j - n, w); }
    AtOrder(v.cols, v.x, v.y, v.rows);
    AtOrder(v.cols, j, w, v.rows);
    NextRow(v.cols, v.y);
    RowOrder(v.cols, v.y + 1, v.rows);
    CellOrder(v.cols, v.x, v.y, j, w);
    CellOrder(v.cols, 0, v.y + 1, j, w);
    Sideways(v.cols, j, w, n);
    hide At;
  }

  lemma Sideways(cols: nat, j: nat, w: nat, n: nat)
    ensures At(cols, j + n, w) == At(cols, j, w) + n && (j >= n ==> At(cols, j - n, w) == At(cols, j, w) - n)
    ensures At(cols, j, w) == At(cols, 0, w) + j
  {
  }

  /** Inserting and deleting lines and scrolling: the rows between the cursor, or the top margin, and the bottom margin
      move, and no others. */
  lemma MovedRow(c: char, n: nat, v: View, text: seq<Char>, j: nat, w: nat)
    requires OnView(v, text, j, w) && (c == 'M' || c == 'L' || c == 'S' || c == 'T')
    ensures At(v.cols, j, w) < |text| && (w + n < v.bottom ==> At(v.cols, j, w + n) < |text|)
    ensures w >= n ==> At(v.cols, j, w - n) < |text|
    ensures |Edited(c, n, v, text)| == |text|
    ensures var first := if c == 'M' || c == 'L' then v.y else v.top;
      Edited(c, n, v, text)[At(v.cols, j, w)] ==
        if !(v.top <= first < v.bottom) || w < first || w >= v.bottom then text[At(v.cols, j, w)]
        else if c == 'M' || c == 'S' then if w + n < v.bottom then text[At(v.cols, j, w + n)] else v.blank
        else if w >= first + n then text[At(v.cols, j, w - n)] else v.blank
  {
    InText(v, text, j, w);
    if w + n < v.bottom { InText(v, text, j, w + n); }
    if w >= n { InText(v, text, j, w - n); }
    var first := if c == 'M' || c == 'L' then v.y else v.top;
    if v.top <= first < v.bottom {
      var m := Least(n, v.bottom - first);
      RowsFit(v.cols, first, m, v.bottom);
      RowOrder(v.cols, v.bottom, v.rows);
      CellOrder(v.cols, 0, first, j, w);
      CellOrder(v.cols, 0, first + m, j, w);
      CellOrder(v.cols, 0, v.bottom, j, w);
      CellOrder(v.cols, 0, v.bottom - m, j, w);
      RowPlus(v.cols, j, w, m);
      RowPlus(v.cols, 0, v.bottom - m, m);
      RowPlus(v.cols, 0, first, m);
      if w >= m { RowPlus(v.cols, j, w - m, m); }
      RowMoved(c, n, v, text, j, w, first, m);
    }
  }

  lemma RowMoved(c: char, n: nat, v: View, text: seq<Char>, j: nat, w: nat, first: nat, m: nat)
    requires OnView(v, text, j, w) && (c == 'M' || c == 'L' || c == 'S' || c == 'T')
    requires first == (if c == 'M' || c == 'L' then v.y else v.top) && v.top <= first < v.bottom
    requires m == Least(n, v.bottom - first) && At(v.cols, j, w) < |text|
    requires At(v.cols, 0, first) + At(v.cols, 0, m) == At(v.cols, 0, first + m) <= At(v.cols, 0, v.bottom) <= |text|
    requires At(v.cols, 0, v.bottom - m) + At(v.cols, 0, m) == At(v.cols, 0, v.bottom)
    requires At(v.cols, 0, first) <= At(v.cols, j, w) <==> first <= w
    requires At(v.cols, 0, first + m) <= At(v.cols, j, w) <==> first + m <= w
    requires At(v.cols, 0, v.bottom) <= At(v.cols, j, w) <==> v.bottom <= w
    requires At(v.cols, 0, v.bottom - m) <= At(v.cols, j, w) <==> v.bottom - m <= w
    requires At(v.cols, j, w) + At(v.cols, 0, m) == At(v.cols, j, w + m)
    requires w >= m ==> At(v.cols, j, w - m) + At(v.cols, 0, m) == At(v.cols, j, w)
    ensures |Edited(c, n, v, text)| == |text|
    ensures Edited(c, n, v, text)[At(v.cols, j, w)] ==
        if w < first || w >= v.bottom then text[At(v.cols, j, w)]
        else if c == 'M' || c == 'S' then if w < v.bottom - m then text[At(v.cols, j, w + m)] else v.blank
        else if w >= first + m then text[At(v.cols, j, w - m)] else v.blank
  {
    hide At;
  }

  /** Shifting one way and back blanks what was pushed over the edge and changes nothing else. */
  lemma ThereAndBack(s: seq<Char>, a: nat, z: nat, k: nat, e: Char)
    requires a + k <= z <= |s|
    ensures Left(Right(s, a, z, k, e), a, z, k, e) == Filled(s, z - k, k, e)
    ensures Right(Left(s, a, z, k, e), a, z, k, e) == Filled(s, a, k, e)
  {
    var t, u := Right(s, a, z, k, e), Left(s, a, z, k, e);
    forall j | 0 <= j < |s| ensures Left(t, a, z, k, e)[j] == Filled(s, z - k, k, e)[j] {
      if a <= j < z - k { assert t[j + k] == s[j]; }
    }
    forall j | 0 <= j < |s| ensures Right(u, a, z, k, e)[j] == Filled(s, a, k, e)[j] {
      if a + k <= j < z { assert u[j - k] == s[j]; }
    }
  }

  /** Deleting the characters just inserted brings the line back, but for those pushed off its end; inserting as many
      as were deleted erases them. */
  lemma InsertDelete(n: nat, v: View, text: seq<Char>)
    requires OnView(v, text, v.x, v.y)
    ensures var m := Least(n, v.cols - v.x);
      Edited('P', n, v, Edited('@', n, v, text)) == Filled(text, At(v.cols, v.cols - m, v.y), m, v.blank)
    ensures Edited('@', n, v, Edited('P', n, v, text)) == Edited('X', n, v, text)
  {
    var m := Least(n, v.cols - v.x);
    AtOrder(v.cols, v.x, v.y, v.rows);
    NextRow(v.cols, v.y);
    RowOrder(v.cols, v.y + 1, v.rows);
    Sideways(v.cols, v.cols - m, v.y, 0);
    hide At, Left, Right, Filled;
    ThereAndBack(text, At(v.cols, v.x, v.y), At(v.cols, 0, v.y) + v.cols, m, v.blank);
  }

  lemma RowsBack(v: View, text: seq<Char>, first: nat, m: nat)
    requires OnView(v, text, v.x, v.y) && first + m <= v.bottom
    ensures var a, z, k := At(v.cols, 0, first), At(v.cols, 0, v.bottom), At(v.cols, 0, m);
      && Left(Right(text, a, z, k, v.blank), a, z, k, v.blank) ==
         Filled(text, At(v.cols, 0, v.bottom - m), k, v.blank)
      && Right(Left(text, a, z, k, v.blank), a, z, k, v.blank) == Filled(text, a, k, v.blank)
  {
    RowOrder(v.cols, v.bottom, v.rows);
    RowsFit(v.cols, first, m, v.bottom);
    RowPlus(v.cols, 0, v.bottom - m, m);
    hide At, Left, Right, Filled;
    ThereAndBack(text, At(v.cols, 0, first), At(v.cols, 0, v.bottom), At(v.cols, 0, m), v.blank);
  }

  /** The same for lines between the margins. */
  lemma InsertDeleteLines(n: nat, v: View, text: seq<Char>)
    requires OnView(v, text, v.x, v.y) && v.top <= v.y < v.bottom
    ensures var m := Least(n, v.bottom - v.y);
      && Edited('M', n, v, Edited('L', n, v, text)) ==
         Filled(text, At(v.cols, 0, v.bottom - m), At(v.cols, 0, m), v.blank)
      && Edited('L', n, v, Edited('M', n, v, text)) == Filled(text, At(v.cols, 0, v.y), At(v.cols, 0, m), v.blank)
  {
    hide At, Left, Right, Filled;
    RowsBack(v, text, v.y, Least(n, v.bottom - v.y));
  }

  /** The same for scrolling. */
  lemma ScrollBack(n: nat, v: View, text: seq<Char>)
    requires OnView(v, text, v.x, v.y)
    ensures var m := Least(n, v.bottom - v.top);
      && Edited('S', n, v, Edited('T', n, v, text)) ==
         Filled(text, At(v.cols, 0, v.bottom - m), At(v.cols, 0, m), v.blank)
      && Edited('T', n, v, Edited('S', n, v, text)) == Filled(text, At(v.cols, 0, v.top), At(v.cols, 0, m), v.blank)
  {
    hide At, Left, Right, Filled;
    RowsBack(v, text, v.top, Least(n, v.bottom - v.top));
  }

  /** Outside the margins lines are neither inserted nor deleted; from the top margin on it is scrolling. */
  lemma LinesAsScrolling(n: nat, v: View, text: seq<Char>)
    requires OnView(v, text, v.x, v.y)
    ensures !(v.top <= v.y < v.bottom) ==> Edited('M', n, v, text) == Edited('L', n, v, text) == text
    ensures v.y == v.top ==>
      Edited('M', n, v, text) == Edited('S', n, v, text) && Edited('L', n, v, text) == Edited('T', n, v, text)
  {
    hide At, Left, Right, Filled;
  }

  /** The view with the cursor elsewhere. */
  function Placed(v: View, to: (nat, nat)): View {
    v.(x := to.0, y := to.1)
  }

  /** Where the cursor functions go, relative ones first. */
  lemma MovedTo(p: nat, q: nat, v: View, origin: bool)
    requires v.x < v.cols && v.y < v.rows && v.top < v.bottom <= v.rows
    ensures Moved('C', p, q, v, origin) == Moved('a', p, q, v, origin) ==
      (if v.x + p < v.cols then v.x + p else v.cols - 1, v.y)
    ensures Moved('D', p, q, v, origin) == (if p <= v.x then v.x - p else 0, v.y)
    ensures Moved('A', p, q, v, false) == (v.x, if p <= v.y then v.y - p else 0)
    ensures Moved('B', p, q, v, false) == Moved('e', p, q, v, false) ==
      (v.x, if v.y + p < v.rows then v.y + p else v.rows - 1)
    ensures v.y >= v.top + p ==> Moved('A', p, q, v, true) == (v.x, v.y - p)
    ensures v.y < v.top + p ==> Moved('A', p, q, v, true) == (v.x, v.top)
    ensures v.y + p < v.bottom ==> Moved('B', p, q, v, true) == (v.x, v.y + p)
    ensures v.y + p >= v.bottom ==> Moved('B', p, q, v, true) == (v.x, v.bottom - 1)
    ensures Moved('E', p, q, v, origin) == (0, Moved('B', p, q, v, origin).1)
    ensures Moved('F', p, q, v, origin) == (0, Moved('A', p, q, v, origin).1)
  {
  }

  /** The absolute ones count from one; rows count from the top margin in origin mode. */
  lemma MovedAbsolute(p: nat, q: nat, v: View)
    requires v.x < v.cols && v.y < v.rows && v.top < v.bottom <= v.rows
    ensures 1 <= p <= v.cols ==> Moved('G', p, q, v, false) == Moved('`', p, q, v, true) == (p - 1, v.y)
    ensures 1 <= p <= v.rows ==> Moved('d', p, q, v, false) == (v.x, p - 1)
    ensures 1 <= p <= v.bottom - v.top ==> Moved('d', p, q, v, true) == (v.x, v.top + p - 1)
    ensures 1 <= p <= v.rows && 1 <= q <= v.cols ==>
      Moved('H', p, q, v, false) == Moved('f', p, q, v, false) == (q - 1, p - 1)
    ensures 1 <= p <= v.bottom - v.top && 1 <= q <= v.cols ==> Moved('H', p, q, v, true) == (q - 1, v.top + p - 1)
    ensures p > v.cols ==> Moved('G', p, q, v, false) == (v.cols - 1, v.y)
    ensures p > v.rows && q > v.cols ==> Moved('H', p, q, v, false) == (v.cols - 1, v.rows - 1)
    ensures p > v.bottom - v.top ==> Moved('d', p, q, v, true) == (v.x, v.bottom - 1)
  {
  }

  /** A move and its opposite come back exactly when the edge was not met; positioning is a row and a column move in
      either order. */
  lemma MovesUndone(p: nat, q: nat, v: View, origin: bool)
    requires v.x < v.cols && v.y < v.rows && v.top < v.bottom <= v.rows
    ensures Moved('D', p, q, Placed(v, Moved('C', p, q, v, origin)), origin) == (v.x, v.y) <==>
      v.x + p < v.cols || v.x == 0
    ensures Moved('C', p, q, Placed(v, Moved('D', p, q, v, origin)), origin) == (v.x, v.y) <==>
      p <= v.x || v.x == v.cols - 1
    ensures v.y + p < v.rows ==> Moved('A', p, q, Placed(v, Moved('B', p, q, v, false)), false) == (v.x, v.y)
    ensures p <= v.y ==> Moved('B', p, q, Placed(v, Moved('A', p, q, v, false)), false) == (v.x, v.y)
    ensures Moved('H', p, q, v, origin) == Moved('G', q, p, Placed(v, Moved('d', p, q, v, origin)), origin)
      == Moved('d', p, q, Placed(v, Moved('G', q, p, v, origin)), origin)
  {
  }
}
