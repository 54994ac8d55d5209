/** What the editing functions of the terminal do to the screen: erasing, shifting within a line and
    shifting whole lines. */
module ScreenEditing {
  import opened Basics
  import opened Screen
  import opened ScreenCells

  /** Shifting twice is shifting by the sum. */
  lemma LeftTwice(s: seq<Char>, a: nat, z: nat, k: nat, m: nat, e: Char)
    requires a + k + m <= z <= |s|
    ensures Left(Left(s, a, z, k, e), a, z, m, e) == Left(s, a, z, k + m, e)
  {
    var t, u, v := Left(s, a, z, k, e), Left(Left(s, a, z, k, e), a, z, m, e), Left(s, a, z, k + m, e);
    forall j | 0 <= j < |s| ensures u[j] == v[j] {
      if a <= j < z - m { assert u[j] == t[j + m]; }
    }
  }

  lemma RightTwice(s: seq<Char>, a: nat, z: nat, k: nat, m: nat, e: Char)
    requires a + k + m <= z <= |s|
    ensures Right(Right(s, a, z, k, e), a, z, m, e) == Right(s, a, z, k + m, e)
  {
    var t, u, v := Right(s, a, z, k, e), Right(Right(s, a, z, k, e), a, z, m, e), Right(s, a, z, k + m, e);
    forall j | 0 <= j < |s| ensures u[j] == v[j] {
      if a + m <= j < z { assert u[j] == t[j - m]; }
    }
  }

  lemma FilledTwice(s: seq<Char>, a: nat, n: nat, m: nat, e: Char)
    ensures Filled(Filled(s, a, n, e), a + n, m, e) == Filled(s, a, n + m, e)
  {
  }

  lemma NoShift(s: seq<Char>, a: nat, z: nat, e: Char)
    ensures Left(s, a, z, 0, e) == s && Right(s, a, z, 0, e) == s && Filled(s, a, 0, e) == s
  {
    assert Left(s, a, z, 0, e) == s;
    assert Right(s, a, z, 0, e) == s;
  }

  /** Scrolling the region `count` times moves its rows up by `count`. */
  method ScrollBy(screen: Screen, count: nat, top: nat, bottom: nat)
    requires screen.Valid() && top < bottom <= screen.rows && count <= bottom - top
    modifies screen`queue, screen`queueI, screen`pending
    ensures screen.Valid()
    ensures screen.Text() ==
      Left(old(screen.Text()), At(screen.cols, 0, top), At(screen.cols, 0, bottom), At(screen.cols, 0, count),
        screen.Empty())
  {
    hide At, Logical, Paired, Drawn, Left;
    var cols := screen.cols;
    ghost var a, z := At(cols, 0, top), At(cols, 0, bottom);
    RowZero(cols);
    NoShift(screen.Text(), a, z, screen.Empty());
    RowOrder(cols, bottom, screen.rows);
    var i := 0;
    while i < count
      invariant 0 <= i <= count && screen.Valid()
      invariant screen.Text() == Left(old(screen.Text()), a, z, At(cols, 0, i), screen.Empty())
    {
      screen.Scroll(top, bottom);
      RowsFit(cols, top, i + 1, bottom);
      NextRow(cols, i);
      LeftTwice(old(screen.Text()), a, z, At(cols, 0, i), cols, screen.Empty());
      i := i + 1;
    }
  }

  method RevScrollBy(screen: Screen, count: nat, top: nat, bottom: nat)
    requires screen.Valid() && top < bottom <= screen.rows && count <= bottom - top
    modifies screen`queue, screen`queueI, screen`pending
    ensures screen.Valid()
    ensures screen.Text() ==
      Right(old(screen.Text()), At(screen.cols, 0, top), At(screen.cols, 0, bottom), At(screen.cols, 0, count),
        screen.Empty())
  {
    hide At, Logical, Paired, Drawn, Right;
    var cols := screen.cols;
    ghost var a, z := At(cols, 0, top), At(cols, 0, bottom);
    RowZero(cols);
    NoShift(screen.Text(), a, z, screen.Empty());
    RowOrder(cols, bottom, screen.rows);
    var i := 0;
    while i < count
      invariant 0 <= i <= count && screen.Valid()
      invariant screen.Text() == Right(old(screen.Text()), a, z, At(cols, 0, i), screen.Empty())
    {
      screen.RevScroll(top, bottom);
      RowsFit(cols, top, i + 1, bottom);
      NextRow(cols, i);
      RightTwice(old(screen.Text()), a, z, At(cols, 0, i), cols, screen.Empty());
      i := i + 1;
    }
  }

  lemma RowZero(cols: nat)
    ensures At(cols, 0, 0) == 0
  {
  }

  lemma RowsFit(cols: nat, top: nat, n: nat, bottom: nat)
    requires top + n <= bottom
    ensures At(cols, 0, top) + At(cols, 0, n) <= At(cols, 0, bottom)
  {
    RowOrder(cols, top + n, bottom);
    assert (top + n) * cols == top * cols + n * cols;
  }

  /** The cells of the line that a mode of the erase-in-line function names. */
  function LineStart(cols: nat, mode: nat, x: nat, y: nat): nat {
    if mode == 0 then At(cols, x, y) else At(cols, 0, y)
  }

  function LineCount(cols: nat, mode: nat, x: nat): nat
    requires x < cols
  {
    if mode == 0 then cols - x else if mode == 1 then x + 1 else cols
  }

  method EraseLine(screen: Screen, mode: nat, x: nat, y: nat, wrap: bool, top: nat, bottom: nat)
    requires screen.Valid() && x < screen.cols && y < screen.rows && top < bottom <= screen.rows && mode <= 2
    modifies screen`queue, screen`queueI, screen`pending, screen`cursorX, screen`cursorY
    ensures screen.Valid() && screen.cursorX == x && screen.cursorY == y
    ensures screen.Text() ==
      Filled(old(screen.Text()), LineStart(screen.cols, mode, x, y), LineCount(screen.cols, mode, x), screen.Empty())
  {
    hide At, Logical, Paired, Drawn, Filled;
    if mode == 0 {
      screen.SetCursorPos(x, y);
      screen.Blanks(screen.cols - x, wrap, false, top, bottom);
    } else if mode == 1 {
      screen.SetCursorPos(0, y);
      screen.Blanks(x + 1, wrap, false, top, bottom);
    } else {
      screen.SetCursorPos(0, y);
      screen.Blanks(screen.cols, wrap, false, top, bottom);
    }
    screen.SetCursorPos(x, y);
  }

  /** Blanks whole rows from `y0` to `y1`. */
  method EraseRows(screen: Screen, y0: nat, y1: nat, wrap: bool, top: nat, bottom: nat)
    requires screen.Valid() && y0 <= y1 <= screen.rows && top < bottom <= screen.rows
    modifies screen`queue, screen`queueI, screen`pending, screen`cursorX, screen`cursorY
    ensures screen.Valid()
    ensures At(screen.cols, 0, y0) <= At(screen.cols, 0, y1)
    ensures screen.Text() ==
      Filled(old(screen.Text()), At(screen.cols, 0, y0), At(screen.cols, 0, y1) - At(screen.cols, 0, y0),
        screen.Empty())
  {
    hide At, Logical, Paired, Drawn, Filled;
    var cols := screen.cols;
    ghost var a := At(cols, 0, y0);
    NoShift(screen.Text(), a, a, screen.Empty());
    RowOrder(cols, y0, y1);
    var yc := y0;
    while yc < y1
      invariant y0 <= yc <= y1 && screen.Valid() && a <= At(cols, 0, yc)
      invariant screen.Text() == Filled(old(screen.Text()), a, At(cols, 0, yc) - a, screen.Empty())
    {
      screen.SetCursorPos(0, yc);
      screen.Blanks(cols, wrap, false, top, bottom);
      NextRow(cols, yc);
      FilledTwice(old(screen.Text()), a, At(cols, 0, yc) - a, cols, screen.Empty());
      yc := yc + 1;
    }
  }

  function DisplayStart(cols: nat, mode: nat, x: nat, y: nat): nat {
    if mode == 0 then At(cols, x, y) else 0
  }

  function DisplayEnd(cols: nat, rows: nat, mode: nat, x: nat, y: nat): nat {
    if mode == 1 then At(cols, x, y) + 1 else At(cols, 0, rows)
  }

  /** Erases from the cursor to the end, from the start to the cursor, or everything. */
  method EraseDisplay(screen: Screen, mode: nat, x: nat, y: nat, wrap: bool, top: nat, bottom: nat)
    requires screen.Valid() && x < screen.cols && y < screen.rows && top < bottom <= screen.rows && mode <= 3
    requires (screen.cursorX == x || (screen.cursorX == screen.cols && x == screen.cols - 1)) && screen.cursorY == y
    modifies screen`queue, screen`queueI, screen`pending, screen`cursorX, screen`cursorY
    ensures screen.Valid() && screen.cursorY == y && (mode <= 1 ==> screen.cursorX == x)
    ensures (mode >= 2 ==> screen.cursorX == old(screen.cursorX))
    ensures DisplayStart(screen.cols, mode, x, y) <= DisplayEnd(screen.cols, screen.rows, mode, x, y)
    ensures var a := DisplayStart(screen.cols, mode, x, y);
      screen.Text() == Filled(old(screen.Text()), a, DisplayEnd(screen.cols, screen.rows, mode, x, y) - a,
        screen.Empty())
  {
    hide At, Logical, Paired, Drawn, Filled;
    var cols := screen.cols;
    AtOrder(cols, x, y, screen.rows);
    NextRow(cols, y);
    if mode == 0 {
      screen.SetCursorPos(x, y);
      screen.Blanks(cols - x, wrap, false, top, bottom);
      EraseRows(screen, y + 1, screen.rows, wrap, top, bottom);
      FilledTwice(old(screen.Text()), At(cols, x, y), cols - x, At(cols, 0, screen.rows) - At(cols, 0, y + 1),
                  screen.Empty());
      screen.SetCursorPos(x, y);
    } else if mode == 1 {
      EraseRows(screen, 0, y, wrap, top, bottom);
      screen.SetCursorPos(0, y);
      screen.Blanks(x + 1, wrap, false, top, bottom);
      RowZero(cols);
      FilledTwice(old(screen.Text()), 0, At(cols, 0, y), x + 1, screen.Empty());
      screen.SetCursorPos(x, y);
    } else {
      screen.Clear(false);
      AllFilled(old(screen.Text()), screen.Text(), screen.Empty());
    }
  }

  lemma AllFilled(s: seq<Char>, t: seq<Char>, e: Char)
    requires |t| == |s| && forall j :: 0 <= j < |s| ==> t[j] == e
    ensures t == Filled(s, 0, |s|, e)
  {
  }

  method EraseChars(screen: Screen, n: nat, x: nat, y: nat, wrap: bool, top: nat, bottom: nat)
    requires screen.Valid() && x < screen.cols && y < screen.rows && top < bottom <= screen.rows
    modifies screen`queue, screen`queueI, screen`pending, screen`cursorX, screen`cursorY
    ensures screen.Valid() && screen.cursorX == x && screen.cursorY == y
    ensures screen.Text() ==
      Filled(old(screen.Text()), At(screen.cols, x, y), Least(n, screen.cols - x), screen.Empty())
  {
    hide At, Logical, Paired, Drawn, Filled;
    screen.SetCursorPos(x, y);
    var remaining := screen.cols - x;
    var count := if n > remaining then remaining else n;
    screen.Blanks(count, wrap, false, top, bottom);
    screen.SetCursorPos(x, y);
  }


  /** The cells above `i` of the segment have moved up by `n` places. */
  ghost predicate ShiftedRight(s: seq<Char>, t: seq<Char>, z: nat, n: nat, i: nat) {
    && |t| == |s| && z <= |s|
    && forall j {:trigger t[j]} :: 0 <= j < |s| ==> t[j] == if i <= j < z && j >= n then s[j - n] else s[j]
  }

  lemma ShiftRightStep(s: seq<Char>, t: seq<Char>, z: nat, n: nat, i: nat)
    requires ShiftedRight(s, t, z, n, i + 1) && i < z && n <= i
    ensures ShiftedRight(s, t[i := t[i - n]], z, n, i)
  {
    assert t[i - n] == s[i - n];
    var u := t[i := t[i - n]];
    forall j | 0 <= j < |s| ensures u[j] == if i <= j < z && j >= n then s[j - n] else s[j] {
      assert t[j] == if i + 1 <= j < z && j >= n then s[j - n] else s[j];
    }
  }

  lemma ShiftRightDone(s: seq<Char>, t: seq<Char>, a: nat, z: nat, n: nat, e: Char)
    requires ShiftedRight(s, t, z, n, a + n) && a + n <= z
    ensures Filled(t, a, n, e) == Right(s, a, z, n, e)
  {
    var u, v := Filled(t, a, n, e), Right(s, a, z, n, e);
    forall j | 0 <= j < |s| ensures u[j] == v[j] {
      assert t[j] == if a + n <= j < z && j >= n then s[j - n] else s[j];
    }
  }

  /** Moves the line from `x` on to the right by `n` places; what is pushed out is lost. */
  method ShiftLineRight(screen: Screen, n: nat, x: nat, y: nat)
    requires screen.Valid() && y < screen.rows && x + n <= screen.cols
    modifies screen`queue, screen`queueI, screen`pending
    ensures screen.Valid()
    ensures ShiftedRight(old(screen.Text()), screen.Text(), At(screen.cols, 0, y) + screen.cols, n,
      At(screen.cols, 0, y) + x + n)
  {
    hide At, Logical, Paired, Drawn, ShiftedRight;
    var cols := screen.cols;
    ghost var base := At(cols, 0, y);
    AtOrder(cols, cols - 1, y, screen.rows);
    ShiftStart(screen.Text(), base + cols, n);
    var i := cols;
    while i > x + n
      invariant x + n <= i <= cols && screen.Valid()
      invariant ShiftedRight(old(screen.Text()), screen.Text(), base + cols, n, base + i)
    {
      i := i - 1;
      AtOrder(cols, i, y, screen.rows);
      AtOrder(cols, i - n, y, screen.rows);
      ShiftRightStep(old(screen.Text()), screen.Text(), base + cols, n, base + i);
      screen.MoveCharacter(i, y, i - n, y);
    }
  }

  /** Makes room for `n` blanks at the cursor by moving the rest of the line to the right. */
  method InsertBlanks(screen: Screen, count: nat, x: nat, y: nat, wrap: bool, top: nat, bottom: nat)
    requires screen.Valid() && x < screen.cols && y < screen.rows && top < bottom <= screen.rows
    modifies screen`queue, screen`queueI, screen`pending, screen`cursorX, screen`cursorY
    ensures screen.Valid() && screen.cursorX == x && screen.cursorY == y
    ensures screen.Text() ==
      Right(old(screen.Text()), At(screen.cols, x, y), At(screen.cols, 0, y) + screen.cols,
        Least(count, screen.cols - x), screen.Empty())
  {
    hide At, Logical, Paired, Drawn, Filled, Right, ShiftedRight;
    var cols := screen.cols;
    AtOrder(cols, x, y, screen.rows);
    var n := if count > cols - x then cols - x else count;
    ShiftLineRight(screen, n, x, y);
    ShiftRightDone(old(screen.Text()), screen.Text(), At(cols, x, y), At(cols, 0, y) + cols, n, screen.Empty());
    screen.SetCursorPos(x, y);
    screen.Blanks(n, wrap, false, top, bottom);
    screen.SetCursorPos(x, y);
  }

  lemma ShiftStart(s: seq<Char>, z: nat, n: nat)
    requires z <= |s|
    ensures ShiftedRight(s, s, z, n, z)
  {
  }

  /** The cells of the segment before `i` have moved down by `n` places. */
  ghost predicate ShiftedLeft(s: seq<Char>, t: seq<Char>, a: nat, n: nat, i: nat) {
    && |t| == |s| && a + n <= i <= |s|
    && forall j {:trigger t[j]} :: 0 <= j < |s| ==> t[j] == if a <= j < i - n then s[j + n] else s[j]
  }

  lemma ShiftLeftStep(s: seq<Char>, t: seq<Char>, a: nat, n: nat, i: nat)
    requires ShiftedLeft(s, t, a, n, i) && i < |s|
    ensures ShiftedLeft(s, t[i - n := t[i]], a, n, i + 1)
  {
    assert t[i] == s[i];
    var u := t[i - n := t[i]];
    forall j | 0 <= j < |s| ensures u[j] == if a <= j < i + 1 - n then s[j + n] else s[j] {
      assert t[j] == if a <= j < i - n then s[j + n] else s[j];
    }
  }

  lemma ShiftLeftDone(s: seq<Char>, t: seq<Char>, a: nat, z: nat, n: nat, e: Char)
    requires ShiftedLeft(s, t, a, n, z)
    ensures Filled(t, z - n, n, e) == Left(s, a, z, n, e)
  {
    var u, v := Filled(t, z - n, n, e), Left(s, a, z, n, e);
    forall j | 0 <= j < |s| ensures u[j] == v[j] {
      assert t[j] == if a <= j < z - n then s[j + n] else s[j];
    }
  }

  lemma ShiftLeftStart(s: seq<Char>, a: nat, n: nat)
    requires a + n <= |s|
    ensures ShiftedLeft(s, s, a, n, a + n)
  {
  }

  /** Moves the line behind `x + n` to the left by `n` places. */
  method ShiftLineLeft(screen: Screen, n: nat, x: nat, y: nat)
    requires screen.Valid() && y < screen.rows && x + n <= screen.cols
    modifies screen`queue, screen`queueI, screen`pending
    ensures screen.Valid()
    ensures ShiftedLeft(old(screen.Text()), screen.Text(), At(screen.cols, 0, y) + x, n,
      At(screen.cols, 0, y) + screen.cols)
  {
    hide At, Logical, Paired, Drawn, ShiftedLeft;
    var cols := screen.cols;
    ghost var base := At(cols, 0, y);
    AtOrder(cols, cols - 1, y, screen.rows);
    ShiftLeftStart(screen.Text(), base + x, n);
    var i := x + n;
    while i < cols
      invariant x + n <= i <= cols && screen.Valid()
      invariant ShiftedLeft(old(screen.Text()), screen.Text(), base + x, n, base + i)
    {
      AtOrder(cols, i, y, screen.rows);
      AtOrder(cols, i - n, y, screen.rows);
      ShiftLeftStep(old(screen.Text()), screen.Text(), base + x, n, base + i);
      screen.MoveCharacter(i - n, y, i, y);
      i := i + 1;
    }
  }

  /** Removes `n` characters at the cursor; the rest of the line closes up and blanks follow. */
  method DeleteChars(screen: Screen, count0: nat, x: nat, y: nat, wrap: bool, top: nat, bottom: nat)
    requires screen.Valid() && x < screen.cols && y < screen.rows && top < bottom <= screen.rows && count0 >= 1
    modifies screen`queue, screen`queueI, screen`pending, screen`cursorX, screen`cursorY
    ensures screen.Valid() && screen.cursorX == x && screen.cursorY == y
    ensures screen.Text() ==
      Left(old(screen.Text()), At(screen.cols, x, y), At(screen.cols, 0, y) + screen.cols,
        Least(count0, screen.cols - x), screen.Empty())
  {
    hide At, Logical, Paired, Drawn, Filled, Left, ShiftedLeft;
    var cols := screen.cols;
    AtOrder(cols, x, y, screen.rows);
    var count := if count0 > cols - x then cols - x else count0;
    ShiftLineLeft(screen, count, x, y);
    ShiftLeftDone(old(screen.Text()), screen.Text(), At(cols, x, y), At(cols, 0, y) + cols, count, screen.Empty());
    screen.SetCursorPos(cols - count, y);
    var cx, cy := screen.GetCursorPos();
    screen.SetCursorPos(cx, cy);
    var remaining := cols - cx;
    AtOrder(cols, cx, y, screen.rows);
    screen.Blanks(if count > remaining then remaining else count, wrap, false, top, bottom);
    screen.SetCursorPos(x, y);
  }
}
