/** The frame buffer text screen. Changes are queued and drawn by a flush; `shown` is what is drawn. */
module Screen {
  import opened Options
  import opened ScreenCells

  const BLANK: nat := 32
  const WORD_HALF: nat := 0x7FFF_FFFF_FFFF_FFFF

  function Inverted(c: Char): Char {
    Char(c.c, c.bg, c.fg)
  }

  /** `n` cells from `a` on filled with `e`. */
  function Filled(s: seq<Char>, a: nat, n: nat, e: Char): (r: seq<Char>)
    ensures |r| == |s|
  {
    seq(|s|, j requires 0 <= j < |s| => if a <= j < a + n then e else s[j])
  }

  /** The cells from `a` to `z` moved down by `k` places, the `k` last of them filled with `e`. */
  function Left(s: seq<Char>, a: nat, z: nat, k: nat, e: Char): (r: seq<Char>)
    ensures |r| == |s|
  {
    seq(|s|, j requires 0 <= j < |s| =>
      if a <= j < z - k && j + k < |s| then s[j + k] else if a <= j && z - k <= j < z then e else s[j])
  }

  /** The cells from `a` to `z` moved up by `k` places, the `k` first of them filled with `e`. */
  function Right(s: seq<Char>, a: nat, z: nat, k: nat, e: Char): (r: seq<Char>)
    ensures |r| == |s|
  {
    seq(|s|, j requires 0 <= j < |s| =>
      if a + k <= j < z && j >= k then s[j - k] else if a <= j < a + k && j < z then e else s[j])
  }

  /** Rows `top` to `bottom` moved up by one, the last of them filled with `e`. */
  function ScrolledUp(s: seq<Char>, cols: nat, top: nat, bottom: nat, e: Char): (r: seq<Char>)
    ensures |r| == |s|
  {
    Left(s, At(cols, 0, top), At(cols, 0, bottom), cols, e)
  }

  function ScrolledDown(s: seq<Char>, cols: nat, top: nat, bottom: nat, e: Char): (r: seq<Char>)
    ensures |r| == |s|
  {
    Right(s, At(cols, 0, top), At(cols, 0, bottom), cols, e)
  }

  /** All cells but perhaps that of the cursor last drawn show what the grid holds. */
  ghost predicate Drawn(cols: nat, rows: nat, shown: seq<Char>, grid: seq<Char>, x: nat, y: nat) {
    && |shown| == |grid|
    && forall i :: 0 <= i < |grid| ==> CursorCell(cols, rows, x, y, i) || shown[i] == grid[i]
  }

  predicate CursorCell(cols: nat, rows: nat, x: nat, y: nat, i: nat) {
    x < cols && y < rows && i == At(cols, x, y)
  }

  /** The eight colours, their bright forms, and the defaults. */
  datatype Palette = Palette(ansi: seq<nat>, bright: seq<nat>, fg: nat, bg: nat, fgBright: nat, bgBright: nat)

  /** The background that lets the canvas show through. */
  const TRANSPARENT: nat := 0xFFFF_FFFF

  /** The colour that is seen: the canvas behind a transparent background has the default background colour. */
  function Visible(canvas: nat, colour: nat): nat {
    if colour == TRANSPARENT then canvas else colour
  }

  /** The colours seen are exchanged, and a background in the colour of the canvas is left transparent, a foreground
      never. */
  predicate Exchanged(canvas: nat, fg: nat, bg: nat, fg2: nat, bg2: nat) {
    && Visible(canvas, fg2) == Visible(canvas, bg) && Visible(canvas, bg2) == Visible(canvas, fg)
    && (canvas != TRANSPARENT ==> fg2 != TRANSPARENT && bg2 != canvas)
  }

  /** Exchanging twice brings back the colours exactly when the foreground was not transparent and the background was
      not given in the colour of the canvas; it always brings back what is seen. */
  lemma ExchangedTwice(canvas: nat, fg: nat, bg: nat, fg1: nat, bg1: nat, fg2: nat, bg2: nat)
    requires Exchanged(canvas, fg, bg, fg1, bg1) && Exchanged(canvas, fg1, bg1, fg2, bg2)
    ensures fg2 == fg && bg2 == bg <==> canvas == TRANSPARENT || (fg != TRANSPARENT && bg != canvas)
    ensures Visible(canvas, fg2) == Visible(canvas, fg) && Visible(canvas, bg2) == Visible(canvas, bg)
  {
  }

  /** The exchanged colours. */
  function Swap(canvas: nat, fg: nat, bg: nat): (r: (nat, nat))
    ensures Exchanged(canvas, fg, bg, r.0, r.1)
    ensures forall x: nat, y: nat :: Exchanged(canvas, fg, bg, x, y) ==> r == (x, y)
  {
    (Visible(canvas, bg), if Visible(canvas, fg) == canvas then TRANSPARENT else fg)
  }

  class Screen {
    const rows: nat
    const cols: nat
    const palette: Palette
    var grid: seq<Char>
    var queue: seq<Item>
    var queueI: nat
    var pending: seq<Option<nat>>
    var textFg: nat
    var textBg: nat
    var cursorX: nat
    var cursorY: nat
    var savedFg: nat
    var savedBg: nat
    var savedX: nat
    var savedY: nat
    var oldCursorX: nat
    var oldCursorY: nat
    var shown: seq<Char>

    ghost predicate Sized()
      reads this
    {
      && rows >= 1 && cols >= 1 && |palette.ansi| == 8 && |palette.bright| == 8
         && |grid| == |pending| == |shown| == At(cols, 0, rows)
      && cursorX <= cols && cursorY < rows && savedX <= cols && savedY < rows
    }

    ghost predicate Valid()
      reads this
    {
      Sized() && Paired(cols, rows, queue, queueI, pending) && Drawn(cols, rows, shown, grid, oldCursorX, oldCursorY)
    }

    /** Everything blank and drawn, the cursor in the corner. */
    constructor (r: nat, c: nat, p: Palette)
      requires r >= 1 && c >= 1 && |p.ansi| == 8 && |p.bright| == 8
      ensures Valid() && rows == r && cols == c && queueI == 0 && cursorX == 0 && cursorY == 0
      ensures forall j :: 0 <= j < |grid| ==> Text()[j] == Char(BLANK, p.fg, TRANSPARENT)
    {
      rows, cols, palette := r, c, p;
      var fg, bg := p.fg, TRANSPARENT;
      var n := At(c, 0, r);
      grid, shown, pending := seq(n, i => Char(BLANK, fg, bg)), seq(n, i => Char(BLANK, fg, bg)), seq(n, i => None);
      queue, queueI := [], 0;
      textFg, textBg, savedFg, savedBg := fg, bg, fg, bg;
      cursorX, cursorY, savedX, savedY, oldCursorX, oldCursorY := 0, 0, 0, 0, 0, 0;
    }

    ghost function Text(): seq<Char>
      reads this
    {
      Logical(grid, queue, pending)
    }

    function Empty(): Char
      reads this
    {
      Char(BLANK, textFg, textBg)
    }

    /** Queues a character for a cell. */
    method Push(c: Char, x: nat, y: nat)
      requires Valid()
      modifies this`queue, this`queueI, this`pending
      ensures Valid()
      ensures x < cols && y < rows ==> At(cols, x, y) < |old(Text())| && Text() == old(Text())[At(cols, x, y) := c]
      ensures !(x < cols && y < rows) ==> Text() == old(Text())
    {
      hide At, Spot, Logical;
      if x >= cols || y >= rows { return; }
      AtOrder(cols, x, y, rows);
      var i := At(cols, x, y);
      if pending[i].None? {
        if grid[i] == c {
          SameText(grid, queue, pending, i);
          return;
        }
        RoomLeft(cols, rows, queue, queueI, pending, i);
        if queueI == |grid| { assert false; }
        var idx := queueI;
        var item := Item(x, y, c);
        ghost var queue0 := queue;
        if |queue| <= idx { queue := queue + [item]; } else { queue := queue[idx := item]; }
        SpotOf(cols, item);
        assert queue[..idx] == queue0[..idx];
        Queued(cols, rows, grid, queue0, idx, pending, item, queue);
        queueI := queueI + 1;
        pending := pending[i := Some(idx)];
      } else {
        Requeued(cols, rows, grid, queue, queueI, pending, i, c);
        var idx := pending[i].value;
        queue := queue[idx := queue[idx].(c := c)];
      }
    }

    /** The character a cell is meant to show. */
    method CellAt(i: nat) returns (c: Char)
      requires Valid() && i < |grid|
      ensures c == Text()[i]
    {
      c := if pending[i].Some? then queue[pending[i].value].c else grid[i];
    }

    /** Fills a row. */
    method FillRow(y: nat)
      requires Valid() && y < rows
      modifies this`queue, this`queueI, this`pending
      ensures Valid()
      ensures forall j :: 0 <= j < |grid| ==>
        Text()[j] == if At(cols, 0, y) <= j < At(cols, 0, y) + cols then Empty() else old(Text())[j]
    {
      hide At, Logical, Paired, Col, Row;
      var i := 0;
      while i < cols
        invariant 0 <= i <= cols && Valid()
        invariant forall j :: 0 <= j < |grid| ==>
          Text()[j] == if At(cols, 0, y) <= j < At(cols, 0, y) + i then Empty() else old(Text())[j]
      {
        AtOrder(cols, i, y, rows);
        Push(Empty(), i, y);
        i := i + 1;
      }
    }

    /** Moves the rows between the margins up by one, in place. */
    method Scroll(top: nat, bottom: nat)
      requires Valid() && top < bottom <= rows
      modifies this`queue, this`queueI, this`pending
      ensures Valid() && Text() == ScrolledUp(old(Text()), cols, top, bottom, Empty())
    {
      hide At, Logical, Paired, Col, Row, MovedUp, MovedDown, ScrolledUp, ScrolledDown;
      RowOrder(cols, top, bottom);
      RowOrder(cols, bottom, rows);
      NextRow(cols, top);
      NextRow(cols, bottom - 1);
      var start := At(cols, 0, top + 1);
      var end := At(cols, 0, bottom);
      StartUp(Text(), cols, start);
      var i := start;
      while i < end
        invariant start <= i <= end && Valid()
        invariant MovedUp(old(Text()), Text(), cols, start, i)
      {
        var c := CellAt(i);
        MoveUp(old(Text()), Text(), cols, start, i);
        Split(cols, i - cols, rows);
        Push(c, Col(cols, i - cols), Row(cols, i - cols));
        i := i + 1;
      }
      ghost var moved := Text();
      FillRow(bottom - 1);
      UpDone(old(Text()), moved, Text(), cols, top, bottom, Empty());
    }

    /** Moves the rows between the margins down by one, in place. */
    method RevScroll(top: nat, bottom: nat)
      requires Valid() && top < bottom <= rows
      modifies this`queue, this`queueI, this`pending
      ensures Valid() && Text() == ScrolledDown(old(Text()), cols, top, bottom, Empty())
    {
      hide At, Logical, Paired, Col, Row, MovedUp, MovedDown, ScrolledUp, ScrolledDown;
      RowOrder(cols, top, bottom - 1);
      RowOrder(cols, bottom, rows);
      NextRow(cols, top);
      NextRow(cols, bottom - 1);
      var start := At(cols, 0, top);
      var end := At(cols, 0, bottom - 1);
      StartDown(Text(), cols, end);
      var i := end;
      while i > start
        invariant start <= i <= end && Valid()
        invariant MovedDown(old(Text()), Text(), cols, end, i)
      {
        i := i - 1;
        var c := CellAt(i);
        MoveDown(old(Text()), Text(), cols, end, i);
        Split(cols, i + cols, rows);
        Push(c, Col(cols, i + cols), Row(cols, i + cols));
      }
      ghost var moved := Text();
      FillRow(top);
      DownDone(old(Text()), moved, Text(), cols, top, bottom, Empty());
    }

    method Clear(moveCursor: bool)
      requires Valid()
      modifies this`queue, this`queueI, this`pending, this`cursorX, this`cursorY
      ensures Valid() && forall j :: 0 <= j < |grid| ==> Text()[j] == Empty()
      ensures if moveCursor then cursorX == 0 && cursorY == 0 else cursorX == old(cursorX) && cursorY == old(cursorY)
    {
      hide At, Logical, Paired, Col, Row;
      var i := 0;
      while i < At(cols, 0, rows)
        invariant 0 <= i <= |grid| && Valid() && cursorX == old(cursorX) && cursorY == old(cursorY)
        invariant forall j :: 0 <= j < i ==> Text()[j] == Empty()
      {
        Split(cols, i, rows);
        Push(Empty(), Col(cols, i), Row(cols, i));
        i := i + 1;
      }
      ghost var t := Text();
      if moveCursor { cursorX, cursorY := 0, 0; }
      assert Text() == t;
    }

    method SetTextFg(colour: nat)
      requires Valid()
      modifies this`textFg
      ensures Valid() && textFg == colour
    {
      textFg := colour;
    }

    method SetTextBg(colour: nat)
      requires Valid()
      modifies this`textBg
      ensures Valid() && textBg == colour
    {
      textBg := colour;
    }

    /** Swaps the text colours as they are seen. */
    method SwapPalette()
      requires Valid()
      modifies this`textFg, this`textBg
      ensures Valid() && Exchanged(palette.bg, old(textFg), old(textBg), textFg, textBg)
    {
      textFg, textBg := textBg, textFg;
      if textFg == TRANSPARENT { textFg := palette.bg; }
      if textBg == palette.bg { textBg := TRANSPARENT; }
    }

    method SaveState()
      requires Valid()
      modifies this`savedFg, this`savedBg, this`savedX, this`savedY
      ensures Valid() && savedX == cursorX && savedY == cursorY && savedFg == textFg && savedBg == textBg
    {
      savedFg, savedBg, savedX, savedY := textFg, textBg, cursorX, cursorY;
    }

    method RestoreState()
      requires Valid()
      modifies this`textFg, this`textBg, this`cursorX, this`cursorY
      ensures Valid() && cursorX == savedX && cursorY == savedY && textFg == savedFg && textBg == savedBg
    {
      textFg, textBg, cursorX, cursorY := savedFg, savedBg, savedX, savedY;
    }

    /** Arguments are 64-bit words; the upper half of their range stands for negative positions. */
    method SetCursorPos(x: nat, y: nat)
      requires Valid()
      modifies this`cursorX, this`cursorY
      ensures Valid() && cursorX == Clamp(x, cols) && cursorY == Clamp(y, rows)
    {
      cursorX := if x >= cols then (if x > WORD_HALF then 0 else cols - 1) else x;
      cursorY := if y >= rows then (if y > WORD_HALF then 0 else rows - 1) else y;
    }

    method GetCursorPos() returns (x: nat, y: nat)
      requires Valid()
      ensures x < cols && y < rows && y == cursorY && x == if cursorX == cols then cols - 1 else cursorX
    {
      x := if cursorX >= cols then cols - 1 else cursorX;
      if cursorY >= rows { assert false; }
      y := cursorY;
    }

    method MoveCharacter(newX: nat, newY: nat, oldX: nat, oldY: nat)
      requires Valid()
      modifies this`queue, this`queueI, this`pending
      ensures Valid()
      ensures oldX < cols && oldY < rows && newX < cols && newY < rows ==>
        && At(cols, newX, newY) < |old(Text())| && At(cols, oldX, oldY) < |old(Text())|
        && Text() == old(Text())[At(cols, newX, newY) := old(Text())[At(cols, oldX, oldY)]]
      ensures !(oldX < cols && oldY < rows && newX < cols && newY < rows) ==> Text() == old(Text())
    {
      hide At, Logical, Paired, Drawn;
      if oldX >= cols || oldY >= rows || newX >= cols || newY >= rows { return; }
      AtOrder(cols, oldX, oldY, rows);
      var c := CellAt(At(cols, oldX, oldY));
      Push(c, newX, newY);
    }

    /** Writes a character at the cursor, wrapping and scrolling first if the line is full. */
    method RawPutchar(c: nat, wrap: bool, scroll: bool, top: nat, bottom: nat)
      requires Valid() && top < bottom <= rows
      modifies this`queue, this`queueI, this`pending, this`cursorX, this`cursorY
      ensures Valid()
      ensures var (x, y, up) := Landing(old(cursorX), old(cursorY), cols, rows, wrap, scroll, bottom);
        && cursorX == x + 1 && cursorY == y && At(cols, x, y) < |old(Text())|
        && Text() == (if up then ScrolledUp(old(Text()), cols, top, bottom, Empty())
           else old(Text()))[At(cols, x, y) := Char(c, textFg, textBg)]
    {
      hide At, Logical, Paired, Drawn, ScrolledUp;
      var needScroll := false;
      if cursorX >= cols {
        if wrap && (cursorY < bottom - 1 || scroll) {
          cursorX := 0;
          cursorY := cursorY + 1;
          if cursorY == bottom {
            cursorY := cursorY - 1;
            needScroll := true;
          }
          if cursorY >= rows { cursorY := rows - 1; }
        } else {
          cursorX := cols - 1;
        }
      }
      if needScroll { Scroll(top, bottom); }
      AtOrder(cols, cursorX, cursorY, rows);
      Push(Char(c, textFg, textBg), cursorX, cursorY);
      cursorX := cursorX + 1;
    }

    /** Writes `n` blanks from the cursor on, within its line. */
    method Blanks(n: nat, wrap: bool, scroll: bool, top: nat, bottom: nat)
      requires Valid() && top < bottom <= rows && cursorX + n <= cols
      modifies this`queue, this`queueI, this`pending, this`cursorX, this`cursorY
      ensures Valid() && cursorX == old(cursorX) + n && cursorY == old(cursorY)
      ensures Text() == Filled(old(Text()), At(cols, old(cursorX), cursorY), n, Empty())
    {
      hide At, Logical, Paired, Drawn, ScrolledUp;
      var i := 0;
      while i < n
        invariant 0 <= i <= n && Valid() && cursorX == old(cursorX) + i && cursorY == old(cursorY)
        invariant Text() == Filled(old(Text()), At(cols, old(cursorX), cursorY), i, Empty())
      {
        AtOrder(cols, old(cursorX), cursorY, rows);
        AtOrder(cols, cursorX, cursorY, rows);
        RawPutchar(BLANK, wrap, scroll, top, bottom);
        i := i + 1;
      }
    }

    /** Draws the cursor's cell with swapped colours. A character still queued for it goes straight
        into the grid, which leaves its queue item without a cell. */
    method DrawCursor()
      requires Sized() && Paired(cols, rows, queue, queueI, pending)
      modifies this`grid, this`pending, this`shown
      ensures Sized()
      ensures cursorX >= cols ==> grid == old(grid) && pending == old(pending) && shown == old(shown)
      ensures cursorX < cols ==>
        var i := At(cols, cursorX, cursorY);
        && i < |old(Text())| && grid == old(grid)[i := old(Text())[i]] && pending == old(pending)[i := None]
        && shown == old(shown)[i := Inverted(old(Text())[i])]
    {
      hide At, Paired;
      if cursorX >= cols || cursorY >= rows { return; }
      AtOrder(cols, cursorX, cursorY, rows);
      var i := At(cols, cursorX, cursorY);
      PendingInQueue(cols, rows, queue, queueI, pending, i);
      var c := if pending[i].Some? then queue[pending[i].value].c else grid[i];
      shown := shown[i := Inverted(c)];
      if pending[i].Some? {
        grid := grid[i := queue[pending[i].value].c];
        pending := pending[i := None];
      } else {
        assert grid == grid[i := grid[i]] && pending == pending[i := None];
      }
    }

    /** Draws everything that is queued. The grid and the display then show the logical screen, the
        cursor's cell with swapped colours, and nothing is queued any more. */
    method Flush(cursorEnabled: bool)
      requires Valid()
      modifies this`grid, this`pending, this`shown, this`queueI, this`oldCursorX, this`oldCursorY
      ensures Valid() && queueI == 0 && grid == old(Text()) && Text() == old(Text())
      ensures forall i :: 0 <= i < |pending| ==> pending[i] == None
      ensures forall i :: 0 <= i < |grid| ==>
        shown[i] == if cursorEnabled && CursorCell(cols, rows, cursorX, cursorY, i) then Inverted(grid[i]) else grid[i]
    {
      hide At, Paired, Drawn, Flushing, Display, Logical, CursorCell, Inverted;
      ghost var text := Text();
      if cursorEnabled { DrawCursor(); }
      ghost var on := cursorEnabled && cursorX < cols;
      ghost var ci := At(cols, cursorX, cursorY);
      AtOrder0(cols, cursorX, cursorY, rows);
      StartFlush(cols, rows, old(grid), old(shown), old(pending), queue, queueI, grid, shown, pending, oldCursorX,
                 oldCursorY, on, ci);
      var k := 0;
      while k < queueI
        invariant 0 <= k <= queueI && Sized() && queueI == old(queueI) && oldCursorX == old(oldCursorX)
        invariant oldCursorY == old(oldCursorY)
        invariant Flushing(cols, rows, text, grid, queue, queueI, pending, k)
        invariant Display(cols, rows, text, grid, shown, pending, oldCursorX, oldCursorY, on, ci)
      {
        FlushItem(cols, rows, text, grid, queue, queueI, pending, k, shown, oldCursorX, oldCursorY, on, ci);
        var q := queue[k];
        var offset := At(cols, q.x, q.y);
        if pending[offset].Some? {
          shown := shown[offset := q.c];
          grid := grid[offset := q.c];
          pending := pending[offset := None];
        }
        k := k + 1;
      }
      EndFlush(cols, rows, text, grid, shown, queue, queueI, pending, oldCursorX, oldCursorY, on, ci);
      ghost var shown0 := shown;
      AtOrder0(cols, oldCursorX, oldCursorY, rows);
      if (oldCursorX != cursorX || oldCursorY != cursorY) || !cursorEnabled {
        if oldCursorX < cols && oldCursorY < rows {
          var idx := At(cols, oldCursorX, oldCursorY);
          shown := shown[idx := grid[idx]];
        }
      }
      Undrawn(cols, rows, grid, shown0, shown, cursorX, cursorY, oldCursorX, oldCursorY, cursorEnabled);
      oldCursorX, oldCursorY, queueI := cursorX, cursorY, 0;
      NothingQueued(cols, rows, queue, grid, pending, shown, cursorX, cursorY);
    }

    /** Redraws the whole grid without touching the queue. The cursor drawn at the end may take a
        queued cell, or stand where no flush will look for it: exactly then the screen is left out of
        order. */
    method FullRefresh(cursorEnabled: bool)
      requires Valid()
      modifies this`grid, this`pending, this`shown
      ensures Sized() && Text() == old(Text())
      ensures !(cursorEnabled && cursorX < cols) ==> Valid() && shown == grid
      ensures cursorEnabled && cursorX < cols ==>
        var i := At(cols, cursorX, cursorY);
        && i < |Text()|
        && (Paired(cols, rows, queue, queueI, pending) <==> old(pending)[i].None?)
        && (Drawn(cols, rows, shown, grid, oldCursorX, oldCursorY) <==>
              (oldCursorX == cursorX && oldCursorY == cursorY) || Inverted(Text()[i]) == Text()[i])
    {
      hide At, Paired, Drawn;
      var i := 0;
      while i < |grid|
        invariant 0 <= i <= |grid| && Sized() && grid == old(grid) && pending == old(pending)
        invariant forall j :: 0 <= j < i ==> shown[j] == grid[j]
      {
        shown := shown[i := grid[i]];
        i := i + 1;
      }
      assert shown == grid;
      AtOrder0(cols, cursorX, cursorY, rows);
      if cursorEnabled { DrawCursor(); }
      Refreshed(cols, rows, queue, queueI, old(grid), old(pending), grid, pending, shown, cursorX, cursorY, oldCursorX,
                oldCursorY, cursorEnabled);
    }
  }

  /** A refresh while the cursor's own cell is queued does leave the screen out of order. */
  method RefreshBreaks(p: Palette) returns (screen: Screen)
    requires |p.ansi| == 8 && |p.bright| == 8
    ensures screen.Sized() && !screen.Valid()
  {
    screen := new Screen(1, 1, p);
    AtOrder(1, 0, 0, 1);
    assert screen.pending[0].None? && screen.Text()[0] == screen.grid[0];
    screen.Push(Char(65, 1, 2), 0, 0);
    assert screen.Text()[0] == Char(65, 1, 2);
    Pending(screen.grid, screen.queue, screen.pending, 0);
    screen.FullRefresh(true);
  }

  lemma Pending(grid: seq<Char>, queue: seq<Item>, pending: seq<Option<nat>>, i: nat)
    requires i < |grid| && |pending| == |grid|
    ensures Logical(grid, queue, pending)[i] != grid[i] ==> pending[i].Some?
  {
  }

  lemma Refreshed(cols: nat, rows: nat, queue: seq<Item>, n: nat, grid0: seq<Char>, pending0: seq<Option<nat>>,
                  grid: seq<Char>, pending: seq<Option<nat>>, shown: seq<Char>, x: nat, y: nat, ox: nat, oy: nat,
                  enabled: bool)
    requires |grid0| == |pending0| && Paired(cols, rows, queue, n, pending0) && y < rows
    requires (x < cols ==> At(cols, x, y) < |grid0|)
    requires if enabled && x < cols then
      var i, c := At(cols, x, y), Logical(grid0, queue, pending0)[At(cols, x, y)];
      grid == grid0[i := c] && pending == pending0[i := None] && shown == grid0[i := Inverted(c)]
    else grid == grid0 && pending == pending0 && shown == grid0
    ensures Logical(grid, queue, pending) == Logical(grid0, queue, pending0)
    ensures !(enabled && x < cols) ==> Paired(cols, rows, queue, n, pending) && Drawn(cols, rows, shown, grid, ox, oy)
    ensures enabled && x < cols ==>
      var i := At(cols, x, y);
      && (Paired(cols, rows, queue, n, pending) <==> pending0[i].None?)
      && (Drawn(cols, rows, shown, grid, ox, oy) <==> (ox == x && oy == y) || Inverted(grid[i]) == grid[i])
  {
    hide At, Spot;
    MovedAway(cols, x, y, ox, oy);
    if enabled && x < cols {
      var i := At(cols, x, y);
      if pending0[i].None? { assert pending == pending0; }
    }
  }

  lemma PendingInQueue(cols: nat, rows: nat, queue: seq<Item>, n: nat, pending: seq<Option<nat>>, i: nat)
    requires Paired(cols, rows, queue, n, pending) && i < |pending|
    ensures pending[i].Some? ==> pending[i].value < |queue|
  {
  }

  lemma AtOrder0(cols: nat, x: nat, y: nat, rows: nat)
    ensures x < cols && y < rows ==> At(cols, x, y) < At(cols, 0, rows)
  {
    if x < cols && y < rows { AtOrder(cols, x, y, rows); }
  }

  lemma MovedAway(cols: nat, x: nat, y: nat, u: nat, v: nat)
    ensures x < cols && u < cols && (x != u || y != v) ==> At(cols, x, y) != At(cols, u, v)
  {
    if x < cols && u < cols && At(cols, x, y) == At(cols, u, v) { SameCell(cols, x, y, u, v); }
  }

  /** Items before `k` are drawn; cells no longer mapped hold their final character. */
  ghost predicate Flushing(cols: nat, rows: nat, text: seq<Char>, grid: seq<Char>, queue: seq<Item>, n: nat,
                           pending: seq<Option<nat>>, k: nat) {
    && |text| == |grid| == |pending| && k <= n <= |queue|
    && (forall i :: 0 <= i < |grid| && pending[i].None? ==> grid[i] == text[i])
    && (forall i :: 0 <= i < |grid| && pending[i].Some? ==>
          k <= pending[i].value < n && Spot(cols, queue[pending[i].value]) == i && queue[pending[i].value].c == text[i])
    && (forall j :: k <= j < n ==> Waiting(cols, rows, queue[j], pending, j))
  }

  /** An item that has its cell still, or lost it to the cursor. */
  ghost predicate Waiting(cols: nat, rows: nat, q: Item, pending: seq<Option<nat>>, j: nat) {
    && OnScreen(cols, rows, q) && Spot(cols, q) < |pending|
    && (pending[Spot(cols, q)].Some? ==> pending[Spot(cols, q)].value == j)
  }

  /** What is shown while the queue is drawn: the grid, but for the old and the new cursor. */
  ghost predicate Display(cols: nat, rows: nat, text: seq<Char>, grid: seq<Char>, shown: seq<Char>,
                          pending: seq<Option<nat>>, ox: nat, oy: nat, on: bool, ci: nat) {
    && |text| == |grid| == |shown| == |pending|
       && (on ==> ci < |grid| && pending[ci].None? && shown[ci] == Inverted(text[ci]))
    && forall i :: 0 <= i < |grid| ==> CursorCell(cols, rows, ox, oy, i) || (on && i == ci) || shown[i] == grid[i]
  }

  lemma StartFlush(cols: nat, rows: nat, grid0: seq<Char>, shown0: seq<Char>, pending0: seq<Option<nat>>,
                   queue: seq<Item>, n: nat, grid: seq<Char>, shown: seq<Char>, pending: seq<Option<nat>>, ox: nat,
                   oy: nat, on: bool, ci: nat)
    requires |grid0| == |pending0| && Paired(cols, rows, queue, n, pending0) && Drawn(cols, rows, shown0, grid0, ox, oy)
    requires on ==> ci < |grid0|
    requires var text := Logical(grid0, queue, pending0);
      if on then grid == grid0[ci := text[ci]] && shown == shown0[ci := Inverted(text[ci])]
        && pending == pending0[ci := None]
      else grid == grid0 && shown == shown0 && pending == pending0
    ensures var text := Logical(grid0, queue, pending0);
      Flushing(cols, rows, text, grid, queue, n, pending, 0)
        && Display(cols, rows, text, grid, shown, pending, ox, oy, on, ci)
  {
    hide Spot, At;
  }

  lemma FlushItem(cols: nat, rows: nat, text: seq<Char>, grid: seq<Char>, queue: seq<Item>, n: nat,
                  pending: seq<Option<nat>>, k: nat, shown: seq<Char>, ox: nat, oy: nat, on: bool, ci: nat)
    requires Flushing(cols, rows, text, grid, queue, n, pending, k) && k < n
    requires Display(cols, rows, text, grid, shown, pending, ox, oy, on, ci)
    ensures n <= |queue| && At(cols, queue[k].x, queue[k].y) < |pending|
    ensures var q, i := queue[k], At(cols, queue[k].x, queue[k].y);
      if pending[i].Some? then
        && Flushing(cols, rows, text, grid[i := q.c], queue, n, pending[i := None], k + 1)
        && Display(cols, rows, text, grid[i := q.c], shown[i := q.c], pending[i := None], ox, oy, on, ci)
      else Flushing(cols, rows, text, grid, queue, n, pending, k + 1)
  {
    SpotOf(cols, queue[k]);
    hide Spot, At;
  }

  lemma EndFlush(cols: nat, rows: nat, text: seq<Char>, grid: seq<Char>, shown: seq<Char>, queue: seq<Item>, n: nat,
                 pending: seq<Option<nat>>, ox: nat, oy: nat, on: bool, ci: nat)
    requires Flushing(cols, rows, text, grid, queue, n, pending, n)
    requires Display(cols, rows, text, grid, shown, pending, ox, oy, on, ci)
    ensures grid == text && (forall i :: 0 <= i < |pending| ==> pending[i] == None)
    ensures |shown| == |grid| && (on ==> ci < |grid| && shown[ci] == Inverted(grid[ci]))
    ensures forall i :: 0 <= i < |grid| ==> CursorCell(cols, rows, ox, oy, i) || (on && i == ci) || shown[i] == grid[i]
  {
    hide Spot, At, CursorCell;
  }

  /** The old cursor is painted over unless the new one stands there. */
  lemma Undrawn(cols: nat, rows: nat, grid: seq<Char>, shown: seq<Char>, shown2: seq<Char>, x: nat, y: nat, ox: nat,
                oy: nat, enabled: bool)
    requires |shown| == |grid| == At(cols, 0, rows) && y < rows
    requires enabled && x < cols ==> At(cols, x, y) < |grid| && shown[At(cols, x, y)] == Inverted(grid[At(cols, x, y)])
    requires forall i :: 0 <= i < |grid| ==>
      CursorCell(cols, rows, ox, oy, i) || (enabled && x < cols && i == At(cols, x, y)) || shown[i] == grid[i]
    requires ox < cols && oy < rows ==> At(cols, ox, oy) < |grid|
    requires shown2 == if (ox != x || oy != y || !enabled) && ox < cols && oy < rows
      then shown[At(cols, ox, oy) := grid[At(cols, ox, oy)]] else shown
    ensures |shown2| == |grid|
    ensures forall i :: 0 <= i < |grid| ==>
      shown2[i] == if enabled && CursorCell(cols, rows, x, y, i) then Inverted(grid[i]) else grid[i]
  {
    hide At, Inverted;
    MovedAway(cols, x, y, ox, oy);
  }

  lemma NothingQueued(cols: nat, rows: nat, queue: seq<Item>, grid: seq<Char>, pending: seq<Option<nat>>,
                      shown: seq<Char>, x: nat, y: nat)
    requires |grid| == |pending| == |shown| && forall i :: 0 <= i < |pending| ==> pending[i] == None
    requires forall i :: 0 <= i < |grid| ==> CursorCell(cols, rows, x, y, i) || shown[i] == grid[i]
    ensures Paired(cols, rows, queue, 0, pending) && Drawn(cols, rows, shown, grid, x, y)
    ensures Logical(grid, queue, pending) == grid
  {
    hide CursorCell;
  }

  /** A position clamped to `0..n`, where words with the top bit set count as negative. */
  function Clamp(x: nat, n: nat): (r: nat)
    requires n >= 1
    ensures r < n && (x < n ==> r == x)
  {
    if x < n then x else if x > WORD_HALF then 0 else n - 1
  }

  /** The cell a character lands on, and whether the screen scrolls first. */
  function Landing(x: nat, y: nat, cols: nat, rows: nat, wrap: bool, scroll: bool, bottom: nat): (r: (nat, nat, bool))
    requires cols >= 1 && rows >= 1 && x <= cols && y < rows && 0 < bottom <= rows
    ensures r.0 < cols && r.1 < rows
  {
    if x < cols then (x, y, false)
    else if !wrap || (y >= bottom - 1 && !scroll) then (cols - 1, y, false)
    else if y == bottom - 1 then (0, y, true)
    else if y + 1 < rows then (0, y + 1, false)
    else (0, rows - 1, false)
  }

  /** Cells from `start` to `i` have moved up by a row. */
  ghost predicate MovedUp(s: seq<Char>, t: seq<Char>, cols: nat, start: nat, i: nat) {
    && |t| == |s| && cols <= start <= i <= |s|
    && forall j {:trigger t[j]} :: 0 <= j < |s| ==> t[j] == if start - cols <= j < i - cols then s[j + cols] else s[j]
  }

  lemma StartUp(s: seq<Char>, cols: nat, start: nat)
    requires cols <= start <= |s|
    ensures MovedUp(s, s, cols, start, start)
  {
  }

  lemma StartDown(s: seq<Char>, cols: nat, end: nat)
    requires end + cols <= |s|
    ensures MovedDown(s, s, cols, end, end)
  {
  }

  lemma MoveUp(s: seq<Char>, t: seq<Char>, cols: nat, start: nat, i: nat)
    requires MovedUp(s, t, cols, start, i) && i < |s| && cols >= 1
    ensures MovedUp(s, t[i - cols := t[i]], cols, start, i + 1)
  {
    assert t[i] == s[i];
    var u := t[i - cols := t[i]];
    forall j | 0 <= j < |s| ensures u[j] == if start - cols <= j < i + 1 - cols then s[j + cols] else s[j] {
      assert t[j] == if start - cols <= j < i - cols then s[j + cols] else s[j];
    }
  }

  lemma UpDone(s: seq<Char>, t: seq<Char>, u: seq<Char>, cols: nat, top: nat, bottom: nat, e: Char)
    requires top < bottom && At(cols, 0, top + 1) == At(cols, 0, top) + cols
    requires At(cols, 0, bottom) == At(cols, 0, bottom - 1) + cols
    requires MovedUp(s, t, cols, At(cols, 0, top + 1), At(cols, 0, bottom)) && |u| == |s|
    requires forall j :: 0 <= j < |s| ==>
      u[j] == if At(cols, 0, bottom - 1) <= j < At(cols, 0, bottom - 1) + cols then e else t[j]
    ensures u == ScrolledUp(s, cols, top, bottom, e)
  {
    hide At;
  }

  /** Cells from `i` to `end` have moved down by a row. */
  ghost predicate MovedDown(s: seq<Char>, t: seq<Char>, cols: nat, end: nat, i: nat) {
    && |t| == |s| && i <= end <= end + cols <= |s|
    && forall j {:trigger t[j]} :: 0 <= j < |s| ==> t[j] == if i + cols <= j < end + cols then s[j - cols] else s[j]
  }

  lemma MoveDown(s: seq<Char>, t: seq<Char>, cols: nat, end: nat, i: nat)
    requires MovedDown(s, t, cols, end, i + 1) && cols >= 1
    ensures MovedDown(s, t[i + cols := t[i]], cols, end, i)
  {
    assert t[i] == s[i];
    var u := t[i + cols := t[i]];
    forall j | 0 <= j < |s| ensures u[j] == if i + cols <= j < end + cols then s[j - cols] else s[j] {
      assert t[j] == if i + 1 + cols <= j < end + cols then s[j - cols] else s[j];
    }
  }

  lemma DownDone(s: seq<Char>, t: seq<Char>, u: seq<Char>, cols: nat, top: nat, bottom: nat, e: Char)
    requires top < bottom && At(cols, 0, bottom) == At(cols, 0, bottom - 1) + cols
    requires MovedDown(s, t, cols, At(cols, 0, bottom - 1), At(cols, 0, top)) && |u| == |s|
    requires forall j :: 0 <= j < |s| ==> u[j] == if At(cols, 0, top) <= j < At(cols, 0, top) + cols then e else t[j]
    ensures u == ScrolledDown(s, cols, top, bottom, e)
  {
    hide At;
    var v := ScrolledDown(s, cols, top, bottom, e);
    forall j | 0 <= j < |s| ensures u[j] == v[j] {
      assert t[j] == if At(cols, 0, top) + cols <= j < At(cols, 0, bottom - 1) + cols then s[j - cols] else s[j];
    }
  }

  lemma SpotOf(cols: nat, q: Item)
    ensures Spot(cols, q) == At(cols, q.x, q.y)
  {
  }

  lemma NextRow(cols: nat, y: nat)
    ensures At(cols, 0, y + 1) == At(cols, 0, y) + cols
  {
  }

  lemma SameText(grid: seq<Char>, queue: seq<Item>, pending: seq<Option<nat>>, i: nat)
    requires |pending| == |grid| && i < |grid| && pending[i].None?
    ensures Logical(grid, queue, pending) == Logical(grid, queue, pending)[i := grid[i]]
  {
  }
}
