/** What a run of characters leaves on the screen when it goes on over several lines. */
module TextLines {
  import opened S = Screen
  import opened ScreenCells
  import opened TerminalImage
  import opened TerminalRuns
  import opened TerminalSteps

  /** How many rows a run that ends at `end` goes beyond row `bottom`. */
  function Further(cols: nat, bottom: nat, end: nat): (k: nat)
    requires cols >= 1
    ensures end <= At(cols, 0, bottom + k) && (k > 0 ==> At(cols, 0, bottom + k - 1) < end)
    decreases end - At(cols, 0, bottom)
  {
    NextRow(cols, bottom);
    if end <= At(cols, 0, bottom) then 0 else 1 + Further(cols, bottom + 1, end)
  }

  lemma FurtherIs(cols: nat, bottom: nat, end: nat, k: nat)
    requires cols >= 1 && end <= At(cols, 0, bottom + k) && (k > 0 ==> At(cols, 0, bottom + k - 1) < end)
    ensures Further(cols, bottom, end) == k
  {
    var i := Further(cols, bottom, end);
    hide At, Further;
    if i < k {
      RowOrder(cols, bottom + i, bottom + k - 1);
    } else if k < i {
      RowOrder(cols, bottom + k, bottom + i - 1);
    }
  }

  /** The cell at place `q` of the screen continued downwards by blank rows, with the run `cs` written from `a` on. */
  function Cell(s: Image, a: nat, cs: seq<nat>, end: nat, q: nat): Char
    requires end <= |s.text|
  {
    if a <= q < a + |cs| then Char(cs[q - a], s.fg, s.bg) else if q < end then s.text[q] else Blank(s)
  }

  lemma CellMore(s: Image, a: nat, cs: seq<nat>, c: nat, end: nat, q: nat)
    requires end <= |s.text|
    ensures Cell(s, a, cs + [c], end, q) ==
      if q == a + |cs| then Char(c, s.fg, s.bg) else Cell(s, a, cs, end, q)
  {
  }

  /** The cells from `lo` to `hi` show those `d` places on; the cells before and behind them do not move. */
  function Taped(s: Image, lo: nat, hi: nat, a: nat, cs: seq<nat>, d: nat): (r: seq<Char>)
    requires hi <= |s.text|
    ensures |r| == |s.text|
  {
    seq(|s.text|, j requires 0 <= j < |s.text| =>
      if j >= hi then s.text[j] else if j < lo then Cell(s, a, cs, hi, j) else Cell(s, a, cs, hi, j + d))
  }

  /** The row and column of a place, one of the columns `1..cols`; `k` further rows count as one place each. */
  predicate Behind(cols: nat, bottom: nat, x: nat, y: nat, k: nat, end: nat) {
    x <= cols && y < bottom && At(cols, x, y + k) == end && (k > 0 ==> x > 0 && y == bottom - 1)
  }

  lemma StillOnRow(cols: nat, bottom: nat, x: nat, y: nat, k: nat, end: nat)
    requires Behind(cols, bottom, x, y, k, end) && x < cols
    ensures Behind(cols, bottom, x + 1, y, k, end + 1) && Further(cols, bottom, end + 1) == k
    ensures At(cols, x, y) + At(cols, 0, k) == end && At(cols, x, y) < At(cols, 0, bottom)
  {
    AtOrder(cols, x, y, bottom);
    AtOrder(cols, x, y + k, bottom + k);
    NextRow(cols, y + k);
    assert (y + k) * cols == y * cols + k * cols;
    FurtherIs(cols, bottom, end + 1, k);
  }

  lemma OntoNextRow(cols: nat, bottom: nat, y: nat, k: nat, end: nat)
    requires cols >= 1 && Behind(cols, bottom, cols, y, k, end) && y < bottom - 1
    ensures k == 0 && At(cols, 0, y + 1) == end < At(cols, 0, bottom)
    ensures Behind(cols, bottom, 1, y + 1, 0, end + 1) && Further(cols, bottom, end + 1) == 0
  {
    AtOrder(cols, 0, y + 1, bottom);
    NextRow(cols, y);
    FurtherIs(cols, bottom, end + 1, 0);
  }

  lemma OntoNewRow(cols: nat, bottom: nat, k: nat, end: nat)
    requires cols >= 1 && bottom >= 1 && Behind(cols, bottom, cols, bottom - 1, k, end)
    ensures At(cols, 0, bottom + k) == end && At(cols, 0, bottom - 1) + At(cols, 0, k + 1) == end
    ensures Behind(cols, bottom, 1, bottom - 1, k + 1, end + 1) && Further(cols, bottom, end + 1) == k + 1
  {
    NextRow(cols, bottom - 1 + k);
    NextRow(cols, bottom + k);
    assert (bottom - 1) * cols + (k + 1) * cols == (bottom + k) * cols;
    FurtherIs(cols, bottom, end + 1, k + 1);
  }

  lemma NoRows(cols: nat)
    ensures At(cols, 0, 0) == 0
  {
  }

  /** A character more in a row that is there. */
  lemma TapedCell(s: Image, lo: nat, hi: nat, a: nat, cs: seq<nat>, c: nat, d: nat, i: nat)
    requires hi <= |s.text| && i < hi && i + d == a + |cs| && (d > 0 ==> lo <= i)
    ensures Taped(s, lo, hi, a, cs + [c], d) == Taped(s, lo, hi, a, cs, d)[i := Char(c, s.fg, s.bg)]
  {
    hide Cell, Taped;
    var t, u := Taped(s, lo, hi, a, cs, d), Taped(s, lo, hi, a, cs + [c], d);
    forall j | 0 <= j < |s.text| ensures u[j] == t[i := Char(c, s.fg, s.bg)][j] {
      TapedAt(s, lo, hi, a, cs, c, d, j);
    }
  }

  lemma TapedAt(s: Image, lo: nat, hi: nat, a: nat, cs: seq<nat>, c: nat, d: nat, j: nat)
    requires hi <= |s.text| && j < |s.text|
    ensures Taped(s, lo, hi, a, cs + [c], d)[j] ==
      if j < hi && (if j < lo then j else j + d) == a + |cs| then Char(c, s.fg, s.bg)
      else Taped(s, lo, hi, a, cs, d)[j]
  {
    hide Cell;
    CellMore(s, a, cs, c, hi, if j < lo then j else j + d);
  }

  lemma TapedHas(s: Image, lo: nat, hi: nat, a: nat, cs: seq<nat>, d: nat, j: nat)
    requires hi <= |s.text| && j < |s.text|
    ensures Taped(s, lo, hi, a, cs, d)[j] ==
      if j >= hi then s.text[j] else if j < lo then Cell(s, a, cs, hi, j) else Cell(s, a, cs, hi, j + d)
  {
  }

  lemma LeftHas(t: seq<Char>, lo: nat, hi: nat, k: nat, e: Char, j: nat)
    requires lo + k <= hi <= |t| && j < |t|
    ensures Left(t, lo, hi, k, e)[j] == if j < lo || hi <= j then t[j] else if j + k < hi then t[j + k] else e
  {
  }

  /** Moving on by a row that nothing was written to yet scrolls a blank row in. */
  lemma TapedUp(s: Image, lo: nat, hi: nat, a: nat, cs: seq<nat>, d: nat, cols: nat)
    requires hi <= |s.text| && lo + cols <= hi && a + |cs| <= hi + d
    ensures Taped(s, lo, hi, a, cs, d + cols) == Left(Taped(s, lo, hi, a, cs, d), lo, hi, cols, Blank(s))
  {
    hide Taped, Left;
    var t, u := Taped(s, lo, hi, a, cs, d), Taped(s, lo, hi, a, cs, d + cols);
    forall j | 0 <= j < |s.text| ensures u[j] == Left(t, lo, hi, cols, Blank(s))[j] {
      TapedHas(s, lo, hi, a, cs, d, j);
      TapedHas(s, lo, hi, a, cs, d + cols, j);
      LeftHas(t, lo, hi, cols, Blank(s), j);
      if j + cols < hi {
        TapedHas(s, lo, hi, a, cs, d, j + cols);
        assert j + (d + cols) == j + cols + d;
      }
    }
  }

  /** A character more that takes a new row. */
  lemma TapedRow(s: Image, lo: nat, hi: nat, a: nat, cs: seq<nat>, c: nat, d: nat, cols: nat)
    requires hi <= |s.text| && cols >= 1 && lo + cols <= hi && hi + d == a + |cs|
    ensures Taped(s, lo, hi, a, cs + [c], d + cols) ==
      Left(Taped(s, lo, hi, a, cs, d), lo, hi, cols, Blank(s))[hi - cols := Char(c, s.fg, s.bg)]
  {
    hide Taped, Left;
    TapedUp(s, lo, hi, a, cs, d, cols);
    TapedCell(s, lo, hi, a, cs, c, d + cols, hi - cols);
  }

  lemma StartTaped(s: Image, lo: nat, hi: nat, a: nat)
    requires hi <= |s.text|
    ensures Taped(s, lo, hi, a, [], 0) == s.text
  {
  }

  lemma StartBehind(cols: nat, bottom: nat, x: nat, y: nat)
    requires cols >= 1 && x <= cols && y < bottom
    ensures Behind(cols, bottom, x, y, 0, At(cols, x, y)) && Further(cols, bottom, At(cols, x, y)) == 0
  {
    NextRow(cols, y);
    RowOrder(cols, y + 1, bottom);
    FurtherIs(cols, bottom, At(cols, x, y), 0);
  }

  /** The run `cs` typed from the cursor of `s` on leaves `r`. */
  predicate Flowed(e: Env, p: Pen, s: Image, cs: seq<nat>, r: Image)
    requires PenOk(e, p) && At(e.cols, 0, p.bottom) <= |s.text|
  {
    var a := At(e.cols, s.x, s.y);
    var k := Further(e.cols, p.bottom, a + |cs|);
    var text := Taped(s, At(e.cols, 0, p.top), At(e.cols, 0, p.bottom), a, cs, At(e.cols, 0, k));
    && r == s.(text := text, x := r.x, y := r.y)
    && Behind(e.cols, p.bottom, r.x, r.y, k, a + |cs|) && (cs != [] ==> r.x > 0)
  }

  lemma FlowedOnRow(e: Env, p: Pen, s: Image, cs: seq<nat>, t: Image, c: nat)
    requires PenOk(e, p) && At(e.cols, 0, p.bottom) <= |s.text|
    requires Flowed(e, p, s, cs, t) && Fits(e, t) && t.x < e.cols
    ensures Flowed(e, p, s, cs + [c], Typed(e, p, t, c))
  {
    hide At, Taped, Further, Typed;
    var a := At(e.cols, s.x, s.y);
    var k := Further(e.cols, p.bottom, a + |cs|);
    TypedHere(e, p, t, c);
    StillOnRow(e.cols, p.bottom, t.x, t.y, k, a + |cs|);
    if k > 0 {
      RowOrder(e.cols, p.top, t.y);
    }
    AtOrder(e.cols, t.x, t.y, e.rows);
    NoRows(e.cols);
    TapedCell(s, At(e.cols, 0, p.top), At(e.cols, 0, p.bottom), a, cs, c, At(e.cols, 0, k), At(e.cols, t.x, t.y));

  }

  lemma FlowedToNextRow(e: Env, p: Pen, s: Image, cs: seq<nat>, t: Image, c: nat)
    requires PenOk(e, p) && At(e.cols, 0, p.bottom) <= |s.text| && p.wrap
    requires Flowed(e, p, s, cs, t) && Fits(e, t) && t.x == e.cols && t.y < p.bottom - 1
    ensures Flowed(e, p, s, cs + [c], Typed(e, p, t, c))
  {
    hide At, Taped, Further;
    var a := At(e.cols, s.x, s.y);
    var k := Further(e.cols, p.bottom, a + |cs|);
    OntoNextRow(e.cols, p.bottom, t.y, k, a + |cs|);
    NoRows(e.cols);
    TapedCell(s, At(e.cols, 0, p.top), At(e.cols, 0, p.bottom), a, cs, c, 0, At(e.cols, 0, t.y + 1));
  }

  lemma FlowedToNewRow(e: Env, p: Pen, s: Image, cs: seq<nat>, t: Image, c: nat)
    requires PenOk(e, p) && At(e.cols, 0, p.bottom) <= |s.text| && p.wrap && p.scroll
    requires Flowed(e, p, s, cs, t) && Fits(e, t) && t.x == e.cols && t.y == p.bottom - 1
    ensures Flowed(e, p, s, cs + [c], Typed(e, p, t, c))
  {
    hide At, Taped, Further, Left;
    var a := At(e.cols, s.x, s.y);
    var k := Further(e.cols, p.bottom, a + |cs|);
    OntoNewRow(e.cols, p.bottom, k, a + |cs|);
    NextRow(e.cols, p.bottom - 1);
    NextRow(e.cols, k);
    RowOrder(e.cols, p.top, p.bottom - 1);
    TapedRow(s, At(e.cols, 0, p.top), At(e.cols, 0, p.bottom), a, cs, c, At(e.cols, 0, k), e.cols);
  }

  /** Typing with wrapping and scrolling on writes the characters one after the other over the rest of the screen
      and on to new rows below the region, which is scrolled up once for each of them. The cursor stands behind the last
      character. */
  lemma {:induction false} TypedFlows(e: Env, p: Pen, s: Image, cs: seq<nat>)
    requires PenOk(e, p) && Fits(e, s) && p.wrap && p.scroll && s.y < p.bottom
    ensures At(e.cols, 0, p.bottom) <= |s.text| && Flowed(e, p, s, cs, TypedAll(e, p, s, cs))
  {
    hide At, Taped, Further, Typed;
    RowOrder(e.cols, p.bottom, e.rows);
    var n := |cs| - 1;
    if n < 0 {
      StartBehind(e.cols, p.bottom, s.x, s.y);
      StartTaped(s, At(e.cols, 0, p.top), At(e.cols, 0, p.bottom), At(e.cols, s.x, s.y));
      NoRows(e.cols);
    } else {
      TypedFlows(e, p, s, cs[..n]);
      var t := TypedAll(e, p, s, cs[..n]);
      assert cs == cs[..n] + [cs[n]];
      if t.x < e.cols {
        FlowedOnRow(e, p, s, cs[..n], t, cs[n]);
      } else if t.y < p.bottom - 1 {
        FlowedToNextRow(e, p, s, cs[..n], t, cs[n]);
      } else {
        FlowedToNewRow(e, p, s, cs[..n], t, cs[n]);
      }
    }
  }

  /** Within the region, lines follow each other on the screen, scrolling on or off. */
  lemma {:induction false} TypedWithin(e: Env, p: Pen, s: Image, cs: seq<nat>)
    requires PenOk(e, p) && Fits(e, s) && p.wrap && s.y < p.bottom
    requires At(e.cols, s.x, s.y) + |cs| <= At(e.cols, 0, p.bottom)
    ensures var r, a := TypedAll(e, p, s, cs), At(e.cols, s.x, s.y);
      && r == s.(text := Overlaid(s, a, cs), x := r.x, y := r.y) && At(e.cols, r.x, r.y) == a + |cs|
      && r.y < p.bottom && (cs != [] ==> r.x > 0)
  {
    hide At, Typed;
    var n := |cs| - 1;
    var a := At(e.cols, s.x, s.y);
    if n < 0 {
      assert Overlaid(s, a, cs) == s.text;
    } else {
      TypedWithin(e, p, s, cs[..n]);
      var t := TypedAll(e, p, s, cs[..n]);
      if t.x < e.cols {
        TypedHere(e, p, t, cs[n]);
        NextCell(e.cols, t.x, 1, t.y);
      } else {
        NextRow(e.cols, t.y);
        NextCell(e.cols, 0, e.cols, t.y);
        RowsLeft(e.cols, p.bottom, t.y + 1);
        TypedOnNextRow(e, p, t, cs[n]);
      }
    }
  }

  lemma RowsLeft(cols: nat, bottom: nat, y: nat)
    ensures At(cols, 0, y) < At(cols, 0, bottom) ==> y < bottom
    ensures At(cols, 1, y) == At(cols, 0, y) + 1
  {
    if bottom <= y {
      RowOrder(cols, bottom, y);
    }
  }

  lemma TypedOnNextRow(e: Env, p: Pen, s: Image, c: nat)
    requires PenOk(e, p) && Fits(e, s) && p.wrap && s.x == e.cols && s.y + 1 < p.bottom
    ensures At(e.cols, 0, s.y + 1) < |s.text|
    ensures Typed(e, p, s, c) ==
      s.(text := s.text[At(e.cols, 0, s.y + 1) := Char(c, s.fg, s.bg)], x := 1, y := s.y + 1)
  {
    hide At;
    AtOrder(e.cols, 0, s.y + 1, e.rows);
  }

  /** Lines are not continued: wrapping is off, or the last row of the region is reached and it does not scroll. */
  predicate Held(p: Pen, y: nat)
    requires p.bottom >= 1
  {
    !p.wrap || (y >= p.bottom - 1 && !p.scroll)
  }

  /** What does not fit a line that is not continued falls on its last column, one character over the other. */
  lemma {:induction false} TypedHeld(e: Env, p: Pen, s: Image, cs: seq<nat>)
    requires PenOk(e, p) && Fits(e, s) && Held(p, s.y) && s.x + |cs| > e.cols
    ensures At(e.cols, e.cols - 1, s.y) < |s.text|
    ensures TypedAll(e, p, s, cs) ==
      s.(text := Overlaid(s, At(e.cols, s.x, s.y), cs[..e.cols - s.x])
        [At(e.cols, e.cols - 1, s.y) := Char(cs[|cs| - 1], s.fg, s.bg)], x := e.cols)
  {
    hide At, Typed;
    AtOrder(e.cols, e.cols - 1, s.y, e.rows);
    var n := |cs| - 1;
    if s.x + n == e.cols {
      TypedRun(e, p, s, cs[..n]);
    } else {
      TypedHeld(e, p, s, cs[..n]);
      assert cs[..n][..e.cols - s.x] == cs[..e.cols - s.x];
    }
    TypedOver(e, p, TypedAll(e, p, s, cs[..n]), cs[n]);
  }

  lemma TypedOver(e: Env, p: Pen, s: Image, c: nat)
    requires PenOk(e, p) && Fits(e, s) && Held(p, s.y) && s.x == e.cols
    ensures At(e.cols, e.cols - 1, s.y) < |s.text|
    ensures Typed(e, p, s, c) == s.(text := s.text[At(e.cols, e.cols - 1, s.y) := Char(c, s.fg, s.bg)], x := e.cols)
  {
    hide At;
    AtOrder(e.cols, e.cols - 1, s.y, e.rows);
  }

  /** Below the region lines are continued down to the last row of the screen. */
  lemma {:induction false} TypedBelow(e: Env, p: Pen, s: Image, cs: seq<nat>)
    requires PenOk(e, p) && Fits(e, s) && p.wrap && p.scroll && s.y >= p.bottom
    requires At(e.cols, s.x, s.y) + |cs| <= At(e.cols, 0, e.rows)
    ensures var r, a := TypedAll(e, p, s, cs), At(e.cols, s.x, s.y);
      && r == s.(text := Overlaid(s, a, cs), x := r.x, y := r.y) && At(e.cols, r.x, r.y) == a + |cs|
      && r.y >= p.bottom && (cs != [] ==> r.x > 0)
  {
    hide At, Typed;
    var n := |cs| - 1;
    var a := At(e.cols, s.x, s.y);
    if n < 0 {
      assert Overlaid(s, a, cs) == s.text;
    } else {
      TypedBelow(e, p, s, cs[..n]);
      var t := TypedAll(e, p, s, cs[..n]);
      if t.x < e.cols {
        TypedHere(e, p, t, cs[n]);
        NextCell(e.cols, t.x, 1, t.y);
      } else {
        NextRow(e.cols, t.y);
        NextCell(e.cols, 0, e.cols, t.y);
        RowsLeft(e.cols, e.rows, t.y + 1);
        TypedOnRowBelow(e, p, t, cs[n]);
      }
    }
  }

  lemma TypedOnRowBelow(e: Env, p: Pen, s: Image, c: nat)
    requires PenOk(e, p) && Fits(e, s) && p.wrap && p.scroll && s.x == e.cols && p.bottom <= s.y < e.rows - 1
    ensures At(e.cols, 0, s.y + 1) < |s.text|
    ensures Typed(e, p, s, c) ==
      s.(text := s.text[At(e.cols, 0, s.y + 1) := Char(c, s.fg, s.bg)], x := 1, y := s.y + 1)
  {
    hide At;
    AtOrder(e.cols, 0, s.y + 1, e.rows);
  }

  /** On the last row of the screen below the region a full line is written over from its first column. */
  lemma TypedLastRow(e: Env, p: Pen, s: Image, cs: seq<nat>)
    requires PenOk(e, p) && Fits(e, s) && p.wrap && p.scroll && s.x == e.cols && p.bottom <= s.y == e.rows - 1
    requires 0 < |cs| <= e.cols
    ensures TypedAll(e, p, s, cs) == s.(text := Overlaid(s, At(e.cols, 0, s.y), cs), x := |cs|)
  {
    hide At, Typed, TypedAll, Overlaid, Fits, PenOk, EnvOk;
    var t := Typed(e, p, s, cs[0]);
    TypedLastCell(e, p, s, cs[0]);
    TypedFirst(e, p, s, cs);
    assert TypedAll(e, p, t, cs[1..]) == t.(text := Overlaid(t, At(e.cols, 1, s.y), cs[1..]), x := |cs|) by {
      TypedRun(e, p, t, cs[1..]);
    }
    NextCell(e.cols, 0, 1, s.y);
    FirstOverlaid(s, t, At(e.cols, 0, s.y), cs);
  }

  lemma TypedFirst(e: Env, p: Pen, s: Image, cs: seq<nat>)
    requires PenOk(e, p) && Fits(e, s) && cs != []
    ensures TypedAll(e, p, s, cs) == TypedAll(e, p, Typed(e, p, s, cs[0]), cs[1..])
  {
    hide Typed, TypedAll, PenOk, Fits;
    assert [cs[0]] + cs[1..] == cs;
    TypedSingle(e, p, s, cs[0]);
    TypedParts(e, p, s, [cs[0]], cs[1..]);
  }

  lemma FirstOverlaid(s: Image, t: Image, a: nat, cs: seq<nat>)
    requires cs != [] && a < |s.text| && t.text == s.text[a := Char(cs[0], s.fg, s.bg)] && t.fg == s.fg && t.bg == s.bg
    ensures Overlaid(t, a + 1, cs[1..]) == Overlaid(s, a, cs)
  {
  }

  lemma TypedLastCell(e: Env, p: Pen, s: Image, c: nat)
    requires PenOk(e, p) && Fits(e, s) && p.wrap && p.scroll && s.x == e.cols && p.bottom <= s.y == e.rows - 1
    ensures At(e.cols, 0, s.y) < |s.text|
    ensures Typed(e, p, s, c) == s.(text := s.text[At(e.cols, 0, s.y) := Char(c, s.fg, s.bg)], x := 1)
  {
    hide At;
    AtOrder(e.cols, 0, s.y, e.rows);
  }

  /** A text in UTF-8, over as many lines as it takes. */
  lemma TextFlows(ms: seq<Machine>, text: seq<nat>)
    requires Run(ms, TextBytes(text)) && Typing(ms[0].ctx) && forall i :: 0 <= i < |text| ==> Prints(text[i])
    requires ms[0].ctx.wrapEnabled && ms[0].ctx.scrollEnabled && ms[0].image.y < ms[0].ctx.bottom
    ensures PenOk(ms[0].env, PenOf(ms[0].ctx)) && At(ms[0].env.cols, 0, ms[0].ctx.bottom) <= |ms[0].image.text|
    ensures Flowed(ms[0].env, PenOf(ms[0].ctx), ms[0].image, TextGlyphs(ms[0].env, text),
                   ms[|TextBytes(text)|].image)
  {
    hide Run, TextBytes, Typing, Prints, Fits, At, TypedAll, Flowed, TextGlyphs;
    RunStates(ms, TextBytes(text));
    TextRun(ms, text);
    TypedFlows(ms[0].env, PenOf(ms[0].ctx), ms[0].image, TextGlyphs(ms[0].env, text));
  }

  /** A text in UTF-8 on a line that is not continued. */
  lemma TextHeld(ms: seq<Machine>, text: seq<nat>)
    requires Run(ms, TextBytes(text)) && Typing(ms[0].ctx) && forall i :: 0 <= i < |text| ==> Prints(text[i])
    requires ms[0].ctx.bottom >= 1 && Held(PenOf(ms[0].ctx), ms[0].image.y)
    requires ms[0].image.x + |TextGlyphs(ms[0].env, text)| > ms[0].env.cols
    ensures var e, s, cs := ms[0].env, ms[0].image, TextGlyphs(ms[0].env, text);
      && PenOk(e, PenOf(ms[0].ctx)) && s.x <= e.cols && At(e.cols, e.cols - 1, s.y) < |s.text|
      && ms[|TextBytes(text)|].image ==
         s.(text := Overlaid(s, At(e.cols, s.x, s.y), cs[..e.cols - s.x])
           [At(e.cols, e.cols - 1, s.y) := Char(cs[|cs| - 1], s.fg, s.bg)], x := e.cols)
  {
    hide Run, TextBytes, Typing, Prints, At, TypedAll, TextGlyphs, Overlaid;
    RunStates(ms, TextBytes(text));
    TextRun(ms, text);
    TypedHeld(ms[0].env, PenOf(ms[0].ctx), ms[0].image, TextGlyphs(ms[0].env, text));
  }
}
