/** Control characters, the index functions, margins and private modes, from their bytes. */
module ControlRuns {
  import opened Basics
  import opened EditingLaws
  import opened Options
  import opened Screen
  import opened ScreenCells
  import opened SequenceRuns
  import opened Sgr
  import opened TerminalContext
  import opened TerminalImage
  import opened TerminalRuns
  import opened TerminalSteps
  import opened Utf8

  /** The column the cursor is seen in. */
  function Column(e: Env, s: Image): nat {
    if s.x < e.cols then s.x else if e.cols >= 1 then e.cols - 1 else 0
  }

  lemma ControlStep(m: Machine, c: nat)
    requires MachineOk(m) && AtRest(m.ctx) && 8 <= c <= 13
    ensures PenOk(m.env, PenOf(m.ctx)) && Fits(m.env, m.image)
    ensures var n := Step(m, c);
      n.image == Controlled(m.env, PenOf(m.ctx), m.image, c) && n.env == m.env && n.ctx == Quiet(m.ctx, c)
  {
    hide ContextOk, Fits, EnvOk, Params, AttributesOk, Collecting, EscapeContext, EscapeImage, Controlled, Quiet;
    LegalParts(m.env, m.ctx, m.image);
    QuietKeeps(m.ctx, c);
  }

  /** The single cursor movements: back, to the next tab stop, and to the first column. */
  lemma SmallMoves(m: Machine)
    requires MachineOk(m) && AtRest(m.ctx)
    ensures m.env.cols >= 1 && m.ctx.tabSize >= 1
    ensures var x := Column(m.env, m.image);
      Step(m, 8).image == if x > 0 then m.image.(x := x - 1) else m.image
    ensures Step(m, 13).image == m.image.(x := 0)
    ensures var x, t := Column(m.env, m.image), Step(m, 9).image;
      && t == m.image.(x := t.x)
      && (t.x == m.env.cols - 1 || (x < t.x <= x + m.ctx.tabSize && t.x % m.ctx.tabSize == 0))
      && (forall i :: x < i < t.x ==> i % m.ctx.tabSize != 0)
  {
    hide Step, Quiet, NextTab, AtRest, MachineOk;
    ControlStep(m, 8);
    ControlStep(m, 9);
    ControlStep(m, 13);
    TabStop(Column(m.env, m.image), m.ctx.tabSize);
  }

  /** The next tab stop is the next multiple of the distance. */
  lemma TabStop(x: nat, size: nat)
    requires size >= 1
    ensures x < NextTab(x, size) <= x + size && NextTab(x, size) % size == 0
    ensures forall i :: x < i < NextTab(x, size) ==> i % size != 0
  {
    var q, r := x / size, x % size;
    assert x == q * size + r;
    assert NextTab(x, size) == q * size + size;
    NoRemainder(q + 1, size);
    forall i | x < i < NextTab(x, size) ensures i % size != 0 {
      BetweenStops(i, q, size);
    }
  }

  lemma NoRemainder(k: nat, size: nat)
    requires size >= 1
    ensures k * size % size == 0
  {
    var z := k * size;
    var d := z / size - k;
    assert d * size == -(z % size);
    assert d >= 1 ==> d * size >= size;
    assert d <= -1 ==> d * size + size <= 0;
  }

  lemma BetweenStops(i: nat, q: nat, size: nat)
    requires size >= 1 && q * size < i < q * size + size
    ensures i % size != 0
  {
    var d := i / size - q;
    assert d * size == i - i % size - q * size;
    assert d >= 1 ==> d * size >= size;
    assert d <= -1 ==> d * size + size <= 0;
  }

  /** A line feed goes down a row; at the bottom margin the rows of the region move up instead, and elsewhere on the
      last row nothing happens. */
  lemma FeedCell(m: Machine, j: nat, w: nat)
    requires MachineOk(m) && AtRest(m.ctx) && j < m.env.cols && w < m.env.rows
    ensures At(m.env.cols, j, w) < |m.image.text|
    ensures w + 1 < m.ctx.bottom ==> At(m.env.cols, j, w + 1) < |m.image.text|
    ensures var s, t, b := m.image, Step(m, 10).image, m.ctx.bottom;
      && |t.text| == |s.text| && t == s.(text := t.text, x := Column(m.env, s), y := t.y)
      && t.y == (if s.y == b - 1 || s.y == m.env.rows - 1 then s.y else s.y + 1)
      && t.text[At(m.env.cols, j, w)] ==
         if s.y != b - 1 || w < m.ctx.top || w >= b then s.text[At(m.env.cols, j, w)]
         else if w + 1 < b then s.text[At(m.env.cols, j, w + 1)] else Blank(s)
  {
    hide Step, Quiet, AtRest, MachineOk, At, Left;
    ControlStep(m, 10);
    var s := m.image;
    var v := ViewOf(m.env, PenOf(m.ctx), s);
    MovedRow('S', 1, v, s.text, j, w);
    OneRow(m.env.cols);
  }

  lemma OneRow(cols: nat)
    ensures At(cols, 0, 1) == cols
  {
  }

  /** The index functions: down, down to the first column, and up. */
  lemma IndexRun(ms: seq<Machine>, c: nat)
    requires Run(ms, [ESC, c]) && AtRest(ms[0].ctx) && (c == 68 || c == 69 || c == 77)
    ensures PenOk(ms[0].env, PenOf(ms[0].ctx)) && Fits(ms[0].env, ms[0].image)
    ensures ms[2].image == Indexed(ms[0].env, PenOf(ms[0].ctx), ms[0].image, c)
  {
    hide Run, Step, MachineOk, AtRest, AtOffset, Escaped, Quiet, Escaping, ActionContext, Indexed, PenOf, FrameOf,
      FrameOk;
    RunStates(ms, [ESC, c]);
    assert [ESC, c] == [ESC] + [c];
    RunParts(ms, [ESC], [c]);
    RunOne(ms[..2], ESC);
    RunOne(ms[1..], c);
    EscapeStep(ms[0]);
    QuietRest(ms[0].ctx);
    EscapingParts(Quiet(ms[0].ctx, ESC));
    AfterEscape(ms[1], c);
    QuietKeeps(ms[0].ctx, ESC);
    EscapingPen(Quiet(ms[0].ctx, ESC));
    LegalMachine(ms[0]);
  }

  lemma EscapingPen(k: Context)
    ensures PenOf(Escaping(k, 0, true)) == PenOf(k)
  {
  }

  /** The reverse index goes up a row; at the top margin the rows of the region move down instead, and elsewhere on the
      first row nothing happens. */
  lemma ReverseCell(e: Env, p: Pen, s: Image, j: nat, w: nat)
    requires PenOk(e, p) && Fits(e, s) && j < e.cols && w < e.rows
    ensures At(e.cols, j, w) < |s.text| && (w >= 1 ==> At(e.cols, j, w - 1) < |s.text|)
    ensures var t := Indexed(e, p, s, 77);
      && |t.text| == |s.text| && t == s.(text := t.text, x := t.x, y := t.y) && Column(e, t) == Column(e, s)
      && t.y == (if s.y == p.top || s.y == 0 then s.y else s.y - 1)
      && t.text[At(e.cols, j, w)] ==
         if s.y != p.top || w < p.top || w >= p.bottom then s.text[At(e.cols, j, w)]
         else if w > p.top then s.text[At(e.cols, j, w - 1)] else Blank(s)
  {
    hide At, Right, Left;
    MovedRow('T', 1, ViewOf(e, p, s), s.text, j, w);
    OneRow(e.cols);
  }

  /** The index is a line feed as far as is seen, and the next line one that ends in the first column. */
  lemma IndexAsFeed(e: Env, p: Pen, s: Image)
    requires PenOk(e, p) && Fits(e, s)
    ensures var t, f := Indexed(e, p, s, 68), Fed(e, p, s);
      t.text == f.text && t.y == f.y && Column(e, t) == Column(e, f) && t.fg == s.fg && t.bg == s.bg
    ensures Indexed(e, p, s, 69) == Fed(e, p, s).(x := 0)
  {
    hide At, Right, Left;
  }

  /** A line feed and a reverse index come back to the same screen, unless a margin was met on the way. */
  lemma FeedAndBack(e: Env, p: Pen, s: Image)
    requires PenOk(e, p) && Fits(e, s) && s.y + 1 < e.rows && s.y != p.bottom - 1 && s.y + 1 != p.top
    ensures Indexed(e, p, Fed(e, p, s), 77) == s.(x := Column(e, s))
  {
    hide At, Right, Left;
  }

  /** Margins are set to the rows given, counted from one, and the cursor goes home. */
  lemma MarginRun(ms: seq<Machine>, top: seq<nat>, bottom: seq<nat>)
    requires Numerals([top, bottom]) && top != [] && bottom != []
    requires Run(ms, [ESC, 91] + Joined([top, bottom]) + [114]) && AtRest(ms[0].ctx) && !ms[0].ctx.decPrivate
    requires 1 <= Value(top) < Value(bottom) <= ms[0].env.rows && Value(bottom) < U32
    ensures var m, n := ms[0], ms[|Joined([top, bottom])| + 3];
      && n.ctx.top == Value(top) - 1 && n.ctx.bottom == Value(bottom)
      && n.image == m.image.(x := 0, y := if m.ctx.originMode then Value(top) - 1 else 0)
  {
    hide Run, AtRest, Joined, ValuesOf, Given, Defaulted, EditedImage, MovedImage, Value, FrameFor, Fits;
    RunStates(ms, [ESC, 91] + Joined([top, bottom]) + [114]);
    SequenceRun(ms, [top, bottom], 114);
    GivenValues(ms[0].ctx, [top, bottom], 114);
    assert 114 as char == 'r';
    PenFor(ms[0].ctx, [top, bottom], 114);
  }

  lemma PenFor(k: Context, ps: seq<seq<nat>>, c: nat)
    requires Numerals(ps)
    ensures FrameFor(k, ps, c).pen == PenOf(k)
  {
    hide ValuesOf, Given, Defaulted, DefaultFor;
  }

  /** The private modes of one digit: wrapping is the seventh, the origin the sixth, which also moves the cursor. */
  lemma ModeRun(ms: seq<Machine>, d: nat, c: nat)
    requires 6 <= d <= 7 && (c == 104 || c == 108) && Run(ms, [ESC, 91, 63, 48 + d, c]) && AtRest(ms[0].ctx)
    ensures var m, n, on := ms[0], ms[5], c == 104;
      && n.ctx.wrapEnabled == (if d == 7 then on else m.ctx.wrapEnabled)
      && n.ctx.originMode == (if d == 6 then on else m.ctx.originMode)
      && n.ctx.cursorEnabled == m.ctx.cursorEnabled && n.ctx.attrs == m.ctx.attrs
      && n.image == if d == 7 then m.image else m.image.(x := 0, y := if on then m.ctx.top else 0)
  {
    hide Run, AtRest, FrameFor;
    var ps := [[d]];
    assert Numerals(ps) && Joined(ps) == [48 + d];
    assert [ESC, 91, 63, 48 + d, c] == [ESC, 91, 63] + Joined(ps) + [c];
    RunStates(ms, [ESC, 91, 63, 48 + d, c]);
    PrivateRun(ms, ps, c);
    assert Value(ps[0]) == d by { assert [d][..0] == []; }
    GivenValues(ms[0].ctx, ps, c);
    PenFor(ms[0].ctx, ps, c);
    var f := FrameFor(ms[0].ctx, ps, c);
    assert f.values[..f.count] == [d];
    OneMode(ms[0].env, f.pen.top, ms[0].image, d, c == 104);
  }

  lemma OneMode(e: Env, top: nat, s: Image, d: nat, on: bool)
    ensures PrivateAll(e, top, s, [d], on) == PrivateOne(e, top, s, d, on)
  {
    hide PrivateOne;
    assert [d][..0] == [];
  }

  /** A full reset: the screen is blank in the default colours, the cursor is home, and the modes are the initial
      ones. */
  lemma ResetRun(ms: seq<Machine>)
    requires Run(ms, [ESC, 99]) && AtRest(ms[0].ctx)
    ensures var e, k, t := ms[0].env, ms[2].ctx, ms[2].image;
      && |t.text| == |ms[0].image.text| && t.x == t.y == 0 && t.fg == e.palette.fg && t.bg == TRANSPARENT
      && (forall i :: 0 <= i < |t.text| ==> t.text[i] == Char(0x20, e.palette.fg, TRANSPARENT))
      && k.wrapEnabled && k.scrollEnabled && k.cursorEnabled && !k.originMode && !k.insertMode && k.tabSize == 8
      && k.top == 0 && k.bottom == e.rows && k.attrs == Attributes(false, false, false, COLOR_DEFAULT, COLOR_DEFAULT)
      && k.charsets == [CHARSET_DEFAULT, CHARSET_DEC_SPECIAL] && k.currentCharset == 0
  {
    hide Run, Step, MachineOk, AtRest, AtOffset, Escaped, Quiet, PenOf, FrameOf, FrameOk;
    RunStates(ms, [ESC, 99]);
    assert [ESC, 99] == [ESC] + [99];
    RunParts(ms, [ESC], [99]);
    RunOne(ms[..2], ESC);
    RunOne(ms[1..], 99);
    EscapeStep(ms[0]);
    QuietRest(ms[0].ctx);
    EscapingParts(Quiet(ms[0].ctx, ESC));
    AfterEscape(ms[1], 99);
  }

  /** Entering and leaving the alternate screen both blank the screen; leaving also makes attributes and colours
      plain. */
  lemma AlternateRun(ms: seq<Machine>, c: nat)
    requires (c == 104 || c == 108) && Run(ms, [ESC, 91, 63, 49, 48, 52, 57, c]) && AtRest(ms[0].ctx)
    ensures var s, t := ms[0].image, ms[8].image;
      && |t.text| == |s.text| && t.x == t.y == 0
      && (if c == 104 then t.fg == s.fg && t.bg == s.bg else t.fg == ms[0].env.palette.fg && t.bg == TRANSPARENT)
      && (forall i :: 0 <= i < |t.text| ==> t.text[i] == Char(0x20, t.fg, t.bg))
      && ms[8].ctx.attrs == if c == 104 then ms[0].ctx.attrs else PLAIN
  {
    hide Run, AtRest, FrameFor, Value;
    var ps := [[1, 0, 4, 9]];
    assert Numerals(ps) && Joined(ps) == [49, 48, 52, 57];
    assert [ESC, 91, 63, 49, 48, 52, 57, c] == [ESC, 91, 63] + Joined(ps) + [c];
    RunStates(ms, [ESC, 91, 63, 49, 48, 52, 57, c]);
    PrivateRun(ms, ps, c);
    FourDigits();
    GivenValues(ms[0].ctx, ps, c);
    var f := FrameFor(ms[0].ctx, ps, c);
    assert f.values[..f.count] == [1049];
    OneMode(ms[0].env, f.pen.top, ms[0].image, 1049, c == 104);
  }

  lemma FourDigits()
    ensures Value([1, 0, 4, 9]) == 1049
  {
    assert [1][..0] == [];
    assert Value([1]) == 1;
    assert [1, 0][..1] == [1];
    assert Value([1, 0]) == 10;
    assert [1, 0, 4][..2] == [1, 0];
    assert Value([1, 0, 4]) == 104;
    assert [1, 0, 4, 9][..3] == [1, 0, 4];
  }

  /** The line drawing set: corners, lines, tees and the cross, in code page 437, and no glyph twice. */
  lemma LineDrawing(a: nat, b: nat)
    ensures DecGlyph(108) == Some(0xDA) && DecGlyph(107) == Some(0xBF) && DecGlyph(109) == Some(0xC0)
    ensures DecGlyph(106) == Some(0xD9) && DecGlyph(113) == Some(0xC4) && DecGlyph(120) == Some(0xB3)
    ensures DecGlyph(116) == Some(0xC3) && DecGlyph(117) == Some(0xB4) && DecGlyph(119) == Some(0xC2)
    ensures DecGlyph(118) == Some(0xC1) && DecGlyph(110) == Some(0xC5)
    ensures DecGlyph(a).Some? && DecGlyph(a) == DecGlyph(b) ==> a == b
  {
  }
}
