/** What the screen looks like after each byte: the text, the cursor and the colours, as closed forms put together
    the way bytes are classified. */
module TerminalImage {
  import opened Basics
  import opened ControlFunctions
  import opened Options
  import opened S = Screen
  import opened ScreenCells
  import opened ScreenEditing
  import opened Sgr
  import opened TerminalContext
  import opened Utf8

  /** The logical text, the cursor, and the colours of what is printed next. */
  datatype Image = Image(text: seq<Char>, x: nat, y: nat, fg: nat, bg: nat)

  /** What the bytes themselves do not change, and what the last save kept. */
  datatype Env = Env(cols: nat, rows: nat, palette: Palette, table: Table, glyphOf: nat -> int, widthOf: nat -> int,
                     savedX: nat, savedY: nat, savedFg: nat, savedBg: nat)

  /** The modes that printing depends on. */
  datatype Pen = Pen(top: nat, bottom: nat, wrap: bool, scroll: bool, insert: bool, origin: bool, tab: nat)

  function PenOf(k: Context): Pen {
    Pen(k.top, k.bottom, k.wrapEnabled, k.scrollEnabled, k.insertMode, k.originMode, k.tabSize)
  }

  predicate EnvOk(e: Env) {
    && e.cols >= 1 && e.rows >= 1 && PaletteOk(e.palette) && |e.table.col256| == 240 && e.savedX <= e.cols
       && e.savedY < e.rows
  }

  predicate PenOk(e: Env, p: Pen) {
    EnvOk(e) && p.top < p.bottom <= e.rows && p.tab >= 1
  }

  predicate Fits(e: Env, s: Image) {
    EnvOk(e) && s.x <= e.cols && s.y < e.rows && |s.text| == At(e.cols, 0, e.rows)
  }

  function Blank(s: Image): Char {
    Char(BLANK, s.fg, s.bg)
  }

  /** The screen as the control functions see it; a cursor past the last column counts as on it. */
  function ViewOf(e: Env, p: Pen, s: Image): (v: View)
    requires PenOk(e, p) && Fits(e, s)
    ensures ViewOk(v)
  {
    View(e.cols, e.rows, p.top, p.bottom, if s.x >= e.cols then e.cols - 1 else s.x, s.y, Blank(s))
  }

  /** A character is written where it lands, after scrolling if need be, and the cursor stands behind it. */
  function Typed(e: Env, p: Pen, s: Image, c: nat): (r: Image)
    requires PenOk(e, p) && Fits(e, s)
    ensures Fits(e, r) && r.fg == s.fg && r.bg == s.bg
  {
    var (x, y, up) := Landing(s.x, s.y, e.cols, e.rows, p.wrap, p.scroll, p.bottom);
    AtOrder(e.cols, x, y, e.rows);
    var text := if up then ScrolledUp(s.text, e.cols, p.top, p.bottom, Blank(s)) else s.text;
    s.(text := text[At(e.cols, x, y) := Char(c, s.fg, s.bg)], x := x + 1, y := y)
  }

  function TypedAll(e: Env, p: Pen, s: Image, cs: seq<nat>): (r: Image)
    requires PenOk(e, p) && Fits(e, s)
    ensures Fits(e, r) && r.fg == s.fg && r.bg == s.bg
  {
    if cs == [] then s else Typed(e, p, TypedAll(e, p, s, cs[..|cs| - 1]), cs[|cs| - 1])
  }

  /** The rest of the line moved aside by one place. */
  function Pushed(e: Env, s: Image): (r: Image)
    requires Fits(e, s)
    ensures Fits(e, r) && r.fg == s.fg && r.bg == s.bg
  {
    var x := if s.x >= e.cols then e.cols - 1 else s.x;
    AtOrder(e.cols, x, s.y, e.rows);
    var here := At(e.cols, x, s.y);
    s.(text := Right(s.text, here, At(e.cols, 0, s.y) + e.cols, 1, s.text[here]))
  }

  /** Made room for, in insert mode. */
  function Opened(e: Env, p: Pen, s: Image): (r: Image)
    requires Fits(e, s)
    ensures Fits(e, r) && r.fg == s.fg && r.bg == s.bg
  {
    if p.insert then Pushed(e, s) else s
  }

  /** A character entered `n` times. */
  function Again(e: Env, p: Pen, s: Image, c: nat, n: nat): (r: Image)
    requires PenOk(e, p) && Fits(e, s)
    ensures Fits(e, r) && r.fg == s.fg && r.bg == s.bg
  {
    if n == 0 then s else Typed(e, p, Opened(e, p, Again(e, p, s, c, n - 1)), c)
  }

  /** The next line; at the bottom margin the region scrolls. */
  function Fed(e: Env, p: Pen, s: Image): Image
    requires PenOk(e, p) && Fits(e, s)
  {
    var v := ViewOf(e, p, s);
    if v.y == p.bottom - 1 then s.(text := ScrolledUp(s.text, e.cols, p.top, p.bottom, v.blank), x := v.x)
    else s.(x := v.x, y := Least(v.y + 1, e.rows - 1))
  }

  /** Control characters. */
  function Controlled(e: Env, p: Pen, s: Image, c: nat): Image
    requires PenOk(e, p) && Fits(e, s)
  {
    var v := ViewOf(e, p, s);
    if c == 8 && v.x > 0 then s.(x := v.x - 1)
    else if c == 9 then s.(x := Least(NextTab(v.x, p.tab), e.cols - 1))
    else if 10 <= c <= 12 then Fed(e, p, s)
    else if c == 13 then s.(x := 0)
    else s
  }

  /** Index, next line and reverse index. */
  function Indexed(e: Env, p: Pen, s: Image, c: nat): Image
    requires PenOk(e, p) && Fits(e, s)
  {
    var v := ViewOf(e, p, s);
    var x := if c == 69 then 0 else v.x;
    if c == 77 then
      if v.y == p.top then s.(text := ScrolledDown(s.text, e.cols, p.top, p.bottom, v.blank), x := v.x)
      else if v.y > 0 then s.(x := v.x, y := v.y - 1)
      else s
    else if v.y == p.bottom - 1 then s.(text := ScrolledUp(s.text, e.cols, p.top, p.bottom, v.blank), x := x)
    else if v.y < e.rows - 1 then s.(x := x, y := v.y + 1)
    else if c == 69 then s.(x := 0)
    else s
  }

  /** Editing functions; those that write put a cursor past the last column back on it. */
  function EditedImage(e: Env, p: Pen, s: Image, c: char, n: nat): Image
    requires PenOk(e, p) && Fits(e, s)
  {
    var v := ViewOf(e, p, s);
    s.(text := Edited(c, n, v, s.text), x := if Rewrites(c, n) then v.x else s.x)
  }

  predicate Rewrites(c: char, n: nat) {
    (c == 'K' && n <= 2) || c == '@' || c == 'P' || c == 'X' || (c == 'J' && n <= 1)
  }

  function MovedImage(e: Env, p: Pen, s: Image, c: char, n: nat, m: nat): Image
    requires PenOk(e, p) && Fits(e, s)
  {
    var (x, y) := Moved(c, n, m, ViewOf(e, p, s), p.origin);
    s.(x := x, y := y)
  }

  /** What the control functions depend on besides their parameters, and the parameters read so far. */
  datatype Frame = Frame(pen: Pen, attrs: Attributes, savedX: nat, savedY: nat, lastPrinted: nat, graphic: bool,
                         private: bool, unhandled: bool, values: seq<nat>, count: nat)

  function FrameOf(k: Context): Frame {
    Frame(PenOf(k), k.attrs, k.savedCursorX, k.savedCursorY, k.lastPrinted, k.lastWasGraphic, k.decPrivate,
          k.csiUnhandled, k.escValues, ParamCount(k))
  }

  predicate FrameOk(e: Env, f: Frame) {
    PenOk(e, f.pen) && AttributesOk(f.attrs) && Params(f.values) && f.count <= MAX_ESC_VALUES
  }

  /** Functions that neither edit nor move: attributes, the cursor saved by a control function, margins, repetition. */
  function StateImage(e: Env, f: Frame, s: Image, c: char): Image
    requires FrameOk(e, f) && Fits(e, s)
  {
    if c == 'm' then
      var r := RenderedAll(e.palette, e.table, Ink(f.attrs, s.fg, s.bg), f.values, f.count);
      s.(fg := r.fg, bg := r.bg)
    else if c == 'u' then s.(x := Clamp(f.savedX, e.cols), y := Clamp(f.savedY, e.rows))
    else if c == 'r' then
      s.(x := 0, y := if f.pen.origin then Margins(e.rows, f.count, f.values[0], f.values[1]).0 else 0)
    else if c == 'b' && f.graphic then Again(e, f.pen, s, f.lastPrinted, Least(f.values[0], 65535))
    else s
  }

  /** A control function with its parameters. */
  function FinalImage(e: Env, f: Frame, s: Image, c: char): Image
    requires FrameOk(e, f) && Fits(e, s)
  {
    if MovesCursor(c) then MovedImage(e, f.pen, s, c, f.values[0], f.values[1])
    else if EditsText(c) then EditedImage(e, f.pen, s, c, f.values[0])
    else StateImage(e, f, s, c)
  }

  function Cleared(s: Image): Image {
    s.(text := seq(|s.text|, i => Blank(s)), x := 0, y := 0)
  }

  /** Private modes: origin mode moves the cursor, the alternate screen clears. */
  function PrivateOne(e: Env, top: nat, s: Image, v: nat, on: bool): Image {
    if v == 6 then s.(x := 0, y := if on then top else 0)
    else if v == 1049 then Cleared(if on then s else s.(fg := e.palette.fg, bg := TRANSPARENT))
    else s
  }

  function PrivateAll(e: Env, top: nat, s: Image, values: seq<nat>, on: bool): Image {
    if values == [] then s
    else PrivateOne(e, top, PrivateAll(e, top, s, values[..|values| - 1], on), values[|values| - 1], on)
  }

  /** A byte that ends the parameters of a control sequence. */
  function EndImage(e: Env, f: Frame, s: Image, c: nat): Image
    requires FrameOk(e, f) && Fits(e, s) && c < 0x100
  {
    if f.private then
      if c == 104 || c == 108 then PrivateAll(e, f.pen.top, s, f.values[..f.count], c == 104) else s
    else if f.unhandled || c == ESC || !(0x40 <= c <= 0x7E) then s
    else FinalImage(e, f, s, c as char)
  }

  /** A byte inside a control sequence, the `offset`th since the escape character. Parameters that are missing take
      their defaults when it ends. */
  function SequenceImage(e: Env, f: Frame, offset: nat, s: Image, c: nat): Image
    requires FrameOk(e, f) && Fits(e, s) && c < 0x100
  {
    if offset == 2 && (c == 91 || c == 63) then s
    else if c < 0x20 && c != ESC then Controlled(e, f.pen, s, c)
    else if 48 <= c <= 57 || c == 59 then s
    else EndImage(e, f.(values := Defaulted(f.values, f.count, DefaultFor(c))), s, c)
  }

  /** A byte that follows the escape character itself. */
  function SimpleImage(e: Env, p: Pen, s: Image, c: nat): Image
    requires PenOk(e, p) && Fits(e, s)
  {
    if c == 56 then s.(x := e.savedX, y := e.savedY, fg := e.savedFg, bg := e.savedBg)
    else if c == 99 then Cleared(s.(fg := e.palette.fg, bg := TRANSPARENT))
    else if c == 68 || c == 69 || c == 77 then Indexed(e, p, s, c)
    else s
  }

  /** A byte in an escape sequence; a byte that ends a command to the host without being part of it is looked at
      again. */
  function EscapeImage(e: Env, k: Context, s: Image, c: nat): Image
    requires FrameOk(e, FrameOf(k)) && Fits(e, s) && c < 0x100
  {
    if k.osc && !(k.oscEscape && c != 92) then s
    else if k.controlSequence then SequenceImage(e, FrameOf(k), if k.osc then 1 else k.escapeOffset + 1, s, c)
    else SimpleImage(e, PenOf(k), s, c)
  }

  /** A byte outside all sequences, which stands for the glyph if there is one. */
  function GroundImage(e: Env, p: Pen, glyph: Option<nat>, s: Image, c: nat): Image
    requires PenOk(e, p) && Fits(e, s)
  {
    if 8 <= c <= 15 then Controlled(e, p, s, c)
    else if c == 0 || c == 7 || c == 0x7F || c == ESC then s
    else if glyph.Some? then Typed(e, p, Opened(e, p, s), glyph.value)
    else Opened(e, p, s)
  }

  /** The characters a code point is printed as: its glyph, or a replacement as wide as it is. */
  function Glyphs(e: Env, cp: nat): seq<nat> {
    if e.glyphOf(cp) != -1 then [e.glyphOf(cp) % 0x100]
    else if e.widthOf(cp) <= 0 then []
    else [REPLACEMENT] + seq(e.widthOf(cp) - 1, i => BLANK)
  }

  const REPLACEMENT: nat := 0xFE

  /** A byte while no multi-byte sequence is being collected. */
  function IdleImage(e: Env, k: Context, s: Image, c: nat): Image
    requires FrameOk(e, FrameOf(k)) && CharsetsOk(k.charsets, k.currentCharset) && Fits(e, s) && c < 0x100
  {
    if 0xC2 <= c <= 0xF4 then s
    else if k.escape then EscapeImage(e, k, s, c)
    else if k.gSelect != 0 && !(c <= 0x1F || c == 0x7F) then s
    else GroundImage(e, PenOf(k), PrintsAs(k, c), s, c)
  }

  /** The screen after a byte that breaks a multi-byte sequence, before that byte is looked at again. */
  function BrokenImage(e: Env, k: Context, s: Image, c: nat): (r: Image)
    requires PenOk(e, PenOf(k)) && Fits(e, s)
    ensures Fits(e, r)
  {
    if c / 0x40 != 2 then Typed(e, PenOf(k), s, REPLACEMENT) else s
  }

  /** Any byte in any state. */
  function ByteImage(e: Env, k: Context, s: Image, c: nat): Image
    requires FrameOk(e, FrameOf(k)) && CharsetsOk(k.charsets, k.currentCharset) && Fits(e, s) && c < 0x100
    requires k.decoder.remaining <= 3
  {
    if Cancels(k, c) then s
    else if k.decoder.remaining == 0 then IdleImage(e, k, s, c)
    else match Continue(k.decoder, c)
      case More(_) => s
      case Done(cp) => TypedAll(e, PenOf(k), s, Glyphs(e, cp))
      case Broken => IdleImage(e, k, BrokenImage(e, k, s, c), c)
  }

  /** Within the line, a character takes the cursor's cell. */
  lemma TypedHere(e: Env, p: Pen, s: Image, c: nat)
    requires PenOk(e, p) && Fits(e, s) && s.x < e.cols
    ensures At(e.cols, s.x, s.y) < |s.text|
    ensures Typed(e, p, s, c) == s.(text := s.text[At(e.cols, s.x, s.y) := Char(c, s.fg, s.bg)], x := s.x + 1)
  {
    hide At;
    AtOrder(e.cols, s.x, s.y, e.rows);
  }

  /** Characters that fit the rest of the line take its next cells in order. */
  lemma {:induction false} TypedRun(e: Env, p: Pen, s: Image, cs: seq<nat>)
    requires PenOk(e, p) && Fits(e, s) && s.x + |cs| <= e.cols
    ensures TypedAll(e, p, s, cs) == s.(text := Overlaid(s, At(e.cols, s.x, s.y), cs), x := s.x + |cs|)
  {
    hide At, PenOk, EnvOk, Typed;
    var n := |cs| - 1;
    if n >= 0 {
      TypedRun(e, p, s, cs[..n]);
      var t := TypedAll(e, p, s, cs[..n]);
      NextCell(e.cols, s.x, n, s.y);
      TypedHere(e, p, t, cs[n]);
    } else {
      assert Overlaid(s, At(e.cols, s.x, s.y), cs) == s.text;
    }
  }

  function Overlaid(s: Image, a: nat, cs: seq<nat>): seq<Char> {
    seq(|s.text|, j requires 0 <= j < |s.text| => if a <= j < a + |cs| then Char(cs[j - a], s.fg, s.bg) else s.text[j])
  }

  lemma NextCell(cols: nat, x: nat, n: nat, y: nat)
    ensures At(cols, x + n, y) == At(cols, x, y) + n
  {
  }

  /** Repeating a character within the line fills its next cells. */
  lemma {:induction false} AgainFills(e: Env, p: Pen, s: Image, c: nat, n: nat)
    requires PenOk(e, p) && Fits(e, s) && s.x + n <= e.cols && !p.insert
    ensures Again(e, p, s, c, n) ==
      s.(text := Filled(s.text, At(e.cols, s.x, s.y), n, Char(c, s.fg, s.bg)), x := s.x + n)
  {
    hide At, PenOk, EnvOk, Typed, Filled;
    var here, cell := At(e.cols, s.x, s.y), Char(c, s.fg, s.bg);
    if n == 0 {
      NoShift(s.text, here, here, cell);
    } else {
      AgainFills(e, p, s, c, n - 1);
      NextCell(e.cols, s.x, n - 1, s.y);
      TypedHere(e, p, Again(e, p, s, c, n - 1), c);
      FillOne(s.text, here, n - 1, cell);
    }
  }

  /** In insert mode the rest of the line moves aside for all of them. */
  lemma {:induction false} AgainInserts(e: Env, p: Pen, s: Image, c: nat, n: nat)
    requires PenOk(e, p) && Fits(e, s) && s.x + n <= e.cols && p.insert
    ensures Again(e, p, s, c, n) ==
      s.(text := Right(s.text, At(e.cols, s.x, s.y), At(e.cols, 0, s.y) + e.cols, n, Char(c, s.fg, s.bg)), x := s.x + n)
  {
    hide At, PenOk, EnvOk, Typed, Pushed, Right;
    var here, z, cell := At(e.cols, s.x, s.y), At(e.cols, 0, s.y) + e.cols, Char(c, s.fg, s.bg);
    if n == 0 {
      NoShift(s.text, here, z, cell);
    } else {
      AgainInserts(e, p, s, c, n - 1);
      var t := Again(e, p, s, c, n - 1);
      NextCell(e.cols, s.x, n - 1, s.y);
      NextCell(e.cols, 0, s.x + n - 1, s.y);
      RowEnd(e, s);
      PushedCells(e, t);
      TypedHere(e, p, Pushed(e, t), c);
      InsertOne(s.text, here, z, n - 1, cell);
    }
  }

  lemma RowEnd(e: Env, s: Image)
    requires Fits(e, s)
    ensures At(e.cols, 0, s.y) + e.cols <= |s.text|
  {
    RowOrder(e.cols, s.y, e.rows);
  }

  lemma PushedCells(e: Env, s: Image)
    requires Fits(e, s) && s.x < e.cols
    ensures var here := At(e.cols, s.x, s.y);
      here < |s.text| && Pushed(e, s) == s.(text := Right(s.text, here, At(e.cols, 0, s.y) + e.cols, 1, s.text[here]))
  {
    hide At;
    AtOrder(e.cols, s.x, s.y, e.rows);
  }

  lemma InsertOne(s: seq<Char>, here: nat, z: nat, n: nat, cell: Char)
    requires here + n < z <= |s|
    ensures var t := Right(s, here, z, n, cell);
      Right(t, here + n, z, 1, t[here + n])[here + n := cell] == Right(s, here, z, n + 1, cell)
  {
  }

  lemma FillOne(s: seq<Char>, here: nat, n: nat, cell: Char)
    requires here + n < |s|
    ensures Filled(s, here, n, cell)[here + n := cell] == Filled(s, here, n + 1, cell)
  {
  }
}
