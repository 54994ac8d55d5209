/** The byte-driven terminal: escape sequences on top of the text screen. */
module Terminal {
  import opened Basics
  import opened ControlFunctions
  import opened S = Screen
  import opened ScreenCells
  import opened ScreenEditing
  import opened Sgr
  import opened TerminalContext
  import opened TerminalImage
  import opened TerminalSteps
  import opened Utf8

  /** The fields by which bytes are classified. */
  predicate SameState(k: Context, l: Context) {
    && k.escape == l.escape && k.controlSequence == l.controlSequence && k.osc == l.osc && k.oscEscape == l.oscEscape
    && k.escapeOffset == l.escapeOffset && k.gSelect == l.gSelect && k.charsets == l.charsets
       && k.currentCharset == l.currentCharset
    && k.saved == l.saved
  }

  class Terminal {
    const screen: S.Screen
    const glyphOf: nat -> int
    const widthOf: nat -> int
    const table: Table
    var ctx: Context

    ghost predicate Valid()
      reads this, screen
    {
      screen.Valid() && screen.rows < U32 && screen.cols < U32 && |table.col256| == 240 && ContextOk(ctx, screen.rows)
    }

    /** A fresh terminal on a screen. Glyphs and widths of code points, colour conversion and the
        256-colour table are given. */
    constructor (s: S.Screen, glyph: nat -> int, width: nat -> int, t: Table)
      requires s.Valid() && s.rows < U32 && s.cols < U32 && |t.col256| == 240
      ensures Valid() && screen == s && ctx == Fresh(s.rows)
    {
      screen, glyphOf, widthOf, table := s, glyph, width, t;
      ctx := Fresh(s.rows);
    }

    ghost function Around(): Env
      reads this, screen
    {
      Env(screen.cols, screen.rows, screen.palette, table, glyphOf, widthOf, screen.savedX, screen.savedY,
        screen.savedFg, screen.savedBg)
    }

    /** What the screen looks like. */
    ghost function Shot(): Image
      reads this, screen
    {
      Image(screen.Text(), screen.cursorX, screen.cursorY, screen.textFg, screen.textBg)
    }

    lemma Ready()
      requires Valid()
      ensures PenOk(Around(), PenOf(ctx)) && Fits(Around(), Shot()) && FrameOk(Around(), FrameOf(ctx))
      ensures CharsetsOk(ctx.charsets, ctx.currentCharset) && ctx.decoder.remaining <= 3
    {
    }

    /** The whole terminal. */
    ghost function Now(): Machine
      reads this, screen
    {
      Machine(Around(), ctx, Shot())
    }

    /** What a save keeps. */
    ghost function Appearance(): Look
      reads this, screen
    {
      LookOf(Now())
    }

    /** What a restore brings back. */
    ghost function Stored(): Look
      reads this, screen
    {
      SavedLook(Now())
    }

    method SaveState()
      requires Valid()
      modifies this, screen`savedFg, screen`savedBg, screen`savedX, screen`savedY
      ensures Valid() && Stored() == old(Appearance()) && Appearance() == old(Appearance())
      ensures ctx == WithSaved(old(ctx), Keeps(old(ctx))) && Shot() == old(Shot())
      ensures Around() == Marked(old(Around()), Shot())
    {
      screen.SaveState();
      ctx := ctx.(saved := Saved(ctx.attrs, ctx.originMode, ctx.wrapEnabled, ctx.currentCharset, ctx.charsets));
    }

    method RestoreState()
      requires Valid()
      modifies this, screen`textFg, screen`textBg, screen`cursorX, screen`cursorY
      ensures Valid() && Appearance() == old(Stored()) && Stored() == old(Stored())
      ensures screen.Text() == old(screen.Text())
      ensures PenOf(ctx) == PenOf(old(ctx)).(wrap := ctx.wrapEnabled, origin := ctx.originMode)
      ensures ctx == Restored(old(ctx))
    {
      ctx := ctx.(attrs := ctx.saved.attrs, originMode := ctx.saved.origin, wrapEnabled := ctx.saved.wrap,
                  currentCharset := ctx.saved.charset, charsets := ctx.saved.charsets);
      screen.RestoreState();
    }

    /** Cursor movement functions. */
    method Move(c: char)
      requires Valid() && MovesCursor(c)
      modifies screen`cursorX, screen`cursorY
      ensures Valid()
      ensures Shot() == MovedImage(Around(), PenOf(ctx), old(Shot()), c, ctx.escValues[0], ctx.escValues[1])
    {
      hide Paired, Drawn, At, Collecting, Moved, MovesCursor;
      Ready();
      var x, y := screen.GetCursorPos();
      x, y := Target(c, ctx.escValues[0], ctx.escValues[1],
        View(screen.cols, screen.rows, ctx.top, ctx.bottom, x, y, screen.Empty()), ctx.originMode);
      screen.SetCursorPos(x, y);
    }

    /** Editing functions within a line: erasing, inserting and deleting characters. */
    method EditLine(c: char)
      requires Valid() && EditsLine(c) && (c == 'P' ==> ctx.escValues[0] >= 1)
      modifies screen`queue, screen`queueI, screen`pending, screen`cursorX, screen`cursorY
      ensures Valid()
      ensures Shot() == EditedImage(Around(), PenOf(ctx), old(Shot()), c, ctx.escValues[0])
    {
      hide Paired, Drawn, At, Logical, Filled, Left, Right, LineStart, LineCount, ContextOk, CharsetsOk, AttributesOk;
      Ready();
      InBounds(ctx, screen.rows);
      var x, y := screen.GetCursorPos();
      var n := ctx.escValues[0];
      match c {
        case 'K' => if n <= 2 { EraseLine(screen, n, x, y, ctx.wrapEnabled, ctx.top, ctx.bottom); }
        case '@' => InsertBlanks(screen, n, x, y, ctx.wrapEnabled, ctx.top, ctx.bottom);
        case 'P' => DeleteChars(screen, n, x, y, ctx.wrapEnabled, ctx.top, ctx.bottom);
        case _ => EraseChars(screen, n, x, y, ctx.wrapEnabled, ctx.top, ctx.bottom);
      }
    }

    /** Editing functions on whole lines: erasing the display, inserting and deleting lines, scrolling. */
    method EditLines(c: char)
      requires Valid() && EditsLines(c)
      modifies screen`queue, screen`queueI, screen`pending, screen`cursorX, screen`cursorY
      ensures Valid()
      ensures Shot() == EditedImage(Around(), PenOf(ctx), old(Shot()), c, ctx.escValues[0])
    {
      hide Paired, Drawn, At, Logical, Filled, Left, Right, DisplayStart, DisplayEnd, ContextOk, CharsetsOk,
        AttributesOk;
      Ready();
      InBounds(ctx, screen.rows);
      var x, y := screen.GetCursorPos();
      var n := ctx.escValues[0];
      if c == 'J' {
        if n <= 3 { EraseDisplay(screen, n, x, y, ctx.wrapEnabled, ctx.top, ctx.bottom); }
      } else {
        ShiftLines(c, y);
      }
    }

    /** Inserting and deleting lines and scrolling. */
    method ShiftLines(c: char, y: nat)
      requires Valid() && EditsLines(c) && c != 'J' && y == screen.cursorY
      modifies screen`queue, screen`queueI, screen`pending
      ensures Valid()
      ensures Shot() == EditedImage(Around(), PenOf(ctx), old(Shot()), c, ctx.escValues[0])
    {
      hide Paired, Drawn, At, Logical, Filled, Left, Right, DisplayStart, DisplayEnd, ContextOk, CharsetsOk,
        AttributesOk;
      Ready();
      InBounds(ctx, screen.rows);
      var n := ctx.escValues[0];
      match c {
        case 'M' => if y >= ctx.top && y < ctx.bottom { ScrollBy(screen, Least(n, ctx.bottom - y), y, ctx.bottom); }
        case 'L' => if y >= ctx.top && y < ctx.bottom { RevScrollBy(screen, Least(n, ctx.bottom - y), y, ctx.bottom); }
        case 'S' => ScrollBy(screen, Least(n, ctx.bottom - ctx.top), ctx.top, ctx.bottom);
        case _ => RevScrollBy(screen, Least(n, ctx.bottom - ctx.top), ctx.top, ctx.bottom);
      }
    }

    method Put(c: nat)
      requires Valid()
      modifies screen`queue, screen`queueI, screen`pending, screen`cursorX, screen`cursorY
      ensures Valid()
      ensures Shot() == Typed(Around(), PenOf(ctx), old(Shot()), c)
    {
      hide Paired, Drawn, At, Collecting, Logical, ScrolledUp, Landing;
      Ready();
      screen.RawPutchar(c, ctx.wrapEnabled, ctx.scrollEnabled, ctx.top, ctx.bottom);
    }

    /** Moves down a line, scrolling at the bottom margin. */
    method LineFeed(x: nat, y: nat)
      requires Valid() && y == screen.cursorY
      requires x == if screen.cursorX >= screen.cols then screen.cols - 1 else screen.cursorX
      modifies screen`queue, screen`queueI, screen`pending, screen`cursorX, screen`cursorY
      ensures Valid() && Shot() == Fed(Around(), PenOf(ctx), old(Shot()))
    {
      hide Paired, Drawn, At, Collecting, Logical, ScrolledUp;
      Ready();
      if y == ctx.bottom - 1 {
        screen.Scroll(ctx.top, ctx.bottom);
        screen.SetCursorPos(x, y);
      } else {
        screen.SetCursorPos(x, y + 1);
      }
    }

    /** A single control character. */
    method Control(c: nat)
      requires Valid()
      modifies this, screen`queue, screen`queueI, screen`pending, screen`cursorX, screen`cursorY
      ensures Valid() && Shot() == Controlled(Around(), PenOf(old(ctx)), old(Shot()), c)
      ensures ctx == ControlledContext(old(ctx), c)
      ensures ctx.decoder == old(ctx.decoder) && ctx.saved == old(ctx.saved)
    {
      hide Paired, Drawn, At, Collecting, Logical, ScrolledUp, NextTab, Fed;
      Ready();
      var x, y := screen.GetCursorPos();
      if c == 8 {
        if x > 0 { screen.SetCursorPos(x - 1, y); }
      } else if c == 9 {
        var next := NextTab(x, ctx.tabSize);
        screen.SetCursorPos(if next >= screen.cols then screen.cols - 1 else next, y);
      } else if 10 <= c <= 12 {
        LineFeed(x, y);
      } else if c == 13 {
        screen.SetCursorPos(0, y);
      } else if c == 14 {
        ctx := ctx.(currentCharset := 1);
      } else if c == 15 {
        ctx := ctx.(currentCharset := 0);
      }
    }

    /** Makes room for a character in insert mode. */
    method OpenUp()
      requires Valid()
      modifies screen`queue, screen`queueI, screen`pending
      ensures Valid() && Shot() == Opened(Around(), PenOf(ctx), old(Shot()))
    {
      hide Paired, Drawn, At, Collecting, Logical, ShiftedRight, Right;
      Ready();
      if ctx.insertMode {
        var x, y := screen.GetCursorPos();
        ShiftLineRight(screen, 1, x, y);
        PushedAside(Around(), old(Shot()), screen.Text());
      }
    }

    /** Prints the last character again; in insert mode each copy pushes the line aside. */
    method Repeat(count: nat)
      requires Valid()
      modifies screen`queue, screen`queueI, screen`pending, screen`cursorX, screen`cursorY
      ensures Valid() && Shot() == Again(Around(), PenOf(ctx), old(Shot()), ctx.lastPrinted, count)
    {
      hide Paired, Drawn, At, Collecting, Logical, Typed, Opened, Fits, PenOk, ContextOk;
      Ready();
      var i := 0;
      while i < count
        invariant 0 <= i <= count && Valid() && Shot() == Again(Around(), PenOf(ctx), old(Shot()), ctx.lastPrinted, i)
      {
        OpenUp();
        Put(ctx.lastPrinted);
        i := i + 1;
      }
    }

    /** One private mode. */
    method PrivateMode(v: nat, on: bool)
      requires Valid()
      modifies this, screen`queue, screen`queueI, screen`pending, screen`cursorX, screen`cursorY, screen`textFg,
        screen`textBg
      ensures Valid() && ctx == ModeSet(old(ctx), v, on)
      ensures Shot() == PrivateOne(Around(), ctx.top, old(Shot()), v, on)
    {
      hide Paired, Drawn, At, Collecting, Logical, ContextOk, ModeSet;
      LogicalSize();
      ModeSetOk(ctx, v, on, screen.rows);
      if v == 1049 && !on { var attrs := Reset(screen, ctx.attrs); }
      ctx := ModeSet(ctx, v, on);
      if v == 6 {
        screen.SetCursorPos(0, if on then ctx.top else 0);
      } else if v == 1049 {
        screen.Clear(true);
        LogicalSize();
        AllBlank(screen.Text(), screen.Empty());
      }
    }

    /** Sets or resets the private modes named by the parameters. */
    method DecPrivate(c: nat)
      requires Valid() && !ctx.rrr
      modifies this, screen`queue, screen`queueI, screen`pending, screen`cursorX, screen`cursorY, screen`textFg,
        screen`textBg
      ensures Valid() && ctx == PrivateEnd(old(ctx), c)
      ensures ctx.top == old(ctx.top) && ctx.saved == old(ctx.saved)
      ensures c == 104 || c == 108 ==>
        Shot() == PrivateAll(Around(), ctx.top, old(Shot()), old(ctx.escValues)[..old(ctx.escValuesI)], c == 104)
      ensures c != 104 && c != 108 ==> Shot() == old(Shot())
    {
      hide Paired, Drawn, At, Collecting, Logical, PrivateOne, ModeSet, Public, ContextOk;
      InBounds(ctx, screen.rows);
      EndPrivate();
      if ctx.escValuesI == 0 || !(c == 104 || c == 108) { return; }
      var values := ctx.escValues[..ctx.escValuesI];
      PrivateModes(values, c == 104);
    }

    method EndPrivate()
      requires Valid()
      modifies this`ctx
      ensures Valid() && ctx == Public(old(ctx)) && ctx.saved == old(ctx.saved) && ctx.top == old(ctx.top)
      ensures ctx.escValues == old(ctx.escValues) && ctx.escValuesI == old(ctx.escValuesI)
    {
      hide Paired, Drawn, At, Logical, ContextOk;
      ctx := ctx.(decPrivate := false);
      StillOk(old(ctx), ctx, screen.rows);
    }

    method PrivateModes(values: seq<nat>, on: bool)
      requires Valid()
      modifies this, screen`queue, screen`queueI, screen`pending, screen`cursorX, screen`cursorY, screen`textFg,
        screen`textBg
      ensures Valid() && ctx == PrivateContext(old(ctx), values, on)
      ensures ctx.top == old(ctx.top) && ctx.saved == old(ctx.saved)
      ensures Shot() == PrivateAll(Around(), ctx.top, old(Shot()), values, on)
    {
      hide Paired, Drawn, At, Collecting, Logical, ContextOk, ModeSet, PrivateOne, PrivateContext, PrivateAll;
      PrivateNone(Around(), ctx, Shot(), on);
      var i := 0;
      while i < |values|
        invariant 0 <= i <= |values| && Valid() && ctx == PrivateContext(old(ctx), values[..i], on)
        invariant ctx.top == old(ctx.top) && ctx.saved == old(ctx.saved)
        invariant Shot() == PrivateAll(Around(), ctx.top, old(Shot()), values[..i], on)
      {
        ModeSetOk(ctx, values[i], on, screen.rows);
        PrivateMore(Around(), old(ctx), old(Shot()), values[..i], values[i], on);
        PrivateMode(values[i], on);
        assert values[..i + 1] == values[..i] + [values[i]];
        i := i + 1;
      }
      assert values[..i] == values;
    }

    /** The region between the margins; the cursor goes to its first line in origin mode. */
    method SetMargins()
      requires Valid()
      modifies this, screen`cursorX, screen`cursorY
      ensures Valid()
      ensures (ctx.top, ctx.bottom) ==
        Margins(screen.rows, old(ctx.escValuesI), old(ctx.escValues)[0], old(ctx.escValues)[1])
      ensures ctx == WithMargins(old(ctx), (ctx.top, ctx.bottom)) && ctx.saved == old(ctx.saved)
      ensures Shot() == old(Shot()).(x := 0, y := if old(ctx.originMode) then ctx.top else 0)
    {
      hide Paired, Drawn, At, Collecting, Logical, CharsetsOk, AttributesOk, Margins;
      var top, bottom := Region(screen.rows, ctx.escValuesI, ctx.escValues[0], ctx.escValues[1]);
      ctx := ctx.(top := top, bottom := bottom);
      screen.SetCursorPos(0, if ctx.originMode then top else 0);
    }

    method SetInsert(on: bool)
      requires Valid()
      modifies this`ctx
      ensures Valid() && ctx == WithInsert(old(ctx), on) && ctx.saved == old(ctx.saved)
    {
      hide Paired, Drawn, At, Logical, ContextOk;
      ctx := ctx.(insertMode := on);
      StillOk(old(ctx), ctx, screen.rows);
    }

    method SaveCursor(x: nat, y: nat)
      requires Valid()
      modifies this`ctx
      ensures Valid() && ctx == WithCursor(old(ctx), (x, y)) && ctx.saved == old(ctx.saved)
    {
      hide Paired, Drawn, At, Logical, ContextOk;
      ctx := ctx.(savedCursorX := x, savedCursorY := y);
      StillOk(old(ctx), ctx, screen.rows);
    }

    method SetAttributes(a: Attributes)
      requires Valid() && AttributesOk(a)
      modifies this`ctx
      ensures Valid() && ctx == WithAttributes(old(ctx), a) && ctx.saved == old(ctx.saved)
    {
      hide Paired, Drawn, At, Logical, ContextOk;
      AttributesStillOk(ctx, a, screen.rows);
      ctx := ctx.(attrs := a);
    }

    /** Functions that change the parser's own state, repeat a character or report to the host. */
    method SetState(c: char)
      requires Valid() && SetsState(c) && !ctx.rrr
      modifies this, screen`queue, screen`queueI, screen`pending, screen`cursorX, screen`cursorY, screen`textFg,
        screen`textBg
      ensures Valid() && Shot() == StateImage(Around(), FrameOf(old(ctx)), old(Shot()), c)
      ensures ctx == StateContext(Around(), old(ctx), old(Shot()), c) && ctx.saved == old(ctx.saved)
    {
      hide Paired, Drawn, At, Collecting, Logical, Margins, ContextOk, SetsState, RenderedAll, Again, MovesCursor,
        EditsText, Params, Fits, PenOk, EnvOk, AttributesOk, CharsetsOk, WithAttributes, WithCursor, WithMargins,
        WithInsert;
      Ready();
      InBounds(ctx, screen.rows);
      ParamsSize(ctx.escValues);
      if c == 'm' {
        var attrs := Apply(screen, ctx.attrs, ctx.escValues, ctx.escValuesI, table);
        SetAttributes(attrs);
      } else if c == 's' {
        var x, y := screen.GetCursorPos();
        SaveCursor(x, y);
      } else if c == 'u' {
        screen.SetCursorPos(ctx.savedCursorX, ctx.savedCursorY);
      } else if c == 'r' {
        SetMargins();
      } else if c == 'h' || c == 'l' {
        if ctx.escValuesI > 0 && ctx.escValues[0] == 4 { SetInsert(c == 'h'); }
      } else if c == 'b' {
        if ctx.lastWasGraphic { Repeat(Least(ctx.escValues[0], 65535)); }
      }
    }

    /** A control sequence with its final byte `c`. */
    method Final(c: char)
      requires Valid() && (c == 'P' ==> ctx.escValues[0] >= 1) && !ctx.rrr
      modifies this, screen`queue, screen`queueI, screen`pending, screen`cursorX, screen`cursorY, screen`textFg,
        screen`textBg
      ensures Valid() && Shot() == FinalImage(Around(), FrameOf(old(ctx)), old(Shot()), c)
      ensures ctx == StateContext(Around(), old(ctx), old(Shot()), c) && ctx.saved == old(ctx.saved)
    {
      hide Paired, Drawn, At, Collecting, Logical, Margins, CharsetsOk, EditsText, EditsLine, EditsLines, MovesCursor,
        MovedImage, EditedImage, StateImage, StateContext;
      Ready();
      Kinds(c);
      NoState(Around(), ctx, Shot(), c);
      if MovesCursor(c) {
        Move(c);
      } else if EditsLine(c) {
        EditLine(c);
      } else if EditsLines(c) {
        EditLines(c);
      } else {
        SetState(c);
      }
    }

    /** Digits and separators of a control sequence; `taken` says whether `c` was one. */
    method Parameter(c: nat) returns (taken: bool)
      requires Valid()
      modifies this
      ensures Valid() && ctx.saved == old(ctx.saved) && (taken <==> InParameter(c))
      ensures ctx == if taken then ParameterContext(old(ctx), c) else Counted(old(ctx))
      ensures !taken ==> !ctx.rrr
    {
      hide Paired, Drawn, At, Logical, ContextOk, Digit, WithParameter;
      InBounds(ctx, screen.rows);
      taken := true;
      var i := ctx.escValuesI;
      if 48 <= c <= 57 {
        if i < MAX_ESC_VALUES { SetParameter(Digit(ctx.escValues[i], c - 48), i, true); }
      } else if ctx.rrr {
        Count();
        taken := c == 59;
      } else if c == 59 {
        if i < MAX_ESC_VALUES { SetParameter(0, i + 1, false); }
      } else {
        taken := false;
      }
    }

    method SetParameter(v: nat, count: nat, open: bool)
      requires Valid() && ctx.escValuesI < MAX_ESC_VALUES && v < U32
      requires count <= MAX_ESC_VALUES && (open ==> count < MAX_ESC_VALUES)
      modifies this`ctx
      ensures Valid() && ctx == WithParameter(old(ctx), v, count, open)
    {
      hide Paired, Drawn, At, Collecting, Logical, CharsetsOk, AttributesOk;
      ctx := ctx.(escValues := ctx.escValues[ctx.escValuesI := v], escValuesI := count, rrr := open);
    }

    method Count()
      requires Valid()
      modifies this`ctx
      ensures Valid() && ctx == Counted(old(ctx)) && !ctx.rrr
    {
      hide Paired, Drawn, At, Collecting, Logical, CharsetsOk, AttributesOk, Params;
      ctx := ctx.(escValuesI := ParamCount(ctx), rrr := false);
    }

    /** A byte that ends the parameters of a control sequence. */
    method AfterParameters(c: nat)
      requires Valid() && c < 0x100 && !ctx.rrr
      modifies this, screen`queue, screen`queueI, screen`pending, screen`cursorX, screen`cursorY, screen`textFg,
        screen`textBg
      ensures Valid() && ctx.saved == old(ctx.saved)
      ensures Ended(Around(), FilledIn(old(ctx), c), old(Shot()), c, ctx, Shot())
    {
      hide Paired, Drawn, At, Logical, ContextOk, Defaulted, FinalImage, PrivateAll, Margins, DefaultFor, Params,
        Fits, PenOk, EnvOk, AttributesOk, CharsetsOk, StateContext, PrivateEnd, Flagged, FilledIn, OddEnd;
      Ready();
      FillIn(c);
      Ready();
      if ctx.decPrivate {
        DecPrivate(c);
        Mark(false, false, ctx.csiUnhandled, ctx.escapeOffset);
      } else if ctx.csiUnhandled || c == ESC || !(0x40 <= c <= 0x7E) {
        Unfinished(c);
      } else {
        DefaultOne(old(ctx), c);
        Final(c as char);
        Mark(false, false, ctx.csiUnhandled, ctx.escapeOffset);
      }
    }

    /** Gives missing parameters their default. */
    method FillIn(c: nat)
      requires Valid() && !ctx.rrr
      modifies this`ctx
      ensures Valid() && ctx.saved == old(ctx.saved) && !ctx.rrr && ctx == FilledIn(old(ctx), c)
    {
      hide Paired, Drawn, At, Logical, Defaulted, FilledIn, ContextOk;
      InBounds(ctx, screen.rows);
      FilledOk(ctx, c, screen.rows);
      ctx := ctx.(escValues := Defaulted(ctx.escValues, ctx.escValuesI, DefaultFor(c)));
    }

    /** A byte that ends a sequence that is not understood, starts another one, or makes this one not understood. */
    method Unfinished(c: nat)
      requires Valid()
      modifies this`ctx
      ensures Valid() && ctx.saved == old(ctx.saved) && ctx == OddEnd(old(ctx), c)
    {
      hide Paired, Drawn, At, Logical, ContextOk, Flagged;
      if ctx.csiUnhandled {
        if 0x40 <= c <= 0x7E { Mark(false, false, false, ctx.escapeOffset); }
      } else if c == ESC {
        Mark(false, ctx.escape, false, 0);
      } else {
        Mark(ctx.controlSequence, ctx.escape, true, ctx.escapeOffset);
      }
    }

    /** Sets the flags that say where in a sequence the parser is. */
    method Mark(controlSequence: bool, escape: bool, unhandled: bool, offset: nat)
      requires Valid()
      modifies this`ctx
      ensures Valid() && ctx.saved == old(ctx.saved)
      ensures ctx == Flagged(old(ctx), controlSequence, escape, unhandled, offset)
    {
      hide Paired, Drawn, At, Logical, ContextOk;
      ctx := ctx.(controlSequence := controlSequence, escape := escape, csiUnhandled := unhandled,
        escapeOffset := offset);
      StillOk(old(ctx), ctx, screen.rows);
    }

    /** The second byte of a control sequence of a kind of its own. */
    method SecondByte(c: nat)
      requires Valid()
      modifies this`ctx
      ensures Valid() && ctx.saved == old(ctx.saved)
      ensures ctx == SecondContext(old(ctx), c)
    {
      hide Paired, Drawn, At, Logical, ContextOk;
      ctx := if c == 63 then ctx.(decPrivate := true)
        else ctx.(discardNext := true, controlSequence := false, escape := false);
      StillOk(old(ctx), ctx, screen.rows);
    }

    method ParameterOrEnd(c: nat)
      requires Valid() && c < 0x100
      modifies this, screen`queue, screen`queueI, screen`pending, screen`cursorX, screen`cursorY, screen`textFg,
        screen`textBg
      ensures Valid() && ctx.saved == old(ctx.saved)
      ensures InParameter(c) ==> Shot() == old(Shot()) && ctx == ParameterContext(old(ctx), c)
      ensures !InParameter(c) ==> Ended(Around(), FilledIn(old(ctx), c), old(Shot()), c, ctx, Shot())
    {
      hide Paired, Drawn, At, Logical, ContextOk, EndImage, EndContext, Params, Fits, PenOk, EnvOk,
        AttributesOk, CharsetsOk, PenOf, ParameterContext, FilledIn, Counted, InParameter, FrameOf, FrameOk,
        Ended;
      InBounds(ctx, screen.rows);
      CountedFilled(ctx, c);
      var taken := Parameter(c);
      if !taken { AfterParameters(c); }
    }

    /** A byte inside a control sequence. */
    method ControlSequence(c: nat)
      requires Valid() && c < 0x100
      modifies this, screen`queue, screen`queueI, screen`pending, screen`cursorX, screen`cursorY, screen`textFg,
        screen`textBg
      ensures Valid() && ctx.saved == old(ctx.saved)
      ensures Shot() == SequenceImage(Around(), FrameOf(old(ctx)), old(ctx.escapeOffset), old(Shot()), c)
      ensures ctx == SequenceContext(Around(), old(ctx), old(Shot()), c)
    {
      hide Paired, Drawn, At, Logical, ContextOk, DefaultFor, Defaulted, EndImage, Controlled, Params, Fits, PenOk,
        EnvOk, AttributesOk, CharsetsOk, PenOf, EndContext, ControlledContext, ParameterContext, SecondContext,
        FilledIn;
      Ready();
      FilledFrame(Around(), ctx, c);
      if ctx.escapeOffset == 2 && (c == 91 || c == 63) {
        SecondByte(c);
      } else if c < 0x20 && c != ESC {
        Control(c);
      } else {
        ParameterOrEnd(c);
      }
    }

    /** A byte inside an operating system command; false when it ends the command without being part of it. */
    method OscByte(c: nat) returns (taken: bool)
      requires Valid()
      modifies this`ctx
      ensures Valid() && ctx == OscContext(old(ctx), c) && ctx.saved == old(ctx.saved)
      ensures !taken <==> old(ctx.oscEscape) && c != 92
      ensures !taken ==> ctx.controlSequence == old(ctx.controlSequence)
      ensures old(ctx.oscBufI) <= ctx.oscBufI && ctx.oscBuf[..old(ctx.oscBufI)] == old(ctx.oscBuf)[..old(ctx.oscBufI)]
    {
      hide Paired, Drawn, At, Logical, ContextOk, Command, Buffered;
      InBounds(ctx, screen.rows);
      taken := true;
      if ctx.oscEscape {
        taken := c == 92;
        Steer(false, false, ctx.escape && !taken);
      } else if c == ESC {
        Steer(ctx.osc, true, ctx.escape);
      } else if c == 7 {
        Steer(false, false, false);
      } else {
        Store(c);
      }
    }

    method Steer(osc: bool, oscEscape: bool, escape: bool)
      requires Valid()
      modifies this`ctx
      ensures Valid() && ctx == Command(old(ctx), osc, oscEscape, escape) && ctx.saved == old(ctx.saved)
      ensures ctx.controlSequence == old(ctx.controlSequence) && ctx.oscBuf == old(ctx.oscBuf)
      ensures ctx.oscBufI == old(ctx.oscBufI)
    {
      hide Paired, Drawn, At, Logical, ContextOk;
      ctx := ctx.(osc := osc, oscEscape := oscEscape, escape := escape);
      StillOk(old(ctx), ctx, screen.rows);
    }

    /** Another byte of a command; it is dropped when there is no room. */
    method Store(c: nat)
      requires Valid()
      modifies this`ctx
      ensures Valid() && ctx == Buffered(old(ctx), c) && ctx.saved == old(ctx.saved)
      ensures old(ctx.oscBufI) <= ctx.oscBufI && ctx.oscBuf[..old(ctx.oscBufI)] == old(ctx.oscBuf)[..old(ctx.oscBufI)]
    {
      hide Paired, Drawn, At, Collecting, Logical, CharsetsOk, AttributesOk, Params;
      if ctx.oscBufI < OSC_SIZE {
        ctx := ctx.(oscBuf := ctx.oscBuf[ctx.oscBufI := c], oscBufI := ctx.oscBufI + 1);
      }
    }

    /** Resets the terminal. */
    method FullReset()
      requires Valid()
      modifies this, screen`queue, screen`queueI, screen`pending, screen`cursorX, screen`cursorY, screen`textFg,
        screen`textBg
      ensures Valid() && ctx == Reinitialised(old(ctx), screen.rows)
      ensures Shot() == Cleared(old(Shot()).(fg := screen.palette.fg, bg := TRANSPARENT))
    {
      hide Paired, Drawn, At, Collecting, Logical, ContextOk, Reinitialised;
      LogicalSize();
      if ctx.attrs.reverse { screen.SwapPalette(); }
      ReinitialisedOk(ctx, screen.rows);
      ctx := Reinitialised(ctx, screen.rows);
      screen.SetTextBg(TRANSPARENT);
      screen.SetTextFg(screen.palette.fg);
      screen.Clear(true);
      LogicalSize();
      AllBlank(screen.Text(), screen.Empty());
    }

    /** Index, next line and reverse index. */
    method IndexLine(c: nat, x: nat, y: nat)
      requires Valid() && y == screen.cursorY
      requires x == if screen.cursorX >= screen.cols then screen.cols - 1 else screen.cursorX
      requires c == 68 || c == 69 || c == 77
      modifies screen`queue, screen`queueI, screen`pending, screen`cursorX, screen`cursorY
      ensures Valid() && Shot() == Indexed(Around(), PenOf(ctx), old(Shot()), c)
    {
      hide Paired, Drawn, At, Collecting, Logical, ScrolledUp, ScrolledDown;
      Ready();
      if c == 77 {
        if y == ctx.top {
          screen.RevScroll(ctx.top, ctx.bottom);
          screen.SetCursorPos(x, y);
        } else if y > 0 {
          screen.SetCursorPos(x, y - 1);
        }
      } else if y == ctx.bottom - 1 {
        screen.Scroll(ctx.top, ctx.bottom);
        screen.SetCursorPos(if c == 69 then 0 else x, y);
      } else if y < screen.rows - 1 {
        screen.SetCursorPos(if c == 69 then 0 else x, y + 1);
      } else if c == 69 {
        screen.SetCursorPos(0, y);
      }
    }

    /** A byte after an escape character. */
    method EscapeByte(c: nat)
      requires Valid() && c < 0x100
      modifies this, screen
      ensures Valid() && Shot() == EscapeImage(old(Around()), old(ctx), old(Shot()), c)
      ensures ctx == EscapeContext(old(Around()), old(ctx), old(Shot()), c)
      ensures Around() == if Stores(old(ctx), c) && c == 55 then Marked(old(Around()), Shot()) else old(Around())
      ensures !Stores(old(ctx), c) ==> Stored() == old(Stored())
      ensures Stores(old(ctx), c) && c == 55 ==> Stored() == Appearance()
    {
      hide Paired, Drawn, At, Logical, ContextOk, SequenceImage, SimpleImage, PenOf, Fits, PenOk, EnvOk, Params,
        AttributesOk, CharsetsOk, SequenceContext, SimpleContext, Advanced;
      Ready();
      LegalParts(Around(), ctx, Shot());
      AdvancedFrame(ctx, c);
      var taken := Advance(c);
      if taken { return; }
      if ctx.controlSequence {
        ControlSequence(c);
      } else {
        SimpleEscape(c);
      }
    }

    /** Counts a byte of an escape sequence; one that belongs to an operating system command is taken. */
    method Advance(c: nat) returns (taken: bool)
      requires Valid()
      modifies this`ctx
      ensures Valid() && ctx.saved == old(ctx.saved)
      ensures ctx == Advanced(old(ctx), c) && (taken <==> InCommand(old(ctx), c))
      ensures !taken ==> FrameOf(ctx) == FrameOf(old(ctx)) && ctx.controlSequence == old(ctx.controlSequence)
      ensures !taken ==> ctx.escapeOffset == if old(ctx.osc) then 1 else old(ctx.escapeOffset) + 1
    {
      hide Paired, Drawn, At, Logical, ContextOk, OscContext, FrameOf, AtOffset;
      InBounds(ctx, screen.rows);
      AdvancedFrame(ctx, c);
      CountByte();
      taken := false;
      if ctx.osc {
        taken := OscByte(c);
        if !taken { Restart(); }
      }
    }

    method CountByte()
      requires Valid()
      modifies this`ctx
      ensures Valid() && ctx == AtOffset(old(ctx), old(ctx.escapeOffset) + 1) && ctx.saved == old(ctx.saved)
      ensures ctx.osc == old(ctx.osc) && ctx.oscEscape == old(ctx.oscEscape)
      ensures ctx.controlSequence == old(ctx.controlSequence) && ctx.escapeOffset == old(ctx.escapeOffset) + 1
    {
      hide Paired, Drawn, At, Logical, ContextOk;
      ctx := ctx.(escapeOffset := ctx.escapeOffset + 1);
      StillOk(old(ctx), ctx, screen.rows);
    }

    method Restart()
      requires Valid()
      modifies this`ctx
      ensures Valid() && ctx == AtOffset(old(ctx), 1) && ctx.saved == old(ctx.saved)
      ensures ctx.controlSequence == old(ctx.controlSequence) && ctx.escapeOffset == 1
    {
      hide Paired, Drawn, At, Logical, ContextOk;
      ctx := ctx.(escapeOffset := 1);
      StillOk(old(ctx), ctx, screen.rows);
    }

    /** Starts a control sequence with no parameters yet. */
    method StartSequence()
      requires Valid()
      modifies this`ctx
      ensures Valid() && ctx == Started(old(ctx)) && ctx.saved == old(ctx.saved)
    {
      hide Paired, Drawn, At, Collecting, Logical, CharsetsOk, AttributesOk;
      ctx := ctx.(escValues := NoValues(), escValuesI := 0, rrr := false, csiUnhandled := false,
        controlSequence := true);
    }

    /** The effect of an escape sequence of one further byte. */
    method EscapeAction(c: nat)
      requires Valid()
      modifies this, screen
      ensures Valid() && Shot() == SimpleImage(old(Around()), PenOf(old(ctx)), old(Shot()), c)
      ensures c != 55 && c != 99 ==> Stored() == old(Stored())
      ensures c == 55 ==> Stored() == Appearance() == old(Appearance())
      ensures ctx == ActionContext(screen.rows, old(ctx), c)
      ensures Around() == if c == 55 then Marked(old(Around()), Shot()) else old(Around())
    {
      hide Paired, Drawn, At, Collecting, Logical, CharsetsOk, AttributesOk, Params, Indexed, Reinitialised, WithSaved,
        WithSelect, ContextOk, Restored;
      Ready();
      var x, y := screen.GetCursorPos();
      if c == 55 {
        SaveState();
      } else if c == 56 {
        RestoreState();
      } else if c == 99 {
        FullReset();
      } else if c == 68 || c == 69 || c == 77 {
        IndexLine(c, x, y);
      } else if c == 40 || c == 41 {
        SelectNext(c - 39);
      }
    }

    method SelectNext(n: nat)
      requires Valid() && n <= 2
      modifies this`ctx
      ensures Valid() && ctx == WithSelect(old(ctx), n) && ctx.saved == old(ctx.saved)
      ensures Appearance() == old(Appearance()) && Stored() == old(Stored())
    {
      hide Paired, Drawn, At, Collecting, Logical, CharsetsOk, AttributesOk, Params;
      ctx := ctx.(gSelect := n);
    }

    /** A byte that follows the escape character itself. */
    method SimpleEscape(c: nat)
      requires Valid()
      modifies this, screen
      ensures Valid() && Shot() == SimpleImage(old(Around()), PenOf(old(ctx)), old(Shot()), c)
      ensures ctx == SimpleContext(screen.rows, old(ctx), c)
      ensures Around() == if c == 55 then Marked(old(Around()), Shot()) else old(Around())
      ensures c != 55 && c != 99 ==> Stored() == old(Stored())
      ensures c == 55 ==> Stored() == Appearance()
    {
      hide Paired, Drawn, At, Collecting, Logical, ContextOk, Indexed, ActionContext, Started, CommandStarted, Escaping,
        Fits, PenOk, EnvOk;
      Ready();
      if c == ESC {
        Escape(0, ctx.escape);
      } else if c == 93 {
        StartCommand();
      } else if c == 91 {
        StartSequence();
      } else {
        EscapeAction(c);
        Escape(ctx.escapeOffset, false);
      }
    }

    method Escape(offset: nat, on: bool)
      requires Valid()
      modifies this`ctx
      ensures Valid() && ctx == Escaping(old(ctx), offset, on) && ctx.saved == old(ctx.saved)
      ensures ctx.decoder == old(ctx.decoder) && Appearance() == old(Appearance()) && Stored() == old(Stored())
    {
      hide Paired, Drawn, At, Logical, ContextOk;
      ctx := ctx.(escapeOffset := offset, escape := on);
      StillOk(old(ctx), ctx, screen.rows);
    }

    /** Starts an operating system command. */
    method StartCommand()
      requires Valid()
      modifies this`ctx
      ensures Valid() && ctx == CommandStarted(old(ctx)) && ctx.saved == old(ctx.saved)
    {
      hide Paired, Drawn, At, Collecting, Logical, CharsetsOk, AttributesOk, Params;
      ctx := ctx.(oscEscape := false, osc := true, oscBufI := 0);
    }

    /** A glyph that can be repeated. */
    method PutGlyph(g: nat)
      requires Valid()
      modifies this, screen`queue, screen`queueI, screen`pending, screen`cursorX, screen`cursorY
      ensures Valid() && ctx == Printed(old(ctx), g) && ctx.saved == old(ctx.saved) && PenOf(ctx) == PenOf(old(ctx))
      ensures Shot() == Typed(Around(), PenOf(old(ctx)), old(Shot()), g)
    {
      hide Paired, Drawn, At, Logical, ContextOk, Typed, Fits, PenOk;
      Ready();
      ctx := ctx.(lastPrinted := g, lastWasGraphic := true);
      StillOk(old(ctx), ctx, screen.rows);
      Put(g);
    }

    /** The glyph of a decoded code point, or a replacement as wide as the code point is. */
    method PutScalar(cp: nat)
      requires Valid()
      modifies this, screen`queue, screen`queueI, screen`pending, screen`cursorX, screen`cursorY
      ensures Valid() && ctx == ShownContext(Around(), old(ctx), cp) && ctx.saved == old(ctx.saved)
      ensures Shot() == TypedAll(Around(), PenOf(old(ctx)), old(Shot()), Glyphs(Around(), cp))
    {
      hide Paired, Drawn, At, Logical, ContextOk, Typed, TypedAll, Fits, PenOk, PenOf, Printed;
      Ready();
      ghost var e, p, s := Around(), PenOf(ctx), Shot();
      TypedNone(e, p, s);
      var glyph := glyphOf(cp);
      if glyph != -1 {
        PutGlyph(glyph % 0x100);
        TypedMore(e, p, s, [], glyph % 0x100);
        assert [glyph % 0x100] == [] + [glyph % 0x100];
        return;
      }
      var width := widthOf(cp);
      if width <= 0 { return; }
      PutGlyph(0xFE);
      TypedMore(e, p, s, [], 0xFE);
      ghost var done: seq<nat> := [0xFE];
      assert done == [] + [0xFE];
      var i := 1;
      while i < width
        invariant 1 <= i <= width && Valid() && Around() == e && PenOf(ctx) == p
        invariant ctx == ShownContext(e, old(ctx), cp) && ctx.saved == old(ctx.saved)
        invariant done == [0xFE] + seq(i - 1, j => BLANK) && Shot() == TypedAll(e, p, s, done)
      {
        Put(BLANK);
        TypedMore(e, p, s, done, BLANK);
        done := done + [BLANK];
        i := i + 1;
      }
      assert done == Glyphs(e, cp);
    }

    /** A byte while a multi-byte sequence is being collected; false when it is not part of it and
        must be looked at again. */
    method Continuation(c: nat) returns (taken: bool)
      requires Valid() && ctx.decoder.remaining != 0
      modifies this, screen`queue, screen`queueI, screen`pending, screen`cursorX, screen`cursorY
      ensures Valid() && 1 <= old(ctx.decoder).remaining <= 3
      ensures taken <==> !Continue(old(ctx.decoder), c).Broken?
      ensures match Continue(old(ctx.decoder), c)
        case More(next) => ctx == WithDecoder(old(ctx), next) && Shot() == old(Shot())
        case Done(cp) =>
          && ctx == ShownContext(Around(), WithDecoder(old(ctx), Decoder(0, cp)), cp)
          && Shot() == TypedAll(Around(), PenOf(old(ctx)), old(Shot()), Glyphs(Around(), cp))
        case Broken => ctx == Idle(old(ctx)) && Shot() == BrokenImage(Around(), old(ctx), old(Shot()), c)
      ensures !taken ==> FrameOf(ctx) == FrameOf(old(ctx)) && SameState(ctx, old(ctx)) && ctx.decoder.remaining == 0
      ensures taken ==> c / 0x40 == 2
      ensures ctx.saved == old(ctx.saved)
    {
      hide Paired, Drawn, At, Logical, ContextOk, WithDecoder, Continue, Typed, TypedAll, Glyphs, Fits, PenOk, EnvOk,
        Collecting, ShownContext;
      CollectingNow(ctx, screen.rows);
      Ready();
      DecoderActive();
      ContinueCollects(ctx.decoder, c);
      ContinueByte(ctx.decoder, c);
      match Continue(ctx.decoder, c)
      case More(next) =>
        DecoderOk(ctx, next, screen.rows);
        ctx := WithDecoder(ctx, next);
        taken := true;
      case Done(cp) =>
        DecoderOk(ctx, Decoder(0, cp), screen.rows);
        SamePen(ctx, Decoder(0, cp));
        ctx := WithDecoder(ctx, Decoder(0, cp));
        PutScalar(cp);
        taken := true;
      case Broken =>
        DecoderOk(ctx, ctx.decoder.(remaining := 0), screen.rows);
        SamePen(ctx, ctx.decoder.(remaining := 0));
        ctx := WithDecoder(ctx, ctx.decoder.(remaining := 0));
        if c / 0x40 != 2 { Put(REPLACEMENT); }
        taken := false;
    }

    /** Assigns a character set to the slot selected before. */
    method SelectCharset(c: nat)
      requires Valid() && ctx.gSelect != 0
      modifies this
      ensures Valid() && ctx == SelectedContext(old(ctx), c) && ctx.saved == old(ctx.saved)
    {
      hide Paired, Drawn, At, Logical, ContextOk, WithCharsets;
      InBounds(ctx, screen.rows);
      var slot := ctx.gSelect - 1;
      var sets := ctx.charsets;
      if c == 66 {
        sets := sets[slot := CHARSET_DEFAULT];
      } else if c == 48 {
        sets := sets[slot := CHARSET_DEC_SPECIAL];
      }
      SetCharsets(sets);
    }

    method SetCharsets(sets: seq<nat>)
      requires Valid() && CharsetsOk(sets, ctx.currentCharset)
      modifies this`ctx
      ensures Valid() && ctx == WithCharsets(old(ctx), sets)
    {
      hide Paired, Drawn, At, Logical, AttributesOk, Params, Collecting, CharsetsOk;
      ctx := ctx.(gSelect := 0, charsets := sets);
    }

    /** The character a printable byte stands for. */
    method Print(c: nat)
      requires Valid() && c < 0x100
      modifies this, screen`queue, screen`queueI, screen`pending, screen`cursorX, screen`cursorY
      ensures Valid() && ctx.saved == old(ctx.saved)
      ensures ctx == if PrintsAs(old(ctx), c).Some? then Printed(old(ctx), PrintsAs(old(ctx), c).value) else old(ctx)
      ensures var t := Opened(Around(), PenOf(old(ctx)), old(Shot()));
        Shot() == if PrintsAs(old(ctx), c).Some?
          then Typed(Around(), PenOf(old(ctx)), t, PrintsAs(old(ctx), c).value) else t
    {
      hide Paired, Drawn, At, Logical, ContextOk, Typed, Opened, PrintsAs, Printed, Fits, PenOk, EnvOk;
      Ready();
      OpenUp();
      var glyph := PrintsAs(ctx, c);
      if glyph.Some? { PutGlyph(glyph.value); }
    }

    /** A byte outside all sequences. */
    method Ground(c: nat)
      requires Valid() && c < 0x100
      modifies this, screen`queue, screen`queueI, screen`pending, screen`cursorX, screen`cursorY
      ensures Valid() && ctx == GroundContext(old(ctx), c) && ctx.saved == old(ctx.saved)
      ensures Shot() == GroundImage(Around(), PenOf(old(ctx)), PrintsAs(old(ctx), c), old(Shot()), c)
    {
      hide Paired, Drawn, At, Logical, ContextOk, Typed, Opened, PrintsAs, Controlled, ControlledContext, Escaping,
        Printed, Fits, PenOk, EnvOk;
      Ready();
      if c == 0 || c == 0x7F || c == 7 {
      } else if c == ESC {
        Escape(0, true);
      } else if 8 <= c <= 15 {
        Control(c);
      } else {
        Print(c);
      }
    }

    /** Drops whatever sequence is under way. */
    method Cancel()
      requires Valid()
      modifies this
      ensures Valid() && ctx == Cancelled(old(ctx)) && ctx.saved == old(ctx.saved)
    {
      hide Paired, Drawn, At, Logical, AttributesOk, Params, Collecting, CharsetsOk;
      ctx := ctx.(discardNext := false, escape := false, controlSequence := false,
        decoder := ctx.decoder.(remaining := 0), osc := false, oscEscape := false, gSelect := 0,
        lastWasGraphic := false);
    }

    lemma MachineReady()
      requires Valid()
      ensures MachineOk(Now())
    {
      hide ContextOk;
      Ready();
    }

    /** One byte of output. Whatever came before, every index stays in bounds. */
    method Putchar(c: nat)
      requires Valid() && c < 0x100
      modifies this, screen
      ensures Valid() && MachineOk(old(Now())) && Now() == Step(old(Now()), c)
      ensures !Saves(old(ctx), c) ==> Stored() == old(Stored())
      ensures Saves(old(ctx), c) && c == 55 ==> Stored() == Appearance()
    {
      hide Paired, Drawn, At, Logical, ContextOk, Continue, Lead, IdleImage, IdleContext, Typed, TypedAll, Glyphs,
        BrokenImage, ShownContext, WithDecoder, Cancelled, Marked, Fits, PenOk, EnvOk, PenOf;
      Ready();
      MachineReady();
      if ctx.discardNext || c == 0x18 || c == 0x1A {
        Cancel();
        return;
      }
      DecoderActive();
      if ctx.decoder.remaining != 0 {
        var taken := Continuation(c);
        if taken { return; }
        IdleAlike(Around(), old(ctx), ctx, Shot(), c);
      }
      Dispatch(c);
    }

    /** A byte that is not part of a multi-byte sequence under way. */
    method Dispatch(c: nat)
      requires Valid() && c < 0x100 && ctx.decoder.remaining == 0
      modifies this, screen
      ensures Valid() && Shot() == IdleImage(old(Around()), old(ctx), old(Shot()), c)
      ensures Legal(old(Around()), old(ctx), old(Shot()))
      ensures ctx == IdleContext(old(Around()), old(ctx), old(Shot()), c)
      ensures Around() ==
        if old(ctx.escape) && Stores(old(ctx), c) && c == 55 then Marked(old(Around()), Shot()) else old(Around())
      ensures !(old(ctx.escape) && Stores(old(ctx), c)) ==> Stored() == old(Stored())
      ensures old(ctx.escape) && Stores(old(ctx), c) && c == 55 ==> Stored() == Appearance()
    {
      hide Paired, Drawn, At, Logical, ContextOk, EscapeImage, GroundImage, Fits, PenOk, EnvOk, Lead, Params,
        AttributesOk, EscapeContext, GroundContext, SelectedContext, Quiet, WithDecoder, WithSelect;
      Ready();
      MachineReady();
      if 0xC2 <= c <= 0xF4 {
        StartScalar(c);
        return;
      }
      if ctx.escape {
        EscapeByte(c);
        return;
      }
      if ctx.gSelect != 0 && !(c <= 0x1F || c == 0x7F) {
        SelectCharset(c);
        return;
      }
      Quieten(c);
      Ground(c);
    }

    /** The first byte of a multi-byte sequence. */
    method StartScalar(c: nat)
      requires Valid() && 0xC2 <= c <= 0xF4
      modifies this`ctx
      ensures Valid() && Lead(c).Some? && ctx == WithSelect(WithDecoder(old(ctx), Lead(c).value), 0)
      ensures ctx.saved == old(ctx.saved)
    {
      hide Paired, Drawn, At, Logical, ContextOk, Lead;
      LeadOk(ctx, c, screen.rows);
      ctx := ctx.(gSelect := 0, decoder := Lead(c).value);
    }

    /** No character set is being selected, and control characters cannot be repeated. */
    method Quieten(c: nat)
      requires Valid()
      modifies this`ctx
      ensures Valid() && ctx == Quiet(old(ctx), c) && PenOf(ctx) == PenOf(old(ctx))
      ensures PrintsAs(ctx, c) == PrintsAs(old(ctx), c)
    {
      hide Paired, Drawn, At, Logical, ContextOk, DecGlyph, Quiet, PenOf;
      InBounds(ctx, screen.rows);
      QuietKeeps(ctx, c);
      QuietOk(ctx, c, screen.rows);
      ctx := ctx.(gSelect := 0, lastWasGraphic := ctx.lastWasGraphic && !((c <= 0x1F && c != ESC) || c == 0x7F));
    }

    /** All bytes in turn, then a flush: the display shows the logical screen. `trace` are the states the terminal goes
        through. */
    method Write(buf: seq<nat>) returns (ghost trace: seq<Machine>)
      requires Valid() && Bytes(buf)
      modifies this, screen
      ensures Valid()
      ensures Run(trace, buf) && trace[0] == old(Now()) && trace[|buf|] == Now()
      ensures ctx.autoflush ==> screen.queueI == 0 && screen.grid == screen.Text()
      ensures ctx.autoflush ==> forall i :: 0 <= i < |screen.grid| ==>
        screen.shown[i] == if ctx.cursorEnabled && CursorAt(screen, i) then Inverted(screen.grid[i]) else screen.grid[i]
    {
      hide Paired, Drawn, At, Logical, ContextOk, CursorCell, Inverted, Step, MachineOk, Saves;
      MachineReady();
      trace := [Now()];
      var i := 0;
      while i < |buf|
        invariant 0 <= i <= |buf| && Valid() && Run(trace, buf[..i])
        invariant trace[0] == old(Now()) && trace[i] == Now()
      {
        Putchar(buf[i]);
        MachineReady();
        RunMore(trace, buf[..i], buf[i], Now());
        trace := trace + [Now()];
        assert buf[..i + 1] == buf[..i] + [buf[i]];
        i := i + 1;
      }
      assert buf[..i] == buf;
      if ctx.autoflush { screen.Flush(ctx.cursorEnabled); }
    }

    lemma LogicalSize()
      requires screen.Valid()
      ensures |screen.Text()| == |screen.grid|
    {
    }

    lemma DecoderActive()
      requires Valid()
      ensures ctx.decoder.remaining != 0 ==> 1 <= ctx.decoder.remaining <= 3
    {
    }
  }

  ghost predicate CursorAt(screen: S.Screen, i: nat)
    reads screen
  {
    CursorCell(screen.cols, screen.rows, screen.cursorX, screen.cursorY, i)
  }

  /** Shifting a line by one place. */
  lemma PushedAside(e: Env, s: Image, t: seq<Char>)
    requires Fits(e, s)
    requires ShiftedRight(s.text, t, At(e.cols, 0, s.y) + e.cols, 1,
      At(e.cols, 0, s.y) + (if s.x >= e.cols then e.cols - 1 else s.x) + 1)
    ensures t == Pushed(e, s).text
  {
    hide At;
    var x := if s.x >= e.cols then e.cols - 1 else s.x;
    AtOrder(e.cols, x, s.y, e.rows);
    forall j | 0 <= j < |s.text| ensures t[j] == Pushed(e, s).text[j] { }
  }

  lemma AllBlank(t: seq<Char>, b: Char)
    requires forall j :: 0 <= j < |t| ==> t[j] == b
    ensures t == seq(|t|, i => b)
  {
  }

  lemma TypedNone(e: Env, p: Pen, s: Image)
    requires PenOk(e, p) && Fits(e, s)
    ensures TypedAll(e, p, s, []) == s
  {
  }

  lemma TypedMore(e: Env, p: Pen, s: Image, cs: seq<nat>, c: nat)
    requires PenOk(e, p) && Fits(e, s)
    ensures TypedAll(e, p, s, cs + [c]) == Typed(e, p, TypedAll(e, p, s, cs), c)
  {
    hide Typed, PenOk, Fits;
    assert (cs + [c])[..|cs|] == cs;
  }

  /** What a byte does depends on these fields only. */
  lemma IdleAlike(e: Env, k: Context, l: Context, s: Image, c: nat)
    requires FrameOk(e, FrameOf(k)) && CharsetsOk(k.charsets, k.currentCharset) && Fits(e, s) && c < 0x100
    requires FrameOf(l) == FrameOf(k) && SameState(l, k)
    ensures IdleImage(e, l, s, c) == IdleImage(e, k, s, c)
  {
    hide SequenceImage, SimpleImage, GroundImage, Fits, PenOk, EnvOk, Params, AttributesOk, DecGlyph;
  }

  lemma SamePen(k: Context, d: Decoder)
    ensures PenOf(WithDecoder(k, d)) == PenOf(k) && FrameOf(WithDecoder(k, d)) == FrameOf(k)
    ensures SameState(WithDecoder(k, d), k)
  {
  }

  lemma CollectingNow(k: Context, rows: nat)
    requires ContextOk(k, rows)
    ensures k.decoder.remaining != 0 ==> Collecting(k.decoder)
  {
  }

  lemma ParamsSize(s: seq<nat>)
    requires Params(s)
    ensures |s| == MAX_ESC_VALUES
  {
  }

  lemma ContinueByte(d: Decoder, c: nat)
    requires 1 <= d.remaining <= 3
    ensures !Continue(d, c).Broken? ==> c / 0x40 == 2
  {
  }

  /** Deleting characters always has a count. */
  lemma DefaultOne(k: Context, c: nat)
    requires Params(k.escValues)
    ensures |FilledIn(k, c).escValues| == MAX_ESC_VALUES && (c == 80 ==> FilledIn(k, c).escValues[0] >= 1)
  {
  }

  lemma PrivateNone(e: Env, k: Context, s: Image, on: bool)
    ensures PrivateContext(k, [], on) == k && PrivateAll(e, k.top, s, [], on) == s
  {
  }

  lemma PrivateMore(e: Env, k: Context, s: Image, values: seq<nat>, v: nat, on: bool)
    ensures PrivateContext(k, values + [v], on) == ModeSet(PrivateContext(k, values, on), v, on)
    ensures PrivateAll(e, k.top, s, values + [v], on) ==
      PrivateOne(e, k.top, PrivateAll(e, k.top, s, values, on), v, on)
  {
    hide ModeSet, PrivateOne;
    assert (values + [v])[..|values|] == values;
  }

  lemma QuietOk(k: Context, c: nat, rows: nat)
    requires ContextOk(k, rows)
    ensures Quiet(k, c) ==
      k.(gSelect := 0, lastWasGraphic := k.lastWasGraphic && !((c <= 0x1F && c != ESC) || c == 0x7F))
    ensures ContextOk(Quiet(k, c), rows)
  {
    hide Params, CharsetsOk, AttributesOk, Collecting;
  }

  lemma FilledOk(k: Context, c: nat, rows: nat)
    requires ContextOk(k, rows) && !k.rrr
    ensures k.(escValues := Defaulted(k.escValues, k.escValuesI, DefaultFor(c))) == FilledIn(k, c)
    ensures ContextOk(FilledIn(k, c), rows) && FilledIn(k, c).saved == k.saved && !FilledIn(k, c).rrr
  {
    hide Params, CharsetsOk, AttributesOk, Collecting, Defaulted, DefaultFor;
  }

  lemma CountedFilled(k: Context, c: nat)
    requires Params(k.escValues)
    ensures Counted(k).escValues == k.escValues && FilledIn(Counted(k), c) == FilledIn(k, c)
  {
    hide Params, Defaulted, DefaultFor, Counted, ParamCount;
    CountedTwice(k);
  }

  lemma CountedTwice(k: Context)
    ensures Counted(k).escValues == k.escValues && ParamCount(Counted(k)) == ParamCount(k)
    ensures Counted(Counted(k)) == Counted(k)
  {
  }

  /** Moving and editing change nothing but the screen. */
  lemma NoState(e: Env, k: Context, s: Image, c: char)
    requires FrameOk(e, FrameOf(k)) && Fits(e, s)
    ensures MovesCursor(c) || EditsLine(c) || EditsLines(c) ==> StateContext(e, k, s, c) == k
  {
    hide FrameOk, Fits, RenderedAll, Margins, SeenAt, WithAttributes, WithCursor, WithMargins, WithInsert;
  }

  method Region(rows: nat, count: nat, p: nat, q: nat) returns (top: nat, bottom: nat)
    requires rows >= 1
    ensures (top, bottom) == Margins(rows, count, p, q) && top < bottom <= rows
  {
    top, bottom := 0, rows;
    if count > 0 { top := if p >= 1 then p - 1 else 0; }
    if count > 1 { bottom := q; }
    if top >= rows || bottom > rows || top >= (if bottom >= 1 then bottom - 1 else 0) { top, bottom := 0, rows; }
  }

  /** Where a cursor movement goes, with the clamping the parser does on the way. */
  method Target(c: char, p0: nat, q0: nat, v: View, origin: bool) returns (x: nat, y: nat)
    requires MovesCursor(c) && ViewOk(v)
    ensures (x, y) == Moved(c, p0, q0, v, origin) && x < v.cols && y < v.rows
  {
    var p, q := p0, q0;
    x, y := v.x, v.y;
    if c == 'F' || c == 'A' {
      if c == 'F' { x := 0; }
      if p > y { p := y; }
      y := y - p;
      var minY := if origin then v.top else 0;
      if y < minY { y := minY; }
    } else if c == 'E' || c == 'e' || c == 'B' {
      if c == 'E' { x := 0; }
      if y + p > v.rows - 1 { p := v.rows - 1 - y; }
      y := y + p;
      var maxY := if origin then v.bottom else v.rows;
      if y >= maxY { y := maxY - 1; }
    } else if c == 'a' || c == 'C' {
      if x + p > v.cols - 1 { p := v.cols - 1 - x; }
      x := x + p;
    } else if c == 'D' {
      if p > x { p := x; }
      x := x - p;
    } else if c == 'd' {
      y := TargetRow(p, v, origin);
    } else if c == 'G' || c == '`' {
      if p != 0 { p := p - 1; }
      if p >= v.cols { p := v.cols - 1; }
      x := p;
    } else {
      if q != 0 { q := q - 1; }
      if q >= v.cols { q := v.cols - 1; }
      x := q;
      y := TargetRow(p, v, origin);
    }
  }

  method TargetRow(p0: nat, v: View, origin: bool) returns (y: nat)
    requires ViewOk(v)
    ensures y == RowOf(v, origin, p0) && y < v.rows
  {
    var p := if p0 != 0 then p0 - 1 else 0;
    var maxRow, rowOffset := v.rows, 0;
    if origin { maxRow, rowOffset := v.bottom - v.top, v.top; }
    if p >= maxRow { p := maxRow - 1; }
    y := p + rowOffset;
  }
}
