/** What each byte does to the parser's own state, and the terminal as a machine that takes one byte at a time. */
module TerminalSteps {
  import opened ControlFunctions
  import opened S = Screen
  import opened Sgr
  import opened TerminalContext
  import opened TerminalImage
  import opened Utf8

  /** Shift in and shift out choose a character set. */
  function ControlledContext(k: Context, c: nat): (l: Context)
    ensures l.saved == k.saved && Flow(l) == Flow(k)
    ensures Guide(l) == Guide(k)
  {
    if c == 14 then k.(currentCharset := 1) else if c == 15 then k.(currentCharset := 0) else k
  }

  /** The cursor as it is reported. */
  function SeenAt(e: Env, p: Pen, s: Image): (nat, nat)
    requires PenOk(e, p) && Fits(e, s)
  {
    (ViewOf(e, p, s).x, s.y)
  }

  function WithAttributes(k: Context, a: Attributes): (l: Context)
    ensures l.saved == k.saved && Flow(l) == Flow(k)
    ensures Guide(l) == Guide(k)
  {
    k.(attrs := a)
  }

  function WithCursor(k: Context, at: (nat, nat)): (l: Context)
    ensures l.saved == k.saved && Flow(l) == Flow(k)
    ensures Guide(l) == Guide(k)
  {
    k.(savedCursorX := at.0, savedCursorY := at.1)
  }

  function WithMargins(k: Context, m: (nat, nat)): (l: Context)
    ensures l.saved == k.saved && Flow(l) == Flow(k)
    ensures Guide(l) == Guide(k)
  {
    k.(top := m.0, bottom := m.1)
  }

  function WithInsert(k: Context, on: bool): (l: Context)
    ensures l.saved == k.saved && Flow(l) == Flow(k)
    ensures Guide(l) == Guide(k)
  {
    k.(insertMode := on)
  }

  /** Attributes, the saved cursor, margins and insert mode. */
  function StateContext(e: Env, k: Context, s: Image, c: char): Context
    requires FrameOk(e, FrameOf(k)) && Fits(e, s)
  {
    if c == 'm' then
      WithAttributes(k,
        RenderedAll(e.palette, e.table, Ink(k.attrs, s.fg, s.bg), k.escValues, ParamCount(k)).attrs)
    else if c == 's' then WithCursor(k, SeenAt(e, PenOf(k), s))
    else if c == 'r' then WithMargins(k, Margins(e.rows, ParamCount(k), k.escValues[0], k.escValues[1]))
    else if (c == 'h' || c == 'l') && ParamCount(k) > 0 && k.escValues[0] == 4 then WithInsert(k, c == 'h')
    else k
  }

  /** Private modes, one after the other. */
  function PrivateContext(k: Context, values: seq<nat>, on: bool): Context {
    if values == [] then k
    else ModeSet(PrivateContext(k, values[..|values| - 1], on), values[|values| - 1], on)
  }

  function Public(k: Context): (l: Context)
    ensures l.saved == k.saved && Flow(l) == Flow(k)
    ensures Guide(l) == (false, k.escapeOffset, k.discardNext)
  {
    k.(decPrivate := false)
  }

  /** A private sequence. */
  function PrivateEnd(k: Context, c: nat): Context
    requires ParamCount(k) <= |k.escValues|
  {
    if c == 104 || c == 108 then PrivateContext(Public(k), k.escValues[..ParamCount(k)], c == 104) else Public(k)
  }

  /** Each private mode is set if it is named, and left alone otherwise. */
  lemma {:induction false} PrivateMeaning(k: Context, values: seq<nat>, on: bool)
    ensures Modes(k, PrivateContext(k, values, on), values, on)
  {
    hide Modes, ModeSet;
    var n := |values| - 1;
    if n < 0 {
      ModesNone(k, on);
    } else {
      PrivateMeaning(k, values[..n], on);
      ModesStep(k, PrivateContext(k, values[..n], on), values[..n], values[n], on);
      assert values == values[..n] + [values[n]];
    }
  }

  function Flagged(k: Context, controlSequence: bool, escape: bool, unhandled: bool, offset: nat): (l: Context)
    ensures l.saved == k.saved && Flow(l) == (escape, controlSequence, k.osc)
    ensures Guide(l) == (k.decPrivate, offset, k.discardNext)
  {
    k.(controlSequence := controlSequence, escape := escape, csiUnhandled := unhandled, escapeOffset := offset)
  }

  /** The sequence is over. */
  function Closed(k: Context): Context {
    Flagged(k, false, false, k.csiUnhandled, k.escapeOffset)
  }

  /** A byte that ends a sequence that is not understood, starts another one, or makes this one not understood. */
  function OddEnd(k: Context, c: nat): Context {
    if k.csiUnhandled then if 0x40 <= c <= 0x7E then Flagged(k, false, false, false, k.escapeOffset) else k
    else if c == ESC then Flagged(k, false, k.escape, false, 0)
    else Flagged(k, k.controlSequence, k.escape, true, k.escapeOffset)
  }

  /** A byte that ends the parameters of a control sequence. */
  function EndContext(e: Env, k: Context, s: Image, c: nat): Context
    requires FrameOk(e, FrameOf(k)) && Fits(e, s) && c < 0x100
  {
    if k.decPrivate then Closed(PrivateEnd(k, c))
    else if k.csiUnhandled || c == ESC || !(0x40 <= c <= 0x7E) then OddEnd(k, c)
    else Closed(StateContext(e, k, s, c as char))
  }

  /** From `k` and `s` to `l` and `t` by a byte that ends the parameters. */
  ghost predicate Ended(e: Env, k: Context, s: Image, c: nat, l: Context, t: Image) {
    && FrameOk(e, FrameOf(k)) && Fits(e, s) && c < 0x100
    && l == EndContext(e, k, s, c) && t == EndImage(e, FrameOf(k), s, c)
  }

  predicate InParameter(c: nat) {
    48 <= c <= 57 || c == 59
  }

  function WithParameter(k: Context, v: nat, count: nat, open: bool): (l: Context)
    requires k.escValuesI < |k.escValues|
    ensures l.saved == k.saved && Flow(l) == Flow(k)
    ensures Guide(l) == Guide(k)
  {
    k.(escValues := k.escValues[k.escValuesI := v], escValuesI := count, rrr := open)
  }

  /** The parameter under way counts. */
  function Counted(k: Context): (l: Context)
    ensures l.saved == k.saved && Flow(l) == Flow(k)
    ensures Guide(l) == Guide(k)
  {
    k.(escValuesI := ParamCount(k), rrr := false)
  }

  /** A digit or a separator. */
  function ParameterContext(k: Context, c: nat): Context
    requires Params(k.escValues) && InParameter(c)
  {
    var i := k.escValuesI;
    if c != 59 then
      if i < MAX_ESC_VALUES then WithParameter(k, Digit(k.escValues[i], c - 48), i, true) else k
    else if k.rrr then Counted(k)
    else if i < MAX_ESC_VALUES then WithParameter(k, 0, i + 1, false)
    else k
  }

  /** The parameters are complete, and those that are missing take their default. */
  function FilledIn(k: Context, c: nat): (l: Context)
    requires Params(k.escValues)
    ensures l.saved == k.saved && Flow(l) == Flow(k)
    ensures Guide(l) == Guide(k)
  {
    Counted(k).(escValues := Defaulted(k.escValues, ParamCount(k), DefaultFor(c)))
  }

  /** The second byte of a control sequence of a kind of its own. */
  function SecondContext(k: Context, c: nat): (l: Context)
    ensures l.saved == k.saved && Flow(l) == if c == 63 then Flow(k) else (false, false, k.osc)
    ensures Guide(l) == (k.decPrivate || c == 63, k.escapeOffset, k.discardNext || c != 63)
  {
    if c == 63 then k.(decPrivate := true) else k.(discardNext := true, controlSequence := false, escape := false)
  }

  lemma FilledFrame(e: Env, k: Context, c: nat)
    requires FrameOk(e, FrameOf(k))
    ensures FrameOf(FilledIn(k, c)) == FrameOf(k).(values := Defaulted(k.escValues, ParamCount(k), DefaultFor(c)))
    ensures FrameOk(e, FrameOf(FilledIn(k, c)))
  {
    hide EnvOk, Params, AttributesOk, Defaulted, DefaultFor;
  }

  /** A byte inside a control sequence. */
  function SequenceContext(e: Env, k: Context, s: Image, c: nat): Context
    requires FrameOk(e, FrameOf(k)) && Fits(e, s) && c < 0x100
  {
    if k.escapeOffset == 2 && (c == 91 || c == 63) then SecondContext(k, c)
    else if c < 0x20 && c != ESC then ControlledContext(k, c)
    else if InParameter(c) then ParameterContext(k, c)
    else
      FilledFrame(e, k, c);
      EndContext(e, FilledIn(k, c), s, c)
  }

  function Command(k: Context, osc: bool, oscEscape: bool, escape: bool): (l: Context)
    ensures l.saved == k.saved && Flow(l) == (escape, k.controlSequence, osc)
    ensures Guide(l) == Guide(k)
  {
    k.(osc := osc, oscEscape := oscEscape, escape := escape)
  }

  /** One more byte of a command, as long as there is room. */
  function Buffered(k: Context, c: nat): (l: Context)
    requires |k.oscBuf| == OSC_SIZE
    ensures l.saved == k.saved && Flow(l) == Flow(k)
    ensures Guide(l) == Guide(k)
  {
    var i := k.oscBufI;
    var room := i < OSC_SIZE;
    k.(oscBuf := if room then k.oscBuf[i := c] else k.oscBuf, oscBufI := if room then i + 1 else i)
  }

  /** A byte of an operating system command. */
  function OscContext(k: Context, c: nat): Context
    requires |k.oscBuf| == OSC_SIZE
  {
    if k.oscEscape then Command(k, false, false, k.escape && c != 92)
    else if c == ESC then Command(k, k.osc, true, k.escape)
    else if c == 7 then Command(k, false, false, false)
    else Buffered(k, c)
  }

  /** The byte belongs to an operating system command. */
  predicate InCommand(k: Context, c: nat) {
    k.osc && !(k.oscEscape && c != 92)
  }

  function AtOffset(k: Context, n: nat): (l: Context)
    ensures l.oscBuf == k.oscBuf && l.oscBufI == k.oscBufI && l.oscEscape == k.oscEscape
    ensures l.saved == k.saved && Flow(l) == Flow(k)
    ensures Guide(l) == (k.decPrivate, n, k.discardNext)
  {
    k.(escapeOffset := n)
  }

  /** A byte of an escape sequence is counted. */
  function Advanced(k: Context, c: nat): Context
    requires |k.oscBuf| == OSC_SIZE
  {
    var l := AtOffset(k, k.escapeOffset + 1);
    if !k.osc then l
    else if InCommand(k, c) then OscContext(l, c)
    else AtOffset(OscContext(l, c), 1)
  }

  /** What a save keeps of the context. */
  function Keeps(k: Context): Saved {
    Saved(k.attrs, k.originMode, k.wrapEnabled, k.currentCharset, k.charsets)
  }

  function WithSaved(k: Context, a: Saved): (l: Context)
    ensures Flow(l) == Flow(k) && Guide(l) == Guide(k)
  {
    k.(saved := a)
  }

  function WithSelect(k: Context, n: nat): (l: Context)
    ensures l.saved == k.saved && Flow(l) == Flow(k)
    ensures Guide(l) == Guide(k)
  {
    k.(gSelect := n)
  }

  function Restored(k: Context): (l: Context)
    ensures l.saved == k.saved && Flow(l) == Flow(k)
    ensures Guide(l) == Guide(k)
  {
    k.(attrs := k.saved.attrs, originMode := k.saved.origin, wrapEnabled := k.saved.wrap,
       currentCharset := k.saved.charset, charsets := k.saved.charsets)
  }

  /** An escape sequence of one further byte. */
  function ActionContext(rows: nat, k: Context, c: nat): Context {
    if c == 55 then WithSaved(k, Keeps(k))
    else if c == 56 then Restored(k)
    else if c == 99 then Reinitialised(k, rows)
    else if c == 40 || c == 41 then WithSelect(k, c - 39)
    else k
  }

  function NoValues(): (r: seq<nat>)
    ensures Params(r)
  {
    seq(MAX_ESC_VALUES, i => 0)
  }

  function Started(k: Context): (l: Context)
    ensures l.saved == k.saved && Flow(l) == (k.escape, true, k.osc)
    ensures Guide(l) == Guide(k)
  {
    k.(escValues := NoValues(), escValuesI := 0, rrr := false, csiUnhandled := false,
       controlSequence := true)
  }

  function CommandStarted(k: Context): (l: Context)
    ensures l.saved == k.saved && Flow(l) == (k.escape, k.controlSequence, true)
    ensures Guide(l) == Guide(k)
  {
    k.(oscEscape := false, osc := true, oscBufI := 0)
  }

  function Escaping(k: Context, offset: nat, escape: bool): (l: Context)
    ensures l.saved == k.saved && Flow(l) == (escape, k.controlSequence, k.osc)
    ensures Guide(l) == (k.decPrivate, offset, k.discardNext)
  {
    k.(escapeOffset := offset, escape := escape)
  }

  /** A byte that follows the escape character itself. */
  function SimpleContext(rows: nat, k: Context, c: nat): Context {
    if c == ESC then Escaping(k, 0, k.escape)
    else if c == 93 then CommandStarted(k)
    else if c == 91 then Started(k)
    else var l := ActionContext(rows, k, c); Escaping(l, l.escapeOffset, false)
  }

  lemma CommandFrame(k: Context, osc: bool, oscEscape: bool, escape: bool, c: nat)
    requires |k.oscBuf| == OSC_SIZE
    ensures FrameOf(Command(k, osc, oscEscape, escape)) == FrameOf(Buffered(k, c)) == FrameOf(k)
  {
  }

  lemma OscFrame(k: Context, c: nat)
    requires |k.oscBuf| == OSC_SIZE
    ensures FrameOf(OscContext(k, c)) == FrameOf(k)
  {
    hide FrameOf, Command, Buffered;
    CommandFrame(k, false, false, k.escape && c != 92, c);
    CommandFrame(k, k.osc, true, k.escape, c);
    CommandFrame(k, false, false, false, c);
  }

  lemma OffsetFrame(k: Context, n: nat)
    ensures FrameOf(AtOffset(k, n)) == FrameOf(k)
  {
  }

  lemma AdvancedFrame(k: Context, c: nat)
    requires |k.oscBuf| == OSC_SIZE
    ensures FrameOf(Advanced(k, c)) == FrameOf(k)
  {
    hide FrameOf, OscContext, InCommand, AtOffset;
    var l := AtOffset(k, k.escapeOffset + 1);
    OffsetFrame(k, k.escapeOffset + 1);
    OscFrame(l, c);
    OffsetFrame(OscContext(l, c), 1);
  }

  /** A byte in an escape sequence. */
  function EscapeContext(e: Env, k: Context, s: Image, c: nat): Context
    requires FrameOk(e, FrameOf(k)) && Fits(e, s) && c < 0x100 && |k.oscBuf| == OSC_SIZE
  {
    AdvancedFrame(k, c);
    var l := Advanced(k, c);
    if InCommand(k, c) then l
    else if l.controlSequence then SequenceContext(e, l, s, c)
    else SimpleContext(e.rows, l, c)
  }

  function WithCharsets(k: Context, sets: seq<nat>): (l: Context)
    ensures l.saved == k.saved && Flow(l) == Flow(k)
    ensures Guide(l) == Guide(k)
  {
    k.(gSelect := 0, charsets := sets)
  }

  /** A byte that names the character set chosen before. */
  function SelectedContext(k: Context, c: nat): (l: Context)
    requires 1 <= k.gSelect <= |k.charsets|
    ensures l.saved == k.saved && Flow(l) == Flow(k)
    ensures Guide(l) == Guide(k)
  {
    WithCharsets(k, if c == 66 then k.charsets[k.gSelect - 1 := CHARSET_DEFAULT]
      else if c == 48 then k.charsets[k.gSelect - 1 := CHARSET_DEC_SPECIAL] else k.charsets)
  }

  function WithGraphic(k: Context, graphic: bool): (l: Context)
    ensures l.saved == k.saved && Flow(l) == Flow(k)
    ensures Guide(l) == Guide(k)
  {
    k.(gSelect := 0, lastWasGraphic := graphic)
  }

  /** No character set is being chosen, and control characters cannot be repeated. */
  function Quiet(k: Context, c: nat): (l: Context)
    ensures l.saved == k.saved && Flow(l) == Flow(k)
    ensures Guide(l) == Guide(k)
  {
    WithGraphic(k, k.lastWasGraphic && !((c <= 0x1F && c != ESC) || c == 0x7F))
  }

  lemma QuietKeeps(k: Context, c: nat)
    ensures var l := Quiet(k, c);
      && l.charsets == k.charsets && l.currentCharset == k.currentCharset && PenOf(l) == PenOf(k)
      && l.decoder == k.decoder
  {
  }

  /** The last character, which can be repeated. */
  function Printed(k: Context, g: nat): (l: Context)
    ensures l.saved == k.saved && Flow(l) == Flow(k)
    ensures Guide(l) == Guide(k)
  {
    k.(lastPrinted := g, lastWasGraphic := true)
  }

  /** A byte outside all sequences. */
  function GroundContext(k: Context, c: nat): Context
    requires CharsetsOk(k.charsets, k.currentCharset)
  {
    if 8 <= c <= 15 then ControlledContext(k, c)
    else if c == 0 || c == 7 || c == 0x7F then k
    else if c == ESC then Escaping(k, 0, true)
    else if PrintsAs(k, c).Some? then Printed(k, PrintsAs(k, c).value)
    else k
  }

  /** The machine's state makes sense. */
  predicate Legal(e: Env, k: Context, s: Image) {
    ContextOk(k, e.rows) && Fits(e, s)
  }

  lemma LegalParts(e: Env, k: Context, s: Image)
    requires Legal(e, k, s)
    ensures FrameOk(e, FrameOf(k)) && Fits(e, s) && PenOk(e, PenOf(k)) && |k.oscBuf| == OSC_SIZE
    ensures CharsetsOk(k.charsets, k.currentCharset) && k.gSelect <= 2 && k.decoder.remaining <= 3
    ensures k.decoder.remaining != 0 ==> Collecting(k.decoder)
  {
    hide EnvOk, Params, AttributesOk, CharsetsOk;
  }

  /** A byte that is not part of a multi-byte sequence under way. */
  function IdleContext(e: Env, k: Context, s: Image, c: nat): Context
    requires Legal(e, k, s) && c < 0x100
  {
    LegalParts(e, k, s);
    if 0xC2 <= c <= 0xF4 then WithSelect(WithDecoder(k, Lead(c).value), 0)
    else if k.escape then EscapeContext(e, k, s, c)
    else if k.gSelect != 0 && !(c <= 0x1F || c == 0x7F) then SelectedContext(k, c)
    else GroundContext(Quiet(k, c), c)
  }

  /** A code point has been printed. */
  function ShownContext(e: Env, k: Context, cp: nat): Context {
    if e.glyphOf(cp) != -1 then Printed(k, e.glyphOf(cp) % 0x100)
    else if e.widthOf(cp) > 0 then Printed(k, REPLACEMENT)
    else k
  }

  /** The decoder gives up. */
  function Idle(k: Context): Context {
    WithDecoder(k, k.decoder.(remaining := 0))
  }

  lemma IdleLegal(e: Env, k: Context, s: Image, c: nat)
    requires Legal(e, k, s)
    ensures PenOk(e, PenOf(k)) && Legal(e, Idle(k), BrokenImage(e, k, s, c))
  {
    hide EnvOk, Params, AttributesOk, CharsetsOk, Collecting, Typed;
    LegalParts(e, k, s);
  }

  function Cancelled(k: Context): (l: Context)
    ensures l.saved == k.saved && Flow(l) == (false, false, false)
    ensures Guide(l) == (k.decPrivate, k.escapeOffset, false)
  {
    k.(discardNext := false, escape := false, controlSequence := false, decoder := k.decoder.(remaining := 0),
       osc := false, oscEscape := false, gSelect := 0, lastWasGraphic := false)
  }

  /** Any byte in any state. */
  function ByteContext(e: Env, k: Context, s: Image, c: nat): Context
    requires Legal(e, k, s) && c < 0x100
  {
    LegalParts(e, k, s);
    IdleLegal(e, k, s, c);
    if Cancels(k, c) then Cancelled(k)
    else if k.decoder.remaining == 0 then IdleContext(e, k, s, c)
    else match Continue(k.decoder, c)
      case More(next) => WithDecoder(k, next)
      case Done(cp) => ShownContext(e, WithDecoder(k, Decoder(0, cp)), cp)
      case Broken => IdleContext(e, Idle(k), BrokenImage(e, k, s, c), c)
  }

  /** In an escape sequence, the bytes that store the appearance or reset the terminal. */
  predicate Stores(k: Context, c: nat) {
    (c == 55 || c == 99) && !k.controlSequence && (k.osc ==> k.oscEscape)
  }

  predicate Saves(k: Context, c: nat) {
    k.escape && !k.discardNext && Stores(k, c)
  }

  /** What a save keeps of the screen. */
  function Marked(e: Env, s: Image): Env {
    e.(savedX := s.x, savedY := s.y, savedFg := s.fg, savedBg := s.bg)
  }

  /** The whole terminal: what is around it, the parser and the screen. */
  datatype Machine = Machine(env: Env, ctx: Context, image: Image)

  predicate MachineOk(m: Machine) {
    Legal(m.env, m.ctx, m.image)
  }

  function Step(m: Machine, c: nat): Machine
    requires MachineOk(m) && c < 0x100
  {
    LegalParts(m.env, m.ctx, m.image);
    var s := ByteImage(m.env, m.ctx, m.image, c);
    Machine(if Saves(m.ctx, c) && c == 55 then Marked(m.env, s) else m.env, ByteContext(m.env, m.ctx, m.image, c), s)
  }

  /** What the save and restore functions are about. */
  datatype Look = Look(attrs: Attributes, origin: bool, wrap: bool, charset: nat, charsets: seq<nat>, x: nat, y: nat,
    fg: nat, bg: nat)

  function LookOf(m: Machine): Look {
    Look(m.ctx.attrs, m.ctx.originMode, m.ctx.wrapEnabled, m.ctx.currentCharset, m.ctx.charsets, m.image.x, m.image.y,
         m.image.fg, m.image.bg)
  }

  /** What a restore brings back. */
  function SavedLook(m: Machine): Look {
    Look(m.ctx.saved.attrs, m.ctx.saved.origin, m.ctx.saved.wrap, m.ctx.saved.charset, m.ctx.saved.charsets,
         m.env.savedX, m.env.savedY, m.env.savedFg, m.env.savedBg)
  }

  /** The states the terminal goes through while it takes the bytes. */
  ghost predicate Run(ms: seq<Machine>, bytes: seq<nat>) {
    && |ms| == |bytes| + 1 && (forall i :: 0 <= i < |ms| ==> MachineOk(ms[i])) && Bytes(bytes)
    && forall i :: 0 <= i < |bytes| ==> ms[i + 1] == Step(ms[i], bytes[i])
  }

  lemma RunMore(ms: seq<Machine>, bytes: seq<nat>, c: nat, m: Machine)
    requires Run(ms, bytes) && c < 0x100 && m == Step(ms[|bytes|], c) && MachineOk(m)
    ensures Run(ms + [m], bytes + [c])
  {
    hide Step, MachineOk;
  }
}
