/** The state of the terminal's parser. */
module TerminalContext {
  import opened Basics
  import opened Options
  import opened S = Screen
  import opened Sgr
  import opened Utf8

  const MAX_ESC_VALUES: nat := 16
  const OSC_SIZE: nat := 256
  const CHARSET_DEFAULT: nat := 0
  const CHARSET_DEC_SPECIAL: nat := 1
  const ESC: nat := 0x1B

  predicate Charset(n: nat) {
    n == CHARSET_DEFAULT || n == CHARSET_DEC_SPECIAL
  }

  /** One more decimal digit of a 32-bit parameter; large values are kept, and the last step wraps. */
  function Digit(v: nat, d: nat): (r: nat)
    requires v < U32 && d <= 9
    ensures r < U32
  {
    if v > 0xFFFF_FFFF / 10 then v else (v * 10 + d) % U32
  }

  /** The number a sequence of digits stands for. */
  function Value(ds: seq<nat>): nat {
    if ds == [] then 0 else Value(ds[..|ds| - 1]) * 10 + ds[|ds| - 1]
  }

  /** The parameter the parser ends up with after those digits. */
  function Collected(ds: seq<nat>): (v: nat)
    requires forall i :: 0 <= i < |ds| ==> ds[i] <= 9
    ensures v < U32
  {
    if ds == [] then 0 else Digit(Collected(ds[..|ds| - 1]), ds[|ds| - 1])
  }

  /** A parameter is read right exactly when it fits 32 bits. */
  lemma {:induction false} CollectedRight(ds: seq<nat>)
    requires forall i :: 0 <= i < |ds| ==> ds[i] <= 9
    ensures Collected(ds) == Value(ds) <==> Value(ds) < U32
  {
    if ds != [] { CollectedRight(ds[..|ds| - 1]); }
  }

  /** Missing parameters take the default; so do zeros, unless the default is zero. */
  function Defaulted(s: seq<nat>, count: nat, d: nat): (r: seq<nat>)
    requires Params(s) && d <= 1
    ensures Params(r) && (d == 1 ==> forall i :: 0 <= i < |r| ==> r[i] >= 1)
  {
    seq(MAX_ESC_VALUES, i requires 0 <= i < MAX_ESC_VALUES => if i >= count then d else if d != 0 && s[i] == 0
      then d else s[i])
  }

  predicate Params(s: seq<nat>) {
    |s| == MAX_ESC_VALUES && forall i :: 0 <= i < |s| ==> s[i] < U32
  }

  /** What the save and restore functions keep, besides the screen's own part. */
  datatype Saved = Saved(attrs: Attributes, origin: bool, wrap: bool, charset: nat, charsets: seq<nat>)

  /** The terminal's context record. */
  datatype Context = Context(
    tabSize: nat, autoflush: bool, cursorEnabled: bool, scrollEnabled: bool, wrapEnabled: bool, originMode: bool,
      insertMode: bool,
    escape: bool, controlSequence: bool, osc: bool, oscEscape: bool, discardNext: bool, escapeOffset: nat,
    oscBuf: seq<nat>, oscBufI: nat,
    escValues: seq<nat>, escValuesI: nat, rrr: bool, decPrivate: bool, csiUnhandled: bool,
    decoder: Decoder, gSelect: nat, charsets: seq<nat>, currentCharset: nat,
    attrs: Attributes, top: nat, bottom: nat, lastPrinted: nat, lastWasGraphic: bool,
    savedCursorX: nat, savedCursorY: nat, saved: Saved)

  predicate CharsetsOk(sets: seq<nat>, current: nat) {
    |sets| == 2 && Charset(sets[0]) && Charset(sets[1]) && current < 2
  }

  /** Every index the parser uses is in bounds, and the margins enclose a line. */
  predicate ContextOk(c: Context, rows: nat) {
    && Params(c.escValues) && c.escValuesI <= MAX_ESC_VALUES && (c.rrr ==> c.escValuesI < MAX_ESC_VALUES)
    && |c.oscBuf| == OSC_SIZE && c.oscBufI <= OSC_SIZE
    && CharsetsOk(c.charsets, c.currentCharset) && CharsetsOk(c.saved.charsets, c.saved.charset)
    && AttributesOk(c.attrs) && AttributesOk(c.saved.attrs)
    && c.gSelect <= 2 && (c.decoder.remaining != 0 ==> Collecting(c.decoder))
    && c.top < c.bottom <= rows && c.tabSize >= 1
  }

  /** The flags that say what kind of sequence is under way: any, a control sequence, a command. */
  function Flow(k: Context): (bool, bool, bool) {
    (k.escape, k.controlSequence, k.osc)
  }

  /** What decides how the next byte of a sequence is taken: the private flag, the place in the sequence, and whether
      the byte is dropped. */
  function Guide(k: Context): (bool, nat, bool) {
    (k.decPrivate, k.escapeOffset, k.discardNext)
  }

  /** The context with its initial modes; the parameter and text buffers are left as they are. */
  function Reinitialised(c: Context, rows: nat): (l: Context)
    ensures Flow(l) == (false, false, false) && Guide(l) == (false, 0, false)
  {
    c.(tabSize := 8, autoflush := true, cursorEnabled := true, scrollEnabled := true, wrapEnabled := true,
      originMode := false,
       insertMode := false, escape := false, controlSequence := false, osc := false, oscEscape := false,
         discardNext := false,
       escapeOffset := 0, escValuesI := 0, rrr := false, decPrivate := false, csiUnhandled := false,
       decoder := c.decoder.(remaining := 0), gSelect := 0, charsets := [CHARSET_DEFAULT, CHARSET_DEC_SPECIAL],
         currentCharset := 0,
       attrs := PLAIN, saved := c.saved.(attrs := c.saved.attrs.(primary := COLOR_DEFAULT,
         background := COLOR_DEFAULT)),
       savedCursorX := 0, savedCursorY := 0, lastPrinted := BLANK, lastWasGraphic := false, top := 0, bottom := rows)
  }

  lemma ReinitialisedOk(c: Context, rows: nat)
    requires ContextOk(c, rows)
    ensures ContextOk(Reinitialised(c, rows), rows)
  {
  }

  function Fresh(rows: nat): Context {
    Reinitialised(
      Context(0, false, false, false, false, false, false, false, false, false, false, false, 0,
        seq(OSC_SIZE, i => 0), 0,
              seq(MAX_ESC_VALUES, i => 0), 0, false, false, false, Decoder(0, 0), 0, [0, 0], 0, PLAIN, 0, rows,
                0, false, 0, 0,
              Saved(PLAIN, false, false, 0, [0, 0])), rows)
  }

  /** The value of parameters that are not given. */
  function DefaultFor(c: nat): (d: nat)
    ensures d <= 1
  {
    if c == 74 || c == 75 || c == 113 || c == 109 || c == 99 || c == 93 then 0 else 1
  }

  function ParamCount(ctx: Context): nat {
    ctx.escValuesI + if ctx.rrr then 1 else 0
  }

  /** The context after setting or resetting one private mode. */
  function ModeSet(c: Context, v: nat, on: bool): (l: Context)
    ensures l.saved == c.saved && Flow(l) == Flow(c)
    ensures Guide(l) == Guide(c)
  {
    c.(originMode := if v == 6 then on else c.originMode,
       wrapEnabled := if v == 7 then on else c.wrapEnabled,
       cursorEnabled := if v == 25 then on else c.cursorEnabled,
       attrs := if v == 1049 && !on then PLAIN else c.attrs)
  }

  lemma ModeSetOk(c: Context, v: nat, on: bool, rows: nat)
    requires ContextOk(c, rows)
    ensures ContextOk(ModeSet(c, v, on), rows)
    ensures var d := ModeSet(c, v, on);
      d.decPrivate == c.decPrivate && d.top == c.top < rows && d.bottom == c.bottom && d.saved == c.saved
  {
    hide Params, Collecting, CharsetsOk;
  }

  /** Flags of the parser do not matter to what is in bounds. */
  lemma StillOk(k: Context, l: Context, rows: nat)
    requires ContextOk(k, rows)
    requires l.escValues == k.escValues && l.escValuesI == k.escValuesI && l.rrr == k.rrr && l.oscBuf == k.oscBuf
    requires l.oscBufI == k.oscBufI
    requires l.charsets == k.charsets && l.currentCharset == k.currentCharset && l.saved == k.saved
    requires l.attrs == k.attrs
    requires l.gSelect <= k.gSelect && l.decoder == k.decoder && l.top == k.top && l.bottom == k.bottom
    requires l.tabSize == k.tabSize
    ensures ContextOk(l, rows)
  {
    hide Params, CharsetsOk, AttributesOk, Collecting;
  }

  lemma AttributesStillOk(k: Context, a: Attributes, rows: nat)
    requires ContextOk(k, rows) && AttributesOk(a)
    ensures ContextOk(k.(attrs := a), rows)
  {
    hide Params, CharsetsOk, Collecting;
  }

  lemma LeadOk(k: Context, c: nat, rows: nat)
    requires ContextOk(k, rows) && 0xC2 <= c <= 0xF4
    ensures Lead(c).Some? && ContextOk(k.(gSelect := 0, decoder := Lead(c).value), rows)
  {
    hide Params, CharsetsOk, Collecting, Lead, AttributesOk;
    LeadCollects(c);
  }

  /** What the fields are bounded by. */
  lemma InBounds(k: Context, rows: nat)
    requires ContextOk(k, rows)
    ensures Params(k.escValues) && k.escValuesI <= MAX_ESC_VALUES && AttributesOk(k.attrs) && k.top < k.bottom <= rows
    ensures k.tabSize >= 1
    ensures CharsetsOk(k.charsets, k.currentCharset) && k.gSelect <= 2 && |k.oscBuf| == OSC_SIZE
    ensures k.oscBufI <= OSC_SIZE
  {
    hide Params, CharsetsOk, Collecting, AttributesOk;
  }

  function WithDecoder(k: Context, d: Decoder): (l: Context)
    ensures l.saved == k.saved && Flow(l) == Flow(k)
    ensures Guide(l) == Guide(k)
  {
    k.(decoder := d)
  }

  lemma DecoderOk(k: Context, d: Decoder, rows: nat)
    requires ContextOk(k, rows) && (d.remaining != 0 ==> Collecting(d))
    ensures var l := WithDecoder(k, d);
      ContextOk(l, rows) && l.decoder == d && l.saved == k.saved && l.escape == k.escape
    ensures var l := WithDecoder(k, d);
      l.controlSequence == k.controlSequence && l.osc == k.osc && l.oscEscape == k.oscEscape
  {
    hide Params, CharsetsOk, AttributesOk, Collecting;
  }

  lemma ModesStep(a: Context, b: Context, values: seq<nat>, v: nat, on: bool)
    requires Modes(a, b, values, on)
    ensures Modes(a, ModeSet(b, v, on), values + [v], on)
  {
  }

  lemma ModesNone(a: Context, on: bool)
    ensures Modes(a, a, [], on)
  {
  }

  /** Each private mode is set if it is named, and left alone otherwise. */
  ghost predicate Modes(a: Context, b: Context, values: seq<nat>, on: bool) {
    && b.originMode == (if 6 in values then on else a.originMode)
    && b.wrapEnabled == (if 7 in values then on else a.wrapEnabled)
    && b.cursorEnabled == (if 25 in values then on else a.cursorEnabled)
    && b.insertMode == a.insertMode
  }

  /** Bytes that drop any sequence under way. */
  predicate Cancels(ctx: Context, c: nat) {
    ctx.discardNext || c == 0x18 || c == 0x1A
  }

  lemma LeadCollects(c: nat)
    requires 0xC2 <= c <= 0xF4
    ensures Lead(c).Some? && Collecting(Lead(c).value)
  {
  }

  /** The line drawing characters. */
  function DecGlyph(c: nat): Option<nat> {
    match c
    case 96 => Some(0x04) case 48 => Some(0xDB) case 45 => Some(0x18) case 44 => Some(0x1B) case 46 => Some(0x19)
    case 97 => Some(0xB1) case 102 => Some(0xF8) case 103 => Some(0xF1) case 104 => Some(0xB0) case 106 => Some(0xD9)
    case 107 => Some(0xBF) case 108 => Some(0xDA) case 109 => Some(0xC0) case 110 => Some(0xC5) case 113 => Some(0xC4)
    case 115 => Some(0x5F) case 116 => Some(0xC3) case 117 => Some(0xB4) case 118 => Some(0xC1) case 119 => Some(0xC2)
    case 120 => Some(0xB3) case 121 => Some(0xF3) case 122 => Some(0xF2) case 126 => Some(0xFA) case 95 => Some(0xFF)
    case 43 => Some(0x1A) case 123 => Some(0xE3) case 125 => Some(0x9C)
    case _ => None
  }

  /** What a byte prints, by the current character set. */
  function PrintsAs(ctx: Context, c: nat): Option<nat>
    requires CharsetsOk(ctx.charsets, ctx.currentCharset)
  {
    if ctx.charsets[ctx.currentCharset] == CHARSET_DEC_SPECIAL && DecGlyph(c).Some? then DecGlyph(c)
    else if 0x20 <= c <= 0x7E then Some(c)
    else if c >= 0x80 then Some(0xFE)
    else None
  }

  /** The next tab stop. */
  function NextTab(x: nat, size: nat): (r: nat)
    requires size >= 1
  {
    (x / size + 1) * size
  }
}
