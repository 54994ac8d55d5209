/** What control sequences change besides the screen: attributes, margins, modes and the saved cursor. */
module SequenceSettings {
  import opened ControlFunctions
  import opened Sgr
  import opened TerminalContext
  import opened TerminalImage
  import opened TerminalSteps

  /** Everything that outlasts a sequence. */
  datatype Settings = Settings(pen: Pen, attrs: Attributes, cursorEnabled: bool, at: (nat, nat), charsets: seq<nat>,
    charset: nat, saved: Saved, last: nat, graphic: bool)

  function SettingsOf(k: Context): Settings {
    Settings(PenOf(k), k.attrs, k.cursorEnabled, (k.savedCursorX, k.savedCursorY), k.charsets, k.currentCharset,
             k.saved, k.lastPrinted, k.lastWasGraphic)
  }

  /** A control function with its parameters. */
  function Changed(e: Env, f: Frame, s: Image, t: Settings, c: char): Settings
    requires FrameOk(e, f) && Fits(e, s)
  {
    if c == 'm' then t.(attrs := RenderedAll(e.palette, e.table, Ink(f.attrs, s.fg, s.bg), f.values, f.count).attrs)
    else if c == 's' then t.(at := SeenAt(e, f.pen, s))
    else if c == 'r' then
      var (top, bottom) := Margins(e.rows, f.count, f.values[0], f.values[1]);
      t.(pen := t.pen.(top := top, bottom := bottom))
    else if (c == 'h' || c == 'l') && f.count > 0 && f.values[0] == 4 then t.(pen := t.pen.(insert := c == 'h'))
    else t
  }

  /** A private sequence: each mode is set or reset exactly when it is named, and leaving the alternate screen makes
      the attributes plain. */
  function Switched(t: Settings, values: seq<nat>, on: bool): Settings {
    t.(pen := t.pen.(origin := if 6 in values then on else t.pen.origin,
                     wrap := if 7 in values then on else t.pen.wrap),
       cursorEnabled := if 25 in values then on else t.cursorEnabled,
       attrs := if 1049 in values && !on then PLAIN else t.attrs)
  }

  lemma ModeSettings(k: Context, t: Settings, values: seq<nat>, v: nat, on: bool)
    requires SettingsOf(k) == Switched(t, values, on)
    ensures SettingsOf(ModeSet(k, v, on)) == Switched(t, values + [v], on)
  {
  }

  lemma {:induction false} PrivateSettings(k: Context, values: seq<nat>, on: bool)
    ensures SettingsOf(PrivateContext(k, values, on)) == Switched(SettingsOf(k), values, on)
  {
    hide SettingsOf, ModeSet;
    var n := |values| - 1;
    if n >= 0 {
      PrivateSettings(k, values[..n], on);
      ModeSettings(PrivateContext(k, values[..n], on), SettingsOf(k), values[..n], values[n], on);
      assert values == values[..n] + [values[n]];
    }
  }

  lemma AttributeSettings(k: Context, a: Attributes, at: (nat, nat))
    ensures SettingsOf(WithAttributes(k, a)) == SettingsOf(k).(attrs := a)
    ensures SettingsOf(WithCursor(k, at)) == SettingsOf(k).(at := at)
  {
  }

  lemma PenSettings(k: Context, m: (nat, nat), on: bool)
    ensures SettingsOf(WithMargins(k, m)) == SettingsOf(k).(pen := SettingsOf(k).pen.(top := m.0, bottom := m.1))
    ensures SettingsOf(WithInsert(k, on)) == SettingsOf(k).(pen := SettingsOf(k).pen.(insert := on))
  {
  }

  lemma StateSettings(e: Env, k: Context, s: Image, c: char)
    requires FrameOk(e, FrameOf(k)) && Fits(e, s)
    ensures SettingsOf(StateContext(e, k, s, c)) == Changed(e, FrameOf(k), s, SettingsOf(k), c)
  {
    hide Fits, RenderedAll, Margins, SeenAt, SettingsOf, WithAttributes, WithCursor, WithMargins, WithInsert, PenOf;
    if c == 'm' {
      AttributeSettings(k,
        RenderedAll(e.palette, e.table, Ink(k.attrs, s.fg, s.bg), k.escValues, ParamCount(k)).attrs, (0, 0));
    } else if c == 's' {
      AttributeSettings(k, k.attrs, SeenAt(e, PenOf(k), s));
    } else if c == 'r' {
      PenSettings(k, Margins(e.rows, ParamCount(k), k.escValues[0], k.escValues[1]), true);
    } else {
      PenSettings(k, (0, 0), c == 'h');
    }
  }

  lemma ClosedSettings(k: Context)
    ensures SettingsOf(Closed(k)) == SettingsOf(Public(k)) == SettingsOf(k)
  {
  }

  lemma FilledSettings(k: Context, c: nat)
    requires Params(k.escValues)
    ensures SettingsOf(FilledIn(k, c)) == SettingsOf(k)
  {
    hide Defaulted, Params, DefaultFor;
  }

  /** What a final byte changes. */
  function Ending(e: Env, f: Frame, s: Image, t: Settings, c: nat): Settings
    requires FrameOk(e, f) && Fits(e, s) && c < 0x100
  {
    if !f.private then Changed(e, f, s, t, c as char)
    else if c == 104 || c == 108 then Switched(t, f.values[..f.count], c == 104)
    else t
  }

  lemma EndSettings(e: Env, k: Context, s: Image, c: nat)
    requires FrameOk(e, FrameOf(k)) && Fits(e, s) && 0x40 <= c <= 0x7E && !k.csiUnhandled
    ensures SettingsOf(EndContext(e, k, s, c)) == Ending(e, FrameOf(k), s, SettingsOf(k), c)
  {
    hide Fits, SettingsOf, Closed, StateContext, PrivateContext, Public, Changed, PenOk;
    if k.decPrivate {
      ClosedSettings(k);
      PrivateSettings(Public(k), k.escValues[..ParamCount(k)], c == 104);
      ClosedSettings(PrivateEnd(k, c));
    } else {
      StateSettings(e, k, s, c as char);
      ClosedSettings(StateContext(e, k, s, c as char));
    }
  }
}
