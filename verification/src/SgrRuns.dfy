/** Character attributes from the bytes that set them. */
module SgrRuns {
  import opened Basics
  import opened SequenceRuns
  import opened SequenceSettings
  import opened Sgr
  import opened SgrLaws
  import opened TerminalContext
  import opened TerminalImage
  import opened TerminalRuns
  import opened TerminalSteps

  /** The attributes and colours text is printed with. */
  function InkNow(m: Machine): Ink {
    Ink(m.ctx.attrs, m.image.fg, m.image.bg)
  }

  /** Parameters that are all written out and not too many to be read. */
  predicate Written(ps: seq<seq<nat>>) {
    Numerals(ps) && |ps| <= MAX_ESC_VALUES && forall i :: 0 <= i < |ps| ==> ps[i] != [] && Value(ps[i]) < U32
  }

  /** The function sees the numbers as they are written, zeros too. */
  lemma WrittenValues(k: Context, ps: seq<seq<nat>>)
    requires Written(ps)
    ensures var f := FrameFor(k, ps, 109);
      f.count == |ps| <= |f.values| && forall i :: 0 <= i < |ps| ==> f.values[i] == Value(ps[i])
  {
    hide Value, Collected;
    forall i | 0 <= i < |ps| ensures FrameFor(k, ps, 109).values[i] == Value(ps[i]) {
      assert AreDigits(ps[i]);
      CollectedRight(ps[i]);
    }
  }

  lemma AttributesNow(k: Context, ps: seq<seq<nat>>, c: nat)
    requires Numerals(ps)
    ensures FrameFor(k, ps, c).attrs == k.attrs && SettingsOf(k).attrs == k.attrs
  {
    hide ValuesOf, Given, Defaulted, DefaultFor;
  }

  lemma Inked(e: Env, f: Frame, s: Image, t: Settings)
    requires FrameOk(e, f) && Fits(e, s)
    ensures var r := RenderedAll(e.palette, e.table, Ink(f.attrs, s.fg, s.bg), f.values, f.count);
      FinalImage(e, f, s, 'm') == s.(fg := r.fg, bg := r.bg) && Changed(e, f, s, t, 'm') == t.(attrs := r.attrs)
  {
    hide RenderedAll, Fits, Again, MovedImage, EditedImage;
  }

  /** The ink is that of the parameters in turn; nothing else changes. */
  lemma InkRun(ms: seq<Machine>, ps: seq<seq<nat>>)
    requires Written(ps) && Run(ms, [ESC, 91] + Joined(ps) + [109]) && AtRest(ms[0].ctx) && !ms[0].ctx.decPrivate
    ensures var m, n, f := ms[0], ms[|Joined(ps)| + 3], FrameFor(ms[0].ctx, ps, 109);
      && FrameOk(m.env, f) && f.count == |ps| <= |f.values|
      && (forall i :: 0 <= i < |ps| ==> f.values[i] == Value(ps[i]))
      && InkNow(n) == RenderedFrom(m.env.palette, m.env.table, InkNow(m), f.values, |ps|, 0)
      && n.image == m.image.(fg := n.image.fg, bg := n.image.bg)
      && SettingsOf(n.ctx) == SettingsOf(m.ctx).(attrs := n.ctx.attrs) && AtRest(n.ctx) && n.env == m.env
  {
    hide Run, AtRest, Joined, FrameFor, FinalImage, Changed, RenderedFrom, Fits, Value, SettingsOf;
    RunStates(ms, [ESC, 91] + Joined(ps) + [109]);
    SequenceRun(ms, ps, 109);
    assert 109 as char == 'm';
    WrittenValues(ms[0].ctx, ps);
    Inked(ms[0].env, FrameFor(ms[0].ctx, ps, 109), ms[0].image, SettingsOf(ms[0].ctx));
    AttributesNow(ms[0].ctx, ps, 109);
    AttributesNow(ms[|Joined(ps)| + 3].ctx, ps, 109);
  }

  lemma TwoDigits(a: nat, b: nat)
    ensures Value([a, b]) == a * 10 + b && Value([a]) == a
  {
    assert [a][..0] == [];
    assert Value([a]) == a;
    assert [a, b][..1] == [a];
  }

  /** The sequence for one of the eight foreground colours, with the palette entry it paints. */
  lemma ForegroundRun(ms: seq<Machine>, n: nat)
    requires n < 8 && Run(ms, [ESC, 91, 51, 48 + n, 109]) && AtRest(ms[0].ctx) && !ms[0].ctx.decPrivate
    ensures var m, l := ms[0], ms[5];
      && PaletteOk(m.env.palette) && l.ctx.attrs == m.ctx.attrs.(primary := n)
      && Fore(InkNow(l)) == (if m.ctx.attrs.bold then m.env.palette.bright[n] else m.env.palette.ansi[n])
      && Back(InkNow(l)) == Back(InkNow(m))
      && l.image == m.image.(fg := l.image.fg, bg := l.image.bg)
      && SettingsOf(l.ctx) == SettingsOf(m.ctx).(attrs := l.ctx.attrs)
  {
    hide Run, AtRest, FrameFor, RenderedFrom, Fits, Value, SettingsOf, Rendered;
    var ps := [[3, n]];
    TwoDigits(3, n);
    assert Written(ps) && Joined(ps) == [51, 48 + n];
    assert [ESC, 91, 51, 48 + n, 109] == [ESC, 91] + Joined(ps) + [109];
    RunStates(ms, [ESC, 91, 51, 48 + n, 109]);
    InkRun(ms, ps);
    var e, f := ms[0].env, FrameFor(ms[0].ctx, ps, 109);
    AttributesNow(ms[0].ctx, ps, 109);
    PlainParameter(e.palette, e.table, InkNow(ms[0]), f.values, 1, 0);
    NoneLeft(e.palette, e.table, Rendered(e.palette, InkNow(ms[0]), 30 + n), f.values, 1, 1);
    PaletteColour(e.palette, InkNow(ms[0]), n);
  }

  /** The parameters of a direct colour. */
  function Direct(fore: bool, red: seq<nat>, green: seq<nat>, blue: seq<nat>): seq<seq<nat>> {
    [if fore then [3, 8] else [4, 8], [2], red, green, blue]
  }

  /** The sequence for a direct colour, with the numbers as they are written. */
  lemma DirectRun(ms: seq<Machine>, fore: bool, red: seq<nat>, green: seq<nat>, blue: seq<nat>)
    requires Written([red, green, blue]) && Run(ms, [ESC, 91] + Joined(Direct(fore, red, green, blue)) + [109])
    requires AtRest(ms[0].ctx) && !ms[0].ctx.decPrivate
    ensures var m, l := ms[0], ms[|Joined(Direct(fore, red, green, blue))| + 3];
      && Took(InkNow(m), InkNow(l), fore, COLOR_RGB,
              m.env.table.rgbOf(Rgb(Value(red), Value(green), Value(blue))))
      && l.image == m.image.(fg := l.image.fg, bg := l.image.bg)
      && SettingsOf(l.ctx) == SettingsOf(m.ctx).(attrs := l.ctx.attrs)
  {
    hide Run, AtRest, FrameFor, RenderedFrom, Fits, Value, SettingsOf, Joined, Took, Direct, Written, Rgb;
    var ps := Direct(fore, red, green, blue);
    DirectWritten(fore, red, green, blue);
    RunStates(ms, [ESC, 91] + Joined(ps) + [109]);
    InkRun(ms, ps);
    AttributesNow(ms[0].ctx, ps, 109);
    DirectOnly(ms[0].env, InkNow(ms[0]), FrameFor(ms[0].ctx, ps, 109).values, fore, red, green, blue);
  }

  lemma DirectOnly(e: Env, k: Ink, values: seq<nat>, fore: bool, red: seq<nat>, green: seq<nat>, blue: seq<nat>)
    requires EnvOk(e) && AttributesOk(k.attrs) && |values| >= 5 && values[0] == (if fore then 38 else 48)
    requires values[1] == 2 && values[2] == Value(red) && values[3] == Value(green) && values[4] == Value(blue)
    ensures Took(k, RenderedFrom(e.palette, e.table, k, values, 5, 0), fore, COLOR_RGB,
                 e.table.rgbOf(Rgb(Value(red), Value(green), Value(blue))))
  {
    hide RenderedFrom, Took, Rgb, Value;
    var d := DirectInk(e.palette, e.table, k, values, 5, 0);
    NoneLeft(e.palette, e.table, d, values, 5, 5);
  }

  lemma DirectWritten(fore: bool, red: seq<nat>, green: seq<nat>, blue: seq<nat>)
    requires Written([red, green, blue])
    ensures var ps := Direct(fore, red, green, blue);
      && Written(ps) && Numerals(ps) && |ps| == 5 && Value(ps[0]) == (if fore then 38 else 48) && Value(ps[1]) == 2
      && ps[2] == red && ps[3] == green && ps[4] == blue
  {
    hide Value;
    TwoDigits(3, 8);
    TwoDigits(4, 8);
    TwoDigits(2, 0);
    var qs := [red, green, blue];
    assert AreDigits(qs[0]) && AreDigits(qs[1]) && AreDigits(qs[2]);
    assert Value(qs[0]) < U32 && Value(qs[1]) < U32 && Value(qs[2]) < U32;
    assert qs[0] != [] && qs[1] != [] && qs[2] != [];
  }
}
