/** Character attributes: the select-graphic-rendition function. Colours are indices into the palette
    or one of two marks, so that every palette access is in bounds. */
module Sgr {
  import opened S = Screen

  const COLOR_DEFAULT: nat := 0xFFFF_FFFF_FFFF_FFFF
  const COLOR_RGB: nat := 0xFFFF_FFFF_FFFF_FFFE

  /** An index into the palette, or one of the two marks for colours that are not in it. */
  predicate Colour(n: nat) {
    n < 8 || n == COLOR_DEFAULT || n == COLOR_RGB
  }

  datatype Attributes = Attributes(bold: bool, bgBold: bool, reverse: bool, primary: nat, background: nat)

  predicate AttributesOk(a: Attributes) {
    Colour(a.primary) && Colour(a.background)
  }

  const PLAIN: Attributes := Attributes(false, false, false, COLOR_DEFAULT, COLOR_DEFAULT)

  /** The attributes and the text colours. While colours are reversed, the background holds what stands for the
      foreground, and the other way round. */
  datatype Ink = Ink(attrs: Attributes, fg: nat, bg: nat)

  predicate PaletteOk(p: Palette) {
    |p.ansi| == 8 && |p.bright| == 8
  }

  /** A palette entry in its normal or bright form. */
  function Tone(p: Palette, bright: bool, n: nat): nat
    requires PaletteOk(p) && n < 8
  {
    if bright then p.bright[n] else p.ansi[n]
  }

  /** The colour that stands for the foreground, or for the background. */
  function Fore(k: Ink): nat {
    if k.attrs.reverse then k.bg else k.fg
  }

  function Back(k: Ink): nat {
    if k.attrs.reverse then k.fg else k.bg
  }

  function WithFore(k: Ink, colour: nat): (r: Ink)
    ensures Fore(r) == colour && Back(r) == Back(k) && r.attrs == k.attrs
  {
    if k.attrs.reverse then k.(bg := colour) else k.(fg := colour)
  }

  function WithBack(k: Ink, colour: nat): (r: Ink)
    ensures Back(r) == colour && Fore(r) == Fore(k) && r.attrs == k.attrs
  {
    if k.attrs.reverse then k.(fg := colour) else k.(bg := colour)
  }

  function Swapped(p: Palette, k: Ink): Ink {
    var (fg, bg) := Swap(p.bg, k.fg, k.bg);
    k.(fg := fg, bg := bg)
  }

  /** The default colours. */
  function PlainInk(p: Palette): Ink {
    Ink(PLAIN, p.fg, TRANSPARENT)
  }

  function DefaultFg(p: Palette, bright: bool): nat {
    if bright then p.fgBright else p.fg
  }

  function DefaultBg(p: Palette, bright: bool): nat {
    if bright then p.bgBright else TRANSPARENT
  }

  /** The foreground repainted after a change of boldness. In reverse video the default foreground is the default of the
      background. */
  function Repainted(p: Palette, k: Ink): Ink
    requires PaletteOk(p) && Colour(k.attrs.primary)
  {
    var n := k.attrs.primary;
    if n == COLOR_RGB then k
    else if n < 8 then WithFore(k, Tone(p, k.attrs.bold, n))
    else WithFore(k, if k.attrs.reverse then DefaultBg(p, k.attrs.bold) else DefaultFg(p, k.attrs.bold))
  }

  function RepaintedBack(p: Palette, k: Ink): Ink
    requires PaletteOk(p) && Colour(k.attrs.background)
  {
    var n := k.attrs.background;
    if n == COLOR_RGB then k
    else if n < 8 then WithBack(k, Tone(p, k.attrs.bgBold, n))
    else WithBack(k, if k.attrs.reverse then DefaultFg(p, k.attrs.bgBold) else DefaultBg(p, k.attrs.bgBold))
  }

  /** The default foreground; in reverse video it is set between two swaps. */
  function DefaultFore(p: Palette, k: Ink): Ink {
    var colour := DefaultFg(p, k.attrs.bold);
    if k.attrs.reverse then Swapped(p, Swapped(p, k).(fg := colour)) else k.(fg := colour)
  }

  function DefaultBack(p: Palette, k: Ink): Ink {
    var colour := DefaultBg(p, k.attrs.bgBold);
    if k.attrs.reverse then Swapped(p, Swapped(p, k).(bg := colour)) else k.(bg := colour)
  }

  function Reversed(p: Palette, k: Ink, on: bool): Ink {
    if k.attrs.reverse == on then k else Swapped(p, k.(attrs := k.attrs.(reverse := on)))
  }

  /** One parameter other than the extended colours. */
  function Rendered(p: Palette, k: Ink, v: nat): (r: Ink)
    requires PaletteOk(p) && AttributesOk(k.attrs)
    ensures AttributesOk(r.attrs)
  {
    var a := k.attrs;
    if v == 0 then PlainInk(p)
    else if v == 1 || v == 22 then Repainted(p, k.(attrs := a.(bold := v == 1)))
    else if v == 5 || v == 25 then RepaintedBack(p, k.(attrs := a.(bgBold := v == 5)))
    else if 30 <= v <= 37 then WithFore(k, Tone(p, a.bold, v - 30)).(attrs := a.(primary := v - 30))
    else if 40 <= v <= 47 then WithBack(k, Tone(p, a.bgBold, v - 40)).(attrs := a.(background := v - 40))
    else if 90 <= v <= 97 then WithFore(k, Tone(p, true, v - 90)).(attrs := a.(primary := v - 90))
    else if 100 <= v <= 107 then WithBack(k, Tone(p, true, v - 100)).(attrs := a.(background := v - 100))
    else if v == 39 then DefaultFore(p, k).(attrs := a.(primary := COLOR_DEFAULT))
    else if v == 49 then DefaultBack(p, k).(attrs := a.(background := COLOR_DEFAULT))
    else if v == 7 || v == 27 then Reversed(p, k, v == 7)
    else k
  }

  /** Which half of the colours a parameter may change. */
  predicate PaintsFore(v: nat) {
    v == 1 || v == 22 || 30 <= v <= 37 || 90 <= v <= 97
  }

  predicate PaintsBack(v: nat) {
    v == 5 || v == 25 || 40 <= v <= 47 || 100 <= v <= 107
  }

  /** Foreground parameters leave the background as it was, and the other way round, in reverse video too; a default
      colour leaves the other half as it is seen; reversing exchanges the colours seen, so that each half keeps what
      is seen of it; undoing it right away brings back the colours unless the foreground was transparent or the
      background had the colour of the canvas. */
  lemma RenderedHalves(p: Palette, k: Ink, v: nat)
    requires PaletteOk(p) && AttributesOk(k.attrs)
    ensures PaintsFore(v) ==>
      Back(Rendered(p, k, v)) == Back(k) && Rendered(p, k, v).attrs.background == k.attrs.background
    ensures PaintsBack(v) ==> Fore(Rendered(p, k, v)) == Fore(k) && Rendered(p, k, v).attrs.primary == k.attrs.primary
    ensures v == 39 ==> Visible(p.bg, Back(Rendered(p, k, v))) == Visible(p.bg, Back(k))
    ensures v == 39 ==> Visible(p.bg, Fore(Rendered(p, k, v))) == Visible(p.bg, DefaultFg(p, k.attrs.bold))
    ensures v == 49 ==> Visible(p.bg, Fore(Rendered(p, k, v))) == Visible(p.bg, Fore(k))
    ensures v == 49 ==> Visible(p.bg, Back(Rendered(p, k, v))) == Visible(p.bg, DefaultBg(p, k.attrs.bgBold))
    ensures v == 7 || v == 27 ==>
      && Visible(p.bg, Fore(Rendered(p, k, v))) == Visible(p.bg, Fore(k))
         && Visible(p.bg, Back(Rendered(p, k, v))) == Visible(p.bg, Back(k))
    ensures v == 7 && !k.attrs.reverse ==>
      (Rendered(p, Rendered(p, k, 7), 27) == k <==> p.bg == TRANSPARENT || (k.fg != TRANSPARENT && k.bg != p.bg))
  {
    hide Tone, Repainted, RepaintedBack;
    if v == 1 || v == 22 || v == 5 || v == 25 { RepaintedHalves(p, k, v); }
    if v == 7 && !k.attrs.reverse {
      var a := Rendered(p, k, 7);
      var b := Rendered(p, a, 27);
      ExchangedTwice(p.bg, k.fg, k.bg, a.fg, a.bg, b.fg, b.bg);
    }
  }

  lemma RepaintedHalves(p: Palette, k: Ink, v: nat)
    requires PaletteOk(p) && AttributesOk(k.attrs) && (v == 1 || v == 22 || v == 5 || v == 25)
    ensures v == 1 || v == 22 ==>
      Back(Rendered(p, k, v)) == Back(k) && Rendered(p, k, v).attrs == k.attrs.(bold := v == 1)
    ensures v == 5 || v == 25 ==>
      Fore(Rendered(p, k, v)) == Fore(k) && Rendered(p, k, v).attrs == k.attrs.(bgBold := v == 5)
  {
  }

  /** A colour that names a palette entry is painted in that entry's normal or bright form. */
  lemma RenderedTone(p: Palette, k: Ink, v: nat)
    requires PaletteOk(p) && AttributesOk(k.attrs)
    ensures PaintsFore(v) ==>
      var r := Rendered(p, k, v); r.attrs.primary < 8 ==> Fore(r) == Tone(p, r.attrs.bold || v >= 90, r.attrs.primary)
    ensures PaintsBack(v) ==>
      var r := Rendered(p, k, v); r.attrs.background < 8 ==>
        Back(r) == Tone(p, r.attrs.bgBold || v >= 100, r.attrs.background)
  {
    hide Tone;
  }

  ghost function InkOf(screen: S.Screen, a: Attributes): Ink
    reads screen
  {
    Ink(a, screen.textFg, screen.textBg)
  }

  /** Attributes and text colours back to the defaults. */
  method Reset(screen: S.Screen, a: Attributes) returns (b: Attributes)
    requires screen.Valid()
    modifies screen`textFg, screen`textBg
    ensures screen.Valid() && InkOf(screen, b) == PlainInk(screen.palette)
  {
    if a.reverse { screen.SwapPalette(); }
    screen.SetTextBg(TRANSPARENT);
    screen.SetTextFg(screen.palette.fg);
    b := PLAIN;
  }

  /** Sets the colour that stands for the foreground, which is the background while colours are swapped. */
  method PaintFg(screen: S.Screen, reverse: bool, colour: nat)
    requires screen.Valid()
    modifies screen`textFg, screen`textBg
    ensures screen.Valid()
    ensures if reverse then screen.textBg == colour && screen.textFg == old(screen.textFg)
            else screen.textFg == colour && screen.textBg == old(screen.textBg)
  {
    if reverse { screen.SetTextBg(colour); } else { screen.SetTextFg(colour); }
  }

  /** The foreground colour for an attribute that names a palette entry or the default. */
  method RepaintPrimary(screen: S.Screen, a: Attributes)
    requires screen.Valid() && Colour(a.primary)
    modifies screen`textFg, screen`textBg
    ensures screen.Valid() && InkOf(screen, a) == Repainted(screen.palette, old(InkOf(screen, a)))
  {
    if a.primary == COLOR_RGB {
    } else if a.primary != COLOR_DEFAULT {
      PaintFg(screen, a.reverse, if a.bold then screen.palette.bright[a.primary] else screen.palette.ansi[a.primary]);
    } else if !a.reverse {
      screen.SetTextFg(if a.bold then screen.palette.fgBright else screen.palette.fg);
    } else {
      screen.SetTextBg(if a.bold then screen.palette.bgBright else TRANSPARENT);
    }
  }

  method RepaintBackground(screen: S.Screen, a: Attributes)
    requires screen.Valid() && Colour(a.background)
    modifies screen`textFg, screen`textBg
    ensures screen.Valid() && InkOf(screen, a) == RepaintedBack(screen.palette, old(InkOf(screen, a)))
  {
    if a.background == COLOR_RGB {
    } else if a.background != COLOR_DEFAULT {
      PaintFg(screen, !a.reverse,
              if a.bgBold then screen.palette.bright[a.background] else screen.palette.ansi[a.background]);
    } else if !a.reverse {
      screen.SetTextBg(if a.bgBold then screen.palette.bgBright else TRANSPARENT);
    } else {
      screen.SetTextFg(if a.bgBold then screen.palette.fgBright else screen.palette.fg);
    }
  }

  /** The default foreground or background. */
  method PaintDefault(screen: S.Screen, a: Attributes, fg: bool)
    requires screen.Valid()
    modifies screen`textFg, screen`textBg
    ensures screen.Valid()
    ensures InkOf(screen, a) ==
      if fg then DefaultFore(screen.palette, old(InkOf(screen, a)))
        else DefaultBack(screen.palette, old(InkOf(screen, a)))
  {
    if a.reverse { screen.SwapPalette(); }
    if fg {
      screen.SetTextFg(if !a.bold then screen.palette.fg else screen.palette.fgBright);
    } else {
      screen.SetTextBg(if !a.bgBold then TRANSPARENT else screen.palette.bgBright);
    }
    if a.reverse { screen.SwapPalette(); }
  }

  /** One parameter other than the extended colours. */
  method One(screen: S.Screen, a: Attributes, v: nat) returns (b: Attributes)
    requires screen.Valid() && AttributesOk(a)
    modifies screen`textFg, screen`textBg
    ensures screen.Valid() && AttributesOk(b) && InkOf(screen, b) == Rendered(screen.palette, old(InkOf(screen, a)), v)
  {
    hide Repainted, RepaintedBack, DefaultFore, DefaultBack, Exchanged, Swap;
    b := a;
    if v == 0 {
      b := Reset(screen, a);
    } else if v == 1 || v == 22 {
      b := a.(bold := v == 1);
      RepaintPrimary(screen, b);
    } else if v == 5 || v == 25 {
      b := a.(bgBold := v == 5);
      RepaintBackground(screen, b);
    } else if 30 <= v <= 37 {
      b := a.(primary := v - 30);
      PaintFg(screen, a.reverse, if a.bold then screen.palette.bright[v - 30] else screen.palette.ansi[v - 30]);
    } else if 40 <= v <= 47 {
      b := a.(background := v - 40);
      PaintFg(screen, !a.reverse, if a.bgBold then screen.palette.bright[v - 40] else screen.palette.ansi[v - 40]);
    } else if 90 <= v <= 97 {
      b := a.(primary := v - 90);
      PaintFg(screen, a.reverse, screen.palette.bright[v - 90]);
    } else if 100 <= v <= 107 {
      b := a.(background := v - 100);
      PaintFg(screen, !a.reverse, screen.palette.bright[v - 100]);
    } else if v == 39 || v == 49 {
      b := if v == 39 then a.(primary := COLOR_DEFAULT) else a.(background := COLOR_DEFAULT);
      PaintDefault(screen, a, v == 39);
    } else if v == 7 {
      if !a.reverse {
        b := a.(reverse := true);
        screen.SwapPalette();
      }
    } else if v == 27 {
      if a.reverse {
        b := a.(reverse := false);
        screen.SwapPalette();
      }
    }
  }

  /** The colours of direct and 256-colour parameters. */
  datatype Table = Table(rgbOf: nat -> nat, col256: seq<nat>)

  function Rgb(r: nat, g: nat, b: nat): nat {
    r % 0x100 * 0x1_0000 + g % 0x100 * 0x100 + b % 0x100
  }

  /** The text colour and the attribute that an extended colour sets. These are the physical ones: in reverse video the
      caller has exchanged them. */
  function Dyed(k: Ink, fg: bool, n: nat, colour: nat): Ink {
    if fg then Ink(k.attrs.(primary := n), colour, k.bg) else Ink(k.attrs.(background := n), k.fg, colour)
  }

  /** A colour of the 256-colour palette or a direct colour; `i` is the index of its kind. Gives the index of the last
      parameter used, and whether parameters are missing. */
  function ExtendedInk(p: Palette, t: Table, k: Ink, values: seq<nat>, count: nat, i: nat,
                       fg: bool): (r: (Ink, nat, bool))
    requires PaletteOk(p) && |t.col256| == 240 && AttributesOk(k.attrs) && i < count <= |values|
    ensures AttributesOk(r.0.attrs) && i <= r.1 < count
  {
    if values[i] == 2 then
      if i + 3 >= count then (k, i, true)
      else (Dyed(k, fg, COLOR_RGB, t.rgbOf(Rgb(values[i + 1], values[i + 2], values[i + 3]))), i + 3, false)
    else if values[i] == 5 then
      if i + 1 >= count then (k, i, true)
      else
        var col := values[i + 1];
        if col < 16 then (Dyed(k, fg, col % 8, Tone(p, col >= 8, col % 8)), i + 1, false)
        else if col < 256 then (Dyed(k, fg, COLOR_RGB, t.rgbOf(t.col256[col - 16])), i + 1, false)
        else (k, i + 1, false)
    else (k, i, false)
  }

  method Extended(screen: S.Screen, a: Attributes, values: seq<nat>, count: nat, i: nat, fg: bool, t: Table)
    returns (b: Attributes, last: nat, stop: bool)
    requires screen.Valid() && AttributesOk(a) && i < count <= |values| && |t.col256| == 240
    modifies screen`textFg, screen`textBg
    ensures screen.Valid() && AttributesOk(b)
    ensures (InkOf(screen, b), last, stop) ==
      ExtendedInk(screen.palette, t, old(InkOf(screen, a)), values, count, i, fg)
  {
    hide Rgb;
    b, last, stop := a, i, false;
    if values[i] == 2 {
      if i + 3 >= count { return b, last, true; }
      var rgb := Rgb(values[i + 1], values[i + 2], values[i + 3]);
      last := i + 3;
      b := if fg then a.(primary := COLOR_RGB) else a.(background := COLOR_RGB);
      PaintFg(screen, !fg, t.rgbOf(rgb));
    } else if values[i] == 5 {
      if i + 1 >= count { return b, last, true; }
      var col := values[i + 1];
      last := i + 1;
      if col < 8 {
        b := if fg then a.(primary := col) else a.(background := col);
        PaintFg(screen, !fg, screen.palette.ansi[col]);
      } else if col < 16 {
        b := if fg then a.(primary := col - 8) else a.(background := col - 8);
        PaintFg(screen, !fg, screen.palette.bright[col - 8]);
      } else if col < 256 {
        b := if fg then a.(primary := COLOR_RGB) else a.(background := COLOR_RGB);
        PaintFg(screen, !fg, t.rgbOf(t.col256[col - 16]));
      }
    }
  }

  /** The parameters from `i` on, in turn. */
  function RenderedFrom(p: Palette, t: Table, k: Ink, values: seq<nat>, count: nat, i: nat): (r: Ink)
    requires PaletteOk(p) && |t.col256| == 240 && AttributesOk(k.attrs) && count <= |values|
    ensures AttributesOk(r.attrs)
    decreases count - i
  {
    if i >= count then k
    else if values[i] != 38 && values[i] != 48 then RenderedFrom(p, t, Rendered(p, k, values[i]), values, count, i + 1)
    else if i + 1 >= count then k
    else
      var (d, last, stop) := ExtendedInk(p, t, k, values, count, i + 1, (values[i] == 38) != k.attrs.reverse);
      if stop then d else RenderedFrom(p, t, d, values, count, last + 1)
  }

  function RenderedAll(p: Palette, t: Table, k: Ink, values: seq<nat>, count: nat): (r: Ink)
    requires PaletteOk(p) && |t.col256| == 240 && AttributesOk(k.attrs) && count <= |values|
    ensures AttributesOk(r.attrs)
  {
    if count == 0 then PlainInk(p) else RenderedFrom(p, t, k, values, count, 0)
  }

  /** Where the parameter after the one at `i` starts; an extended colour takes what belongs to it. */
  function After(values: seq<nat>, count: nat, i: nat): (n: nat)
    requires i < count <= |values|
    ensures n > i
  {
    if values[i] != 38 && values[i] != 48 then i + 1
    else if i + 1 >= count then count
    else if values[i + 1] == 2 then if i + 4 >= count then count else i + 5
    else if values[i + 1] == 5 then if i + 2 >= count then count else i + 3
    else i + 2
  }

  /** From `i` on, a parameter starts at `j`. */
  predicate Starts(values: seq<nat>, count: nat, i: nat, j: nat)
    requires j < count <= |values|
    decreases count - i
  {
    i == j || (i < j && Starts(values, count, After(values, count, i), j))
  }

  /** The next parameter is applied to what those before it gave. */
  lemma RenderedNext(p: Palette, t: Table, k: Ink, values: seq<nat>, count: nat, i: nat) returns (d: Ink)
    requires PaletteOk(p) && |t.col256| == 240 && AttributesOk(k.attrs) && i < count <= |values|
    ensures AttributesOk(d.attrs)
    ensures RenderedFrom(p, t, k, values, count, i) == RenderedFrom(p, t, d, values, count, After(values, count, i))
  {
    hide Rendered, Rgb, Tone, Dyed;
    if values[i] != 38 && values[i] != 48 {
      d := Rendered(p, k, values[i]);
    } else if i + 1 >= count {
      d := k;
    } else {
      d := ExtendedInk(p, t, k, values, count, i + 1, (values[i] == 38) != k.attrs.reverse).0;
    }
  }

  /** A zero that is a parameter of its own undoes everything before it: the result is that of the parameters behind it
      applied to plain ink. */
  lemma {:induction false} RenderedReset(p: Palette, t: Table, k: Ink, values: seq<nat>, count: nat, i: nat, j: nat)
    requires PaletteOk(p) && |t.col256| == 240 && AttributesOk(k.attrs)
    requires j < count <= |values| && Starts(values, count, i, j) && values[j] == 0
    ensures RenderedFrom(p, t, k, values, count, i) == RenderedFrom(p, t, PlainInk(p), values, count, j + 1)
    decreases count - i
  {
    hide ExtendedInk;
    if i == j {
      assert Rendered(p, k, 0) == PlainInk(p);
    } else {
      hide RenderedFrom;
      var d := RenderedNext(p, t, k, values, count, i);
      RenderedReset(p, t, d, values, count, After(values, count, i), j);
    }
  }

  /** All parameters in turn. */
  method Apply(screen: S.Screen, a: Attributes, values: seq<nat>, count: nat, t: Table) returns (b: Attributes)
    requires screen.Valid() && AttributesOk(a) && count <= |values| && |t.col256| == 240
    modifies screen`textFg, screen`textBg
    ensures screen.Valid() && AttributesOk(b)
    ensures InkOf(screen, b) == RenderedAll(screen.palette, t, old(InkOf(screen, a)), values, count)
  {
    hide Rendered, ExtendedInk;
    if count == 0 {
      b := Reset(screen, a);
      return;
    }
    b := a;
    var i := 0;
    while i < count
      invariant 0 <= i <= count && screen.Valid() && AttributesOk(b)
      invariant RenderedFrom(screen.palette, t, InkOf(screen, b), values, count, i) ==
        RenderedFrom(screen.palette, t, old(InkOf(screen, a)), values, count, 0)
    {
      var v := values[i];
      if v == 38 || v == 48 {
        var fg := (v == 38) != b.reverse;
        i := i + 1;
        if i >= count { break; }
        var stop;
        b, i, stop := Extended(screen, b, values, count, i, fg, t);
        if stop { return; }
      } else {
        b := One(screen, b, v);
      }
      i := i + 1;
    }
  }
}
