/** What each parameter of the select-graphic-rendition function sets, by its number. */
module SgrLaws {
  import opened S = Screen
  import opened Sgr

  /** The eight colours and their bright forms, for either half of the colours. */
  lemma PaletteColour(p: Palette, k: Ink, n: nat)
    requires PaletteOk(p) && AttributesOk(k.attrs) && n < 8
    ensures var r := Rendered(p, k, 30 + n);
      && r.attrs == k.attrs.(primary := n) && Back(r) == Back(k)
      && Fore(r) == if k.attrs.bold then p.bright[n] else p.ansi[n]
    ensures var r := Rendered(p, k, 40 + n);
      && r.attrs == k.attrs.(background := n) && Fore(r) == Fore(k)
      && Back(r) == if k.attrs.bgBold then p.bright[n] else p.ansi[n]
    ensures var r := Rendered(p, k, 90 + n);
      r.attrs == k.attrs.(primary := n) && Back(r) == Back(k) && Fore(r) == p.bright[n]
    ensures var r := Rendered(p, k, 100 + n);
      r.attrs == k.attrs.(background := n) && Fore(r) == Fore(k) && Back(r) == p.bright[n]
  {
    hide Swap;
  }

  /** The switches: which attribute each sets, and that it sets no other. */
  lemma Switches(p: Palette, k: Ink)
    requires PaletteOk(p) && AttributesOk(k.attrs)
    ensures Rendered(p, k, 0) == Ink(Attributes(false, false, false, COLOR_DEFAULT, COLOR_DEFAULT), p.fg, TRANSPARENT)
    ensures Rendered(p, k, 1).attrs == k.attrs.(bold := true) && Rendered(p, k, 22).attrs == k.attrs.(bold := false)
    ensures Rendered(p, k, 5).attrs == k.attrs.(bgBold := true) && Rendered(p, k, 25).attrs == k.attrs.(bgBold := false)
    ensures Rendered(p, k, 7).attrs == k.attrs.(reverse := true)
    ensures Rendered(p, k, 27).attrs == k.attrs.(reverse := false)
    ensures Rendered(p, k, 39).attrs == k.attrs.(primary := COLOR_DEFAULT)
    ensures Rendered(p, k, 49).attrs == k.attrs.(background := COLOR_DEFAULT)
    ensures k.attrs.reverse ==> Rendered(p, k, 7) == k
    ensures !k.attrs.reverse ==> Rendered(p, k, 27) == k
  {
    hide Swap;
  }

  /** All other numbers do nothing. */
  lemma Ignored(p: Palette, k: Ink, v: nat)
    requires PaletteOk(p) && AttributesOk(k.attrs)
    requires v !in {0, 1, 5, 7, 22, 25, 27, 39, 49}
    requires !(30 <= v <= 37) && !(40 <= v <= 47) && !(90 <= v <= 97) && !(100 <= v <= 107)
    ensures Rendered(p, k, v) == k
  {
    hide Swap;
  }

  /** What boldness makes of the foreground. A direct colour keeps its tone. While colours are reversed, the default
      foreground takes the tones of the default background. */
  lemma BoldTone(p: Palette, k: Ink, on: bool)
    requires PaletteOk(p) && AttributesOk(k.attrs)
    ensures var r, n := Rendered(p, k, if on then 1 else 22), k.attrs.primary;
      && Back(r) == Back(k)
      && (n < 8 ==> Fore(r) == if on then p.bright[n] else p.ansi[n])
      && (n == COLOR_RGB ==> Fore(r) == Fore(k))
      && (n == COLOR_DEFAULT ==>
         Fore(r) == if k.attrs.reverse then (if on then p.bgBright else TRANSPARENT)
           else if on then p.fgBright else p.fg)
    ensures var r, n := Rendered(p, k, if on then 5 else 25), k.attrs.background;
      && Fore(r) == Fore(k)
      && (n < 8 ==> Back(r) == if on then p.bright[n] else p.ansi[n])
      && (n == COLOR_RGB ==> Back(r) == Back(k))
      && (n == COLOR_DEFAULT ==>
         Back(r) == if k.attrs.reverse then (if on then p.fgBright else p.fg)
           else if on then p.bgBright else TRANSPARENT)
  {
    hide Swap;
  }

  /** Boldness and a colour may come in either order, and the bright form of a colour is what boldness makes of it. */
  lemma BoldCommutes(p: Palette, k: Ink, n: nat)
    requires PaletteOk(p) && AttributesOk(k.attrs) && n < 8
    ensures Rendered(p, Rendered(p, k, 1), 30 + n) == Rendered(p, Rendered(p, k, 30 + n), 1)
    ensures Rendered(p, Rendered(p, k, 22), 30 + n) == Rendered(p, Rendered(p, k, 30 + n), 22)
    ensures Rendered(p, Rendered(p, k, 5), 40 + n) == Rendered(p, Rendered(p, k, 40 + n), 5)
    ensures Fore(Rendered(p, k, 90 + n)) == Fore(Rendered(p, Rendered(p, k, 1), 30 + n))
  {
    hide Rendered;
    PaletteColour(p, k, n);
    Switches(p, k);
    BoldTone(p, k, true);
    BoldTone(p, k, false);
    PaletteColour(p, Rendered(p, k, 1), n);
    PaletteColour(p, Rendered(p, k, 22), n);
    PaletteColour(p, Rendered(p, k, 5), n);
    Switches(p, Rendered(p, k, 30 + n));
    Switches(p, Rendered(p, k, 40 + n));
    BoldTone(p, Rendered(p, k, 30 + n), true);
    BoldTone(p, Rendered(p, k, 30 + n), false);
    BoldTone(p, Rendered(p, k, 40 + n), true);
    SameInk(Rendered(p, Rendered(p, k, 1), 30 + n), Rendered(p, Rendered(p, k, 30 + n), 1));
    SameInk(Rendered(p, Rendered(p, k, 22), 30 + n), Rendered(p, Rendered(p, k, 30 + n), 22));
    SameInk(Rendered(p, Rendered(p, k, 5), 40 + n), Rendered(p, Rendered(p, k, 40 + n), 5));
  }

  lemma SameInk(k: Ink, l: Ink)
    ensures k == l <==> k.attrs == l.attrs && Fore(k) == Fore(l) && Back(k) == Back(l)
  {
  }

  /** The attributes an extended colour sets. In reverse video it is those of the other half. */
  function Marked(a: Attributes, fore: bool, n: nat): Attributes {
    if fore != a.reverse then a.(primary := n) else a.(background := n)
  }

  /** Ink whose foreground, or background, has been given this colour. */
  predicate Took(k: Ink, d: Ink, fore: bool, n: nat, colour: nat) {
    && d.attrs == Marked(k.attrs, fore, n) && Fore(d) == (if fore then colour else Fore(k))
    && Back(d) == if fore then Back(k) else colour
  }

  /** A direct colour. */
  lemma DirectInk(p: Palette, t: Table, k: Ink, values: seq<nat>, count: nat, i: nat) returns (d: Ink)
    requires PaletteOk(p) && |t.col256| == 240 && AttributesOk(k.attrs) && i + 4 < count <= |values|
    requires (values[i] == 38 || values[i] == 48) && values[i + 1] == 2
    ensures AttributesOk(d.attrs) && Took(k, d, values[i] == 38, COLOR_RGB,
      t.rgbOf(Rgb(values[i + 2], values[i + 3], values[i + 4])))
    ensures RenderedFrom(p, t, k, values, count, i) == RenderedFrom(p, t, d, values, count, i + 5)
  {
    hide Rendered, Tone, Rgb;
    d := ExtendedInk(p, t, k, values, count, i + 1, (values[i] == 38) != k.attrs.reverse).0;
  }

  /** Red, green and blue are the bytes of a direct colour from the third on down; of larger numbers the low byte
      counts. */
  lemma RgbBytes(red: nat, green: nat, blue: nat)
    ensures var v := Rgb(red, green, blue);
      && v < 0x100_0000 && v / 0x1_0000 == red % 0x100 && v / 0x100 % 0x100 == green % 0x100
      && v % 0x100 == blue % 0x100
  {
  }

  /** A colour of the 256: the eight colours, their bright forms, and the table. */
  lemma IndexedColour(p: Palette, t: Table, k: Ink, values: seq<nat>, count: nat, i: nat) returns (d: Ink)
    requires PaletteOk(p) && |t.col256| == 240 && AttributesOk(k.attrs) && i + 2 < count <= |values|
    requires (values[i] == 38 || values[i] == 48) && values[i + 1] == 5
    ensures var c, fore := values[i + 2], values[i] == 38;
      && AttributesOk(d.attrs)
      && (c < 8 ==> Took(k, d, fore, c, p.ansi[c]))
      && (8 <= c < 16 ==> Took(k, d, fore, c - 8, p.bright[c - 8]))
      && (16 <= c < 256 ==> Took(k, d, fore, COLOR_RGB, t.rgbOf(t.col256[c - 16])))
      && (c >= 256 ==> d == k)
    ensures RenderedFrom(p, t, k, values, count, i) == RenderedFrom(p, t, d, values, count, i + 3)
  {
    hide Rendered, Rgb;
    d := ExtendedInk(p, t, k, values, count, i + 1, (values[i] == 38) != k.attrs.reverse).0;
  }

  /** An extended colour with too few parameters ends the function, and one of an unknown kind is passed over. */
  lemma UnfinishedColour(p: Palette, t: Table, k: Ink, values: seq<nat>, count: nat, i: nat)
    requires PaletteOk(p) && |t.col256| == 240 && AttributesOk(k.attrs) && i < count <= |values|
    requires values[i] == 38 || values[i] == 48
    ensures i + 1 == count ==> RenderedFrom(p, t, k, values, count, i) == k
    ensures i + 1 < count && values[i + 1] == 2 && i + 4 >= count ==> RenderedFrom(p, t, k, values, count, i) == k
    ensures i + 1 < count && values[i + 1] == 5 && i + 2 >= count ==> RenderedFrom(p, t, k, values, count, i) == k
    ensures i + 1 < count && values[i + 1] != 2 && values[i + 1] != 5 ==>
      RenderedFrom(p, t, k, values, count, i) == RenderedFrom(p, t, k, values, count, i + 2)
  {
    hide Rendered, Rgb, Tone;
  }

  /** A plain parameter. */
  lemma PlainParameter(p: Palette, t: Table, k: Ink, values: seq<nat>, count: nat, i: nat)
    requires PaletteOk(p) && |t.col256| == 240 && AttributesOk(k.attrs) && i < count <= |values|
    requires values[i] != 38 && values[i] != 48
    ensures RenderedFrom(p, t, k, values, count, i) ==
      RenderedFrom(p, t, Rendered(p, k, values[i]), values, count, i + 1)
  {
    hide Rendered, ExtendedInk;
  }

  /** Of the 256 colours the first sixteen are those of the plain parameters, but for boldness, which they do not heed;
      in reverse video the attribute of the other half is set. */
  lemma IndexedAsPlain(p: Palette, t: Table, k: Ink, c: nat)
    requires PaletteOk(p) && |t.col256| == 240 && AttributesOk(k.attrs) && c < 16
    ensures RenderedAll(p, t, k, [38, 5, c], 3) == Rendered(p, k, if c < 8 then 30 + c else 82 + c) <==>
      && (k.attrs.reverse ==> k.attrs.background == k.attrs.primary == c % 8)
      && (c < 8 && k.attrs.bold ==> p.ansi[c] == p.bright[c])
  {
    hide Rendered, RenderedFrom, Swap;
    var values := [38, 5, c];
    var d := IndexedColour(p, t, k, values, 3, 0);
    assert RenderedFrom(p, t, d, values, 3, 3) == d by { NoneLeft(p, t, d, values, 3, 3); }
    PaletteColour(p, k, c % 8);
    SameInk(d, Rendered(p, k, if c < 8 then 30 + c else 82 + c));
  }

  lemma NoneLeft(p: Palette, t: Table, k: Ink, values: seq<nat>, count: nat, i: nat)
    requires PaletteOk(p) && |t.col256| == 240 && AttributesOk(k.attrs) && count <= |values| && i >= count
    ensures RenderedFrom(p, t, k, values, count, i) == k
  {
  }
}
