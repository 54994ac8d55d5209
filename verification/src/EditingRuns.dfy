/** Cursor and editing functions from their bytes, alone and one after the other. */
module EditingRuns {
  import opened Basics
  import opened ControlFunctions
  import opened EditingLaws
  import opened Screen
  import opened ScreenCells
  import opened SequenceRuns
  import opened SequenceSettings
  import opened TerminalContext
  import opened TerminalImage
  import opened TerminalRuns
  import opened TerminalSteps

  /** The bytes of a function with one number, which may be left out. */
  function Sequence(ds: seq<nat>, c: nat): seq<nat> {
    [ESC, 91] + Joined([ds]) + [c]
  }

  predicate Number(ds: seq<nat>) {
    AreDigits(ds) && Value(ds) < U32
  }

  /** The number a function sees: those that erase take a missing number for zero, the others zero for one. */
  function Seen(ds: seq<nat>, c: nat): nat {
    if c != 74 && c != 75 && Value(ds) == 0 then 1 else Value(ds)
  }

  lemma SeenValue(k: Context, ds: seq<nat>, c: nat)
    requires Number(ds) && c < 0x80 && (MovesCursor(c as char) || EditsText(c as char))
    ensures Numerals([ds]) && FrameFor(k, [ds], c).values[0] == Seen(ds, c)
    ensures MovesCursor(c as char) ==> FrameFor(k, [ds], c).values[1] == 1
    ensures FrameFor(k, [ds], c).pen == PenOf(k)
  {
    hide Value, Collected;
    assert AreDigits([ds][0]);
    CollectedRight(ds);
    if ds == [] { NoDigits(); }
  }

  lemma NoDigits()
    ensures Value([]) == 0
  {
  }

  lemma Unset(e: Env, f: Frame, s: Image, t: Settings, c: char)
    requires FrameOk(e, f) && Fits(e, s) && (MovesCursor(c) || EditsText(c))
    ensures Changed(e, f, s, t, c) == t
    ensures MovesCursor(c) ==> FinalImage(e, f, s, c) == MovedImage(e, f.pen, s, c, f.values[0], f.values[1])
    ensures EditsText(c) ==> FinalImage(e, f, s, c) == EditedImage(e, f.pen, s, c, f.values[0])
  {
    hide Fits, PenOk, MovedImage, EditedImage;
    Kinds(c);
  }

  /** A cursor or editing function does what it is for and nothing else. */
  lemma FunctionRun(ms: seq<Machine>, ds: seq<nat>, c: nat)
    requires Number(ds) && Run(ms, Sequence(ds, c)) && AtRest(ms[0].ctx) && !ms[0].ctx.decPrivate
    requires c < 0x80 && (MovesCursor(c as char) || EditsText(c as char))
    ensures var m, n := ms[0], ms[|Sequence(ds, c)|];
      && PenOk(m.env, PenOf(m.ctx)) && Fits(m.env, m.image) && AtRest(n.ctx) && !n.ctx.decPrivate && n.env == m.env
      && SettingsOf(n.ctx) == SettingsOf(m.ctx)
      && (EditsText(c as char) ==>
         n.image == EditedImage(m.env, PenOf(m.ctx), m.image, c as char, Seen(ds, c)))
      && (MovesCursor(c as char) ==>
         n.image == MovedImage(m.env, PenOf(m.ctx), m.image, c as char, Seen(ds, c), 1))
  {
    hide Run, AtRest, Joined, FrameFor, FinalImage, Changed, Fits, Value, SettingsOf, MovedImage, EditedImage, PenOf,
      PenOk, Seen, MovesCursor, EditsText;
    Finals(c);
    RunStates(ms, Sequence(ds, c));
    SeenValue(ms[0].ctx, ds, c);
    SequenceRun(ms, [ds], c);
    var f := FrameFor(ms[0].ctx, [ds], c);
    Unset(ms[0].env, f, ms[0].image, SettingsOf(ms[0].ctx), c as char);
  }

  lemma Finals(c: nat)
    requires c < 0x80 && (MovesCursor(c as char) || EditsText(c as char))
    ensures 0x40 <= c <= 0x7E && c != 91
  {
  }

  /** Two functions with the same number, one after the other. */
  lemma TwoFunctions(ms: seq<Machine>, ds: seq<nat>, c: nat, d: nat)
    requires Number(ds) && Run(ms, Sequence(ds, c) + Sequence(ds, d)) && AtRest(ms[0].ctx) && !ms[0].ctx.decPrivate
    requires c < 0x80 && (MovesCursor(c as char) || EditsText(c as char))
    requires d < 0x80 && (MovesCursor(d as char) || EditsText(d as char))
    ensures var m, l, n := ms[0], ms[|Sequence(ds, c)|], ms[|Sequence(ds, c)| + |Sequence(ds, d)|];
      var p := PenOf(m.ctx);
      && PenOk(m.env, p) && Fits(m.env, m.image) && Fits(m.env, l.image) && SettingsOf(n.ctx) == SettingsOf(m.ctx)
      && (EditsText(c as char) ==> l.image == EditedImage(m.env, p, m.image, c as char, Seen(ds, c)))
      && (MovesCursor(c as char) ==> l.image == MovedImage(m.env, p, m.image, c as char, Seen(ds, c), 1))
      && (EditsText(d as char) ==> n.image == EditedImage(m.env, p, l.image, d as char, Seen(ds, d)))
      && (MovesCursor(d as char) ==> n.image == MovedImage(m.env, p, l.image, d as char, Seen(ds, d), 1))
  {
    hide Run, AtRest, Sequence, Fits, Value, SettingsOf, MovedImage, EditedImage, PenOf, PenOk, Seen, MovesCursor,
      EditsText, Number;
    var a, b := Sequence(ds, c), Sequence(ds, d);
    RunStates(ms, a + b);
    RunParts(ms, a, b);
    FunctionRun(ms[..|a| + 1], ds, c);
    FunctionRun(ms[|a|..], ds, d);
    SamePen(ms[0].ctx, ms[|a|].ctx);
  }

  lemma SamePen(k: Context, l: Context)
    requires SettingsOf(k) == SettingsOf(l)
    ensures PenOf(k) == PenOf(l)
  {
  }

  /** Forward and back again by the same number: the screen is as before, unless the line ended first. */
  lemma ForwardBackRun(ms: seq<Machine>, ds: seq<nat>)
    requires Number(ds) && Run(ms, Sequence(ds, 67) + Sequence(ds, 68)) && AtRest(ms[0].ctx) && !ms[0].ctx.decPrivate
    requires ms[0].image.x + Seen(ds, 67) < ms[0].env.cols
    ensures ms[|Sequence(ds, 67)|].image == ms[0].image.(x := ms[0].image.x + Seen(ds, 67))
    ensures ms[|Sequence(ds, 67)| + |Sequence(ds, 68)|].image == ms[0].image
  {
    hide Run, AtRest, Sequence, Value, SettingsOf, PenOf, Number;
    RunStates(ms, Sequence(ds, 67) + Sequence(ds, 68));
    assert 67 as char == 'C' && 68 as char == 'D';
    TwoFunctions(ms, ds, 67, 68);
  }

  /** Characters inserted and deleted again: the line is as before, but blank where characters were pushed off it. */
  lemma InsertDeleteRun(ms: seq<Machine>, ds: seq<nat>)
    requires Number(ds) && Run(ms, Sequence(ds, 64) + Sequence(ds, 80)) && AtRest(ms[0].ctx) && !ms[0].ctx.decPrivate
    requires ms[0].image.x < ms[0].env.cols
    ensures var e, s := ms[0].env, ms[0].image;
      var m := Least(Seen(ds, 64), e.cols - s.x);
      ms[|Sequence(ds, 64)| + |Sequence(ds, 80)|].image ==
        s.(text := Filled(s.text, At(e.cols, e.cols - m, s.y), m, Blank(s)))
  {
    hide Run, AtRest, Sequence, Value, SettingsOf, PenOf, Number, At, Filled, Edited, Seen;
    RunStates(ms, Sequence(ds, 64) + Sequence(ds, 80));
    assert 64 as char == '@' && 80 as char == 'P';
    TwoFunctions(ms, ds, 64, 80);
    SameSeen(ds);
    InsertDelete(Seen(ds, 64), ViewOf(ms[0].env, PenOf(ms[0].ctx), ms[0].image), ms[0].image.text);
  }

  lemma SameSeen(ds: seq<nat>)
    ensures Seen(ds, 64) == Seen(ds, 80) == Seen(ds, 76) == Seen(ds, 77)
  {
  }

  /** Lines inserted and deleted again: the region is as before, but blank where lines were pushed out of it. */
  lemma InsertDeleteLinesRun(ms: seq<Machine>, ds: seq<nat>)
    requires Number(ds) && Run(ms, Sequence(ds, 76) + Sequence(ds, 77)) && AtRest(ms[0].ctx) && !ms[0].ctx.decPrivate
    requires ms[0].ctx.top <= ms[0].image.y < ms[0].ctx.bottom
    ensures var e, s, bottom := ms[0].env, ms[0].image, ms[0].ctx.bottom;
      var m := Least(Seen(ds, 76), bottom - s.y);
      ms[|Sequence(ds, 76)| + |Sequence(ds, 77)|].image ==
        s.(text := Filled(s.text, At(e.cols, 0, bottom - m), At(e.cols, 0, m), Blank(s)))
  {
    hide Run, AtRest, Sequence, Value, SettingsOf, Number, At, Filled, Edited, Seen;
    RunStates(ms, Sequence(ds, 76) + Sequence(ds, 77));
    assert 76 as char == 'L' && 77 as char == 'M';
    TwoFunctions(ms, ds, 76, 77);
    SameSeen(ds);
    InsertDeleteLines(Seen(ds, 76), ViewOf(ms[0].env, PenOf(ms[0].ctx), ms[0].image), ms[0].image.text);
  }
}
