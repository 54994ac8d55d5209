/** Control sequences from the escape character to the final byte. */
module SequenceRuns {
  import opened Basics
  import opened ControlFunctions
  import opened SequenceSettings
  import opened Sgr
  import opened TerminalContext
  import opened TerminalImage
  import opened TerminalRuns
  import opened TerminalSteps

  predicate AreDigits(ds: seq<nat>) {
    forall i :: 0 <= i < |ds| ==> ds[i] <= 9
  }

  /** Parameters as sequences of digits, any of which may be missing. */
  predicate Numerals(ps: seq<seq<nat>>) {
    ps != [] && forall i :: 0 <= i < |ps| ==> AreDigits(ps[i])
  }

  function DigitBytes(ds: seq<nat>): seq<nat> {
    seq(|ds|, i requires 0 <= i < |ds| => 48 + ds[i])
  }

  /** The parameters, with separators between them. */
  function Joined(ps: seq<seq<nat>>): seq<nat>
    requires ps != []
  {
    if |ps| == 1 then DigitBytes(ps[0]) else Joined(ps[..|ps| - 1]) + [59] + DigitBytes(ps[|ps| - 1])
  }

  /** What is read: the first sixteen parameters. */
  function ValuesOf(ps: seq<seq<nat>>): (r: seq<nat>)
    requires Numerals(ps)
    ensures Params(r) && |r| == MAX_ESC_VALUES
  {
    seq(MAX_ESC_VALUES, i requires 0 <= i < MAX_ESC_VALUES => if i < |ps| then ValueOf(ps, i) else 0)
  }

  function ValueOf(ps: seq<seq<nat>>, i: nat): (v: nat)
    requires Numerals(ps) && i < |ps|
    ensures v < U32
  {
    Collected(ps[i])
  }

  /** The last parameter has digits, and is among the first sixteen. */
  predicate LastOpen(ps: seq<seq<nat>>) {
    ps != [] && ps[|ps| - 1] != [] && |ps| <= MAX_ESC_VALUES
  }

  /** How many are given: an empty last one does not count. */
  function Given(ps: seq<seq<nat>>): (n: nat)
    requires ps != []
    ensures n <= MAX_ESC_VALUES
  {
    Least(|ps| - 1, MAX_ESC_VALUES) + if LastOpen(ps) then 1 else 0
  }

  /** A control sequence whose parameters so far have been read. */
  function Reading(k: Context, values: seq<nat>, count: nat, open: bool, offset: nat): Context {
    k.(escValues := values, escValuesI := count, rrr := open, csiUnhandled := false, controlSequence := true,
       escapeOffset := offset, escape := true)
  }

  lemma ReadingParts(k: Context, values: seq<nat>, count: nat, open: bool, offset: nat)
    ensures var l := Reading(k, values, count, open, offset);
      && l.escValues == values && l.escValuesI == count && l.rrr == open && l.escapeOffset == offset
      && l.controlSequence && l.decPrivate == k.decPrivate && !l.csiUnhandled
      && (AtRest(k) ==> Escaped(l))
  {
  }

  lemma ReadingStart(k: Context, n: nat)
    ensures Started(AtOffset(Escaping(k, n, true), 1)) == Reading(k, NoValues(), 0, false, 1)
  {
  }

  lemma ReadingNext(k: Context, values: seq<nat>, count: nat, open: bool, offset: nat, v: nat, n: nat, also: bool)
    requires count < |values|
    ensures var l := AtOffset(Reading(k, values, count, open, offset), offset + 1);
      && l.escValuesI == count && l.escValues == values
      && WithParameter(l, v, n, also) == Reading(k, values[count := v], n, also, offset + 1)
  {
  }

  lemma ReadingCounted(k: Context, values: seq<nat>, count: nat, open: bool, offset: nat)
    ensures var l := AtOffset(Reading(k, values, count, open, offset), offset + 1);
      && l == Reading(k, values, count, open, offset + 1) && ParamCount(l) == count + (if open then 1 else 0)
      && Counted(l) == Reading(k, values, ParamCount(l), false, offset + 1)
  {
  }

  /** A digit or a separator inside a control sequence. */
  lemma ParameterStep(m: Machine, c: nat)
    requires MachineOk(m) && Escaped(m.ctx) && m.ctx.controlSequence && InParameter(c)
    ensures var l := AtOffset(m.ctx, m.ctx.escapeOffset + 1);
      Params(l.escValues) && Step(m, c) == Machine(m.env, ParameterContext(l, c), m.image)
  {
    hide MachineOk, Step, ParameterContext, AtOffset, Escaped, EndContext, EndImage, FilledIn, Defaulted, PenOk, Fits,
      Params;
    AfterEscape(m, c);
  }

  /** The state in which the parameters have been read. */
  function ReadOff(k: Context, ps: seq<seq<nat>>, offset: nat): Context
    requires Numerals(ps)
  {
    Reading(k, ValuesOf(ps), Least(|ps| - 1, MAX_ESC_VALUES), LastOpen(ps), offset)
  }

  /** One more digit of the last parameter. */
  lemma DigitRead(k: Context, front: seq<seq<nat>>, ds: seq<nat>, d: nat, offset: nat)
    requires Numerals(front + [ds]) && AreDigits(ds + [d]) && Numerals(front + [ds + [d]]) && d <= 9
    ensures var l := AtOffset(ReadOff(k, front + [ds], offset), offset + 1);
      Params(l.escValues) && ParameterContext(l, 48 + d) == ReadOff(k, front + [ds + [d]], offset + 1)
  {
    hide Reading, AtOffset, WithParameter, Digit, Params, Counted, ValuesOf, Collected;
    var ps, qs := front + [ds], front + [ds + [d]];
    assert AreDigits(ds) by { assert ps[|front|] == ds; }
    var i := Least(|front|, MAX_ESC_VALUES);
    ReadingCounted(k, ValuesOf(ps), i, LastOpen(ps), offset);
    ReadingParts(k, ValuesOf(ps), i, LastOpen(ps), offset + 1);
    DigitValues(front, ds, d);
    if i < MAX_ESC_VALUES {
      ReadingNext(k, ValuesOf(ps), i, LastOpen(ps), offset, Digit(Collected(ds), d), i, true);
    }
  }

  lemma DigitValues(front: seq<seq<nat>>, ds: seq<nat>, d: nat)
    requires Numerals(front + [ds]) && AreDigits(ds) && AreDigits(ds + [d]) && Numerals(front + [ds + [d]]) && d <= 9
    ensures var i, v, w := |front|, ValuesOf(front + [ds]), ValuesOf(front + [ds + [d]]);
      if i < MAX_ESC_VALUES then v[i] == Collected(ds) && w == v[i := Digit(Collected(ds), d)] else w == v
  {
    hide Digit, Params;
    assert (ds + [d])[..|ds|] == ds;
    var i, v, w := |front|, ValuesOf(front + [ds]), ValuesOf(front + [ds + [d]]);
    if i < MAX_ESC_VALUES { assert w == v[i := Digit(Collected(ds), d)]; }
  }

  /** A separator. */
  lemma SeparatorRead(k: Context, ps: seq<seq<nat>>, offset: nat)
    requires Numerals(ps)
    ensures var l := AtOffset(ReadOff(k, ps, offset), offset + 1);
      Params(l.escValues) && Numerals(ps + [[]]) && ParameterContext(l, 59) == ReadOff(k, ps + [[]], offset + 1)
  {
    hide Reading, AtOffset, WithParameter, Digit, Params, Counted;
    var qs := ps + [[]];
    var i := Least(|ps| - 1, MAX_ESC_VALUES);
    ReadingCounted(k, ValuesOf(ps), i, LastOpen(ps), offset);
    ReadingParts(k, ValuesOf(ps), i, LastOpen(ps), offset + 1);
    assert ValuesOf(qs) == ValuesOf(ps);
    if !LastOpen(ps) && i < MAX_ESC_VALUES {
      assert ValuesOf(ps)[i] == 0;
      assert ValuesOf(ps)[i := 0] == ValuesOf(ps);
      ReadingNext(k, ValuesOf(ps), i, LastOpen(ps), offset, 0, i + 1, false);
    }
  }

  lemma JoinedDigit(front: seq<seq<nat>>, ds: seq<nat>, d: nat)
    ensures Joined(front + [ds + [d]]) == Joined(front + [ds]) + [48 + d]
  {
    var ps, qs := front + [ds], front + [ds + [d]];
    assert DigitBytes(ds + [d]) == DigitBytes(ds) + [48 + d];
    assert ps[..|ps| - 1] == front == qs[..|qs| - 1];
  }

  lemma JoinedNext(ps: seq<seq<nat>>)
    requires ps != []
    ensures Joined(ps + [[]]) == Joined(ps) + [59]
  {
    var qs := ps + [[]];
    assert qs[..|qs| - 1] == ps;
    assert DigitBytes([]) == [];
    assert Joined(ps) + [59] + [] == Joined(ps) + [59];
  }

  /** Parameters of a control sequence are read, and nothing else happens. */
  lemma {:induction false} ParameterRun(ms: seq<Machine>, ps: seq<seq<nat>>, k: Context, offset: nat)
    requires Numerals(ps) && Run(ms, Joined(ps)) && AtRest(k)
    requires ms[0].ctx == Reading(k, NoValues(), 0, false, offset)
    ensures var n := |Joined(ps)|;
      ms[n] == ms[0].(ctx := ReadOff(k, ps, offset + n))
    decreases |ps|, |ps[|ps| - 1]|
  {
    hide Run, Step, MachineOk, Reading, AtRest, Joined, ReadOff, ParameterContext, AtOffset, Params;
    RunStates(ms, Joined(ps));
    var front, last := ps[..|ps| - 1], ps[|ps| - 1];
    assert ps == front + [last];
    var m := |last| - 1;
    if m >= 0 {
      var ds, d := last[..m], last[m];
      assert last == ds + [d];
      var qs := front + [ds];
      assert Numerals(qs);
      JoinedDigit(front, ds, d);
      ParameterRun(ms[..|Joined(qs)| + 1], qs, k, offset) by { RunParts(ms, Joined(qs), [48 + d]); }
      DigitRead(k, front, ds, d, offset + |Joined(qs)|);
      OneMore(ms, qs, 48 + d, k, offset);
    } else if front != [] {
      assert Numerals(front) && ps == front + [[]];
      JoinedNext(front);
      ParameterRun(ms[..|Joined(front)| + 1], front, k, offset) by { RunParts(ms, Joined(front), [59]); }
      SeparatorRead(k, front, offset + |Joined(front)|);
      OneMore(ms, front, 59, k, offset);
    } else {
      NothingRead(k, ps, offset);
    }
  }

  lemma NothingRead(k: Context, ps: seq<seq<nat>>, offset: nat)
    requires ps == [[]]
    ensures Numerals(ps) && Joined(ps) == [] && ReadOff(k, ps, offset) == Reading(k, NoValues(), 0, false, offset)
  {
    hide Reading;
    assert ValuesOf(ps) == NoValues();
  }

  lemma OneMore(ms: seq<Machine>, ps: seq<seq<nat>>, c: nat, k: Context, offset: nat)
    requires Numerals(ps) && InParameter(c) && Run(ms, Joined(ps) + [c]) && AtRest(k)
    requires ms[|Joined(ps)|] == ms[0].(ctx := ReadOff(k, ps, offset + |Joined(ps)|))
    ensures var n := |Joined(ps)|;
      var l := AtOffset(ReadOff(k, ps, offset + n), offset + n + 1);
      Params(l.escValues) && ms[n + 1] == ms[0].(ctx := ParameterContext(l, c))
  {
    hide Run, Step, MachineOk, Reading, AtRest, Joined, ParameterContext, AtOffset, Params, Escaped, InParameter;
    var n := |Joined(ps)|;
    RunStates(ms, Joined(ps) + [c]);
    RunParts(ms, Joined(ps), [c]);
    RunOne(ms[n..], c);
    ReadingParts(k, ValuesOf(ps), Least(|ps| - 1, MAX_ESC_VALUES), LastOpen(ps), offset + n);
    ParameterStep(ms[n], c);
  }

  lemma QuietRest(k: Context)
    ensures var l := Quiet(k, ESC);
      (AtRest(k) ==> AtRest(l)) && FrameOf(l) == FrameOf(k) && l.decPrivate == k.decPrivate && l.saved == k.saved
  {
  }

  lemma EscapingParts(k: Context)
    ensures var l := Escaping(k, 0, true);
      (AtRest(k) ==> Escaped(l) && !l.controlSequence) && l.escapeOffset == 0 && l.saved == k.saved
  {
  }

  /** The first two bytes of a control sequence. */
  lemma OpenRun(ms: seq<Machine>)
    requires Run(ms, [ESC, 91]) && AtRest(ms[0].ctx)
    ensures |ms| == 3
    ensures ms[2] == ms[0].(ctx := Reading(Quiet(ms[0].ctx, ESC), NoValues(), 0, false, 1))
  {
    hide Run, Step, MachineOk, Reading, AtRest, AtOffset, Escaped, Quiet, Escaping, Started, ActionContext;
    RunStates(ms, [ESC, 91]);
    assert [ESC, 91] == [ESC] + [91];
    RunParts(ms, [ESC], [91]);
    RunOne(ms[..2], ESC);
    RunOne(ms[1..], 91);
    var k := Quiet(ms[0].ctx, ESC);
    EscapeStep(ms[0]);
    QuietRest(ms[0].ctx);
    EscapingParts(k);
    AfterEscape(ms[1], 91);
    ReadingStart(k, 0);
  }

  /** What a control function sees after its parameters have been read. */
  function FrameFor(k: Context, ps: seq<seq<nat>>, c: nat): Frame
    requires Numerals(ps)
  {
    FrameOf(k).(values := Defaulted(ValuesOf(ps), Given(ps), DefaultFor(c)), count := Given(ps), unhandled := false)
  }

  lemma ReadOffParts(k: Context, ps: seq<seq<nat>>, offset: nat)
    requires Numerals(ps)
    ensures var l := ReadOff(k, ps, offset);
      && l.escValues == ValuesOf(ps) && ParamCount(l) == Given(ps) && l.escapeOffset == offset && l.controlSequence
      && l.decPrivate == k.decPrivate && !l.csiUnhandled && (AtRest(k) ==> Escaped(l))
      && FrameOf(l) == FrameOf(k).(values := ValuesOf(ps), count := Given(ps), unhandled := false)
  {
    hide ValuesOf, AtRest, Escaped, LastOpen;
    ReadingParts(k, ValuesOf(ps), Least(|ps| - 1, MAX_ESC_VALUES), LastOpen(ps), offset);
    ReadingFrame(k, ValuesOf(ps), Least(|ps| - 1, MAX_ESC_VALUES), LastOpen(ps), offset);
  }

  lemma ReadingFrame(k: Context, values: seq<nat>, count: nat, open: bool, offset: nat)
    ensures var l := Reading(k, values, count, open, offset);
      && ParamCount(l) == count + (if open then 1 else 0)
      && FrameOf(l) == FrameOf(k).(values := values, count := ParamCount(l), unhandled := false)
  {
  }

  predicate Settled(k: Context) {
    k.decoder.remaining == 0 && !k.discardNext && !k.osc
  }

  lemma ClosedRest(k: Context)
    ensures (Settled(k) ==> AtRest(Closed(k))) && Closed(k).decPrivate == k.decPrivate
  {
  }

  lemma ModeSettled(k: Context, v: nat, on: bool)
    ensures Settled(ModeSet(k, v, on)) == Settled(k) && ModeSet(k, v, on).decPrivate == k.decPrivate
  {
  }

  lemma PublicSettled(k: Context)
    ensures Settled(Public(k)) == Settled(k) && !Public(k).decPrivate
  {
  }

  lemma {:induction false} PrivateSettled(k: Context, values: seq<nat>, on: bool)
    ensures var l := PrivateContext(k, values, on); Settled(l) == Settled(k) && l.decPrivate == k.decPrivate
  {
    hide Settled, ModeSet;
    var n := |values| - 1;
    if n >= 0 {
      PrivateSettled(k, values[..n], on);
      ModeSettled(PrivateContext(k, values[..n], on), values[n], on);
    }
  }

  lemma UpdatesSettled(k: Context, a: Attributes, at: (nat, nat), on: bool)
    ensures Settled(WithAttributes(k, a)) == Settled(WithCursor(k, at)) == Settled(k)
    ensures Settled(WithMargins(k, at)) == Settled(WithInsert(k, on)) == Settled(k)
    ensures WithAttributes(k, a).decPrivate == WithCursor(k, at).decPrivate == k.decPrivate
    ensures WithMargins(k, at).decPrivate == WithInsert(k, on).decPrivate == k.decPrivate
  {
  }

  lemma StateSettled(e: Env, k: Context, s: Image, c: char)
    requires FrameOk(e, FrameOf(k)) && Fits(e, s)
    ensures var l := StateContext(e, k, s, c); Settled(l) == Settled(k) && l.decPrivate == k.decPrivate
  {
    hide Fits, RenderedAll, Margins, SeenAt, Settled, WithAttributes, WithCursor, WithMargins, WithInsert;
    if c == 'm' {
      UpdatesSettled(k,
        RenderedAll(e.palette, e.table, Ink(k.attrs, s.fg, s.bg), k.escValues, ParamCount(k)).attrs, (0, 0), true);
    } else if c == 's' {
      UpdatesSettled(k, k.attrs, SeenAt(e, PenOf(k), s), true);
    } else if c == 'r' {
      UpdatesSettled(k, k.attrs, Margins(e.rows, ParamCount(k), k.escValues[0], k.escValues[1]), true);
    } else {
      UpdatesSettled(k, k.attrs, (0, 0), c == 'h');
    }
  }

  /** A final byte leaves the terminal at rest. */
  lemma EndRest(e: Env, k: Context, s: Image, c: nat)
    requires FrameOk(e, FrameOf(k)) && Fits(e, s) && 0x40 <= c <= 0x7E && !k.csiUnhandled && Settled(k)
    ensures AtRest(EndContext(e, k, s, c)) && !EndContext(e, k, s, c).decPrivate
  {
    hide FrameOk, Fits, Settled, AtRest, Closed, StateContext, PrivateContext, Public;
    if k.decPrivate {
      PublicSettled(k);
      ParamsFit(e, k);
      PrivateSettled(Public(k), k.escValues[..ParamCount(k)], c == 104);
      ClosedRest(PrivateEnd(k, c));
    } else {
      StateSettled(e, k, s, c as char);
      ClosedRest(StateContext(e, k, s, c as char));
    }
  }

  lemma ParamsFit(e: Env, k: Context)
    requires FrameOk(e, FrameOf(k))
    ensures ParamCount(k) <= |k.escValues|
  {
  }

  lemma FilledSettled(k: Context, c: nat)
    requires Params(k.escValues)
    ensures Settled(FilledIn(k, c)) == Settled(k) && FilledIn(k, c).csiUnhandled == k.csiUnhandled
  {
    hide Defaulted, Params, DefaultFor;
  }

  lemma EscapedSettled(k: Context)
    ensures Escaped(k) ==> Settled(k)
  {
  }

  lemma ReadOffNext(k: Context, ps: seq<seq<nat>>, offset: nat)
    requires Numerals(ps)
    ensures AtOffset(ReadOff(k, ps, offset), offset + 1) == ReadOff(k, ps, offset + 1)
  {
    hide ValuesOf, LastOpen, Reading, AtOffset;
    ReadingCounted(k, ValuesOf(ps), Least(|ps| - 1, MAX_ESC_VALUES), LastOpen(ps), offset);
  }

  /** The final byte. */
  lemma FinalStep(m: Machine, k: Context, ps: seq<seq<nat>>, offset: nat, c: nat)
    requires MachineOk(m) && Numerals(ps) && AtRest(k) && m.ctx == ReadOff(k, ps, offset)
    requires 0x40 <= c <= 0x7E && (c == 91 ==> offset != 1)
    ensures var n := Step(m, c); var f := FrameFor(k, ps, c);
      && FrameOk(m.env, f) && Fits(m.env, m.image) && n.env == m.env && n.image == EndImage(m.env, f, m.image, c)
      && SettingsOf(n.ctx) == Ending(m.env, f, m.image, SettingsOf(k), c) && AtRest(n.ctx) && !n.ctx.decPrivate
  {
    hide SettingsOf, Ending, Run, MachineOk, AtRest, AtOffset, Escaped, Quiet, Escaping, ReadOff, ValuesOf, Given,
      EndContext, EndImage, FilledIn, Defaulted, DefaultFor, FrameOk, Fits, PenOk, FrameOf, Params, Controlled,
      ControlledContext, Step, Settled;
    ReadOffParts(k, ps, offset);
    AfterEscape(m, c);
    var l := ReadOff(k, ps, offset + 1);
    ReadOffNext(k, ps, offset);
    ReadOffParts(k, ps, offset + 1);
    FilledFrame(m.env, l, c);
    EscapedSettled(l);
    FilledSettled(l, c);
    EndRest(m.env, FilledIn(l, c), m.image, c);
    EndSettings(m.env, FilledIn(l, c), m.image, c);
    FilledSettings(l, c);
    ReadOffSettings(k, ps, offset + 1);
  }

  lemma ReadOffSettings(k: Context, ps: seq<seq<nat>>, offset: nat)
    requires Numerals(ps)
    ensures SettingsOf(ReadOff(k, ps, offset)) == SettingsOf(k)
  {
    hide ValuesOf, LastOpen;
  }

  lemma StartSettings(k: Context)
    ensures SettingsOf(Quiet(k, ESC)) == SettingsOf(Private(k)) == SettingsOf(k)
  {
  }

  /** What a private sequence does to the screen. */
  function PrivateImage(e: Env, f: Frame, s: Image, c: nat): Image
    requires f.count <= |f.values|
  {
    if c == 104 || c == 108 then PrivateAll(e, f.pen.top, s, f.values[..f.count], c == 104) else s
  }

  /** What a private sequence changes besides the screen. */
  function PrivateChange(f: Frame, t: Settings, c: nat): Settings
    requires f.count <= |f.values|
  {
    if c == 104 || c == 108 then Switched(t, f.values[..f.count], c == 104) else t
  }

  lemma EndKinds(e: Env, f: Frame, s: Image, c: nat)
    requires FrameOk(e, f) && Fits(e, s) && !f.unhandled && 0x40 <= c <= 0x7E
    ensures f.count <= |f.values|
    ensures EndImage(e, f, s, c) == if f.private then PrivateImage(e, f, s, c) else FinalImage(e, f, s, c as char)
  {
    hide FinalImage, PrivateAll, Fits, PenOk;
  }

  lemma FrameKind(k: Context, ps: seq<seq<nat>>, c: nat)
    requires Numerals(ps)
    ensures FrameFor(Quiet(k, ESC), ps, c) == FrameFor(k, ps, c)
    ensures FrameFor(k, ps, c).private == k.decPrivate && !FrameFor(k, ps, c).unhandled
  {
    hide Quiet, ValuesOf, Given, Defaulted, DefaultFor;
    QuietRest(k);
  }

  /** A control sequence up to its final byte. */
  lemma ReadRun(ms: seq<Machine>, ps: seq<seq<nat>>)
    requires Numerals(ps) && Run(ms, [ESC, 91] + Joined(ps)) && AtRest(ms[0].ctx)
    ensures var n := |Joined(ps)|;
      ms[n + 2] == ms[0].(ctx := ReadOff(Quiet(ms[0].ctx, ESC), ps, n + 1))
  {
    hide Run, Step, MachineOk, Reading, AtRest, Joined, ReadOff, Quiet;
    RunStates(ms, [ESC, 91] + Joined(ps));
    RunParts(ms, [ESC, 91], Joined(ps));
    OpenRun(ms[..3]);
    QuietRest(ms[0].ctx);
    ParameterRun(ms[2..], ps, Quiet(ms[0].ctx, ESC), 1);
  }

  /** From rest, the bytes of a control sequence have the effect of its function with the numbers given, whatever they
      are, and leave the terminal at rest. The exception is a terminal that takes the sequence for a private one, as a
      private sequence that was cancelled makes it do. */
  lemma SequenceRun(ms: seq<Machine>, ps: seq<seq<nat>>, c: nat)
    requires Numerals(ps) && Run(ms, [ESC, 91] + Joined(ps) + [c]) && AtRest(ms[0].ctx)
    requires 0x40 <= c <= 0x7E && (c == 91 ==> Joined(ps) != [])
    ensures var m, n, f := ms[0], ms[|Joined(ps)| + 3], FrameFor(ms[0].ctx, ps, c);
      && FrameOk(m.env, f) && Fits(m.env, m.image) && AtRest(n.ctx) && !n.ctx.decPrivate && n.env == m.env
      && (!m.ctx.decPrivate ==>
            && n.image == FinalImage(m.env, f, m.image, c as char)
            && SettingsOf(n.ctx) == Changed(m.env, f, m.image, SettingsOf(m.ctx), c as char))
      && (m.ctx.decPrivate ==>
            && f.count <= |f.values| && n.image == PrivateImage(m.env, f, m.image, c)
            && SettingsOf(n.ctx) == PrivateChange(f, SettingsOf(m.ctx), c))
  {
    hide SettingsOf, Changed, Switched, Run, Step, MachineOk, AtRest, Joined, ReadOff, FrameOk, Fits, FrameFor, Quiet,
      FinalImage, EndImage, PrivateImage;
    RunStates(ms, [ESC, 91] + Joined(ps) + [c]);
    var j, k := Joined(ps), ms[0].ctx;
    RunParts(ms, [ESC, 91] + j, [c]);
    ReadRun(ms[..|j| + 3], ps);
    RunOne(ms[|j| + 2..], c);
    QuietRest(k);
    FinalStep(ms[|j| + 2], Quiet(k, ESC), ps, 1 + |j|, c);
    FrameKind(k, ps, c);
    StartSettings(k);
    EndKinds(ms[0].env, FrameFor(k, ps, c), ms[0].image, c);
  }

  function Private(k: Context): Context {
    k.(decPrivate := true)
  }

  lemma PrivateParts(k: Context)
    ensures (AtRest(k) ==> AtRest(Private(k))) && FrameOf(Private(k)) == FrameOf(k).(private := true)
  {
  }

  lemma ReadingPrivate(k: Context)
    ensures var l := AtOffset(Reading(k, NoValues(), 0, false, 1), 2);
      l.escapeOffset == 2 && SecondContext(l, 63) == Reading(Private(k), NoValues(), 0, false, 2)
  {
  }

  /** The first three bytes of a private sequence. */
  lemma OpenPrivate(ms: seq<Machine>)
    requires Run(ms, [ESC, 91, 63]) && AtRest(ms[0].ctx)
    ensures |ms| == 4
    ensures ms[3] == ms[0].(ctx := Reading(Private(Quiet(ms[0].ctx, ESC)), NoValues(), 0, false, 2))
  {
    hide Run, Step, MachineOk, Reading, AtRest, AtOffset, Quiet, Private, NoValues, Escaped, EndContext, SecondContext,
      FrameOf, FrameOk, Fits, EndImage;
    RunStates(ms, [ESC, 91, 63]);
    assert [ESC, 91, 63] == [ESC, 91] + [63];
    RunParts(ms, [ESC, 91], [63]);
    OpenRun(ms[..3]);
    RunOne(ms[2..], 63);
    var k := Quiet(ms[0].ctx, ESC);
    QuietRest(ms[0].ctx);
    ReadingParts(k, NoValues(), 0, false, 1);
    AfterEscape(ms[2], 63);
    ReadingPrivate(k);
  }

  /** From rest, a private sequence sets or resets exactly the modes it names. */
  lemma PrivateRun(ms: seq<Machine>, ps: seq<seq<nat>>, c: nat)
    requires Numerals(ps) && Run(ms, [ESC, 91, 63] + Joined(ps) + [c]) && AtRest(ms[0].ctx) && 0x40 <= c <= 0x7E
    ensures var m, n, f := ms[0], ms[|Joined(ps)| + 4], FrameFor(ms[0].ctx, ps, c);
      && f.count <= |f.values| && AtRest(n.ctx) && !n.ctx.decPrivate && n.env == m.env
      && n.image == PrivateImage(m.env, f, m.image, c) && SettingsOf(n.ctx) == PrivateChange(f, SettingsOf(m.ctx), c)
  {
    hide SettingsOf, Changed, Switched, Run, Step, MachineOk, AtRest, Joined, ReadOff, FrameOk, Fits, FrameFor, Quiet,
      FinalImage, EndImage, PrivateImage, Private, Reading, NoValues;
    RunStates(ms, [ESC, 91, 63] + Joined(ps) + [c]);
    var j, k := Joined(ps), Private(Quiet(ms[0].ctx, ESC));
    RunParts(ms, [ESC, 91, 63] + j, [c]);
    RunParts(ms[..|j| + 4], [ESC, 91, 63], j);
    OpenPrivate(ms[..|j| + 4][..4]);
    QuietRest(ms[0].ctx);
    PrivateParts(Quiet(ms[0].ctx, ESC));
    ParameterRun(ms[..|j| + 4][3..], ps, k, 2);
    RunOne(ms[|j| + 3..], c);
    FinalStep(ms[|j| + 3], k, ps, 2 + |j|, c);
    PrivateFrame(ms[0].ctx, ps, c);
    StartSettings(ms[0].ctx);
    StartSettings(Quiet(ms[0].ctx, ESC));
    EndKinds(ms[0].env, FrameFor(k, ps, c), ms[0].image, c);
    PrivateSame(ms[0].env, FrameFor(k, ps, c), FrameFor(ms[0].ctx, ps, c), ms[0].image, c);
  }

  lemma PrivateFrame(k: Context, ps: seq<seq<nat>>, c: nat)
    requires Numerals(ps)
    ensures FrameFor(Private(Quiet(k, ESC)), ps, c) == FrameFor(k, ps, c).(private := true)
    ensures !FrameFor(k, ps, c).unhandled
  {
    hide Quiet, ValuesOf, Given, Defaulted, DefaultFor, Private;
    QuietRest(k);
    PrivateParts(Quiet(k, ESC));
  }

  lemma PrivateSame(e: Env, f: Frame, g: Frame, s: Image, c: nat)
    requires f == g.(private := true) && f.count <= |f.values|
    ensures PrivateImage(e, f, s, c) == PrivateImage(e, g, s, c)
  {
    hide PrivateAll;
  }

  /** Numbers that are written, and are not zero, are what a function sees. */
  lemma GivenValues(k: Context, ps: seq<seq<nat>>, c: nat)
    requires Numerals(ps) && |ps| <= MAX_ESC_VALUES
    requires forall i :: 0 <= i < |ps| ==> ps[i] != [] && 0 < Value(ps[i]) < U32
    ensures var f := FrameFor(k, ps, c);
      f.count == |ps| <= |f.values| && forall i :: 0 <= i < |ps| ==> f.values[i] == Value(ps[i])
  {
    forall i | 0 <= i < |ps| ensures FrameFor(k, ps, c).values[i] == Value(ps[i]) {
      assert AreDigits(ps[i]);
      CollectedRight(ps[i]);
    }
  }

  /** The sequences that show and hide the cursor do just that. */
  lemma CursorRun(ms: seq<Machine>, c: nat)
    requires Run(ms, [ESC, 91, 63, 50, 53, c]) && AtRest(ms[0].ctx) && (c == 104 || c == 108)
    ensures ms[6].ctx.cursorEnabled == (c == 104) && ms[6].image == ms[0].image
    ensures SettingsOf(ms[6].ctx) == SettingsOf(ms[0].ctx).(cursorEnabled := c == 104)
  {
    hide Run, AtRest, FrameFor;
    var ps := [[2, 5]];
    assert Numerals(ps) && Joined(ps) == [50, 53];
    assert [ESC, 91, 63, 50, 53, c] == [ESC, 91, 63] + Joined(ps) + [c];
    RunStates(ms, [ESC, 91, 63, 50, 53, c]);
    PrivateRun(ms, ps, c);
    assert Value(ps[0]) == 25 by { assert [2, 5][..1] == [2]; }
    GivenValues(ms[0].ctx, ps, c);
    var f := FrameFor(ms[0].ctx, ps, c);
    assert f.values[..f.count] == [25];
    ShowsNothing(ms[0].env, f.pen.top, ms[0].image, c == 104);
  }

  lemma ShowsNothing(e: Env, top: nat, s: Image, on: bool)
    ensures PrivateAll(e, top, s, [25], on) == s
  {
    assert [25][..0] == [];
  }

  lemma CancelStep(m: Machine)
    requires MachineOk(m)
    ensures Step(m, 0x18) == m.(ctx := Cancelled(m.ctx))
  {
    hide ContextOk, Fits, IdleImage, IdleContext, Cancelled;
    LegalParts(m.env, m.ctx, m.image);
  }

  lemma CancelledParts(k: Context)
    ensures AtRest(Cancelled(k)) && Cancelled(k).decPrivate == k.decPrivate
  {
  }

  /** A private sequence that is cancelled: the terminal is at rest, but it will take the next sequence for a
      private one. */
  lemma CancelledPrivate(ms: seq<Machine>)
    requires Run(ms, [ESC, 91, 63, 0x18]) && AtRest(ms[0].ctx)
    ensures AtRest(ms[4].ctx) && ms[4].ctx.decPrivate && ms[4] == ms[0].(ctx := ms[4].ctx)
  {
    hide Run, Step, MachineOk, AtRest, Quiet, Private, NoValues, Cancelled;
    RunStates(ms, [ESC, 91, 63, 0x18]);
    assert [ESC, 91, 63, 0x18] == [ESC, 91, 63] + [0x18];
    RunParts(ms, [ESC, 91, 63], [0x18]);
    OpenPrivate(ms[..4]);
    RunOne(ms[3..], 0x18);
    CancelStep(ms[3]);
    CancelledParts(ms[3].ctx);
    PrivateSet(Quiet(ms[0].ctx, ESC));
  }

  lemma PrivateSet(k: Context)
    ensures Reading(Private(k), NoValues(), 0, false, 2).decPrivate
  {
    hide NoValues;
  }

  lemma TwoValues(row: seq<nat>, column: seq<nat>)
    requires Numerals([row, column]) && Value(row) < U32 && Value(column) < U32
    ensures var v := Defaulted(ValuesOf([row, column]), Given([row, column]), 1);
      Minus(v[0], 1) == Minus(Value(row), 1) && Minus(v[1], 1) == Minus(Value(column), 1)
  {
    var ps := [row, column];
    assert AreDigits(ps[0]) && AreDigits(ps[1]);
    CollectedRight(row);
    CollectedRight(column);
    assert ValuesOf(ps)[0] == Value(row) && ValuesOf(ps)[1] == Value(column);
  }

  /** Cursor positioning, by the numbers as they are written. Counting starts at one. */
  lemma PositionRun(ms: seq<Machine>, row: seq<nat>, column: seq<nat>)
    requires Numerals([row, column]) && Value(row) < U32 && Value(column) < U32
    requires Run(ms, [ESC, 91] + Joined([row, column]) + [72])
    requires AtRest(ms[0].ctx) && !ms[0].ctx.decPrivate && !ms[0].ctx.originMode
    ensures var m := ms[0];
      && m.env.cols >= 1 && m.env.rows >= 1
      && ms[|Joined([row, column])| + 3].image ==
         m.image.(x := Least(Minus(Value(column), 1), m.env.cols - 1), y := Least(Minus(Value(row), 1), m.env.rows - 1))
  {
    hide Run, AtRest, Joined, ValuesOf, Given, Defaulted, EditedImage, StateImage, Numerals, Value;
    SequenceRun(ms, [row, column], 72);
    TwoValues(row, column);
    assert 72 as char == 'H';
  }

  /** After a cancelled private sequence the cursor does not go up when it should. */
  lemma CancelMisleads(ms: seq<Machine>, ns: seq<Machine>)
    requires Run(ms, [ESC, 91, 63, 0x18, ESC, 91, 65]) && Run(ns, [ESC, 91, 65])
    requires AtRest(ms[0].ctx) && !ms[0].ctx.decPrivate && !ms[0].ctx.originMode && ms[0].image.y > 0
    requires ns[0] == ms[0]
    ensures ns[3].image.y == ms[0].image.y - 1 && ms[7].image == ms[0].image
  {
    hide Run, AtRest, ValuesOf, EditedImage, StateImage, Defaulted;
    var cancelled, up := [ESC, 91, 63, 0x18], [ESC, 91, 65];
    assert up == [ESC, 91] + Joined([[]]) + [65];
    assert [ESC, 91, 63, 0x18, ESC, 91, 65] == cancelled + up;
    RunStates(ms, cancelled + up);
    RunParts(ms, cancelled, up);
    CancelledPrivate(ms[..5]);
    SequenceRun(ms[4..], [[]], 65);
    SequenceRun(ns, [[]], 65);
    assert 65 as char == 'A';
    NoneGiven();
  }

  lemma NoneGiven()
    ensures Numerals([[]]) && Defaulted(ValuesOf([[]]), Given([[]]), 1)[0] == 1
  {
  }
}
