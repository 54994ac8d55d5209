/** Saving and restoring over whole runs. */
module SaveRuns {
  import opened ControlFunctions
  import opened Sgr
  import opened TerminalContext
  import opened TerminalImage
  import opened TerminalRuns
  import opened TerminalSteps
  import opened Utf8

  lemma {:induction false} PrivateSaved(k: Context, values: seq<nat>, on: bool)
    ensures PrivateContext(k, values, on).saved == k.saved
  {
    hide ModeSet;
    if values != [] { PrivateSaved(k, values[..|values| - 1], on); }
  }

  lemma StateSaved(e: Env, k: Context, s: Image, c: char)
    requires FrameOk(e, FrameOf(k)) && Fits(e, s)
    ensures StateContext(e, k, s, c).saved == k.saved
  {
    hide Fits, RenderedAll, Margins, SeenAt, WithAttributes, WithCursor, WithMargins, WithInsert;
  }

  lemma EndSaved(e: Env, k: Context, s: Image, c: nat)
    requires FrameOk(e, FrameOf(k)) && Fits(e, s) && c < 0x100
    ensures EndContext(e, k, s, c).saved == k.saved
  {
    hide Fits, StateContext, PrivateContext, Flagged, Public;
    if k.decPrivate {
      PrivateSaved(Public(k), k.escValues[..ParamCount(k)], c == 104);
    } else if !(k.csiUnhandled || c == ESC || !(0x40 <= c <= 0x7E)) {
      StateSaved(e, k, s, c as char);
    }
  }

  lemma SequenceSaved(e: Env, k: Context, s: Image, c: nat)
    requires FrameOk(e, FrameOf(k)) && Fits(e, s) && c < 0x100
    ensures SequenceContext(e, k, s, c).saved == k.saved
  {
    hide Fits, EndContext, Defaulted, Digit, FilledIn, Counted, WithParameter, SecondContext, ControlledContext;
    FilledFrame(e, k, c);
    EndSaved(e, FilledIn(k, c), s, c);
  }

  lemma OscSaved(k: Context, c: nat)
    requires |k.oscBuf| == OSC_SIZE
    ensures OscContext(k, c).saved == k.saved && Flow(OscContext(k, c)).1 == Flow(k).1
  {
    hide Command, Buffered;
  }

  lemma AdvancedSaved(k: Context, c: nat)
    requires |k.oscBuf| == OSC_SIZE
    ensures Advanced(k, c).saved == k.saved && Flow(Advanced(k, c)).1 == Flow(k).1
  {
    hide OscContext, AtOffset, InCommand, Flow;
    OscSaved(AtOffset(k, k.escapeOffset + 1), c);
  }

  lemma SimpleSaved(rows: nat, k: Context, c: nat)
    ensures c != 55 && c != 99 ==> SimpleContext(rows, k, c).saved == k.saved
  {
    hide Reinitialised, WithSaved, Restored, WithSelect, Started, CommandStarted, Escaping;
  }

  lemma EscapeSaved(e: Env, k: Context, s: Image, c: nat)
    requires FrameOk(e, FrameOf(k)) && Fits(e, s) && c < 0x100 && |k.oscBuf| == OSC_SIZE
    ensures !Stores(k, c) ==> EscapeContext(e, k, s, c).saved == k.saved
  {
    hide Fits, SequenceContext, SimpleContext, Advanced, FrameOk, FrameOf;
    AdvancedFrame(k, c);
    AdvancedSaved(k, c);
    var l := Advanced(k, c);
    SequenceSaved(e, l, s, c);
    SimpleSaved(e.rows, l, c);
  }

  lemma IdleSaved(e: Env, k: Context, s: Image, c: nat)
    requires Legal(e, k, s) && c < 0x100
    ensures !(k.escape && Stores(k, c)) ==> IdleContext(e, k, s, c).saved == k.saved
  {
    hide Legal, EscapeContext, Stores, ControlledContext, Escaping, Printed, PrintsAs, Quiet, SelectedContext,
      WithSelect, WithDecoder, FrameOk, FrameOf, Fits, PenOk, PenOf;
    LegalParts(e, k, s);
    if !(0xC2 <= c <= 0xF4) && k.escape { EscapeSaved(e, k, s, c); }
  }

  /** Only a save, or a reset, changes what is saved. */
  lemma StepSaved(m: Machine, c: nat)
    requires MachineOk(m) && c < 0x100
    ensures !Saves(m.ctx, c) ==> SavedLook(Step(m, c)) == SavedLook(m)
  {
    hide Legal, IdleContext, IdleImage, Fits, PenOk, PenOf, FrameOk, FrameOf, WithDecoder, Printed, Cancelled, Continue,
      BrokenImage, TypedAll, Glyphs, Idle;
    LegalParts(m.env, m.ctx, m.image);
    IdleLegal(m.env, m.ctx, m.image, c);
    IdleSaved(m.env, m.ctx, m.image, c);
    IdleSaved(m.env, Idle(m.ctx), BrokenImage(m.env, m.ctx, m.image, c), c);
    IdleKeeps(m.ctx);
  }

  lemma IdleKeeps(k: Context)
    ensures var l := Idle(k);
      && l.saved == k.saved && l.escape == k.escape && l.controlSequence == k.controlSequence && l.osc == k.osc
      && l.oscEscape == k.oscEscape
  {
  }

  lemma CalmCancelled(k: Context)
    ensures Calm(Cancelled(k))
  {
  }

  lemma CalmPrinted(k: Context, c: nat)
    requires Calm(k)
    ensures Calm(Quiet(k, c)) && Calm(Printed(k, c))
  {
  }

  lemma CalmDecoder(k: Context, d: Decoder)
    requires Calm(k)
    ensures Calm(WithDecoder(k, d)) && Calm(WithSelect(k, 0))
  {
  }

  lemma CalmControlled(k: Context, c: nat)
    requires Calm(k)
    ensures Calm(ControlledContext(k, c))
  {
    if c == 14 { } else if c == 15 { }
  }

  lemma CalmSelected(k: Context, c: nat)
    requires Calm(k) && 1 <= k.gSelect <= |k.charsets|
    ensures Calm(SelectedContext(k, c))
  {
  }

  lemma GroundCalm(k: Context, c: nat)
    requires CharsetsOk(k.charsets, k.currentCharset) && Calm(k) && c != ESC
    ensures Calm(GroundContext(k, c))
  {
    hide Calm, PrintsAs, Printed, ControlledContext, Escaping;
    CalmControlled(k, c);
    if PrintsAs(k, c).Some? { CalmPrinted(k, PrintsAs(k, c).value); }
  }

  lemma IdleCalm(e: Env, k: Context, s: Image, c: nat)
    requires Legal(e, k, s) && c < 0x100 && Calm(k) && c != ESC
    ensures Calm(IdleContext(e, k, s, c))
  {
    hide Legal, GroundContext, Quiet, SelectedContext, WithSelect, WithDecoder, FrameOk, FrameOf, Fits, PenOk, PenOf,
      EscapeContext;
    LegalParts(e, k, s);
    if 0xC2 <= c <= 0xF4 {
      CalmDecoder(k, Lead(c).value);
      CalmDecoder(WithDecoder(k, Lead(c).value), k.decoder);
    } else if k.gSelect != 0 && !(c <= 0x1F || c == 0x7F) {
      CalmSelected(k, c);
    } else {
      CalmPrinted(k, c);
      QuietKeeps(k, c);
      GroundCalm(Quiet(k, c), c);
    }
  }

  lemma ShownCalm(e: Env, k: Context, cp: nat)
    requires Calm(k)
    ensures Calm(ShownContext(e, k, cp))
  {
    hide Calm, Printed;
    CalmPrinted(k, e.glyphOf(cp) % 0x100);
    CalmPrinted(k, REPLACEMENT);
  }

  /** Without an escape character no sequence starts. */
  lemma StepCalm(m: Machine, c: nat)
    requires MachineOk(m) && c < 0x100 && Calm(m.ctx) && c != ESC
    ensures Calm(Step(m, c).ctx)
  {
    hide Legal, IdleContext, IdleImage, Fits, PenOk, PenOf, FrameOk, FrameOf, WithDecoder, ShownContext, Cancelled,
      Continue, BrokenImage, TypedAll, Glyphs, Idle, Calm;
    var e, k, s := m.env, m.ctx, m.image;
    LegalParts(e, k, s);
    IdleLegal(e, k, s, c);
    if Cancels(k, c) {
      CalmCancelled(k);
    } else if k.decoder.remaining == 0 {
      IdleCalm(e, k, s, c);
    } else {
      match Continue(k.decoder, c)
      case More(next) => CalmDecoder(k, next);
      case Done(cp) =>
        CalmDecoder(k, Decoder(0, cp));
        ShownCalm(e, WithDecoder(k, Decoder(0, cp)), cp);
      case Broken =>
        BrokenCalm(k);
        IdleCalm(e, Idle(k), BrokenImage(e, k, s, c), c);
    }
  }

  lemma BrokenCalm(k: Context)
    requires Calm(k)
    ensures Calm(Idle(k))
  {
  }

  /** An escape character outside all sequences starts one, even in the middle of a scalar. */
  lemma EscapeCalm(m: Machine)
    requires MachineOk(m) && Calm(m.ctx)
    ensures var n := Step(m, ESC); Escaped(n.ctx) && !n.ctx.controlSequence && SavedLook(n) == SavedLook(m)
    ensures AtRest(m.ctx) ==> LookOf(Step(m, ESC)) == LookOf(m)
  {
    hide Legal, GroundContext, IdleImage, Fits, PenOk, PenOf, FrameOk, FrameOf, SavedLook, ShownContext, Step,
      BrokenImage, TypedAll, Glyphs, Idle, LookOf, Escaping, Quiet, AtRest;
    var k := m.ctx;
    StepSaved(m, ESC);
    BrokenCalm(k);
    EscapeContext0(m);
    EscapingNow(k);
    EscapingNow(Idle(k));
    if AtRest(k) {
      EscapeStep(m);
      EscapingLook(m);
    }
  }

  lemma EscapingNow(k: Context)
    ensures var l := Escaping(Quiet(k, ESC), 0, true);
      Calm(k) && k.decoder.remaining == 0 ==> Escaped(l) && !l.controlSequence
  {
  }

  lemma EscapingLook(m: Machine)
    ensures LookOf(m.(ctx := Escaping(Quiet(m.ctx, ESC), 0, true))) == LookOf(m)
  {
  }

  lemma EscapeContext0(m: Machine)
    requires MachineOk(m) && Calm(m.ctx)
    ensures Idle(m.ctx).decoder.remaining == 0
    ensures Step(m, ESC).ctx ==
      Escaping(Quiet(if m.ctx.decoder.remaining == 0 then m.ctx else Idle(m.ctx), ESC), 0, true)
  {
    hide Legal, IdleImage, Fits, PenOk, PenOf, FrameOk, FrameOf, ShownContext, BrokenImage, TypedAll, Glyphs, Escaping,
      Quiet, Printed, PrintsAs, ControlledContext, EscapeContext;
    LegalParts(m.env, m.ctx, m.image);
    IdleLegal(m.env, m.ctx, m.image, ESC);
    if m.ctx.decoder.remaining != 0 { LegalParts(m.env, Idle(m.ctx), BrokenImage(m.env, m.ctx, m.image, ESC)); }
  }

  lemma SavePair(ms: seq<Machine>)
    requires Run(ms, [ESC, 55]) && AtRest(ms[0].ctx)
    ensures |ms| == 3 && Calm(ms[2].ctx) && SavedLook(ms[2]) == LookOf(ms[0]) == LookOf(ms[2])
  {
    hide Run, Step, MachineOk, AtRest, Escaped, ActionContext, AtOffset, Escaping;
    assert [ESC, 55] == [ESC] + [55];
    RunStates(ms, [ESC, 55]);
    RunParts(ms, [ESC], [55]);
    RunOne(ms[..2], ESC);
    RunOne(ms[1..], 55);
    RestCalm(ms[0].ctx);
    EscapeCalm(ms[0]);
    AfterEscape(ms[1], 55);
    SaveLook(ms[1], ms[1].ctx.escapeOffset + 1);
  }

  lemma RestCalm(k: Context)
    ensures AtRest(k) ==> Calm(k)
  {
  }

  lemma SaveLook(m: Machine, n: nat)
    requires Escaped(m.ctx) && !m.ctx.controlSequence
    ensures var r := Machine(Marked(m.env, m.image), SimpleContext(m.env.rows, AtOffset(m.ctx, n), 55), m.image);
      Calm(r.ctx) && SavedLook(r) == LookOf(m) == LookOf(r)
  {
    hide Reinitialised;
  }

  lemma RestorePair(ms: seq<Machine>)
    requires Run(ms, [ESC, 56]) && Calm(ms[0].ctx)
    ensures |ms| == 3 && Calm(ms[2].ctx) && LookOf(ms[2]) == SavedLook(ms[0]) == SavedLook(ms[2])
  {
    hide Run, Step, MachineOk, Escaped, ActionContext, AtOffset, Escaping, Calm;
    assert [ESC, 56] == [ESC] + [56];
    RunStates(ms, [ESC, 56]);
    RunParts(ms, [ESC], [56]);
    RunOne(ms[..2], ESC);
    RunOne(ms[1..], 56);
    EscapeCalm(ms[0]);
    AfterEscape(ms[1], 56);
    RestoreLook(ms[1], ms[1].ctx.escapeOffset + 1);
  }

  lemma RestoreLook(m: Machine, n: nat)
    requires Escaped(m.ctx) && !m.ctx.controlSequence && PenOk(m.env, PenOf(m.ctx)) && Fits(m.env, m.image)
    ensures var r := Machine(m.env, SimpleContext(m.env.rows, AtOffset(m.ctx, n), 56),
        SimpleImage(m.env, PenOf(m.ctx), m.image, 56));
      Calm(r.ctx) && LookOf(r) == SavedLook(m) == SavedLook(r)
  {
    hide Reinitialised, Fits, PenOk;
  }

  /** Bytes none of which saves or resets leave what is saved alone. */
  lemma {:induction false} SavedRun(ms: seq<Machine>, bytes: seq<nat>)
    requires Run(ms, bytes) && forall i :: 0 <= i < |bytes| ==> !Saves(ms[i].ctx, bytes[i])
    ensures SavedLook(ms[|bytes|]) == SavedLook(ms[0])
    decreases |bytes|
  {
    hide Run, Step, MachineOk, Saves, SavedLook;
    RunStates(ms, bytes);
    var n := |bytes| - 1;
    if n >= 0 {
      assert bytes == bytes[..n] + [bytes[n]];
      RunParts(ms, bytes[..n], [bytes[n]]);
      SavedRun(ms[..n + 1], bytes[..n]);
      RunOne(ms[n..], bytes[n]);
      StepSaved(ms[n], bytes[n]);
    }
  }

  /** Bytes without an escape character start no sequence. */
  lemma {:induction false} CalmRun(ms: seq<Machine>, bytes: seq<nat>)
    requires Run(ms, bytes) && Calm(ms[0].ctx) && ESC !in bytes
    ensures forall i :: 0 <= i < |ms| ==> Calm(ms[i].ctx)
    decreases |bytes|
  {
    hide Run, Step, MachineOk, Calm;
    RunStates(ms, bytes);
    var n := |bytes| - 1;
    if n >= 0 {
      assert bytes == bytes[..n] + [bytes[n]];
      RunParts(ms, bytes[..n], [bytes[n]]);
      CalmRun(ms[..n + 1], bytes[..n]);
      RunOne(ms[n..], bytes[n]);
      assert ms[n] == ms[..n + 1][n];
      StepCalm(ms[n], bytes[n]);
      forall i | 0 <= i < |ms| ensures Calm(ms[i].ctx) { assert i <= n ==> ms[i] == ms[..n + 1][i]; }
    }
  }

  /** A save, bytes none of which saves or resets and after which no sequence is under way, and a restore: the cursor,
      the colours, the attributes, the modes and the character sets are those of the save. */
  lemma SaveRestore(ms: seq<Machine>, bytes: seq<nat>)
    requires Run(ms, [ESC, 55] + bytes + [ESC, 56]) && AtRest(ms[0].ctx)
    requires forall i :: 0 <= i < |bytes| ==> !Saves(ms[i + 2].ctx, bytes[i])
    requires Calm(ms[|bytes| + 2].ctx)
    ensures LookOf(ms[|bytes| + 4]) == LookOf(ms[0])
  {
    hide Run, Saves, AtRest, Calm, LookOf, SavedLook;
    RunStates(ms, [ESC, 55] + bytes + [ESC, 56]);
    RunParts(ms, [ESC, 55] + bytes, [ESC, 56]);
    RunParts(ms[..|bytes| + 3], [ESC, 55], bytes);
    SavePair(ms[..|bytes| + 3][..3]);
    SavedRun(ms[..|bytes| + 3][2..], bytes);
    RestorePair(ms[|bytes| + 2..]);
  }

  /** That holds for every sequence of bytes without an escape character. */
  lemma SaveTextRestore(ms: seq<Machine>, bytes: seq<nat>)
    requires Run(ms, [ESC, 55] + bytes + [ESC, 56]) && AtRest(ms[0].ctx) && ESC !in bytes
    ensures LookOf(ms[|bytes| + 4]) == LookOf(ms[0])
  {
    hide Run, AtRest, LookOf, SavedLook;
    RunStates(ms, [ESC, 55] + bytes + [ESC, 56]);
    RunParts(ms, [ESC, 55] + bytes, [ESC, 56]);
    RunParts(ms[..|bytes| + 3], [ESC, 55], bytes);
    SavePair(ms[..|bytes| + 3][..3]);
    CalmRun(ms[..|bytes| + 3][2..], bytes);
    forall i | 0 <= i < |bytes| ensures !Saves(ms[i + 2].ctx, bytes[i]) {
      assert ms[i + 2] == ms[..|bytes| + 3][2..][i];
    }
    assert ms[|bytes| + 2] == ms[..|bytes| + 3][2..][|bytes|];
    SaveRestore(ms, bytes);
  }
}
