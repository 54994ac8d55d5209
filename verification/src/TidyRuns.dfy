/** Flags of the parser that agree in every state a terminal reaches. */
module TidyRuns {
  import opened ControlFunctions
  import opened Sgr
  import opened TerminalContext
  import opened TerminalImage
  import opened TerminalRuns
  import opened TerminalSteps
  import opened Utf8

  /** Control sequences and commands are escape sequences, of different kinds. */
  predicate Tidy(f: (bool, bool, bool)) {
    (!f.0 ==> !f.1 && !f.2) && !(f.1 && f.2)
  }

  lemma StateFlow(e: Env, k: Context, s: Image, c: char)
    requires FrameOk(e, FrameOf(k)) && Fits(e, s)
    ensures Flow(StateContext(e, k, s, c)) == Flow(k)
  {
    hide Fits, RenderedAll, Margins, SeenAt, Flow, WithAttributes, WithCursor, WithMargins, WithInsert;
  }

  lemma {:induction false} PrivateFlow(k: Context, values: seq<nat>, on: bool)
    ensures Flow(PrivateContext(k, values, on)) == Flow(k)
  {
    hide Flow, ModeSet;
    if values != [] { PrivateFlow(k, values[..|values| - 1], on); }
  }

  /** The end of a control sequence. */
  lemma EndFlow(e: Env, k: Context, s: Image, c: nat)
    requires FrameOk(e, FrameOf(k)) && Fits(e, s) && c < 0x100
    ensures Flow(EndContext(e, k, s, c)) in {Flow(k), (false, false, k.osc), (k.escape, false, k.osc)}
  {
    hide Fits, StateContext, PrivateContext, Public, Flagged;
    if k.decPrivate {
      PrivateFlow(Public(k), k.escValues[..ParamCount(k)], c == 104);
    } else if !(k.csiUnhandled || c == ESC || !(0x40 <= c <= 0x7E)) {
      StateFlow(e, k, s, c as char);
    }
  }

  lemma SequenceFlow(e: Env, k: Context, s: Image, c: nat)
    requires FrameOk(e, FrameOf(k)) && Fits(e, s) && c < 0x100
    ensures Flow(SequenceContext(e, k, s, c)) in {Flow(k), (false, false, k.osc), (k.escape, false, k.osc)}
  {
    hide Fits, EndContext, FilledIn, SecondContext, ControlledContext, WithParameter, Counted, Digit;
    FilledFrame(e, k, c);
    EndFlow(e, FilledIn(k, c), s, c);
  }

  lemma AdvancedFlow(k: Context, c: nat)
    requires |k.oscBuf| == OSC_SIZE && Tidy(Flow(k))
    ensures Tidy(Flow(Advanced(k, c)))
    ensures !InCommand(k, c) ==> Flow(Advanced(k, c)) == (k.escape, k.controlSequence, false)
  {
    hide AtOffset, Command, Buffered;
  }

  lemma SimpleFlow(rows: nat, k: Context, c: nat)
    requires k.escape && !k.controlSequence && !k.osc
    ensures Tidy(Flow(SimpleContext(rows, k, c)))
  {
    hide Reinitialised, WithSaved, Restored, WithSelect, Started, CommandStarted, Escaping;
  }

  lemma EscapeFlow(e: Env, k: Context, s: Image, c: nat)
    requires FrameOk(e, FrameOf(k)) && Fits(e, s) && c < 0x100 && |k.oscBuf| == OSC_SIZE
    requires k.escape && Tidy(Flow(k))
    ensures Tidy(Flow(EscapeContext(e, k, s, c)))
  {
    hide Fits, SequenceContext, SimpleContext, Advanced, FrameOk, FrameOf;
    AdvancedFrame(k, c);
    AdvancedFlow(k, c);
    if !InCommand(k, c) {
      var l := Advanced(k, c);
      if l.controlSequence { SequenceFlow(e, l, s, c); } else { SimpleFlow(e.rows, l, c); }
    }
  }

  lemma IdleFlow(e: Env, k: Context, s: Image, c: nat)
    requires Legal(e, k, s) && c < 0x100 && Tidy(Flow(k))
    ensures Tidy(Flow(IdleContext(e, k, s, c)))
  {
    hide Legal, EscapeContext, ControlledContext, Escaping, Printed, PrintsAs, Quiet, SelectedContext, WithSelect,
      WithDecoder, FrameOk, FrameOf, Fits, PenOk, PenOf;
    LegalParts(e, k, s);
    if !(0xC2 <= c <= 0xF4) && k.escape { EscapeFlow(e, k, s, c); }
  }

  lemma StepTidy(m: Machine, c: nat)
    requires MachineOk(m) && c < 0x100 && Tidy(Flow(m.ctx))
    ensures Tidy(Flow(Step(m, c).ctx))
  {
    hide Legal, IdleContext, IdleImage, Fits, PenOk, PenOf, FrameOk, FrameOf, WithDecoder, Printed, Cancelled, Continue,
      BrokenImage, TypedAll, Glyphs, Idle, Flow, Tidy;
    var e, k, s := m.env, m.ctx, m.image;
    LegalParts(e, k, s);
    IdleLegal(e, k, s, c);
    CancelledFlow();
    BrokenFlow(k);
    IdleFlow(e, k, s, c);
    IdleFlow(e, Idle(k), BrokenImage(e, k, s, c), c);
  }

  lemma CancelledFlow()
    ensures Tidy((false, false, false))
  {
  }

  lemma BrokenFlow(k: Context)
    ensures Flow(Idle(k)) == Flow(k)
  {
  }

  /** In every state of every run of a fresh terminal the flags agree. */
  lemma {:induction false} RunTidy(ms: seq<Machine>, bytes: seq<nat>)
    requires Run(ms, bytes) && Tidy(Flow(ms[0].ctx))
    ensures Tidy(Flow(ms[|bytes|].ctx))
    decreases |bytes|
  {
    hide Run, Step, MachineOk, Flow, Tidy;
    RunStates(ms, bytes);
    var n := |bytes| - 1;
    if n >= 0 {
      assert bytes == bytes[..n] + [bytes[n]];
      RunParts(ms, bytes[..n], [bytes[n]]);
      RunTidy(ms[..n + 1], bytes[..n]);
      RunOne(ms[n..], bytes[n]);
      StepTidy(ms[n], bytes[n]);
    }
  }

  /** So a terminal is at rest exactly when no sequence, no scalar and no discarded byte is under way. */
  lemma FreshRuns(ms: seq<Machine>, bytes: seq<nat>)
    requires Run(ms, bytes) && ms[0].ctx == Fresh(ms[0].env.rows)
    ensures var k := ms[|bytes|].ctx; AtRest(k) <==> k.decoder.remaining == 0 && !k.escape && !k.discardNext
  {
    hide Run;
    RunStates(ms, bytes);
    FreshFlow(ms[0].env.rows);
    RunTidy(ms, bytes);
  }

  lemma FreshFlow(rows: nat)
    ensures Tidy(Flow(Fresh(rows)))
  {
    hide Reinitialised;
  }
}
