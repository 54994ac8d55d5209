/** When a terminal that is at rest takes the next control sequence for a private one. */
module PrivateRuns {
  import opened TerminalContext
  import opened TerminalImage
  import opened TerminalRuns
  import opened TerminalSteps
  import opened TidyRuns
  import opened Utf8

  /** A control sequence is under way. */
  predicate Inside(k: Context) {
    k.escape && k.controlSequence && !k.osc
  }

  /** The byte makes the sequence a private one. */
  predicate Opens(k: Context, c: nat) {
    !Cancels(k, c) && c == 63 && Inside(k) && k.escapeOffset == 1
  }

  /** A reset, or the end of a control sequence that was not cancelled. */
  predicate Ended(m: Machine, c: nat)
    requires MachineOk(m) && c < 0x100
  {
    var n := Step(m, c).ctx;
    || (Saves(m.ctx, c) && c == 99)
    || (Inside(m.ctx) && !Cancels(m.ctx, c) && !n.escape && !n.discardNext)
  }

  lemma StateGuide(e: Env, k: Context, s: Image, c: char)
    requires FrameOk(e, FrameOf(k)) && Fits(e, s)
    ensures Guide(StateContext(e, k, s, c)) == Guide(k)
  {
    hide Fits, Guide, WithAttributes, WithCursor, WithMargins, WithInsert;
  }

  lemma {:induction false} PrivateGuide(k: Context, values: seq<nat>, on: bool)
    ensures Guide(PrivateContext(k, values, on)) == Guide(k)
  {
    hide Guide, ModeSet;
    if values != [] { PrivateGuide(k, values[..|values| - 1], on); }
  }

  /** A byte that ends the parameters: a private sequence is over, others stay what they are. */
  lemma EndGuide(e: Env, k: Context, s: Image, c: nat)
    requires FrameOk(e, FrameOf(k)) && Fits(e, s) && c < 0x100
    ensures var r := EndContext(e, k, s, c);
      && !r.decPrivate && r.discardNext == k.discardNext && (k.decPrivate ==> !r.escape)
  {
    hide Fits, StateContext, PrivateContext, Public, Flagged;
    if k.decPrivate {
      PrivateGuide(Public(k), k.escValues[..ParamCount(k)], c == 104);
    } else if !(k.csiUnhandled || c == ESC || !(0x40 <= c <= 0x7E)) {
      StateGuide(e, k, s, c as char);
    }
  }

  lemma SequencePrivate(e: Env, k: Context, s: Image, c: nat)
    requires FrameOk(e, FrameOf(k)) && Fits(e, s) && c < 0x100 && Inside(k) && !k.discardNext
    ensures var r, opens := SequenceContext(e, k, s, c), k.escapeOffset == 2 && c == 63;
      && (r.decPrivate <==> opens || (k.decPrivate && (r.escape || r.discardNext)))
      && (opens || (r.decPrivate && k.escapeOffset > 2) ==> Inside(r) && r.escapeOffset == k.escapeOffset)
  {
    hide Fits, EndContext, FilledIn, SecondContext, ControlledContext, WithParameter, Counted, Digit;
    FilledFrame(e, k, c);
    EndGuide(e, FilledIn(k, c), s, c);
  }

  lemma ActionPrivate(rows: nat, k: Context, c: nat)
    ensures Guide(ActionContext(rows, k, c)).0 == (Guide(k).0 && c != 99)
  {
    hide Reinitialised, WithSaved, Restored, WithSelect, Keeps, Guide;
  }

  lemma SimplePrivate(rows: nat, k: Context, c: nat)
    ensures SimpleContext(rows, k, c).decPrivate == (k.decPrivate && c != 99)
  {
    hide ActionContext, Started, CommandStarted, Escaping;
    ActionPrivate(rows, k, c);
    if c == ESC {
      assert Guide(Escaping(k, 0, k.escape)).0 == k.decPrivate;
    } else if c == 93 {
      assert Guide(CommandStarted(k)).0 == k.decPrivate;
    } else if c == 91 {
      assert Guide(Started(k)).0 == k.decPrivate;
    } else {
      var l := ActionContext(rows, k, c);
      assert Guide(Escaping(l, l.escapeOffset, false)).0 == l.decPrivate;
    }
  }

  lemma OscGuide(k: Context, c: nat)
    requires |k.oscBuf| == OSC_SIZE
    ensures Guide(OscContext(k, c)) == Guide(k)
  {
    hide Command, Buffered, Guide;
  }

  lemma AdvancedPrivate(k: Context, c: nat)
    requires |k.oscBuf| == OSC_SIZE
    ensures var r := Advanced(k, c); r.decPrivate == k.decPrivate && r.discardNext == k.discardNext
    ensures !k.osc ==> Advanced(k, c) == AtOffset(k, k.escapeOffset + 1)
  {
    hide AtOffset, OscContext, InCommand;
    OscGuide(AtOffset(k, k.escapeOffset + 1), c);
  }

  /** A byte of an escape sequence. */
  lemma EscapePrivate(e: Env, k: Context, s: Image, c: nat)
    requires FrameOk(e, FrameOf(k)) && Fits(e, s) && c < 0x100 && |k.oscBuf| == OSC_SIZE
    requires k.escape && Tidy(Flow(k)) && !k.discardNext
    ensures var r, opens := EscapeContext(e, k, s, c), Inside(k) && k.escapeOffset == 1 && c == 63;
      var ended := (Stores(k, c) && c == 99) || (Inside(k) && !r.escape && !r.discardNext);
      && (r.decPrivate <==> opens || (k.decPrivate && !ended))
      && (opens || (r.decPrivate && Inside(k) && k.escapeOffset > 1) ==> Inside(r) && r.escapeOffset > 1)
  {
    hide Fits, SequenceContext, SimpleContext, Advanced, FrameOk, FrameOf, AtOffset;
    AdvancedFrame(k, c);
    AdvancedPrivate(k, c);
    AdvancedFlow(k, c);
    if !InCommand(k, c) {
      var l := Advanced(k, c);
      if l.controlSequence {
        SequencePrivate(e, l, s, c);
      } else {
        SimplePrivate(e.rows, l, c);
      }
    }
  }

  lemma GroundPrivate(k: Context, c: nat)
    requires CharsetsOk(k.charsets, k.currentCharset)
    ensures GroundContext(k, c).decPrivate == k.decPrivate
  {
    hide PrintsAs, Printed, ControlledContext, Escaping;
  }

  /** A byte that is not part of a multi-byte sequence. */
  lemma IdlePrivate(e: Env, k: Context, s: Image, c: nat)
    requires Legal(e, k, s) && c < 0x100 && Tidy(Flow(k)) && !k.discardNext
    ensures var r, opens := IdleContext(e, k, s, c), Inside(k) && k.escapeOffset == 1 && c == 63;
      var ended := (k.escape && Stores(k, c) && c == 99) || (Inside(k) && !r.escape && !r.discardNext);
      && (r.decPrivate <==> opens || (k.decPrivate && !ended))
      && (opens || (r.decPrivate && Inside(k) && k.escapeOffset > 1) ==> Inside(r) && r.escapeOffset > 1)
  {
    hide Legal, EscapeContext, GroundContext, Quiet, SelectedContext, WithSelect, WithDecoder, FrameOk, FrameOf, Fits,
      PenOk, PenOf, Lead;
    LegalParts(e, k, s);
    if 0xC2 <= c <= 0xF4 {
    } else if k.escape {
      EscapePrivate(e, k, s, c);
    } else if !(k.gSelect != 0 && !(c <= 0x1F || c == 0x7F)) {
      QuietKeeps(k, c);
      GroundPrivate(Quiet(k, c), c);
    }
  }

  lemma BrokenGuide(k: Context)
    ensures Guide(Idle(k)) == Guide(k) && Flow(Idle(k)) == Flow(k) && Idle(k).oscEscape == k.oscEscape
  {
  }

  /** The private flag after a byte; while a private sequence is under way, only its end or a cancellation leaves it. */
  lemma StepPrivate(m: Machine, c: nat)
    requires MachineOk(m) && c < 0x100 && Tidy(Flow(m.ctx))
    ensures var k, r := m.ctx, Step(m, c).ctx;
      && (r.decPrivate <==> Opens(k, c) || (k.decPrivate && !Ended(m, c)))
      && (Opens(k, c) || (r.decPrivate && Inside(k) && k.escapeOffset > 1 && !Cancels(k, c)) ==>
            Inside(r) && r.escapeOffset > 1)
  {
    hide Legal, IdleContext, IdleImage, Fits, PenOk, PenOf, FrameOk, FrameOf, WithDecoder, Printed, Cancelled, Continue,
      BrokenImage, TypedAll, Glyphs, Idle;
    var e, k, s := m.env, m.ctx, m.image;
    LegalParts(e, k, s);
    IdleLegal(e, k, s, c);
    if !Cancels(k, c) {
      if k.decoder.remaining == 0 {
        IdlePrivate(e, k, s, c);
      } else {
        TailByte(k.decoder, c);
        BrokenGuide(k);
        if Continue(k.decoder, c).Broken? { IdlePrivate(e, Idle(k), BrokenImage(e, k, s, c), c); }
      }
    }
  }

  /** Within the first `n` bytes, a private sequence that started at `p` has not been left, and none has ended since. */
  ghost predicate UnderWay(ms: seq<Machine>, bytes: seq<nat>, n: nat, p: nat)
    requires Run(ms, bytes) && n <= |bytes|
  {
    && p < n && Opens(ms[p].ctx, bytes[p]) && (forall j :: p < j <= n ==> Inside(ms[j].ctx))
    && ms[n].ctx.escapeOffset > 1 && forall j :: p < j < n ==> !EndsAt(ms, bytes, j)
  }

  /** It was cancelled at `i`, and no sequence has ended since. */
  ghost predicate Cut(ms: seq<Machine>, bytes: seq<nat>, n: nat, p: nat, i: nat)
    requires Run(ms, bytes) && n <= |bytes|
  {
    && p < i < n && Opens(ms[p].ctx, bytes[p]) && (forall j :: p < j <= i ==> Inside(ms[j].ctx))
    && Cancels(ms[i].ctx, bytes[i]) && forall j :: p < j < n ==> !EndsAt(ms, bytes, j)
  }

  ghost predicate EndsAt(ms: seq<Machine>, bytes: seq<nat>, j: nat)
    requires Run(ms, bytes) && j < |bytes|
  {
    Ended(ms[j], bytes[j])
  }

  lemma RunAt(ms: seq<Machine>, bytes: seq<nat>, j: nat)
    requires Run(ms, bytes) && j < |bytes|
    ensures MachineOk(ms[j]) && bytes[j] < 0x100 && ms[j + 1] == Step(ms[j], bytes[j])
  {
    hide Step, MachineOk;
  }

  lemma TidyAt(ms: seq<Machine>, bytes: seq<nat>, j: nat)
    requires Run(ms, bytes) && Tidy(Flow(ms[0].ctx)) && j <= |bytes|
    ensures Tidy(Flow(ms[j].ctx))
  {
    hide Run, Tidy, Flow;
    RunStates(ms, bytes);
    assert bytes == bytes[..j] + bytes[j..];
    RunParts(ms, bytes[..j], bytes[j..]);
    RunTidy(ms[..j + 1], bytes[..j]);
  }

  /** A private flag goes back to a private sequence that is still under way or was cancelled. */
  lemma {:induction false} FlagCause(ms: seq<Machine>, bytes: seq<nat>, n: nat) returns (p: nat, i: nat)
    requires Run(ms, bytes) && Tidy(Flow(ms[0].ctx)) && !ms[0].ctx.decPrivate && n <= |bytes|
    requires ms[n].ctx.decPrivate
    ensures UnderWay(ms, bytes, n, p) || Cut(ms, bytes, n, p, i)
  {
    hide Run, Step, MachineOk, Tidy, Flow, Opens, Ended, Inside, Cancels;
    RunStates(ms, bytes);
    var k := n - 1;
    RunAt(ms, bytes, k);
    TidyAt(ms, bytes, k);
    StepPrivate(ms[k], bytes[k]);
    if Opens(ms[k].ctx, bytes[k]) {
      OpensInside(ms[k].ctx, bytes[k]);
      return k, 0;
    }
    p, i := FlagCause(ms, bytes, k);
    assert !EndsAt(ms, bytes, k);
    if UnderWay(ms, bytes, k, p) && Cancels(ms[k].ctx, bytes[k]) { i := k; }
  }

  lemma OpensInside(k: Context, c: nat)
    requires Opens(k, c)
    ensures Inside(k)
  {
  }

  /** The flag stays until a sequence ends. */
  lemma {:induction false} FlagStays(ms: seq<Machine>, bytes: seq<nat>, p: nat, n: nat)
    requires Run(ms, bytes) && Tidy(Flow(ms[0].ctx)) && p < n <= |bytes| && Opens(ms[p].ctx, bytes[p])
    requires forall j :: p < j < n ==> !EndsAt(ms, bytes, j)
    ensures ms[n].ctx.decPrivate
  {
    hide Run, Step, MachineOk, Tidy, Flow, Opens, Ended;
    RunStates(ms, bytes);
    var k := n - 1;
    RunAt(ms, bytes, k);
    TidyAt(ms, bytes, k);
    StepPrivate(ms[k], bytes[k]);
    if p < k {
      FlagStays(ms, bytes, p, k);
      assert !EndsAt(ms, bytes, k);
    }
  }

  /** In every run of a fresh terminal, when it comes to rest, the private flag is set exactly when some private
      sequence was cancelled and no sequence has ended since it started. */
  lemma PrivateAtRest(ms: seq<Machine>, bytes: seq<nat>)
    requires Run(ms, bytes) && ms[0].ctx == Fresh(ms[0].env.rows) && AtRest(ms[|bytes|].ctx)
    ensures ms[|bytes|].ctx.decPrivate <==> exists p, i :: Cut(ms, bytes, |bytes|, p, i)
  {
    hide Run, Step, MachineOk, Tidy, Flow, Opens, Ended, Cancels;
    RunStates(ms, bytes);
    FreshFlow(ms[0].env.rows);
    FreshPublic(ms[0].env.rows);
    if ms[|bytes|].ctx.decPrivate {
      var p, i := FlagCause(ms, bytes, |bytes|);
      assert Cut(ms, bytes, |bytes|, p, i);
    }
    if p, i :| Cut(ms, bytes, |bytes|, p, i) { FlagStays(ms, bytes, p, |bytes|); }
  }

  lemma FreshPublic(rows: nat)
    ensures !Fresh(rows).decPrivate
  {
    hide Reinitialised;
  }
}
