/** Whole runs of the terminal: text, control sequences, and saving and restoring. */
module TerminalRuns {
  import opened Options
  import opened Sgr
  import opened TerminalContext
  import opened TerminalImage
  import opened TerminalSteps
  import opened Utf8

  lemma RunParts(ms: seq<Machine>, a: seq<nat>, b: seq<nat>)
    requires Run(ms, a + b)
    ensures Run(ms[..|a| + 1], a) && Run(ms[|a|..], b)
  {
    hide Step, MachineOk;
    var n := |a|;
    forall i | 0 <= i < n ensures a[i] < 0x100 && ms[i + 1] == Step(ms[i], a[i]) { assert (a + b)[i] == a[i]; }
    forall i | 0 <= i < |b| ensures b[i] < 0x100 && ms[n + i + 1] == Step(ms[n + i], b[i]) {
      assert (a + b)[n + i] == b[i];
    }
  }

  lemma RunOne(ms: seq<Machine>, c: nat)
    requires Run(ms, [c])
    ensures |ms| == 2 && MachineOk(ms[0]) && c < 0x100 && ms[1] == Step(ms[0], c)
  {
    hide Step, MachineOk;
    assert [c][0] == c;
  }

  /** The bytes and the first state determine the run. */
  lemma {:induction false} RunUnique(ms: seq<Machine>, ns: seq<Machine>, bytes: seq<nat>)
    requires Run(ms, bytes) && Run(ns, bytes) && ms[0] == ns[0]
    ensures ms == ns
  {
    hide Step, MachineOk, Run;
    RunStates(ms, bytes);
    RunStates(ns, bytes);
    var n := |bytes| - 1;
    if n >= 0 {
      assert bytes == bytes[..n] + [bytes[n]];
      RunParts(ms, bytes[..n], [bytes[n]]);
      RunParts(ns, bytes[..n], [bytes[n]]);
      RunUnique(ms[..n + 1], ns[..n + 1], bytes[..n]);
      RunOne(ms[n..], bytes[n]);
      RunOne(ns[n..], bytes[n]);
      assert ms[n] == ms[..n + 1][n] == ns[..n + 1][n] == ns[n];
      assert ms == ms[..n + 1] + [ms[n + 1]] && ns == ns[..n + 1] + [ns[n + 1]];
    }
  }

  lemma RunStates(ms: seq<Machine>, bytes: seq<nat>)
    requires Run(ms, bytes)
    ensures |ms| == |bytes| + 1 && MachineOk(ms[0]) && MachineOk(ms[|bytes|])
  {
    hide Step, MachineOk;
  }

  /** Outside all escape sequences. */
  predicate Calm(k: Context) {
    !k.escape && !k.discardNext && !k.controlSequence && !k.osc
  }

  /** Between sequences. */
  predicate AtRest(k: Context) {
    k.decoder.remaining == 0 && Calm(k)
  }

  /** Ready for text, except that a multi-byte sequence may be under way. */
  predicate Textual(k: Context) {
    && Calm(k) && k.gSelect == 0 && !k.insertMode
    && k.currentCharset < |k.charsets| && k.charsets[k.currentCharset] == CHARSET_DEFAULT
  }

  /** Where printable bytes are typed as they are. */
  predicate Typing(k: Context) {
    Textual(k) && k.decoder.remaining == 0
  }

  lemma PlainStep(m: Machine, c: nat)
    requires MachineOk(m) && Typing(m.ctx) && 0x20 <= c <= 0x7E
    ensures PenOk(m.env, PenOf(m.ctx)) && Fits(m.env, m.image)
    ensures Step(m, c) ==
      Machine(m.env, Printed(Quiet(m.ctx, c), c), Typed(m.env, PenOf(m.ctx), m.image, c))
  {
    hide ContextOk, Typed, Fits, EnvOk, Params, AttributesOk, Printed, Collecting, EscapeContext, EscapeImage;
    LegalParts(m.env, m.ctx, m.image);
    QuietKeeps(m.ctx, c);
  }

  lemma QuietText(k: Context, c: nat)
    requires Textual(k)
    ensures Textual(Quiet(k, c))
  {
  }

  lemma PrintedKeeps(k: Context, c: nat, g: nat)
    requires Typing(k)
    ensures Typing(Printed(Quiet(k, c), g)) && PenOf(Printed(Quiet(k, c), g)) == PenOf(k)
  {
    hide Printed, Quiet;
    QuietKeeps(k, c);
    QuietText(k, c);
    PrintedStill(Quiet(k, c), g);
  }

  lemma LeadStep(m: Machine, c: nat)
    requires MachineOk(m) && AtRest(m.ctx) && 0xC2 <= c <= 0xF4
    ensures Step(m, c) == Machine(m.env, WithSelect(WithDecoder(m.ctx, Lead(c).value), 0), m.image)
  {
    hide ContextOk, Fits, EnvOk, Params, AttributesOk, Collecting, EscapeContext, EscapeImage, PenOf, Lead,
      WithDecoder, WithSelect;
    LegalParts(m.env, m.ctx, m.image);
  }

  lemma MoreStep(m: Machine, c: nat)
    requires MachineOk(m) && m.ctx.decoder.remaining != 0 && !m.ctx.discardNext && c < 0x100
    ensures 1 <= m.ctx.decoder.remaining <= 3
    ensures PenOk(m.env, PenOf(m.ctx)) && Fits(m.env, m.image)
    ensures var o := Continue(m.ctx.decoder, c);
      && (o.More? ==> Step(m, c) == Machine(m.env, WithDecoder(m.ctx, o.next), m.image))
      && (o.Done? ==>
            Step(m, c) ==
              Machine(m.env, ShownContext(m.env, WithDecoder(m.ctx, Decoder(0, o.scalar)), o.scalar),
                      TypedAll(m.env, PenOf(m.ctx), m.image, Glyphs(m.env, o.scalar))))
  {
    hide ContextOk, Fits, EnvOk, Params, AttributesOk, Collecting, PenOf, Continue, WithDecoder, ShownContext, TypedAll,
      Glyphs, IdleContext, IdleImage, BrokenImage, Idle;
    LegalParts(m.env, m.ctx, m.image);
    CollectingSize(m.ctx.decoder);
    TailByte(m.ctx.decoder, c);
  }

  lemma CollectingSize(d: Decoder)
    ensures Collecting(d) ==> 1 <= d.remaining <= 3
  {
  }

  /** Continuation bytes neither cancel nor save. */
  lemma TailByte(d: Decoder, c: nat)
    ensures 1 <= d.remaining <= 3 && !Continue(d, c).Broken? ==> c / 0x40 == 2
    ensures c / 0x40 == 2 ==> c != 55 && c != 99 && c != 0x18 && c != 0x1A
  {
  }

  lemma DecoderKeeps(k: Context, d: Decoder)
    ensures PenOf(WithDecoder(k, d)) == PenOf(k) && WithDecoder(k, d).decoder == d
    ensures Textual(WithDecoder(k, d)) == Textual(k)
  {
  }

  lemma SelectKeeps(k: Context)
    ensures PenOf(WithSelect(k, 0)) == PenOf(k) && WithSelect(k, 0).decoder == k.decoder
    ensures Textual(k) ==> Textual(WithSelect(k, 0))
  {
  }

  lemma ShownKeeps(e: Env, k: Context, cp: nat)
    ensures var l := ShownContext(e, k, cp);
      PenOf(l) == PenOf(k) && l.decoder == k.decoder && (Textual(k) ==> Textual(l))
  {
    hide Textual, Printed, PenOf;
    PrintedStill(k, e.glyphOf(cp) % 0x100);
    PrintedStill(k, REPLACEMENT);
  }

  lemma PrintedStill(k: Context, g: nat)
    ensures PenOf(Printed(k, g)) == PenOf(k) && Printed(k, g).decoder == k.decoder
    ensures Textual(k) ==> Textual(Printed(k, g))
  {
  }

  /** The rest of a multi-byte sequence prints its scalar. */
  lemma {:induction false} FeedRun(ms: seq<Machine>, bytes: seq<nat>, cp: nat)
    requires Run(ms, bytes) && Textual(ms[0].ctx) && 1 <= ms[0].ctx.decoder.remaining <= 3
    requires Feed(ms[0].ctx.decoder, bytes) == Some(cp)
    ensures PenOk(ms[0].env, PenOf(ms[0].ctx)) && Fits(ms[0].env, ms[0].image)
    ensures var m, n := ms[0], ms[|bytes|];
      && n.env == m.env && n.image == TypedAll(m.env, PenOf(m.ctx), m.image, Glyphs(m.env, cp))
      && Typing(n.ctx) && PenOf(n.ctx) == PenOf(m.ctx)
    decreases |bytes|
  {
    hide Step, MachineOk, Run, PenOf, Fits, PenOk, Glyphs, TypedAll, Textual, WithDecoder, ShownContext, Continue;
    RunStates(ms, bytes);
    var c, rest := bytes[0], bytes[1..];
    assert bytes == [c] + rest;
    RunParts(ms, [c], rest);
    RunOne(ms[..2], c);
    CalmText(ms[0].ctx);
    MoreStep(ms[0], c);
    match Continue(ms[0].ctx.decoder, c)
    case More(next) =>
      DecoderKeeps(ms[0].ctx, next);
      FeedRun(ms[1..], rest, cp);
    case Done(x) =>
      DecoderKeeps(ms[0].ctx, Decoder(0, x));
      ShownKeeps(ms[0].env, WithDecoder(ms[0].ctx, Decoder(0, x)), x);
    case Broken =>
  }

  lemma CalmText(k: Context)
    ensures Textual(k) ==> !k.discardNext && (k.decoder.remaining == 0 ==> AtRest(k))
  {
  }

  /** The UTF-8 form of a scalar (section 3 of RFC 3629). */
  function Utf(cp: nat): seq<nat> {
    if cp < 0x80 then [cp] else Encoded(cp)
  }

  /** Scalars that stand for text. */
  predicate Prints(cp: nat) {
    0x20 <= cp <= 0x7E || (0x80 <= cp && Scalar(cp))
  }

  function TextBytes(text: seq<nat>): seq<nat> {
    if text == [] then [] else TextBytes(text[..|text| - 1]) + Utf(text[|text| - 1])
  }

  /** The characters of the code page that stand for a text. */
  function TextGlyphs(e: Env, text: seq<nat>): seq<nat> {
    if text == [] then []
    else
      var cp := text[|text| - 1];
      TextGlyphs(e, text[..|text| - 1]) + if cp < 0x80 then [cp] else Glyphs(e, cp)
  }

  lemma {:induction false} TypedParts(e: Env, p: Pen, s: Image, a: seq<nat>, b: seq<nat>)
    requires PenOk(e, p) && Fits(e, s)
    ensures TypedAll(e, p, s, a + b) == TypedAll(e, p, TypedAll(e, p, s, a), b)
  {
    hide Typed, PenOk, Fits;
    var n := |b| - 1;
    if n < 0 {
      assert a + b == a;
    } else {
      TypedParts(e, p, s, a, b[..n]);
      assert (a + b)[..|a + b| - 1] == a + b[..n];
    }
  }

  lemma TypedSingle(e: Env, p: Pen, s: Image, c: nat)
    requires PenOk(e, p) && Fits(e, s)
    ensures TypedAll(e, p, s, [c]) == Typed(e, p, s, c)
  {
    hide Typed, PenOk, Fits;
    assert [c][..0] == [];
  }

  /** One scalar of a text. */
  lemma ScalarRun(ms: seq<Machine>, cp: nat)
    requires Run(ms, Utf(cp)) && Prints(cp) && Typing(ms[0].ctx)
    ensures PenOk(ms[0].env, PenOf(ms[0].ctx)) && Fits(ms[0].env, ms[0].image)
    ensures var m, n := ms[0], ms[|Utf(cp)|];
      && n.env == m.env && Typing(n.ctx) && PenOf(n.ctx) == PenOf(m.ctx)
      && n.image == TypedAll(m.env, PenOf(m.ctx), m.image, if cp < 0x80 then [cp] else Glyphs(m.env, cp))
  {
    hide Step, MachineOk, Run, PenOf, Fits, PenOk, Glyphs, TypedAll, Textual, WithDecoder, WithSelect, Printed, Quiet,
      Encoded, Typed, Lead, Feed;
    RunStates(ms, Utf(cp));
    var m := ms[0];
    CalmText(m.ctx);
    if cp < 0x80 {
      RunOne(ms, cp);
      PlainStep(m, cp);
      PrintedKeeps(m.ctx, cp, cp);
      TypedSingle(m.env, PenOf(m.ctx), m.image, cp);
    } else {
      var bytes := Encoded(cp);
      EncodedBytes(cp);
      DecodesExactly(bytes, cp);
      var c, rest := bytes[0], bytes[1..];
      assert bytes == [c] + rest;
      RunParts(ms, [c], rest);
      RunOne(ms[..2], c);
      LeadStep(m, c);
      DecoderKeeps(m.ctx, Lead(c).value);
      SelectKeeps(WithDecoder(m.ctx, Lead(c).value));
      FeedRun(ms[1..], rest, cp);
    }
  }

  lemma EncodedBytes(cp: nat)
    requires 0x80 <= cp && Scalar(cp)
    ensures Bytes(Encoded(cp))
  {
  }

  /** A text in UTF-8 is typed as its glyphs, in order, and nothing else happens. */
  lemma {:induction false} TextRun(ms: seq<Machine>, text: seq<nat>)
    requires Run(ms, TextBytes(text)) && Typing(ms[0].ctx) && forall i :: 0 <= i < |text| ==> Prints(text[i])
    ensures PenOk(ms[0].env, PenOf(ms[0].ctx)) && Fits(ms[0].env, ms[0].image)
    ensures var m, n := ms[0], ms[|TextBytes(text)|];
      && n.env == m.env && Typing(n.ctx) && PenOf(n.ctx) == PenOf(m.ctx)
      && n.image == TypedAll(m.env, PenOf(m.ctx), m.image, TextGlyphs(m.env, text))
    decreases |text|
  {
    hide Step, MachineOk, Run, PenOf, Fits, PenOk, Glyphs, TypedAll, Textual, Utf, Typing, Prints;
    RunStates(ms, TextBytes(text));
    var m, n := ms[0], |text| - 1;
    LegalMachine(m);
    if n < 0 {
      NothingTyped(m.env, PenOf(m.ctx), m.image);
    } else {
      var front := TextBytes(text[..n]);
      RunParts(ms, front, Utf(text[n]));
      TextRun(ms[..|front| + 1], text[..n]);
      ScalarRun(ms[|front|..], text[n]);
      TypedParts(m.env, PenOf(m.ctx), m.image, TextGlyphs(m.env, text[..n]),
                 if text[n] < 0x80 then [text[n]] else Glyphs(m.env, text[n]));
    }
  }

  lemma LegalMachine(m: Machine)
    requires MachineOk(m)
    ensures PenOk(m.env, PenOf(m.ctx)) && Fits(m.env, m.image)
  {
    hide ContextOk, Fits;
    LegalParts(m.env, m.ctx, m.image);
  }

  lemma NothingTyped(e: Env, p: Pen, s: Image)
    requires PenOk(e, p) && Fits(e, s)
    ensures TypedAll(e, p, s, []) == s
  {
  }

  lemma EscapeStep(m: Machine)
    requires MachineOk(m) && AtRest(m.ctx)
    ensures Step(m, ESC) == Machine(m.env, Escaping(Quiet(m.ctx, ESC), 0, true), m.image)
  {
    hide ContextOk, Fits, EnvOk, Params, AttributesOk, Collecting, EscapeContext, EscapeImage, PenOf, Quiet, Escaping,
      PrintsAs;
    LegalParts(m.env, m.ctx, m.image);
    QuietSets(m.ctx, ESC, m.env.rows);
  }

  lemma QuietSets(k: Context, c: nat, rows: nat)
    requires ContextOk(k, rows)
    ensures CharsetsOk(Quiet(k, c).charsets, Quiet(k, c).currentCharset)
  {
    hide Collecting, Params, AttributesOk;
  }

  /** After an escape character. */
  predicate Escaped(k: Context) {
    k.decoder.remaining == 0 && k.escape && !k.discardNext && !k.osc
  }

  lemma AfterEscape(m: Machine, c: nat)
    requires MachineOk(m) && Escaped(m.ctx) && c < 0x80 && c != 0x18 && c != 0x1A
    ensures var l := AtOffset(m.ctx, m.ctx.escapeOffset + 1);
      && FrameOk(m.env, FrameOf(m.ctx)) && FrameOk(m.env, FrameOf(l)) && Fits(m.env, m.image)
      && Step(m, c).ctx == (if m.ctx.controlSequence then SequenceContext(m.env, l, m.image, c)
           else SimpleContext(m.env.rows, l, c))
      && Step(m, c).image == (if m.ctx.controlSequence
           then SequenceImage(m.env, FrameOf(m.ctx), m.ctx.escapeOffset + 1, m.image, c)
           else SimpleImage(m.env, PenOf(m.ctx), m.image, c))
      && Step(m, c).env == if c == 55 && !m.ctx.controlSequence then Marked(m.env, m.image) else m.env
  {
    hide ContextOk, Fits, EnvOk, PenOk, Params, AttributesOk, Collecting, PenOf, SequenceContext, SequenceImage,
      SimpleContext, Marked, FrameOk, FrameOf;
    LegalParts(m.env, m.ctx, m.image);
    OffsetFrame(m.ctx, m.ctx.escapeOffset + 1);
    OffsetKeeps(m.ctx, m.ctx.escapeOffset + 1);
  }

  lemma OffsetKeeps(k: Context, n: nat)
    ensures AtOffset(k, n).controlSequence == k.controlSequence
  {
  }
}
