/** The incremental UTF-8 decoder of the terminal, against the encoding of section 4 of RFC 3629. */
module Utf8 {
  import opened Options

  /** Continuation bytes still to come, and the bits of the code point collected so far. */
  datatype Decoder = Decoder(remaining: nat, codePoint: nat)

  datatype Outcome = More(next: Decoder) | Done(scalar: nat) | Broken

  /** The weight of the lowest bit collected so far. */
  function Weight(remaining: nat): nat {
    if remaining == 0 then 1 else if remaining == 1 then 0x40 else if remaining == 2 then 0x1000 else 0x4_0000
  }

  /** The bits still to come are zero, so or-ing them in is adding them. */
  predicate Collecting(d: Decoder) {
    1 <= d.remaining <= 3 && d.codePoint % Weight(d.remaining) == 0 && d.codePoint < 0x20_0000
  }

  function Lead(c: nat): (r: Option<Decoder>)
    ensures r.Some? <==> 0xC2 <= c <= 0xF4
    ensures r.Some? ==> Collecting(r.value)
  {
    if !(0xC2 <= c <= 0xF4) then None
    else if c <= 0xDF then Some(Decoder(1, c % 0x20 * 0x40))
    else if c <= 0xEF then Some(Decoder(2, c % 0x10 * 0x1000))
    else Some(Decoder(3, c % 0x08 * 0x4_0000))
  }

  function Continue(d: Decoder, c: nat): (r: Outcome)
    requires 1 <= d.remaining <= 3
  {
    if c / 0x40 != 2 then Broken
    else
      var rem := d.remaining - 1;
      var cp := d.codePoint + c % 0x40 * Weight(rem);
      if rem == 1 && cp < 0x800 then Broken
      else if rem == 2 && cp < 0x1_0000 then Broken
      else if rem == 2 && cp > 0x10_FFFF then Broken
      else if rem != 0 then More(Decoder(rem, cp))
      else if 0xD800 <= cp <= 0xDFFF then Broken
      else Done(cp)
  }

  lemma ContinueCollects(d: Decoder, c: nat)
    requires Collecting(d)
    ensures Continue(d, c).More? ==> Collecting(Continue(d, c).next) && Continue(d, c).next.remaining == d.remaining - 1
  {
    var k := c % 0x40;
    if d.remaining == 3 {
      var m := d.codePoint / 0x4_0000;
      assert d.codePoint + k * 0x1000 == (m * 0x40 + k) * 0x1000;
    } else if d.remaining == 2 {
      var m := d.codePoint / 0x1000;
      assert d.codePoint + k * 0x40 == (m * 0x40 + k) * 0x40;
    }
  }

  /** The scalar a sequence of bytes is taken for, if it is taken as a whole. */
  function Feed(d: Decoder, bytes: seq<nat>): Option<nat>
    requires 1 <= d.remaining <= 3
    decreases |bytes|
  {
    if bytes == [] then None
    else
      match Continue(d, bytes[0])
      case Broken => None
      case Done(cp) => if |bytes| == 1 then Some(cp) else None
      case More(n) => if 1 <= n.remaining <= 3 then Feed(n, bytes[1..]) else None
  }

  function Decoded(bytes: seq<nat>): Option<nat> {
    if bytes == [] || Lead(bytes[0]).None? then None else Feed(Lead(bytes[0]).value, bytes[1..])
  }

  predicate Scalar(cp: nat) {
    cp <= 0x10_FFFF && !(0xD800 <= cp <= 0xDFFF)
  }

  function Tail(v: nat): nat {
    0x80 + v % 0x40
  }

  /** The encoding of a scalar above the ASCII range. */
  function Encoded(cp: nat): seq<nat> {
    if cp < 0x800 then [0xC0 + cp / 0x40, Tail(cp)]
    else if cp < 0x1_0000 then [0xE0 + cp / 0x1000, Tail(cp / 0x40), Tail(cp)]
    else [0xF0 + cp / 0x4_0000, Tail(cp / 0x1000), Tail(cp / 0x40), Tail(cp)]
  }

  predicate Bytes(s: seq<nat>) {
    forall i :: 0 <= i < |s| ==> s[i] < 0x100
  }

  /** Base 64 digits. */
  lemma Digits(x: nat, y: nat)
    requires y < 0x40
    ensures (x * 0x40 + y) / 0x40 == x && (x * 0x40 + y) % 0x40 == y
  {
  }

  lemma Blocks(h: nat, r: nat)
    requires r < 0x1000
    ensures h * 0x1000 + r < 0x1_0000 <==> h * 0x1000 < 0x1_0000
    ensures h * 0x1000 + r > 0x10_FFFF <==> h * 0x1000 > 0x10_FFFF
  {
  }

  lemma TwoBytes(a: nat, b: nat)
    requires 0xC2 <= a <= 0xDF && b < 0x100
    ensures var cp := (a - 0xC0) * 0x40 + b % 0x40;
      && (Decoded([a, b]) == if b / 0x40 == 2 then Some(cp) else None)
      && 0x80 <= cp < 0x800 && (b / 0x40 == 2 ==> Encoded(cp) == [a, b])
  {
    assert [a, b][1..] == [b];
  }

  lemma FeedOne(cp: nat, c: nat)
    ensures var r := cp + c % 0x40;
      Feed(Decoder(1, cp), [c]) == if c / 0x40 == 2 && !(0xD800 <= r <= 0xDFFF) then Some(r) else None
  {
  }

  lemma FeedTwo(cp: nat, b: nat, c: nat)
    ensures var q := cp + b % 0x40 * 0x40;
      Feed(Decoder(2, cp), [b, c]) == if b / 0x40 == 2 && q >= 0x800 then Feed(Decoder(1, q), [c]) else None
  {
    assert [b, c][1..] == [c];
  }

  lemma FeedThree(cp: nat, b: nat, c: nat, e: nat)
    ensures var q := cp + b % 0x40 * 0x1000;
      Feed(Decoder(3, cp), [b, c, e]) == if b / 0x40 == 2 && 0x1_0000 <= q <= 0x10_FFFF
        then Feed(Decoder(2, q), [c, e]) else None
  {
    assert [b, c, e][1..] == [c, e];
  }

  lemma ThreeBytes(a: nat, b: nat, c: nat)
    requires 0xE0 <= a <= 0xEF && b < 0x100 && c < 0x100
    ensures var cp := (a - 0xE0) * 0x1000 + b % 0x40 * 0x40 + c % 0x40;
      && (Decoded([a, b, c]) == if b / 0x40 == 2 && c / 0x40 == 2 && 0x800 <= cp && Scalar(cp) then Some(cp) else None)
      && cp < 0x1_0000 && (b / 0x40 == 2 && c / 0x40 == 2 && 0x800 <= cp ==> Encoded(cp) == [a, b, c])
  {
    hide Feed, Continue;
    assert [a, b, c][1..] == [b, c];
    var x, y, z := a - 0xE0, b % 0x40, c % 0x40;
    assert Lead(a) == Some(Decoder(2, x * 0x1000));
    FeedTwo(x * 0x1000, b, c);
    FeedOne(x * 0x1000 + y * 0x40, c);
    Digits(x, y);
    Digits(x * 0x40 + y, z);
    assert x * 0x1000 + y * 0x40 + z == (x * 0x40 + y) * 0x40 + z;
    assert ((x * 0x40 + y) * 0x40 + z) / 0x1000 == x;
  }

  lemma FourBytes(a: nat, b: nat, c: nat, e: nat)
    requires 0xF0 <= a <= 0xF4 && b < 0x100 && c < 0x100 && e < 0x100
    ensures var cp := (a - 0xF0) * 0x4_0000 + b % 0x40 * 0x1000 + c % 0x40 * 0x40 + e % 0x40;
      var ok := b / 0x40 == 2 && c / 0x40 == 2 && e / 0x40 == 2 && 0x1_0000 <= cp && Scalar(cp);
      && (Decoded([a, b, c, e]) == if ok then Some(cp) else None)
      && (ok ==> Encoded(cp) == [a, b, c, e])
  {
    hide Feed, Continue;
    assert [a, b, c, e][1..] == [b, c, e];
    var w, x, y, z := a - 0xF0, b % 0x40, c % 0x40, e % 0x40;
    assert Lead(a) == Some(Decoder(3, w * 0x4_0000));
    FeedThree(w * 0x4_0000, b, c, e);
    FeedTwo(w * 0x4_0000 + x * 0x1000, c, e);
    FeedOne(w * 0x4_0000 + x * 0x1000 + y * 0x40, e);
    var h := w * 0x40 + x;
    var cp := (h * 0x40 + y) * 0x40 + z;
    assert w * 0x4_0000 + x * 0x1000 + y * 0x40 + z == cp;
    Digits(w, x);
    Digits(h, y);
    Digits(h * 0x40 + y, z);
    assert cp / 0x1000 == h && cp / 0x4_0000 == w;
    Blocks(h, y * 0x40 + z);
  }

  /** The decoder takes exactly the encodings of scalars above the ASCII range, each for its scalar. */
  lemma DecodesExactly(bytes: seq<nat>, cp: nat)
    requires Bytes(bytes)
    ensures Decoded(bytes) == Some(cp) <==> 0x80 <= cp && Scalar(cp) && bytes == Encoded(cp)
  {
    hide Feed, Continue, Lead;
    if 0x80 <= cp && Scalar(cp) { EncodedDecodes(cp); }
    if Decoded(bytes) == Some(cp) { DecodedEncodes(bytes, cp); }
  }

  lemma TailFacts(v: nat)
    ensures Tail(v) < 0x100 && Tail(v) / 0x40 == 2 && Tail(v) % 0x40 == v % 0x40
  {
  }

  lemma Recompose(cp: nat)
    ensures cp == cp / 0x40 * 0x40 + cp % 0x40
    ensures cp == cp / 0x1000 * 0x1000 + cp / 0x40 % 0x40 * 0x40 + cp % 0x40
    ensures cp == cp / 0x4_0000 * 0x4_0000 + cp / 0x1000 % 0x40 * 0x1000 + cp / 0x40 % 0x40 * 0x40 + cp % 0x40
  {
    var a := cp / 0x40;
    var b := a / 0x40;
    assert cp / 0x1000 == b && cp / 0x4_0000 == b / 0x40;
  }

  lemma EncodedDecodes(cp: nat)
    requires 0x80 <= cp && Scalar(cp)
    ensures Decoded(Encoded(cp)) == Some(cp)
  {
    hide Decoded, Tail;
    TailFacts(cp);
    TailFacts(cp / 0x40);
    TailFacts(cp / 0x1000);
    Recompose(cp);
    if cp < 0x800 {
      TwoBytes(0xC0 + cp / 0x40, Tail(cp));
    } else if cp < 0x1_0000 {
      ThreeBytes(0xE0 + cp / 0x1000, Tail(cp / 0x40), Tail(cp));
    } else {
      FourBytes(0xF0 + cp / 0x4_0000, Tail(cp / 0x1000), Tail(cp / 0x40), Tail(cp));
    }
  }

  /** A decoder with `remaining` bytes to come takes that many. */
  lemma {:induction false} FeedLength(d: Decoder, bytes: seq<nat>)
    requires 1 <= d.remaining <= 3 && Feed(d, bytes).Some?
    ensures |bytes| == d.remaining
    decreases |bytes|
  {
    match Continue(d, bytes[0])
    case Broken =>
    case Done(cp) =>
    case More(n) => FeedLength(n, bytes[1..]);
  }

  lemma DecodedEncodes(bytes: seq<nat>, cp: nat)
    requires Bytes(bytes) && Decoded(bytes) == Some(cp)
    ensures 0x80 <= cp && Scalar(cp) && bytes == Encoded(cp)
  {
    var a := bytes[0];
    FeedLength(Lead(a).value, bytes[1..]);
    hide Decoded, Feed, Encoded;
    if a <= 0xDF {
      assert bytes == [a, bytes[1]];
      TwoBytes(a, bytes[1]);
    } else if a <= 0xEF {
      assert bytes == [a, bytes[1], bytes[2]];
      ThreeBytes(a, bytes[1], bytes[2]);
    } else {
      assert bytes == [a, bytes[1], bytes[2], bytes[3]];
      FourBytes(a, bytes[1], bytes[2], bytes[3]);
    }
  }
}
