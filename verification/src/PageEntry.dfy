/** The 64-bit page table entry: an aligned physical address below 2^52 with flag bits around it. */
module PageEntry {
  import opened Areas

  const PAGE_SIZE: nat := 4096
  const ADDR_LIMIT: nat := 0x10_0000_0000_0000

  function Bit(f: Flag): nat {
    match f
    case PRESENT => 1
    case WRITABLE => 2
    case USER_ACCESSIBLE => 4
    case WRITE_THROUGH => 8
    case NO_CACHE => 16
    case ACCESSED => 32
    case DIRTY => 64
    case HUGE_PAGE => 128
    case GLOBAL => 256
    case NO_EXECUTE => 0x8000_0000_0000_0000
  }

  function On(fs: Flags, f: Flag): nat {
    if f in fs then 1 else 0
  }

  /** `flags.bits()`. */
  function Bits(fs: Flags): nat {
    LowBits(fs) + Bit(NO_EXECUTE) * On(fs, NO_EXECUTE)
  }

  function LowBits(fs: Flags): nat {
    On(fs, PRESENT) + 2 * On(fs, WRITABLE) + 4 * On(fs, USER_ACCESSIBLE) + 8 * On(fs, WRITE_THROUGH) +
    16 * On(fs, NO_CACHE) + 32 * On(fs, ACCESSED) + 64 * On(fs, DIRTY) + 128 * On(fs, HUGE_PAGE) + 256 * On(fs, GLOBAL)
  }

  predicate Frame(a: nat) {
    a % PAGE_SIZE == 0 && a < ADDR_LIMIT
  }

  /** `addr | flags.bits()`; the address and the flags share no bit. */
  function Encode(addr: nat, fs: Flags): (e: nat)
    requires Frame(addr)
  {
    addr + Bits(fs)
  }

  /** `entry & 0x000f_ffff_ffff_f000`. */
  function AddrOf(e: nat): nat {
    e / 4096 % 0x100_0000_0000 * 4096
  }

  /** `PageTableFlags::from_bits_truncate(entry)`. */
  function FlagsOf(e: nat): Flags {
    set f: Flag | e / Bit(f) % 2 == 1
  }

  /** The bit of each flag, by the numbers the processor gives them (section 4.5 of the Intel 64 and IA-32 Architectures
      Software Developer's Manual, volume 3A). */
  predicate Weighs(f: Flag, d: int) {
    match f
    case PRESENT => d == 0x1
    case WRITABLE => d == 0x2
    case USER_ACCESSIBLE => d == 0x4
    case WRITE_THROUGH => d == 0x8
    case NO_CACHE => d == 0x10
    case ACCESSED => d == 0x20
    case DIRTY => d == 0x40
    case HUGE_PAGE => d == 0x80
    case GLOBAL => d == 0x100
    case NO_EXECUTE => d == 0x8000_0000_0000_0000
  }

  lemma EncodeIs(addr: nat, fs: Flags)
    requires Frame(addr)
    ensures Encode(addr, fs) == addr + LowBits(fs) + 0x8000_0000_0000_0000 * On(fs, NO_EXECUTE)
  {
    hide LowBits;
  }

  predicate Raised(fs: Flags, gs: Flags, f: Flag, g: Flag) {
    On(gs, g) == On(fs, g) + if g == f then 1 else 0
  }

  lemma Raise(fs: Flags, f: Flag, g: Flag)
    requires f !in fs
    ensures Raised(fs, fs + {f}, f, g)
  {
  }

  lemma RaisedLow(fs: Flags, gs: Flags, f: Flag)
    requires forall g: Flag :: Raised(fs, gs, f, g)
    ensures f == NO_EXECUTE ==> LowBits(gs) == LowBits(fs)
    ensures f != NO_EXECUTE ==> Weighs(f, LowBits(gs) - LowBits(fs))
  {
    assert Raised(fs, gs, f, PRESENT) && Raised(fs, gs, f, WRITABLE) && Raised(fs, gs, f, USER_ACCESSIBLE);
    assert Raised(fs, gs, f, WRITE_THROUGH) && Raised(fs, gs, f, NO_CACHE) && Raised(fs, gs, f, ACCESSED);
    assert Raised(fs, gs, f, DIRTY) && Raised(fs, gs, f, HUGE_PAGE) && Raised(fs, gs, f, GLOBAL);
    hide On;
  }

  /** Adding a flag to an entry adds its bit. */
  lemma FlagBits(addr: nat, fs: Flags, f: Flag)
    requires Frame(addr) && f !in fs
    ensures Weighs(f, Encode(addr, fs + {f}) - Encode(addr, fs))
  {
    hide On, Encode, LowBits;
    var gs := fs + {f};
    forall g: Flag ensures Raised(fs, gs, f, g) { Raise(fs, f, g); }
    RaisedLow(fs, gs, f);
    EncodeIs(addr, fs);
    EncodeIs(addr, gs);
    assert Raised(fs, gs, f, NO_EXECUTE);
  }

  /** An entry without flags is the address. */
  lemma NoFlags(addr: nat)
    requires Frame(addr)
    ensures Encode(addr, {}) == addr
  {
  }

  lemma DecodeAddr(addr: nat, fs: Flags)
    requires Frame(addr)
    ensures AddrOf(Encode(addr, fs)) == addr
  {
    hide LowBits, On;
    var m, n := addr / 4096, On(fs, NO_EXECUTE);
    LowSize(fs);
    Quotient(Encode(addr, fs), 4096, m + 0x8_0000_0000_0000 * n, LowBits(fs));
    Masked(m, n);
  }

  lemma LowSize(fs: Flags)
    ensures LowBits(fs) < 512 && forall f :: On(fs, f) <= 1
  {
  }

  lemma Masked(m: nat, n: nat)
    requires m < 0x100_0000_0000 && n <= 1
    ensures (m + 0x8_0000_0000_0000 * n) % 0x100_0000_0000 == m
  {
  }

  lemma BitAt(e: nat, k: nat, high: nat, b: nat, low: nat)
    requires e == k * (2 * high + b) + low && low < k && b < 2
    ensures e / k % 2 == b
  {
    Quotient(e, k, 2 * high + b, low);
  }

  lemma Quotient(e: nat, k: nat, q: nat, low: nat)
    requires e == k * q + low && low < k
    ensures e / k == q
  {
    var d := e / k - q;
    assert k * d == low - e % k;
    assert d >= 1 ==> k * d >= k;
    assert d <= -1 ==> k * d + k <= 0;
  }

  /** The nine low bits of an entry, read back one by one. */
  lemma LowerHalf(e: nat, above: nat, p: nat, w: nat, u: nat, t: nat, n: nat)
    requires p <= 1 && w <= 1 && u <= 1 && t <= 1 && n <= 1
    requires e == 32 * above + p + 2 * w + 4 * u + 8 * t + 16 * n
    ensures e / 1 % 2 == p && e / 2 % 2 == w && e / 4 % 2 == u && e / 8 % 2 == t && e / 16 % 2 == n
  {
    BitAt(e, 1, 16 * above + w + 2 * u + 4 * t + 8 * n, p, 0);
    BitAt(e, 2, 8 * above + u + 2 * t + 4 * n, w, p);
    BitAt(e, 4, 4 * above + t + 2 * n, u, p + 2 * w);
    BitAt(e, 8, 2 * above + n, t, p + 2 * w + 4 * u);
    BitAt(e, 16, above, n, p + 2 * w + 4 * u + 8 * t);
  }

  lemma UpperHalf(e: nat, above: nat, low: nat, a: nat, d: nat, s: nat, g: nat)
    requires low < 32 && a <= 1 && d <= 1 && s <= 1 && g <= 1
    requires e == 512 * above + low + 32 * a + 64 * d + 128 * s + 256 * g
    ensures e / 32 % 2 == a && e / 64 % 2 == d && e / 128 % 2 == s && e / 256 % 2 == g
  {
    BitAt(e, 32, 8 * above + d + 2 * s + 4 * g, a, low);
    BitAt(e, 64, 4 * above + s + 2 * g, d, low + 32 * a);
    BitAt(e, 128, 2 * above + g, s, low + 32 * a + 64 * d);
    BitAt(e, 256, above, g, low + 32 * a + 64 * d + 128 * s);
  }

  /** Each flag is read back from its bit. */
  lemma DecodeFlag(addr: nat, fs: Flags, f: Flag)
    requires Frame(addr)
    ensures f in FlagsOf(Encode(addr, fs)) <==> f in fs
  {
    var above := 8 * (addr / 4096 + 0x8_0000_0000_0000 * On(fs, NO_EXECUTE));
    var e := Encode(addr, fs);
    assert e == 512 * above + LowBits(fs);
    var p, w, u, t := On(fs, PRESENT), On(fs, WRITABLE), On(fs, USER_ACCESSIBLE), On(fs, WRITE_THROUGH);
    var n, a, d, s, g := On(fs, NO_CACHE), On(fs, ACCESSED), On(fs, DIRTY), On(fs, HUGE_PAGE), On(fs, GLOBAL);
    LowerHalf(e, 16 * above + a + 2 * d + 4 * s + 8 * g, p, w, u, t, n);
    UpperHalf(e, above, p + 2 * w + 4 * u + 8 * t + 16 * n, a, d, s, g);
    if f == NO_EXECUTE { BitAt(e, 0x8000_0000_0000_0000, 0, On(fs, NO_EXECUTE), addr + LowBits(fs)); }
  }

  lemma Decode(addr: nat, fs: Flags)
    requires Frame(addr)
    ensures AddrOf(Encode(addr, fs)) == addr && FlagsOf(Encode(addr, fs)) == fs
    ensures Encode(addr, fs) == 0 ==> fs == {}
  {
    hide Encode, AddrOf, FlagsOf;
    DecodeAddr(addr, fs);
    forall f: Flag ensures f in FlagsOf(Encode(addr, fs)) <==> f in fs { DecodeFlag(addr, fs, f); }
    Unused();
  }

  lemma Unused()
    ensures AddrOf(0) == 0 && FlagsOf(0) == {}
  {
  }
}
