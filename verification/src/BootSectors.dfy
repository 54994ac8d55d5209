/** Boot sectors as they are written, byte by byte, and what mounting makes of them. */
module BootSectors {
  import opened Basics
  import opened FatDevice
  import opened FatGeometry
  import opened Options

  /** The `k`th byte of a little-endian number. */
  function Octet(v: nat, k: nat): (r: nat)
    ensures r < 0x100
  {
    if k == 0 then v % 0x100
    else if k == 1 then v / 0x100 % 0x100
    else if k == 2 then v / 0x1_0000 % 0x100
    else v / 0x100_0000 % 0x100
  }

  /** Which of the two counts of sectors stand in their 32-bit field, their 16-bit field being zero. FAT32 uses the wide
      form for both. */
  datatype Form = Form(total: bool, table: bool)

  /** Byte `i` of a boot sector for this layout. Bytes that mean nothing in this form are taken from `rest`. */
  function BootByte(b: Bpb, wide: Form, rest: seq<nat>, i: nat): nat
    requires |rest| == 512 && i < 512
  {
    match i
    case 11 => Octet(b.bytesPerSector, 0)
    case 12 => Octet(b.bytesPerSector, 1)
    case 13 => b.sectorsPerCluster
    case 14 => Octet(b.reservedSectors, 0)
    case 15 => Octet(b.reservedSectors, 1)
    case 16 => b.numFats
    case 17 => Octet(b.rootEntryCount, 0)
    case 18 => Octet(b.rootEntryCount, 1)
    case 19 => if wide.total then 0 else Octet(b.totalSectors, 0)
    case 20 => if wide.total then 0 else Octet(b.totalSectors, 1)
    case 22 => if wide.table then 0 else Octet(b.fatSizeSectors, 0)
    case 23 => if wide.table then 0 else Octet(b.fatSizeSectors, 1)
    case 32 => if wide.total then Octet(b.totalSectors, 0) else rest[32]
    case 33 => if wide.total then Octet(b.totalSectors, 1) else rest[33]
    case 34 => if wide.total then Octet(b.totalSectors, 2) else rest[34]
    case 35 => if wide.total then Octet(b.totalSectors, 3) else rest[35]
    case 36 => if wide.table then Octet(b.fatSizeSectors, 0) else rest[36]
    case 37 => if wide.table then Octet(b.fatSizeSectors, 1) else rest[37]
    case 38 => if wide.table then Octet(b.fatSizeSectors, 2) else rest[38]
    case 39 => if wide.table then Octet(b.fatSizeSectors, 3) else rest[39]
    case 44 => Octet(b.rootCluster, 0)
    case 45 => Octet(b.rootCluster, 1)
    case 46 => Octet(b.rootCluster, 2)
    case 47 => Octet(b.rootCluster, 3)
    case _ => rest[i]
  }

  function BootSector(b: Bpb, wide: Form, rest: seq<nat>): (r: seq<nat>)
    requires |rest| == 512
    ensures |r| == 512
  {
    seq(512, i requires 0 <= i < 512 => BootByte(b, wide, rest, i))
  }

  lemma HalfOf(v: nat)
    requires v < 0x1_0000
    ensures Octet(v, 0) + 0x100 * Octet(v, 1) == v
  {
  }

  lemma WordOf(v: nat)
    requires v < U32
    ensures Octet(v, 0) + 0x100 * Octet(v, 1) + 0x1_0000 * Octet(v, 2) + 0x100_0000 * Octet(v, 3) == v
  {
    WordRoundTrip(v);
  }

  /** Four bytes of a sector as a word. */
  lemma WordAt(b: seq<nat>, i: nat)
    requires i + 4 <= |b|
    ensures Word(b[i..i + 4]) == b[i] + 0x100 * b[i + 1] + 0x1_0000 * b[i + 2] + 0x100_0000 * b[i + 3]
  {
  }

  /** The 16-bit fields in use can hold their counts. */
  predicate Holds(b: Bpb, wide: Form) {
    (wide.total || 0 < b.totalSectors < 0x1_0000) && (wide.table || b.fatSizeSectors < 0x1_0000)
  }

  lemma SectorHalves(b: Bpb, wide: Form, rest: seq<nat>)
    requires Parsed(b) && |rest| == 512 && Holds(b, wide)
    ensures var s := BootSector(b, wide, rest);
      && Half(s, 11) == b.bytesPerSector && s[13] == b.sectorsPerCluster && Half(s, 14) == b.reservedSectors
      && s[16] == b.numFats && Half(s, 17) == b.rootEntryCount
      && Half(s, 19) == (if wide.total then 0 else b.totalSectors)
      && Half(s, 22) == if wide.table then 0 else b.fatSizeSectors
  {
    hide Octet;
    HalfOf(b.bytesPerSector);
    HalfOf(b.reservedSectors);
    HalfOf(b.rootEntryCount);
    if !wide.total {
      HalfOf(b.totalSectors);
    }
    if !wide.table {
      HalfOf(b.fatSizeSectors);
    }
  }

  lemma SectorWords(b: Bpb, wide: Form, rest: seq<nat>)
    requires Parsed(b) && |rest| == 512 && b.rootCluster < U32
    ensures var s := BootSector(b, wide, rest);
      && (wide.total ==> Word(s[32..36]) == b.totalSectors) && (wide.table ==> Word(s[36..40]) == b.fatSizeSectors)
      && Word(s[44..48]) == b.rootCluster
  {
    hide Octet, Word;
    var s := BootSector(b, wide, rest);
    WordAt(s, 32);
    WordAt(s, 36);
    WordAt(s, 44);
    WordOf(b.totalSectors);
    WordOf(b.fatSizeSectors);
    WordOf(b.rootCluster);
  }

  /** Every layout comes back from its boot sector, whatever the other bytes are. */
  lemma BootRoundTrip(b: Bpb, wide: Form, rest: seq<nat>)
    requires Parsed(b) && b.rootCluster < U32 && |rest| == 512 && Holds(b, wide)
    ensures ParseBpb(BootSector(b, wide, rest)) == Some(b)
  {
    hide Word, Half, BootSector;
    SectorHalves(b, wide, rest);
    SectorWords(b, wide, rest);
  }

  lemma OctetsOfHalf(x: nat, y: nat)
    requires x < 0x100 && y < 0x100
    ensures Octet(x + 0x100 * y, 0) == x && Octet(x + 0x100 * y, 1) == y
  {
  }

  lemma OctetsOfWord(b: seq<nat>, i: nat)
    requires i + 4 <= |b| && Octets(b)
    ensures var w := Word(b[i..i + 4]);
      Octet(w, 0) == b[i] && Octet(w, 1) == b[i + 1] && Octet(w, 2) == b[i + 2] && Octet(w, 3) == b[i + 3]
  {
    var x, y, z, u := b[i], b[i + 1], b[i + 2], b[i + 3];
    var w := x + 0x100 * y + 0x1_0000 * z + 0x100_0000 * u;
    assert Word(b[i..i + 4]) == w by {
      WordAt(b, i);
    }
    assert w / 0x100 == y + 0x100 * z + 0x1_0000 * u;
    assert w / 0x1_0000 == z + 0x100 * u;
    assert w / 0x100_0000 == u;
  }

  /** Every sector that is accepted was written this way: no field of it is read from elsewhere. */
  lemma BootCovers(s: seq<nat>)
    requires |s| == 512 && Octets(s) && ParseBpb(s).Some?
    ensures s == BootSector(ParseBpb(s).value, Form(s[19] == 0 && s[20] == 0, s[22] == 0 && s[23] == 0), s)
  {
    hide Octet, Word;
    OctetsOfHalf(s[11], s[12]);
    OctetsOfHalf(s[14], s[15]);
    OctetsOfHalf(s[17], s[18]);
    OctetsOfHalf(s[19], s[20]);
    OctetsOfHalf(s[22], s[23]);
    OctetsOfWord(s, 32);
    OctetsOfWord(s, 36);
    OctetsOfWord(s, 44);
  }

  /** A sector is refused exactly when it has no sector size, no cluster size, or no table size in either field. */
  lemma BootRefused(s: seq<nat>)
    requires |s| == 512
    ensures ParseBpb(s).None? <==>
      || (s[11] == 0 && s[12] == 0) || s[13] == 0
      || (s[22] == 0 && s[23] == 0 && s[36] == 0 && s[37] == 0 && s[38] == 0 && s[39] == 0)
  {
    hide Word;
    WordAt(s, 36);
  }

  /** What mounting a device gives, by the layout its first sector was written with. */
  lemma MountWritten(b: Bpb, wide: Form, rest: seq<nat>, dev: seq<nat>)
    requires Parsed(b) && b.rootCluster < U32 && |rest| == 512 && Holds(b, wide)
    requires |dev| >= 512 && Octets(dev) && dev[..512] == BootSector(b, wide, rest)
    ensures b.rootEntryCount != 0 ==> Mounted(dev) == Err(NotSupported)
    ensures b.rootEntryCount == 0 ==> Mounted(dev).Ok?
    ensures b.rootEntryCount == 0 ==>
      var g := Mounted(dev).value;
      && g.fatOffset == b.reservedSectors * b.bytesPerSector && g.fatSize == b.fatSizeSectors * b.bytesPerSector
      && g.numFats == b.numFats && g.clusterSize == b.sectorsPerCluster * b.bytesPerSector
      && g.dataOffset == (b.reservedSectors + b.numFats * b.fatSizeSectors) * b.bytesPerSector
    ensures b.rootEntryCount == 0 && b.reservedSectors + b.numFats * b.fatSizeSectors <= b.totalSectors ==>
      Mounted(dev).value.clusterCount ==
        (b.totalSectors - (b.reservedSectors + b.numFats * b.fatSizeSectors)) / b.sectorsPerCluster
  {
    hide ParseBpb, BootSector;
    BootRoundTrip(b, wide, rest);
    if b.rootEntryCount == 0 {
      LayoutOf(b);
      DataSectors(b);
    }
  }

  /** A volume of a gigabyte with two tables, as it is commonly formatted. */
  lemma CommonVolume(rest: seq<nat>, dev: seq<nat>)
    requires |rest| == 512 && |dev| >= 512 && Octets(dev)
    requires dev[..512] == BootSector(Bpb(512, 8, 32, 2, 0, 0x20_0000, 0x800, 2), Form(true, true), rest)
    ensures Mounted(dev) == Ok(Geometry(0x4000, 0x10_0000, 2, 0x20_4000, 0x1000, 0x3FDFC))
  {
    hide BootSector, Mounted;
    MountWritten(Bpb(512, 8, 32, 2, 0, 0x20_0000, 0x800, 2), Form(true, true), rest, dev);
  }

  /** Where the table entry and the bytes of a cluster stand on the device: entries of four bytes in the first table, 28
      bits of which count; clusters one behind the other, the first of them numbered two. */
  lemma OnDisk(g: Geometry, dev: seq<nat>, c: nat, i: nat)
    requires Fits(g, dev) && InRange(g, c) && i < g.clusterSize
    ensures c >= 2 && g.fatOffset + 4 * c + 4 <= |dev| && g.dataOffset + (c - 2) * g.clusterSize + i < |dev|
    ensures var o := g.fatOffset + 4 * c;
      Entry(g, dev, c) == (dev[o] + 0x100 * dev[o + 1] + 0x1_0000 * dev[o + 2] + 0x100_0000 * dev[o + 3]) % 0x1000_0000
    ensures Data(g, dev, c)[i] == dev[g.dataOffset + (c - 2) * g.clusterSize + i]
  {
    hide Word, CopyBase;
    CopyOrder(g, 0, g.numFats);
    ClusterOrder(g, c, c);
    FirstCopy(g);
    WordAt(dev, g.fatOffset + 4 * c);
  }

  lemma FirstCopy(g: Geometry)
    ensures CopyBase(g, 0) == g.fatOffset
  {
  }
}
