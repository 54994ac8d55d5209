/** The layout of a FAT32 volume as its boot sector gives it. */
module FatGeometry {
  import opened Basics
  import opened FatDevice
  import opened Options

  datatype Bpb = Bpb(bytesPerSector: nat, sectorsPerCluster: nat, reservedSectors: nat, numFats: nat,
    rootEntryCount: nat, totalSectors: nat, fatSizeSectors: nat, rootCluster: nat)

  datatype MountError = NotSupported | BadSector

  const SECTOR: nat := 512

  predicate Octets(b: seq<nat>) {
    forall i :: 0 <= i < |b| ==> b[i] < 0x100
  }

  /** A little-endian 16-bit word. */
  function Half(b: seq<nat>, i: nat): nat
    requires i + 2 <= |b|
  {
    b[i] + 0x100 * b[i + 1]
  }

  /** The boot sector; older fields win over their wider successors unless they are zero. */
  function ParseBpb(b: seq<nat>): Option<Bpb>
    requires |b| == SECTOR
  {
    var total := if Half(b, 19) != 0 then Half(b, 19) else Word(b[32..36]);
    var fatSize := if Half(b, 22) != 0 then Half(b, 22) else Word(b[36..40]);
    if Half(b, 11) == 0 || b[13] == 0 || fatSize == 0 then None
    else Some(Bpb(Half(b, 11), b[13], Half(b, 14), b[16], Half(b, 17), total, fatSize, Word(b[44..48])))
  }

  lemma WordBound(b: seq<nat>)
    requires |b| == 4 && Octets(b)
    ensures Word(b) < U32
  {
  }

  /** Each field has its width, and three are not zero. */
  lemma ParsedBounds(b: seq<nat>)
    requires |b| == SECTOR && Octets(b)
    ensures ParseBpb(b).Some? ==> Parsed(ParseBpb(b).value)
  {
    hide Word;
    WordBound(b[32..36]);
    WordBound(b[36..40]);
  }

  /** The layout a device is mounted with. */
  function Mounted(dev: seq<nat>): Result<Geometry, MountError>
    requires |dev| >= SECTOR && Octets(dev)
  {
    var b := ParseBpb(dev[..SECTOR]);
    ParsedBounds(dev[..SECTOR]);
    if b.None? then Err(BadSector) else BuildState(b.value)
  }

  function MetaSectors(b: Bpb): nat {
    b.reservedSectors + b.numFats * b.fatSizeSectors
  }

  /** What a boot sector can say: each field has its width, and three are checked not to be zero. */
  predicate Parsed(b: Bpb) {
    && 0 < b.bytesPerSector < 0x1_0000 && 0 < b.sectorsPerCluster < 0x100 && b.reservedSectors < 0x1_0000
       && b.numFats < 0x100
    && b.rootEntryCount < 0x1_0000 && b.totalSectors < U32 && 0 < b.fatSizeSectors < U32
  }

  /** The bytes of `n` sectors. */
  function Bytes(b: Bpb, n: nat): nat {
    n * b.bytesPerSector
  }

  function RootSectors(b: Bpb): nat
    requires Parsed(b)
  {
    (b.rootEntryCount * 32 + b.bytesPerSector - 1) / b.bytesPerSector
  }

  /** What the tables leave. */
  function LeftOver(b: Bpb, root: nat): nat {
    (b.totalSectors - (b.reservedSectors + b.numFats * b.fatSizeSectors % U32 + root)) % U32
  }

  /** Only FAT32, which has no fixed root directory, is mounted. Sectors are counted in 32-bit words, which wrap
      around. */
  function BuildState(b: Bpb): Result<Geometry, MountError>
    requires Parsed(b)
  {
    if b.rootEntryCount != 0 then Err(NotSupported)
    else
      var root := RootSectors(b);
      Ok(Geometry(Bytes(b, b.reservedSectors), Bytes(b, b.fatSizeSectors), b.numFats, Bytes(b, MetaSectors(b) + root),
                  Bytes(b, b.sectorsPerCluster), LeftOver(b, root) / b.sectorsPerCluster))
  }

  /** There is a table, the tables fit into the volume, and no cluster number looks like an end mark. */
  predicate Sensible(b: Bpb)
    requires Parsed(b)
  {
    && b.numFats >= 1 && MetaSectors(b) <= b.totalSectors
    && (b.totalSectors - MetaSectors(b)) / b.sectorsPerCluster + FIRST_CLUSTER <= END_MARK
  }

  lemma Below(a: nat, n: nat)
    requires a < n
    ensures a / n == 0
  {
  }

  lemma Spread3(r: nat, n: nat, f: nat, s: nat)
    ensures r * s + n * (f * s) == (r + n * f) * s
  {
    assert n * (f * s) == n * f * s;
  }

  lemma DivTimes(a: nat, k: nat)
    requires k > 0
    ensures a / k * k <= a
  {
  }

  lemma Wider(a: nat, b: nat, s: nat)
    requires a <= b
    ensures a * s <= b * s
  {
  }

  /** Without wrap-around the data sectors are what the tables leave. */
  lemma DataSectors(b: Bpb)
    requires Parsed(b) && b.rootEntryCount == 0
    ensures BuildState(b).Ok? && BuildState(b).value.dataOffset == MetaSectors(b) * b.bytesPerSector
    ensures MetaSectors(b) <= b.totalSectors ==>
      BuildState(b).value.clusterCount == (b.totalSectors - MetaSectors(b)) / b.sectorsPerCluster
  {
    Below(b.bytesPerSector - 1, b.bytesPerSector);
    if MetaSectors(b) <= b.totalSectors { WordItself(b.numFats * b.fatSizeSectors); }
  }

  lemma WordItself(a: nat)
    requires a < U32
    ensures a % U32 == a
  {
  }

  lemma Narrower(a: nat, b: nat, s: nat)
    requires a * s <= b * s && s > 0
    ensures a <= b
  {
    if b < a { Wider(b + 1, a, s); }
  }

  /** The clusters of a sensible volume lie on a device that is large enough. */
  lemma SensibleFits(b: Bpb, dev: seq<nat>)
    requires Parsed(b) && b.rootEntryCount == 0 && Sensible(b) && b.totalSectors * b.bytesPerSector <= |dev|
    ensures BuildState(b).Ok? && Fits(BuildState(b).value, dev)
    ensures CopyBase(BuildState(b).value, b.numFats) == BuildState(b).value.dataOffset
  {
    hide BuildState;
    DataSectors(b);
    LayoutOf(b);
    var s, meta, spc := b.bytesPerSector, MetaSectors(b), b.sectorsPerCluster;
    var count := (b.totalSectors - meta) / spc;
    Spread3(b.reservedSectors, b.numFats, b.fatSizeSectors, s);
    DivTimes(b.totalSectors - meta, spc);
    Wider(count * spc, b.totalSectors - meta, s);
    assert count * (spc * s) == count * spc * s;
    assert meta * s + (b.totalSectors - meta) * s == b.totalSectors * s;
    Wider(1, b.fatSizeSectors, s);
    Wider(1, spc, s);
  }

  lemma LayoutOf(b: Bpb)
    requires Parsed(b) && b.rootEntryCount == 0
    ensures BuildState(b).Ok?
    ensures var g := BuildState(b).value;
      && g.fatOffset == b.reservedSectors * b.bytesPerSector && g.fatSize == b.fatSizeSectors * b.bytesPerSector
      && g.numFats == b.numFats && g.clusterSize == b.sectorsPerCluster * b.bytesPerSector
  {
  }

  /** The layout fits a device of just the promised size exactly when the boot sector is sensible; on a larger
      device, whenever it is. */
  lemma MountedFits(b: Bpb, dev: seq<nat>)
    requires Parsed(b) && b.rootEntryCount == 0 && b.totalSectors * b.bytesPerSector <= |dev|
    ensures BuildState(b).Ok?
    ensures Sensible(b) ==>
      Fits(BuildState(b).value, dev) && CopyBase(BuildState(b).value, b.numFats) == BuildState(b).value.dataOffset
    ensures |dev| == b.totalSectors * b.bytesPerSector && Fits(BuildState(b).value, dev) ==> Sensible(b)
  {
    hide BuildState;
    DataSectors(b);
    LayoutOf(b);
    if Sensible(b) { SensibleFits(b, dev); }
    if |dev| == b.totalSectors * b.bytesPerSector && Fits(BuildState(b).value, dev) {
      Narrower(MetaSectors(b), b.totalSectors, b.bytesPerSector);
    }
  }
}
