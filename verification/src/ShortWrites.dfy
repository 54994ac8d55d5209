/** Writes that run out of clusters, on a small volume, and what later writes make of them. */
module ShortWrites {
  import opened FatChains
  import opened FatContents
  import opened FatDevice
  import opened FatFiles
  import opened FatGeometry
  import opened FatGrowth
  import opened FatRecords
  import opened FatSpace
  import opened FlatFile
  import opened Options

  /** Four sectors of 512 bytes: the boot sector, the table, the cluster of the root directory and one cluster more. */
  const DISK: Geometry := Geometry(512, 512, 1, 1024, 512, 2)

  /** The first sector: 512-byte sectors, one a cluster, one reserved, one table of one sector, four sectors, and the
      root directory at cluster 2. */
  function BootByte(i: nat): nat {
    match i
    case 12 => 2 case 13 => 1 case 14 => 1 case 16 => 1 case 19 => 4 case 22 => 1 case 44 => 2
    case _ => 0
  }

  /** The table: the root directory has one cluster, and the last cluster is used or free. */
  function TableByte(used: bool, i: nat): nat {
    if i == 0 then 0xF8
    else if i < 12 || (used && i < 16) then if i % 4 == 3 then 0x0F else 0xFF
    else 0
  }

  /** The only entry of the root directory: a file `A`, of one byte in the last cluster, or empty. */
  function EntryByte(used: bool, i: nat): nat {
    if i == 0 then 65
    else if i < 11 || i == 11 then 32
    else if i == 26 && used then 3
    else if i == 28 && used then 1
    else 0
  }

  function DiskByte(used: bool, i: nat): (b: nat)
    ensures b < 0x100
  {
    if i < 512 then BootByte(i)
    else if i < 1024 then TableByte(used, i - 512)
    else if i < 1536 then EntryByte(used, i - 1024)
    else if i == 1536 && used then 5
    else 0
  }

  function Disk(used: bool): (dev: seq<nat>)
    ensures |dev| == 2048 && Octets(dev)
  {
    seq(2048, i requires 0 <= i < 2048 => DiskByte(used, i))
  }

  /** The handles of the root directory and of the file. */
  function Handles(used: bool): map<nat, Node> {
    map[1 := Node(2, 0, true, None), 2 := if used then Node(3, 1, false, Some(1024)) else Node(0, 0, false, Some(1024))]
  }

  function Chains(used: bool): map<nat, seq<nat>> {
    map[1 := [2], 2 := if used then [3] else []]
  }

  function Owners(used: bool): map<nat, Link> {
    if used then map[2 := Link(1, 0), 3 := Link(2, 0)] else map[2 := Link(1, 0)]
  }

  function Contents(used: bool): map<nat, seq<nat>> {
    map[2 := if used then [5] else []]
  }

  function DiskVolume(used: bool): Volume {
    Volume(DISK, Disk(used), Chains(used), Owners(used))
  }

  /** This is what mounting the device gives, and what the directory entry says. */
  lemma DiskMounts(used: bool)
    ensures Mounted(Disk(used)) == Ok(DISK)
    ensures var e, file := Disk(used)[1024..1056], Handles(used)[2];
      EntryFirst(e) == file.first && EntrySize(e) == file.size
  {
    var b := Disk(used)[..SECTOR];
    assert ParseBpb(b) == Some(Bpb(512, 1, 1, 1, 0, 4, 1, 2));
    var e := Disk(used)[1024..1056];
    forall i | 0 <= i < 32 ensures e[i] == EntryByte(used, i) { }
    assert e[28..32] == [e[28], e[29], e[30], e[31]];
  }

  lemma DiskFits(used: bool)
    ensures Fits(DISK, Disk(used)) && InRange(DISK, 2) && InRange(DISK, 3)
    ensures forall c: nat :: InRange(DISK, c) ==> c == 2 || c == 3
  {
    hide Disk;
    assert CopyBase(DISK, 1) == 1024;
  }

  lemma DiskCopies(used: bool)
    requires Fits(DISK, Disk(used))
    ensures CopiesEqual(DISK, Disk(used))
  {
    hide Disk, Fits, CopyByte, CopyBase;
  }

  lemma DiskEntries(used: bool)
    requires Fits(DISK, Disk(used))
    ensures Entry(DISK, Disk(used), 2) == FAT_EOC && Entry(DISK, Disk(used), 3) == if used then FAT_EOC else 0
  {
    hide Fits, CopiesEqual;
    assert Disk(used)[520..524] == [0xFF, 0xFF, 0xFF, 0x0F];
    assert Disk(used)[524..528] == if used then [0xFF, 0xFF, 0xFF, 0x0F] else [0, 0, 0, 0];
  }

  lemma DiskData(used: bool, r: nat)
    requires Fits(DISK, Disk(used)) && r < 512
    ensures Data(DISK, Disk(used), 3)[r] == if r == 0 && used then 5 else 0
  {
    hide Fits, CopiesEqual;
  }

  lemma DiskSound(used: bool)
    ensures Sound(DiskVolume(used))
  {
    hide Fits, Entry, Data, CopiesEqual, InRange, Disk;
    DiskFits(used);
    DiskEntries(used);
    DiskCopies(used);
    assert LinkOk(DiskVolume(used), 1, 0);
    if used { assert LinkOk(DiskVolume(used), 2, 0); }
  }

  lemma DiskHolds(used: bool)
    ensures Fits(DISK, Disk(used)) && AllInRange(DISK, Chains(used)[2])
    ensures ChainHolds(DISK, Disk(used), Chains(used)[2], Contents(used)[2])
  {
    hide Fits, Entry, Data, CopiesEqual, InRange, Disk, Pos;
    DiskFits(used);
    PosOf(512, 0);
    PosOf(512, 1);
    forall r: nat | r < 512 ensures Data(DISK, Disk(used), 3)[r] == if r == 0 && used then 5 else 0 {
      DiskData(used, r);
    }
  }

  lemma DiskOk(used: bool)
    ensures AllOk(DiskVolume(used), Handles(used), Contents(used))
  {
    hide Fits, Entry, Data, CopiesEqual, Sound, AllInRange, ChainHolds, Disk;
    DiskSound(used);
    DiskHolds(used);
    assert EntryOk(DiskVolume(used), Handles(used), 2, 1024);
  }

  lemma DiskEntered(used: bool)
    ensures Entered(Disk(used), Handles(used))
  {
    hide Disk, EntryFirst, EntrySize, Mounted;
    DiskMounts(used);
  }

  lemma DiskSpace(used: bool)
    ensures FreeSet(DISK, Disk(used)) == (if used then {} else {3}) && Stray(DiskVolume(used)) == {}
  {
    hide Fits, Entry, Data, CopiesEqual, Disk;
    DiskFits(used);
    DiskEntries(used);
  }

  /** The volume with its file in use, or empty. */
  method MountDisk(used: bool) returns (fs: FatFs)
    ensures fresh(fs) && fs.Valid() && fs.dev == Disk(used) && fs.g == DISK && Mounted(Disk(used)) == Ok(fs.g)
    ensures fs.nodes == Handles(used) && fs.chains == Chains(used) && fs.held == Contents(used)
    ensures FreeSet(fs.g, fs.dev) == (if used then {} else {3}) && Stray(fs.Vol()) == {}
  {
    hide AllOk, Disk, FreeSet, Stray, Mounted;
    DiskOk(used);
    DiskMounts(used);
    assert Entered(Disk(used), Handles(used)) by { DiskEntered(used); }
    DiskSpace(used);
    fs := new FatFs(DISK, Disk(used), Handles(used), Chains(used), Owners(used), Contents(used));
  }

  function Sevens(n: nat): (b: seq<nat>)
    ensures |b| == n && forall i :: 0 <= i < n ==> b[i] == 7
  {
    seq(n, i => 7)
  }

  lemma TailWrites()
    ensures Room(512, 1, 1) == 511 && Pos(512, 1) == 512 && Pos(512, 0) == 0
    ensures var h := Short([5], 1, Sevens(512), 511);
      |h| == 512 && h[..1] == [5] && Written(h, 3, [9])[..4] == [5, 7, 7, 9] && |Written(h, 3, [9])| == 512
    ensures Written([5], 3, [9]) == [5, 0, 0, 9]
  {
    hide Written, Short;
    PosOf(512, 1);
    PosOf(512, 0);
    var h := Short([5], 1, Sevens(512), 511);
    ShortMeaning([5], 1, Sevens(512), 511);
    WrittenMeaning(h, 3, [9]);
    WrittenMeaning([5], 3, [9]);
  }

  /** Writing 512 bytes at position one of the file fails after 511 of them. They do not belong to the file, but a later
      write at position three makes two of them part of it, where the in-memory file would have zeros. */
  method SpoiledTail() returns (fs: FatFs, first: Result<nat, FsError>, second: Result<nat, FsError>)
    ensures Mounted(Disk(true)) == Ok(fs.g) && first.Err? && second == Ok(1)
    ensures fs.Valid() && 2 in fs.nodes && !fs.nodes[2].isDir
    ensures fs.File(2) == [5, 7, 7, 9] && Written([5], 3, [9]) == [5, 0, 0, 9]
  {
    hide AllOk, FileOk, NodeOk, Full, Fits, Pos, GapZero, ZeroBeyond, ZeroFrom, Disk, Written, Short, Room, FreeSet,
      Stray, Mounted, ClustersFor;
    TailWrites();
    fs := MountDisk(true);
    first := fs.Write(2, 1, Sevens(512));
    second := fs.Write(2, 3, [9]);
  }

  /** One byte fits the fresh volume. */
  method FreshByte() returns (r: Result<nat, FsError>)
    ensures r == Ok(1)
  {
    hide AllOk, FileOk, NodeOk, Full, Fits, Pos, GapZero, ZeroBeyond, ZeroFrom, Disk, Written, Short, Room, FreeSet,
      Stray, Mounted, ClustersFor, Supplied, UsedUp;
    TailWrites();
    var fs := MountDisk(false);
    r := fs.Write(2, 0, [7]);
  }

  /** Writing 513 bytes to the empty file fails and takes the last free cluster away for good: a write of one byte,
      which succeeds on a fresh volume, fails afterwards. */
  method LostCluster() returns (before: Result<nat, FsError>, fs: FatFs, first: Result<nat, FsError>,
                                second: Result<nat, FsError>)
    ensures before == Ok(1) && first.Err? && second.Err?
    ensures Mounted(Disk(false)) == Ok(fs.g) && fs.Valid() && Stray(fs.Vol()) == {3} && FreeSet(fs.g, fs.dev) == {}
    ensures 2 in fs.nodes && !fs.nodes[2].isDir && fs.File(2) == []
  {
    hide AllOk, FileOk, NodeOk, Full, Fits, Pos, GapZero, ZeroBeyond, ZeroFrom, Disk, Written, Short, Room, FreeSet,
      Stray, Mounted, ClustersFor;
    TailWrites();
    before := FreshByte();
    fs := MountDisk(false);
    first := fs.Write(2, 0, Sevens(513));
    second := fs.Write(2, 0, [7]);
  }
}
