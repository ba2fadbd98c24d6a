/**
 One file system on which `writei` and a chunk of `filewrite` of the source do what they are not
 meant to do. 200000 blocks, 70 of them metadata, and 61 files that fill the disk from there on:
 each has its direct blocks, its indirect block and the blocks that one names, 268 in all, one
 after the other. Files 0 and 30 lack the last of them, so the free blocks are 337, 8377, and all
 from 16418 on: in three different bitmap blocks.
 */
module FsInputs {
  import opened InodeTree
  import opened FsLog
  import opened Params
  import opened Sets
  import opened FileSystem

  const FSSIZE := 200000
  const NMETA := 70
  const INODESTART := 32
  const BMAPSTART := 45
  const NINODES := 200
  const FILES := 61
  const SPAN := NDIRECT + 1 + NINDIRECT
  const END := NMETA + FILES * SPAN

  function Base(m: nat): (r: nat) {
    NMETA + m * SPAN
  }

  /** Files 0 and 30 end one block early. */
  predicate Short(m: nat) {
    m == 0 || m == 30
  }

  function FileSize(m: nat): (r: nat) {
    if m >= FILES then 0
    else if m == 0 then (NDIRECT + NINDIRECT - 2) * BSIZE + 1
    else if m == 30 then (NDIRECT + NINDIRECT - 1) * BSIZE
    else (NDIRECT + NINDIRECT) * BSIZE
  }

  function TopSlot(m: nat, i: int): (r: nat) {
    if m < FILES && 0 <= i < NIRECT then Base(m) + i else 0
  }

  function FileInode(m: nat): (r: Inode)
    ensures |r.addrs| == NIRECT + 1
  {
    Inode(seq(NIRECT + 1, i => TopSlot(m, i)), FileSize(m))
  }

  /** Entry `j` of the indirect block of file `m`. */
  function Child(m: nat, j: nat): (r: nat) {
    if Short(m) && j == NINDIRECT - 1 then 0 else Base(m) + NIRECT + j
  }

  function ByteOf(v: nat, i: nat): (r: Byte)
    requires v < WORD && i < 4
  {
    Digits(v);
    if i == 0 then v % 0x100 else if i == 1 then v / 0x100 % 0x100
    else if i == 2 then v / 0x1_0000 % 0x100 else v / 0x100_0000
  }

  function IndirectBlock(m: nat): (r: Block)
    requires m < FILES
  {
    seq(BSIZE, i requires 0 <= i < BSIZE => ByteOf(Child(m, i / 4), i % 4))
  }

  /** Where block `b` of the data area belongs. */
  function FileOf(b: nat): nat
    requires b >= NMETA
  {
    (b - NMETA) / SPAN
  }

  function PlaceOf(b: nat): nat
    requires b >= NMETA
  {
    (b - NMETA) % SPAN
  }

  function SlotOf(b: nat): (r: Slot)
    requires b >= NMETA
  {
    var k := PlaceOf(b);
    Slot(FileOf(b), if k < NIRECT then [k] else [NDIRECT, k - NIRECT])
  }

  function DiskBlock(b: nat): (r: Block) {
    if NMETA <= b < END && PlaceOf(b) == NDIRECT then IndirectBlock(FileOf(b)) else seq(BSIZE, i => 0)
  }

  predicate Taken(b: nat) {
    b < END && b != 337 && b != 8377
  }

  function Disk(): (r: Tree)
    ensures Shaped(r) && |r.inodes| == NINODES && |r.blocks| == FSSIZE
  {
    Tree(seq(NINODES, m requires m >= 0 => FileInode(m)), seq(FSSIZE, b requires b >= 0 => DiskBlock(b)))
  }

  function Bitmap(): (r: seq<bool>)
    ensures |r| == FSSIZE && forall b :: 0 <= b < FSSIZE ==> (r[b] <==> Taken(b))
  {
    seq(FSSIZE, b requires b >= 0 => Taken(b))
  }

  ghost function Owners(): (r: map<nat, Slot>) {
    map b | NMETA <= b < END && Taken(b) :: SlotOf(b)
  }

  // ---- its slots ----

  lemma ChildByte(m: nat, j: nat, i: nat)
    requires m < FILES && j < NINDIRECT && i < 4
    ensures IndirectBlock(m)[4 * j + i] == ByteOf(Child(m, j), i)
  {
    hide Child, ByteOf;
    assert (4 * j + i) / 4 == j && (4 * j + i) % 4 == i;
  }

  lemma ChildEntry(m: nat, j: nat)
    requires m < FILES && j < NINDIRECT
    ensures Entry(IndirectBlock(m), j) == Child(m, j)
  {
    hide Child, IndirectBlock;
    ChildByte(m, j, 0);
    ChildByte(m, j, 1);
    ChildByte(m, j, 2);
    ChildByte(m, j, 3);
    Digits(Child(m, j));
  }

  /** The block number in every slot of every file. */
  function Where(m: nat, p: Path): (r: nat)
    requires ValidPath(p)
  {
    if m >= FILES then 0
    else if |p| == 1 && p[0] <= NDIRECT then Base(m) + p[0]
    else if |p| == 2 && p[0] == NDIRECT then Child(m, p[1])
    else 0
  }

  lemma PtrIs(m: nat, p: Path)
    requires m < NINODES && ValidPath(p)
    ensures Ptr(Disk(), m, p) == Where(m, p)
  {
    hide Disk, FileInode, Child, SlotOf, DiskBlock;
    TopPtr(m, [p[0]]);
    if |p| == 1 {
      assert p == [p[0]];
    } else if p[0] == NDIRECT {
      assert Parent(p) == [p[0]];
      IndirectAt(m, p[1]);
    } else {
      assert Parent(p)[0] == NIRECT;
      NoDouble(m, p);
    }
  }

  lemma TopPtr(m: nat, p: Path)
    requires m < NINODES && ValidPath(p) && |p| == 1
    ensures Ptr(Disk(), m, p) == Where(m, p)
  {
  }

  lemma IndirectAt(m: nat, j: nat)
    requires m < NINODES && j < NINDIRECT
    ensures Follow(Disk().blocks, Where(m, [NDIRECT]), j) == Where(m, [NDIRECT, j])
  {
    hide FileOf, PlaceOf, Child, IndirectBlock, FileInode;
    if m < FILES {
      var b := Base(m) + NDIRECT;
      PlaceIs(m, NDIRECT);
      assert Disk().blocks[b] == IndirectBlock(m);
      ChildEntry(m, j);
    }
  }

  lemma {:induction false} NoDouble(m: nat, p: Path)
    requires m < NINODES && ValidPath(p) && p[0] == NIRECT
    ensures Ptr(Disk(), m, p) == 0
    decreases |p|
  {
    hide Disk;
    if |p| == 1 {
      TopPtr(m, p);
    } else {
      NoDouble(m, Parent(p));
    }
  }

  lemma PlaceIs(m: nat, k: nat)
    requires k < SPAN
    ensures FileOf(Base(m) + k) == m && PlaceOf(Base(m) + k) == k
  {
  }

  lemma WhereOwned(m: nat, p: Path)
    requires m < NINODES && ValidPath(p) && Where(m, p) != 0
    ensures var b := Where(m, p); b >= NMETA && b in Owners() && Owners()[b] == Slot(m, p)
  {
    hide FileOf, PlaceOf;
    if |p| == 1 {
      assert p == [p[0]];
      PlaceIs(m, p[0]);
    } else {
      assert p == [NDIRECT, p[1]];
      PlaceIs(m, NIRECT + p[1]);
    }
  }

  lemma OwnerIs(b: nat)
    requires b in Owners()
    ensures NMETA <= b < FSSIZE
    ensures var s := Owners()[b]; s.inum < NINODES && ValidPath(s.path) && Where(s.inum, s.path) == b
  {
  }

  lemma FileMapped(m: nat)
    requires m < NINODES
    ensures MappedBelow(Disk(), m, Disk().inodes[m].size)
  {
    forall bn | 0 <= bn < MAXFILE && bn * BSIZE < Disk().inodes[m].size ensures Ptr(Disk(), m, DataPath(bn)) != 0 {
      PtrIs(m, DataPath(bn));
    }
  }

  lemma DiskOk()
    ensures FsOk(Disk(), Bitmap(), Owners(), NMETA)
  {
    hide Disk, Bitmap;
    var t, o := Disk(), Owners();
    forall m, p | 0 <= m < NINODES && ValidPath(p)
      ensures Ptr(t, m, p) == Where(m, p)
      ensures Where(m, p) != 0 ==> Where(m, p) in o && o[Where(m, p)] == Slot(m, p)
    {
      PtrIs(m, p);
      if Where(m, p) != 0 {
        WhereOwned(m, p);
      }
    }
    forall b | b in o
      ensures NMETA <= b < FSSIZE && o[b].inum < NINODES && ValidPath(o[b].path) && Ptr(t, o[b].inum, o[b].path) == b
    {
      OwnerIs(b);
    }
    forall m | 0 <= m < NINODES ensures MappedBelow(t, m, t.inodes[m].size) {
      FileMapped(m);
    }
  }

  // ---- a chunk that logs more than MAXOPBLOCKS blocks ----

  const TAIL := NDIRECT + NINDIRECT - 2

  /** The slots on the way to the three blocks' worth of bytes after the end of file 0. */
  function TailSlots(): (r: set<Path>) {
    {[11, 254], [11], [11, 255], [12, 0, 0], [12, 0], [12], [12, 0, 1]}
  }

  lemma TailWay(bn: nat)
    requires TAIL <= bn <= TAIL + 3
    ensures Way(bn) == if bn == TAIL then {[11, 254], [11]} else if bn == TAIL + 1 then {[11, 255], [11]}
                       else if bn == TAIL + 2 then {[12, 0, 0], [12, 0], [12]} else {[12, 0, 1], [12, 0], [12]}
  {
    var p := DataPath(bn);
    if bn < TAIL + 2 {
      assert p == [11, bn - 11] && Parent(p) == [11];
    } else {
      assert p == [12, 0, bn - TAIL - 2] && Parent(p) == [12, 0] && Parent(Parent(p)) == [12];
    }
  }

  lemma TailWays(off: nat, k: nat)
    requires off == FileSize(0) && k == CHUNK
    ensures Ways(off, k) == TailSlots()
  {
    hide Way;
    TailWay(TAIL);
    TailWay(TAIL + 1);
    TailWay(TAIL + 2);
    TailWay(TAIL + 3);
    forall bn: nat ensures InRange(bn, off, k) <==> TAIL <= bn <= TAIL + 3 {
    }
    forall p | p in TailSlots() ensures p in Ways(off, k) {
      var bn := if p in Way(TAIL) then TAIL else if p in Way(TAIL + 1) then TAIL + 1
                else if p in Way(TAIL + 2) then TAIL + 2 else TAIL + 3;
      assert InRange(bn, off, k);
    }
    forall p | p in Ways(off, k) ensures p in TailSlots() {
      var bn: nat :| bn < MAXFILE && InRange(bn, off, k) && p in Way(bn);
    }
  }

  lemma TailMissing(off: nat, k: nat)
    requires off == FileSize(0) && k == CHUNK
    ensures Missing(Disk(), 0, off, k) == {[11, 255], [12], [12, 0], [12, 0, 0], [12, 0, 1]}
  {
    hide Disk, Ways, Ptr;
    TailWays(off, k);
    forall p | p in TailSlots() ensures Ptr(Disk(), 0, p) == Where(0, p) {
      PtrIs(0, p);
    }
  }

  lemma TailDirty(off: nat, k: nat)
    requires off == FileSize(0) && k == CHUNK
    ensures Dirty(Disk(), 0, off, k) == TailSlots()
  {
    hide Disk, Ways, Missing;
    TailWays(off, k);
    TailMissing(off, k);
    var missing := Missing(Disk(), 0, off, k);
    assert [11, 255] in missing && Parent([11, 255]) == [11];
    assert [12, 0] in missing && Parent([12, 0]) == [12];
    assert [12, 0, 0] in missing && Parent([12, 0, 0]) == [12, 0];
  }

  lemma FirstFree(used: seq<bool>)
    requires used == Bitmap()
    ensures Lowest(used, 5) == {337, 8377, END, END + 1, END + 2}
  {
    forall b | b in FreeBlocks(used) ensures |FreeBelow(used, b)| < 5 <==> b <= END + 2 {
      if b <= END + 2 {
        SubsetSize(FreeBelow(used, b), {337, 8377, END, END + 1});
      } else {
        SubsetSize({337, 8377, END, END + 1, END + 2}, FreeBelow(used, b));
      }
    }
  }

  lemma ThreeBitmaps(low: set<nat>)
    requires low == {337, 8377, END, END + 1, END + 2}
    ensures |low| == 5 && |BitmapsOf(BMAPSTART, low)| == 3
  {
    assert 337 / BPB == 0 && 8377 / BPB == 1 && END / BPB == 2 && (END + 1) / BPB == 2 && (END + 2) / BPB == 2;
    assert 337 in low && 8377 in low && END in low;
    forall x | x in BitmapsOf(BMAPSTART, low) ensures x in {45, 46, 47} {
      var b :| b in low && x == b / BPB + BMAPSTART;
    }
    assert BitmapsOf(BMAPSTART, low) == {45, 46, 47};
  }

  /** 4 data blocks, 3 indirect blocks, 3 bitmap blocks and the inode's. */
  lemma ChunkOverflows()
    ensures FsOk(Disk(), Bitmap(), Owners(), NMETA)
    ensures LogCount(BMAPSTART, Disk(), Bitmap(), 0, FileSize(0), CHUNK) == MAXOPBLOCKS + 1
    ensures Room(Disk(), Bitmap(), 0, FileSize(0), CHUNK)
  {
    hide Disk, Bitmap, Dirty, Missing, Lowest, FsOk, BitmapsOf;
    var off, k := FileSize(0), CHUNK;
    DiskOk();
    TailDirty(off, k);
    TailMissing(off, k);
    FirstFree(Bitmap());
    var low := Lowest(Bitmap(), 5);
    ThreeBitmaps(low);
    LowestFree(Bitmap(), 5);
    SubsetSize(low, FreeBlocks(Bitmap()));
  }

  lemma LowestFree(used: seq<bool>, k: nat)
    ensures Lowest(used, k) <= FreeBlocks(used)
  {
  }

  lemma LayoutApart(n: nat)
    requires n < NINODES
    ensures Apart(BMAPSTART, n / IPB + INODESTART, NMETA, FSSIZE)
  {
  }

  /** The first chunk of a `filewrite` to the end of file 0, with a readable source: its transaction logs 11 blocks. */
  method WriteTooMuch(src: seq<Byte>) returns (fs: Fs, tot: int)
    requires |src| == CHUNK
    ensures tot == CHUNK && |fs.logged| == MAXOPBLOCKS + 1
  {
    hide FsOk, Disk, Bitmap, Owners, LogCount, Room, WriteEffect, AllocLog, DataLog, NewBitmaps, Apart;
    ChunkOverflows();
    LayoutApart(0);
    fs := new Fs(NMETA, BMAPSTART, INODESTART, Disk().inodes, Disk().blocks, Bitmap(), Owners());
    assert fs.T() == Disk();
    DiskSizes();
    ghost var w;
    tot, w := fs.Writei(0, src, |src|, FileSize(0));
  }

  lemma DiskSizes()
    ensures Disk().inodes[0].size == FileSize(0) && Disk().inodes[30].size == FileSize(30)
  {
  }

  // ---- a source that can be read for one byte only ----

  lemma RoomAtStart()
    ensures Room(Disk(), Bitmap(), 0, 0, 1) && Ptr(Disk(), 0, [0]) == 70
  {
    hide Disk, Bitmap, Ptr;
    PtrIs(0, [0]);
    forall p | p in Ways(0, 1) ensures p == [0] {
      var bn: nat :| bn < MAXFILE && InRange(bn, 0, 1) && p in Way(bn);
    }
    assert Missing(Disk(), 0, 0, 1) == {};
  }

  /** An overwrite at the start of file 0: the byte is in the file, not counted, and its block is not logged. */
  method StrayUnlogged(src: seq<Byte>) returns (fs: Fs, tot: int)
    requires |src| == 2
    ensures fs.Valid() && tot == 0 && Shaped(fs.T()) && |fs.inodes| == NINODES && fs.inodes[0].size == FileSize(0)
    ensures Contents(fs.T(), 0)[0] == src[0]
    ensures Ptr(fs.T(), 0, [0]) !in fs.logged
  {
    hide FsOk, Disk, Bitmap, Owners, LogCount, Room, AllocLog, DataLog, NewBitmaps, Apart, Ptr, Contents, ByteAt;
    DiskOk();
    LayoutApart(0);
    RoomAtStart();
    fs := new Fs(NMETA, BMAPSTART, INODESTART, Disk().inodes, Disk().blocks, Bitmap(), Owners());
    assert fs.T() == Disk();
    DiskSizes();
    ghost var w;
    tot, w := fs.Writei(0, src, 1, 0);
    assert DataPath(0) == [0];
  }

  lemma RoomAtEnd()
    ensures Room(Disk(), Bitmap(), 30, FileSize(30), 1) && Ptr(Disk(), 30, [11, 255]) == 0
  {
    hide Disk, Bitmap, Ptr;
    PtrIs(30, [11, 255]);
    PtrIs(30, [11]);
    TailWay(TAIL + 1);
    forall p | p in Ways(FileSize(30), 1) ensures p in Way(TAIL + 1) {
      var bn: nat :| bn < MAXFILE && InRange(bn, FileSize(30), 1) && p in Way(bn);
      assert bn == TAIL + 1;
    }
    SubsetSize(Missing(Disk(), 30, FileSize(30), 1), {[11, 255]});
    SubsetSize({337}, FreeBlocks(Bitmap()));
  }

  /**
   The same at the end of file 30: the block is allocated in the call, so it is logged with the uncounted
   byte in it.
   */
  method StrayLogged(src: seq<Byte>) returns (fs: Fs, tot: int, ghost w: nat)
    requires |src| == 2
    ensures fs.Valid() && tot == 0 && w == 1 && Shaped(fs.T()) && |fs.inodes| == NINODES
    ensures fs.inodes[30].size == FileSize(30)
    ensures Ptr(fs.T(), 30, [11, 255]) in fs.logged
  {
    hide FsOk, Disk, Bitmap, Owners, LogCount, Room, AllocLog, DataLog, NewBitmaps, Apart, Ptr, Contents, ByteAt;
    DiskOk();
    LayoutApart(30);
    RoomAtEnd();
    fs := new Fs(NMETA, BMAPSTART, INODESTART, Disk().inodes, Disk().blocks, Bitmap(), Owners());
    assert fs.T() == Disk();
    DiskSizes();
    tot, w := fs.Writei(30, src, 1, FileSize(30));
    assert DataPath(TAIL + 1) == [11, 255];
  }

  // ---- a file whose removal logs more than MAXOPBLOCKS blocks ----

  /** The `i`-th direct block of file 0 is the first block of bitmap block `i + 1`. */
  function ScatterSlot(m: nat, i: int): (r: nat) {
    if m == 0 && 0 <= i < NDIRECT then BPB * (i + 1) else 0
  }

  function ScatterInode(m: nat): (r: Inode)
    ensures |r.addrs| == NIRECT + 1
  {
    Inode(seq(NIRECT + 1, i => ScatterSlot(m, i)), if m == 0 then NDIRECT * BSIZE else 0)
  }

  function ScatterDisk(): (r: Tree)
    ensures Shaped(r) && |r.inodes| == NINODES && |r.blocks| == FSSIZE
  {
    Tree(seq(NINODES, m requires m >= 0 => ScatterInode(m)), seq(FSSIZE, b => seq(BSIZE, i => 0)))
  }

  predicate Scattered(b: nat) {
    b % BPB == 0 && 1 <= b / BPB <= NDIRECT
  }

  function ScatterBitmap(): (r: seq<bool>)
    ensures |r| == FSSIZE && forall b :: 0 <= b < FSSIZE ==> (r[b] <==> b < NMETA || Scattered(b))
  {
    seq(FSSIZE, b requires b >= 0 => b < NMETA || Scattered(b))
  }

  ghost function ScatterOwners(): (r: map<nat, Slot>) {
    map b | 0 <= b < FSSIZE && Scattered(b) :: Slot(0, [b / BPB - 1])
  }

  lemma {:induction false} ScatterPtr(m: nat, p: Path)
    requires m < NINODES && ValidPath(p)
    ensures Ptr(ScatterDisk(), m, p) == if |p| == 1 then ScatterSlot(m, p[0]) else 0
    decreases |p|
  {
    if |p| > 1 {
      ScatterPtr(m, Parent(p));
    }
  }

  lemma ScatterOwned(m: nat, p: Path)
    requires m < NINODES && ValidPath(p) && |p| == 1 && ScatterSlot(m, p[0]) != 0
    ensures var b := ScatterSlot(m, p[0]); b in ScatterOwners() && ScatterOwners()[b] == Slot(m, p)
  {
    assert p == [p[0]];
  }

  lemma ScatterOk()
    ensures FsOk(ScatterDisk(), ScatterBitmap(), ScatterOwners(), NMETA)
  {
    hide ScatterDisk, ScatterBitmap, Scattered;
    var t, o := ScatterDisk(), ScatterOwners();
    forall m, p | 0 <= m < NINODES && ValidPath(p)
      ensures Ptr(t, m, p) == if |p| == 1 then ScatterSlot(m, p[0]) else 0
      ensures Ptr(t, m, p) != 0 ==> Ptr(t, m, p) in o && o[Ptr(t, m, p)] == Slot(m, p)
    {
      ScatterPtr(m, p);
      if Ptr(t, m, p) != 0 {
        ScatterOwned(m, p);
      }
    }
    forall b | b in o ensures NMETA <= b < FSSIZE && ValidPath(o[b].path) && Ptr(t, o[b].inum, o[b].path) == b {
      ScatterOwner(b);
    }
    forall m | 0 <= m < NINODES ensures MappedBelow(t, m, t.inodes[m].size) {
      ScatterMapped(m);
    }
  }

  lemma ScatterOwner(b: nat)
    requires b in ScatterOwners()
    ensures NMETA <= b < FSSIZE && var s := ScatterOwners()[b]; s.inum == 0 && ValidPath(s.path) && |s.path| == 1
    ensures ScatterSlot(0, ScatterOwners()[b].path[0]) == b
  {
  }

  lemma ScatterMapped(m: nat)
    requires m < NINODES
    ensures MappedBelow(ScatterDisk(), m, ScatterDisk().inodes[m].size)
  {
    forall bn | 0 <= bn < MAXFILE && bn * BSIZE < ScatterDisk().inodes[m].size
      ensures Ptr(ScatterDisk(), m, DataPath(bn)) != 0
    {
      ScatterPtr(m, DataPath(bn));
    }
  }

  lemma ScatterGroup(b: nat, x: nat)
    requires b in ScatterOwners() && x == b / BPB + BMAPSTART
    ensures BMAPSTART + 1 <= x < BMAPSTART + 1 + NDIRECT
  {
  }

  lemma ScatterBlock(x: nat)
    requires BMAPSTART + 1 <= x < BMAPSTART + 1 + NDIRECT
    ensures var b := BPB * (x - BMAPSTART); b in FileBlocks(ScatterOwners(), 0) && b / BPB + BMAPSTART == x
  {
    var b := BPB * (x - BMAPSTART);
    assert b / BPB == x - BMAPSTART && b % BPB == 0;
  }

  lemma ScatterMaps()
    ensures |BitmapsOf(BMAPSTART, FileBlocks(ScatterOwners(), 0))| == NDIRECT
  {
    hide ScatterOwners, UpTo;
    var maps, range := BitmapsOf(BMAPSTART, FileBlocks(ScatterOwners(), 0)), UpTo(BMAPSTART + 1, NDIRECT);
    forall x | x in maps ensures x in range {
      var b :| b in FileBlocks(ScatterOwners(), 0) && x == b / BPB + BMAPSTART;
      ScatterGroup(b, x);
    }
    forall x | x in range ensures x in maps {
      ScatterBlock(x);
    }
    assert maps == range;
  }

  /** `itrunc` of a file of 11 blocks: 11 bitmap blocks and the inode's. */
  method TruncTooMuch() returns (fs: Fs)
    ensures |fs.logged| == NDIRECT + 1 > MAXOPBLOCKS && fs.Valid() && |fs.inodes| == NINODES && fs.inodes[0].size == 0
  {
    hide FsOk, ScatterDisk, ScatterBitmap, ScatterOwners, Apart, BitmapsOf, FileBlocks;
    ScatterOk();
    ScatterMaps();
    LayoutApart(0);
    fs := new Fs(NMETA, BMAPSTART, INODESTART, ScatterDisk().inodes, ScatterDisk().blocks,
                 ScatterBitmap(), ScatterOwners());
    assert fs.T() == ScatterDisk();
    fs.Itrunc(0);
  }
}
