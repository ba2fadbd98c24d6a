/**
 The file system on top of the log: what a crash in the middle of a write leaves of the files.

 `Holds` says how kernel/fs.c lays inodes, the free bitmap and the blocks out on the disk (fs.h),
 in the words in which kernel/log.c moves blocks about. A transaction that carries the blocks an
 operation logged takes the disk from one such image to the other at once, or not at all.
 */
module CrashFiles {
  import opened InodeTree
  import opened FsLog
  import opened Params
  import opened Sets
  import opened FileSystem
  import Disk = CrashSafety

  // ---- the layout of the disk ----

  datatype Super = Super(inodestart: nat, bmapstart: nat, meta: nat)

  /** Log, inode blocks, bitmap and data blocks, in this order. */
  predicate Placed(sb: Super, l: Disk.Layout, size: nat, ninodes: nat) {
    && 0 < l.start && l.start + l.size <= sb.inodestart
    && sb.inodestart + ninodes / IPB < sb.bmapstart
    && sb.bmapstart + size / BPB < sb.meta <= size
  }

  function DataWords(b: Block): (r: Disk.Block) {
    seq(NINDIRECT, i requires 0 <= i < NINDIRECT => Entry(b, i))
  }

  function Pow2(k: nat): (r: nat)
    ensures r > 0
  {
    if k == 0 then 1 else 2 * Pow2(k - 1)
  }

  /** `k` bits of the bitmap from block `at` on, as a number. */
  function Bits(used: seq<bool>, at: nat, k: nat): (r: nat)
    ensures r < Pow2(k)
  {
    if k == 0 then 0
    else Bits(used, at, k - 1) + (if at + k - 1 < |used| && used[at + k - 1] then Pow2(k - 1) else 0)
  }

  function BitmapWords(used: seq<bool>, j: nat): (r: Disk.Block) {
    seq(NINDIRECT, i requires 0 <= i < NINDIRECT => Bits(used, j * BPB + 32 * i, 32))
  }

  const DINODE_WORDS := 16

  /**
   Word `f` of the dinode of inode `m`: type, device and link count, which are not modelled, then the size
   and the block numbers.
   */
  function DinodeWord(inodes: seq<Inode>, heads: seq<(int, int)>, m: nat, f: nat): (r: int) {
    if m >= |inodes| then 0
    else if f < 2 then if m >= |heads| then 0 else if f == 0 then heads[m].0 else heads[m].1
    else if f == 2 then inodes[m].size
    else if f - 3 < |inodes[m].addrs| then inodes[m].addrs[f - 3] else 0
  }

  function InodeWords(inodes: seq<Inode>, heads: seq<(int, int)>, j: nat): (r: Disk.Block) {
    seq(NINDIRECT, i requires 0 <= i < NINDIRECT =>
      DinodeWord(inodes, heads, j * IPB + i / DINODE_WORDS, i % DINODE_WORDS))
  }

  /** Block `b` of the disk, from the first inode block on. */
  function Encode(sb: Super, t: Tree, used: seq<bool>, heads: seq<(int, int)>, b: nat): (r: Disk.Block)
    requires sb.inodestart <= b < |t.blocks|
  {
    if b >= sb.meta then DataWords(t.blocks[b])
    else if b >= sb.bmapstart then BitmapWords(used, b - sb.bmapstart)
    else InodeWords(t.inodes, heads, b - sb.inodestart)
  }

  /** The disk holds these inodes, this bitmap and these blocks. */
  ghost predicate Holds(sb: Super, d: Disk.Disk, t: Tree, used: seq<bool>, heads: seq<(int, int)>) {
    |d| == |t.blocks| == |used| && forall b :: sb.inodestart <= b < |d| ==> d[b] == Encode(sb, t, used, heads, b)
  }

  lemma HeldSize(sb: Super, d: Disk.Disk, t: Tree, used: seq<bool>, heads: seq<(int, int)>)
    requires Holds(sb, d, t, used, heads)
    ensures |d| == |t.blocks| == |used|
  {
  }

  // ---- a disk holds one file system ----

  lemma DataWordsOnce(a: Block, b: Block)
    requires DataWords(a) == DataWords(b)
    ensures a == b
  {
    forall i | 0 <= i < BSIZE ensures a[i] == b[i] {
      var j := i / 4;
      assert DataWords(a)[j] == Entry(a, j) && DataWords(b)[j] == Entry(b, j);
      SameBytesOfEntry(a, b, j);
    }
  }

  lemma EntryDigits(b: Block, j: nat)
    requires j < NINDIRECT
    ensures var v := Entry(b, j);
      && v % 0x100 == b[4 * j] && v / 0x100 % 0x100 == b[4 * j + 1]
      && v / 0x1_0000 % 0x100 == b[4 * j + 2] && v / 0x100_0000 == b[4 * j + 3]
  {
    var v: int, b1: int, b2: int, b3: int := Entry(b, j), b[4 * j + 1], b[4 * j + 2], b[4 * j + 3];
    assert v / 0x100 == b1 + 0x100 * b2 + 0x1_0000 * b3;
    assert v / 0x1_0000 == b2 + 0x100 * b3;
  }

  lemma SameBytesOfEntry(a: Block, b: Block, j: nat)
    requires j < NINDIRECT && Entry(a, j) == Entry(b, j)
    ensures a[4 * j] == b[4 * j] && a[4 * j + 1] == b[4 * j + 1] && a[4 * j + 2] == b[4 * j + 2]
    ensures a[4 * j + 3] == b[4 * j + 3]
  {
    hide Entry;
    EntryDigits(a, j);
    EntryDigits(b, j);
  }

  lemma {:induction false} BitsOnce(u: seq<bool>, v: seq<bool>, at: nat, k: nat, i: nat)
    requires |u| == |v| && i < k && at + i < |u| && Bits(u, at, k) == Bits(v, at, k)
    ensures u[at + i] == v[at + i]
  {
    if i < k - 1 {
      BitsOnce(u, v, at, k - 1, i);
    }
  }

  lemma BitPlace(b: nat)
    ensures b % BPB / 32 < NINDIRECT && b == b / BPB * BPB + 32 * (b % BPB / 32) + b % 32
  {
    assert b % BPB % 32 == b % 32;
  }

  lemma BitmapWord(u: seq<bool>, j: nat, i: nat)
    requires i < NINDIRECT
    ensures BitmapWords(u, j)[i] == Bits(u, j * BPB + 32 * i, 32)
  {
    hide Bits;
  }

  lemma BitmapOnce(u: seq<bool>, v: seq<bool>, b: nat)
    requires |u| == |v| && b < |u| && BitmapWords(u, b / BPB) == BitmapWords(v, b / BPB)
    ensures u[b] == v[b]
  {
    hide Bits, BitmapWords;
    var j, i := b / BPB, b % BPB / 32;
    BitPlace(b);
    BitmapWord(u, j, i);
    BitmapWord(v, j, i);
    BitsOnce(u, v, j * BPB + 32 * i, 32, b % 32);
  }

  lemma InodeOnce(a: seq<Inode>, b: seq<Inode>, heads: seq<(int, int)>, m: nat)
    requires |a| == |b| && m < |a| && |a[m].addrs| == |b[m].addrs| == NIRECT + 1
    requires InodeWords(a, heads, m / IPB) == InodeWords(b, heads, m / IPB)
    ensures a[m] == b[m]
  {
    var j := m / IPB;
    forall f | 0 <= f < DINODE_WORDS ensures DinodeWord(a, heads, m, f) == DinodeWord(b, heads, m, f) {
      var i := m % IPB * DINODE_WORDS + f;
      assert i / DINODE_WORDS == m % IPB && i % DINODE_WORDS == f && j * IPB + m % IPB == m;
      assert InodeWords(a, heads, j)[i] == DinodeWord(a, heads, m, f);
      assert InodeWords(b, heads, j)[i] == DinodeWord(b, heads, m, f);
    }
    assert DinodeWord(a, heads, m, 2) == DinodeWord(b, heads, m, 2);
    forall i | 0 <= i <= NIRECT ensures a[m].addrs[i] == b[m].addrs[i] {
      assert DinodeWord(a, heads, m, i + 3) == DinodeWord(b, heads, m, i + 3);
    }
  }

  lemma HoldsBitmap(sb: Super, l: Disk.Layout, d: Disk.Disk, t: Tree, used: seq<bool>, heads: seq<(int, int)>, b: nat)
    requires Placed(sb, l, |d|, |t.inodes|) && Holds(sb, d, t, used, heads) && b < |d|
    ensures sb.bmapstart + b / BPB < |d| && d[sb.bmapstart + b / BPB] == BitmapWords(used, b / BPB)
  {
    hide BitmapWords, InodeWords, DataWords;
    DivBelow(b, |d|);
  }

  lemma HoldsInode(sb: Super, l: Disk.Layout, d: Disk.Disk, t: Tree, used: seq<bool>, heads: seq<(int, int)>, m: nat)
    requires Placed(sb, l, |d|, |t.inodes|) && Holds(sb, d, t, used, heads) && m < |t.inodes|
    ensures sb.inodestart + m / IPB < |d| && d[sb.inodestart + m / IPB] == InodeWords(t.inodes, heads, m / IPB)
  {
    hide BitmapWords, InodeWords, DataWords;
    DivBelow(m, |t.inodes|);
  }

  lemma HoldsData(sb: Super, l: Disk.Layout, d: Disk.Disk, t: Tree, used: seq<bool>, heads: seq<(int, int)>, b: nat)
    requires Placed(sb, l, |d|, |t.inodes|) && Holds(sb, d, t, used, heads) && sb.meta <= b < |d|
    ensures d[b] == DataWords(t.blocks[b])
  {
    hide BitmapWords, InodeWords, DataWords;
  }

  /** The image determines the inodes, the bitmap and the data area. */
  lemma HoldsOnce(sb: Super, l: Disk.Layout, d: Disk.Disk, t: Tree, used: seq<bool>, u: Tree, now: seq<bool>,
                  heads: seq<(int, int)>)
    requires Shaped(t) && Shaped(u) && |t.inodes| == |u.inodes| && Placed(sb, l, |d|, |t.inodes|)
    requires Holds(sb, d, t, used, heads) && Holds(sb, d, u, now, heads)
    ensures used == now && t.inodes == u.inodes && |d| == |t.blocks| == |u.blocks|
    ensures forall b :: sb.meta <= b < |d| ==> t.blocks[b] == u.blocks[b]
  {
    hide DataWords, BitmapWords, InodeWords, Holds, Placed;
    HeldSize(sb, d, t, used, heads);
    HeldSize(sb, d, u, now, heads);
    forall b | sb.meta <= b < |d| ensures t.blocks[b] == u.blocks[b] {
      HoldsData(sb, l, d, t, used, heads, b);
      HoldsData(sb, l, d, u, now, heads, b);
      DataWordsOnce(t.blocks[b], u.blocks[b]);
    }
    forall b | 0 <= b < |d| ensures used[b] == now[b] {
      HoldsBitmap(sb, l, d, t, used, heads, b);
      HoldsBitmap(sb, l, d, u, now, heads, b);
      BitmapOnce(used, now, b);
    }
    forall m | 0 <= m < |t.inodes| ensures t.inodes[m] == u.inodes[m] {
      HoldsInode(sb, l, d, t, used, heads, m);
      HoldsInode(sb, l, d, u, now, heads, m);
      InodeOnce(t.inodes, u.inodes, heads, m);
    }
  }

  lemma {:induction false} SameSlots(t: Tree, used: seq<bool>, o: map<nat, Slot>, u: Tree, meta: nat, m: nat, p: Path)
    requires FsOk(t, used, o, meta) && Shaped(u) && t.inodes == u.inodes && |t.blocks| == |u.blocks| && m < |t.inodes|
    requires ValidPath(p)
    requires forall b :: meta <= b < |t.blocks| ==> t.blocks[b] == u.blocks[b]
    ensures Ptr(u, m, p) == Ptr(t, m, p)
    decreases |p|
  {
    hide FilesMapped, BitmapExact;
    if |p| > 1 {
      SameSlots(t, used, o, u, meta, m, Parent(p));
    }
  }

  /** So whatever file system is found on the disk has the same files. */
  lemma FilesFound(sb: Super, l: Disk.Layout, d: Disk.Disk, t: Tree, used: seq<bool>, o: map<nat, Slot>,
                   u: Tree, now: seq<bool>, heads: seq<(int, int)>, m: nat)
    requires FsOk(t, used, o, sb.meta) && Shaped(u) && m < |t.inodes| == |u.inodes| && Placed(sb, l, |d|, |t.inodes|)
    requires Holds(sb, d, t, used, heads) && Holds(sb, d, u, now, heads)
    ensures Shaped(t) && t.inodes[m].size == u.inodes[m].size <= MAXFILE * BSIZE && Contents(u, m) == Contents(t, m)
  {
    hide Holds, Placed, BitmapExact, DataPath;
    HoldsOnce(sb, l, d, t, used, u, now, heads);
    assert MappedBelow(t, m, t.inodes[m].size);
    forall pos | 0 <= pos < t.inodes[m].size ensures ByteAt(u, m, pos) == ByteAt(t, m, pos) {
      SameSlots(t, used, o, u, sb.meta, m, DataPath(pos / BSIZE));
      assert Ptr(t, m, DataPath(pos / BSIZE)) != 0;
    }
    SameContents(t, u, m);
  }

  // ---- what an operation has to log ----

  /** Whatever changed, apart from blocks of the data area, is logged. */
  ghost predicate Covers(sb: Super, t: Tree, used: seq<bool>, u: Tree, now: seq<bool>, log: set<nat>) {
    && |t.blocks| == |u.blocks| == |used| == |now| && |t.inodes| == |u.inodes|
    && (forall m :: 0 <= m < |t.inodes| && u.inodes[m] != t.inodes[m] ==> m / IPB + sb.inodestart in log)
    && (forall b :: 0 <= b < |used| && now[b] != used[b] ==> b / BPB + sb.bmapstart in log)
  }

  /** The new state, with the blocks that were not logged as they were. */
  function Kept(t: Tree, u: Tree, log: set<nat>): (r: Tree)
    requires |t.blocks| == |u.blocks|
    ensures |r.blocks| == |t.blocks| && r.inodes == u.inodes
    ensures forall b :: 0 <= b < |t.blocks| ==> r.blocks[b] == if b in log then u.blocks[b] else t.blocks[b]
  {
    Tree(u.inodes, seq(|t.blocks|, b requires 0 <= b < |t.blocks| => if b in log then u.blocks[b] else t.blocks[b]))
  }

  lemma {:induction false} SameBits(u: seq<bool>, v: seq<bool>, at: nat, k: nat)
    requires |u| == |v| && forall b :: at <= b < at + k && b < |u| ==> u[b] == v[b]
    ensures Bits(u, at, k) == Bits(v, at, k)
  {
    if k > 0 {
      SameBits(u, v, at, k - 1);
    }
  }

  lemma SameGroup(j: nat, i: nat, b: nat)
    requires i < NINDIRECT && j * BPB + 32 * i <= b < j * BPB + 32 * i + 32
    ensures b / BPB == j
  {
  }

  lemma SameBitmap(sb: Super, t: Tree, used: seq<bool>, u: Tree, now: seq<bool>, log: set<nat>, j: nat)
    requires Covers(sb, t, used, u, now, log) && j + sb.bmapstart !in log
    ensures BitmapWords(used, j) == BitmapWords(now, j)
  {
    hide Bits;
    forall i | 0 <= i < NINDIRECT ensures Bits(used, j * BPB + 32 * i, 32) == Bits(now, j * BPB + 32 * i, 32) {
      forall b | j * BPB + 32 * i <= b < j * BPB + 32 * i + 32 && b < |used| ensures used[b] == now[b] {
        SameGroup(j, i, b);
      }
      SameBits(used, now, j * BPB + 32 * i, 32);
    }
  }

  lemma SameInodes(sb: Super, t: Tree, used: seq<bool>, u: Tree, now: seq<bool>, log: set<nat>,
                   heads: seq<(int, int)>, j: nat)
    requires Covers(sb, t, used, u, now, log) && j + sb.inodestart !in log
    ensures InodeWords(t.inodes, heads, j) == InodeWords(u.inodes, heads, j)
  {
    forall i | 0 <= i < NINDIRECT
      ensures DinodeWord(t.inodes, heads, j * IPB + i / DINODE_WORDS, i % DINODE_WORDS)
           == DinodeWord(u.inodes, heads, j * IPB + i / DINODE_WORDS, i % DINODE_WORDS)
    {
      var m := j * IPB + i / DINODE_WORDS;
      assert m / IPB == j;
    }
  }

  /** A block that was not logged is the same in both images. */
  lemma UnloggedSame(sb: Super, t: Tree, used: seq<bool>, u: Tree, now: seq<bool>, log: set<nat>,
                     heads: seq<(int, int)>, b: nat)
    requires Covers(sb, t, used, u, now, log) && sb.inodestart <= b < |t.blocks| && b !in log
    ensures Encode(sb, t, used, heads, b) == Encode(sb, Kept(t, u, log), now, heads, b)
  {
    hide DataWords, BitmapWords, InodeWords, Covers;
    if b >= sb.meta {
    } else if b >= sb.bmapstart {
      SameBitmap(sb, t, used, u, now, log, b - sb.bmapstart);
    } else {
      SameInodes(sb, t, used, u, now, log, heads, b - sb.inodestart);
    }
  }

  lemma LogInRange(l: Disk.Layout, d: Disk.Disk)
    requires Disk.WellFormed(l, d)
    ensures l.start < |d|
  {
  }

  // ---- a transaction on the image ----

  /** The transaction holds the logged blocks, in some order, with their new contents. */
  ghost predicate Carries(sb: Super, u: Tree, now: seq<bool>, heads: seq<(int, int)>, log: set<nat>, blocks: seq<nat>,
                          data: seq<Disk.Block>) {
    && |blocks| == |data|
    && (forall x :: x in blocks <==> x in log)
    && forall i :: 0 <= i < |blocks| ==>
         sb.inodestart <= blocks[i] < |u.blocks| && data[i] == Encode(sb, u, now, heads, blocks[i])
  }

  lemma CommittedHolds(sb: Super, l: Disk.Layout, d: Disk.Disk, r: Disk.Disk, t: Tree, used: seq<bool>, u: Tree,
                       now: seq<bool>,
                       heads: seq<(int, int)>, log: set<nat>, blocks: seq<nat>, data: seq<Disk.Block>)
    requires Placed(sb, l, |d|, |t.inodes|) && Holds(sb, d, t, used, heads) && Covers(sb, t, used, u, now, log)
    requires Carries(sb, u, now, heads, log, blocks, data) && Disk.Committed(l, d, r, blocks, data)
    ensures Holds(sb, r, Kept(t, u, log), now, heads)
  {
    hide DataWords, BitmapWords, InodeWords;
    forall b | sb.inodestart <= b < |d| ensures r[b] == Encode(sb, Kept(t, u, log), now, heads, b) {
      if b in blocks {
        var i :| 0 <= i < |blocks| && blocks[i] == b;
        assert r[blocks[i]] == data[i];
      } else {
        UnloggedSame(sb, t, used, u, now, log, heads, b);
      }
    }
  }

  lemma SameHomeHolds(sb: Super, l: Disk.Layout, d: Disk.Disk, r: Disk.Disk, t: Tree, used: seq<bool>,
                      heads: seq<(int, int)>)
    requires Placed(sb, l, |d|, |t.inodes|) && Holds(sb, d, t, used, heads) && Disk.SameHome(l, r, d)
    ensures Holds(sb, r, t, used, heads)
  {
  }

  lemma SizesAgree(sb: Super, d: Disk.Disk, t: Tree, used: seq<bool>, u: Tree, now: seq<bool>,
                   heads: seq<(int, int)>, log: set<nat>, blocks: seq<nat>, data: seq<Disk.Block>)
    requires Holds(sb, d, t, used, heads) && Covers(sb, t, used, u, now, log)
    requires Carries(sb, u, now, heads, log, blocks, data)
    ensures |t.blocks| == |u.blocks| == |d| && |blocks| == |data|
  {
  }

  /**
   A crash at any point of the commit of an operation, and any crashes in the recoveries after it, leave one
   image or the other.
   */
  lemma OperationAtomic(sb: Super, l: Disk.Layout, d: Disk.Disk, t: Tree, used: seq<bool>, u: Tree, now: seq<bool>,
                        heads: seq<(int, int)>, log: set<nat>, blocks: seq<nat>, data: seq<Disk.Block>, k: nat,
                        crashes: seq<nat>)
    requires Placed(sb, l, |d|, |t.inodes|) && Holds(sb, d, t, used, heads) && Covers(sb, t, used, u, now, log)
    requires Disk.WellFormed(l, d) && Disk.HeaderCount(l, d) == 0 && Disk.Transaction(l, |d|, blocks, data)
    requires Carries(sb, u, now, heads, log, blocks, data) && k <= |Disk.CommitWrites(l, d[l.start], blocks, data)|
    ensures var e := Disk.Apply(d, Disk.CommitWrites(l, d[l.start], blocks, data)[..k]);
      && Disk.WellFormed(l, e)
      && var r := Disk.RecoverThrough(l, e, crashes);
      && |r| == |d| && Disk.WellFormed(l, r) && Disk.HeaderCount(l, r) == 0
      && if Disk.PastCommitPoint(blocks, k) then Holds(sb, r, Kept(t, u, log), now, heads)
         else Holds(sb, r, t, used, heads)
  {
    hide Disk.CommitWrites, Disk.WellFormed, Disk.HomeBlocks, Disk.Apply, Disk.Committed;
    hide Disk.SameHome, Disk.RecoverThrough, Holds, Covers, Kept, Carries;
    SizesAgree(sb, d, t, used, u, now, heads, log, blocks, data);
    Disk.CommitAtomic(l, d, blocks, data, k, crashes);
    var e := Disk.Apply(d, Disk.CommitWrites(l, d[l.start], blocks, data)[..k]);
    var r := Disk.RecoverThrough(l, e, crashes);
    if Disk.PastCommitPoint(blocks, k) {
      CommittedHolds(sb, l, d, r, t, used, u, now, heads, log, blocks, data);
    } else {
      SameHomeHolds(sb, l, d, r, t, used, heads);
    }
  }

  // ---- writei as an operation ----

  /** What `writei` ensures when it was not refused, in a transaction of its own. */
  ghost predicate Wrote(sb: Super, t: Tree, used: seq<bool>, o0: map<nat, Slot>, u: Tree, now: seq<bool>,
                        o: map<nat, Slot>, log: set<nat>,
                        n: nat, off: nat, tot: nat, w: nat, src: seq<Byte>) {
    && FsOk(t, used, o0, sb.meta) && FsOk(u, now, o, sb.meta) && Grown(t, u) && Extends(o0, o)
    && FreshIn(o0, o, n, Ways(off, |src|))
    && n < |t.inodes| && tot <= w && WriteEffect(t, u, n, off, tot, w, src)
    && log == AllocLog(sb.bmapstart, u, o0, o) + DataLog(u, n, off, tot) + {n / IPB + sb.inodestart}
    && Confined(t, u, log, StrayBlock(u, n, off, tot, w))
    && (forall m :: 0 <= m < |t.inodes| && m != n ==> u.inodes[m] == t.inodes[m])
    && (w > tot ==> Left(t, u, log, n, off, tot, w))
  }

  /** The bytes left uncounted are in one block, with no counted bytes; it is logged if it is new. */
  ghost predicate Left(t: Tree, u: Tree, log: set<nat>, n: nat, off: nat, tot: nat, w: nat)
    requires Shaped(t) && Shaped(u) && n < |t.inodes| == |u.inodes|
  {
    && AtStart(off, tot) && (off + tot) % BSIZE + (w - tot) < BSIZE && off + tot < MAXFILE * BSIZE
    && (Ptr(u, n, DataPath((off + tot) / BSIZE)) in log <==> Ptr(t, n, DataPath((off + tot) / BSIZE)) == 0)
  }

  lemma WriteCovers(sb: Super, t: Tree, used: seq<bool>, o0: map<nat, Slot>, u: Tree, now: seq<bool>,
                    o: map<nat, Slot>, log: set<nat>,
                    n: nat, off: nat, tot: nat, w: nat, src: seq<Byte>)
    requires Wrote(sb, t, used, o0, u, now, o, log, n, off, tot, w, src)
    ensures Covers(sb, t, used, u, now, log)
  {
    hide Owned, FilesMapped, WriteEffect, Confined, DataLog, NewParents, Left, Fresh, FreshIn, Grown;
    GrownShape(t, u);
    forall b | 0 <= b < |used| && now[b] != used[b] ensures b / BPB + sb.bmapstart in log {
      assert b in o && b !in o0;
      assert b / BPB + sb.bmapstart in NewBitmaps(sb.bmapstart, o0, o);
    }
  }

  lemma OneOffTree(t: Tree, u: Tree, a: nat, b: Block)
    requires a < |u.blocks| == |t.blocks| && t.inodes == u.inodes && t.blocks[a] == b
    requires forall x :: 0 <= x < |u.blocks| && x != a ==> t.blocks[x] == u.blocks[x]
    ensures t == u.(blocks := u.blocks[a := b])
  {
    assert t.blocks == u.blocks[a := b];
  }

  /** Uncounted bytes in a new block lie past the end of the file. */
  lemma NewBlockPastEnd(t: Tree, n: nat, off: nat, tot: nat, w: nat)
    requires FilesMapped(t) && n < |t.inodes| && off <= t.inodes[n].size && off + tot < MAXFILE * BSIZE
    requires AtStart(off, tot)
    requires Ptr(t, n, DataPath((off + tot) / BSIZE)) == 0
    ensures t.inodes[n].size <= off + tot
  {
    assert MappedBelow(t, n, t.inodes[n].size);
    var bn := (off + tot) / BSIZE;
    assert !(bn * BSIZE < t.inodes[n].size);
  }

  lemma CutShort(s: seq<Byte>, off: nat, src: seq<Byte>, tot: nat, w: nat)
    requires off <= |s| <= off + tot && tot <= w <= |src|
    ensures off + tot <= |Splice(s, off, src[..w])| && off + tot <= |Splice(s, off, src[..tot])|
    ensures Splice(s, off, src[..w])[..off + tot] == Splice(s, off, src[..tot])[..off + tot]
  {
  }

  lemma SpliceAt(s: seq<Byte>, off: nat, data: seq<Byte>, pos: nat)
    requires off <= |s| && pos < |Splice(s, off, data)|
    ensures Splice(s, off, data)[pos] ==
      if off <= pos < off + |data| then data[pos - off] else if pos < |s| then s[pos] else 0
  {
  }

  /** With the unlogged block as it was, exactly the counted bytes are written. */
  lemma Undone(sb: Super, t: Tree, used: seq<bool>, o0: map<nat, Slot>, u: Tree, now: seq<bool>, o: map<nat, Slot>,
               log: set<nat>,
               n: nat, off: nat, tot: nat, w: nat, src: seq<Byte>)
    requires Wrote(sb, t, used, o0, u, now, o, log, n, off, tot, w, src) && w > tot
    requires Ptr(u, n, DataPath((off + tot) / BSIZE)) !in log
    ensures FsOk(Kept(t, u, log), now, o, sb.meta) && WriteEffect(t, Kept(t, u, log), n, off, tot, tot, src)
  {
    hide AllocLog, DataLog, Extends, FreshIn, BitmapExact, Splice;
    var bn := (off + tot) / BSIZE;
    var a, v := Ptr(u, n, DataPath(bn)), Kept(t, u, log);
    assert Ptr(t, n, DataPath(bn)) == a != 0;
    WriteBlock(u, o, sb.meta, n, bn, t.blocks[a]);
    OneOffTree(v, u, a, t.blocks[a]);
    GrowsKeepsFiles(u, v);
    forall m | 0 <= m < |t.inodes| && m != n ensures Contents(v, m) == Contents(t, m) {
      assert Contents(u, m) == Contents(t, m);
      SameContents(u, v, m);
    }
    UndoneBytes(t, u, v, n, off, tot, w, src);
  }

  lemma SameContents(u: Tree, v: Tree, m: nat)
    requires Shaped(u) && Shaped(v) && m < |u.inodes| == |v.inodes|
    requires u.inodes[m].size == v.inodes[m].size <= MAXFILE * BSIZE
    requires forall pos :: 0 <= pos < u.inodes[m].size ==> ByteAt(v, m, pos) == ByteAt(u, m, pos)
    ensures Contents(v, m) == Contents(u, m)
  {
  }

  lemma UndoneBytes(t: Tree, u: Tree, v: Tree, n: nat, off: nat, tot: nat, w: nat, src: seq<Byte>)
    requires WriteEffect(t, u, n, off, tot, w, src) && Shaped(v) && |v.inodes| == |u.inodes| && v.inodes == u.inodes
    requires AtStart(off, tot) && tot < w && (off + tot) % BSIZE + (w - tot) < BSIZE && off + tot < MAXFILE * BSIZE
    requires forall pos :: 0 <= pos < MAXFILE * BSIZE ==>
      ByteAt(v, n, pos) == if pos / BSIZE == (off + tot) / BSIZE then ByteAt(t, n, pos) else ByteAt(u, n, pos)
    ensures u.inodes[n].size <= |Splice(Contents(t, n), off, src[..tot])|
    ensures Contents(v, n) == Splice(Contents(t, n), off, src[..tot])[..u.inodes[n].size]
  {
    hide ByteAt, Splice;
    var c, size := Contents(t, n), u.inodes[n].size;
    var x, y := Splice(c, off, src[..w]), Splice(c, off, src[..tot]);
    SpliceSize(c, off, src[..tot]);
    forall pos | 0 <= pos < size ensures ByteAt(v, n, pos) == y[pos] {
      SpliceAt(c, off, src[..w], pos);
      SpliceAt(c, off, src[..tot], pos);
      assert Contents(u, n)[pos] == x[pos];
      if off + tot <= pos < off + w {
        assert pos / BSIZE == (off + tot) / BSIZE;
      }
    }
  }

  lemma SpliceSize(s: seq<Byte>, off: nat, data: seq<Byte>)
    requires off <= |s|
    ensures |Splice(s, off, data)| == if off + |data| > |s| then off + |data| else |s|
  {
  }

  /**
   The state a committed `writei` leaves on the disk: a file system in which exactly the counted bytes are
   written.
   */
  lemma KeptEffect(sb: Super, t: Tree, used: seq<bool>, o0: map<nat, Slot>, u: Tree, now: seq<bool>,
                   o: map<nat, Slot>, log: set<nat>,
                   n: nat, off: nat, tot: nat, w: nat, src: seq<Byte>)
    requires Wrote(sb, t, used, o0, u, now, o, log, n, off, tot, w, src)
    ensures |t.blocks| == |u.blocks| && FsOk(Kept(t, u, log), now, o, sb.meta)
    ensures WriteEffect(t, Kept(t, u, log), n, off, tot, tot, src)
  {
    hide AllocLog, DataLog, Extends, FreshIn, Owned, BitmapExact, Splice, FilesMapped;
    if w > tot && Ptr(u, n, DataPath((off + tot) / BSIZE)) !in log {
      Undone(sb, t, used, o0, u, now, o, log, n, off, tot, w, src);
    } else {
      assert Kept(t, u, log).blocks == u.blocks;
      if w > tot {
        NewBlockPastEnd(t, n, off, tot, w);
        CutShort(Contents(t, n), off, src, tot, w);
      }
    }
  }

  // ---- the blocks of the transaction ----

  lemma {:induction false} ListSize(blocks: seq<nat>, log: set<nat>)
    requires forall i, j {:trigger Disk.Repeats(blocks, i, j)} :: 0 <= i < j < |blocks| ==> !Disk.Repeats(blocks, i, j)
    requires forall x :: x in blocks <==> x in log
    ensures |blocks| == |log|
  {
    if blocks == [] {
      assert log == {};
    } else {
      var last, init := blocks[|blocks| - 1], blocks[..|blocks| - 1];
      assert blocks == init + [last];
      forall i | 0 <= i < |init| ensures init[i] != last {
        assert !Disk.Repeats(blocks, i, |blocks| - 1);
      }
      forall i, j | 0 <= i < j < |init| ensures !Disk.Repeats(init, i, j) {
        assert !Disk.Repeats(blocks, i, j);
      }
      ListSize(init, log - {last});
    }
  }

  lemma AreaPlaced(u: Tree, now: seq<bool>, o0: map<nat, Slot>, o: map<nat, Slot>, meta: nat, n: nat, off: nat,
                   tot: nat, x: nat)
    requires FsOk(u, now, o, meta) && MappedBelow(u, n, off + tot)
    requires x in Fresh(o0, o) + NewParents(u, o0, o) + DataLog(u, n, off, tot)
    ensures meta <= x < |u.blocks|
  {
    hide FilesMapped, DataPath, BitmapExact;
    if x in NewParents(u, o0, o) {
      var b :| b in o && b !in o0 && Nested(u, o[b]) && Above(u, o[b]) == x;
      assert Ptr(u, o[b].inum, o[b].path) == b;
      PrefixMapped(u, o[b].inum, o[b].path);
    } else if x in DataLog(u, n, off, tot) {
      var bn: nat :| bn < MAXFILE && InRange(bn, off, tot) && Ptr(u, n, DataPath(bn)) == x;
      assert x != 0;
    }
  }

  lemma BitmapRange(sb: Super, l: Disk.Layout, size: nat, ninodes: nat, b: nat)
    requires Placed(sb, l, size, ninodes) && b < size
    ensures sb.inodestart <= b / BPB + sb.bmapstart < sb.meta <= size
  {
    DivBelow(b, size);
  }

  lemma OwnerInRange(u: Tree, now: seq<bool>, o: map<nat, Slot>, meta: nat, b: nat)
    requires FsOk(u, now, o, meta) && b in o
    ensures meta <= b < |u.blocks|
  {
  }

  lemma BitmapPlaced(sb: Super, l: Disk.Layout, u: Tree, now: seq<bool>, o0: map<nat, Slot>, o: map<nat, Slot>, x: nat)
    requires FsOk(u, now, o, sb.meta) && Placed(sb, l, |u.blocks|, |u.inodes|) && x in NewBitmaps(sb.bmapstart, o0, o)
    ensures sb.inodestart <= x < |u.blocks|
  {
    hide FsOk, Placed;
    var b :| b in o && b !in o0 && x == b / BPB + sb.bmapstart;
    OwnerInRange(u, now, o, sb.meta, b);
    BitmapRange(sb, l, |u.blocks|, |u.inodes|, b);
  }

  lemma DivBelow(a: nat, b: nat)
    requires a <= b
    ensures a / BPB <= b / BPB && a / IPB <= b / IPB
  {
  }

  lemma LoggedPlaced(sb: Super, l: Disk.Layout, t: Tree, used: seq<bool>, o0: map<nat, Slot>, u: Tree, now: seq<bool>,
                     o: map<nat, Slot>,
                     log: set<nat>, n: nat, off: nat, tot: nat, w: nat, src: seq<Byte>, x: nat)
    requires Wrote(sb, t, used, o0, u, now, o, log, n, off, tot, w, src) && Placed(sb, l, |u.blocks|, |u.inodes|)
    requires MappedBelow(u, n, off + tot) && x in log
    ensures sb.inodestart <= x < |u.blocks|
  {
    hide FsOk, Grown, WriteEffect, Confined, Left, Extends;
    hide FreshIn, MappedBelow, Fresh, NewBitmaps, NewParents, DataLog;
    if x == n / IPB + sb.inodestart {
      WroteShape(sb, t, used, o0, u, now, o, log, n, off, tot, w, src);
      DivBelow(n, |u.inodes|);
    } else if x in NewBitmaps(sb.bmapstart, o0, o) {
      BitmapPlaced(sb, l, u, now, o0, o, x);
    } else {
      AreaPlaced(u, now, o0, o, sb.meta, n, off, tot, x);
    }
  }

  lemma WroteShape(sb: Super, t: Tree, used: seq<bool>, o0: map<nat, Slot>, u: Tree, now: seq<bool>,
                   o: map<nat, Slot>, log: set<nat>,
                   n: nat, off: nat, tot: nat, w: nat, src: seq<Byte>)
    requires Wrote(sb, t, used, o0, u, now, o, log, n, off, tot, w, src)
    ensures Shaped(t) && Shaped(u) && |t.blocks| == |u.blocks| && n < |t.inodes| == |u.inodes|
  {
  }

  /** The new contents of the blocks. */
  function NewData(sb: Super, u: Tree, now: seq<bool>, heads: seq<(int, int)>, blocks: seq<nat>): (r: seq<Disk.Block>)
    requires forall i :: 0 <= i < |blocks| ==> sb.inodestart <= blocks[i] < |u.blocks|
    ensures |r| == |blocks| && forall i :: 0 <= i < |blocks| ==> r[i] == Encode(sb, u, now, heads, blocks[i])
  {
    seq(|blocks|, i requires 0 <= i < |blocks| => Encode(sb, u, now, heads, blocks[i]))
  }

  /** The logged blocks in the order in which they came, each once. */
  ghost predicate Lists(blocks: seq<nat>, log: set<nat>) {
    && (forall x :: x in blocks <==> x in log)
    && (forall i, j {:trigger Disk.Repeats(blocks, i, j)} :: 0 <= i < j < |blocks| ==> !Disk.Repeats(blocks, i, j))
  }

  lemma WriteIsTransaction(sb: Super, l: Disk.Layout, d: Disk.Disk, t: Tree, used: seq<bool>, o0: map<nat, Slot>,
                           u: Tree, now: seq<bool>, o: map<nat, Slot>, heads: seq<(int, int)>, log: set<nat>,
                           n: nat, off: nat, tot: nat, w: nat, src: seq<Byte>, blocks: seq<nat>)
    requires Wrote(sb, t, used, o0, u, now, o, log, n, off, tot, w, src) && Lists(blocks, log) && |log| <= LOGSIZE
    requires Placed(sb, l, |d|, |t.inodes|) && |d| == |u.blocks|
    ensures forall i :: 0 <= i < |blocks| ==> sb.inodestart <= blocks[i] < |u.blocks|
    ensures Disk.Transaction(l, |d|, blocks, NewData(sb, u, now, heads, blocks))
    ensures Carries(sb, u, now, heads, log, blocks, NewData(sb, u, now, heads, blocks))
  {
    hide FsOk, Grown, Confined, Left, Extends, FreshIn, AllocLog, DataLog, Encode;
    WroteMapped(sb, t, used, o0, u, now, o, log, n, off, tot, w, src);
    forall i | 0 <= i < |blocks| ensures sb.inodestart <= blocks[i] < |u.blocks| {
      assert blocks[i] in blocks;
      LoggedPlaced(sb, l, t, used, o0, u, now, o, log, n, off, tot, w, src, blocks[i]);
    }
    ListSize(blocks, log);
  }

  lemma WroteMapped(sb: Super, t: Tree, used: seq<bool>, o0: map<nat, Slot>, u: Tree, now: seq<bool>,
                    o: map<nat, Slot>, log: set<nat>,
                    n: nat, off: nat, tot: nat, w: nat, src: seq<Byte>)
    requires Wrote(sb, t, used, o0, u, now, o, log, n, off, tot, w, src)
    ensures MappedBelow(u, n, off + tot) && |u.inodes| == |t.inodes|
  {
    hide Owned, BitmapExact, Grown, Confined, Left, Extends, FreshIn, AllocLog, DataLog;
    assert MappedBelow(u, n, u.inodes[n].size);
  }

  // ---- the theorem ----

  /**
   A `writei` in a transaction of its own, and a crash after any number of the commit's block writes,
   with any crashes in the recoveries after it: the disk holds the files as they were if the header
   was not reached, and otherwise exactly the counted bytes written, whatever bytes were left
   uncounted in a buffer.
   */
  lemma WriteAtomic(sb: Super, l: Disk.Layout, d: Disk.Disk, t: Tree, used: seq<bool>, o0: map<nat, Slot>,
                    u: Tree, now: seq<bool>, o: map<nat, Slot>, heads: seq<(int, int)>, log: set<nat>,
                    n: nat, off: nat, tot: nat, w: nat, src: seq<Byte>, blocks: seq<nat>, k: nat, crashes: seq<nat>)
    requires Placed(sb, l, |d|, |t.inodes|) && Holds(sb, d, t, used, heads) && Disk.WellFormed(l, d)
    requires Disk.HeaderCount(l, d) == 0
    requires Wrote(sb, t, used, o0, u, now, o, log, n, off, tot, w, src) && Lists(blocks, log) && |log| <= LOGSIZE
    ensures |d| == |u.blocks| && forall i :: 0 <= i < |blocks| ==> sb.inodestart <= blocks[i] < |u.blocks|
    ensures var data := NewData(sb, u, now, heads, blocks);
      && |blocks| <= LOGSIZE
      && (k <= |Disk.CommitWrites(l, d[l.start], blocks, data)| ==>
            var e := Disk.Apply(d, Disk.CommitWrites(l, d[l.start], blocks, data)[..k]);
            && Disk.WellFormed(l, e)
            && var r := Disk.RecoverThrough(l, e, crashes);
            && |r| == |d| && Disk.WellFormed(l, r) && Disk.HeaderCount(l, r) == 0
            && if Disk.PastCommitPoint(blocks, k) then
              && |t.blocks| == |u.blocks| && Holds(sb, r, Kept(t, u, log), now, heads)
              && FsOk(Kept(t, u, log), now, o, sb.meta) && WriteEffect(t, Kept(t, u, log), n, off, tot, tot, src)
            else Holds(sb, r, t, used, heads))
  {
    hide Disk.CommitWrites, Disk.WellFormed, Disk.HomeBlocks, Disk.Apply, Disk.RecoverThrough;
    hide Holds, Covers, Kept, Carries, FsOk, WriteEffect, Wrote, Lists, NewData;
    WroteShape(sb, t, used, o0, u, now, o, log, n, off, tot, w, src);
    HeldSize(sb, d, t, used, heads);
    WriteCovers(sb, t, used, o0, u, now, o, log, n, off, tot, w, src);
    WriteIsTransaction(sb, l, d, t, used, o0, u, now, o, heads, log, n, off, tot, w, src, blocks);
    KeptEffect(sb, t, used, o0, u, now, o, log, n, off, tot, w, src);
    var data := NewData(sb, u, now, heads, blocks);
    if k <= |Disk.CommitWrites(l, d[l.start], blocks, data)| {
      OperationAtomic(sb, l, d, t, used, u, now, heads, log, blocks, data, k, crashes);
    }
  }

  // ---- writing a file on a disk that may crash ----

  /** `writei` in a transaction of its own does what `Wrote` says. */
  method WriteOp(fs: Fs, n: nat, src: seq<Byte>, avail: nat, off: nat, ghost sb: Super, ghost l: Disk.Layout)
    returns (tot: int, ghost w: nat)
    requires fs.Valid() && n < |fs.inodes| && off < WORD && |src| <= CHUNK
    requires sb == Super(fs.inodestart, fs.bmapstart, fs.meta) && Placed(sb, l, |fs.blocks|, |fs.inodes|)
    modifies fs
    ensures fs.Valid() && |fs.inodes| == old(|fs.inodes|) && |fs.blocks| == old(|fs.blocks|)
    ensures tot == -1 <==> off > old(fs.inodes[n].size) || off + |src| >= WORD || off + |src| > MAXFILE * BSIZE
    ensures tot == -1 ==> fs.T() == old(fs.T()) && fs.used == old(fs.used) && fs.owner == old(fs.owner)
    ensures tot != -1 ==> 0 <= tot <= w <= |src| && (tot == |src| ==> w == tot) && |fs.logged| <= LOGSIZE
    ensures tot != -1 ==>
      Wrote(sb, old(fs.T()), old(fs.used), old(fs.owner), fs.T(), fs.used, fs.owner, fs.logged, n, off, tot, w, src)
    ensures tot != -1 ==> Shaped(old(fs.T())) && Furthest(old(fs.T()), old(fs.used), n, off, |src|, avail, tot)
    ensures tot == |src| || avail < |src| || tot == -1 || forall b :: 0 <= b < |fs.used| ==> fs.used[b]
  {
    hide Furthest, Ways;
    hide FsOk, WriteEffect, AllocLog, DataLog, LogCount, Room, NewBitmaps, Grown, Extends, FreshIn, Apart, AtStart;
    SuperApart(sb, l, |fs.blocks|, |fs.inodes|, n);
    fs.logged := {};
    tot, w := fs.Writei(n, src, avail, off);
    assert fs.logged - {} == fs.logged;
  }

  lemma SuperApart(sb: Super, l: Disk.Layout, size: nat, ninodes: nat, n: nat)
    requires Placed(sb, l, size, ninodes) && n < ninodes
    ensures Apart(sb.bmapstart, n / IPB + sb.inodestart, sb.meta, size)
  {
    DivBelow(n, ninodes);
    forall b: nat | b < size ensures b / BPB + sb.bmapstart < sb.meta {
      DivBelow(b, size);
    }
  }

  /** The commit of a `writei` runs to its end. */
  lemma WriteCommits(sb: Super, l: Disk.Layout, d: Disk.Disk, t: Tree, used: seq<bool>, o0: map<nat, Slot>,
                     u: Tree, now: seq<bool>, o: map<nat, Slot>, heads: seq<(int, int)>, log: set<nat>,
                     n: nat, off: nat, tot: nat, w: nat, src: seq<Byte>, blocks: seq<nat>)
    requires Placed(sb, l, |d|, |t.inodes|) && Holds(sb, d, t, used, heads) && Disk.WellFormed(l, d)
    requires Disk.HeaderCount(l, d) == 0
    requires Wrote(sb, t, used, o0, u, now, o, log, n, off, tot, w, src) && Lists(blocks, log) && |log| <= LOGSIZE
    ensures |d| == |u.blocks| == |t.blocks| && forall i :: 0 <= i < |blocks| ==> sb.inodestart <= blocks[i] < |u.blocks|
    ensures var data := NewData(sb, u, now, heads, blocks);
      && |blocks| <= LOGSIZE
      && var e := Disk.Apply(d, Disk.CommitWrites(l, d[l.start], blocks, data));
      && Disk.WellFormed(l, e) && Disk.HeaderCount(l, e) == 0 && Holds(sb, e, Kept(t, u, log), now, heads)
      && FsOk(Kept(t, u, log), now, o, sb.meta) && WriteEffect(t, Kept(t, u, log), n, off, tot, tot, src)
      && (w == tot ==> Kept(t, u, log) == u)
  {
    hide Disk.CommitWrites, Disk.WellFormed, Disk.HomeBlocks, Disk.Apply, Disk.Committed, Disk.HeaderCount;
    hide Holds, Covers, Kept, Carries, FsOk, WriteEffect, Wrote, Lists, NewData, Placed;
    LogInRange(l, d);
    WroteShape(sb, t, used, o0, u, now, o, log, n, off, tot, w, src);
    HeldSize(sb, d, t, used, heads);
    WriteCovers(sb, t, used, o0, u, now, o, log, n, off, tot, w, src);
    WriteIsTransaction(sb, l, d, t, used, o0, u, now, o, heads, log, n, off, tot, w, src, blocks);
    KeptEffect(sb, t, used, o0, u, now, o, log, n, off, tot, w, src);
    KeptAll(sb, t, used, o0, u, now, o, log, n, off, tot, w, src);
    var data := NewData(sb, u, now, heads, blocks);
    Disk.CommitCompletes(l, d, blocks, data);
    CommittedHolds(sb, l, d, Disk.Apply(d, Disk.CommitWrites(l, d[l.start], blocks, data)), t, used, u, now, heads,
                   log, blocks, data);
  }

  lemma KeptAll(sb: Super, t: Tree, used: seq<bool>, o0: map<nat, Slot>, u: Tree, now: seq<bool>, o: map<nat, Slot>,
                log: set<nat>,
                n: nat, off: nat, tot: nat, w: nat, src: seq<Byte>)
    requires Wrote(sb, t, used, o0, u, now, o, log, n, off, tot, w, src)
    ensures |t.blocks| == |u.blocks| && (w == tot ==> Kept(t, u, log) == u)
  {
    hide AllocLog, DataLog, Extends, FreshIn, FsOk, WriteEffect, Grown;
    if w == tot {
      assert Kept(t, u, log).blocks == u.blocks;
    }
  }

  lemma {:induction false} SomeOrder(log: set<nat>) returns (blocks: seq<nat>)
    ensures Lists(blocks, log)
  {
    if log == {} {
      blocks := [];
    } else {
      var x :| x in log;
      var rest := SomeOrder(log - {x});
      blocks := rest + [x];
      forall i, j | 0 <= i < j < |blocks| ensures !Disk.Repeats(blocks, i, j) {
        assert !Disk.Repeats(rest, i, j);
        assert rest[i] in rest;
      }
      forall y ensures y in blocks <==> y in log {
        assert y in blocks <==> y in rest || y == x;
      }
    }
  }

  /**
   Where the machine stops: in which chunk, after how many writes of its commit, and in which recoveries
   after that.
   */
  datatype Crash = Never | In(chunk: nat, writes: nat, recoveries: seq<nat>)

  /** The disk holds a file system with the first `j` bytes of the source in file `n`, and nothing else of it. */
  ghost predicate PrefixOnDisk(sb: Super, l: Disk.Layout, d: Disk.Disk, t0: Tree, t: Tree, used: seq<bool>,
                               o: map<nat, Slot>,
                               heads: seq<(int, int)>,
                               n: nat, off: nat, j: nat, src: seq<Byte>) {
    && Disk.WellFormed(l, d) && Disk.HeaderCount(l, d) == 0 && Holds(sb, d, t, used, heads) && FsOk(t, used, o, sb.meta)
    && n < |t0.inodes|
    && (if off <= t0.inodes[n].size then WriteEffect(t0, t, n, off, j, j, src) else j == 0 && t == t0)
  }

  lemma Prefix(sb: Super, l: Disk.Layout, d: Disk.Disk, t0: Tree, t: Tree, used: seq<bool>, o: map<nat, Slot>,
               heads: seq<(int, int)>,
               n: nat, off: nat, j: nat, src: seq<Byte>)
    requires PrefixOnDisk(sb, l, d, t0, t, used, o, heads, n, off, j, src) && off <= t0.inodes[n].size
    ensures Disk.WellFormed(l, d) && Disk.HeaderCount(l, d) == 0 && Holds(sb, d, t, used, heads)
    ensures FsOk(t, used, o, sb.meta)
    ensures n < |t0.inodes| && WriteEffect(t0, t, n, off, j, j, src) && l.start < |d|
  {
  }

  lemma Combine(sb: Super, l: Disk.Layout, d: Disk.Disk, t0: Tree, t: Tree, used: seq<bool>, o: map<nat, Slot>,
                heads: seq<(int, int)>, n: nat, off: nat, j: nat, src: seq<Byte>)
    requires Disk.WellFormed(l, d) && Disk.HeaderCount(l, d) == 0 && Holds(sb, d, t, used, heads)
    requires FsOk(t, used, o, sb.meta)
    requires n < |t0.inodes| && off <= t0.inodes[n].size && WriteEffect(t0, t, n, off, j, j, src)
    ensures PrefixOnDisk(sb, l, d, t0, t, used, o, heads, n, off, j, src)
  {
  }

  lemma SameCommitPoint(l: Disk.Layout, header: Disk.Block, s: Disk.Step)
    requires s.Interrupted? && |s.blocks| == |s.data| <= LOGSIZE
    ensures Disk.PastCommitPoint(s.blocks, Disk.CrashPoint(l, header, s)) <==> Disk.PastCommitPoint(s.blocks, s.k)
  {
  }

  /**
   The machine stops in a chunk of `filewrite` that began with `i` bytes written, after `writes` block writes
   of its commit, and then in recoveries: `i` bytes, or what the chunk counted as well if the header was reached.
   */
  lemma ChunkCrashed(sb: Super, l: Disk.Layout, d: Disk.Disk, t0: Tree, t: Tree, used: seq<bool>, o0: map<nat, Slot>,
                     u: Tree, now: seq<bool>, o: map<nat, Slot>, heads: seq<(int, int)>, log: set<nat>,
                     n: nat, off: nat, i: nat, n1: nat, tot: nat, w: nat, src: seq<Byte>,
                     blocks: seq<nat>, writes: nat, recoveries: seq<nat>)
    requires PrefixOnDisk(sb, l, d, t0, t, used, o0, heads, n, off, i, src) && Placed(sb, l, |d|, |t.inodes|)
    requires i + n1 <= |src| && Wrote(sb, t, used, o0, u, now, o, log, n, off + i, tot, w, src[i..i + n1])
    requires off <= t0.inodes[n].size && |log| <= LOGSIZE && Lists(blocks, log)
    ensures |t.blocks| == |u.blocks| && forall x :: 0 <= x < |blocks| ==> sb.inodestart <= blocks[x] < |u.blocks|
    ensures var s := Disk.Interrupted(blocks, NewData(sb, u, now, heads, blocks), writes, recoveries);
      && Disk.Legal(l, |d|, s)
      && var e := Disk.StepDisk(l, d, s);
      && |e| == |d|
      && if Disk.PastCommitPoint(blocks, writes)
         then PrefixOnDisk(sb, l, e, t0, Kept(t, u, log), now, o, heads, n, off, i + tot, src)
         else PrefixOnDisk(sb, l, e, t0, t, used, o0, heads, n, off, i, src)
  {
    hide FsOk, Wrote, Placed, Holds, Disk.WellFormed, Disk.HeaderCount, WriteEffect, Lists, PrefixOnDisk;
    hide Disk.CommitWrites, Disk.Apply, Disk.RecoverThrough, Kept, NewData, Disk.HomeBlocks, Disk.CrashPoint;
    Prefix(sb, l, d, t0, t, used, o0, heads, n, off, i, src);
    var part := src[i..i + n1];
    WroteShape(sb, t, used, o0, u, now, o, log, n, off + i, tot, w, part);
    HeldSize(sb, d, t, used, heads);
    WriteIsTransaction(sb, l, d, t, used, o0, u, now, o, heads, log, n, off + i, tot, w, part, blocks);
    var s := Disk.Interrupted(blocks, NewData(sb, u, now, heads, blocks), writes, recoveries);
    var k := Disk.CrashPoint(l, d[l.start], s);
    SameCommitPoint(l, d[l.start], s);
    WriteAtomic(sb, l, d, t, used, o0, u, now, o, heads, log, n, off + i, tot, w, part, blocks, k, recoveries);
    var e := Disk.StepDisk(l, d, s);
    if Disk.PastCommitPoint(blocks, writes) {
      EffectsCompose(t0, t, Kept(t, u, log), n, off, i, tot, tot, src, n1);
      Combine(sb, l, e, t0, Kept(t, u, log), now, o, heads, n, off, i + tot, src);
    } else {
      Combine(sb, l, e, t0, t, used, o0, heads, n, off, i, src);
    }
  }

  /** The chunk's commit completes: what it counted as well. */
  lemma ChunkCommitted(sb: Super, l: Disk.Layout, d: Disk.Disk, t0: Tree, t: Tree, used: seq<bool>, o0: map<nat, Slot>,
                       u: Tree, now: seq<bool>, o: map<nat, Slot>, heads: seq<(int, int)>, log: set<nat>,
                       n: nat, off: nat, i: nat, n1: nat, tot: nat, w: nat, src: seq<Byte>, blocks: seq<nat>)
    requires PrefixOnDisk(sb, l, d, t0, t, used, o0, heads, n, off, i, src) && Placed(sb, l, |d|, |t.inodes|)
    requires i + n1 <= |src| && Wrote(sb, t, used, o0, u, now, o, log, n, off + i, tot, w, src[i..i + n1])
    requires off <= t0.inodes[n].size && |log| <= LOGSIZE && Lists(blocks, log)
    ensures |t.blocks| == |u.blocks| && forall x :: 0 <= x < |blocks| ==> sb.inodestart <= blocks[x] < |u.blocks|
    ensures var s := Disk.Complete(blocks, NewData(sb, u, now, heads, blocks));
      && Disk.Legal(l, |d|, s)
      && var e := Disk.StepDisk(l, d, s);
      && |e| == |d| && PrefixOnDisk(sb, l, e, t0, Kept(t, u, log), now, o, heads, n, off, i + tot, src)
      && (w == tot ==> Kept(t, u, log) == u)
  {
    hide FsOk, Wrote, Placed, Holds, Disk.WellFormed, Disk.HeaderCount, WriteEffect, Lists, PrefixOnDisk;
    hide Disk.CommitWrites, Disk.Apply, Kept, NewData, Disk.HomeBlocks;
    Prefix(sb, l, d, t0, t, used, o0, heads, n, off, i, src);
    var part := src[i..i + n1];
    WriteCommits(sb, l, d, t, used, o0, u, now, o, heads, log, n, off + i, tot, w, part, blocks);
    WriteIsTransaction(sb, l, d, t, used, o0, u, now, o, heads, log, n, off + i, tot, w, part, blocks);
    var e := Disk.StepDisk(l, d, Disk.Complete(blocks, NewData(sb, u, now, heads, blocks)));
    EffectsCompose(t0, t, Kept(t, u, log), n, off, i, tot, tot, src, n1);
    Combine(sb, l, e, t0, Kept(t, u, log), now, o, heads, n, off, i + tot, src);
  }

  // ---- the transactions of a filewrite ----

  /** What is in memory after a chunk, what it logged, counted and left in blocks. */
  datatype Chunk = Chunk(t: Tree, used: seq<bool>, owner: map<nat, Slot>, log: set<nat>, tot: nat, w: nat)

  /** Where chunk `c` of a request of `len` bytes ends. */
  function ChunkEnd(len: nat, c: nat): (r: nat) {
    if len > (c + 1) * CHUNK then (c + 1) * CHUNK else len
  }

  function Part(src: seq<Byte>, c: nat): (r: seq<Byte>) {
    if c * CHUNK < |src| then src[c * CHUNK..ChunkEnd(|src|, c)] else []
  }

  /** How many bytes of the source can be read from chunk `c` on. */
  function Rest(avail: nat, c: nat): (r: nat) {
    if avail > c * CHUNK then avail - c * CHUNK else 0
  }

  /** The transaction `s` is that of one `writei`, from memory `a` to memory `b`. */
  ghost predicate ChunkDone(sb: Super, heads: seq<(int, int)>, a: Chunk, b: Chunk, s: Disk.Step,
                            n: nat, off: nat, part: seq<Byte>, avail: nat) {
    && Wrote(sb, a.t, a.used, a.owner, b.t, b.used, b.owner, b.log, n, off, b.tot, b.w, part)
    && Shaped(a.t) && n < |a.t.inodes| && Furthest(a.t, a.used, n, off, |part|, avail, b.tot)
    && Lists(s.blocks, b.log) && (forall x :: 0 <= x < |s.blocks| ==> sb.inodestart <= s.blocks[x] < |b.t.blocks|)
    && s.data == NewData(sb, b.t, b.used, heads, s.blocks)
  }

  function Before(start: Chunk, chunks: seq<Chunk>, c: nat): (r: Chunk)
    requires c <= |chunks|
  {
    if c == 0 then start else chunks[c - 1]
  }

  ghost predicate DoneAt(sb: Super, heads: seq<(int, int)>, start: Chunk, run: seq<Disk.Step>, chunks: seq<Chunk>,
                         n: nat, off: nat, src: seq<Byte>, avail: nat, c: nat)
    requires c < |run| == |chunks|
  {
    ChunkDone(sb, heads, Before(start, chunks, c), chunks[c], run[c], n, off + c * CHUNK, Part(src, c), Rest(avail, c))
  }

  ghost predicate AllDone(sb: Super, heads: seq<(int, int)>, start: Chunk, run: seq<Disk.Step>, chunks: seq<Chunk>,
                          n: nat, off: nat, src: seq<Byte>, avail: nat) {
    && |chunks| == |run|
    && forall c: nat {:trigger DoneAt(sb, heads, start, run, chunks, n, off, src, avail, c)} :: c < |run| ==>
         DoneAt(sb, heads, start, run, chunks, n, off, src, avail, c)
  }

  /** The disk `d` is what a run of one transaction per chunk makes of `d0`. */
  ghost predicate Transactions(sb: Super, l: Disk.Layout, heads: seq<(int, int)>, d0: Disk.Disk, start: Chunk,
                               run: seq<Disk.Step>, chunks: seq<Chunk>, n: nat, off: nat, src: seq<Byte>, avail: nat,
                               d: Disk.Disk) {
    && Disk.WellFormed(l, d0) && Disk.HeaderCount(l, d0) == 0 && Disk.LegalRun(l, |d0|, run)
    && d == Disk.RunDisk(l, d0, run) && AllDone(sb, heads, start, run, chunks, n, off, src, avail)
  }

  lemma DoneStill(sb: Super, heads: seq<(int, int)>, start: Chunk, run: seq<Disk.Step>, chunks: seq<Chunk>,
                  n: nat, off: nat, src: seq<Byte>, avail: nat, s: Disk.Step, b: Chunk, c: nat)
    requires |run| == |chunks| && c <= |run|
    requires if c < |run| then DoneAt(sb, heads, start, run, chunks, n, off, src, avail, c)
             else ChunkDone(sb, heads, Before(start, chunks, c), b, s, n, off + c * CHUNK, Part(src, c), Rest(avail, c))
    ensures DoneAt(sb, heads, start, run + [s], chunks + [b], n, off, src, avail, c)
  {
    hide ChunkDone, Part;
    assert Before(start, chunks + [b], c) == Before(start, chunks, c);
  }

  /** One more transaction at the end of the run. */
  ghost predicate NextDone(sb: Super, heads: seq<(int, int)>, start: Chunk, run: seq<Disk.Step>, chunks: seq<Chunk>,
                           n: nat, off: nat, src: seq<Byte>, avail: nat, s: Disk.Step, b: Chunk) {
    && |run| == |chunks|
    && ChunkDone(sb, heads, Before(start, chunks, |run|), b, s, n, off + |run| * CHUNK,
                 Part(src, |run|), Rest(avail, |run|))
  }

  ghost predicate IsStep(l: Disk.Layout, d: Disk.Disk, s: Disk.Step, e: Disk.Disk) {
    Disk.WellFormed(l, d) && Disk.HeaderCount(l, d) == 0 && Disk.Legal(l, |d|, s) && e == Disk.StepDisk(l, d, s)
  }

  lemma AllDoneSnoc(sb: Super, heads: seq<(int, int)>, start: Chunk, run: seq<Disk.Step>, chunks: seq<Chunk>,
                    n: nat, off: nat, src: seq<Byte>, avail: nat, s: Disk.Step, b: Chunk)
    requires AllDone(sb, heads, start, run, chunks, n, off, src, avail)
    requires NextDone(sb, heads, start, run, chunks, n, off, src, avail, s, b)
    ensures AllDone(sb, heads, start, run + [s], chunks + [b], n, off, src, avail)
  {
    hide ChunkDone, Part, DoneAt, Before;
    forall c: nat | c < |run| + 1 ensures DoneAt(sb, heads, start, run + [s], chunks + [b], n, off, src, avail, c) {
      if c < |run| {
        assert DoneAt(sb, heads, start, run, chunks, n, off, src, avail, c);
      }
      DoneStill(sb, heads, start, run, chunks, n, off, src, avail, s, b, c);
    }
  }

  lemma TransactionsSnoc(sb: Super, l: Disk.Layout, heads: seq<(int, int)>, d0: Disk.Disk, start: Chunk,
                         run: seq<Disk.Step>, chunks: seq<Chunk>, n: nat, off: nat, src: seq<Byte>, avail: nat,
                         d: Disk.Disk,
                         s: Disk.Step, b: Chunk, e: Disk.Disk)
    requires Transactions(sb, l, heads, d0, start, run, chunks, n, off, src, avail, d) && IsStep(l, d, s, e)
    requires NextDone(sb, heads, start, run, chunks, n, off, src, avail, s, b)
    ensures Transactions(sb, l, heads, d0, start, run + [s], chunks + [b], n, off, src, avail, e)
  {
    hide NextDone, Disk.StepDisk, Disk.WellFormed, Disk.HeaderCount, Disk.RunDisk, Disk.Legal, Disk.LegalRun, AllDone;
    Disk.RunDiskSnoc(l, d0, run, s);
    AllDoneSnoc(sb, heads, start, run, chunks, n, off, src, avail, s, b);
  }

  /** Chunk `c` is begun: it is not refused, and all before it are counted completely. */
  ghost predicate Reached(t: Tree, used: seq<bool>, n: nat, off: nat, len: nat, avail: nat, c: nat)
    requires Shaped(t) && n < |t.inodes|
  {
    && off <= t.inodes[n].size && c * CHUNK < Accepted(off, len) && c * CHUNK <= avail
    && Room(t, used, n, off, c * CHUNK)
  }

  lemma StartOnDisk(sb: Super, l: Disk.Layout, d: Disk.Disk, t: Tree, used: seq<bool>, o: map<nat, Slot>,
                    heads: seq<(int, int)>, n: nat, off: nat, src: seq<Byte>, avail: nat)
    requires FsOk(t, used, o, sb.meta) && n < |t.inodes| && Holds(sb, d, t, used, heads) && Disk.WellFormed(l, d)
    requires Disk.HeaderCount(l, d) == 0
    ensures PrefixOnDisk(sb, l, d, t, t, used, o, heads, n, off, 0, src) && |d| == |t.blocks|
    ensures Transactions(sb, l, heads, d, Chunk(t, used, o, {}, 0, 0), [], [], n, off, src, avail, d)
  {
    hide FsOk, WriteEffect;
    NoWriteEffect(t, used, o, sb.meta, n, off, src);
  }

  // ---- filewrite on a disk that may crash ----

  /** What is left: the disk, the file system it holds, the bytes of the source in it, and how that came about. */
  datatype OnDisk = OnDisk(d: Disk.Disk, t: Tree, used: seq<bool>, owner: map<nat, Slot>, j: nat,
                           run: seq<Disk.Step>, chunks: seq<Chunk>)

  /** The transaction of chunk `c` is the one that is interrupted, or it completes. */
  predicate StepIs(s: Disk.Step, crash: Crash, c: nat) {
    if crash.In? && c == crash.chunk then s.Interrupted? && s.k == crash.writes && s.crashes == crash.recoveries
    else s.Complete?
  }

  /** Exactly the chunks that are reached, up to the one in which the machine stops, have a transaction. */
  ghost predicate StepsAre(t: Tree, used: seq<bool>, n: nat, off: nat, len: nat, avail: nat, crash: Crash,
                           run: seq<Disk.Step>)
    requires Shaped(t) && n < |t.inodes|
  {
    && (forall c: nat {:trigger Reached(t, used, n, off, len, avail, c)} ::
          c < |run| <==> Reached(t, used, n, off, len, avail, c) && (crash.In? ==> c <= crash.chunk))
    && forall c: nat {:trigger StepIs(run[c], crash, c)} :: c < |run| ==> StepIs(run[c], crash, c)
  }

  /** How many bytes of the source are in the file, from the state before and the place of the crash. */
  ghost predicate CountIs(t: Tree, used: seq<bool>, n: nat, off: nat, len: nat, avail: nat, crash: Crash,
                          run: seq<Disk.Step>, j: nat)
    requires Shaped(t) && n < |t.inodes|
  {
    if off > t.inodes[n].size then j == 0
    else if crash.In? && crash.chunk < |run| then
      if Disk.PastCommitPoint(run[crash.chunk].blocks, crash.writes)
      then FileFurthest(t, used, n, off, ChunkEnd(len, crash.chunk), avail, j)
      else j == crash.chunk * CHUNK
    else FileFurthest(t, used, n, off, Accepted(off, len), avail, j)
  }

  ghost predicate Outcome(sb: Super, l: Disk.Layout, heads: seq<(int, int)>, d0: Disk.Disk, start: Chunk,
                          n: nat, off: nat, src: seq<Byte>, avail: nat, crash: Crash, x: OnDisk) {
    && Shaped(start.t) && n < |start.t.inodes|
    && Transactions(sb, l, heads, d0, start, x.run, x.chunks, n, off, src, avail, x.d)
    && PrefixOnDisk(sb, l, x.d, start.t, x.t, x.used, x.owner, heads, n, off, x.j, src)
    && StepsAre(start.t, start.used, n, off, |src|, avail, crash, x.run)
    && CountIs(start.t, start.used, n, off, |src|, avail, crash, x.run, x.j)
  }

  /**
   Where the loop stands: all chunks so far are complete and their transactions are on the disk, which holds
   what is in memory.
   */
  ghost predicate Standing(sb: Super, l: Disk.Layout, heads: seq<(int, int)>, d0: Disk.Disk, start: Chunk,
                           n: nat, off: nat, src: seq<Byte>, avail: nat, crash: Crash, x: OnDisk) {
    && Shaped(start.t) && n < |start.t.inodes| == |x.t.inodes| && Shaped(x.t) && off <= start.t.inodes[n].size
    && Transactions(sb, l, heads, d0, start, x.run, x.chunks, n, off, src, avail, x.d) && |x.run| == |x.chunks|
    && PrefixOnDisk(sb, l, x.d, start.t, x.t, x.used, x.owner, heads, n, off, x.j, src)
    && Placed(sb, l, |x.d|, |x.t.inodes|)
    && Before(start, x.chunks, |x.run|).(log := {}, tot := 0, w := 0) == Chunk(x.t, x.used, x.owner, {}, 0, 0)
    && Progress(start.t, start.used, start.owner, x.t, x.used, x.owner, sb.meta, n, off, x.j)
    && AtChunk(off, |src|, avail, |x.run|, x.j) && (crash.In? ==> crash.chunk >= |x.run|)
    && (forall c: nat {:trigger Reached(start.t, start.used, n, off, |src|, avail, c)} :: c < |x.run| ==>
          Reached(start.t, start.used, n, off, |src|, avail, c))
    && forall c: nat {:trigger x.run[c]} :: c < |x.run| ==> x.run[c].Complete?
  }

  /** `i` bytes are `c` chunks. */
  predicate AtChunk(off: nat, len: nat, avail: nat, c: nat, i: nat) {
    && i <= len && i <= avail && off + i <= MAXFILE * BSIZE
    && if i < len then i == c * CHUNK else (c - 1) * CHUNK < i <= c * CHUNK || (i == 0 && c == 0)
  }

  lemma StandStart(sb: Super, l: Disk.Layout, heads: seq<(int, int)>, d0: Disk.Disk, start: Chunk,
                   n: nat, off: nat, src: seq<Byte>, avail: nat, crash: Crash)
    requires FsOk(start.t, start.used, start.owner, sb.meta) && n < |start.t.inodes| && off <= start.t.inodes[n].size
    requires start == Chunk(start.t, start.used, start.owner, {}, 0, 0) && Placed(sb, l, |d0|, |start.t.inodes|)
    requires Holds(sb, d0, start.t, start.used, heads) && Disk.WellFormed(l, d0) && Disk.HeaderCount(l, d0) == 0
    ensures Standing(sb, l, heads, d0, start, n, off, src, avail, crash,
                     OnDisk(d0, start.t, start.used, start.owner, 0, [], []))
  {
    hide FsOk, Holds, Disk.WellFormed, Disk.HeaderCount, Progress, Transactions, PrefixOnDisk, Placed, Reached;
    FsShaped(start.t, start.used, start.owner, sb.meta);
    StartOnDisk(sb, l, d0, start.t, start.used, start.owner, heads, n, off, src, avail);
    ProgressStart(start.t, start.used, start.owner, sb.meta, n, off);
  }

  /** The `writei` of the next chunk went from the memory of `x` to that of `b`. */
  ghost predicate ChunkRan(sb: Super, n: nat, off: nat, src: seq<Byte>, avail: nat, x: OnDisk, b: Chunk) {
    && Shaped(x.t) && n < |x.t.inodes| && x.j <= avail && |b.log| <= LOGSIZE
    && var part := Part(src, |x.run|);
    && Wrote(sb, x.t, x.used, x.owner, b.t, b.used, b.owner, b.log, n, off + x.j, b.tot, b.w, part)
    && Furthest(x.t, x.used, n, off + x.j, |part|, avail - x.j, b.tot)
  }

  lemma PartIs(off: nat, src: seq<Byte>, avail: nat, c: nat, i: nat)
    requires AtChunk(off, |src|, avail, c, i) && i < |src|
    ensures i == c * CHUNK && i < ChunkEnd(|src|, c) <= |src| && Part(src, c) == src[i..ChunkEnd(|src|, c)]
    ensures ChunkEnd(|src|, c) - i == if |src| - i > CHUNK then CHUNK else |src| - i
  {
  }

  /** The next chunk is reached unless it would be refused. */
  lemma NextReached(sb: Super, l: Disk.Layout, heads: seq<(int, int)>, d0: Disk.Disk, start: Chunk,
                    n: nat, off: nat, src: seq<Byte>, avail: nat, crash: Crash, x: OnDisk)
    requires Standing(sb, l, heads, d0, start, n, off, src, avail, crash, x) && x.j < |src|
    requires off + ChunkEnd(|src|, |x.run|) <= MAXFILE * BSIZE
    ensures Reached(start.t, start.used, n, off, |src|, avail, |x.run|)
  {
    hide Transactions, PrefixOnDisk, Placed, Before, Progress, Room;
    ProgressRoom(start.t, start.used, start.owner, x.t, x.used, x.owner, sb.meta, n, off, x.j, 0);
    PartIs(off, src, avail, |x.run|, x.j);
  }

  lemma AcceptedIs(off: nat, len: nat, c: nat)
    requires c * CHUNK < len && off + c * CHUNK <= MAXFILE * BSIZE
    ensures if off + ChunkEnd(len, c) <= MAXFILE * BSIZE then ChunkEnd(len, c) <= Accepted(off, len)
            else Accepted(off, len) == c * CHUNK
  {
    assert CHUNK == 3072;
    var q := (MAXFILE * BSIZE - off) / 3072;
    assert 3072 * q <= MAXFILE * BSIZE - off < 3072 * (q + 1);
  }

  lemma ChunkStop(off: nat, len: nat, c: nat)
    ensures FileStop(off, len, c * CHUNK)
  {
    assert CHUNK == 3072;
  }

  /** No chunk beyond how far the request gets is reached. */
  lemma NotReached(t: Tree, used: seq<bool>, n: nat, off: nat, len: nat, avail: nat, j: nat, c: nat)
    requires Shaped(t) && n < |t.inodes| && FileFurthest(t, used, n, off, Accepted(off, len), avail, j)
    requires j <= c * CHUNK
    requires j == c * CHUNK ==> j == Accepted(off, len)
    ensures !Reached(t, used, n, off, len, avail, c)
  {
    hide Room, Accepted, FileStop;
    ChunkStop(off, Accepted(off, len), c);
  }

  lemma Wrapped(sb: Super, l: Disk.Layout, heads: seq<(int, int)>, d0: Disk.Disk, start: Chunk,
                n: nat, off: nat, src: seq<Byte>, avail: nat, crash: Crash, x: OnDisk, b: Chunk, blocks: seq<nat>,
                s: Disk.Step)
    requires Standing(sb, l, heads, d0, start, n, off, src, avail, crash, x) && x.j < |src|
    requires ChunkRan(sb, n, off, src, avail, x, b) && Lists(blocks, b.log) && s.blocks == blocks
    requires forall i :: 0 <= i < |blocks| ==> sb.inodestart <= blocks[i] < |b.t.blocks|
    requires s.data == NewData(sb, b.t, b.used, heads, blocks)
    ensures NextDone(sb, heads, start, x.run, x.chunks, n, off, src, avail, s, b)
  {
    hide Transactions, PrefixOnDisk, Placed, Progress, Room, Wrote, Furthest, NewData, Lists, Part, Reached;
    PartIs(off, src, avail, |x.run|, x.j);
  }

  /** A chunk that is counted completely, and its commit. */
  lemma StandNext(sb: Super, l: Disk.Layout, heads: seq<(int, int)>, d0: Disk.Disk, start: Chunk,
                  n: nat, off: nat, src: seq<Byte>, avail: nat, crash: Crash, x: OnDisk, b: Chunk) returns (y: OnDisk)
    requires Standing(sb, l, heads, d0, start, n, off, src, avail, crash, x) && x.j < |src|
    requires ChunkRan(sb, n, off, src, avail, x, b) && b.w == b.tot == |Part(src, |x.run|)|
    requires crash.In? ==> crash.chunk != |x.run|
    ensures Standing(sb, l, heads, d0, start, n, off, src, avail, crash, y)
    ensures y.t == b.t && y.used == b.used && y.owner == b.owner && y.j == x.j + b.tot && |y.run| == |x.run| + 1
  {
    hide Transactions, PrefixOnDisk, Placed, Progress, Room, Wrote, Furthest, NewData, Lists, Reached, NextDone, Part;
    hide Disk.StepDisk, Disk.WellFormed, Disk.HeaderCount, Disk.Legal, Kept;
    var end := ChunkEnd(|src|, |x.run|);
    PartIs(off, src, avail, |x.run|, x.j);
    WroteRange(sb, x.t, x.used, x.owner, b.t, b.used, b.owner, b.log, n, off + x.j, b.tot, b.w, Part(src, |x.run|));
    NextReached(sb, l, heads, d0, start, n, off, src, avail, crash, x);
    var blocks := SomeOrder(b.log);
    ChunkCommitted(sb, l, x.d, start.t, x.t, x.used, x.owner, b.t, b.used, b.owner, heads, b.log,
                   n, off, x.j, end - x.j, b.tot, b.w, src, blocks);
    var s := Disk.Complete(blocks, NewData(sb, b.t, b.used, heads, blocks));
    Prefix(sb, l, x.d, start.t, x.t, x.used, x.owner, heads, n, off, x.j, src);
    var e := Disk.StepDisk(l, x.d, s);
    Wrapped(sb, l, heads, d0, start, n, off, src, avail, crash, x, b, blocks, s);
    TransactionsSnoc(sb, l, heads, d0, start, x.run, x.chunks, n, off, src, avail, x.d, s, b, e);
    WroteProgress(sb, start, x.t, x.used, x.owner, b.t, b.used, b.owner, b.log, n, off, x.j, b.w, Part(src, |x.run|));
    FurthestWithin(x.t, x.used, n, off + x.j, |Part(src, |x.run|)|, avail - x.j, b.tot);
    y := OnDisk(e, b.t, b.used, b.owner, x.j + b.tot, x.run + [s], x.chunks + [b]);
    assert AtChunk(off, |src|, avail, |y.run|, y.j);
  }

  lemma FurthestWithin(t: Tree, used: seq<bool>, n: nat, off: nat, len: nat, avail: nat, tot: nat)
    requires Shaped(t) && n < |t.inodes| && Furthest(t, used, n, off, len, avail, tot)
    ensures tot <= len && tot <= avail
  {
  }

  lemma WroteRange(sb: Super, t: Tree, used: seq<bool>, o0: map<nat, Slot>, u: Tree, now: seq<bool>, o: map<nat, Slot>,
                   log: set<nat>, n: nat, off: nat, tot: nat, w: nat, src: seq<Byte>)
    requires Wrote(sb, t, used, o0, u, now, o, log, n, off, tot, w, src)
    ensures Shaped(t) && Shaped(u) && n < |u.inodes| == |t.inodes| && |u.blocks| == |t.blocks|
    ensures off + tot <= u.inodes[n].size <= MAXFILE * BSIZE && w <= |src|
  {
    hide FsOk, Grown, Confined, Left, Extends, FreshIn, AllocLog, DataLog;
    GrownShape(t, u);
    EffectSize(t, u, n, off, tot, w, src);
  }

  lemma WroteProgress(sb: Super, start: Chunk, t: Tree, used: seq<bool>, o0: map<nat, Slot>,
                      u: Tree, now: seq<bool>, o: map<nat, Slot>, log: set<nat>, n: nat, off: nat, i: nat, w: nat,
                      part: seq<Byte>)
    requires Wrote(sb, t, used, o0, u, now, o, log, n, off + i, |part|, w, part)
    requires Progress(start.t, start.used, start.owner, t, used, o0, sb.meta, n, off, i)
    ensures Progress(start.t, start.used, start.owner, u, now, o, sb.meta, n, off, i + |part|)
  {
    hide FsOk, Grown, Confined, Left, Extends, FreshIn, AllocLog, DataLog, Progress, WriteEffect;
    WroteRange(sb, t, used, o0, u, now, o, log, n, off + i, |part|, w, part);
    ProgressStep(start.t, start.used, start.owner, t, used, o0, u, now, o, sb.meta, n, off, i, |part|);
  }

  /** All transactions but the last are complete, and the last is as it should be. */
  lemma StepsSnoc(t: Tree, used: seq<bool>, n: nat, off: nat, len: nat, avail: nat, crash: Crash, run: seq<Disk.Step>,
                  s: Disk.Step)
    requires Shaped(t) && n < |t.inodes| && (crash.In? ==> crash.chunk >= |run|) && StepIs(s, crash, |run|)
    requires forall c: nat {:trigger Reached(t, used, n, off, len, avail, c)} :: c <= |run| ==>
      Reached(t, used, n, off, len, avail, c)
    requires forall c: nat {:trigger run[c]} :: c < |run| ==> run[c].Complete?
    requires (crash.In? && crash.chunk == |run|) || forall c: nat {:trigger Reached(t, used, n, off, len, avail, c)} ::
      c > |run| ==> !Reached(t, used, n, off, len, avail, c)
    ensures StepsAre(t, used, n, off, len, avail, crash, run + [s])
  {
    hide Reached;
    forall c: nat | c < |run| + 1 ensures StepIs((run + [s])[c], crash, c) {
      if c < |run| {
        assert run[c].Complete?;
      }
    }
  }

  lemma NoneAfter(t: Tree, used: seq<bool>, n: nat, off: nat, len: nat, avail: nat, j: nat, k: nat)
    requires Shaped(t) && n < |t.inodes| && FileFurthest(t, used, n, off, Accepted(off, len), avail, j)
    requires j < (k + 1) * CHUNK
    ensures forall c: nat {:trigger Reached(t, used, n, off, len, avail, c)} :: c > k ==>
      !Reached(t, used, n, off, len, avail, c)
  {
    hide FileFurthest, Accepted, Reached;
    forall c: nat | c > k ensures !Reached(t, used, n, off, len, avail, c) {
      NotReached(t, used, n, off, len, avail, j, c);
    }
  }

  /** How far the last chunk gets: the disk refuses, or the source ends, inside it; or the machine stops in it. */
  lemma LastCounts(sb: Super, l: Disk.Layout, heads: seq<(int, int)>, d0: Disk.Disk, start: Chunk,
                   n: nat, off: nat, src: seq<Byte>, avail: nat, crash: Crash, x: OnDisk, b: Chunk)
    requires Standing(sb, l, heads, d0, start, n, off, src, avail, crash, x) && x.j < |src|
    requires ChunkRan(sb, n, off, src, avail, x, b) && off + ChunkEnd(|src|, |x.run|) <= MAXFILE * BSIZE
    ensures FileFurthest(start.t, start.used, n, off, ChunkEnd(|src|, |x.run|), avail, x.j + b.tot)
    ensures b.tot < |Part(src, |x.run|)| ==>
      && FileFurthest(start.t, start.used, n, off, Accepted(off, |src|), avail, x.j + b.tot)
      && x.j + b.tot < (|x.run| + 1) * CHUNK
  {
    hide Transactions, PrefixOnDisk, Placed, Progress, Room, Wrote;
    hide Furthest, Part, Reached, Accepted, FileFurthest, Before;
    PartIs(off, src, avail, |x.run|, x.j);
    MultipleOfChunk(|x.run|);
    var end := ChunkEnd(|src|, |x.run|);
    ChunkFurthest(start.t, start.used, start.owner, x.t, x.used, x.owner, sb.meta, n, off, x.j, end - x.j, avail,
                  b.tot);
    if b.tot < end - x.j {
      AcceptedIs(off, |src|, |x.run|);
      LongerNoFurther(start.t, start.used, n, off, end, Accepted(off, |src|), avail, x.j + b.tot);
    }
  }

  lemma LastReached(sb: Super, l: Disk.Layout, heads: seq<(int, int)>, d0: Disk.Disk, start: Chunk,
                    n: nat, off: nat, src: seq<Byte>, avail: nat, crash: Crash, x: OnDisk, b: Chunk, s: Disk.Step)
    requires Standing(sb, l, heads, d0, start, n, off, src, avail, crash, x) && x.j < |src|
    requires ChunkRan(sb, n, off, src, avail, x, b) && StepIs(s, crash, |x.run|)
    requires off + ChunkEnd(|src|, |x.run|) <= MAXFILE * BSIZE
    requires (crash.In? && crash.chunk == |x.run|) || b.tot < |Part(src, |x.run|)|
    ensures StepsAre(start.t, start.used, n, off, |src|, avail, crash, x.run + [s])
  {
    hide Transactions, PrefixOnDisk, Placed, Progress, Room, ChunkRan, Part, Reached, Accepted, FileFurthest, Before;
    hide ChunkEnd, AtChunk, StepsAre;
    NextReached(sb, l, heads, d0, start, n, off, src, avail, crash, x);
    if b.tot < |Part(src, |x.run|)| {
      LastCounts(sb, l, heads, d0, start, n, off, src, avail, crash, x, b);
      NoneAfter(start.t, start.used, n, off, |src|, avail, x.j + b.tot, |x.run|);
    }
    StepsSnoc(start.t, start.used, n, off, |src|, avail, crash, x.run, s);
  }

  lemma MultipleOfChunk(c: nat)
    ensures (c * CHUNK) % CHUNK == 0
  {
    assert CHUNK == 3072;
  }

  /** The machine stops in the chunk. */
  lemma EndInCrash(sb: Super, l: Disk.Layout, heads: seq<(int, int)>, d0: Disk.Disk, start: Chunk,
                   n: nat, off: nat, src: seq<Byte>, avail: nat, crash: Crash, x: OnDisk, b: Chunk) returns (y: OnDisk)
    requires Standing(sb, l, heads, d0, start, n, off, src, avail, crash, x) && x.j < |src|
    requires ChunkRan(sb, n, off, src, avail, x, b) && crash.In? && crash.chunk == |x.run|
    requires off + ChunkEnd(|src|, |x.run|) <= MAXFILE * BSIZE
    ensures Outcome(sb, l, heads, d0, start, n, off, src, avail, crash, y) && crash.chunk < |y.run|
  {
    hide Transactions, PrefixOnDisk, Placed, Progress, Room, Wrote, Furthest, NewData, Lists, Reached, NextDone, Part;
    hide Disk.StepDisk, Disk.WellFormed, Disk.HeaderCount, Disk.Legal, Kept, StepsAre, FileFurthest, Before;
    PartIs(off, src, avail, |x.run|, x.j);
    var blocks := SomeOrder(b.log);
    ChunkCrashed(sb, l, x.d, start.t, x.t, x.used, x.owner, b.t, b.used, b.owner, heads, b.log,
                 n, off, x.j, ChunkEnd(|src|, |x.run|) - x.j, b.tot, b.w, src, blocks, crash.writes, crash.recoveries);
    var s := Disk.Interrupted(blocks, NewData(sb, b.t, b.used, heads, blocks), crash.writes, crash.recoveries);
    Prefix(sb, l, x.d, start.t, x.t, x.used, x.owner, heads, n, off, x.j, src);
    var e := Disk.StepDisk(l, x.d, s);
    Wrapped(sb, l, heads, d0, start, n, off, src, avail, crash, x, b, blocks, s);
    TransactionsSnoc(sb, l, heads, d0, start, x.run, x.chunks, n, off, src, avail, x.d, s, b, e);
    LastReached(sb, l, heads, d0, start, n, off, src, avail, crash, x, b, s);
    LastCounts(sb, l, heads, d0, start, n, off, src, avail, crash, x, b);
    if Disk.PastCommitPoint(blocks, crash.writes) {
      y := OnDisk(e, Kept(x.t, b.t, b.log), b.used, b.owner, x.j + b.tot, x.run + [s], x.chunks + [b]);
    } else {
      y := OnDisk(e, x.t, x.used, x.owner, x.j, x.run + [s], x.chunks + [b]);
    }
  }

  /** The chunk is cut short, and its commit completes. */
  lemma EndShort(sb: Super, l: Disk.Layout, heads: seq<(int, int)>, d0: Disk.Disk, start: Chunk,
                 n: nat, off: nat, src: seq<Byte>, avail: nat, crash: Crash, x: OnDisk, b: Chunk) returns (y: OnDisk)
    requires Standing(sb, l, heads, d0, start, n, off, src, avail, crash, x) && x.j < |src|
    requires ChunkRan(sb, n, off, src, avail, x, b) && (crash.In? ==> crash.chunk != |x.run|)
    requires b.tot < |Part(src, |x.run|)| && off + ChunkEnd(|src|, |x.run|) <= MAXFILE * BSIZE
    ensures Outcome(sb, l, heads, d0, start, n, off, src, avail, crash, y) && y.j == x.j + b.tot
    ensures !(crash.In? && crash.chunk < |y.run|)
  {
    hide Transactions, PrefixOnDisk, Placed, Progress, Room, Wrote, Furthest, NewData, Lists, Reached, NextDone, Part;
    hide Disk.StepDisk, Disk.WellFormed, Disk.HeaderCount, Disk.Legal, Kept, StepsAre, FileFurthest, Before;
    PartIs(off, src, avail, |x.run|, x.j);
    var blocks := SomeOrder(b.log);
    ChunkCommitted(sb, l, x.d, start.t, x.t, x.used, x.owner, b.t, b.used, b.owner, heads, b.log,
                   n, off, x.j, ChunkEnd(|src|, |x.run|) - x.j, b.tot, b.w, src, blocks);
    var s := Disk.Complete(blocks, NewData(sb, b.t, b.used, heads, blocks));
    Prefix(sb, l, x.d, start.t, x.t, x.used, x.owner, heads, n, off, x.j, src);
    var e := Disk.StepDisk(l, x.d, s);
    Wrapped(sb, l, heads, d0, start, n, off, src, avail, crash, x, b, blocks, s);
    TransactionsSnoc(sb, l, heads, d0, start, x.run, x.chunks, n, off, src, avail, x.d, s, b, e);
    LastReached(sb, l, heads, d0, start, n, off, src, avail, crash, x, b, s);
    LastCounts(sb, l, heads, d0, start, n, off, src, avail, crash, x, b);
    y := OnDisk(e, Kept(x.t, b.t, b.log), b.used, b.owner, x.j + b.tot, x.run + [s], x.chunks + [b]);
  }

  /** The request is finished, or its next chunk is refused. */
  lemma EndBetween(sb: Super, l: Disk.Layout, heads: seq<(int, int)>, d0: Disk.Disk, start: Chunk,
                   n: nat, off: nat, src: seq<Byte>, avail: nat, crash: Crash, x: OnDisk)
    requires Standing(sb, l, heads, d0, start, n, off, src, avail, crash, x)
    requires x.j == |src| || off + ChunkEnd(|src|, |x.run|) > MAXFILE * BSIZE
    ensures Outcome(sb, l, heads, d0, start, n, off, src, avail, crash, x) && !(crash.In? && crash.chunk < |x.run|)
  {
    hide Transactions, PrefixOnDisk, Placed, Progress, Room, Reached, FileFurthest, Before, Accepted;
    var t, used := start.t, start.used;
    ProgressRoom(t, used, start.owner, x.t, x.used, x.owner, sb.meta, n, off, x.j, 0);
    if x.j < |src| {
      AcceptedIs(off, |src|, |x.run|);
    } else {
      AllAccepted(off, |src|);
    }
    EndsThere(t, used, n, off, |src|, avail, x.j);
    forall c: nat | c >= |x.run| ensures !Reached(t, used, n, off, |src|, avail, c) {
      NotReached(t, used, n, off, |src|, avail, x.j, c);
    }
  }

  lemma AllAccepted(off: nat, len: nat)
    requires off + len <= MAXFILE * BSIZE
    ensures Accepted(off, len) == len
  {
  }

  /** A request that starts past the end of the file. */
  lemma EndOutside(sb: Super, l: Disk.Layout, heads: seq<(int, int)>, d0: Disk.Disk, start: Chunk,
                   n: nat, off: nat, src: seq<Byte>, avail: nat, crash: Crash)
    requires FsOk(start.t, start.used, start.owner, sb.meta) && n < |start.t.inodes| && off > start.t.inodes[n].size
    requires start == Chunk(start.t, start.used, start.owner, {}, 0, 0)
    requires Holds(sb, d0, start.t, start.used, heads) && Disk.WellFormed(l, d0) && Disk.HeaderCount(l, d0) == 0
    ensures Outcome(sb, l, heads, d0, start, n, off, src, avail, crash,
                    OnDisk(d0, start.t, start.used, start.owner, 0, [], []))
  {
    hide FsOk, Holds, Disk.WellFormed, Disk.HeaderCount, Transactions, PrefixOnDisk;
    FsShaped(start.t, start.used, start.owner, sb.meta);
    StartOnDisk(sb, l, d0, start.t, start.used, start.owner, heads, n, off, src, avail);
  }

  /** When all of the request is written. */
  lemma OutcomeCounts(sb: Super, l: Disk.Layout, heads: seq<(int, int)>, d0: Disk.Disk, start: Chunk,
                      n: nat, off: nat, src: seq<Byte>, avail: nat, crash: Crash, x: OnDisk)
    requires Outcome(sb, l, heads, d0, start, n, off, src, avail, crash, x) && !(crash.In? && crash.chunk < |x.run|)
    ensures Shaped(start.t) && n < |start.t.inodes| && x.j <= |src|
    ensures x.j == |src| <==> |src| == 0 || (&& off <= start.t.inodes[n].size && off + |src| <= MAXFILE * BSIZE
                                             && |src| <= avail && Room(start.t, start.used, n, off, |src|))
  {
    hide Transactions, PrefixOnDisk, StepsAre, Room;
    if off <= start.t.inodes[n].size {
      AllCounted(start.t, start.used, n, off, |src|, avail, x.j);
    }
  }

  /**
   `filewrite`, with its transactions on a disk and a machine that may stop in any chunk, after any number of
   block writes of its commit and again in recoveries. Which chunks get a transaction, and how many bytes
   of the source are then in the file on the disk, are functions of the state before and of the place of the
   crash: those of the chunks before it, and what the chunk itself counted if and only if its header was written.
   */
  method FileWriteOnDisk(fs: Fs, n: nat, src: seq<Byte>, avail: nat, off: nat, crash: Crash,
                         ghost sb: Super, ghost l: Disk.Layout, ghost d0: Disk.Disk, ghost heads: seq<(int, int)>)
    returns (ret: int, off': nat, ghost x: OnDisk)
    requires fs.Valid() && n < |fs.inodes| && off < WORD && |src| < WORD
    requires sb == Super(fs.inodestart, fs.bmapstart, fs.meta) && Placed(sb, l, |fs.blocks|, |fs.inodes|)
    requires Disk.WellFormed(l, d0) && Disk.HeaderCount(l, d0) == 0 && Holds(sb, d0, fs.T(), fs.used, heads)
    modifies fs
    ensures Outcome(sb, l, heads, d0, Chunk(old(fs.T()), old(fs.used), old(fs.owner), {}, 0, 0),
                    n, off, src, avail, crash, x)
    ensures !(crash.In? && crash.chunk < |x.run|) ==> off' == off + x.j && ret == if x.j == |src| then |src| else -1
    ensures !(crash.In? && crash.chunk < |x.run|) ==>
      && Shaped(old(fs.T()))
      && (x.j == |src| <==> |src| == 0 || (&& off <= old(fs.inodes[n].size) && off + |src| <= MAXFILE * BSIZE
                                           && |src| <= avail && Room(old(fs.T()), old(fs.used), n, off, |src|)))
  {
    hide FsOk, Holds, Disk.WellFormed, Disk.HeaderCount, Placed, Room;
    hide Outcome, Standing, Furthest, Wrote, Part, ChunkEnd;
    ghost var start := Chunk(fs.T(), fs.used, fs.owner, {}, 0, 0);
    x := OnDisk(d0, fs.T(), fs.used, fs.owner, 0, [], []);
    HeldSize(sb, d0, fs.T(), fs.used, heads);
    ghost var inside := off <= fs.inodes[n].size;
    if inside {
      StandStart(sb, l, heads, d0, start, n, off, src, avail, crash);
    } else {
      EndOutside(sb, l, heads, d0, start, n, off, src, avail, crash);
      OutcomeCounts(sb, l, heads, d0, start, n, off, src, avail, crash, x);
    }
    var i, chunk := 0, 0;
    ret, off' := -1, off;
    while i < |src|
      invariant 0 <= i <= |src| && off' == off + i && x.j == i && chunk == |x.run| && fs.Valid()
      invariant n < |fs.inodes| == |start.t.inodes| && |fs.blocks| == |start.t.blocks|
      invariant if inside then Standing(sb, l, heads, d0, start, n, off, src, avail, crash, x)
                else i == 0 && x == OnDisk(d0, start.t, start.used, start.owner, 0, [], [])
      invariant x.t == fs.T() && x.used == fs.used && x.owner == fs.owner
    {
      var n1 := if |src| - i > CHUNK then CHUNK else |src| - i;
      StandRange(sb, l, heads, d0, start, n, off, src, avail, crash, x);
      var r, w := WriteOp(fs, n, src[i..i + n1], if avail > i then avail - i else 0, off', sb, l);
      if r == -1 {
        if inside {
          EndBetween(sb, l, heads, d0, start, n, off, src, avail, crash, x);
          OutcomeCounts(sb, l, heads, d0, start, n, off, src, avail, crash, x);
        }
        return;
      }
      ghost var b := Chunk(fs.T(), fs.used, fs.owner, fs.logged, r, w);
      assert ChunkRan(sb, n, off, src, avail, x, b);
      if crash.In? && crash.chunk == chunk {
        x := EndInCrash(sb, l, heads, d0, start, n, off, src, avail, crash, x, b);
        return;
      }
      off' := off' + r;
      if r != n1 {
        x := EndShort(sb, l, heads, d0, start, n, off, src, avail, crash, x, b);
        OutcomeCounts(sb, l, heads, d0, start, n, off, src, avail, crash, x);
        return;
      }
      x := StandNext(sb, l, heads, d0, start, n, off, src, avail, crash, x, b);
      i, chunk := i + r, chunk + 1;
    }
    if inside {
      EndBetween(sb, l, heads, d0, start, n, off, src, avail, crash, x);
      OutcomeCounts(sb, l, heads, d0, start, n, off, src, avail, crash, x);
    }
    ret := |src|;
  }

  lemma StandRange(sb: Super, l: Disk.Layout, heads: seq<(int, int)>, d0: Disk.Disk, start: Chunk,
                   n: nat, off: nat, src: seq<Byte>, avail: nat, crash: Crash, x: OnDisk)
    ensures Standing(sb, l, heads, d0, start, n, off, src, avail, crash, x) && x.j < |src| ==>
      && x.j <= avail && off + x.j <= MAXFILE * BSIZE && Shaped(x.t) && n < |x.t.inodes|
      && Part(src, |x.run|) == src[x.j..ChunkEnd(|src|, |x.run|)]
      && ChunkEnd(|src|, |x.run|) - x.j == (if |src| - x.j > CHUNK then CHUNK else |src| - x.j)
      && off + x.j <= x.t.inodes[n].size
  {
    hide Transactions, PrefixOnDisk, Placed, Progress, Reached, Before;
    if Standing(sb, l, heads, d0, start, n, off, src, avail, crash, x) && x.j < |src| {
      PartIs(off, src, avail, |x.run|, x.j);
      Prefix(sb, l, x.d, start.t, x.t, x.used, x.owner, heads, n, off, x.j, src);
      EffectSize(start.t, x.t, n, off, x.j, x.j, src);
    }
  }

  // ---- itrunc as an operation ----

  /** What `itrunc` ensures, in a transaction of its own. */
  ghost predicate Emptied(sb: Super, t: Tree, used: seq<bool>, o: map<nat, Slot>, now: seq<bool>, log: set<nat>,
                          n: nat) {
    && FsOk(t, used, o, sb.meta) && n < |t.inodes| && |now| == |used|
    && (forall b :: 0 <= b < |used| ==> (now[b] <==> used[b] && !(b in o && o[b].inum == n)))
    && log == BitmapsOf(sb.bmapstart, FileBlocks(o, n)) + {n / IPB + sb.inodestart}
  }

  method TruncOp(fs: Fs, n: nat, ghost sb: Super)
    requires fs.Valid() && n < |fs.inodes| && sb == Super(fs.inodestart, fs.bmapstart, fs.meta)
    modifies fs
    ensures fs.Valid() && Shaped(old(fs.T())) && fs.T() == Truncated(old(fs.T()), n)
    ensures Emptied(sb, old(fs.T()), old(fs.used), old(fs.owner), fs.used, fs.logged, n)
  {
    hide FsOk, BitmapsOf, FileBlocks;
    FsShaped(fs.T(), fs.used, fs.owner, fs.meta);
    TruncSizes(fs.T(), fs.used, fs.owner, fs.meta, n);
    fs.logged := {};
    fs.Itrunc(n);
    FsShaped(fs.T(), fs.used, fs.owner, fs.meta);
  }

  lemma TruncSizes(t: Tree, used: seq<bool>, o: map<nat, Slot>, meta: nat, n: nat)
    requires FsOk(t, used, o, meta) && n < |t.inodes|
    ensures Shaped(t) && |used| == |t.blocks| == |Truncated(t, n).blocks|
  {
  }

  lemma TruncCovers(sb: Super, t: Tree, used: seq<bool>, o: map<nat, Slot>, now: seq<bool>, log: set<nat>, n: nat)
    requires Emptied(sb, t, used, o, now, log, n)
    ensures Shaped(t) && Covers(sb, t, used, Truncated(t, n), now, log)
    ensures Kept(t, Truncated(t, n), log) == Truncated(t, n)
  {
    hide Owned, FilesMapped;
    TruncSizes(t, used, o, sb.meta, n);
    forall b | 0 <= b < |used| && now[b] != used[b] ensures b / BPB + sb.bmapstart in log {
      assert b in FileBlocks(o, n);
    }
    assert Kept(t, Truncated(t, n), log).blocks == t.blocks;
  }

  lemma TruncPlaced(sb: Super, l: Disk.Layout, t: Tree, used: seq<bool>, o: map<nat, Slot>, now: seq<bool>,
                    log: set<nat>,
                    n: nat, x: nat)
    requires Emptied(sb, t, used, o, now, log, n) && Placed(sb, l, |t.blocks|, |t.inodes|) && x in log
    ensures sb.inodestart <= x < |t.blocks|
  {
    hide FsOk, Placed;
    InodeRange(sb, l, |t.blocks|, |t.inodes|, n);
    if x != n / IPB + sb.inodestart {
      var b :| b in FileBlocks(o, n) && x == b / BPB + sb.bmapstart;
      OwnerInRange(t, used, o, sb.meta, b);
      BitmapRange(sb, l, |t.blocks|, |t.inodes|, b);
    }
  }

  lemma InodeRange(sb: Super, l: Disk.Layout, size: nat, ninodes: nat, n: nat)
    requires Placed(sb, l, size, ninodes) && n < ninodes
    ensures sb.inodestart <= n / IPB + sb.inodestart < size
  {
    DivBelow(n, ninodes);
  }

  /** On a disk of fewer bitmap blocks than the log has room for, the transaction fits. */
  lemma TruncFits(sb: Super, t: Tree, used: seq<bool>, o: map<nat, Slot>, now: seq<bool>, log: set<nat>, n: nat)
    requires Emptied(sb, t, used, o, now, log, n) && |t.blocks| <= (LOGSIZE - 1) * BPB
    ensures |log| <= LOGSIZE
  {
    hide FsOk, UpTo;
    var maps := BitmapsOf(sb.bmapstart, FileBlocks(o, n));
    forall x | x in maps ensures x in UpTo(sb.bmapstart, LOGSIZE - 1) {
      var b :| b in FileBlocks(o, n) && x == b / BPB + sb.bmapstart;
      OwnerInRange(t, used, o, sb.meta, b);
    }
    SubsetSize(maps, UpTo(sb.bmapstart, LOGSIZE - 1));
  }

  lemma TruncIsTransaction(sb: Super, l: Disk.Layout, d: Disk.Disk, t: Tree, used: seq<bool>, o: map<nat, Slot>,
                           now: seq<bool>, heads: seq<(int, int)>, log: set<nat>, n: nat, blocks: seq<nat>)
    requires Placed(sb, l, |d|, |t.inodes|) && |d| == |t.blocks| && Shaped(t)
    requires Emptied(sb, t, used, o, now, log, n) && Lists(blocks, log) && |log| <= LOGSIZE
    ensures forall i :: 0 <= i < |blocks| ==> sb.inodestart <= blocks[i] < |t.blocks|
    ensures Disk.Transaction(l, |d|, blocks, NewData(sb, Truncated(t, n), now, heads, blocks))
    ensures Carries(sb, Truncated(t, n), now, heads, log, blocks, NewData(sb, Truncated(t, n), now, heads, blocks))
  {
    hide FsOk, Placed, BitmapsOf, FileBlocks, Encode;
    forall i | 0 <= i < |blocks| ensures sb.inodestart <= blocks[i] < |t.blocks| {
      assert blocks[i] in blocks;
      TruncPlaced(sb, l, t, used, o, now, log, n, blocks[i]);
    }
    ListSize(blocks, log);
    HomeAbove(sb, l, |d|, |t.inodes|, blocks);
  }

  /**
   After a crash anywhere in the commit of an `itrunc` the disk holds the files as they were, or with this
   one empty.
   */
  lemma TruncAtomic(sb: Super, l: Disk.Layout, d: Disk.Disk, t: Tree, used: seq<bool>, o: map<nat, Slot>,
                    now: seq<bool>,
                    heads: seq<(int, int)>, log: set<nat>, n: nat, blocks: seq<nat>, k: nat, crashes: seq<nat>)
    requires Placed(sb, l, |d|, |t.inodes|) && Holds(sb, d, t, used, heads)
    requires Disk.WellFormed(l, d) && Disk.HeaderCount(l, d) == 0
    requires Emptied(sb, t, used, o, now, log, n) && Lists(blocks, log) && |log| <= LOGSIZE
    ensures Shaped(t) && |blocks| <= LOGSIZE
    ensures forall i :: 0 <= i < |blocks| ==> sb.inodestart <= blocks[i] < |t.blocks|
    ensures var data := NewData(sb, Truncated(t, n), now, heads, blocks);
      k <= |Disk.CommitWrites(l, d[l.start], blocks, data)| ==>
        var e := Disk.Apply(d, Disk.CommitWrites(l, d[l.start], blocks, data)[..k]);
        && Disk.WellFormed(l, e)
        && var r := Disk.RecoverThrough(l, e, crashes);
        && |r| == |d| && Disk.WellFormed(l, r) && Disk.HeaderCount(l, r) == 0
        && if Disk.PastCommitPoint(blocks, k) then Holds(sb, r, Truncated(t, n), now, heads)
           else Holds(sb, r, t, used, heads)
  {
    hide Disk.CommitWrites, Disk.WellFormed, Disk.HeaderCount, Disk.Apply, Disk.RecoverThrough, Disk.HomeBlocks;
    hide Holds, Covers, Kept, FsOk, Placed, BitmapsOf, FileBlocks, Carries, NewData, Lists;
    LogInRange(l, d);
    TruncCovers(sb, t, used, o, now, log, n);
    HeldSize(sb, d, t, used, heads);
    TruncIsTransaction(sb, l, d, t, used, o, now, heads, log, n, blocks);
    var data := NewData(sb, Truncated(t, n), now, heads, blocks);
    if k <= |Disk.CommitWrites(l, d[l.start], blocks, data)| {
      OperationAtomic(sb, l, d, t, used, Truncated(t, n), now, heads, log, blocks, data, k, crashes);
    }
  }

  lemma HomeAbove(sb: Super, l: Disk.Layout, size: nat, ninodes: nat, blocks: seq<nat>)
    requires Placed(sb, l, size, ninodes) && forall i :: 0 <= i < |blocks| ==> sb.inodestart <= blocks[i] < size
    ensures forall i :: 0 <= i < |blocks| ==> l.IsHome(blocks[i], size)
  {
  }
}
