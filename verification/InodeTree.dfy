/**
 The block tree of an inode in kernel/fs.c, as values: direct, indirect and doubly
 indirect block numbers, the free bitmap, and who owns which block.

 A pointer slot of an inode is a path: [i] is ip->addrs[i], [11, j] is entry j of the
 indirect block, [12, j] is entry j of the doubly indirect block and [12, j, k] is entry
 k of the block that entry names. The ghost map `owner` records for every allocated block
 the one slot that refers to it; the invariant says that slots and owners agree exactly.
 */
module InodeTree {

  const BSIZE := 1024
  const NDIRECT := 11
  const NIRECT := 12
  const NINDIRECT := 256
  const MAXFILE := NDIRECT + NINDIRECT + NINDIRECT * NINDIRECT
  const WORD := 0x1_0000_0000

  type Byte = b: int | 0 <= b < 256
  type Block = b: seq<Byte> | |b| == BSIZE witness seq(BSIZE, i => 0)

  predicate IsZero(b: Block) {
    forall i :: 0 <= i < BSIZE ==> b[i] == 0
  }

  // ---- a block read as an array of uint ----

  function Entry(b: Block, i: nat): (r: nat)
    requires i < NINDIRECT
    ensures r < WORD
  {
    var b0: int, b1: int, b2: int, b3: int := b[4 * i], b[4 * i + 1], b[4 * i + 2], b[4 * i + 3];
    b0 + 0x100 * b1 + 0x1_0000 * b2 + 0x100_0000 * b3
  }

  function PutEntry(b: Block, i: nat, v: nat): (r: Block)
    requires i < NINDIRECT && v < WORD
  {
    b[4 * i := v % 0x100][4 * i + 1 := v / 0x100 % 0x100]
     [4 * i + 2 := v / 0x1_0000 % 0x100][4 * i + 3 := v / 0x100_0000]
  }

  lemma EntryPut(b: Block, i: nat, v: nat, j: nat)
    requires i < NINDIRECT && j < NINDIRECT && v < WORD
    ensures Entry(PutEntry(b, i, v), j) == if i == j then v else Entry(b, j)
  {
    Digits(v);
    var r := PutEntry(b, i, v);
    if i == j {
      assert r[4 * i] == v % 0x100 && r[4 * i + 1] == v / 0x100 % 0x100;
      assert r[4 * i + 2] == v / 0x1_0000 % 0x100 && r[4 * i + 3] == v / 0x100_0000;
    } else {
      assert r[4 * j] == b[4 * j] && r[4 * j + 1] == b[4 * j + 1];
      assert r[4 * j + 2] == b[4 * j + 2] && r[4 * j + 3] == b[4 * j + 3];
    }
  }

  lemma Digits(v: nat)
    requires v < WORD
    ensures v / 0x100_0000 < 0x100
    ensures v ==
      v % 0x100 + 0x100 * (v / 0x100 % 0x100) + 0x1_0000 * (v / 0x1_0000 % 0x100) + 0x100_0000 * (v / 0x100_0000)
  {
    assert v / 0x1_0000 == v / 0x100 / 0x100;
    assert v / 0x100_0000 == v / 0x1_0000 / 0x100;
  }

  lemma EntryZero(b: Block, j: nat)
    requires IsZero(b) && j < NINDIRECT
    ensures Entry(b, j) == 0
  {
  }

  // ---- slots ----

  type Path = seq<nat>

  datatype Inode = Inode(addrs: seq<nat>, size: nat)

  datatype Slot = Slot(inum: nat, path: Path)

  predicate ValidPath(p: Path) {
    || (|p| == 1 && p[0] <= NIRECT)
    || (|p| == 2 && NDIRECT <= p[0] <= NIRECT && p[1] < NINDIRECT)
    || (|p| == 3 && p[0] == NIRECT && p[1] < NINDIRECT && p[2] < NINDIRECT)
  }

  function Parent(p: Path): (r: Path)
    requires |p| > 0
  {
    p[..|p| - 1]
  }

  function Last(p: Path): nat
    requires |p| > 0
  {
    p[|p| - 1]
  }

  /** The inodes and the disk blocks, the part of the state the block numbers live in. */
  datatype Tree = Tree(inodes: seq<Inode>, blocks: seq<Block>)

  predicate Shaped(t: Tree) {
    && |t.blocks| < WORD
    && forall n :: 0 <= n < |t.inodes| ==> |t.inodes[n].addrs| == NIRECT + 1
  }

  /** Entry `i` of the indirect block `h`. */
  function Follow(blocks: seq<Block>, h: nat, i: nat): (r: nat)
    requires i < NINDIRECT
  {
    if h == 0 || h >= |blocks| then 0 else Entry(blocks[h], i)
  }

  /** The block number in a slot; 0 where there is none, also below a missing indirect block. */
  function Ptr(t: Tree, n: nat, p: Path): (r: nat)
    requires Shaped(t) && n < |t.inodes| && ValidPath(p)
    decreases |p|
  {
    if |p| == 1 then t.inodes[n].addrs[p[0]]
    else Follow(t.blocks, Ptr(t, n, Parent(p)), Last(p))
  }

  /** The slot of the `bn`-th data block of a file: the three ranges of `bmap`. */
  function DataPath(bn: nat): (p: Path)
    requires bn < MAXFILE
    ensures ValidPath(p)
  {
    if bn < NDIRECT then [bn]
    else if bn - NDIRECT < NINDIRECT then [NDIRECT, bn - NDIRECT]
    else
      var d := bn - NDIRECT - NINDIRECT;
      [NIRECT, d / NINDIRECT, d % NINDIRECT]
  }

  lemma DataPathInjective(a: nat, b: nat)
    requires a < MAXFILE && b < MAXFILE && DataPath(a) == DataPath(b)
    ensures a == b
  {
  }

  /** Data blocks are leaves: no slot lies inside one. */
  lemma DataPathIsLeaf(bn: nat, p: Path)
    requires bn < MAXFILE && ValidPath(p) && |p| > 1
    ensures DataPath(bn) != Parent(p)
  {
  }

  // ---- ownership ----

  /** Every nonzero slot is the owner of its block. */
  ghost predicate SlotsOwn(t: Tree, owner: map<nat, Slot>) {
    && Shaped(t)
    && forall n, p {:trigger Ptr(t, n, p)} :: 0 <= n < |t.inodes| && ValidPath(p) && Ptr(t, n, p) != 0 ==>
        Ptr(t, n, p) in owner && owner[Ptr(t, n, p)] == Slot(n, p)
  }

  /** Every owner refers to its block, which is a data block of the disk. */
  ghost predicate OwnersRefer(t: Tree, owner: map<nat, Slot>, meta: nat) {
    && Shaped(t)
    && forall b :: b in owner ==>
        && meta <= b < |t.blocks|
        && owner[b].inum < |t.inodes| && ValidPath(owner[b].path)
        && Ptr(t, owner[b].inum, owner[b].path) == b
  }

  ghost predicate Owned(t: Tree, owner: map<nat, Slot>, meta: nat) {
    0 < meta <= |t.blocks| && SlotsOwn(t, owner) && OwnersRefer(t, owner, meta)
  }

  /** The bitmap marks exactly the metadata blocks and the owned blocks. */
  ghost predicate BitmapExact(used: seq<bool>, n: nat, owner: map<nat, Slot>, meta: nat) {
    && |used| == n
    && forall b :: 0 <= b < n ==> (used[b] <==> b < meta || b in owner)
  }

  /** No block is in two slots, of one inode or of two, and no slot names a free or a metadata block. */
  lemma NeverShared(t: Tree, used: seq<bool>, owner: map<nat, Slot>, meta: nat, n: nat, p: Path, m: nat, q: Path)
    requires Owned(t, owner, meta) && BitmapExact(used, |t.blocks|, owner, meta)
    requires n < |t.inodes| && m < |t.inodes| && ValidPath(p) && ValidPath(q)
    requires Ptr(t, n, p) == Ptr(t, m, q) != 0
    ensures n == m && p == q
    ensures meta <= Ptr(t, n, p) < |t.blocks| && used[Ptr(t, n, p)]
  {
  }

  // ---- zeroing a free block ----

  lemma {:induction false} PtrAfterZero(t: Tree, owner: map<nat, Slot>, meta: nat, b: nat, z: Block, m: nat, q: Path)
    requires Owned(t, owner, meta) && b < |t.blocks| && b !in owner && m < |t.inodes| && ValidPath(q)
    ensures Shaped(t.(blocks := t.blocks[b := z])) && Ptr(t.(blocks := t.blocks[b := z]), m, q) == Ptr(t, m, q)
    decreases |q|
  {
    if |q| > 1 {
      PtrAfterZero(t, owner, meta, b, z, m, Parent(q));
    }
  }

  lemma ZeroKeeps(t: Tree, owner: map<nat, Slot>, meta: nat, b: nat, z: Block)
    requires Owned(t, owner, meta) && b < |t.blocks| && b !in owner
    ensures Owned(t.(blocks := t.blocks[b := z]), owner, meta)
    ensures SameBytes(t, t.(blocks := t.blocks[b := z])) && Grows(t, t.(blocks := t.blocks[b := z]))
    ensures forall m, q {:trigger Ptr(t.(blocks := t.blocks[b := z]), m, q)} :: 0 <= m < |t.inodes| && ValidPath(q) ==>
      Ptr(t.(blocks := t.blocks[b := z]), m, q) == Ptr(t, m, q)
  {
    var u := t.(blocks := t.blocks[b := z]);
    forall m, q | 0 <= m < |t.inodes| && ValidPath(q) ensures Shaped(u) && Ptr(u, m, q) == Ptr(t, m, q) {
      PtrAfterZero(t, owner, meta, b, z, m, q);
    }
    assert Shaped(u);
    forall m, pos | 0 <= m < |t.inodes| && 0 <= pos < MAXFILE * BSIZE ensures ByteAt(u, m, pos) == ByteAt(t, m, pos) {
      assert Ptr(u, m, DataPath(pos / BSIZE)) == Ptr(t, m, DataPath(pos / BSIZE));
    }
  }

  // ---- filling a slot ----

  function PutAt(blocks: seq<Block>, h: nat, i: nat, b: nat): (r: seq<Block>)
    requires h < |blocks| && i < NINDIRECT && b < WORD
  {
    blocks[h := PutEntry(blocks[h], i, b)]
  }

  /** Store `b` in a slot: in the inode for a top-level slot, otherwise in the block above. */
  function Store(t: Tree, n: nat, p: Path, b: nat): (r: Tree)
    requires Shaped(t) && n < |t.inodes| && ValidPath(p) && b < |t.blocks|
    requires |p| > 1 ==> 0 < Ptr(t, n, Parent(p)) < |t.blocks|
    ensures |r.blocks| == |t.blocks| && |r.inodes| == |t.inodes| && Shaped(r)
    ensures forall m :: 0 <= m < |t.inodes| ==> r.inodes[m].size == t.inodes[m].size
  {
    if |p| == 1 then Tree(t.inodes[n := Inode(t.inodes[n].addrs[p[0] := b], t.inodes[n].size)], t.blocks)
    else Tree(t.inodes, PutAt(t.blocks, Ptr(t, n, Parent(p)), Last(p), b))
  }

  /** The slot is empty and `b` is an unowned, zeroed block. */
  ghost predicate CanFill(t: Tree, owner: map<nat, Slot>, n: nat, p: Path, b: nat) {
    && Shaped(t) && n < |t.inodes| && ValidPath(p)
    && Ptr(t, n, p) == 0
    && (|p| > 1 ==> 0 < Ptr(t, n, Parent(p)) < |t.blocks|)
    && 0 < b < |t.blocks| && b !in owner && IsZero(t.blocks[b])
  }

  lemma {:induction false} PtrAfterFill(t: Tree, owner: map<nat, Slot>, meta: nat, n: nat, p: Path, b: nat, m: nat,
                                        q: Path)
    requires Owned(t, owner, meta) && CanFill(t, owner, n, p, b) && m < |t.inodes| && ValidPath(q)
    ensures Ptr(Store(t, n, p, b), m, q) == if m == n && p == q then b else Ptr(t, m, q)
    decreases |q|
  {
    if |q| > 1 {
      PtrAfterFill(t, owner, meta, n, p, b, m, Parent(q));
      var h := Ptr(t, m, Parent(q));
      if m == n && p == Parent(q) {
        EntryZero(t.blocks[b], Last(q));
        if |p| > 1 {
          assert Ptr(t, n, Parent(p)) in owner;
        }
      } else if h != 0 && |p| > 1 {
        var g := Ptr(t, n, Parent(p));
        assert owner[g] == Slot(n, Parent(p)) && owner[h] == Slot(m, Parent(q));
        if h == g {
          assert q == Parent(q) + [Last(q)] && p == Parent(p) + [Last(p)];
          EntryPut(t.blocks[g], Last(p), b, Last(q));
        }
      }
    }
  }

  /** Filling an empty slot with a fresh block gives that block, and no other, an owner; no file's bytes change. */
  lemma FillKeeps(t: Tree, owner: map<nat, Slot>, meta: nat, n: nat, p: Path, b: nat)
    requires Owned(t, owner, meta) && CanFill(t, owner, n, p, b) && meta <= b
    ensures Owned(Store(t, n, p, b), owner[b := Slot(n, p)], meta)
    ensures Ptr(Store(t, n, p, b), n, p) == b
    ensures SameBytes(t, Store(t, n, p, b)) && Grows(t, Store(t, n, p, b))
  {
    var u, o := Store(t, n, p, b), owner[b := Slot(n, p)];
    forall m, q | 0 <= m < |t.inodes| && ValidPath(q)
      ensures Ptr(u, m, q) == if m == n && p == q then b else Ptr(t, m, q)
    {
      PtrAfterFill(t, owner, meta, n, p, b, m, q);
    }
    forall m, pos | 0 <= m < |t.inodes| && 0 <= pos < MAXFILE * BSIZE ensures ByteAt(u, m, pos) == ByteAt(t, m, pos) {
      FillKeepsByte(t, owner, meta, n, p, b, m, pos);
    }
  }

  lemma FillKeepsByte(t: Tree, owner: map<nat, Slot>, meta: nat, n: nat, p: Path, b: nat, m: nat, pos: nat)
    requires Owned(t, owner, meta) && CanFill(t, owner, n, p, b)
    requires m < |t.inodes| && pos < MAXFILE * BSIZE
    ensures ByteAt(Store(t, n, p, b), m, pos) == ByteAt(t, m, pos)
  {
    var q := DataPath(pos / BSIZE);
    PtrAfterFill(t, owner, meta, n, p, b, m, q);
    if |p| > 1 {
      DataPathIsLeaf(pos / BSIZE, p);
      assert owner[Ptr(t, n, Parent(p))] == Slot(n, Parent(p));
      assert Ptr(t, m, q) != 0 ==> owner[Ptr(t, m, q)] == Slot(m, q);
    }
  }

  // ---- file contents ----

  /** Byte `pos` of file `n`; a hole, or anything past the last mapped block, reads as 0. */
  function ByteAt(t: Tree, n: nat, pos: nat): (r: Byte)
    requires Shaped(t) && n < |t.inodes| && pos < MAXFILE * BSIZE
  {
    var a := Ptr(t, n, DataPath(pos / BSIZE));
    if a == 0 || a >= |t.blocks| then 0 else t.blocks[a][pos % BSIZE]
  }

  /** Every byte of every file is the same. */
  ghost predicate SameBytes(t: Tree, u: Tree) {
    && Shaped(t) && Shaped(u) && |t.inodes| == |u.inodes|
    && forall m, pos {:trigger ByteAt(u, m, pos)} :: 0 <= m < |t.inodes| && 0 <= pos < MAXFILE * BSIZE ==>
        ByteAt(u, m, pos) == ByteAt(t, m, pos)
  }

  /** Slots in use keep their blocks, and sizes are the same. */
  ghost predicate Grows(t: Tree, u: Tree) {
    && Shaped(t) && Shaped(u) && |t.inodes| == |u.inodes| && |t.blocks| == |u.blocks|
    && (forall m :: 0 <= m < |t.inodes| ==> u.inodes[m].size == t.inodes[m].size)
    && (forall m, q {:trigger Ptr(u, m, q)} :: 0 <= m < |t.inodes| && ValidPath(q) && Ptr(t, m, q) != 0 ==>
          Ptr(u, m, q) == Ptr(t, m, q))
  }

  lemma GrowsTrans(t: Tree, u: Tree, v: Tree)
    requires Grows(t, u) && Grows(u, v)
    ensures Grows(t, v)
  {
    forall m, q | 0 <= m < |t.inodes| && ValidPath(q) && Ptr(t, m, q) != 0 ensures Ptr(v, m, q) == Ptr(t, m, q) {
      assert Ptr(u, m, q) == Ptr(t, m, q);
    }
  }

  lemma SameBytesTrans(t: Tree, u: Tree, v: Tree)
    requires SameBytes(t, u) && SameBytes(u, v)
    ensures SameBytes(t, v)
  {
    forall m, pos | 0 <= m < |t.inodes| && 0 <= pos < MAXFILE * BSIZE ensures ByteAt(v, m, pos) == ByteAt(t, m, pos) {
      assert ByteAt(u, m, pos) == ByteAt(t, m, pos);
    }
  }

  /** Replacing the contents of a data block of file `n` changes that block's bytes of that file and nothing else. */
  lemma WriteBlock(t: Tree, owner: map<nat, Slot>, meta: nat, n: nat, bn: nat, data: Block)
    requires Owned(t, owner, meta) && n < |t.inodes| && bn < MAXFILE && Ptr(t, n, DataPath(bn)) != 0
    ensures Ptr(t, n, DataPath(bn)) < |t.blocks|
    ensures var u := t.(blocks := t.blocks[Ptr(t, n, DataPath(bn)) := data]);
      && Owned(u, owner, meta) && Grows(t, u)
      && (forall m, pos {:trigger ByteAt(u, m, pos)} :: 0 <= m < |t.inodes| && 0 <= pos < MAXFILE * BSIZE ==>
            ByteAt(u, m, pos) == if m == n && pos / BSIZE == bn then data[pos % BSIZE] else ByteAt(t, m, pos))
  {
    var a := Ptr(t, n, DataPath(bn));
    var u := t.(blocks := t.blocks[a := data]);
    forall m, q | 0 <= m < |t.inodes| && ValidPath(q) ensures Ptr(u, m, q) == Ptr(t, m, q) {
      PtrAfterWrite(t, owner, meta, n, bn, data, m, q);
    }
    forall m, pos | 0 <= m < |t.inodes| && 0 <= pos < MAXFILE * BSIZE
      ensures ByteAt(u, m, pos) == if m == n && pos / BSIZE == bn then data[pos % BSIZE] else ByteAt(t, m, pos)
    {
      var q := DataPath(pos / BSIZE);
      assert Ptr(u, m, q) == Ptr(t, m, q);
      if Ptr(t, m, q) == a {
        assert owner[a] == Slot(m, q) && owner[a] == Slot(n, DataPath(bn));
        DataPathInjective(bn, pos / BSIZE);
      }
    }
  }

  lemma {:induction false} PtrAfterWrite(t: Tree, owner: map<nat, Slot>, meta: nat, n: nat, bn: nat, data: Block,
                                         m: nat, q: Path)
    requires Owned(t, owner, meta) && n < |t.inodes| && bn < MAXFILE && Ptr(t, n, DataPath(bn)) != 0
    requires m < |t.inodes| && ValidPath(q)
    ensures var a := Ptr(t, n, DataPath(bn));
      && a < |t.blocks| && Shaped(t.(blocks := t.blocks[a := data]))
      && Ptr(t.(blocks := t.blocks[a := data]), m, q) == Ptr(t, m, q)
    decreases |q|
  {
    var a := Ptr(t, n, DataPath(bn));
    assert owner[a] == Slot(n, DataPath(bn));
    if |q| > 1 {
      PtrAfterWrite(t, owner, meta, n, bn, data, m, Parent(q));
      DataPathIsLeaf(bn, q);
    }
  }

  /** A file's blocks below its size are all mapped, so reading never meets a hole. */
  ghost predicate MappedBelow(t: Tree, n: nat, limit: nat) {
    && Shaped(t) && n < |t.inodes| && limit <= MAXFILE * BSIZE
    && forall bn {:trigger DataPath(bn)} :: 0 <= bn < MAXFILE && bn * BSIZE < limit ==> Ptr(t, n, DataPath(bn)) != 0
  }

  ghost predicate FilesMapped(t: Tree) {
    Shaped(t) && forall n :: 0 <= n < |t.inodes| ==> MappedBelow(t, n, t.inodes[n].size)
  }

  lemma GrowsKeepsMapped(t: Tree, u: Tree, n: nat, limit: nat)
    requires Grows(t, u) && MappedBelow(t, n, limit)
    ensures MappedBelow(u, n, limit)
  {
  }

  lemma GrowsKeepsFiles(t: Tree, u: Tree)
    requires Grows(t, u) && FilesMapped(t)
    ensures FilesMapped(u)
  {
    forall n | 0 <= n < |u.inodes| ensures MappedBelow(u, n, u.inodes[n].size) {
      assert MappedBelow(t, n, t.inodes[n].size);
      GrowsKeepsMapped(t, u, n, t.inodes[n].size);
    }
  }

  /** What a file holds: its first `size` bytes. */
  function Contents(t: Tree, n: nat): (r: seq<Byte>)
    requires Shaped(t) && n < |t.inodes| && t.inodes[n].size <= MAXFILE * BSIZE
    ensures |r| == t.inodes[n].size
    ensures forall pos :: 0 <= pos < |r| ==> r[pos] == ByteAt(t, n, pos)
  {
    seq(t.inodes[n].size, pos requires 0 <= pos < MAXFILE * BSIZE => ByteAt(t, n, pos))
  }

  // ---- emptying an inode ----

  function Truncated(t: Tree, n: nat): (r: Tree)
    requires Shaped(t) && n < |t.inodes|
    ensures Shaped(r)
  {
    t.(inodes := t.inodes[n := Inode(seq(NIRECT + 1, i => 0), 0)])
  }

  function WithoutFile(owner: map<nat, Slot>, n: nat): (r: map<nat, Slot>) {
    map b | b in owner && owner[b].inum != n :: owner[b]
  }

  lemma {:induction false} PtrAfterTrunc(t: Tree, n: nat, m: nat, q: Path)
    requires Shaped(t) && n < |t.inodes| && m < |t.inodes| && ValidPath(q)
    ensures Ptr(Truncated(t, n), m, q) == if m == n then 0 else Ptr(t, m, q)
    decreases |q|
  {
    if |q| > 1 {
      PtrAfterTrunc(t, n, m, Parent(q));
    }
  }

  /** Emptying a file takes away exactly its own blocks and leaves every other file as it was. */
  lemma TruncKeeps(t: Tree, owner: map<nat, Slot>, meta: nat, n: nat)
    requires Owned(t, owner, meta) && FilesMapped(t) && n < |t.inodes|
    ensures Owned(Truncated(t, n), WithoutFile(owner, n), meta) && FilesMapped(Truncated(t, n))
    ensures Contents(Truncated(t, n), n) == []
    ensures forall m :: 0 <= m < |t.inodes| && m != n ==>
      && Truncated(t, n).inodes[m] == t.inodes[m] && MappedBelow(t, m, t.inodes[m].size)
      && Contents(Truncated(t, n), m) == Contents(t, m)
  {
    var u := Truncated(t, n);
    forall m, q | 0 <= m < |t.inodes| && ValidPath(q) ensures Ptr(u, m, q) == if m == n then 0 else Ptr(t, m, q) {
      PtrAfterTrunc(t, n, m, q);
    }
    forall m | 0 <= m < |t.inodes| && m != n
      ensures MappedBelow(t, m, t.inodes[m].size) && Contents(u, m) == Contents(t, m)
    {
      forall pos | 0 <= pos < t.inodes[m].size ensures ByteAt(u, m, pos) == ByteAt(t, m, pos) {
        assert Ptr(u, m, DataPath(pos / BSIZE)) == Ptr(t, m, DataPath(pos / BSIZE));
      }
    }
    forall m | 0 <= m < |u.inodes| ensures MappedBelow(u, m, u.inodes[m].size) {
      if m != n {
        assert MappedBelow(t, m, t.inodes[m].size);
      }
    }
  }

  /** The order in which `itrunc` frees the slots of an inode. */
  function Rank(p: Path): (r: nat)
    requires ValidPath(p)
    ensures r <= LAST_RANK
  {
    if |p| == 1 && p[0] < NDIRECT then p[0]
    else if |p| == 2 && p[0] == NDIRECT then NDIRECT + p[1]
    else if p == [NDIRECT] then NDIRECT + NINDIRECT
    else if |p| == 3 then DOUBLE_RANK + p[1] * (NINDIRECT + 1) + p[2]
    else if |p| == 2 then DOUBLE_RANK + p[1] * (NINDIRECT + 1) + NINDIRECT
    else LAST_RANK
  }

  const DOUBLE_RANK := NDIRECT + NINDIRECT + 1
  const LAST_RANK := DOUBLE_RANK + NINDIRECT * (NINDIRECT + 1)

  lemma RankInjective(p: Path, q: Path)
    requires ValidPath(p) && ValidPath(q) && Rank(p) == Rank(q)
    ensures p == q
  {
    if |p| == 1 {
      assert p == [p[0]];
    } else if |p| == 2 {
      assert p == [p[0], p[1]];
    } else {
      assert p == [p[0], p[1], p[2]];
    }
    if |q| == 1 {
      assert q == [q[0]];
    } else if |q| == 2 {
      assert q == [q[0], q[1]];
    } else {
      assert q == [q[0], q[1], q[2]];
    }
  }

  /**
   The bitmap while `itrunc` runs: the blocks of slots ranked below `r` are free again, everything else is
   as it was.
   */
  ghost predicate FreedBelow(used: seq<bool>, before: seq<bool>, owner: map<nat, Slot>, n: nat, r: nat) {
    && |used| == |before|
    && (forall b :: b in owner ==> ValidPath(owner[b].path))
    && forall b :: 0 <= b < |used| ==>
        (used[b] <==> before[b] && !(b in owner && owner[b].inum == n && Rank(owner[b].path) < r))
  }

  // ---- writing ----

  /** The block with `data` at offset `at`. */
  function PutBytes(b: Block, at: nat, data: seq<Byte>): (r: Block)
    requires at + |data| <= BSIZE
  {
    b[..at] + data + b[at + |data|..]
  }

  /**
   From `t` to `u`, bytes `off` to `off + w` of file `n` became those of `src`, and no other byte of any
   file changed.
   */
  ghost predicate Written(t: Tree, u: Tree, n: nat, off: nat, w: nat, src: seq<Byte>) {
    && Shaped(t) && Shaped(u) && |t.inodes| == |u.inodes| && w <= |src|
    && forall m, pos {:trigger ByteAt(u, m, pos)} :: 0 <= m < |t.inodes| && 0 <= pos < MAXFILE * BSIZE ==>
        ByteAt(u, m, pos) == if m == n && off <= pos < off + w then src[pos - off] else ByteAt(t, m, pos)
  }

  lemma WrittenThenSame(t: Tree, u: Tree, v: Tree, n: nat, off: nat, w: nat, src: seq<Byte>)
    requires Written(t, u, n, off, w, src) && SameBytes(u, v)
    ensures Written(t, v, n, off, w, src)
  {
    forall m, pos | 0 <= m < |t.inodes| && 0 <= pos < MAXFILE * BSIZE
      ensures ByteAt(v, m, pos) == if m == n && off <= pos < off + w then src[pos - off] else ByteAt(t, m, pos)
    {
      assert ByteAt(u, m, pos) == if m == n && off <= pos < off + w then src[pos - off] else ByteAt(t, m, pos);
    }
  }

  /** One round of `writei`: `k` bytes at position `off + w`, all within one block. */
  lemma WriteChunk(t: Tree, u: Tree, owner: map<nat, Slot>, meta: nat, n: nat, off: nat, w: nat, k: nat, src: seq<Byte>)
    requires Owned(u, owner, meta) && Written(t, u, n, off, w, src) && n < |u.inodes|
    requires w + k <= |src| && off + w + k <= MAXFILE * BSIZE && off + w < MAXFILE * BSIZE
    requires (off + w) % BSIZE + k <= BSIZE && Ptr(u, n, DataPath((off + w) / BSIZE)) != 0
    ensures var a := Ptr(u, n, DataPath((off + w) / BSIZE));
      && a < |u.blocks|
      && var v := u.(blocks := u.blocks[a := PutBytes(u.blocks[a], (off + w) % BSIZE, src[w..w + k])]);
      && Owned(v, owner, meta) && Grows(u, v) && Written(t, v, n, off, w + k, src)
  {
    var bn, at := (off + w) / BSIZE, (off + w) % BSIZE;
    var a := Ptr(u, n, DataPath(bn));
    WriteBlock(u, owner, meta, n, bn, u.blocks[a]);
    var data := PutBytes(u.blocks[a], at, src[w..w + k]);
    WriteBlock(u, owner, meta, n, bn, data);
    var v := u.(blocks := u.blocks[a := data]);
    forall m, pos | 0 <= m < |t.inodes| && 0 <= pos < MAXFILE * BSIZE
      ensures ByteAt(v, m, pos) == if m == n && off <= pos < off + w + k then src[pos - off] else ByteAt(t, m, pos)
    {
      assert ByteAt(u, m, pos) == if m == n && off <= pos < off + w then src[pos - off] else ByteAt(t, m, pos);
      assert ByteAt(v, m, pos) == if m == n && pos / BSIZE == bn then data[pos % BSIZE] else ByteAt(u, m, pos);
      if m == n && pos / BSIZE == bn {
        assert ByteAt(u, m, pos) == u.blocks[a][pos % BSIZE];
        ByteInChunk(u.blocks[a], off, w, k, src, pos);
      } else if m == n {
        ChunkInBlock(off + w, k, pos);
      }
    }
  }

  lemma ByteInChunk(b: Block, off: nat, w: nat, k: nat, src: seq<Byte>, pos: nat)
    requires w + k <= |src| && (off + w) % BSIZE + k <= BSIZE && pos / BSIZE == (off + w) / BSIZE
    ensures PutBytes(b, (off + w) % BSIZE, src[w..w + k])[pos % BSIZE] ==
      if off + w <= pos < off + w + k then src[pos - off] else b[pos % BSIZE]
  {
    var at, i := (off + w) % BSIZE, pos % BSIZE;
    assert pos - (off + w) == i - at;
  }

  lemma ChunkInBlock(start: nat, k: nat, pos: nat)
    requires start % BSIZE + k <= BSIZE && pos / BSIZE != start / BSIZE
    ensures !(start <= pos < start + k)
  {
  }

  lemma MappedFurther(t: Tree, n: nat, limit: nat, more: nat)
    requires MappedBelow(t, n, limit) && limit <= more <= MAXFILE * BSIZE && limit < MAXFILE * BSIZE
    requires limit % BSIZE + (more - limit) <= BSIZE && Ptr(t, n, DataPath(limit / BSIZE)) != 0
    ensures MappedBelow(t, n, more)
  {
    forall bn | 0 <= bn < MAXFILE && bn * BSIZE < more ensures Ptr(t, n, DataPath(bn)) != 0 {
      if bn * BSIZE >= limit {
        assert bn == limit / BSIZE;
      }
    }
  }

  function Resized(t: Tree, n: nat, size: nat): (r: Tree)
    requires Shaped(t) && n < |t.inodes|
    ensures Shaped(r)
  {
    Tree(t.inodes[n := Inode(t.inodes[n].addrs, size)], t.blocks)
  }

  lemma {:induction false} PtrAfterResize(t: Tree, n: nat, size: nat, m: nat, q: Path)
    requires Shaped(t) && n < |t.inodes| && m < |t.inodes| && ValidPath(q)
    ensures Ptr(Resized(t, n, size), m, q) == Ptr(t, m, q)
    decreases |q|
  {
    if |q| > 1 {
      PtrAfterResize(t, n, size, m, Parent(q));
    }
  }

  lemma ResizeKeeps(t: Tree, owner: map<nat, Slot>, meta: nat, n: nat, size: nat)
    requires Owned(t, owner, meta) && FilesMapped(t) && MappedBelow(t, n, size)
    ensures Owned(Resized(t, n, size), owner, meta) && FilesMapped(Resized(t, n, size))
    ensures SameBytes(t, Resized(t, n, size))
    ensures forall q {:trigger Ptr(Resized(t, n, size), n, q)} :: ValidPath(q) ==>
      Ptr(Resized(t, n, size), n, q) == Ptr(t, n, q)
  {
    var u := Resized(t, n, size);
    forall m, q | 0 <= m < |t.inodes| && ValidPath(q) ensures Ptr(u, m, q) == Ptr(t, m, q) {
      PtrAfterResize(t, n, size, m, q);
    }
    forall m | 0 <= m < |u.inodes| ensures MappedBelow(u, m, u.inodes[m].size) {
      assert MappedBelow(t, m, t.inodes[m].size);
    }
    forall m, pos | 0 <= m < |t.inodes| && 0 <= pos < MAXFILE * BSIZE ensures ByteAt(u, m, pos) == ByteAt(t, m, pos) {
      assert Ptr(u, m, DataPath(pos / BSIZE)) == Ptr(t, m, DataPath(pos / BSIZE));
    }
  }

  /** `s` with `data` written over it from `off` on, longer if the data reaches past its end. */
  function Splice(s: seq<Byte>, off: nat, data: seq<Byte>): (r: seq<Byte>)
    requires off <= |s|
  {
    s[..off] + data + (if off + |data| < |s| then s[off + |data|..] else [])
  }

  /** A write, seen as a change of the file's byte sequence. */
  lemma ContentsSpliced(t: Tree, u: Tree, n: nat, off: nat, w: nat, src: seq<Byte>)
    requires Written(t, u, n, off, w, src) && n < |t.inodes|
    requires off <= t.inodes[n].size <= u.inodes[n].size <= MAXFILE * BSIZE
    requires u.inodes[n].size <= off + w || u.inodes[n].size == t.inodes[n].size
    ensures u.inodes[n].size <= |Splice(Contents(t, n), off, src[..w])|
    ensures Contents(u, n) == Splice(Contents(t, n), off, src[..w])[..u.inodes[n].size]
  {
    var c, d := Contents(u, n), Splice(Contents(t, n), off, src[..w]);
    forall pos | 0 <= pos < |c| ensures c[pos] == d[pos] {
      assert ByteAt(u, n, pos) == if off <= pos < off + w then src[pos - off] else ByteAt(t, n, pos);
    }
  }
}
