/**
 Which blocks an operation of kernel/fs.c hands to `log_write`, exactly.

 Allocation logs the new block, the bitmap block that marks it and the indirect block that
 names it; a completed chunk of `writei` logs its data block. Everything is said in terms of
 the owners of blocks before and after, and counted in terms of the state before the call.
 */
module FsLog {
  import opened InodeTree
  import opened Params
  import opened Sets

  const BPB := BSIZE * 8
  const IPB := 16

  ghost predicate FsOk(t: Tree, used: seq<bool>, owner: map<nat, Slot>, meta: nat) {
    && Owned(t, owner, meta)
    && BitmapExact(used, |t.blocks|, owner, meta)
    && FilesMapped(t)
  }

  /** A disk without files. */
  lemma EmptyFsOk(t: Tree, used: seq<bool>, meta: nat)
    requires Shaped(t) && 0 < meta <= |t.blocks| && |used| == |t.blocks|
    requires forall n :: 0 <= n < |t.inodes| ==> t.inodes[n] == Inode(seq(NIRECT + 1, i => 0), 0)
    requires forall b :: 0 <= b < |used| ==> (used[b] <==> b < meta)
    ensures FsOk(t, used, map[], meta)
  {
    forall n, p | 0 <= n < |t.inodes| && ValidPath(p) ensures Ptr(t, n, p) == 0 {
      NoSlots(t, n, p);
    }
  }

  lemma {:induction false} NoSlots(t: Tree, n: nat, p: Path)
    requires Shaped(t) && n < |t.inodes| && ValidPath(p) && t.inodes[n].addrs == seq(NIRECT + 1, i => 0)
    ensures Ptr(t, n, p) == 0
    decreases |p|
  {
    if |p| > 1 {
      NoSlots(t, n, Parent(p));
    }
  }

  // ---- allocation ----

  /**
   What allocation may do to the tree and its owners: slots and owners only get added, and no byte of any
   file changes.
   */
  ghost predicate Evolved(t: Tree, u: Tree, before: map<nat, Slot>, after: map<nat, Slot>) {
    Grows(t, u) && SameBytes(t, u) && Extends(before, after)
  }

  ghost predicate Extends(before: map<nat, Slot>, after: map<nat, Slot>) {
    forall b :: b in before ==> b in after && after[b] == before[b]
  }

  lemma EvolvedTrans(t: Tree, u: Tree, v: Tree, a: map<nat, Slot>, b: map<nat, Slot>, c: map<nat, Slot>)
    requires Evolved(t, u, a, b) && Evolved(u, v, b, c)
    ensures Evolved(t, v, a, c)
  {
    GrowsTrans(t, u, v);
    SameBytesTrans(t, u, v);
  }

  lemma EvolvedShape(t: Tree, u: Tree, a: map<nat, Slot>, b: map<nat, Slot>)
    requires Evolved(t, u, a, b)
    ensures Shaped(t) && Shaped(u) && |t.inodes| == |u.inodes| && |t.blocks| == |u.blocks| && Grows(t, u)
    ensures Extends(a, b)
  {
  }

  lemma EvolvedKeeps(t: Tree, u: Tree, a: map<nat, Slot>, b: map<nat, Slot>, n: nat, p: Path)
    requires Evolved(t, u, a, b) && n < |t.inodes| && ValidPath(p)
    ensures Shaped(t) && Shaped(u) && n < |u.inodes| && (Ptr(t, n, p) != 0 ==> Ptr(u, n, p) == Ptr(t, n, p))
  {
  }

  /** The blocks allocated between two states. */
  ghost function Fresh(before: map<nat, Slot>, after: map<nat, Slot>): set<nat> {
    set b | b in after && b !in before
  }

  /** All of them are for slots in `ways` of file `n`. */
  ghost predicate FreshIn(before: map<nat, Slot>, after: map<nat, Slot>, n: nat, ways: set<Path>) {
    forall b :: b in after && b !in before ==> after[b].inum == n && after[b].path in ways
  }

  /** The bitmap blocks in which they lie. */
  ghost function NewBitmaps(bmapstart: nat, before: map<nat, Slot>, after: map<nat, Slot>): set<nat> {
    set b | b in after && b !in before :: b / BPB + bmapstart
  }

  /** A slot inside an indirect block. */
  predicate Nested(t: Tree, s: Slot) {
    Shaped(t) && s.inum < |t.inodes| && ValidPath(s.path) && |s.path| > 1
  }

  function Above(t: Tree, s: Slot): (r: nat)
    requires Nested(t, s)
  {
    Ptr(t, s.inum, Parent(s.path))
  }

  /** The indirect blocks that name them. */
  ghost function NewParents(t: Tree, before: map<nat, Slot>, after: map<nat, Slot>): set<nat> {
    set b | b in after && b !in before && Nested(t, after[b]) :: Above(t, after[b])
  }

  /** Everything that allocating the new blocks logs. */
  ghost function AllocLog(bmapstart: nat, t: Tree, before: map<nat, Slot>, after: map<nat, Slot>): set<nat> {
    Fresh(before, after) + NewBitmaps(bmapstart, before, after) + NewParents(t, before, after)
  }

  /** No free block below a new one was passed over. */
  ghost predicate LowestFirst(used: seq<bool>, before: map<nat, Slot>, after: map<nat, Slot>) {
    forall b, x :: b in after && b !in before && 0 <= x < b && x < |used| && !used[x] ==> x in after && x !in before
  }

  /** Changed blocks are logged, apart from `stray`. */
  ghost predicate Confined(t: Tree, u: Tree, l: set<nat>, stray: set<nat>) {
    |t.blocks| == |u.blocks| && forall b :: 0 <= b < |t.blocks| && u.blocks[b] != t.blocks[b] ==> b in l || b in stray
  }

  /**
   From `before` to `after`, blocks were allocated for slots in `ways` of file `n`, lowest first, and logged
   to the letter.
   */
  ghost predicate Allocated(bmapstart: nat, t: Tree, used: seq<bool>, before: map<nat, Slot>, l0: set<nat>,
                            u: Tree, after: map<nat, Slot>, l: set<nat>, n: nat, ways: set<Path>) {
    && l == l0 + AllocLog(bmapstart, u, before, after)
    && (forall b :: b in after && b !in before ==> after[b].inum == n && after[b].path in ways)
    && LowestFirst(used, before, after) && Confined(t, u, l, {})
    && (forall m :: 0 <= m < |t.inodes| && m < |u.inodes| && m != n ==> u.inodes[m] == t.inodes[m])
  }

  lemma NoneAllocated(bmapstart: nat, t: Tree, used: seq<bool>, owner: map<nat, Slot>, l: set<nat>, n: nat,
                      ways: set<Path>)
    requires Shaped(t)
    ensures Evolved(t, t, owner, owner) && Allocated(bmapstart, t, used, owner, l, t, owner, l, n, ways)
  {
    assert AllocLog(bmapstart, t, owner, owner) == {};
  }

  lemma AllocatedMore(bmapstart: nat, t: Tree, used: seq<bool>, before: map<nat, Slot>, l0: set<nat>,
                      u: Tree, after: map<nat, Slot>, l: set<nat>, n: nat, w1: set<Path>, w2: set<Path>)
    requires Allocated(bmapstart, t, used, before, l0, u, after, l, n, w1) && w1 <= w2
    ensures Allocated(bmapstart, t, used, before, l0, u, after, l, n, w2)
  {
  }

  /** One block `b` for the slot `p`, named by `h` if the slot is nested. */
  lemma OneAllocated(bmapstart: nat, t: Tree, used: seq<bool>, before: map<nat, Slot>, l0: set<nat>, meta: nat,
                     u: Tree, l: set<nat>, n: nat, p: Path, b: nat, h: nat)
    requires FsOk(t, used, before, meta) && b < |used| && !used[b] && (forall x :: 0 <= x < b ==> used[x])
    requires Shaped(u) && n < |u.inodes| && ValidPath(p) && (|p| > 1 ==> h == Ptr(u, n, Parent(p)))
    requires l == l0 + {b / BPB + bmapstart, b} + (if |p| > 1 then {h} else {})
    requires |t.blocks| == |u.blocks|
    requires forall x :: 0 <= x < |t.blocks| && x != b && (|p| > 1 ==> x != h) ==> u.blocks[x] == t.blocks[x]
    requires forall m :: 0 <= m < |t.inodes| && m < |u.inodes| && m != n ==> u.inodes[m] == t.inodes[m]
    ensures b !in before && Allocated(bmapstart, t, used, before, l0, u, before[b := Slot(n, p)], l, n, {p})
  {
    var after := before[b := Slot(n, p)];
    assert Fresh(before, after) == {b};
    assert NewBitmaps(bmapstart, before, after) == {b / BPB + bmapstart};
    assert NewParents(u, before, after) == if |p| > 1 then {h} else {};
  }

  /** Growing further does not move the blocks that name new blocks. */
  lemma ParentsStay(t: Tree, u: Tree, used: seq<bool>, before: map<nat, Slot>, after: map<nat, Slot>, meta: nat)
    requires FsOk(t, used, after, meta) && Grows(t, u)
    ensures NewParents(u, before, after) == NewParents(t, before, after)
  {
    forall b | b in after && b !in before && Nested(t, after[b])
      ensures Nested(u, after[b]) && Above(u, after[b]) == Above(t, after[b])
    {
      PrefixMapped(t, after[b].inum, after[b].path);
    }
    forall b | b in after && b !in before && Nested(u, after[b]) ensures Nested(t, after[b]) {
    }
  }

  /** A mapped slot lies in a mapped block. */
  lemma PrefixMapped(t: Tree, n: nat, p: Path)
    requires Shaped(t) && n < |t.inodes| && ValidPath(p) && |p| > 1
    ensures Ptr(t, n, p) != 0 ==> Ptr(t, n, Parent(p)) != 0
  {
  }

  lemma AllocLogTrans(bmapstart: nat, u: Tree, v: Tree, used: seq<bool>, a: map<nat, Slot>, b: map<nat, Slot>,
                      c: map<nat, Slot>, meta: nat)
    requires FsOk(u, used, b, meta) && Grows(u, v) && Extends(a, b) && Extends(b, c)
    ensures AllocLog(bmapstart, v, a, c) == AllocLog(bmapstart, u, a, b) + AllocLog(bmapstart, v, b, c)
  {
    ParentsStay(u, v, used, a, b, meta);
    assert Fresh(a, c) == Fresh(a, b) + Fresh(b, c);
    assert NewBitmaps(bmapstart, a, c) == NewBitmaps(bmapstart, a, b) + NewBitmaps(bmapstart, b, c);
    assert NewParents(v, a, c) == NewParents(v, a, b) + NewParents(v, b, c);
  }

  lemma LowestTrans(used0: seq<bool>, used1: seq<bool>, a: map<nat, Slot>, b: map<nat, Slot>, c: map<nat, Slot>,
                    meta: nat, n: nat)
    requires BitmapExact(used0, n, a, meta) && BitmapExact(used1, n, b, meta) && Extends(a, b) && Extends(b, c)
    requires LowestFirst(used0, a, b) && LowestFirst(used1, b, c)
    ensures LowestFirst(used0, a, c)
  {
  }

  lemma AllocatedTrans(bmapstart: nat, t: Tree, used0: seq<bool>, a: map<nat, Slot>, l0: set<nat>,
                       u: Tree, used1: seq<bool>, b: map<nat, Slot>, l1: set<nat>,
                       v: Tree, c: map<nat, Slot>, l2: set<nat>, n: nat, w1: set<Path>, w2: set<Path>, meta: nat)
    requires FsOk(t, used0, a, meta) && FsOk(u, used1, b, meta) && Evolved(t, u, a, b) && Evolved(u, v, b, c)
    requires Allocated(bmapstart, t, used0, a, l0, u, b, l1, n, w1)
    requires Allocated(bmapstart, u, used1, b, l1, v, c, l2, n, w2)
    ensures Evolved(t, v, a, c) && Allocated(bmapstart, t, used0, a, l0, v, c, l2, n, w1 + w2)
  {
    hide AllocLog, Grows, SameBytes, LowestFirst, Owned, FilesMapped;
    EvolvedTrans(t, u, v, a, b, c);
    EvolvedShape(t, u, a, b);
    EvolvedShape(u, v, b, c);
    AllocLogTrans(bmapstart, u, v, used1, a, b, c, meta);
    LowestTrans(used0, used1, a, b, c, meta, |t.blocks|);
  }

  // ---- the way to a range of bytes ----

  /** Block `bn` of the file holds some of the `k` bytes from `off` on. */
  predicate InRange(bn: nat, off: nat, k: nat) {
    k > 0 && off / BSIZE <= bn && bn * BSIZE < off + k
  }

  /** The slots on the way to block `bn`: its own and those of the indirect blocks. */
  function Way(bn: nat): (r: set<Path>)
    requires bn < MAXFILE
    ensures forall p :: p in r ==> ValidPath(p)
  {
    var p := DataPath(bn);
    {p} + (if |p| > 1 then {Parent(p)} else {}) + (if |p| > 2 then {Parent(Parent(p))} else {})
  }

  /** The slots on the way to any block of the range. */
  ghost function Ways(off: nat, k: nat): (r: set<Path>)
    ensures forall p :: p in r ==> ValidPath(p)
  {
    set bn, p | 0 <= bn < MAXFILE && InRange(bn, off, k) && p in Way(bn) :: p
  }

  /** Those that are empty: what has to be allocated. */
  ghost function Missing(t: Tree, n: nat, off: nat, k: nat): (r: set<Path>)
    requires Shaped(t) && n < |t.inodes|
  {
    set p | p in Ways(off, k) && Ptr(t, n, p) == 0
  }

  ghost function FreeBlocks(used: seq<bool>): (r: set<nat>) {
    set b | 0 <= b < |used| && !used[b]
  }

  /** There are enough free blocks for the range. */
  ghost predicate Room(t: Tree, used: seq<bool>, n: nat, off: nat, k: nat)
    requires Shaped(t) && n < |t.inodes|
  {
    |Missing(t, n, off, k)| <= |FreeBlocks(used)|
  }

  lemma WaysMore(off: nat, j: nat, k: nat)
    requires j <= k
    ensures Ways(off, j) <= Ways(off, k)
  {
    forall p | p in Ways(off, j) ensures p in Ways(off, k) {
      var bn: nat :| bn < MAXFILE && InRange(bn, off, j) && p in Way(bn);
      assert InRange(bn, off, k);
    }
  }

  /** The blocks of a range grow with it by at most one if it grows inside one block. */
  lemma RangeStep(off: nat, tot: nat, m: nat, bn: nat)
    requires m > 0 && (off + tot) % BSIZE + m <= BSIZE && (tot == 0 || (off + tot) % BSIZE == 0)
    ensures InRange(bn, off, tot + m) <==> InRange(bn, off, tot) || bn == (off + tot) / BSIZE
    ensures bn == (off + tot) / BSIZE ==> !InRange(bn, off, tot)
  {
  }

  lemma WaysStep(off: nat, tot: nat, m: nat)
    requires m > 0 && (off + tot) % BSIZE + m <= BSIZE && (tot == 0 || (off + tot) % BSIZE == 0)
    requires off + tot + m <= MAXFILE * BSIZE
    ensures Ways(off, tot + m) == Ways(off, tot) + Way((off + tot) / BSIZE)
  {
    hide Way;
    var here := (off + tot) / BSIZE;
    forall p | p in Ways(off, tot + m) ensures p in Ways(off, tot) + Way(here) {
      var bn: nat :| bn < MAXFILE && InRange(bn, off, tot + m) && p in Way(bn);
      RangeStep(off, tot, m, bn);
    }
    forall p | p in Ways(off, tot) + Way(here) ensures p in Ways(off, tot + m) {
      RangeStep(off, tot, m, here);
      if p in Way(here) {
        assert InRange(here, off, tot + m);
      } else {
        WaysMore(off, tot, tot + m);
      }
    }
  }

  /** The way to a range is the way to its first `i` bytes and the way to the rest. */
  lemma WaysJoin(off: nat, i: nat, k: nat)
    ensures Ways(off, i + k) == Ways(off, i) + Ways(off + i, k)
  {
    hide Way;
    var all, first, rest := Ways(off, i + k), Ways(off, i), Ways(off + i, k);
    forall p | p in all ensures p in first || p in rest {
      var bn: nat :| bn < MAXFILE && InRange(bn, off, i + k) && p in Way(bn);
      assert InRange(bn, off, i) || InRange(bn, off + i, k);
    }
    forall p | p in rest ensures p in all {
      var bn: nat :| bn < MAXFILE && InRange(bn, off + i, k) && p in Way(bn);
      assert InRange(bn, off, i + k);
    }
    WaysMore(off, i, i + k);
  }

  lemma WayMapped(t: Tree, n: nat, bn: nat)
    requires Shaped(t) && n < |t.inodes| && bn < MAXFILE && Ptr(t, n, DataPath(bn)) != 0
    ensures forall p :: p in Way(bn) ==> Ptr(t, n, p) != 0
  {
    var p := DataPath(bn);
    if |p| > 1 {
      PrefixMapped(t, n, p);
      if |p| > 2 {
        PrefixMapped(t, n, Parent(p));
      }
    }
  }

  lemma WaysMapped(t: Tree, n: nat, off: nat, k: nat)
    requires MappedBelow(t, n, off + k)
    ensures forall p :: p in Ways(off, k) ==> Ptr(t, n, p) != 0
  {
    hide Way;
    forall p | p in Ways(off, k) ensures Ptr(t, n, p) != 0 {
      var bn: nat :| bn < MAXFILE && InRange(bn, off, k) && p in Way(bn);
      WayMapped(t, n, bn);
    }
  }

  // ---- the data blocks of a range ----

  ghost function DataLog(t: Tree, n: nat, off: nat, k: nat): (r: set<nat>)
    requires Shaped(t) && n < |t.inodes|
  {
    set bn {:trigger DataPath(bn)} | 0 <= bn < MAXFILE && InRange(bn, off, k) :: Ptr(t, n, DataPath(bn))
  }

  lemma DataLogGrows(t: Tree, u: Tree, n: nat, off: nat, k: nat)
    requires Grows(t, u) && MappedBelow(t, n, off + k)
    ensures DataLog(u, n, off, k) == DataLog(t, n, off, k)
  {
    hide DataPath;
    forall bn | 0 <= bn < MAXFILE && InRange(bn, off, k) ensures Ptr(u, n, DataPath(bn)) == Ptr(t, n, DataPath(bn)) {
      assert Ptr(t, n, DataPath(bn)) != 0;
    }
    assert forall bn {:trigger DataPath(bn)} :: 0 <= bn < MAXFILE && InRange(bn, off, k) ==>
      Ptr(u, n, DataPath(bn)) == Ptr(t, n, DataPath(bn));
  }

  lemma DataLogStep(t: Tree, n: nat, off: nat, tot: nat, m: nat)
    requires Shaped(t) && n < |t.inodes| && off + tot + m <= MAXFILE * BSIZE
    requires m > 0 && (off + tot) % BSIZE + m <= BSIZE && (tot == 0 || (off + tot) % BSIZE == 0)
    ensures DataLog(t, n, off, tot + m) == DataLog(t, n, off, tot) + {Ptr(t, n, DataPath((off + tot) / BSIZE))}
  {
    hide DataPath, Ptr, InRange;
    var here := (off + tot) / BSIZE;
    forall bn: nat ensures InRange(bn, off, tot + m) <==> InRange(bn, off, tot) || bn == here {
      RangeStep(off, tot, m, bn);
    }
    RangeStep(off, tot, m, here);
    assert here < MAXFILE && InRange(here, off, tot + m);
    forall x
      ensures x in DataLog(t, n, off, tot + m) <==> x in DataLog(t, n, off, tot) || x == Ptr(t, n, DataPath(here))
    {
      if x == Ptr(t, n, DataPath(here)) {
        InDataLog(t, n, off, tot + m, here);
      }
    }
  }

  lemma InDataLog(t: Tree, n: nat, off: nat, k: nat, bn: nat)
    requires Shaped(t) && n < |t.inodes| && bn < MAXFILE && InRange(bn, off, k)
    ensures Ptr(t, n, DataPath(bn)) in DataLog(t, n, off, k)
  {
  }

  lemma NoDataLog(t: Tree, n: nat, off: nat)
    requires Shaped(t) && n < |t.inodes|
    ensures DataLog(t, n, off, 0) == {}
  {
  }

  // ---- where the loop of writei stands ----

  /** After `tot` counted bytes, with blocks allocated on the way to the first `k`. */
  ghost predicate Tracked(bmapstart: nat, t0: Tree, used0: seq<bool>, o0: map<nat, Slot>, l0: set<nat>,
                          t: Tree, o: map<nat, Slot>, l: set<nat>, n: nat, off: nat, tot: nat, k: nat,
                          stray: set<nat>) {
    && Shaped(t0) && Shaped(t) && n < |t.inodes| == |t0.inodes| && Extends(o0, o)
    && l == l0 + AllocLog(bmapstart, t, o0, o) + DataLog(t, n, off, tot)
    && (forall b :: b in o && b !in o0 ==> o[b].inum == n && o[b].path in Ways(off, k))
    && LowestFirst(used0, o0, o) && Confined(t0, t, l, stray)
    && (forall m :: 0 <= m < |t0.inodes| && m != n ==> t.inodes[m] == t0.inodes[m])
  }

  lemma TrackStart(bmapstart: nat, t: Tree, used: seq<bool>, o: map<nat, Slot>, l: set<nat>, n: nat, off: nat)
    requires Shaped(t) && n < |t.inodes|
    ensures Tracked(bmapstart, t, used, o, l, t, o, l, n, off, 0, 0, {})
  {
    NoneAllocated(bmapstart, t, used, o, l, n, {});
    NoDataLog(t, n, off);
    assert AllocLog(bmapstart, t, o, o) == {};
  }

  /** `bmap` for the next block. */
  lemma TrackBmap(bmapstart: nat, t0: Tree, used0: seq<bool>, o0: map<nat, Slot>, l0: set<nat>,
                  u: Tree, used1: seq<bool>, o1: map<nat, Slot>, l1: set<nat>, v: Tree, o2: map<nat, Slot>,
                  l2: set<nat>,
                  n: nat, off: nat, tot: nat, meta: nat)
    requires FsOk(t0, used0, o0, meta) && FsOk(u, used1, o1, meta) && |t0.blocks| == |u.blocks|
    requires Tracked(bmapstart, t0, used0, o0, l0, u, o1, l1, n, off, tot, tot, {}) && MappedBelow(u, n, off + tot)
    requires off + tot < MAXFILE * BSIZE && (tot == 0 || (off + tot) % BSIZE == 0)
    requires Evolved(u, v, o1, o2) && Allocated(bmapstart, u, used1, o1, l1, v, o2, l2, n, Way((off + tot) / BSIZE))
    ensures Tracked(bmapstart, t0, used0, o0, l0, v, o2, l2, n, off, tot, tot + 1, {})
  {
    hide AllocLog, Grows, SameBytes, LowestFirst, Owned, FilesMapped, DataLog, Ways, Way, MappedBelow;
    EvolvedShape(u, v, o1, o2);
    AllocLogTrans(bmapstart, u, v, used1, o0, o1, o2, meta);
    LowestTrans(used0, used1, o0, o1, o2, meta, |t0.blocks|);
    DataLogGrows(u, v, n, off, tot);
    WaysStep(off, tot, 1);
  }

  /** The bytes of a chunk went into the block `addr`, and it was logged if the chunk is complete. */
  lemma TrackChunk(bmapstart: nat, t0: Tree, used0: seq<bool>, o0: map<nat, Slot>, l0: set<nat>,
                   u: Tree, used1: seq<bool>, o: map<nat, Slot>, l1: set<nat>, v: Tree,
                   n: nat, off: nat, tot: nat, m: nat, addr: nat, meta: nat)
    requires FsOk(u, used1, o, meta) && Tracked(bmapstart, t0, used0, o0, l0, u, o, l1, n, off, tot, tot + 1, {})
    requires MappedBelow(u, n, off + tot) && off + tot + m <= MAXFILE * BSIZE
    requires m > 0 && (off + tot) % BSIZE + m <= BSIZE && (tot == 0 || (off + tot) % BSIZE == 0)
    requires addr == Ptr(u, n, DataPath((off + tot) / BSIZE)) && addr != 0 && Grows(u, v) && v.inodes == u.inodes
    requires forall b :: 0 <= b < |u.blocks| && b != addr ==> v.blocks[b] == u.blocks[b]
    ensures Tracked(bmapstart, t0, used0, o0, l0, v, o, l1, n, off, tot, tot + 1, {addr})
    ensures Tracked(bmapstart, t0, used0, o0, l0, v, o, l1 + {addr}, n, off, tot + m, tot + m, {})
  {
    hide LowestFirst, Owned, FilesMapped, DataLog, Ways, Way, MappedBelow, Fresh, NewBitmaps, NewParents;
    ParentsStay(u, v, used1, o0, o, meta);
    DataLogGrows(u, v, n, off, tot);
    DataLogStep(v, n, off, tot, m);
    WaysStep(off, tot, 1);
    WaysStep(off, tot, m);
    PtrStays(u, v, n, DataPath((off + tot) / BSIZE));
  }

  lemma PtrStays(u: Tree, v: Tree, n: nat, p: Path)
    requires Grows(u, v) && n < |u.inodes| && ValidPath(p) && Ptr(u, n, p) != 0
    ensures Ptr(v, n, p) == Ptr(u, n, p)
  {
  }

  // ---- what is allocated, in terms of the state before ----

  /** The slots that were filled. */
  ghost function Filled(before: map<nat, Slot>, after: map<nat, Slot>): (r: set<Path>) {
    set b | b in after && b !in before :: after[b].path
  }

  /** Slots in use keep their blocks, whatever the sizes. */
  ghost predicate Grown(t: Tree, u: Tree) {
    && Shaped(t) && Shaped(u) && |t.inodes| == |u.inodes| && |t.blocks| == |u.blocks|
    && (forall m, q {:trigger Ptr(u, m, q)} :: 0 <= m < |t.inodes| && ValidPath(q) && Ptr(t, m, q) != 0 ==>
          Ptr(u, m, q) == Ptr(t, m, q))
  }

  lemma GrownTrans(t: Tree, u: Tree, v: Tree)
    requires Grown(t, u) && Grown(u, v)
    ensures Grown(t, v)
  {
    forall m, q | 0 <= m < |t.inodes| && ValidPath(q) && Ptr(t, m, q) != 0 ensures Ptr(v, m, q) == Ptr(t, m, q) {
      assert Ptr(u, m, q) == Ptr(t, m, q);
    }
  }

  /** The two states of a file system before and after allocations for slots of file `n`. */
  ghost predicate Pair(t: Tree, used: seq<bool>, o0: map<nat, Slot>, u: Tree, now: seq<bool>, o: map<nat, Slot>,
                       meta: nat, n: nat) {
    && FsOk(t, used, o0, meta) && FsOk(u, now, o, meta) && Grown(t, u) && Extends(o0, o)
    && Shaped(t) && Shaped(u) && n < |t.inodes| == |u.inodes| && |t.blocks| == |u.blocks|
    && forall b :: b in o && b !in o0 ==> o[b].inum == n
  }

  lemma FreshWasFree(t: Tree, used: seq<bool>, o0: map<nat, Slot>, u: Tree, now: seq<bool>, o: map<nat, Slot>,
                     meta: nat, n: nat)
    requires Pair(t, used, o0, u, now, o, meta, n)
    ensures Fresh(o0, o) <= FreeBlocks(used)
    ensures (forall b :: 0 <= b < |now| ==> now[b]) ==> Fresh(o0, o) == FreeBlocks(used)
  {
  }

  /** A new block sits in a slot that was empty. */
  lemma FilledWasEmpty(t: Tree, used: seq<bool>, o0: map<nat, Slot>, u: Tree, now: seq<bool>, o: map<nat, Slot>,
                       meta: nat, n: nat, b: nat)
    requires Pair(t, used, o0, u, now, o, meta, n) && b in o && b !in o0
    ensures Shaped(t) && Shaped(u) && n < |u.inodes| && ValidPath(o[b].path) && Ptr(t, n, o[b].path) == 0
    ensures Ptr(u, n, o[b].path) == b && b != 0
  {
    assert Ptr(u, n, o[b].path) == b;
  }

  /** A slot that was empty and is not any more holds a new block. */
  lemma EmptyWasFilled(t: Tree, used: seq<bool>, o0: map<nat, Slot>, u: Tree, now: seq<bool>, o: map<nat, Slot>,
                       meta: nat, n: nat, p: Path)
    requires Pair(t, used, o0, u, now, o, meta, n) && ValidPath(p) && Ptr(t, n, p) == 0 && Ptr(u, n, p) != 0
    ensures var b := Ptr(u, n, p); b in o && b !in o0 && o[b] == Slot(n, p) && p in Filled(o0, o)
  {
    var b := Ptr(u, n, p);
    assert o[b] == Slot(n, p);
  }

  lemma {:induction false} ImageSize(a: set<nat>, f: map<nat, Slot>)
    requires forall b :: b in a ==> b in f
    requires forall b, c :: b in a && c in a && f[b].path == f[c].path ==> b == c
    ensures |set b | b in a :: f[b].path| == |a|
  {
    if a != {} {
      var x :| x in a;
      ImageSize(a - {x}, f);
      var rest := set b | b in a - {x} :: f[b].path;
      assert f[x].path !in rest;
      assert (set b | b in a :: f[b].path) == rest + {f[x].path};
    }
  }

  lemma FilledSize(t: Tree, used: seq<bool>, o0: map<nat, Slot>, u: Tree, now: seq<bool>, o: map<nat, Slot>,
                   meta: nat, n: nat)
    requires Pair(t, used, o0, u, now, o, meta, n)
    ensures |Filled(o0, o)| == |Fresh(o0, o)|
  {
    hide FsOk, Grown;
    var a := Fresh(o0, o);
    forall b | b in a
      ensures b in o && Shaped(u) && n < |u.inodes| && ValidPath(o[b].path) && Ptr(u, n, o[b].path) == b
    {
      FilledWasEmpty(t, used, o0, u, now, o, meta, n, b);
    }
    ImageSize(a, o);
    assert Filled(o0, o) == set b | b in a :: o[b].path;
  }

  /** If the way to the first `j` bytes is mapped now, there was room for it. */
  lemma MappedHadRoom(t: Tree, used: seq<bool>, o0: map<nat, Slot>, u: Tree, now: seq<bool>, o: map<nat, Slot>,
                      meta: nat,
                      n: nat, off: nat, j: nat)
    requires Pair(t, used, o0, u, now, o, meta, n) && forall p :: p in Ways(off, j) ==> Ptr(u, n, p) != 0
    ensures Missing(t, n, off, j) <= Filled(o0, o) && Room(t, used, n, off, j)
  {
    hide Ways, Filled, Fresh, FreeBlocks;
    forall p | p in Missing(t, n, off, j) ensures p in Filled(o0, o) {
      EmptyWasFilled(t, used, o0, u, now, o, meta, n, p);
    }
    FilledSize(t, used, o0, u, now, o, meta, n);
    FreshWasFree(t, used, o0, u, now, o, meta, n);
    SubsetSize(Missing(t, n, off, j), Filled(o0, o));
    SubsetSize(Fresh(o0, o), FreeBlocks(used));
  }

  lemma FilledWasMissing(t: Tree, used: seq<bool>, o0: map<nat, Slot>, u: Tree, now: seq<bool>, o: map<nat, Slot>,
                         meta: nat,
                         n: nat, off: nat, k: nat)
    requires Pair(t, used, o0, u, now, o, meta, n) && forall b :: b in o && b !in o0 ==> o[b].path in Ways(off, k)
    ensures Filled(o0, o) <= Missing(t, n, off, k)
  {
    hide Ways;
    forall b | b in o && b !in o0 ensures o[b].path in Missing(t, n, off, k) {
      FilledWasEmpty(t, used, o0, u, now, o, meta, n, b);
    }
  }

  /** If the disk is full and a slot on the way is still empty, there was no room. */
  lemma FullHadNoRoom(t: Tree, used: seq<bool>, o0: map<nat, Slot>, u: Tree, now: seq<bool>, o: map<nat, Slot>,
                      meta: nat,
                      n: nat, off: nat, k: nat, p: Path)
    requires Pair(t, used, o0, u, now, o, meta, n) && forall b :: b in o && b !in o0 ==> o[b].path in Ways(off, k)
    requires (forall b :: 0 <= b < |now| ==> now[b]) && p in Ways(off, k) && Ptr(u, n, p) == 0
    ensures !Room(t, used, n, off, k)
  {
    hide Ways, Fresh, FreeBlocks;
    FilledWasMissing(t, used, o0, u, now, o, meta, n, off, k);
    FilledSize(t, used, o0, u, now, o, meta, n);
    FreshWasFree(t, used, o0, u, now, o, meta, n);
    StillMissing(t, u, n, off, k, p);
    forall b | b in o && b !in o0 ensures o[b].path != p {
      FilledWasEmpty(t, used, o0, u, now, o, meta, n, b);
    }
    SubsetSize(Filled(o0, o), Missing(t, n, off, k) - {p});
  }

  lemma StillMissing(t: Tree, u: Tree, n: nat, off: nat, k: nat, p: Path)
    requires Grown(t, u) && n < |t.inodes| && p in Ways(off, k) && Ptr(u, n, p) == 0
    ensures p in Missing(t, n, off, k)
  {
  }

  lemma RoomLess(t: Tree, used: seq<bool>, n: nat, off: nat, j: nat, k: nat)
    requires Shaped(t) && n < |t.inodes| && j <= k && Room(t, used, n, off, k)
    ensures Room(t, used, n, off, j)
  {
    hide Ways, FreeBlocks;
    WaysMore(off, j, k);
    SubsetSize(Missing(t, n, off, j), Missing(t, n, off, k));
  }

  /**
   What is missing on a range is what was missing on its first `i` bytes, now filled, and what is missing on
   the rest.
   */
  lemma MissingAfter(t: Tree, used: seq<bool>, o0: map<nat, Slot>, u: Tree, now: seq<bool>, o: map<nat, Slot>,
                     meta: nat, n: nat, off: nat, i: nat, k: nat)
    requires Pair(t, used, o0, u, now, o, meta, n) && forall b :: b in o && b !in o0 ==> o[b].path in Ways(off, i)
    requires forall p :: p in Ways(off, i) ==> Ptr(u, n, p) != 0
    ensures Missing(t, n, off, i + k) == Missing(t, n, off, i) + Missing(u, n, off + i, k)
    ensures Missing(t, n, off, i) !! Missing(u, n, off + i, k)
  {
    hide Ways, FsOk, Extends;
    WaysJoin(off, i, k);
    var all, rest := Missing(t, n, off, i + k), Missing(u, n, off + i, k);
    forall p | p in all && p !in Missing(t, n, off, i) ensures p in rest {
      if Ptr(u, n, p) != 0 {
        EmptyWasFilled(t, used, o0, u, now, o, meta, n, p);
      }
    }
    forall p | p in rest ensures p in all {
      StillMissing(t, u, n, off, i + k, p);
    }
  }

  lemma FreeAfter(t: Tree, used: seq<bool>, o0: map<nat, Slot>, u: Tree, now: seq<bool>, o: map<nat, Slot>, meta: nat,
                  n: nat)
    requires Pair(t, used, o0, u, now, o, meta, n)
    ensures FreeBlocks(used) == FreeBlocks(now) + Fresh(o0, o) && FreeBlocks(now) !! Fresh(o0, o)
  {
    hide SlotsOwn, FilesMapped, Grown, Ptr;
  }

  /**
   After the first `i` bytes are written completely there is room for `k` more exactly if there was room for
   all of them.
   */
  lemma RoomAfter(t: Tree, used: seq<bool>, o0: map<nat, Slot>, u: Tree, now: seq<bool>, o: map<nat, Slot>,
                  meta: nat, n: nat, off: nat, i: nat, k: nat)
    requires Pair(t, used, o0, u, now, o, meta, n) && forall b :: b in o && b !in o0 ==> o[b].path in Ways(off, i)
    requires forall p :: p in Ways(off, i) ==> Ptr(u, n, p) != 0
    ensures Room(u, now, n, off + i, k) <==> Room(t, used, n, off, i + k)
  {
    hide Ways, Grown, Missing, Fresh, FreeBlocks, FsOk, Filled, Extends;
    MissingAfter(t, used, o0, u, now, o, meta, n, off, i, k);
    FreeAfter(t, used, o0, u, now, o, meta, n);
    MappedHadRoom(t, used, o0, u, now, o, meta, n, off, i);
    FilledWasMissing(t, used, o0, u, now, o, meta, n, off, i);
    assert Filled(o0, o) == Missing(t, n, off, i);
    FilledSize(t, used, o0, u, now, o, meta, n);
  }

  // ---- which blocks are allocated ----

  ghost function FreeBelow(used: seq<bool>, b: nat): (r: set<nat>) {
    set x | 0 <= x < b && x < |used| && !used[x]
  }

  /** The `k` lowest free blocks. */
  ghost function Lowest(used: seq<bool>, k: nat): (r: set<nat>) {
    set b | b in FreeBlocks(used) && |FreeBelow(used, b)| < k
  }

  /** Allocation takes exactly the lowest free blocks. */
  lemma FreshIsLowest(used: seq<bool>, before: map<nat, Slot>, after: map<nat, Slot>)
    requires LowestFirst(used, before, after) && Fresh(before, after) <= FreeBlocks(used)
    ensures Fresh(before, after) == Lowest(used, |Fresh(before, after)|)
  {
    var f := Fresh(before, after);
    forall b | b in FreeBlocks(used) ensures b in f <==> |FreeBelow(used, b)| < |f| {
      if b in f {
        SubsetSize(FreeBelow(used, b), f - {b});
      } else {
        SubsetSize(f, FreeBelow(used, b));
      }
    }
  }

  // ---- how many blocks a complete write logs ----

  /** The slot of a data block, not of an indirect one. */
  predicate IsData(p: Path) {
    (|p| == 1 && p[0] < NDIRECT) || (|p| == 2 && p[0] == NDIRECT) || |p| == 3
  }

  ghost predicate LacksChild(t: Tree, n: nat, off: nat, k: nat, p: Path)
    requires Shaped(t) && n < |t.inodes|
  {
    exists q :: q in Missing(t, n, off, k) && |q| > 1 && Parent(q) == p
  }

  /**
   The slots whose blocks get dirty: the data blocks of the range, and the indirect blocks that lack
   something on the way.
   */
  ghost function Dirty(t: Tree, n: nat, off: nat, k: nat): (r: set<Path>)
    requires Shaped(t) && n < |t.inodes|
  {
    set p | p in Ways(off, k) && (IsData(p) || LacksChild(t, n, off, k, p))
  }

  lemma WayShape(bn: nat, p: Path)
    requires bn < MAXFILE && p in Way(bn)
    ensures IsData(p) <==> p == DataPath(bn)
    ensures |p| > 1 ==> Parent(p) in Way(bn)
    ensures !IsData(p) ==> exists q :: q in Way(bn) && |q| > 1 && Parent(q) == p
  {
    var d := DataPath(bn);
    if !IsData(p) {
      if p == Parent(d) {
        assert d in Way(bn);
      } else {
        assert |d| > 2 && p == Parent(Parent(d));
        assert Parent(d) in Way(bn);
      }
    }
  }

  lemma WaysShape(off: nat, k: nat, p: Path)
    requires p in Ways(off, k)
    ensures |p| > 1 ==> Parent(p) in Ways(off, k)
    ensures IsData(p) ==> exists bn: nat :: bn < MAXFILE && InRange(bn, off, k) && p == DataPath(bn)
    ensures !IsData(p) ==> exists q :: q in Ways(off, k) && |q| > 1 && Parent(q) == p
  {
    hide Way;
    var bn: nat :| bn < MAXFILE && InRange(bn, off, k) && p in Way(bn);
    WayShape(bn, p);
    if !IsData(p) {
      var q :| q in Way(bn) && |q| > 1 && Parent(q) == p;
      assert q in Ways(off, k);
    }
  }

  lemma DataOnWay(off: nat, k: nat, bn: nat)
    requires bn < MAXFILE && InRange(bn, off, k)
    ensures DataPath(bn) in Ways(off, k) && IsData(DataPath(bn))
  {
    assert DataPath(bn) in Way(bn);
  }

  /** A missing slot on the way makes its own block dirty, and the block above it. */
  lemma MissingIsDirty(t: Tree, n: nat, off: nat, k: nat, p: Path)
    requires Shaped(t) && n < |t.inodes| && p in Missing(t, n, off, k)
    ensures p in Dirty(t, n, off, k) && (|p| > 1 ==> Parent(p) in Dirty(t, n, off, k))
  {
    hide Ways;
    WaysShape(off, k, p);
    if !IsData(p) {
      var q :| q in Ways(off, k) && |q| > 1 && Parent(q) == p;
      PrefixMapped(t, n, q);
      assert q in Missing(t, n, off, k);
    }
  }

  /** The data area part of the log, slot by slot. */
  ghost predicate Complete(bmapstart: nat, t: Tree, used: seq<bool>, o0: map<nat, Slot>, u: Tree, now: seq<bool>,
                           o: map<nat, Slot>, meta: nat,
                           n: nat, off: nat, k: nat) {
    && Pair(t, used, o0, u, now, o, meta, n) && (forall b :: b in o && b !in o0 ==> o[b].path in Ways(off, k))
    && (forall p :: p in Ways(off, k) ==> Ptr(u, n, p) != 0)
  }

  ghost function AreaLog(u: Tree, o0: map<nat, Slot>, o: map<nat, Slot>, n: nat, off: nat, k: nat): (r: set<nat>)
    requires Shaped(u) && n < |u.inodes|
  {
    Fresh(o0, o) + NewParents(u, o0, o) + DataLog(u, n, off, k)
  }

  lemma LoggedIsDirty(bmapstart: nat, t: Tree, used: seq<bool>, o0: map<nat, Slot>, u: Tree, now: seq<bool>,
                      o: map<nat, Slot>, meta: nat,
                      n: nat, off: nat, k: nat, x: nat)
    requires Complete(bmapstart, t, used, o0, u, now, o, meta, n, off, k) && x in AreaLog(u, o0, o, n, off, k)
    ensures exists p :: p in Dirty(t, n, off, k) && Ptr(u, n, p) == x
  {
    hide Ways, Dirty, Grown;
    FilledWasMissing(t, used, o0, u, now, o, meta, n, off, k);
    if x in Fresh(o0, o) {
      FilledWasEmpty(t, used, o0, u, now, o, meta, n, x);
      MissingIsDirty(t, n, off, k, o[x].path);
    } else if x in NewParents(u, o0, o) {
      var b :| b in o && b !in o0 && Nested(u, o[b]) && Above(u, o[b]) == x;
      MissingIsDirty(t, n, off, k, o[b].path);
    } else {
      var bn: nat :| bn < MAXFILE && InRange(bn, off, k) && Ptr(u, n, DataPath(bn)) == x;
      DataIsDirty(t, n, off, k, bn);
    }
  }

  lemma DataIsDirty(t: Tree, n: nat, off: nat, k: nat, bn: nat)
    requires Shaped(t) && n < |t.inodes| && bn < MAXFILE && InRange(bn, off, k)
    ensures DataPath(bn) in Dirty(t, n, off, k)
  {
    hide Ways;
    DataOnWay(off, k, bn);
  }

  lemma DirtyIsLogged(bmapstart: nat, t: Tree, used: seq<bool>, o0: map<nat, Slot>, u: Tree, now: seq<bool>,
                      o: map<nat, Slot>, meta: nat,
                      n: nat, off: nat, k: nat, p: Path)
    requires Complete(bmapstart, t, used, o0, u, now, o, meta, n, off, k) && p in Dirty(t, n, off, k)
    ensures Ptr(u, n, p) in AreaLog(u, o0, o, n, off, k) && Ptr(u, n, p) != 0
  {
    hide Ways, Grown;
    WaysShape(off, k, p);
    if IsData(p) {
      var bn: nat :| bn < MAXFILE && InRange(bn, off, k) && p == DataPath(bn);
      InDataLog(u, n, off, k, bn);
    } else {
      var q :| q in Missing(t, n, off, k) && |q| > 1 && Parent(q) == p;
      EmptyWasFilled(t, used, o0, u, now, o, meta, n, q);
      var b := Ptr(u, n, q);
      assert Nested(u, o[b]) && Above(u, o[b]) == Ptr(u, n, p);
    }
  }

  /** As many blocks are logged in the data area as slots get dirty. */
  lemma AreaSize(bmapstart: nat, t: Tree, used: seq<bool>, o0: map<nat, Slot>, u: Tree, now: seq<bool>,
                 o: map<nat, Slot>, meta: nat,
                 n: nat, off: nat, k: nat)
    requires Complete(bmapstart, t, used, o0, u, now, o, meta, n, off, k)
    ensures |AreaLog(u, o0, o, n, off, k)| == |Dirty(t, n, off, k)|
    ensures forall x :: x in AreaLog(u, o0, o, n, off, k) ==> meta <= x
  {
    hide Ways, Grown, AreaLog, Dirty, FilesMapped;
    var d, a := Dirty(t, n, off, k), AreaLog(u, o0, o, n, off, k);
    DirtyValid(t, n, off, k);
    forall p | p in d ensures Ptr(u, n, p) in a && Ptr(u, n, p) in o && o[Ptr(u, n, p)] == Slot(n, p) {
      DirtyIsLogged(bmapstart, t, used, o0, u, now, o, meta, n, off, k, p);
    }
    forall x | x in a ensures x in o && o[x].path in d && Ptr(u, n, o[x].path) == x {
      LoggedIsDirty(bmapstart, t, used, o0, u, now, o, meta, n, off, k, x);
      var p :| p in d && Ptr(u, n, p) == x;
    }
    ImageSize(a, o);
    assert (set b | b in a :: o[b].path) == d;
  }

  lemma DirtyValid(t: Tree, n: nat, off: nat, k: nat)
    requires Shaped(t) && n < |t.inodes|
    ensures forall p :: p in Dirty(t, n, off, k) ==> ValidPath(p)
  {
  }

  /** Bitmap and inode blocks lie before the data area, apart from each other. */
  ghost predicate Apart(bmapstart: nat, iblock: nat, meta: nat, size: nat) {
    iblock < meta && forall b :: 0 <= b < size ==> b / BPB + bmapstart < meta && b / BPB + bmapstart != iblock
  }

  ghost function BitmapsOf(bmapstart: nat, s: set<nat>): (r: set<nat>) {
    set b | b in s :: b / BPB + bmapstart
  }

  lemma {:induction false} BitmapsSize(bmapstart: nat, s: set<nat>)
    ensures |BitmapsOf(bmapstart, s)| <= |s|
  {
    if s != {} {
      var x :| x in s;
      BitmapsSize(bmapstart, s - {x});
      forall y | y in BitmapsOf(bmapstart, s) ensures y in BitmapsOf(bmapstart, s - {x}) + {x / BPB + bmapstart} {
        var b :| b in s && y == b / BPB + bmapstart;
        assert b == x || b in s - {x};
      }
      SubsetSize(BitmapsOf(bmapstart, s), BitmapsOf(bmapstart, s - {x}) + {x / BPB + bmapstart});
    }
  }

  /**
   How many blocks a write of `k` bytes logs, from the state before it: the slots that get dirty,
   the bitmap blocks of the lowest free blocks, as many as slots are missing, and the inode.
   */
  ghost function LogCount(bmapstart: nat, t: Tree, used: seq<bool>, n: nat, off: nat, k: nat): (r: nat)
    requires Shaped(t) && n < |t.inodes|
  {
    |Dirty(t, n, off, k)| + |BitmapsOf(bmapstart, Lowest(used, |Missing(t, n, off, k)|))| + 1
  }

  lemma CompleteShape(bmapstart: nat, t: Tree, used: seq<bool>, o0: map<nat, Slot>, u: Tree, now: seq<bool>,
                      o: map<nat, Slot>, meta: nat,
                      n: nat, off: nat, k: nat)
    requires Complete(bmapstart, t, used, o0, u, now, o, meta, n, off, k)
    ensures Shaped(t) && Shaped(u) && n < |t.inodes| == |u.inodes|
  {
  }

  lemma ExactCount(bmapstart: nat, t: Tree, used: seq<bool>, o0: map<nat, Slot>, u: Tree, now: seq<bool>,
                   o: map<nat, Slot>, meta: nat,
                   n: nat, off: nat, k: nat, iblock: nat)
    requires Complete(bmapstart, t, used, o0, u, now, o, meta, n, off, k) && LowestFirst(used, o0, o)
    requires Apart(bmapstart, iblock, meta, |t.blocks|)
    ensures |AllocLog(bmapstart, u, o0, o) + DataLog(u, n, off, k) + {iblock}| ==
      LogCount(bmapstart, t, used, n, off, k)
  {
    hide Complete, Dirty, Missing, Lowest, LowestFirst, Fresh;
    hide NewParents, NewBitmaps, DataLog, BitmapsOf, Apart, FreeBlocks;
    CompleteShape(bmapstart, t, used, o0, u, now, o, meta, n, off, k);
    var area, maps := AreaLog(u, o0, o, n, off, k), NewBitmaps(bmapstart, o0, o);
    AreaSize(bmapstart, t, used, o0, u, now, o, meta, n, off, k);
    FreshExactly(bmapstart, t, used, o0, u, now, o, meta, n, off, k);
    NewBitmapsAre(bmapstart, o0, o);
    BitmapsLow(bmapstart, used, o0, o, iblock, meta, |t.blocks|);
    UnionSize(area, maps, iblock, meta);
    assert AllocLog(bmapstart, u, o0, o) + DataLog(u, n, off, k) + {iblock} == area + maps + {iblock};
  }

  /** The blocks allocated are the lowest free ones, as many as slots were missing. */
  lemma FreshExactly(bmapstart: nat, t: Tree, used: seq<bool>, o0: map<nat, Slot>, u: Tree, now: seq<bool>,
                     o: map<nat, Slot>, meta: nat,
                     n: nat, off: nat, k: nat)
    requires Complete(bmapstart, t, used, o0, u, now, o, meta, n, off, k) && LowestFirst(used, o0, o)
    ensures |used| == |t.blocks| && Fresh(o0, o) <= FreeBlocks(used)
    ensures Fresh(o0, o) == Lowest(used, |Missing(t, n, off, k)|)
  {
    hide Ways, Grown, Missing, Lowest, LowestFirst, Fresh, Owned, FilesMapped, Filled;
    MappedHadRoom(t, used, o0, u, now, o, meta, n, off, k);
    FilledWasMissing(t, used, o0, u, now, o, meta, n, off, k);
    assert Filled(o0, o) == Missing(t, n, off, k);
    FilledSize(t, used, o0, u, now, o, meta, n);
    FreshWasFree(t, used, o0, u, now, o, meta, n);
    FreshIsLowest(used, o0, o);
  }

  lemma UnionSize(a: set<nat>, b: set<nat>, x: nat, meta: nat)
    requires (forall y :: y in a ==> meta <= y) && (forall y :: y in b ==> y < meta && y != x) && x < meta
    ensures |a + b + {x}| == |a| + |b| + 1
  {
    assert a !! b;
    assert x !in a + b;
  }

  lemma NewBitmapsAre(bmapstart: nat, o0: map<nat, Slot>, o: map<nat, Slot>)
    ensures NewBitmaps(bmapstart, o0, o) == BitmapsOf(bmapstart, Fresh(o0, o))
  {
    forall x | x in NewBitmaps(bmapstart, o0, o) ensures x in BitmapsOf(bmapstart, Fresh(o0, o)) {
      var b :| b in o && b !in o0 && x == b / BPB + bmapstart;
      assert b in Fresh(o0, o);
    }
  }

  lemma BitmapsLow(bmapstart: nat, used: seq<bool>, o0: map<nat, Slot>, o: map<nat, Slot>, iblock: nat, meta: nat,
                   size: nat)
    requires Fresh(o0, o) <= FreeBlocks(used) && |used| == size && Apart(bmapstart, iblock, meta, size)
    ensures iblock < meta && forall x :: x in NewBitmaps(bmapstart, o0, o) ==> x < meta && x != iblock
  {
    forall b | b in o && b !in o0 ensures b / BPB + bmapstart < meta && b / BPB + bmapstart != iblock {
      assert b in Fresh(o0, o);
    }
  }

  // ---- the bound for one chunk ----

  /** The slots of four consecutive file blocks, and of the indirect blocks that lead to them. */
  function DataSlots(first: nat): (r: set<Path>) {
    (if first < MAXFILE then {DataPath(first)} else {}) + (if first + 1 < MAXFILE then {DataPath(first + 1)} else {})
    + (if first + 2 < MAXFILE then {DataPath(first + 2)} else {})
    + (if first + 3 < MAXFILE then {DataPath(first + 3)} else {})
  }

  function IndirectSlots(first: nat): (r: set<Path>) {
    if first < NDIRECT + NINDIRECT then {[NDIRECT], [NIRECT], [NIRECT, 0]}
    else
      var i := (first - NDIRECT - NINDIRECT) / NINDIRECT;
      {[NIRECT], [NIRECT, i], [NIRECT, i + 1]}
  }

  lemma WayInSlots(first: nat, bn: nat)
    requires first <= bn <= first + 3 && bn < MAXFILE
    ensures Way(bn) <= DataSlots(first) + IndirectSlots(first)
  {
    var p := DataPath(bn);
    if |p| == 2 {
      assert Parent(p) == [NDIRECT];
    } else if |p| == 3 {
      var i1 := (bn - NDIRECT - NINDIRECT) / NINDIRECT;
      assert Parent(p) == [NIRECT, i1] && Parent(Parent(p)) == [NIRECT];
      MiddleInRange(first, bn);
    }
  }

  lemma MiddleInRange(first: nat, bn: nat)
    requires first <= bn <= first + 3 && NDIRECT + NINDIRECT <= bn < MAXFILE
    ensures var i1 := (bn - NDIRECT - NINDIRECT) / NINDIRECT;
      if first < NDIRECT + NINDIRECT then i1 == 0
      else var i := (first - NDIRECT - NINDIRECT) / NINDIRECT; i1 == i || i1 == i + 1
  {
  }

  /** The way to at most three blocks' worth of bytes has at most four data and three indirect blocks. */
  lemma WaysBound(off: nat, k: nat)
    requires k <= 3 * BSIZE
    ensures |Ways(off, k)| <= 4 + 3
  {
    var first := off / BSIZE;
    var d, i := DataSlots(first), IndirectSlots(first);
    forall p | p in Ways(off, k) ensures p in d + i {
      var bn: nat :| bn < MAXFILE && InRange(bn, off, k) && p in Way(bn);
      WayInSlots(first, bn);
    }
    SubsetSize(Ways(off, k), d + i);
    assert |d| <= 4 && |i| <= 3;
  }

  lemma DirtyBound(t: Tree, n: nat, off: nat, k: nat)
    requires Shaped(t) && n < |t.inodes| && k <= 3 * BSIZE
    ensures |Dirty(t, n, off, k)| <= 4 + 3
  {
    WaysBound(off, k);
    SubsetSize(Dirty(t, n, off, k), Ways(off, k));
  }
}
