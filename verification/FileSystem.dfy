/**
 Block allocation, `bmap`, `itrunc`, `readi` and `writei` of kernel/fs.c, and the chunked
 `filewrite` of kernel/file.c, over the block tree of `InodeTree`.

 `blocks` is the logged view of the disk, `used` the free bitmap, and `logged` collects the
 block numbers handed to `log_write`.
 */
module FileSystem {
  import opened InodeTree
  import opened FsLog
  import opened Params
  import opened Sets

  class Fs {
    const meta: nat
    const bmapstart: nat
    const inodestart: nat
    var inodes: seq<Inode>
    var blocks: seq<Block>
    var used: seq<bool>
    ghost var owner: map<nat, Slot>
    ghost var logged: set<nat>

    constructor (meta: nat, bmapstart: nat, inodestart: nat, inodes: seq<Inode>, blocks: seq<Block>, used: seq<bool>,
                 ghost owner: map<nat, Slot>)
      requires FsOk(Tree(inodes, blocks), used, owner, meta)
      ensures Valid() && this.meta == meta && this.bmapstart == bmapstart && this.inodestart == inodestart
      ensures this.inodes == inodes && this.blocks == blocks && this.used == used && this.owner == owner && logged == {}
    {
      this.meta, this.bmapstart, this.inodestart := meta, bmapstart, inodestart;
      this.inodes, this.blocks, this.used := inodes, blocks, used;
      this.owner, this.logged := owner, {};
    }

    ghost function T(): Tree
      reads this
    {
      Tree(inodes, blocks)
    }

    /** The whole state, to say that nothing changed. */
    ghost function State(): (Tree, seq<bool>, map<nat, Slot>, set<nat>)
      reads this
    {
      (T(), used, owner, logged)
    }

    ghost predicate Valid()
      reads this
    {
      FsOk(T(), used, owner, meta)
    }

    function BitmapBlock(b: nat): nat {
      b / BPB + bmapstart
    }

    function InodeBlock(n: nat): nat {
      n / IPB + inodestart
    }

    // ---- blocks ----

    /** `balloc`: the first free block, marked used and zeroed, or 0 exactly when the disk is full. */
    method Balloc() returns (r: nat)
      requires |used| == |blocks| && |used| > 0 && used[0]
      modifies `used, `blocks, `logged
      ensures r == 0 <==> forall b :: 0 <= b < |old(used)| ==> old(used)[b]
      ensures r == 0 ==> used == old(used) && blocks == old(blocks) && logged == old(logged)
      ensures r != 0 ==> r < |old(used)| && !old(used)[r] && forall b :: 0 <= b < r ==> old(used)[b]
      ensures r != 0 ==> used == old(used)[r := true] && logged == old(logged) + {BitmapBlock(r), r}
      ensures r != 0 ==> |blocks| == |old(blocks)| && blocks == old(blocks)[r := blocks[r]] && IsZero(blocks[r])
    {
      var b := 0;
      while b < |used|
        invariant 0 <= b && used == old(used) && blocks == old(blocks) && logged == old(logged)
        invariant forall x :: 0 <= x < b && x < |used| ==> used[x]
      {
        var bi := 0;
        while bi < BPB && b + bi < |used|
          invariant 0 <= bi <= BPB && used == old(used) && blocks == old(blocks) && logged == old(logged)
          invariant forall x :: 0 <= x < b + bi && x < |used| ==> used[x]
        {
          if !used[b + bi] {
            r := b + bi;
            used := used[r := true];
            logged := logged + {BitmapBlock(r)};
            blocks := blocks[r := seq(BSIZE, i => 0)];
            logged := logged + {r};
            return;
          }
          bi := bi + 1;
        }
        b := b + BPB;
      }
      r := 0;
    }

    /** `bfree`. The source panics on a block that is already free. */
    method Bfree(b: nat)
      requires b < |used| && used[b]
      modifies `used, `logged
      ensures used == old(used)[b := false] && logged == old(logged) + {BitmapBlock(b)}
    {
      used := used[b := false];
      logged := logged + {BitmapBlock(b)};
    }

    // ---- bmap ----

    /** Read a slot the way `bmap` does (`h` is the block it lies in), and if it is empty put a new block there. */
    method LoadOrAlloc(n: nat, p: Path, h: nat) returns (addr: nat)
      requires Valid() && n < |inodes| && ValidPath(p)
      requires |p| > 1 ==> h == Ptr(T(), n, Parent(p)) && h != 0
      modifies this
      ensures Valid() && Evolved(old(T()), T(), old(owner), owner)
      ensures addr == Ptr(T(), n, p)
      ensures addr == 0 ==> forall b :: 0 <= b < |used| ==> used[b]
      ensures addr == 0 || old(Ptr(T(), n, p)) != 0 ==>
        State() == old(State())
      ensures addr != 0 && old(Ptr(T(), n, p)) == 0 ==> addr !in old(owner) && owner == old(owner)[addr := Slot(n, p)]
      ensures Allocated(bmapstart, old(T()), old(used), old(owner), old(logged), T(), owner, logged, n, {p})
    {
      hide Owned, BitmapExact, FilesMapped, Evolved, IsZero, Allocated;
      FsFacts(T(), used, owner, meta, n, p, h);
      addr := if |p| == 1 then inodes[n].addrs[p[0]] else Entry(blocks[h], Last(p));
      if addr == 0 {
        addr := Balloc();
        if addr != 0 {
          AllocStep(old(T()), old(used), owner, meta, n, p, addr, blocks[addr]);
          AllocLogged(bmapstart, old(T()), old(used), owner, old(logged), meta, n, p, addr, blocks[addr], h);
          if |p| == 1 {
            inodes := inodes[n := Inode(inodes[n].addrs[p[0] := addr], inodes[n].size)];
          } else {
            blocks := blocks[h := PutEntry(blocks[h], Last(p), addr)];
            logged := logged + {h};
          }
          owner := owner[addr := Slot(n, p)];
          assert logged == old(logged) + {addr / BPB + bmapstart, addr} + (if |p| > 1 then {h} else {});
          return;
        }
      }
      NoneAllocated(bmapstart, T(), used, owner, logged, n, {p});
    }

    /** `bmap` for a block in the range of the indirect block. */
    method BmapSingle(n: nat, d: nat) returns (addr: nat)
      requires Valid() && n < |inodes| && d < NINDIRECT
      modifies this
      ensures Valid() && Evolved(old(T()), T(), old(owner), owner)
      ensures addr == Ptr(T(), n, [NDIRECT, d])
      ensures addr == 0 ==> forall b :: 0 <= b < |used| ==> used[b]
      ensures old(Ptr(T(), n, [NDIRECT, d])) != 0 ==>
        State() == old(State())
      ensures Allocated(bmapstart, old(T()), old(used), old(owner), old(logged), T(), owner, logged, n,
                        {[NDIRECT], [NDIRECT, d]})
    {
      hide FsOk, Evolved, Allocated;
      ghost var t0, o0, l0, u0 := T(), owner, logged, used;
      FsShaped(T(), used, owner, meta);
      PrefixMapped(T(), n, [NDIRECT, d]);
      var h := LoadOrAlloc(n, [NDIRECT], 0);
      if h == 0 {
        AllocatedMore(bmapstart, t0, u0, o0, l0, T(), owner, logged, n, {[NDIRECT]}, {[NDIRECT], [NDIRECT, d]});
        return 0;
      }
      ghost var t1, o1, l1, u1 := T(), owner, logged, used;
      EvolvedShape(t0, t1, o0, o1);
      addr := LoadOrAlloc(n, [NDIRECT, d], h);
      AllocatedTrans(bmapstart, t0, u0, o0, l0, t1, u1, o1, l1, T(), owner, logged, n, {[NDIRECT]}, {[NDIRECT, d]},
                     meta);
      assert {[NDIRECT]} + {[NDIRECT, d]} == {[NDIRECT], [NDIRECT, d]};
    }

    /** The block of second-level entry `i1`, for a block in the range of the doubly indirect block. */
    method BmapMiddle(n: nat, i1: nat) returns (addr: nat)
      requires Valid() && n < |inodes| && i1 < NINDIRECT
      modifies this
      ensures Valid() && Evolved(old(T()), T(), old(owner), owner)
      ensures addr == Ptr(T(), n, [NIRECT, i1])
      ensures addr == 0 ==> forall b :: 0 <= b < |used| ==> used[b]
      ensures old(Ptr(T(), n, [NIRECT, i1])) != 0 ==>
        State() == old(State())
      ensures Allocated(bmapstart, old(T()), old(used), old(owner), old(logged), T(), owner, logged, n,
                        {[NIRECT], [NIRECT, i1]})
    {
      hide FsOk, Evolved, Allocated;
      ghost var t0, o0, l0, u0 := T(), owner, logged, used;
      FsShaped(T(), used, owner, meta);
      PrefixMapped(T(), n, [NIRECT, i1]);
      var h := LoadOrAlloc(n, [NIRECT], 0);
      if h == 0 {
        AllocatedMore(bmapstart, t0, u0, o0, l0, T(), owner, logged, n, {[NIRECT]}, {[NIRECT], [NIRECT, i1]});
        return 0;
      }
      ghost var t1, o1, l1, u1 := T(), owner, logged, used;
      EvolvedShape(t0, t1, o0, o1);
      addr := LoadOrAlloc(n, [NIRECT, i1], h);
      AllocatedTrans(bmapstart, t0, u0, o0, l0, t1, u1, o1, l1, T(), owner, logged, n, {[NIRECT]}, {[NIRECT, i1]},
                     meta);
      assert {[NIRECT]} + {[NIRECT, i1]} == {[NIRECT], [NIRECT, i1]};
    }

    /** `bmap` for a block in the range of the doubly indirect block. */
    method BmapDouble(n: nat, i1: nat, i2: nat) returns (addr: nat)
      requires Valid() && n < |inodes| && i1 < NINDIRECT && i2 < NINDIRECT
      modifies this
      ensures Valid() && Evolved(old(T()), T(), old(owner), owner)
      ensures addr == Ptr(T(), n, [NIRECT, i1, i2])
      ensures addr == 0 ==> forall b :: 0 <= b < |used| ==> used[b]
      ensures old(Ptr(T(), n, [NIRECT, i1, i2])) != 0 ==>
        State() == old(State())
      ensures Allocated(bmapstart, old(T()), old(used), old(owner), old(logged), T(), owner, logged, n,
                        {[NIRECT], [NIRECT, i1], [NIRECT, i1, i2]})
    {
      hide FsOk, Evolved, Allocated;
      ghost var t0, o0, l0, u0 := T(), owner, logged, used;
      FsShaped(T(), used, owner, meta);
      PrefixMapped(T(), n, [NIRECT, i1, i2]);
      assert Parent([NIRECT, i1, i2]) == [NIRECT, i1];
      ghost var ways := {[NIRECT], [NIRECT, i1], [NIRECT, i1, i2]};
      var h := BmapMiddle(n, i1);
      if h == 0 {
        AllocatedMore(bmapstart, t0, u0, o0, l0, T(), owner, logged, n, {[NIRECT], [NIRECT, i1]}, ways);
        return 0;
      }
      ghost var t1, o1, l1, u1 := T(), owner, logged, used;
      EvolvedShape(t0, t1, o0, o1);
      addr := LoadOrAlloc(n, [NIRECT, i1, i2], h);
      AllocatedTrans(bmapstart, t0, u0, o0, l0, t1, u1, o1, l1, T(), owner, logged, n,
                     {[NIRECT], [NIRECT, i1]}, {[NIRECT, i1, i2]}, meta);
      assert {[NIRECT], [NIRECT, i1]} + {[NIRECT, i1, i2]} == ways;
    }

    /**
     `bmap`: the block number of the `bn`-th block of the file, allocating it and the
     indirect blocks on the way. 0 exactly when that needed a block and the disk was full;
     blocks allocated before the failure stay attached to the inode. No file's bytes change,
     and a block that is already mapped costs nothing.
     */
    method Bmap(n: nat, bn: nat) returns (addr: nat)
      requires Valid() && n < |inodes| && bn < MAXFILE
      modifies this
      ensures Valid() && Evolved(old(T()), T(), old(owner), owner)
      ensures addr == Ptr(T(), n, DataPath(bn))
      ensures addr == 0 ==> forall b :: 0 <= b < |used| ==> used[b]
      ensures old(Ptr(T(), n, DataPath(bn))) != 0 ==>
        State() == old(State())
      ensures Allocated(bmapstart, old(T()), old(used), old(owner), old(logged), T(), owner, logged, n, Way(bn))
    {
      hide FsOk, Evolved, Allocated;
      if bn < NDIRECT {
        addr := LoadOrAlloc(n, [bn], 0);
        assert Way(bn) == {[bn]};
        return;
      }
      var d := bn - NDIRECT;
      if d < NINDIRECT {
        addr := BmapSingle(n, d);
        assert Parent([NDIRECT, d]) == [NDIRECT];
        assert Way(bn) == {[NDIRECT], [NDIRECT, d]};
        return;
      }
      d := d - NINDIRECT;
      var i1, i2 := d / NINDIRECT, d % NINDIRECT;
      addr := BmapDouble(n, i1, i2);
      assert Parent([NIRECT, i1, i2]) == [NIRECT, i1] && Parent([NIRECT, i1]) == [NIRECT];
      assert Way(bn) == {[NIRECT], [NIRECT, i1], [NIRECT, i1, i2]};
    }

    // ---- readi ----

    /**
     `readi`: the slice of the file from `off`, cut at the end of the file. `room` is how many
     bytes the destination can take before `either_copyout` fails. Reading changes nothing:
     every block below the size is mapped, so `bmap` never allocates.
     */
    method Readi(n: nat, off: nat, len: nat, room: nat) returns (tot: int, out: seq<Byte>)
      requires Valid() && n < |inodes| && off < WORD && len < WORD
      modifies this
      ensures State() == old(State())
      ensures off > inodes[n].size || off + len >= WORD ==> tot == 0 && out == []
      ensures off <= inodes[n].size && off + len < WORD ==>
        var want := if off + len > inodes[n].size then inodes[n].size - off else len;
        if want <= room then tot == want && out == Contents(T(), n)[off..off + want]
        else tot == -1 && CopiedUpTo(Contents(T(), n), off, want, room, out)
    {
      hide FsOk;
      FsShaped(T(), used, owner, meta);
      if off > inodes[n].size || (off + len) % WORD < off {
        return 0, [];
      }
      var want := if off + len > inodes[n].size then inodes[n].size - off else len;
      tot, out := ReadLoop(n, off, want, room, Contents(T(), n));
    }

    /** The loop of `readi`, for a range inside the file. */
    method ReadLoop(n: nat, off: nat, want: nat, room: nat, ghost file: seq<Byte>) returns (tot: int, out: seq<Byte>)
      requires Valid() && n < |inodes| && off + want <= inodes[n].size <= MAXFILE * BSIZE
      requires Shaped(T()) && file == Contents(T(), n)
      modifies this
      ensures State() == old(State())
      ensures if want <= room then tot == want && out == file[off..off + want]
              else tot == -1 && CopiedUpTo(file, off, want, room, out)
    {
      hide FsOk, Evolved, Contents, ByteAt, DataPath, Ptr;
      out := [];
      tot := 0;
      while tot < want
        invariant 0 <= tot <= want && tot <= room && out == file[off..off + tot] && Stop(off, want, tot)
        invariant State() == old(State())
      {
        var o := off + tot;
        var m := if want - tot < BSIZE - o % BSIZE then want - tot else BSIZE - o % BSIZE;
        if tot + m > room {
          NextStop(off, want, tot, m);
          return -1, out;
        }
        var piece := ReadBlock(n, o, m);
        SliceJoin(file, off, o, o + m);
        out := out + piece;
        tot := tot + m;
      }
    }

    /** One round of `readi`: bytes `o` to `o + m` of the file, which lie in one block. */
    method ReadBlock(n: nat, o: nat, m: nat) returns (piece: seq<Byte>)
      requires Valid() && n < |inodes| && Shaped(T())
      requires 0 < m && o + m <= inodes[n].size <= MAXFILE * BSIZE && o % BSIZE + m <= BSIZE
      modifies this
      ensures State() == old(State())
      ensures piece == Contents(T(), n)[o..o + m]
    {
      hide FsOk, Evolved, Contents, Allocated;
      BelowSizeIsMapped(T(), used, owner, meta, n, o);
      var addr := Bmap(n, o / BSIZE);
      BlockSlice(T(), n, o, m);
      piece := blocks[addr][o % BSIZE..o % BSIZE + m];
    }

    // ---- writei ----

    /** The body of the loop of `writei` after `bmap`: `k` bytes go into the mapped block. */
    method PutChunk(n: nat, addr: nat, off: nat, w: nat, k: nat, src: seq<Byte>, ghost t0: Tree)
      requires Valid() && n < |inodes| && Written(t0, T(), n, off, w, src)
      requires w + k <= |src| && off + w + k <= MAXFILE * BSIZE && off + w < MAXFILE * BSIZE
      requires (off + w) % BSIZE + k <= BSIZE
      requires addr == Ptr(T(), n, DataPath((off + w) / BSIZE)) && addr != 0
      modifies `blocks
      ensures Valid() && Grows(old(T()), T()) && Written(t0, T(), n, off, w + k, src)
      ensures |blocks| == |old(blocks)| && forall b :: 0 <= b < |blocks| && b != addr ==> blocks[b] == old(blocks)[b]
    {
      hide BitmapExact, FilesMapped, Owned, Written, Grows;
      WriteChunk(t0, T(), owner, meta, n, off, w, k, src);
      blocks := blocks[addr := PutBytes(blocks[addr], (off + w) % BSIZE, src[w..w + k])];
      GrowsKeepsFiles(old(T()), T());
    }

    /**
     Where the loop of `writei` stands: `tot` bytes are counted and `w` reached a block, blocks were
     allocated on the way to the first `k` bytes, and only blocks in `stray` changed without being logged.
     */
    ghost predicate Writing(t0: Tree, u0: seq<bool>, o0: map<nat, Slot>, l0: set<nat>,
                            n: nat, off: nat, tot: nat, w: nat, k: nat, stray: set<nat>, src: seq<Byte>)
      reads this
    {
      && Valid() && n < |inodes| && Grows(t0, T()) && Written(t0, T(), n, off, w, src) && MappedBelow(T(), n, off + tot)
      && Tracked(bmapstart, t0, u0, o0, l0, T(), owner, logged, n, off, tot, k, stray)
    }

    /**
     One round of the loop of `writei`. It stops when `bmap` finds the disk full, or when
     `either_copyin` cannot fetch the whole chunk: then what could be fetched, up to `avail`, is
     in the block, and the chunk is neither counted nor logged.
     */
    method WriteRound(n: nat, src: seq<Byte>, avail: nat, off: nat, tot: nat,
                      ghost t0: Tree, ghost u0: seq<bool>, ghost o0: map<nat, Slot>, ghost l0: set<nat>)
      returns (m: nat, stop: bool, ghost w: nat)
      requires Writing(t0, u0, o0, l0, n, off, tot, tot, tot, {}, src) && FsOk(t0, u0, o0, meta)
      requires tot < |src| && tot <= avail && off + |src| <= MAXFILE * BSIZE && AtStart(off, tot)
      modifies this
      ensures !stop ==> 0 < m && tot + m <= avail && tot + m <= |src| && w == tot + m
      ensures !stop ==> (tot + m == |src| || (off + tot + m) % BSIZE == 0)
      ensures !stop ==> Writing(t0, u0, o0, l0, n, off, tot + m, w, tot + m, {}, src)
      ensures stop ==> m == 0 && tot <= w <= |src| && Shaped(t0) && n < |t0.inodes|
      ensures stop ==> Writing(t0, u0, o0, l0, n, off, tot, w, tot + 1, StrayBlock(T(), n, off, tot, w), src)
      ensures stop ==> if Ptr(T(), n, DataPath((off + tot) / BSIZE)) == 0
        then w == tot && !Room(t0, u0, n, off, tot + 1) && forall b :: 0 <= b < |used| ==> used[b]
        else w == avail < |src| && (off + tot) % BSIZE + (avail - tot) < BSIZE
    {
      hide FsOk, Evolved, Written, Grows, MappedBelow, Allocated, Tracked, Way, Room;
      ghost var t1, o1, l1, u1 := T(), owner, logged, used;
      WritingShape(t0, t1, used, owner, meta);
      var addr := Bmap(n, (off + tot) / BSIZE);
      AfterBmap(bmapstart, t0, u0, o0, l0, t1, u1, o1, l1, T(), owner, logged, n, off, tot, meta, src);
      w := tot;
      if addr == 0 {
        NoRoomLeft(bmapstart, t0, u0, o0, l0, T(), used, owner, logged, n, off, tot, meta);
        return 0, true, tot;
      }
      var at := (off + tot) % BSIZE;
      m := if |src| - tot < BSIZE - at then |src| - tot else BSIZE - at;
      stop := tot + m > avail;
      var put := if !stop then m else avail - tot;
      ghost var t2, l2 := T(), logged;
      if put > 0 {
        PutChunk(n, addr, off, tot, put, src, t0);
        AfterChunk(bmapstart, t0, u0, o0, l0, t2, used, owner, l2, T(), n, off, tot, put, m, addr, meta, src);
      }
      w := tot + put;
      if stop {
        m := 0;
      } else {
        logged := logged + {addr};
      }
    }

    /**
     The loop of `writei`, exactly. Everything is counted if and only if all of the source can be
     fetched and there are free blocks for the whole range. Bytes are left behind in a block
     uncounted if and only if the source ends, readable, inside a block that could be mapped.
     */
    method WriteLoop(n: nat, src: seq<Byte>, avail: nat, off: nat) returns (tot: nat, ghost w: nat)
      requires Valid() && n < |inodes| && off <= inodes[n].size && off + |src| <= MAXFILE * BSIZE
      modifies this
      ensures Shaped(old(T())) && tot <= w <= |src| && n < |inodes|
      ensures Writing(old(T()), old(used), old(owner), old(logged), n, off, tot, w,
                      if tot == |src| then tot else tot + 1, StrayBlock(T(), n, off, tot, w), src)
      ensures Furthest(old(T()), old(used), n, off, |src|, avail, tot)
      ensures tot == |src| <==> |src| <= avail && Room(old(T()), old(used), n, off, |src|)
      ensures tot == |src| || avail < |src| || forall b :: 0 <= b < |used| ==> used[b]
      ensures w > tot <==> Strays(old(T()), old(used), n, off, |src|, avail)
      ensures w > tot ==> w == avail && tot < |src| && AtStart(off, tot)
      ensures w > tot ==> Ptr(T(), n, DataPath((off + tot) / BSIZE)) != 0
      ensures w > tot ==> (off + tot) % BSIZE + (w - tot) < BSIZE
    {
      hide FsOk, Written, Grows, MappedBelow, Tracked, Room, Stop;
      ghost var t0, u0, o0, l0 := T(), used, owner, logged;
      WriteStart(T(), used, owner, meta, n, off, src, logged, bmapstart);
      tot, w := 0, 0;
      while tot < |src|
        invariant 0 <= tot == w <= |src| && tot <= avail && (tot == |src| || AtStart(off, tot))
        invariant Writing(t0, u0, o0, l0, n, off, tot, tot, tot, {}, src)
      {
        var m, stop, w' := WriteRound(n, src, avail, off, tot, t0, u0, o0, l0);
        if stop {
          w := w';
          WritingShape(t0, T(), used, owner, meta);
          Stopped(bmapstart, t0, u0, o0, l0, T(), used, owner, logged, n, off, tot, w, avail, src, meta);
          StoppedFurthest(bmapstart, t0, u0, o0, l0, T(), used, owner, logged, n, off, tot, w, avail, |src|, meta);
          return;
        }
        tot, w := tot + m, w';
      }
      Finished(bmapstart, t0, u0, o0, l0, T(), used, owner, logged, n, off, avail, src, meta);
      WholeIsFurthest(t0, u0, n, off, |src|, avail);
    }

    /**
     `writei`: the file's bytes from `off` on become those of `src`, as far as the source can
     be read and the disk has room, and the file grows to cover what was counted. Refused,
     with nothing changed, exactly when the range starts past the end of the file, wraps
     around, or passes the largest file size. No other file changes. The blocks logged are
     exactly those of the allocations, the data blocks counted and the inode's; nothing else
     changes except the block in which uncounted bytes were left, if that is not among them.
     */
    method Writei(n: nat, src: seq<Byte>, avail: nat, off: nat) returns (tot: int, ghost w: nat)
      requires Valid() && n < |inodes| && off < WORD && |src| < WORD
      modifies this
      ensures Valid() && |inodes| == |old(inodes)| && w <= |src| && Shaped(old(T())) && Shaped(T())
      ensures tot == -1 <==> off > old(inodes[n].size) || off + |src| >= WORD || off + |src| > MAXFILE * BSIZE
      ensures tot == -1 ==> State() == old(State())
      ensures tot != -1 ==> 0 <= tot <= w && WriteEffect(old(T()), T(), n, off, tot, w, src)
      ensures tot != -1 ==> (tot == |src| <==> |src| <= avail && Room(old(T()), old(used), n, off, |src|))
      ensures tot != -1 ==> tot == |src| || avail < |src| || forall b :: 0 <= b < |used| ==> used[b]
      ensures tot != -1 ==> (w > tot <==> Strays(old(T()), old(used), n, off, |src|, avail))
      ensures tot != -1 && w > tot ==> w == avail && AtStart(off, tot) && (off + tot) % BSIZE + (w - tot) < BSIZE
      ensures tot != -1 ==> Furthest(old(T()), old(used), n, off, |src|, avail, tot)
      ensures tot != -1 ==> Grown(old(T()), T()) && Extends(old(owner), owner)
      ensures tot != -1 ==> FreshIn(old(owner), owner, n, Ways(off, |src|))
      ensures tot != -1 ==>
        logged == old(logged) + AllocLog(bmapstart, T(), old(owner), owner) + DataLog(T(), n, off, tot)
                  + {InodeBlock(n)}
      ensures tot != -1 ==> Confined(old(T()), T(), logged, StrayBlock(T(), n, off, tot, w))
      ensures tot != -1 ==> forall m :: 0 <= m < |inodes| && m != n ==> inodes[m] == old(inodes)[m]
      ensures tot != -1 && w > tot && Apart(bmapstart, InodeBlock(n), meta, |blocks|) ==>
        LoggedIfNew(old(T()), old(logged), T(), logged, n, off, tot)
      ensures tot == |src| && old(logged) == {} && Apart(bmapstart, InodeBlock(n), meta, |blocks|) ==>
        |logged| == LogCount(bmapstart, old(T()), old(used), n, off, |src|)
      ensures tot != -1 && |src| <= CHUNK ==>
        var maps := NewBitmaps(bmapstart, old(owner), owner);
        |logged - old(logged)| <= 4 + 3 + 1 + |maps| && |maps| <= 4 + 3
    {
      hide FsOk, Written, Grows, MappedBelow, Tracked, WriteEffect, Room, AllocLog, DataLog, Confined,
        LogCount, Apart, NewBitmaps, Grown, Extends, FreshIn, Ways, Furthest, LoggedIfNew;
      ghost var t0, u0, o0, l0 := T(), used, owner, logged;
      FsShaped(T(), used, owner, meta);
      if off > inodes[n].size || (off + |src|) % WORD < off {
        return -1, 0;
      }
      if off + |src| > MAXFILE * BSIZE {
        return -1, 0;
      }
      tot, w := WriteLoop(n, src, avail, off);
      ghost var t1, k := T(), if tot == |src| then tot else tot + 1;
      ghost var stray := StrayBlock(t1, n, off, tot, w);
      var size := if off + tot > inodes[n].size then off + tot else inodes[n].size;
      FinishWrite(t0, u0, o0, t1, used, owner, meta, n, off, tot, w, src, size);
      FinishLog(bmapstart, t0, u0, o0, l0, t1, used, owner, logged, n, off, tot, k, stray, size, InodeBlock(n), meta);
      StrayResized(t1, n, off, tot, w, size);
      GrownAfter(t0, t1, n, size);
      TrackedExtends(bmapstart, t0, u0, o0, l0, t1, owner, logged, n, off, tot, k, stray, |src|);
      FinishCounts(bmapstart, t0, u0, o0, l0, t1, used, owner, logged, n, off, tot, w, stray, |src|, size,
                   InodeBlock(n), meta);
      inodes := inodes[n := Inode(inodes[n].addrs, size)];
      logged := logged + {InodeBlock(n)};
    }

    // ---- itrunc ----

    /**
     Where `itrunc` stands: the slots of inode `n` ranked below `r` are freed, and their bitmap blocks logged;
     `t0`, `before` and `l0` are the state it started from.
     */
    ghost predicate Truncating(t0: Tree, before: seq<bool>, l0: set<nat>, n: nat, r: nat)
      reads this
    {
      && Owned(t0, owner, meta) && BitmapExact(before, |t0.blocks|, owner, meta) && n < |t0.inodes|
      && blocks == t0.blocks && FreedBelow(used, before, owner, n, r)
      && logged == l0 + FreedMaps(bmapstart, owner, n, r)
    }

    /** `bfree` of the block in slot `p`, if there is one. The block is never free already. */
    method FreeSlot(n: nat, b: nat, ghost p: Path, ghost t0: Tree, ghost before: seq<bool>, ghost l0: set<nat>)
      requires ValidPath(p) && Truncating(t0, before, l0, n, Rank(p)) && b == Ptr(t0, n, p)
      modifies `used, `logged
      ensures Truncating(t0, before, l0, n, Rank(p) + 1)
    {
      hide Ptr, ValidPath, Rank, FreedMaps;
      SlotIsUsed(t0, used, before, owner, meta, n, p);
      MapsStep(bmapstart, t0, owner, meta, n, p);
      if b != 0 {
        Bfree(b);
      }
    }

    /** The first loop of `itrunc`: the direct blocks. */
    method TruncDirect(n: nat, ghost t0: Tree, ghost before: seq<bool>, ghost l0: set<nat>)
      requires n < |inodes| && T() == t0 && Truncating(t0, before, l0, n, 0)
      modifies `inodes, `used, `logged
      ensures Truncating(t0, before, l0, n, NDIRECT)
      ensures |inodes| == |t0.inodes| && inodes == t0.inodes[n := inodes[n]] && |inodes[n].addrs| == NIRECT + 1
      ensures inodes[n].size == t0.inodes[n].size
      ensures forall k :: 0 <= k <= NIRECT ==> inodes[n].addrs[k] == if k < NDIRECT then 0 else t0.inodes[n].addrs[k]
    {
      hide Owned, BitmapExact, FreedBelow, FreedMaps;
      OwnedShape(t0, owner, meta);
      for i := 0 to NDIRECT
        invariant Truncating(t0, before, l0, n, i)
        invariant |inodes| == |t0.inodes| && inodes == t0.inodes[n := inodes[n]] && |inodes[n].addrs| == NIRECT + 1
        invariant inodes[n].size == t0.inodes[n].size
        invariant forall k :: 0 <= k <= NIRECT ==> inodes[n].addrs[k] == if k < i then 0 else t0.inodes[n].addrs[k]
      {
        FreeSlot(n, inodes[n].addrs[i], [i], t0, before, l0);
        inodes := inodes[n := Inode(inodes[n].addrs[i := 0], inodes[n].size)];
      }
    }

    /** The second part of `itrunc`: the indirect block `h` and the blocks it names. */
    method TruncSingle(n: nat, h: nat, ghost t0: Tree, ghost before: seq<bool>, ghost l0: set<nat>)
      requires Shaped(t0) && Truncating(t0, before, l0, n, NDIRECT) && h == Ptr(t0, n, [NDIRECT])
      modifies `used, `logged
      ensures Truncating(t0, before, l0, n, DOUBLE_RANK)
    {
      hide Owned, BitmapExact, FreedBelow, FreedMaps;
      if h == 0 {
        SkipEmpty(bmapstart, t0, used, before, owner, meta, n, [NDIRECT], NDIRECT, DOUBLE_RANK);
        return;
      }
      OwnedInRange(t0, owner, meta, n, [NDIRECT]);
      for j := 0 to NINDIRECT
        invariant Truncating(t0, before, l0, n, NDIRECT + j)
      {
        assert Parent([NDIRECT, j]) == [NDIRECT];
        FreeSlot(n, Entry(blocks[h], j), [NDIRECT, j], t0, before, l0);
      }
      FreeSlot(n, h, [NDIRECT], t0, before, l0);
    }

    /** The inner part of the third: entry `j` of the doubly indirect block and the blocks below it. */
    method TruncMiddle(n: nat, j: nat, h: nat, ghost t0: Tree, ghost before: seq<bool>, ghost l0: set<nat>)
      requires Shaped(t0) && j < NINDIRECT && Truncating(t0, before, l0, n, DOUBLE_RANK + j * (NINDIRECT + 1))
      requires h == Ptr(t0, n, [NIRECT, j])
      modifies `used, `logged
      ensures Truncating(t0, before, l0, n, DOUBLE_RANK + (j + 1) * (NINDIRECT + 1))
    {
      hide Owned, BitmapExact, FreedBelow, FreedMaps, Rank;
      MiddleRank(j, 0);
      if h == 0 {
        SkipMiddle(bmapstart, t0, used, before, owner, meta, n, j);
        return;
      }
      OwnedInRange(t0, owner, meta, n, [NIRECT, j]);
      for k := 0 to NINDIRECT
        invariant Truncating(t0, before, l0, n, DOUBLE_RANK + j * (NINDIRECT + 1) + k)
      {
        assert Parent([NIRECT, j, k]) == [NIRECT, j];
        MiddleRank(j, k);
        FreeSlot(n, Entry(blocks[h], k), [NIRECT, j, k], t0, before, l0);
      }
      FreeSlot(n, h, [NIRECT, j], t0, before, l0);
    }

    /** The third part of `itrunc`: the doubly indirect block `h` and both levels below it. */
    method TruncDouble(n: nat, h: nat, ghost t0: Tree, ghost before: seq<bool>, ghost l0: set<nat>)
      requires Shaped(t0) && Truncating(t0, before, l0, n, DOUBLE_RANK) && h == Ptr(t0, n, [NIRECT])
      modifies `used, `logged
      ensures Truncating(t0, before, l0, n, LAST_RANK + 1)
    {
      hide Owned, BitmapExact, FreedBelow, FreedMaps;
      if h == 0 {
        SkipEmpty(bmapstart, t0, used, before, owner, meta, n, [NIRECT], DOUBLE_RANK, LAST_RANK + 1);
        return;
      }
      OwnedInRange(t0, owner, meta, n, [NIRECT]);
      for j := 0 to NINDIRECT
        invariant Truncating(t0, before, l0, n, DOUBLE_RANK + j * (NINDIRECT + 1))
      {
        assert Parent([NIRECT, j]) == [NIRECT];
        TruncMiddle(n, j, Entry(blocks[h], j), t0, before, l0);
      }
      FreeSlot(n, h, [NIRECT], t0, before, l0);
    }

    /**
     `itrunc`: the file becomes empty, exactly its own blocks become free, and every other file is as it was.
     It logs the bitmap blocks of the file's blocks and the inode's block, so more than MAXOPBLOCKS blocks
     exactly when those blocks lie in MAXOPBLOCKS bitmap blocks or more.
     */
    method Itrunc(n: nat)
      requires Valid() && n < |inodes|
      modifies this
      ensures Valid() && T() == Truncated(old(T()), n) && owner == WithoutFile(old(owner), n)
      ensures forall b :: 0 <= b < |used| ==>
        (used[b] <==> old(used)[b] && !(b in old(owner) && old(owner)[b].inum == n))
      ensures logged == old(logged) + BitmapsOf(bmapstart, FileBlocks(old(owner), n)) + {InodeBlock(n)}
      ensures old(logged) == {} && Apart(bmapstart, InodeBlock(n), meta, |blocks|) ==>
        && |logged| == |BitmapsOf(bmapstart, FileBlocks(old(owner), n))| + 1
        && (|logged| > MAXOPBLOCKS <==> |BitmapsOf(bmapstart, FileBlocks(old(owner), n))| >= MAXOPBLOCKS)
    {
      hide Owned, BitmapExact, FreedBelow, FilesMapped, FreedMaps, BitmapsOf, FileBlocks, Apart;
      ghost var t0, before, l0 := T(), used, logged;
      TruncStart(t0, used, owner, meta, n);
      MapsStart(bmapstart, owner, n);
      TruncDirect(n, t0, before, l0);
      TruncSingle(n, inodes[n].addrs[NDIRECT], t0, before, l0);
      TruncDouble(n, inodes[n].addrs[NIRECT], t0, before, l0);
      inodes := inodes[n := Inode(inodes[n].addrs[NDIRECT := 0][NIRECT := 0], 0)];
      logged := logged + {InodeBlock(n)};
      assert inodes[n].addrs == seq(NIRECT + 1, i => 0);
      assert T() == Truncated(t0, n);
      TruncEnd(t0, used, before, owner, meta, n);
      MapsEnd(bmapstart, t0, owner, meta, n, InodeBlock(n));
      owner := WithoutFile(owner, n);
    }

    // ---- filewrite ----

    /**
     `filewrite` on an inode, from file offset `off`: one `writei` of at most three blocks per
     log transaction. Returns the request's length exactly when all of it was counted, and -1
     otherwise; the file offset advances by what was counted, and the file holds `w` bytes of
     the source from the old offset on. How far it gets is a function of the state before.
     */
    method FileWrite(n: nat, src: seq<Byte>, avail: nat, off: nat) returns (ret: int, off': nat, ghost w: nat)
      requires Valid() && n < |inodes| && off < WORD && |src| < WORD
      modifies this
      ensures Valid() && |inodes| == |old(inodes)| && off <= off' <= off + |src| && Shaped(old(T()))
      ensures ret == if off' == off + |src| then |src| else -1
      ensures off <= old(inodes[n].size) ==>
        FileFurthest(old(T()), old(used), n, off, Accepted(off, |src|), avail, off' - off)
      ensures ret == |src| <==> |src| == 0 || (&& off <= old(inodes[n].size) && off + |src| <= MAXFILE * BSIZE
                                               && |src| <= avail && Room(old(T()), old(used), n, off, |src|))
      ensures off' < off + |src| ==>
        || off > old(inodes[n].size) || off + |src| > MAXFILE * BSIZE || avail < |src|
        || forall b :: 0 <= b < |used| ==> used[b]
      ensures off' - off <= w <= |src| && (|src| <= avail ==> w == off' - off)
      ensures off <= old(inodes[n].size) ==> WriteEffect(old(T()), T(), n, off, off' - off, w, src)
      ensures off > old(inodes[n].size) ==> T() == old(T())
    {
      hide FsOk, WriteEffect, Room, FileFurthest, Filing;
      ghost var t0, u0, o0 := T(), used, owner;
      FsShaped(t0, used, owner, meta);
      if off <= inodes[n].size {
        FilingStart(n, off, avail, src);
      }
      var i := 0;
      ret, off', w := -1, off, 0;
      while i < |src|
        invariant 0 <= i <= |src| && off' == off + i && w == i && Valid() && |inodes| == |t0.inodes|
        invariant if off <= t0.inodes[n].size then Filing(t0, u0, o0, n, off, i, avail, src) else i == 0 && T() == t0
      {
        var r, n1;
        r, n1, w := FileRound(n, src, avail, off', i, t0, u0, o0, off);
        if r > 0 {
          off' := off' + r;
        }
        if r != n1 {
          if off <= t0.inodes[n].size {
            AllCounted(t0, u0, n, off, |src|, avail, off' - off);
          }
          return;
        }
        i := i + r;
      }
      if off <= t0.inodes[n].size {
        FilingEnd(t0, u0, o0, n, off, avail, src);
        AllCounted(t0, u0, n, off, |src|, avail, |src|);
      }
      ret := |src|;
    }

    /** Where the loop of `filewrite` stands: `i` bytes are written, in whole chunks. */
    ghost predicate Filing(t0: Tree, u0: seq<bool>, o0: map<nat, Slot>, n: nat, off: nat, i: nat, avail: nat,
                           src: seq<Byte>)
      reads this
    {
      && Valid() && n < |inodes| == |t0.inodes| && i <= |src| && i <= avail && (i % CHUNK == 0 || i == |src|)
      && off <= t0.inodes[n].size && WriteEffect(t0, T(), n, off, i, i, src) && off + i <= MAXFILE * BSIZE
      && Progress(t0, u0, o0, T(), used, owner, meta, n, off, i)
    }

    lemma FilingStart(n: nat, off: nat, avail: nat, src: seq<Byte>)
      requires Valid() && n < |inodes| && off <= inodes[n].size
      ensures Filing(T(), used, owner, n, off, 0, avail, src)
    {
      hide FsOk, Progress;
      NoWriteEffect(T(), used, owner, meta, n, off, src);
      ProgressStart(T(), used, owner, meta, n, off);
    }

    lemma FilingEnd(t0: Tree, u0: seq<bool>, o0: map<nat, Slot>, n: nat, off: nat, avail: nat, src: seq<Byte>)
      requires Filing(t0, u0, o0, n, off, |src|, avail, src)
      ensures Shaped(t0) && n < |t0.inodes| && WriteEffect(t0, T(), n, off, |src|, |src|, src)
      ensures FileFurthest(t0, u0, n, off, Accepted(off, |src|), avail, |src|)
    {
      hide FsOk, Progress, FileFurthest;
      WholeFile(t0, u0, o0, T(), used, owner, meta, n, off, |src|, avail);
    }

    /** One round of `filewrite`: the chunk that starts `i` bytes into the request. */
    method FileRound(n: nat, src: seq<Byte>, avail: nat, at: nat, i: nat,
                     ghost t0: Tree, ghost u0: seq<bool>, ghost o0: map<nat, Slot>, ghost off: nat)
      returns (r: int, n1: nat, ghost w: nat)
      requires Valid() && n < |inodes| == |t0.inodes| && i < |src| < WORD && off < WORD && at == off + i && Shaped(t0)
      requires if off <= t0.inodes[n].size then Filing(t0, u0, o0, n, off, i, avail, src) else i == 0 && T() == t0
      modifies this
      ensures Valid() && |inodes| == |t0.inodes| && -1 <= r <= n1
      ensures n1 == if |src| - i > CHUNK then CHUNK else |src| - i
      ensures off > t0.inodes[n].size ==> r == -1 && T() == t0 && w == i
      ensures off <= t0.inodes[n].size && r == n1 ==> Filing(t0, u0, o0, n, off, i + n1, avail, src) && w == i + n1
      ensures off <= t0.inodes[n].size && r != n1 ==>
        var j := if r == -1 then i else i + r;
        && FileFurthest(t0, u0, n, off, Accepted(off, |src|), avail, j) && WriteEffect(t0, T(), n, off, j, w, src)
        && j <= w <= |src| && (|src| <= avail ==> w == j)
        && (off + |src| > MAXFILE * BSIZE || avail < |src| || forall b :: 0 <= b < |used| ==> used[b])
    {
      hide FsOk, WriteEffect, AllocLog, DataLog, Confined, LogCount;
      hide Apart, Room, StrayBlock, NewBitmaps, Grown, Extends;
      hide AtStart, FreshIn, Ways, Furthest, FileFurthest, Progress;
      n1 := if |src| - i > CHUNK then CHUNK else |src| - i;
      ghost var t1, u1, o1 := T(), used, owner;
      EffectSize(t0, t1, n, off, i, i, src);
      FsShaped(t1, used, owner, meta);
      w := i;
      ghost var w1;
      r, w1 := Writei(n, src[i..i + n1], if avail > i then avail - i else 0, at);
      if r != -1 {
        EffectsCompose(t0, t1, T(), n, off, i, r, w1, src, n1);
        w := i + w1;
      }
      if off <= t0.inodes[n].size {
        if r == n1 {
          EffectSize(t1, T(), n, at, n1, w1, src[i..i + n1]);
          ProgressStep(t0, u0, o0, t1, u1, o1, T(), used, owner, meta, n, off, i, n1);
          NextChunk(i, n1, |src|);
        } else {
          ShortWrite(t0, u0, o0, t1, u1, o1, meta, n, off, i, n1, |src|, avail, r);
        }
      }
    }
  }

  /** `max` of `filewrite`: three blocks. */
  const CHUNK := (MAXOPBLOCKS - 1 - 1 - 2) / 2 * BSIZE

  /**
   A chunk of `filewrite` logs more than MAXOPBLOCKS blocks exactly when the slots it makes dirty and
   the bitmap blocks of the free blocks it takes are MAXOPBLOCKS or more, which needs three bitmap blocks.
   */
  lemma ChunkLogBound(bmapstart: nat, t: Tree, used: seq<bool>, n: nat, off: nat, k: nat)
    requires Shaped(t) && n < |t.inodes| && k <= CHUNK
    ensures var maps := BitmapsOf(bmapstart, Lowest(used, |Missing(t, n, off, k)|));
      && LogCount(bmapstart, t, used, n, off, k) <= 4 + 3 + 1 + |maps|
      && (LogCount(bmapstart, t, used, n, off, k) > MAXOPBLOCKS <==> |Dirty(t, n, off, k)| + |maps| >= MAXOPBLOCKS)
      && (LogCount(bmapstart, t, used, n, off, k) > MAXOPBLOCKS ==> |maps| >= 3 && |used| > 2 * BPB)
  {
    hide Dirty, Missing, Lowest, BitmapsOf;
    DirtyBound(t, n, off, k);
    if |used| <= 2 * BPB {
      SmallDisk(bmapstart, used, |Missing(t, n, off, k)|);
    }
  }

  lemma SmallDisk(bmapstart: nat, used: seq<bool>, k: nat)
    requires |used| <= 2 * BPB
    ensures |BitmapsOf(bmapstart, Lowest(used, k))| <= 2
  {
    hide FreeBelow;
    var maps := BitmapsOf(bmapstart, Lowest(used, k));
    forall x | x in maps ensures x in {bmapstart, bmapstart + 1} {
      var b :| b in Lowest(used, k) && x == b / BPB + bmapstart;
      assert b < 2 * BPB;
    }
    SubsetSize(maps, {bmapstart, bmapstart + 1});
  }

  lemma NoWriteEffect(t: Tree, used: seq<bool>, owner: map<nat, Slot>, meta: nat, n: nat, off: nat, src: seq<Byte>)
    requires FsOk(t, used, owner, meta) && n < |t.inodes|
    ensures off <= t.inodes[n].size ==> WriteEffect(t, t, n, off, 0, 0, src)
  {
    FsShaped(t, used, owner, meta);
  }

  lemma EffectSize(t: Tree, u: Tree, n: nat, off: nat, tot: nat, w: nat, src: seq<Byte>)
    requires n < |t.inodes|
    ensures WriteEffect(t, u, n, off, tot, w, src) ==>
      && |u.inodes| == |t.inodes| && off + tot <= u.inodes[n].size <= MAXFILE * BSIZE
      && (off + tot <= t.inodes[n].size || u.inodes[n].size == off + tot)
  {
  }

  /** Writing `i` bytes and then `w` more right after them is writing `i + w` bytes. */
  lemma EffectsCompose(t: Tree, u: Tree, v: Tree, n: nat, off: nat, i: nat, r: nat, w: nat, src: seq<Byte>, n1: nat)
    requires i + n1 <= |src| && n < |t.inodes|
    requires WriteEffect(t, u, n, off, i, i, src) && WriteEffect(u, v, n, off + i, r, w, src[i..i + n1]) && r <= w
    ensures i + w <= |src| && WriteEffect(t, v, n, off, i + r, i + w, src)
  {
    var a, b := src[..i], src[i..i + n1][..w];
    assert a + b == src[..i + w];
    SpliceSplice(Contents(t, n), off, a, b);
    assert |Splice(Contents(t, n), off, a)| == u.inodes[n].size;
    assert Splice(Contents(t, n), off, a)[..u.inodes[n].size] == Splice(Contents(t, n), off, a);
    forall m | 0 <= m < |t.inodes| && m != n ensures Contents(v, m) == Contents(t, m) {
      assert Contents(u, m) == Contents(t, m);
    }
  }

  lemma SpliceSplice(s: seq<Byte>, off: nat, a: seq<Byte>, b: seq<Byte>)
    requires off <= |s|
    ensures off + |a| <= |Splice(s, off, a)|
    ensures Splice(Splice(s, off, a), off + |a|, b) == Splice(s, off, a + b)
  {
  }

  // ---- itrunc, on values ----

  lemma OwnedShape(t: Tree, owner: map<nat, Slot>, meta: nat)
    requires Owned(t, owner, meta)
    ensures Shaped(t)
  {
  }

  lemma OwnedInRange(t: Tree, owner: map<nat, Slot>, meta: nat, n: nat, p: Path)
    requires Owned(t, owner, meta) && n < |t.inodes| && ValidPath(p)
    ensures Shaped(t) && Ptr(t, n, p) < |t.blocks|
  {
  }

  lemma SlotIsUsed(t: Tree, used: seq<bool>, before: seq<bool>, owner: map<nat, Slot>, meta: nat, n: nat, p: Path)
    requires Owned(t, owner, meta) && BitmapExact(before, |t.blocks|, owner, meta) && n < |t.inodes| && ValidPath(p)
    requires FreedBelow(used, before, owner, n, Rank(p))
    ensures Shaped(t) && var b := Ptr(t, n, p);
      if b == 0 then FreedBelow(used, before, owner, n, Rank(p) + 1)
      else b < |used| && used[b] && FreedBelow(used[b := false], before, owner, n, Rank(p) + 1)
  {
    var b := Ptr(t, n, p);
    forall x | x in owner && owner[x].inum == n && Rank(owner[x].path) == Rank(p) ensures x == b {
      RankInjective(owner[x].path, p);
    }
  }

  /** Below a missing indirect block there is nothing to free. */
  lemma SkipEmpty(bmapstart: nat, t: Tree, used: seq<bool>, before: seq<bool>, owner: map<nat, Slot>, meta: nat,
                  n: nat, p: Path, lo: nat, hi: nat)
    requires Owned(t, owner, meta) && n < |t.inodes| && ValidPath(p) && FreedBelow(used, before, owner, n, lo)
    requires lo <= hi
    requires Ptr(t, n, p) == 0
    requires forall q {:trigger ValidPath(q)} :: ValidPath(q) && lo <= Rank(q) < hi ==>
      q == p || (|q| > |p| && q[..|p|] == p)
    ensures FreedBelow(used, before, owner, n, hi)
    ensures FreedMaps(bmapstart, owner, n, hi) == FreedMaps(bmapstart, owner, n, lo)
  {
    hide Rank, BitmapsOf;
    forall x | x in owner && owner[x].inum == n && lo <= Rank(owner[x].path) < hi ensures false {
      assert Ptr(t, n, owner[x].path) == x;
      NothingBelow(t, n, p, owner[x].path);
    }
    assert FreedBlocks(owner, n, hi) == FreedBlocks(owner, n, lo);
  }

  lemma MiddleRank(j: nat, k: nat)
    requires j < NINDIRECT && k < NINDIRECT
    ensures Rank([NIRECT, j]) == DOUBLE_RANK + j * (NINDIRECT + 1) + NINDIRECT
    ensures Rank([NIRECT, j, k]) == DOUBLE_RANK + j * (NINDIRECT + 1) + k
  {
  }

  lemma SkipMiddle(bmapstart: nat, t: Tree, used: seq<bool>, before: seq<bool>, owner: map<nat, Slot>, meta: nat,
                   n: nat, j: nat)
    requires Owned(t, owner, meta) && n < |t.inodes| && j < NINDIRECT && Ptr(t, n, [NIRECT, j]) == 0
    requires FreedBelow(used, before, owner, n, DOUBLE_RANK + j * (NINDIRECT + 1))
    ensures var lo, hi := DOUBLE_RANK + j * (NINDIRECT + 1), DOUBLE_RANK + (j + 1) * (NINDIRECT + 1);
      && FreedBelow(used, before, owner, n, hi)
      && FreedMaps(bmapstart, owner, n, hi) == FreedMaps(bmapstart, owner, n, lo)
  {
    hide Owned, FreedBelow, FreedMaps, Ptr;
    SkipEmpty(bmapstart, t, used, before, owner, meta, n, [NIRECT, j],
              DOUBLE_RANK + j * (NINDIRECT + 1), DOUBLE_RANK + (j + 1) * (NINDIRECT + 1));
  }

  lemma {:induction false} NothingBelow(t: Tree, n: nat, p: Path, q: Path)
    requires Shaped(t) && n < |t.inodes| && ValidPath(p) && ValidPath(q) && Ptr(t, n, p) == 0
    requires q == p || (|q| > |p| && q[..|p|] == p)
    ensures Ptr(t, n, q) == 0
    decreases |q|
  {
    if q != p {
      assert Parent(q)[..|p|] == p;
      if |Parent(q)| == |p| {
        assert Parent(q) == p;
      }
      NothingBelow(t, n, p, Parent(q));
    }
  }

  /** The blocks of one file. */
  ghost function FileBlocks(owner: map<nat, Slot>, n: nat): (r: set<nat>) {
    set b | b in owner && owner[b].inum == n
  }

  /** Those in slots ranked below `r`. */
  ghost function FreedBlocks(owner: map<nat, Slot>, n: nat, r: nat): (s: set<nat>) {
    set b | b in owner && owner[b].inum == n && ValidPath(owner[b].path) && Rank(owner[b].path) < r
  }

  ghost function FreedMaps(bmapstart: nat, owner: map<nat, Slot>, n: nat, r: nat): (s: set<nat>) {
    BitmapsOf(bmapstart, FreedBlocks(owner, n, r))
  }

  lemma MapsStart(bmapstart: nat, owner: map<nat, Slot>, n: nat)
    ensures FreedMaps(bmapstart, owner, n, 0) == {}
  {
  }

  lemma BlocksStep(t: Tree, owner: map<nat, Slot>, meta: nat, n: nat, p: Path)
    requires Owned(t, owner, meta) && n < |t.inodes| && ValidPath(p)
    ensures Shaped(t) && var b := Ptr(t, n, p);
      FreedBlocks(owner, n, Rank(p) + 1) == FreedBlocks(owner, n, Rank(p)) + (if b == 0 then {} else {b})
  {
    hide Rank;
    var b := Ptr(t, n, p);
    forall x | x in owner && owner[x].inum == n && Rank(owner[x].path) == Rank(p) ensures x == b {
      RankInjective(owner[x].path, p);
    }
  }

  lemma MapsAdd(bmapstart: nat, s: set<nat>, b: nat)
    ensures BitmapsOf(bmapstart, s + {b}) == BitmapsOf(bmapstart, s) + {b / BPB + bmapstart}
  {
    forall x | x in BitmapsOf(bmapstart, s + {b}) ensures x in BitmapsOf(bmapstart, s) + {b / BPB + bmapstart} {
      var y :| y in s + {b} && x == y / BPB + bmapstart;
      assert y == b || y in s;
    }
    assert b in s + {b};
    forall x | x in BitmapsOf(bmapstart, s) ensures x in BitmapsOf(bmapstart, s + {b}) {
      var y :| y in s && x == y / BPB + bmapstart;
      assert y in s + {b};
    }
  }

  lemma MapsStep(bmapstart: nat, t: Tree, owner: map<nat, Slot>, meta: nat, n: nat, p: Path)
    requires Owned(t, owner, meta) && n < |t.inodes| && ValidPath(p)
    ensures Shaped(t) && var b := Ptr(t, n, p);
      FreedMaps(bmapstart, owner, n, Rank(p) + 1) ==
      FreedMaps(bmapstart, owner, n, Rank(p)) + (if b == 0 then {} else {b / BPB + bmapstart})
  {
    hide Owned, FreedBlocks, BitmapsOf, Ptr, Rank;
    BlocksStep(t, owner, meta, n, p);
    var b := Ptr(t, n, p);
    if b == 0 {
      assert FreedBlocks(owner, n, Rank(p)) + {} == FreedBlocks(owner, n, Rank(p));
    } else {
      MapsAdd(bmapstart, FreedBlocks(owner, n, Rank(p)), b);
    }
  }

  lemma MapsEnd(bmapstart: nat, t: Tree, owner: map<nat, Slot>, meta: nat, n: nat, iblock: nat)
    requires Owned(t, owner, meta) && n < |t.inodes|
    ensures FreedMaps(bmapstart, owner, n, LAST_RANK + 1) == BitmapsOf(bmapstart, FileBlocks(owner, n))
    ensures Apart(bmapstart, iblock, meta, |t.blocks|) ==>
      var maps := BitmapsOf(bmapstart, FileBlocks(owner, n)); |{} + maps + {iblock}| == |maps| + 1
  {
    hide SlotsOwn, Ptr, Rank, BitmapsOf, Apart;
    assert FreedBlocks(owner, n, LAST_RANK + 1) == FileBlocks(owner, n);
    InodeApart(bmapstart, FileBlocks(owner, n), iblock, meta, |t.blocks|);
    var maps := BitmapsOf(bmapstart, FileBlocks(owner, n));
    assert {} + maps + {iblock} == maps + {iblock};
  }

  lemma InodeApart(bmapstart: nat, s: set<nat>, iblock: nat, meta: nat, size: nat)
    requires forall b :: b in s ==> b < size
    ensures Apart(bmapstart, iblock, meta, size) ==> iblock !in BitmapsOf(bmapstart, s)
  {
  }

  lemma TruncStart(t: Tree, used: seq<bool>, owner: map<nat, Slot>, meta: nat, n: nat)
    requires FsOk(t, used, owner, meta) && n < |t.inodes|
    ensures Shaped(t) && Owned(t, owner, meta) && BitmapExact(used, |t.blocks|, owner, meta)
    ensures FreedBelow(used, used, owner, n, 0)
  {
  }

  lemma TruncEnd(t: Tree, used: seq<bool>, before: seq<bool>, owner: map<nat, Slot>, meta: nat, n: nat)
    requires FsOk(t, before, owner, meta) && n < |t.inodes| && FreedBelow(used, before, owner, n, LAST_RANK + 1)
    ensures Shaped(t) && FsOk(Truncated(t, n), used, WithoutFile(owner, n), meta)
    ensures |used| == |before|
    ensures forall b :: 0 <= b < |used| ==> (used[b] <==> before[b] && !(b in owner && owner[b].inum == n))
  {
    TruncKeeps(t, owner, meta, n);
  }

  // ---- writei, on values ----

  /** What a `writei` that counted `tot` bytes and put `w` bytes on disk did to the files. */
  ghost predicate WriteEffect(t: Tree, u: Tree, n: nat, off: nat, tot: nat, w: nat, src: seq<Byte>) {
    && Shaped(t) && Shaped(u) && |u.inodes| == |t.inodes| && n < |t.inodes| && w <= |src|
    && (forall m :: 0 <= m < |t.inodes| ==> t.inodes[m].size <= MAXFILE * BSIZE && u.inodes[m].size <= MAXFILE * BSIZE)
    && off <= t.inodes[n].size
    && u.inodes[n].size == (if off + tot > t.inodes[n].size then off + tot else t.inodes[n].size)
    && u.inodes[n].size <= |Splice(Contents(t, n), off, src[..w])|
    && Contents(u, n) == Splice(Contents(t, n), off, src[..w])[..u.inodes[n].size]
    && forall m :: 0 <= m < |t.inodes| && m != n ==> Contents(u, m) == Contents(t, m)
  }

  lemma FinishWrite(t: Tree, used0: seq<bool>, owner0: map<nat, Slot>, u: Tree, used: seq<bool>,
                    owner: map<nat, Slot>, meta: nat,
                    n: nat, off: nat, tot: nat, w: nat, src: seq<Byte>, size: nat)
    requires FsOk(u, used, owner, meta) && n < |u.inodes| && Grows(t, u) && Written(t, u, n, off, w, src)
    requires FsOk(t, used0, owner0, meta)
    requires off <= t.inodes[n].size && tot <= w && MappedBelow(u, n, off + tot)
    requires size == if off + tot > u.inodes[n].size then off + tot else u.inodes[n].size
    ensures Shaped(u) && FsOk(Resized(u, n, size), used, owner, meta)
    ensures WriteEffect(t, Resized(u, n, size), n, off, tot, w, src)
  {
    assert MappedBelow(u, n, u.inodes[n].size);
    ResizeKeeps(u, owner, meta, n, size);
    var v := Resized(u, n, size);
    WrittenThenSame(t, u, v, n, off, w, src);
    forall m | 0 <= m < |t.inodes| ensures t.inodes[m].size <= MAXFILE * BSIZE && v.inodes[m].size <= MAXFILE * BSIZE {
      assert MappedBelow(t, m, t.inodes[m].size) && MappedBelow(v, m, v.inodes[m].size);
    }
    ContentsSpliced(t, v, n, off, w, src);
    forall m | 0 <= m < |t.inodes| && m != n ensures Contents(v, m) == Contents(t, m) {
      forall pos | 0 <= pos < t.inodes[m].size ensures ByteAt(v, m, pos) == ByteAt(t, m, pos) {
      }
    }
  }

  /** A chunk of `writei` begins where the call begins, or at the beginning of a block. */
  predicate AtStart(off: nat, tot: nat) {
    tot == 0 || (off + tot) % BSIZE == 0
  }

  /** The block that took bytes which were not counted, if any. */
  ghost function StrayBlock(t: Tree, n: nat, off: nat, tot: nat, w: nat): set<nat> {
    if w > tot && Shaped(t) && n < |t.inodes| && off + tot < MAXFILE * BSIZE
    then {Ptr(t, n, DataPath((off + tot) / BSIZE))} else {}
  }

  /**
   When bytes are left uncounted: the source can be read up to somewhere inside a block, and there is room
   as far as that block.
   */
  ghost predicate Strays(t: Tree, used: seq<bool>, n: nat, off: nat, len: nat, avail: nat)
    requires Shaped(t) && n < |t.inodes|
  {
    0 < avail < len && (off + avail) % BSIZE != 0 && Room(t, used, n, off, avail)
  }

  lemma WritingShape(t0: Tree, t: Tree, used: seq<bool>, owner: map<nat, Slot>, meta: nat)
    requires FsOk(t, used, owner, meta) && Grows(t0, t)
    ensures Shaped(t0) && Shaped(t) && |t0.blocks| == |t.blocks| == |used| && |t0.inodes| == |t.inodes|
  {
  }

  lemma WriteStart(t: Tree, used: seq<bool>, owner: map<nat, Slot>, meta: nat, n: nat, off: nat, src: seq<Byte>,
                   logged: set<nat>, bmapstart: nat)
    requires FsOk(t, used, owner, meta) && n < |t.inodes| && off <= t.inodes[n].size && off + |src| <= MAXFILE * BSIZE
    ensures Shaped(t) && Grows(t, t) && Written(t, t, n, off, 0, src) && MappedBelow(t, n, off)
    ensures Tracked(bmapstart, t, used, owner, logged, t, owner, logged, n, off, 0, 0, {})
  {
    assert MappedBelow(t, n, t.inodes[n].size);
    TrackStart(bmapstart, t, used, owner, logged, n, off);
  }

  /** What `bmap` in the loop of `writei` keeps. */
  lemma AfterBmap(bmapstart: nat, t0: Tree, u0: seq<bool>, o0: map<nat, Slot>, l0: set<nat>,
                  u: Tree, u1: seq<bool>, o1: map<nat, Slot>, l1: set<nat>, v: Tree, o2: map<nat, Slot>, l2: set<nat>,
                  n: nat, off: nat, tot: nat, meta: nat, src: seq<Byte>)
    requires FsOk(t0, u0, o0, meta) && FsOk(u, u1, o1, meta) && Grows(t0, u) && Written(t0, u, n, off, tot, src)
    requires MappedBelow(u, n, off + tot) && off + tot < MAXFILE * BSIZE && AtStart(off, tot)
    requires Tracked(bmapstart, t0, u0, o0, l0, u, o1, l1, n, off, tot, tot, {}) && Evolved(u, v, o1, o2)
    requires Allocated(bmapstart, u, u1, o1, l1, v, o2, l2, n, Way((off + tot) / BSIZE))
    ensures Shaped(v) && n < |v.inodes| && Grows(t0, v) && Written(t0, v, n, off, tot, src)
    ensures MappedBelow(v, n, off + tot)
    ensures Tracked(bmapstart, t0, u0, o0, l0, v, o2, l2, n, off, tot, tot + 1, {})
  {
    hide FsOk, Tracked, Allocated, Written, MappedBelow;
    WritingShape(t0, u, u1, o1, meta);
    GrowsTrans(t0, u, v);
    WrittenThenSame(t0, u, v, n, off, tot, src);
    GrowsKeepsMapped(u, v, n, off + tot);
    TrackBmap(bmapstart, t0, u0, o0, l0, u, u1, o1, l1, v, o2, l2, n, off, tot, meta);
  }

  /** What writing one chunk in the loop of `writei` keeps, whether it is complete or not. */
  lemma AfterChunk(bmapstart: nat, t0: Tree, u0: seq<bool>, o0: map<nat, Slot>, l0: set<nat>,
                   u: Tree, u1: seq<bool>, o: map<nat, Slot>, l1: set<nat>, v: Tree,
                   n: nat, off: nat, tot: nat, put: nat, m: nat, addr: nat, meta: nat, src: seq<Byte>)
    requires FsOk(u, u1, o, meta) && Grows(t0, u) && Grows(u, v) && MappedBelow(u, n, off + tot) && AtStart(off, tot)
    requires Tracked(bmapstart, t0, u0, o0, l0, u, o, l1, n, off, tot, tot + 1, {})
    requires 0 < put <= m && (off + tot) % BSIZE + m <= BSIZE && off + tot + m <= MAXFILE * BSIZE
    requires v.inodes == u.inodes
    requires addr == Ptr(u, n, DataPath((off + tot) / BSIZE)) && addr != 0
    requires |u.blocks| == |v.blocks| && forall b :: 0 <= b < |u.blocks| && b != addr ==> v.blocks[b] == u.blocks[b]
    ensures Shaped(v) && n < |v.inodes| && Grows(t0, v) && MappedBelow(v, n, off + tot)
    ensures MappedBelow(v, n, off + tot + m)
    ensures Ptr(v, n, DataPath((off + tot) / BSIZE)) == addr
    ensures Tracked(bmapstart, t0, u0, o0, l0, v, o, l1, n, off, tot, tot + 1, {addr})
    ensures Tracked(bmapstart, t0, u0, o0, l0, v, o, l1 + {addr}, n, off, tot + m, tot + m, {})
  {
    hide FsOk, Tracked;
    GrowsTrans(t0, u, v);
    GrowsKeepsMapped(u, v, n, off + tot);
    PtrStays(u, v, n, DataPath((off + tot) / BSIZE));
    MappedFurther(v, n, off + tot, off + tot + m);
    TrackChunk(bmapstart, t0, u0, o0, l0, u, u1, o, l1, v, n, off, tot, m, addr, meta);
  }

  lemma TrackedPair(bmapstart: nat, t0: Tree, u0: seq<bool>, o0: map<nat, Slot>, l0: set<nat>, t: Tree, now: seq<bool>,
                    o: map<nat, Slot>, l: set<nat>,
                    n: nat, off: nat, tot: nat, k: nat, stray: set<nat>, meta: nat)
    requires FsOk(t0, u0, o0, meta) && FsOk(t, now, o, meta) && Grows(t0, t)
    requires Tracked(bmapstart, t0, u0, o0, l0, t, o, l, n, off, tot, k, stray)
    ensures Pair(t0, u0, o0, t, now, o, meta, n) && forall b :: b in o && b !in o0 ==> o[b].path in Ways(off, k)
  {
    hide Ways, AllocLog, DataLog;
  }

  /** `bmap` failed: all free blocks are used up on the way. */
  lemma NoRoomLeft(bmapstart: nat, t0: Tree, u0: seq<bool>, o0: map<nat, Slot>, l0: set<nat>, t: Tree, now: seq<bool>,
                   o: map<nat, Slot>, l: set<nat>,
                   n: nat, off: nat, tot: nat, meta: nat)
    requires FsOk(t0, u0, o0, meta) && FsOk(t, now, o, meta) && Grows(t0, t) && (forall b :: 0 <= b < |now| ==> now[b])
    requires Tracked(bmapstart, t0, u0, o0, l0, t, o, l, n, off, tot, tot + 1, {}) && off + tot < MAXFILE * BSIZE
    requires AtStart(off, tot)
    requires Shaped(t) && n < |t.inodes| && Ptr(t, n, DataPath((off + tot) / BSIZE)) == 0
    ensures Shaped(t0) && n < |t0.inodes| && !Room(t0, u0, n, off, tot + 1)
  {
    hide FsOk, Tracked, Grows, Grown, Ways, Room;
    TrackedPair(bmapstart, t0, u0, o0, l0, t, now, o, l, n, off, tot, tot + 1, {}, meta);
    RangeStep(off, tot, 1, (off + tot) / BSIZE);
    DataOnWay(off, tot + 1, (off + tot) / BSIZE);
    FullHadNoRoom(t0, u0, o0, t, now, o, meta, n, off, tot + 1, DataPath((off + tot) / BSIZE));
  }

  /** The way to the next byte is mapped, so there was room that far. */
  lemma RoomSoFar(bmapstart: nat, t0: Tree, u0: seq<bool>, o0: map<nat, Slot>, l0: set<nat>, t: Tree, now: seq<bool>,
                  o: map<nat, Slot>, l: set<nat>,
                  n: nat, off: nat, tot: nat, k: nat, j: nat, stray: set<nat>, meta: nat)
    requires FsOk(t0, u0, o0, meta) && FsOk(t, now, o, meta) && Grows(t0, t) && MappedBelow(t, n, off + j)
    requires Tracked(bmapstart, t0, u0, o0, l0, t, o, l, n, off, tot, k, stray)
    ensures Shaped(t0) && n < |t0.inodes| && Room(t0, u0, n, off, j)
  {
    hide FsOk, Tracked, Grows, Grown, Ways, Room, MappedBelow;
    TrackedPair(bmapstart, t0, u0, o0, l0, t, now, o, l, n, off, tot, k, stray, meta);
    WaysMapped(t, n, off, j);
    MappedHadRoom(t0, u0, o0, t, now, o, meta, n, off, j);
  }

  lemma Stopped(bmapstart: nat, t0: Tree, u0: seq<bool>, o0: map<nat, Slot>, l0: set<nat>, t: Tree, now: seq<bool>,
                o: map<nat, Slot>, l: set<nat>,
                n: nat, off: nat, tot: nat, w: nat, avail: nat, src: seq<Byte>, meta: nat)
    requires FsOk(t0, u0, o0, meta) && FsOk(t, now, o, meta) && Grows(t0, t) && MappedBelow(t, n, off + tot)
    requires n < |t.inodes| == |t0.inodes|
    requires Tracked(bmapstart, t0, u0, o0, l0, t, o, l, n, off, tot, tot + 1, StrayBlock(t, n, off, tot, w))
    requires tot < |src| && tot <= avail && tot <= w && off + |src| <= MAXFILE * BSIZE && AtStart(off, tot)
    requires Shaped(t0) && Shaped(t)
    requires if Ptr(t, n, DataPath((off + tot) / BSIZE)) == 0 then w == tot && !Room(t0, u0, n, off, tot + 1)
             else w == avail < |src| && (off + tot) % BSIZE + (avail - tot) < BSIZE
    ensures !(|src| <= avail && Room(t0, u0, n, off, |src|))
    ensures w > tot <==> Strays(t0, u0, n, off, |src|, avail)
    ensures w > tot ==> Ptr(t, n, DataPath((off + tot) / BSIZE)) != 0
  {
    hide FsOk, Tracked, Grows, Grown, Room;
    if Ptr(t, n, DataPath((off + tot) / BSIZE)) == 0 {
      if Room(t0, u0, n, off, |src|) {
        RoomLess(t0, u0, n, off, tot + 1, |src|);
      }
      if avail > tot && Room(t0, u0, n, off, avail) {
        RoomLess(t0, u0, n, off, tot + 1, avail);
      }
    } else if avail > tot {
      MappedFurther(t, n, off + tot, off + avail);
      RoomSoFar(bmapstart, t0, u0, o0, l0, t, now, o, l, n, off, tot, tot + 1, avail, StrayBlock(t, n, off, tot, w),
                meta);
    }
  }

  lemma Finished(bmapstart: nat, t0: Tree, u0: seq<bool>, o0: map<nat, Slot>, l0: set<nat>, t: Tree, now: seq<bool>,
                 o: map<nat, Slot>, l: set<nat>,
                 n: nat, off: nat, avail: nat, src: seq<Byte>, meta: nat)
    requires FsOk(t0, u0, o0, meta) && FsOk(t, now, o, meta) && Grows(t0, t) && MappedBelow(t, n, off + |src|)
    requires |src| <= avail
    requires Tracked(bmapstart, t0, u0, o0, l0, t, o, l, n, off, |src|, |src|, {})
    ensures Shaped(t0) && n < |t0.inodes| && Room(t0, u0, n, off, |src|)
  {
    RoomSoFar(bmapstart, t0, u0, o0, l0, t, now, o, l, n, off, |src|, |src|, |src|, {}, meta);
  }

  // ---- how far a write gets ----

  /** Where `writei` can stop counting: at its ends and at the beginning of a block. */
  predicate Stop(off: nat, len: nat, p: nat) {
    p == 0 || p == len || (off + p) % BSIZE == 0
  }

  lemma NextStop(off: nat, len: nat, tot: nat, m: nat)
    requires tot < len
    requires m == if len - tot < BSIZE - (off + tot) % BSIZE then len - tot else BSIZE - (off + tot) % BSIZE
    ensures Stop(off, len, tot + m)
    ensures forall p: nat {:trigger Stop(off, len, p)} :: tot < p <= len && Stop(off, len, p) ==> p >= tot + m
  {
  }

  /** What a read that was cut short copied out: all that fits up to the beginning of a block. */
  ghost predicate CopiedUpTo(file: seq<Byte>, off: nat, want: nat, room: nat, out: seq<Byte>)
    requires off + want <= |file|
  {
    && |out| <= want && |out| <= room && out == file[off..off + |out|] && Stop(off, want, |out|)
    && forall p: nat {:trigger Stop(off, want, p)} :: |out| < p <= want && Stop(off, want, p) ==> p > room
  }

  /** `tot` is the last such place up to which the source can be read and the disk has room. */
  ghost predicate Furthest(t: Tree, used: seq<bool>, n: nat, off: nat, len: nat, avail: nat, tot: nat)
    requires Shaped(t) && n < |t.inodes|
  {
    && tot <= len && tot <= avail && Stop(off, len, tot) && Room(t, used, n, off, tot)
    && forall p: nat {:trigger Stop(off, len, p)} :: tot < p <= len && p <= avail && Stop(off, len, p) ==>
         !Room(t, used, n, off, p)
  }

  lemma WholeIsFurthest(t: Tree, used: seq<bool>, n: nat, off: nat, len: nat, avail: nat)
    requires Shaped(t) && n < |t.inodes| && len <= avail && Room(t, used, n, off, len)
    ensures Furthest(t, used, n, off, len, avail, len)
  {
  }

  lemma StoppedFurthest(bmapstart: nat, t0: Tree, u0: seq<bool>, o0: map<nat, Slot>, l0: set<nat>,
                        t: Tree, now: seq<bool>, o: map<nat, Slot>, l: set<nat>,
                        n: nat, off: nat, tot: nat, w: nat, avail: nat, len: nat, meta: nat)
    requires FsOk(t0, u0, o0, meta) && FsOk(t, now, o, meta) && Grows(t0, t) && MappedBelow(t, n, off + tot)
    requires n < |t.inodes| == |t0.inodes| && Shaped(t0) && Shaped(t)
    requires Tracked(bmapstart, t0, u0, o0, l0, t, o, l, n, off, tot, tot + 1, StrayBlock(t, n, off, tot, w))
    requires tot < len && tot <= avail && off + len <= MAXFILE * BSIZE && AtStart(off, tot)
    requires if Ptr(t, n, DataPath((off + tot) / BSIZE)) == 0 then !Room(t0, u0, n, off, tot + 1)
             else avail < len && (off + tot) % BSIZE + (avail - tot) < BSIZE
    ensures Furthest(t0, u0, n, off, len, avail, tot)
  {
    hide FsOk, Tracked, Grows, Grown, Room, MappedBelow, Ptr, DataPath;
    RoomSoFar(bmapstart, t0, u0, o0, l0, t, now, o, l, n, off, tot, tot + 1, tot, StrayBlock(t, n, off, tot, w), meta);
    forall p: nat | tot < p <= len && p <= avail && Stop(off, len, p) ensures !Room(t0, u0, n, off, p) {
      if Room(t0, u0, n, off, p) {
        RoomLess(t0, u0, n, off, tot + 1, p);
      }
    }
  }

  /** From state `t0` on, `i` bytes from `off` on were written completely. */
  ghost predicate Progress(t0: Tree, u0: seq<bool>, o0: map<nat, Slot>, t: Tree, u: seq<bool>, o: map<nat, Slot>,
                           meta: nat, n: nat, off: nat, i: nat) {
    Pair(t0, u0, o0, t, u, o, meta, n) && FreshIn(o0, o, n, Ways(off, i)) && MappedBelow(t, n, off + i)
  }

  lemma ProgressStart(t: Tree, u: seq<bool>, o: map<nat, Slot>, meta: nat, n: nat, off: nat)
    requires FsOk(t, u, o, meta) && n < |t.inodes| && off <= t.inodes[n].size
    ensures Progress(t, u, o, t, u, o, meta, n, off, 0)
  {
    assert MappedBelow(t, n, t.inodes[n].size);
  }

  lemma ProgressStep(t0: Tree, u0: seq<bool>, o0: map<nat, Slot>, t: Tree, u: seq<bool>, o: map<nat, Slot>,
                     v: Tree, vu: seq<bool>, vo: map<nat, Slot>, meta: nat, n: nat, off: nat, i: nat, k: nat)
    requires Progress(t0, u0, o0, t, u, o, meta, n, off, i) && FsOk(v, vu, vo, meta) && Grown(t, v)
    requires Extends(o, vo) && FreshIn(o, vo, n, Ways(off + i, k)) && n < |v.inodes| && off + i + k <= v.inodes[n].size
    ensures Progress(t0, u0, o0, v, vu, vo, meta, n, off, i + k)
  {
    hide Ways, Grown, Owned, BitmapExact;
    WaysJoin(off, i, k);
    GrownTrans(t0, t, v);
    GrownShape(t, v);
    SizeMapped(v, n, off + i + k);
  }

  lemma GrownShape(t: Tree, u: Tree)
    requires Grown(t, u)
    ensures Shaped(t) && Shaped(u) && |t.inodes| == |u.inodes| && |t.blocks| == |u.blocks|
  {
  }

  lemma SizeMapped(t: Tree, n: nat, limit: nat)
    requires FilesMapped(t) && n < |t.inodes| && limit <= t.inodes[n].size
    ensures MappedBelow(t, n, limit)
  {
    assert MappedBelow(t, n, t.inodes[n].size);
  }

  lemma ProgressRoom(t0: Tree, u0: seq<bool>, o0: map<nat, Slot>, t: Tree, u: seq<bool>, o: map<nat, Slot>,
                     meta: nat, n: nat, off: nat, i: nat, k: nat)
    requires Progress(t0, u0, o0, t, u, o, meta, n, off, i)
    ensures Shaped(t0) && Shaped(t) && n < |t0.inodes| == |t.inodes|
    ensures Room(t, u, n, off + i, k) <==> Room(t0, u0, n, off, i + k)
    ensures Room(t0, u0, n, off, i)
  {
    hide Ways, Grown, FsOk, Room, MappedBelow, Extends;
    WaysMapped(t, n, off, i);
    RoomAfter(t0, u0, o0, t, u, o, meta, n, off, i, k);
    MappedHadRoom(t0, u0, o0, t, u, o, meta, n, off, i);
  }

  /** How much of a request `filewrite` tries: all of it, or the whole chunks below the largest file size. */
  function Accepted(off: nat, len: nat): (r: nat)
    ensures r <= len
  {
    if off + len <= MAXFILE * BSIZE then len
    else if off > MAXFILE * BSIZE then 0 else (MAXFILE * BSIZE - off) / CHUNK * CHUNK
  }

  /** Where `filewrite` can stop counting: where `writei` can, and at the end of a chunk. */
  predicate FileStop(off: nat, len: nat, p: nat) {
    Stop(off, len, p) || p % CHUNK == 0
  }

  ghost predicate FileFurthest(t: Tree, used: seq<bool>, n: nat, off: nat, len: nat, avail: nat, j: nat)
    requires Shaped(t) && n < |t.inodes|
  {
    && j <= len && j <= avail && FileStop(off, len, j) && Room(t, used, n, off, j)
    && forall p: nat {:trigger FileStop(off, len, p)} :: j < p <= len && p <= avail && FileStop(off, len, p) ==>
         !Room(t, used, n, off, p)
  }

  /** What a chunk counts, added to the chunks before it, is how far a request that ends with the chunk gets. */
  lemma ChunkFurthest(t0: Tree, u0: seq<bool>, o0: map<nat, Slot>, t: Tree, u: seq<bool>, o: map<nat, Slot>,
                      meta: nat, n: nat, off: nat, i: nat, n1: nat, avail: nat, r: nat)
    requires Progress(t0, u0, o0, t, u, o, meta, n, off, i) && i % CHUNK == 0 && n1 <= CHUNK && i <= avail
    requires Shaped(t0) && Shaped(t) && n < |t0.inodes| == |t.inodes|
    requires Furthest(t, u, n, off + i, n1, avail - i, r)
    ensures FileFurthest(t0, u0, n, off, i + n1, avail, i + r)
  {
    hide Room, Progress;
    ProgressRoom(t0, u0, o0, t, u, o, meta, n, off, i, r);
    forall p: nat | i + r < p <= i + n1 && p <= avail && FileStop(off, i + n1, p) ensures !Room(t0, u0, n, off, p) {
      SameStop(off, i, n1, p);
      ProgressRoom(t0, u0, o0, t, u, o, meta, n, off, i, p - i);
      assert Stop(off + i, n1, p - i);
    }
  }

  lemma SameStop(off: nat, i: nat, n1: nat, p: nat)
    requires i % CHUNK == 0 && n1 <= CHUNK && i < p <= i + n1 && FileStop(off, i + n1, p)
    ensures Stop(off + i, n1, p - i)
  {
    if p % CHUNK == 0 {
      assert p - i == CHUNK;
    }
  }

  /** A request that was cut short in its first `m` bytes would not have got further had it been longer. */
  lemma LongerNoFurther(t: Tree, used: seq<bool>, n: nat, off: nat, m: nat, len: nat, avail: nat, j: nat)
    requires Shaped(t) && n < |t.inodes| && FileFurthest(t, used, n, off, m, avail, j) && j < m <= len
    ensures FileFurthest(t, used, n, off, len, avail, j)
  {
    hide Room;
    assert FileStop(off, m, m);
    forall p: nat | j < p <= len && p <= avail && FileStop(off, len, p) ensures !Room(t, used, n, off, p) {
      if p <= m {
        assert FileStop(off, m, p);
      } else if Room(t, used, n, off, p) {
        RoomLess(t, used, n, off, m, p);
      }
    }
  }

  lemma NextChunk(i: nat, n1: nat, len: nat)
    requires i < len && i % CHUNK == 0 && n1 == if len - i > CHUNK then CHUNK else len - i
    ensures (i + n1) % CHUNK == 0 || i + n1 == len
  {
  }

  /** A chunk that is refused or cut short ends the request. */
  lemma ShortWrite(t0: Tree, u0: seq<bool>, o0: map<nat, Slot>, t: Tree, u: seq<bool>, o: map<nat, Slot>,
                   meta: nat, n: nat, off: nat, i: nat, n1: nat, len: nat, avail: nat, r: int)
    requires Shaped(t0) && Shaped(t) && n < |t0.inodes| == |t.inodes| && off <= t0.inodes[n].size
    requires Progress(t0, u0, o0, t, u, o, meta, n, off, i) && i % CHUNK == 0 && i < len && i <= avail
    requires n1 == if len - i > CHUNK then CHUNK else len - i
    requires r == -1 <==> off + i + n1 > MAXFILE * BSIZE
    requires r == -1 || (0 <= r < n1 && Furthest(t, u, n, off + i, n1, avail - i, r))
    ensures FileFurthest(t0, u0, n, off, Accepted(off, len), avail, if r == -1 then i else i + r)
  {
    hide Room, Furthest, FileFurthest, Accepted, MappedBelow, Pair;
    ProgressRoom(t0, u0, o0, t, u, o, meta, n, off, i, 0);
    ProgressBelow(t0, u0, o0, t, u, o, meta, n, off, i);
    AcceptedAt(off, len, i, n1);
    if r != -1 {
      ChunkFurthest(t0, u0, o0, t, u, o, meta, n, off, i, n1, avail, r);
      LongerNoFurther(t0, u0, n, off, i + n1, Accepted(off, len), avail, i + r);
    } else {
      EndsThere(t0, u0, n, off, len, avail, i);
    }
  }

  lemma ProgressBelow(t0: Tree, u0: seq<bool>, o0: map<nat, Slot>, t: Tree, u: seq<bool>, o: map<nat, Slot>,
                      meta: nat, n: nat, off: nat, i: nat)
    requires Progress(t0, u0, o0, t, u, o, meta, n, off, i)
    ensures off + i <= MAXFILE * BSIZE
  {
  }

  lemma AcceptedAt(off: nat, len: nat, i: nat, n1: nat)
    requires i % CHUNK == 0 && i < len && n1 == (if len - i > CHUNK then CHUNK else len - i)
    requires off + i <= MAXFILE * BSIZE
    ensures if off + i + n1 <= MAXFILE * BSIZE then i + n1 <= Accepted(off, len) else Accepted(off, len) == i
  {
    assert CHUNK == 3072;
    var c, q := i / 3072, (MAXFILE * BSIZE - off) / 3072;
    assert i == 3072 * c && 3072 * q <= MAXFILE * BSIZE - off < 3072 * (q + 1);
  }

  lemma EndsThere(t: Tree, used: seq<bool>, n: nat, off: nat, len: nat, avail: nat, j: nat)
    requires Shaped(t) && n < |t.inodes| && j == Accepted(off, len) <= avail && Room(t, used, n, off, j)
    ensures FileFurthest(t, used, n, off, Accepted(off, len), avail, j)
  {
    hide Room, Accepted;
  }

  lemma WholeFile(t0: Tree, u0: seq<bool>, o0: map<nat, Slot>, t: Tree, u: seq<bool>, o: map<nat, Slot>,
                  meta: nat, n: nat, off: nat, len: nat, avail: nat)
    requires Progress(t0, u0, o0, t, u, o, meta, n, off, len) && len <= avail && off + len <= MAXFILE * BSIZE
    ensures Shaped(t0) && n < |t0.inodes| && FileFurthest(t0, u0, n, off, Accepted(off, len), avail, len)
  {
    hide Room;
    ProgressRoom(t0, u0, o0, t, u, o, meta, n, off, len, 0);
  }

  lemma AllCounted(t: Tree, used: seq<bool>, n: nat, off: nat, len: nat, avail: nat, j: nat)
    requires Shaped(t) && n < |t.inodes| && FileFurthest(t, used, n, off, Accepted(off, len), avail, j)
    ensures j == len <==> len == 0 || (off + len <= MAXFILE * BSIZE && len <= avail && Room(t, used, n, off, len))
  {
    hide Room;
    assert FileStop(off, len, len);
  }

  /** A new size moves no block. */
  lemma ResizeTracked(bmapstart: nat, t0: Tree, u0: seq<bool>, o0: map<nat, Slot>, l0: set<nat>, t: Tree,
                      o: map<nat, Slot>, l: set<nat>,
                      n: nat, off: nat, tot: nat, k: nat, stray: set<nat>, size: nat)
    requires Tracked(bmapstart, t0, u0, o0, l0, t, o, l, n, off, tot, k, stray)
    ensures Shaped(t) && Tracked(bmapstart, t0, u0, o0, l0, Resized(t, n, size), o, l, n, off, tot, k, stray)
    ensures NewParents(Resized(t, n, size), o0, o) == NewParents(t, o0, o)
    ensures DataLog(Resized(t, n, size), n, off, tot) == DataLog(t, n, off, tot)
  {
    hide Ways, LowestFirst, Fresh, NewBitmaps, DataPath;
    var v := Resized(t, n, size);
    forall m: nat, q | m < |t.inodes| && ValidPath(q) ensures Ptr(v, m, q) == Ptr(t, m, q) {
      PtrAfterResize(t, n, size, m, q);
    }
    forall b | b in o && b !in o0 && Nested(t, o[b]) ensures Nested(v, o[b]) && Above(v, o[b]) == Above(t, o[b]) {
    }
    assert forall b :: b in o && b !in o0 ==> (Nested(v, o[b]) <==> Nested(t, o[b]));
    assert NewParents(v, o0, o) == NewParents(t, o0, o);
    assert forall bn {:trigger DataPath(bn)} :: 0 <= bn < MAXFILE ==>
      Ptr(v, n, DataPath(bn)) == Ptr(t, n, DataPath(bn));
    assert DataLog(v, n, off, tot) == DataLog(t, n, off, tot);
  }

  lemma GrownAfter(t: Tree, u: Tree, n: nat, size: nat)
    requires Grows(t, u) && n < |u.inodes|
    ensures Grown(t, Resized(u, n, size))
  {
    forall m, q | 0 <= m < |t.inodes| && ValidPath(q) && Ptr(t, m, q) != 0
      ensures Ptr(Resized(u, n, size), m, q) == Ptr(t, m, q)
    {
      PtrAfterResize(u, n, size, m, q);
    }
  }

  lemma TrackedExtends(bmapstart: nat, t0: Tree, u0: seq<bool>, o0: map<nat, Slot>, l0: set<nat>, t: Tree,
                       o: map<nat, Slot>, l: set<nat>,
                       n: nat, off: nat, tot: nat, k: nat, stray: set<nat>, len: nat)
    requires Tracked(bmapstart, t0, u0, o0, l0, t, o, l, n, off, tot, k, stray) && k <= len
    ensures Extends(o0, o) && FreshIn(o0, o, n, Ways(off, len))
  {
    hide Ways, AllocLog, DataLog, LowestFirst, Confined;
    WaysMore(off, k, len);
  }

  lemma StrayResized(t: Tree, n: nat, off: nat, tot: nat, w: nat, size: nat)
    requires Shaped(t) && n < |t.inodes|
    ensures StrayBlock(Resized(t, n, size), n, off, tot, w) == StrayBlock(t, n, off, tot, w)
  {
    if off + tot < MAXFILE * BSIZE {
      PtrAfterResize(t, n, size, n, DataPath((off + tot) / BSIZE));
    }
  }

  /** The end of `writei`: the inode with its new size, and its block logged. */
  lemma FinishLog(bmapstart: nat, t0: Tree, u0: seq<bool>, o0: map<nat, Slot>, l0: set<nat>, t: Tree, now: seq<bool>,
                  o: map<nat, Slot>, l: set<nat>,
                  n: nat, off: nat, tot: nat, k: nat, stray: set<nat>, size: nat, iblock: nat, meta: nat)
    requires FsOk(t, now, o, meta) && Tracked(bmapstart, t0, u0, o0, l0, t, o, l, n, off, tot, k, stray)
    ensures var v := Resized(t, n, size);
      && l + {iblock} == l0 + AllocLog(bmapstart, v, o0, o) + DataLog(v, n, off, tot) + {iblock}
      && Confined(t0, v, l + {iblock}, stray)
      && forall m :: 0 <= m < |t0.inodes| && m != n ==> v.inodes[m] == t0.inodes[m]
  {
    hide FsOk, Ways, LowestFirst, Fresh, NewBitmaps, NewParents, DataLog;
    ResizeTracked(bmapstart, t0, u0, o0, l0, t, o, l, n, off, tot, k, stray, size);
  }

  /**
   The block in which uncounted bytes were left is in the log exactly when it was before the call or was
   allocated in it.
   */
  lemma StrayInLog(bmapstart: nat, t0: Tree, u0: seq<bool>, o0: map<nat, Slot>, l0: set<nat>, t: Tree, now: seq<bool>,
                   o: map<nat, Slot>, l: set<nat>,
                   n: nat, off: nat, tot: nat, k: nat, stray: set<nat>, iblock: nat, meta: nat)
    requires FsOk(t0, u0, o0, meta) && FsOk(t, now, o, meta) && Grows(t0, t) && MappedBelow(t, n, off + tot)
    requires Tracked(bmapstart, t0, u0, o0, l0, t, o, l, n, off, tot, k, stray) && Shaped(t) && Shaped(t0)
    requires n < |t.inodes| == |t0.inodes|
    requires off + tot < MAXFILE * BSIZE && AtStart(off, tot) && Ptr(t, n, DataPath((off + tot) / BSIZE)) != 0
    requires Apart(bmapstart, iblock, meta, |t.blocks|)
    ensures var p := DataPath((off + tot) / BSIZE);
      Ptr(t, n, p) in l + {iblock} <==> Ptr(t, n, p) in l0 || Ptr(t0, n, p) == 0
  {
    hide FsOk, Grows, Grown, Ways, AllocLog, DataLog, MappedBelow, LowestFirst, Confined, Apart;
    TrackedPair(bmapstart, t0, u0, o0, l0, t, now, o, l, n, off, tot, k, stray, meta);
    var here := (off + tot) / BSIZE;
    NotCountedYet(t, now, o, meta, n, off, tot);
    AllocatedHere(bmapstart, t0, u0, o0, t, now, o, meta, n, here, iblock);
  }

  lemma NotCountedYet(t: Tree, now: seq<bool>, o: map<nat, Slot>, meta: nat, n: nat, off: nat, tot: nat)
    requires FsOk(t, now, o, meta) && Shaped(t) && n < |t.inodes| && off + tot < MAXFILE * BSIZE && AtStart(off, tot)
    requires Ptr(t, n, DataPath((off + tot) / BSIZE)) != 0
    ensures Ptr(t, n, DataPath((off + tot) / BSIZE)) !in DataLog(t, n, off, tot)
  {
    hide FilesMapped, BitmapExact, DataPath;
    var here := (off + tot) / BSIZE;
    RangeStep(off, tot, 1, here);
    if Ptr(t, n, DataPath(here)) in DataLog(t, n, off, tot) {
      var bn: nat :| bn < MAXFILE && InRange(bn, off, tot) && Ptr(t, n, DataPath(bn)) == Ptr(t, n, DataPath(here));
      assert Slot(n, DataPath(bn)) == Slot(n, DataPath(here));
      DataPathInjective(bn, here);
    }
  }

  /** A mapped data block is logged by allocations exactly if it is one of the new blocks. */
  lemma AllocatedHere(bmapstart: nat, t0: Tree, u0: seq<bool>, o0: map<nat, Slot>, t: Tree, now: seq<bool>,
                      o: map<nat, Slot>, meta: nat,
                      n: nat, bn: nat, iblock: nat)
    requires Pair(t0, u0, o0, t, now, o, meta, n) && bn < MAXFILE && Ptr(t, n, DataPath(bn)) != 0
    requires Apart(bmapstart, iblock, meta, |t.blocks|)
    ensures var b := Ptr(t, n, DataPath(bn));
      b != iblock && (b in AllocLog(bmapstart, t, o0, o) <==> Ptr(t0, n, DataPath(bn)) == 0)
  {
    hide FilesMapped, Grown, DataPath, Apart, NewParents, NewBitmaps;
    var b := Ptr(t, n, DataPath(bn));
    assert b in o && o[b] == Slot(n, DataPath(bn)) && meta <= b;
    DataNotParent(t, now, o0, o, meta, n, bn);
    FreshWasFree(t0, u0, o0, t, now, o, meta, n);
    BitmapsLow(bmapstart, u0, o0, o, iblock, meta, |t.blocks|);
    if b in o0 {
      assert Ptr(t0, n, DataPath(bn)) == b;
    } else {
      FilledWasEmpty(t0, u0, o0, t, now, o, meta, n, b);
    }
  }

  lemma DataNotParent(t: Tree, now: seq<bool>, o0: map<nat, Slot>, o: map<nat, Slot>, meta: nat, n: nat, bn: nat)
    requires FsOk(t, now, o, meta) && Shaped(t) && n < |t.inodes| && bn < MAXFILE && Ptr(t, n, DataPath(bn)) != 0
    ensures Ptr(t, n, DataPath(bn)) !in NewParents(t, o0, o)
  {
    hide FilesMapped, BitmapExact, DataPath;
    var b := Ptr(t, n, DataPath(bn));
    if b in NewParents(t, o0, o) {
      var c :| c in o && c !in o0 && Nested(t, o[c]) && Above(t, o[c]) == b;
      DataPathIsLeaf(bn, o[c].path);
    }
  }

  /** What a complete `writei` logged, counted from the state before. */
  lemma CompleteCount(bmapstart: nat, t0: Tree, u0: seq<bool>, o0: map<nat, Slot>, l0: set<nat>, t: Tree,
                      now: seq<bool>,
                      o: map<nat, Slot>, l: set<nat>,
                      n: nat, off: nat, tot: nat, stray: set<nat>, iblock: nat, meta: nat)
    requires FsOk(t0, u0, o0, meta) && FsOk(t, now, o, meta) && Grows(t0, t) && MappedBelow(t, n, off + tot)
    requires Tracked(bmapstart, t0, u0, o0, l0, t, o, l, n, off, tot, tot, stray) && Shaped(t0) && n < |t0.inodes|
    requires l0 == {} && Apart(bmapstart, iblock, meta, |t0.blocks|)
    ensures |l + {iblock}| == LogCount(bmapstart, t0, u0, n, off, tot)
  {
    hide FsOk, Grows, Grown, Ways, AllocLog, DataLog, MappedBelow, LowestFirst, Confined, Apart, LogCount;
    TrackedPair(bmapstart, t0, u0, o0, l0, t, now, o, l, n, off, tot, tot, stray, meta);
    WaysMapped(t, n, off, tot);
    ExactCount(bmapstart, t0, u0, o0, t, now, o, meta, n, off, tot, iblock);
  }

  /** What a `writei` of at most one chunk logged, complete or not. */
  lemma ChunkBound(bmapstart: nat, t0: Tree, u0: seq<bool>, o0: map<nat, Slot>, l0: set<nat>, t: Tree, now: seq<bool>,
                   o: map<nat, Slot>, l: set<nat>,
                   n: nat, off: nat, tot: nat, k: nat, stray: set<nat>, iblock: nat, meta: nat)
    requires FsOk(t0, u0, o0, meta) && FsOk(t, now, o, meta) && Grows(t0, t) && MappedBelow(t, n, off + tot)
    requires Tracked(bmapstart, t0, u0, o0, l0, t, o, l, n, off, tot, k, stray) && tot <= k <= CHUNK
    ensures |(l + {iblock}) - l0| <= 4 + 3 + 1 + |NewBitmaps(bmapstart, o0, o)|
    ensures |NewBitmaps(bmapstart, o0, o)| <= 4 + 3
  {
    hide FsOk, Grows, Grown, Ways, DataLog, MappedBelow, LowestFirst, Confined, Fresh, NewParents, NewBitmaps;
    TrackedPair(bmapstart, t0, u0, o0, l0, t, now, o, l, n, off, tot, k, stray, meta);
    AreaBound(t0, u0, o0, t, now, o, meta, n, off, tot, k);
    var a, b := AreaLog(t, o0, o, n, off, tot), NewBitmaps(bmapstart, o0, o);
    SubsetSize((l + {iblock}) - l0, a + (b + {iblock}));
    NewBitmapsAre(bmapstart, o0, o);
    BitmapsSize(bmapstart, Fresh(o0, o));
    SubsetSize(Fresh(o0, o), a);
  }

  lemma AreaBound(t0: Tree, u0: seq<bool>, o0: map<nat, Slot>, t: Tree, now: seq<bool>, o: map<nat, Slot>, meta: nat,
                  n: nat, off: nat, tot: nat, k: nat)
    requires Pair(t0, u0, o0, t, now, o, meta, n) && (forall b :: b in o && b !in o0 ==> o[b].path in Ways(off, k))
    requires MappedBelow(t, n, off + tot) && tot <= k <= 3 * BSIZE
    ensures |AreaLog(t, o0, o, n, off, tot)| <= 4 + 3
  {
    hide FsOk, Grows, Grown, Ways, AreaLog, MappedBelow;
    var a := AreaLog(t, o0, o, n, off, tot);
    forall x | x in a ensures x in o && o[x].inum == n && o[x].path in Ways(off, k) && Ptr(t, n, o[x].path) == x {
      AreaOnWay(t0, u0, o0, t, now, o, meta, n, off, tot, k, x);
    }
    ImageSize(a, o);
    WaysBound(off, k);
    SubsetSize(set b | b in a :: o[b].path, Ways(off, k));
  }

  lemma AreaOnWay(t0: Tree, u0: seq<bool>, o0: map<nat, Slot>, t: Tree, now: seq<bool>, o: map<nat, Slot>, meta: nat,
                  n: nat, off: nat, tot: nat, k: nat, x: nat)
    requires Pair(t0, u0, o0, t, now, o, meta, n) && (forall b :: b in o && b !in o0 ==> o[b].path in Ways(off, k))
    requires MappedBelow(t, n, off + tot) && tot <= k && x in AreaLog(t, o0, o, n, off, tot)
    ensures x in o && o[x].inum == n && o[x].path in Ways(off, k) && ValidPath(o[x].path) && Ptr(t, n, o[x].path) == x
  {
    hide Grows, Grown, Ways, FilesMapped, DataPath;
    if x in Fresh(o0, o) {
      FilledWasEmpty(t0, u0, o0, t, now, o, meta, n, x);
    } else if x in NewParents(t, o0, o) {
      var b :| b in o && b !in o0 && Nested(t, o[b]) && Above(t, o[b]) == x;
      FilledWasEmpty(t0, u0, o0, t, now, o, meta, n, b);
      PrefixMapped(t, n, o[b].path);
      WaysShape(off, k, o[b].path);
      assert o[x] == Slot(n, Parent(o[b].path));
    } else {
      var bn: nat :| bn < MAXFILE && InRange(bn, off, tot) && Ptr(t, n, DataPath(bn)) == x;
      assert InRange(bn, off, k);
      DataOnWay(off, k, bn);
      assert o[x] == Slot(n, DataPath(bn));
    }
  }

  /** The block that holds byte `tot` of the write is in the log exactly if it was before or was allocated since. */
  ghost predicate LoggedIfNew(t0: Tree, l0: set<nat>, t: Tree, l: set<nat>, n: nat, off: nat, tot: nat) {
    && Shaped(t0) && Shaped(t) && n < |t0.inodes| == |t.inodes| && off + tot < MAXFILE * BSIZE
    && var p := DataPath((off + tot) / BSIZE);
    (Ptr(t, n, p) in l <==> Ptr(t, n, p) in l0 || Ptr(t0, n, p) == 0)
  }

  lemma FinishCounts(bmapstart: nat, t0: Tree, u0: seq<bool>, o0: map<nat, Slot>, l0: set<nat>, t: Tree, now: seq<bool>,
                     o: map<nat, Slot>, l: set<nat>,
                     n: nat, off: nat, tot: nat, w: nat, stray: set<nat>, len: nat, size: nat, iblock: nat, meta: nat)
    requires FsOk(t0, u0, o0, meta) && FsOk(t, now, o, meta) && Grows(t0, t) && MappedBelow(t, n, off + tot)
    requires tot <= len
    requires Tracked(bmapstart, t0, u0, o0, l0, t, o, l, n, off, tot, if tot == len then tot else tot + 1, stray)
    requires Shaped(t) && Shaped(t0) && n < |t.inodes| == |t0.inodes| && off + len <= MAXFILE * BSIZE
    requires w > tot ==> tot < len && AtStart(off, tot) && Ptr(t, n, DataPath((off + tot) / BSIZE)) != 0
    ensures w > tot && Apart(bmapstart, iblock, meta, |t.blocks|) ==>
      LoggedIfNew(t0, l0, Resized(t, n, size), l + {iblock}, n, off, tot)
    ensures tot == len && l0 == {} && Apart(bmapstart, iblock, meta, |t.blocks|) ==>
      |l + {iblock}| == LogCount(bmapstart, t0, u0, n, off, len)
    ensures len <= CHUNK ==>
      |(l + {iblock}) - l0| <= 4 + 3 + 1 + |NewBitmaps(bmapstart, o0, o)| && |NewBitmaps(bmapstart, o0, o)| <= 4 + 3
  {
    hide FsOk, Tracked, Grows, Grown, MappedBelow, Apart, LogCount, NewBitmaps, Ptr;
    WritingShape(t0, t, now, o, meta);
    var k := if tot == len then tot else tot + 1;
    if w > tot && Apart(bmapstart, iblock, meta, |t.blocks|) {
      StrayInLog(bmapstart, t0, u0, o0, l0, t, now, o, l, n, off, tot, k, stray, iblock, meta);
      PtrAfterResize(t, n, size, n, DataPath((off + tot) / BSIZE));
    }
    if tot == len && l0 == {} && Apart(bmapstart, iblock, meta, |t.blocks|) {
      CompleteCount(bmapstart, t0, u0, o0, l0, t, now, o, l, n, off, tot, stray, iblock, meta);
    }
    if len <= CHUNK {
      ChunkBound(bmapstart, t0, u0, o0, l0, t, now, o, l, n, off, tot, k, stray, iblock, meta);
    }
  }

  /** Position `o` of a file below its size lies in a mapped block. */
  lemma BelowSizeIsMapped(t: Tree, used: seq<bool>, owner: map<nat, Slot>, meta: nat, n: nat, o: nat)
    requires FsOk(t, used, owner, meta) && n < |t.inodes| && o < t.inodes[n].size
    ensures Shaped(t) && o / BSIZE < MAXFILE && Ptr(t, n, DataPath(o / BSIZE)) != 0
    ensures Ptr(t, n, DataPath(o / BSIZE)) < |t.blocks|
  {
    assert MappedBelow(t, n, t.inodes[n].size);
  }

  /** Bytes `o` to `o + m` of a file, inside one block, are that block's bytes. */
  lemma BlockSlice(t: Tree, n: nat, o: nat, m: nat)
    requires Shaped(t) && n < |t.inodes| && o + m <= t.inodes[n].size <= MAXFILE * BSIZE && o % BSIZE + m <= BSIZE
    requires m > 0
    requires var a := Ptr(t, n, DataPath(o / BSIZE)); a != 0 && a < |t.blocks|
    ensures t.blocks[Ptr(t, n, DataPath(o / BSIZE))][o % BSIZE..o % BSIZE + m] == Contents(t, n)[o..o + m]
  {
    var a := Ptr(t, n, DataPath(o / BSIZE));
    var x, y := t.blocks[a][o % BSIZE..o % BSIZE + m], Contents(t, n)[o..o + m];
    forall i | 0 <= i < m ensures x[i] == y[i] {
      assert (o + i) / BSIZE == o / BSIZE && (o + i) % BSIZE == o % BSIZE + i;
    }
  }

  lemma SliceJoin(s: seq<Byte>, a: nat, b: nat, c: nat)
    requires a <= b <= c <= |s|
    ensures s[a..b] + s[b..c] == s[a..c]
  {
  }

  lemma FsShaped(t: Tree, used: seq<bool>, owner: map<nat, Slot>, meta: nat)
    requires FsOk(t, used, owner, meta)
    ensures Shaped(t) && |used| == |t.blocks|
    ensures forall n :: 0 <= n < |t.inodes| ==> t.inodes[n].size <= MAXFILE * BSIZE
  {
    forall n | 0 <= n < |t.inodes| ensures t.inodes[n].size <= MAXFILE * BSIZE {
      assert MappedBelow(t, n, t.inodes[n].size);
    }
  }

  /** What the invariant says about one slot and about block 0. */
  lemma FsFacts(t: Tree, used: seq<bool>, owner: map<nat, Slot>, meta: nat, n: nat, p: Path, h: nat)
    requires FsOk(t, used, owner, meta) && n < |t.inodes| && ValidPath(p)
    requires |p| > 1 ==> h == Ptr(t, n, Parent(p)) && h != 0
    ensures Shaped(t) && |used| == |t.blocks| && |used| > 0 && used[0]
    ensures |p| > 1 ==> h < |t.blocks|
    ensures Ptr(t, n, p) == if |p| == 1 then t.inodes[n].addrs[p[0]] else Entry(t.blocks[h], Last(p))
    ensures Ptr(t, n, p) < |t.blocks|
  {
  }

  /** Allocating a free block `b`, zeroing it and putting it in an empty slot. */
  lemma AllocStep(t: Tree, used: seq<bool>, owner: map<nat, Slot>, meta: nat, n: nat, p: Path, b: nat, z: Block)
    requires FsOk(t, used, owner, meta) && n < |t.inodes| && ValidPath(p) && Ptr(t, n, p) == 0
    requires |p| > 1 ==> Ptr(t, n, Parent(p)) != 0
    requires b < |used| && !used[b] && IsZero(z)
    ensures b !in owner && (|p| > 1 ==> b != Ptr(t, n, Parent(p)) < |t.blocks|)
    ensures var m := t.(blocks := t.blocks[b := z]);
      && Shaped(m) && (|p| > 1 ==> Ptr(m, n, Parent(p)) == Ptr(t, n, Parent(p)))
      && var u := Store(m, n, p, b);
      && FsOk(u, used[b := true], owner[b := Slot(n, p)], meta)
      && Evolved(t, u, owner, owner[b := Slot(n, p)]) && Ptr(u, n, p) == b
  {
    ZeroKeeps(t, owner, meta, b, z);
    var m := t.(blocks := t.blocks[b := z]);
    if |p| > 1 {
      assert Ptr(m, n, Parent(p)) == Ptr(t, n, Parent(p));
      assert Ptr(t, n, Parent(p)) in owner;
    }
    assert Ptr(m, n, p) == Ptr(t, n, p);
    FillKeeps(m, owner, meta, n, p, b);
    var u := Store(m, n, p, b);
    GrowsTrans(t, m, u);
    SameBytesTrans(t, m, u);
    GrowsKeepsFiles(t, u);
  }

  /** What that allocation logs. */
  lemma AllocLogged(bmapstart: nat, t: Tree, used: seq<bool>, owner: map<nat, Slot>, l0: set<nat>, meta: nat,
                    n: nat, p: Path, b: nat, z: Block, h: nat)
    requires FsOk(t, used, owner, meta) && n < |t.inodes| && ValidPath(p) && Ptr(t, n, p) == 0
    requires |p| > 1 ==> h == Ptr(t, n, Parent(p)) && h != 0
    requires b < |used| && !used[b] && (forall x :: 0 <= x < b ==> used[x]) && IsZero(z)
    ensures var m := t.(blocks := t.blocks[b := z]);
      && Shaped(m) && (|p| > 1 ==> 0 < Ptr(m, n, Parent(p)) == h < |m.blocks|)
      && Allocated(bmapstart, t, used, owner, l0, Store(m, n, p, b), owner[b := Slot(n, p)],
                   l0 + {b / BPB + bmapstart, b} + (if |p| > 1 then {h} else {}), n, {p})
  {
    hide Owned, BitmapExact, FilesMapped, Evolved, Allocated, IsZero;
    FsFacts(t, used, owner, meta, n, p, h);
    AllocStep(t, used, owner, meta, n, p, b, z);
    var m := t.(blocks := t.blocks[b := z]);
    var u, l := Store(m, n, p, b), l0 + {b / BPB + bmapstart, b} + (if |p| > 1 then {h} else {});
    if |p| > 1 {
      EvolvedKeeps(t, u, owner, owner[b := Slot(n, p)], n, Parent(p));
    }
    OneAllocated(bmapstart, t, used, owner, l0, meta, u, l, n, p, b, h);
  }
}
