/**
 The buffer cache of kernel/bio.c: NBUF buffers on a circular, doubly linked list kept in
 most-recently-used order, in front of one disk.

 The ghost field `view` is the flat block map that callers believe in. The invariant
 says that the cache and the disk together always implement it: a valid buffer holds
 `view`'s contents, and a block whose disk copy is out of date is in a buffer that is
 referenced and so cannot be recycled, apart from the blocks in `lost`: their last holder
 let go of them with changes that were neither written nor pinned, and once their buffer
 is recycled they are again what the disk holds.
 */
module BufferCache {
  import opened CrashSafety
  import opened Params
  import opened Sets

  const HEAD := NBUF
  const ROOTDEV := 1

  datatype Buf = Buf(valid: bool, dev: nat, blockno: nat, locked: bool, refcnt: nat, data: Block)

  // ---- the LRU list: the `prev` and `next` fields of the buffers and of the list head ----

  datatype Links = Links(next: seq<nat>, prev: seq<nat>) {
    predicate Sized() {
      && |next| == NBUF + 1 && |prev| == NBUF + 1
      && (forall i :: 0 <= i <= NBUF ==> next[i] <= NBUF)
      && (forall i :: 0 <= i <= NBUF ==> prev[i] <= NBUF)
    }

    /** Take `b` out: its two neighbours point to each other. */
    function Unlink(b: nat): (r: Links)
      requires Sized() && b <= NBUF
      ensures r.Sized()
    {
      Links(next[prev[b] := next[b]], prev[next[b] := prev[b]])
    }

    /** Put `b` in right after the head. */
    function PushFront(b: nat): (r: Links)
      requires Sized() && b < NBUF
      ensures r.Sized()
    {
      var first := next[HEAD];
      Links(next[b := first][HEAD := b], prev[b := HEAD][first := b])
    }
  }

  function Following(ring: seq<nat>, k: nat): nat
    requires k < |ring|
  {
    if k + 1 == |ring| then ring[0] else ring[k + 1]
  }

  predicate Distinct(s: seq<nat>) {
    forall j, k :: 0 <= j < k < |s| ==> s[j] != s[k]
  }

  /** `ring` is the list read along `next` from the head, and `prev` is its mirror image. */
  predicate Linked(l: Links, ring: seq<nat>) {
    && l.Sized()
    && |ring| > 0 && ring[0] == HEAD && Distinct(ring)
    && (forall k :: 0 <= k < |ring| ==> ring[k] <= NBUF)
    && (forall k {:trigger Following(ring, k)} :: 0 <= k < |ring| ==>
          l.next[ring[k]] == Following(ring, k) && l.prev[Following(ring, k)] == ring[k])
  }

  lemma UnlinkKeepsRing(l: Links, ring: seq<nat>, j: nat)
    requires Linked(l, ring) && 0 < j < |ring|
    ensures Linked(l.Unlink(ring[j]), ring[..j] + ring[j + 1..])
  {
    var out := ring[..j] + ring[j + 1..];
    assert Following(ring, j - 1) == ring[j];
    var m := l.Unlink(ring[j]);
    assert Distinct(out);
    forall k | 0 <= k < |out|
      ensures m.next[out[k]] == Following(out, k) && m.prev[Following(out, k)] == out[k]
    {
      var at := if k < j then k else k + 1;
      assert out[k] == ring[at];
      assert l.next[ring[at]] == Following(ring, at);
      assert l.next[ring[j]] == Following(ring, j);
    }
  }

  lemma PushKeepsRing(l: Links, ring: seq<nat>, b: nat)
    requires Linked(l, ring) && b < NBUF && b !in ring
    ensures Linked(l.PushFront(b), [HEAD, b] + ring[1..])
  {
    var out := [HEAD, b] + ring[1..];
    var m := l.PushFront(b);
    assert l.next[ring[0]] == Following(ring, 0);
    assert Distinct(out);
    forall k | 0 <= k < |out|
      ensures m.next[out[k]] == Following(out, k) && m.prev[Following(out, k)] == out[k]
    {
      if k >= 2 {
        assert out[k] == ring[k - 1];
        assert Following(out, k) == Following(ring, k - 1);
      }
    }
  }

  /** The list order after `brelse` moves the buffer at position `j` to the front. */
  function MovedToFront(ring: seq<nat>, j: nat): (r: seq<nat>)
    requires 0 < j < |ring|
    ensures |r| == |ring|
  {
    [ring[0], ring[j]] + ring[1..j] + ring[j + 1..]
  }

  lemma Shuffled(a: seq<nat>, b: seq<nat>, c: seq<nat>, d: seq<nat>)
    ensures multiset(a + c + b + d) == multiset(a + b + c + d)
  {
  }

  /** Moving a buffer to the front loses and duplicates nothing, and keeps the others in order. */
  lemma MoveIsPermutation(ring: seq<nat>, j: nat)
    requires 0 < j < |ring|
    ensures multiset(MovedToFront(ring, j)) == multiset(ring)
    ensures MovedToFront(ring, j)[2..] == ring[1..j] + ring[j + 1..]
  {
    var a, b, c, d := [ring[0]], ring[1..j], [ring[j]], ring[j + 1..];
    assert ring == a + b + c + d && MovedToFront(ring, j) == a + c + b + d;
    Shuffled(a, b, c, d);
    assert (a + c + b + d)[2..] == b + d;
  }

  lemma MoveKeepsRing(l: Links, ring: seq<nat>, j: nat)
    requires Linked(l, ring) && 0 < j < |ring|
    ensures Linked(l.Unlink(ring[j]).PushFront(ring[j]), MovedToFront(ring, j))
  {
    var out := ring[..j] + ring[j + 1..];
    UnlinkKeepsRing(l, ring, j);
    assert ring[j] !in out;
    PushKeepsRing(l.Unlink(ring[j]), out, ring[j]);
    assert [HEAD, ring[j]] + out[1..] == MovedToFront(ring, j);
  }

  // ---- the cache ----

  predicate Caches(b: Buf, dev: nat, blockno: nat) {
    b.dev == dev && b.blockno == blockno
  }

  /** The buffer holds the block's contents and is not a candidate for recycling. */
  predicate Keeps(b: Buf, blockno: nat) {
    Caches(b, ROOTDEV, blockno) && b.valid && b.refcnt > 0
  }

  /** The calling process has the buffer locked by `bread`. */
  predicate Held(b: Buf, blockno: nat) {
    Keeps(b, blockno) && b.locked
  }

  predicate IsCached(bufs: seq<Buf>, dev: nat, blockno: nat)
    requires |bufs| == NBUF
  {
    exists i :: 0 <= i < NBUF && Caches(bufs[i], dev, blockno)
  }

  predicate IsLocked(bufs: seq<Buf>, blockno: nat)
    requires |bufs| == NBUF
  {
    exists i :: 0 <= i < NBUF && Caches(bufs[i], ROOTDEV, blockno) && bufs[i].locked
  }

  /** When `bget` panics: the block is not cached and no buffer can be recycled. */
  predicate AllBusy(bufs: seq<Buf>, dev: nat, blockno: nat)
    requires |bufs| == NBUF
  {
    forall i :: 0 <= i < NBUF ==> bufs[i].refcnt > 0 && !Caches(bufs[i], dev, blockno)
  }

  predicate AllReferenced(bufs: seq<Buf>, part: seq<nat>)
    requires |bufs| == NBUF
  {
    forall j :: 0 <= j < |part| && part[j] < NBUF ==> bufs[part[j]].refcnt > 0
  }

  /** `r` is unreferenced and every buffer used less recently is referenced. */
  predicate LeastRecentlyUnused(bufs: seq<Buf>, ring: seq<nat>, r: nat)
    requires |bufs| == NBUF && |ring| == NBUF + 1
  {
    && r < NBUF && bufs[r].refcnt == 0
    && exists k :: 0 < k < |ring| && ring[k] == r && AllReferenced(bufs, ring[k + 1..])
  }

  predicate Unique(bufs: seq<Buf>)
    requires |bufs| == NBUF
  {
    forall i, j {:trigger Caches(bufs[j], bufs[i].dev, bufs[i].blockno)} ::
      0 <= i < j < NBUF && bufs[i].dev != 0 ==> !Caches(bufs[j], bufs[i].dev, bufs[i].blockno)
  }

  /** The buffer is where the contents of a block that is out of date on disk are. */
  predicate Backs(b: Buf, blockno: nat, lost: set<nat>) {
    Caches(b, ROOTDEV, blockno) && b.valid && (b.refcnt > 0 || blockno in lost)
  }

  predicate Coherent(bufs: seq<Buf>, disk: Disk, view: Disk, lost: set<nat>)
    requires |bufs| == NBUF
  {
    && |view| == |disk|
    && (forall i :: 0 <= i < NBUF && bufs[i].dev == ROOTDEV && bufs[i].valid ==>
          bufs[i].blockno < |view| && bufs[i].data == view[bufs[i].blockno])
    && (forall b :: 0 <= b < |disk| && disk[b] != view[b] ==> exists i :: 0 <= i < NBUF && Backs(bufs[i], b, lost))
  }

  /** `refcnt` is exactly the number of `bget`s not yet released plus the number of pins. */
  predicate Counted(bufs: seq<Buf>, holds: seq<nat>, pins: seq<nat>)
    requires |bufs| == NBUF
  {
    && |holds| == NBUF && |pins| == NBUF
    && forall i :: 0 <= i < NBUF ==> bufs[i].refcnt == holds[i] + pins[i] && (bufs[i].locked ==> holds[i] > 0)
  }

  // ---- keeping the invariant ----

  lemma {:induction false} DistinctCardinality(s: seq<nat>)
    requires Distinct(s)
    ensures |Elements(s)| == |s|
  {
    if s == [] {
      assert Elements(s) == {};
    } else {
      var init, last := s[..|s| - 1], s[|s| - 1];
      DistinctCardinality(init);
      assert Elements(s) == Elements(init) + {last};
      assert last !in Elements(init);
    }
  }

  /** `n` distinct indices below `n` are all of them. */
  lemma AllIndices(s: seq<nat>, n: nat)
    requires |s| == n && Distinct(s)
    requires forall k :: 0 <= k < |s| ==> s[k] < n
    ensures forall i :: 0 <= i < n ==> i in s
  {
    DistinctCardinality(s);
    forall i | 0 <= i < n ensures i in s {
      if i !in s {
        SubsetSize(Elements(s), UpTo(0, n) - {i});
      }
    }
  }

  predicate ValidHoldsView(bufs: seq<Buf>, view: Disk)
    requires |bufs| == NBUF
  {
    forall i :: 0 <= i < NBUF && bufs[i].dev == ROOTDEV && bufs[i].valid ==>
      bufs[i].blockno < |view| && bufs[i].data == view[bufs[i].blockno]
  }

  lemma UniqueKept(s: seq<Buf>, t: seq<Buf>)
    requires |s| == |t| == NBUF && Unique(s)
    requires forall i :: 0 <= i < NBUF ==> t[i].dev == s[i].dev && t[i].blockno == s[i].blockno
    ensures Unique(t)
  {
    forall i, j | 0 <= i < j < NBUF && t[i].dev != 0 ensures !Caches(t[j], t[i].dev, t[i].blockno) {
      assert !Caches(s[j], s[i].dev, s[i].blockno);
    }
  }

  /** A step that keeps every valid buffer that is referenced or holds a lost change keeps the cache coherent. */
  lemma KeptBy(s: seq<Buf>, t: seq<Buf>, disk: Disk, view: Disk, lost: set<nat>)
    requires |s| == NBUF && |t| == NBUF
    requires Coherent(s, disk, view, lost) && ValidHoldsView(t, view)
    requires forall i :: 0 <= i < NBUF && Backs(s[i], s[i].blockno, lost) ==> Backs(t[i], s[i].blockno, lost)
    ensures Coherent(t, disk, view, lost)
  {
    forall b | 0 <= b < |disk| && disk[b] != view[b] ensures exists i :: 0 <= i < NBUF && Backs(t[i], b, lost) {
      var i :| 0 <= i < NBUF && Backs(s[i], b, lost);
      assert Backs(t[i], b, lost);
    }
  }

  /** Dropping a reference keeps the cache coherent; the last one to a block that is out of date loses the change. */
  lemma ReleasedKeeps(s: seq<Buf>, t: seq<Buf>, disk: Disk, view: Disk, lost: set<nat>, r: nat, lost': set<nat>)
    requires |s| == NBUF && |t| == NBUF && r < NBUF
    requires Coherent(s, disk, view, lost) && ValidHoldsView(t, view) && lost <= lost'
    requires s[r].dev == ROOTDEV && s[r].valid && s[r].blockno < |disk|
    requires forall i :: 0 <= i < NBUF && i != r && Backs(s[i], s[i].blockno, lost) ==> Backs(t[i], s[i].blockno, lost)
    requires Backs(t[r], s[r].blockno, lost') || disk[s[r].blockno] == view[s[r].blockno]
    ensures Coherent(t, disk, view, lost')
  {
    forall b | 0 <= b < |disk| && disk[b] != view[b] ensures exists i :: 0 <= i < NBUF && Backs(t[i], b, lost') {
      var i :| 0 <= i < NBUF && Backs(s[i], b, lost);
      assert Backs(t[i], b, lost');
    }
  }

  /** The view when an unreferenced buffer is recycled: a lost change is gone. */
  function AfterRecycling(view: Disk, disk: Disk, lost: set<nat>, b: Buf): (r: Disk)
    ensures |r| == |view|
    ensures lost == {} ==> r == view
  {
    if b.dev == ROOTDEV && b.valid && b.blockno in lost && b.blockno < |view| == |disk|
    then view[b.blockno := disk[b.blockno]] else view
  }

  lemma RecycledKeeps(s: seq<Buf>, t: seq<Buf>, disk: Disk, view: Disk, lost: set<nat>, r: nat)
    requires |s| == NBUF && r < NBUF && Coherent(s, disk, view, lost) && Unique(s) && s[r].refcnt == 0
    requires |t| == NBUF && t == s[r := t[r]] && !t[r].valid
    ensures Coherent(t, disk, AfterRecycling(view, disk, lost, s[r]), lost)
  {
    var after := AfterRecycling(view, disk, lost, s[r]);
    if s[r].dev == ROOTDEV {
      OnlyOneCopy(s, r, s[r].blockno);
    }
    forall b | 0 <= b < |disk| && disk[b] != after[b] ensures exists i :: 0 <= i < NBUF && Backs(t[i], b, lost) {
      var i :| 0 <= i < NBUF && Backs(s[i], b, lost);
      assert Backs(t[i], b, lost);
    }
  }

  lemma OnlyOneCopy(bufs: seq<Buf>, r: nat, blockno: nat)
    requires |bufs| == NBUF && r < NBUF && Unique(bufs) && Caches(bufs[r], ROOTDEV, blockno)
    ensures forall i :: 0 <= i < NBUF && i != r ==> !Caches(bufs[i], ROOTDEV, blockno)
  {
    forall i | 0 <= i < NBUF && i != r ensures !Caches(bufs[i], ROOTDEV, blockno) {
      if i < r {
        assert bufs[i].dev != 0 ==> !Caches(bufs[r], bufs[i].dev, bufs[i].blockno);
      }
    }
  }

  /** A block that no valid buffer caches is up to date on disk. */
  lemma CleanWhenOutside(bufs: seq<Buf>, disk: Disk, view: Disk, lost: set<nat>, r: nat, blockno: nat)
    requires |bufs| == NBUF && r < NBUF && blockno < |disk|
    requires Coherent(bufs, disk, view, lost) && Unique(bufs)
    requires Caches(bufs[r], ROOTDEV, blockno) && !bufs[r].valid
    ensures disk[blockno] == view[blockno]
  {
    if disk[blockno] != view[blockno] {
      var i :| 0 <= i < NBUF && Backs(bufs[i], blockno, lost);
      OnlyOneCopy(bufs, r, blockno);
      assert false;
    }
  }

  lemma HeldIsView(bufs: seq<Buf>, disk: Disk, view: Disk, lost: set<nat>, r: nat, blockno: nat)
    requires |bufs| == NBUF && Coherent(bufs, disk, view, lost) && r < NBUF && Held(bufs[r], blockno)
    ensures |view| == |disk| && blockno < |view| && bufs[r].data == view[blockno]
  {
  }

  class Cache {
    var disk: Disk
    var bufs: seq<Buf>
    var links: Links
    ghost var ring: seq<nat>
    ghost var holds: seq<nat>
    ghost var pins: seq<nat>
    ghost var view: Disk
    ghost var lost: set<nat>
    ghost var writes: seq<Write>

    /** No change was lost, and none will be. */
    ghost predicate Valid()
      reads this
    {
      Intact() && lost == {}
    }

    ghost predicate Intact()
      reads this
    {
      && |bufs| == NBUF
      && Linked(links, ring) && |ring| == NBUF + 1
      && Unique(bufs)
      && Coherent(bufs, disk, view, lost)
      && Counted(bufs, holds, pins)
    }

    /** `binit` after a boot: nothing is cached, so the view is what the disk holds. */
    constructor (disk: Disk)
      ensures Valid()
      ensures this.disk == disk && view == disk && writes == []
      ensures forall i :: 0 <= i < NBUF ==> !bufs[i].valid && bufs[i].refcnt == 0 && !bufs[i].locked && bufs[i].dev == 0
      ensures pins == holds == seq(NBUF, i => 0)
      ensures |ring| == NBUF + 1 && ring[0] == HEAD && forall k :: 0 < k <= NBUF ==> ring[k] == NBUF - k
    {
      this.disk := disk;
      view := disk;
      lost := {};
      writes := [];
      holds := seq(NBUF, i => 0);
      pins := seq(NBUF, i => 0);
      bufs := seq(NBUF, i => Buf(false, 0, 0, false, 0, seq(BLOCK_WORDS, j => 0)));
      var l := Links(seq(NBUF + 1, i => HEAD), seq(NBUF + 1, i => HEAD));
      ghost var r: seq<nat> := [HEAD];
      var b := 0;
      while b < NBUF
        invariant 0 <= b <= NBUF
        invariant Linked(l, r) && |r| == b + 1
        invariant r[0] == HEAD && forall k :: 0 < k <= b ==> r[k] == b - k
      {
        PushKeepsRing(l, r, b);
        l := l.PushFront(b);
        r := [HEAD, b] + r[1..];
        b := b + 1;
      }
      links := l;
      ring := r;
    }

    /** Every buffer is on the list. */
    lemma ListHoldsEveryBuffer(i: nat)
      requires Intact() && i < NBUF
      ensures exists k :: 0 < k < |ring| && ring[k] == i
    {
      AllIndices(ring, NBUF + 1);
      assert i in ring;
    }

    /** The first loop of `bget`, along `next`: the buffer that caches the block, if there is one. */
    method FindCached(dev: nat, blockno: nat) returns (found: bool, r: nat)
      requires Intact()
      ensures found ==> r < NBUF && Caches(bufs[r], dev, blockno)
      ensures !found ==> forall i :: 0 <= i < NBUF ==> !Caches(bufs[i], dev, blockno)
    {
      r := links.next[HEAD];
      ghost var k := 1;
      assert Following(ring, 0) == r;
      while r != HEAD
        invariant 1 <= k <= |ring| && r == (if k == |ring| then HEAD else ring[k])
        invariant forall j :: 0 < j < k ==> !Caches(bufs[ring[j]], dev, blockno)
        decreases |ring| - k
      {
        if Caches(bufs[r], dev, blockno) {
          return true, r;
        }
        assert Following(ring, k) == links.next[r];
        r := links.next[r];
        k := k + 1;
      }
      forall i | 0 <= i < NBUF ensures !Caches(bufs[i], dev, blockno) {
        ListHoldsEveryBuffer(i);
      }
      found := false;
    }

    /** The second loop of `bget`, along `prev`: the least recently used buffer without references. */
    method FindUnused() returns (found: bool, r: nat)
      requires Intact()
      ensures found ==> r < NBUF && LeastRecentlyUnused(bufs, ring, r)
      ensures !found ==> forall i :: 0 <= i < NBUF ==> bufs[i].refcnt > 0
    {
      r := links.prev[HEAD];
      ghost var k := |ring| - 1;
      assert Following(ring, k) == HEAD;
      while r != HEAD
        invariant 0 <= k < |ring| && r == ring[k]
        invariant forall j :: k < j < |ring| ==> bufs[ring[j]].refcnt > 0
        decreases k
      {
        if bufs[r].refcnt == 0 {
          assert AllReferenced(bufs, ring[k + 1..]);
          return true, r;
        }
        assert Following(ring, k - 1) == r;
        r := links.prev[r];
        k := k - 1;
      }
      assert k == 0;
      forall i | 0 <= i < NBUF ensures bufs[i].refcnt > 0 {
        ListHoldsEveryBuffer(i);
      }
      found := false;
    }

    /**
     `bget` under bcache.lock: the buffer that caches the block, or else the least recently
     used unreferenced one, whose contents are dropped. Fails (panics) exactly when the block
     is not cached and every buffer is referenced.
     */
    method Bget(dev: nat, blockno: nat) returns (ok: bool, r: nat)
      requires Intact()
      modifies `bufs, `holds, `view
      ensures Intact()
      ensures !ok <==> AllBusy(old(bufs), dev, blockno)
      ensures !ok ==> bufs == old(bufs) && holds == old(holds)
      ensures ok ==> r < NBUF && holds == old(holds)[r := old(holds[r]) + 1]
      ensures ok ==> bufs == old(bufs)[r := bufs[r]]
      ensures ok ==> Caches(bufs[r], dev, blockno) && bufs[r].refcnt == old(bufs[r].refcnt) + 1
      ensures ok && IsCached(old(bufs), dev, blockno) ==> bufs[r] == old(bufs[r]).(refcnt := old(bufs[r].refcnt) + 1)
      ensures ok && !IsCached(old(bufs), dev, blockno) ==>
        LeastRecentlyUnused(old(bufs), ring, r) && !bufs[r].valid && bufs[r].locked == old(bufs[r].locked)
      ensures ok && !IsCached(old(bufs), dev, blockno) ==> view == AfterRecycling(old(view), disk, lost, old(bufs)[r])
      ensures !ok || IsCached(old(bufs), dev, blockno) ==> view == old(view)
    {
      var found: bool;
      found, r := FindCached(dev, blockno);
      if found {
        bufs := bufs[r := bufs[r].(refcnt := bufs[r].refcnt + 1)];
        UniqueKept(old(bufs), bufs);
        holds := holds[r := holds[r] + 1];
        KeptBy(old(bufs), bufs, disk, view, lost);
        return true, r;
      }
      found, r := FindUnused();
      if found {
        Recycle(r, dev, blockno);
        return true, r;
      }
      return false, 0;
    }

    /** An unreferenced buffer is given to a block that is not cached. */
    method Recycle(r: nat, dev: nat, blockno: nat)
      requires Intact() && r < NBUF && bufs[r].refcnt == 0 && !IsCached(bufs, dev, blockno)
      modifies `bufs, `holds, `view
      ensures Intact() && holds == old(holds)[r := old(holds[r]) + 1]
      ensures bufs == old(bufs)[r := old(bufs[r]).(dev := dev, blockno := blockno, valid := false, refcnt := 1)]
      ensures view == AfterRecycling(old(view), disk, lost, old(bufs)[r])
    {
      hide Linked, AfterRecycling, Coherent;
      RecycledKeeps(bufs, bufs[r := bufs[r].(dev := dev, blockno := blockno, valid := false, refcnt := 1)], disk,
                    view, lost, r);
      view := AfterRecycling(view, disk, lost, bufs[r]);
      bufs := bufs[r := bufs[r].(dev := dev, blockno := blockno, valid := false, refcnt := 1)];
      holds := holds[r := holds[r] + 1];
    }

    /**
     `bread`: a locked buffer holding the block's current contents. `acquiresleep` waits
     until nobody holds the buffer, so the call goes through only once it is unlocked.
     */
    method Bread(blockno: nat) returns (ok: bool, r: nat)
      requires Intact() && blockno < |disk|
      requires !IsLocked(bufs, blockno)
      modifies `bufs, `holds, `view
      ensures Intact() && |view| == |old(view)| && (lost == {} ==> view == old(view))
      ensures !ok <==> AllBusy(old(bufs), ROOTDEV, blockno)
      ensures !ok ==> bufs == old(bufs) && holds == old(holds)
      ensures ok ==> r < NBUF && Held(bufs[r], blockno) && bufs[r].data == view[blockno]
      ensures ok ==> holds == old(holds)[r := old(holds[r]) + 1]
      ensures ok ==> bufs == old(bufs)[r := bufs[r]] && bufs[r].refcnt == old(bufs[r].refcnt) + 1
      ensures ok ==> old(bufs[r].refcnt) == 0 || Caches(old(bufs[r]), ROOTDEV, blockno)
    {
      ok, r := Bget(ROOTDEV, blockno);
      if ok {
        Lock(r);
        if !bufs[r].valid {
          ReadIn(r, blockno);
        }
      }
    }

    /** `acquiresleep` on a referenced, unlocked buffer. */
    method Lock(r: nat)
      requires Intact() && r < NBUF && holds[r] > 0 && !bufs[r].locked
      modifies `bufs
      ensures Intact() && bufs == old(bufs)[r := old(bufs[r]).(locked := true)]
    {
      bufs := bufs[r := bufs[r].(locked := true)];
      UniqueKept(old(bufs), bufs);
      KeptBy(old(bufs), bufs, disk, view, lost);
    }

    /** `virtio_disk_rw(b, 0)` for a buffer that does not hold its block yet. */
    method ReadIn(r: nat, blockno: nat)
      requires Intact() && r < NBUF && Caches(bufs[r], ROOTDEV, blockno) && !bufs[r].valid && blockno < |disk|
      modifies `bufs
      ensures Intact() && bufs == old(bufs)[r := old(bufs[r]).(data := view[blockno], valid := true)]
    {
      CleanWhenOutside(bufs, disk, view, lost, r, blockno);
      bufs := bufs[r := bufs[r].(data := disk[blockno], valid := true)];
      UniqueKept(old(bufs), bufs);
      KeptBy(old(bufs), bufs, disk, view, lost);
    }

    /** The holder of a locked buffer overwrites its contents in memory. */
    method SetData(r: nat, blockno: nat, data: Block)
      requires Intact() && r < NBUF && Held(bufs[r], blockno)
      modifies `bufs, `view
      ensures Intact() && blockno < |view|
      ensures bufs == old(bufs)[r := old(bufs[r]).(data := data)]
      ensures view == old(view)[blockno := data]
    {
      bufs := bufs[r := bufs[r].(data := data)];
      UniqueKept(old(bufs), bufs);
      view := view[blockno := data];
      OnlyOneCopy(bufs, r, blockno);
      forall b | 0 <= b < |disk| && disk[b] != view[b] ensures exists i :: 0 <= i < NBUF && Backs(bufs[i], b, lost) {
        if b == blockno {
          assert Backs(bufs[r], b, lost);
        } else {
          var i :| 0 <= i < NBUF && Backs(old(bufs)[i], b, lost);
          assert Backs(bufs[i], b, lost);
        }
      }
    }

    /** `bwrite`: the one step that changes the disk. */
    method Bwrite(r: nat, blockno: nat)
      requires Intact() && r < NBUF && Held(bufs[r], blockno)
      modifies `disk, `writes
      ensures Intact() && blockno < |view| == |disk|
      ensures disk == old(disk)[blockno := view[blockno]]
      ensures writes == old(writes) + [Write(blockno, view[blockno])]
    {
      disk := disk[blockno := bufs[r].data];
      writes := writes + [Write(blockno, bufs[r].data)];
    }

    /** `brelse`. A change that was neither written nor pinned is lost with the last reference. */
    method Brelse(r: nat, blockno: nat)
      requires Intact() && r < NBUF && Held(bufs[r], blockno) && blockno < |disk|
      modifies `bufs, `links, `ring, `holds, `lost
      ensures Intact()
      ensures lost ==
        if old(bufs[r].refcnt) == 1 && disk[blockno] != view[blockno] then old(lost) + {blockno} else old(lost)
      ensures old(holds[r]) > 0 && holds == old(holds)[r := old(holds[r]) - 1]
      ensures bufs == old(bufs)[r := old(bufs[r]).(locked := false, refcnt := old(bufs[r].refcnt) - 1)]
      ensures bufs[r].refcnt > 0 ==> ring == old(ring)
      ensures bufs[r].refcnt == 0 ==>
        exists j :: 0 < j < |old(ring)| && old(ring)[j] == r && ring == MovedToFront(old(ring), j)
    {
      hide Linked, Unique;
      bufs := bufs[r := bufs[r].(locked := false, refcnt := bufs[r].refcnt - 1)];
      UniqueKept(old(bufs), bufs);
      holds := holds[r := holds[r] - 1];
      if bufs[r].refcnt == 0 && disk[blockno] != view[blockno] {
        lost := lost + {blockno};
      }
      ReleasedKeeps(old(bufs), bufs, disk, view, old(lost), r, lost);
      if bufs[r].refcnt == 0 {
        MoveToFront(r);
      }
    }

    /** The list surgery of `brelse`. */
    method MoveToFront(r: nat)
      requires Intact() && r < NBUF
      modifies `links, `ring
      ensures Intact()
      ensures exists j :: 0 < j < |old(ring)| && old(ring)[j] == r && ring == MovedToFront(old(ring), j)
    {
      ListHoldsEveryBuffer(r);
      ghost var j :| 0 < j < |ring| && ring[j] == r;
      MoveKeepsRing(links, ring, j);
      links := links.Unlink(r);
      links := links.PushFront(r);
      ring := MovedToFront(ring, j);
    }

    /** `bpin`: one more reference, so that the block stays cached after it is released. */
    method Bpin(r: nat)
      requires Intact() && r < NBUF
      modifies `bufs, `pins
      ensures Intact()
      ensures pins == old(pins)[r := old(pins[r]) + 1]
      ensures bufs == old(bufs)[r := old(bufs[r]).(refcnt := old(bufs[r].refcnt) + 1)]
    {
      bufs := bufs[r := bufs[r].(refcnt := bufs[r].refcnt + 1)];
      UniqueKept(old(bufs), bufs);
      pins := pins[r := pins[r] + 1];
      KeptBy(old(bufs), bufs, disk, view, lost);
    }

    /** `bunpin`. The last reference may only go once the disk copy is up to date. */
    method Bunpin(r: nat, blockno: nat)
      requires Intact() && r < NBUF && pins[r] > 0 && Keeps(bufs[r], blockno) && blockno < |disk|
      requires bufs[r].refcnt == 1 ==> disk[blockno] == view[blockno]
      modifies `bufs, `pins
      ensures Intact()
      ensures pins == old(pins)[r := old(pins[r]) - 1]
      ensures bufs == old(bufs)[r := old(bufs[r]).(refcnt := old(bufs[r].refcnt) - 1)]
    {
      bufs := bufs[r := bufs[r].(refcnt := bufs[r].refcnt - 1)];
      UniqueKept(old(bufs), bufs);
      pins := pins[r := pins[r] - 1];
      ReleasedKeeps(old(bufs), bufs, disk, view, lost, r, lost);
    }
  }
}
