/**
 kernel/log.c over the buffer cache: transactions, commit and recovery.

 File-system code reads and changes blocks through locked buffers and records them with
 `LogWrite`; `Commit` copies them to the log and then home. The contracts tie every block
 write to the sequences `CrashSafety` reasons about, so crash atomicity holds for this code.
 */
module WriteAheadLog {
  import opened CrashSafety
  import opened BufferCache
  import opened Params
  import opened Sets

  // ---- the invariant that relates a transaction to the cache ----

  predicate PinnedAt(bufs: seq<Buf>, pins: seq<nat>, b: nat)
    requires |bufs| == |pins| == NBUF
  {
    exists i :: 0 <= i < NBUF && Keeps(bufs[i], b) && pins[i] == 1
  }

  /** Exactly the blocks of the transaction are pinned, once each. */
  predicate PinsMatch(bufs: seq<Buf>, pins: seq<nat>, todo: seq<nat>)
    requires |bufs| == |pins| == NBUF
  {
    && (forall k :: 0 <= k < |todo| ==> PinnedAt(bufs, pins, todo[k]))
    && (forall i :: 0 <= i < NBUF && pins[i] > 0 ==>
          pins[i] == 1 && Keeps(bufs[i], bufs[i].blockno) && bufs[i].blockno in todo)
  }

  /** Outside the transaction, and outside buffers being worked on, the disk is up to date. */
  predicate Settled(l: Layout, disk: Disk, view: Disk, bufs: seq<Buf>, todo: seq<nat>)
    requires |bufs| == NBUF && |disk| == |view|
  {
    forall b :: 0 <= b < |disk| && disk[b] != view[b] ==> l.IsHome(b, |disk|) && (b in todo || IsLocked(bufs, b))
  }

  /** The invariant, for the blocks `todo` whose home copies may be out of date. */
  predicate LogOk(l: Layout, disk: Disk, view: Disk, bufs: seq<Buf>, pins: seq<nat>, todo: seq<nat>) {
    && |bufs| == |pins| == NBUF && |disk| == |view| && l.Fits(|disk|)
    && |todo| <= LOGSIZE && HomeBlocks(l, |disk|, todo)
    && PinsMatch(bufs, pins, todo)
    && Settled(l, disk, view, bufs, todo)
  }

  /** Nobody else holds a log block or a block of the transaction, and a buffer can be recycled. */
  ghost predicate Undisturbed(l: Layout, n: nat, bufs: seq<Buf>, todo: seq<nat>)
    requires |bufs| == NBUF
  {
    && (exists i :: 0 <= i < NBUF && bufs[i].refcnt == 0)
    && (forall b: nat :: IsLocked(bufs, b) ==> l.IsHome(b, n) && b !in todo)
  }

  // ---- steps of the cache that keep it ----

  /** Referenced buffers keep their block, their reference and their lock. */
  predicate RefsKept(s: seq<Buf>, t: seq<Buf>) {
    && |s| == |t|
    && forall i :: 0 <= i < |s| && s[i].refcnt > 0 ==>
        && t[i].refcnt > 0 && t[i].dev == s[i].dev && t[i].blockno == s[i].blockno
        && (s[i].valid ==> t[i].valid) && (s[i].locked ==> t[i].locked)
  }

  /** A balanced sequence of cache calls also restores every count and lock. */
  predicate SameRefs(s: seq<Buf>, t: seq<Buf>) {
    && RefsKept(s, t)
    && forall i :: 0 <= i < |s| ==> t[i].refcnt == s[i].refcnt && t[i].locked == s[i].locked
  }

  predicate LocksAreRefs(s: seq<Buf>) {
    forall i :: 0 <= i < |s| && s[i].locked ==> s[i].refcnt > 0
  }

  lemma PinsKept(s: seq<Buf>, t: seq<Buf>, pins: seq<nat>, todo: seq<nat>)
    requires |s| == |t| == |pins| == NBUF && RefsKept(s, t) && PinsMatch(s, pins, todo)
    ensures PinsMatch(t, pins, todo)
  {
    forall k | 0 <= k < |todo| ensures PinnedAt(t, pins, todo[k]) {
      assert PinnedAt(s, pins, todo[k]);
      var i :| 0 <= i < NBUF && Keeps(s[i], todo[k]) && pins[i] == 1;
      assert Keeps(t[i], todo[k]);
    }
    forall i | 0 <= i < NBUF && pins[i] > 0 ensures Keeps(t[i], t[i].blockno) && t[i].blockno in todo {
      assert Keeps(s[i], s[i].blockno);
    }
  }

  lemma LockKept(s: seq<Buf>, t: seq<Buf>, b: nat)
    requires |s| == |t| == NBUF && RefsKept(s, t) && LocksAreRefs(s) && IsLocked(s, b)
    ensures IsLocked(t, b)
  {
    var i :| 0 <= i < NBUF && Caches(s[i], ROOTDEV, b) && s[i].locked;
    assert Caches(t[i], ROOTDEV, b) && t[i].locked;
  }

  /** Reading or pinning blocks keeps the invariant. */
  lemma KeepStep(l: Layout, disk: Disk, view: Disk, s: seq<Buf>, t: seq<Buf>, pins: seq<nat>, todo: seq<nat>)
    requires LogOk(l, disk, view, s, pins, todo) && RefsKept(s, t) && LocksAreRefs(s)
    ensures LogOk(l, disk, view, t, pins, todo)
  {
    PinsKept(s, t, pins, todo);
    forall b | 0 <= b < |disk| && disk[b] != view[b] && b !in todo ensures IsLocked(t, b) {
      LockKept(s, t, b);
    }
  }

  /** Changing a locked buffer in memory keeps the invariant. */
  lemma ModifyStep(l: Layout, disk: Disk, view: Disk, s: seq<Buf>, t: seq<Buf>, pins: seq<nat>, todo: seq<nat>,
                   b: nat, view': Disk)
    requires LogOk(l, disk, view, s, pins, todo) && RefsKept(s, t) && LocksAreRefs(s)
    requires b < |disk| && |view'| == |view| && view' == view[b := view'[b]] && IsLocked(t, b) && l.IsHome(b, |disk|)
    ensures LogOk(l, disk, view', t, pins, todo)
  {
    PinsKept(s, t, pins, todo);
    forall x | 0 <= x < |disk| && disk[x] != view'[x] && x !in todo ensures IsLocked(t, x) && l.IsHome(x, |disk|) {
      if x != b {
        LockKept(s, t, x);
      }
    }
  }

  lemma HomeBlocksSnoc(l: Layout, n: nat, todo: seq<nat>, b: nat)
    requires HomeBlocks(l, n, todo) && l.IsHome(b, n) && b !in todo
    ensures HomeBlocks(l, n, todo + [b])
  {
    forall i, j | 0 <= i < j < |todo| + 1 ensures !Repeats(todo + [b], i, j) {
      assert j < |todo| ==> !Repeats(todo, i, j);
    }
  }

  lemma NewPin(bufs: seq<Buf>, pins: seq<nat>, todo: seq<nat>, r: nat, b: nat)
    requires |bufs| == |pins| == NBUF && PinsMatch(bufs, pins, todo)
    requires r < NBUF && Keeps(bufs[r], b) && pins[r] == 0
    ensures PinsMatch(bufs, pins[r := 1], todo + [b])
  {
    forall k | 0 <= k < |todo| + 1 ensures PinnedAt(bufs, pins[r := 1], (todo + [b])[k]) {
      if k < |todo| {
        assert PinnedAt(bufs, pins, todo[k]);
        var i :| 0 <= i < NBUF && Keeps(bufs[i], todo[k]) && pins[i] == 1;
        assert pins[r := 1][i] == 1;
      } else {
        assert Keeps(bufs[r], b);
      }
    }
  }

  /** Adding a held block to the transaction, with its pin, keeps the invariant. */
  lemma AddStep(l: Layout, disk: Disk, view: Disk, s: seq<Buf>, t: seq<Buf>, pins: seq<nat>, pins': seq<nat>,
                todo: seq<nat>,
                r: nat, b: nat)
    requires LogOk(l, disk, view, s, pins, todo) && RefsKept(s, t) && LocksAreRefs(s) && |todo| < LOGSIZE
    requires r < NBUF && Keeps(t[r], b) && pins[r] == 0 && pins' == pins[r := 1] && l.IsHome(b, |disk|) && b !in todo
    ensures LogOk(l, disk, view, t, pins', todo + [b])
  {
    KeepStep(l, disk, view, s, t, pins, todo);
    NewPin(t, pins, todo, r, b);
    HomeBlocksSnoc(l, |disk|, todo, b);
  }

  lemma PinnedIffLogged(l: Layout, disk: Disk, view: Disk, bufs: seq<Buf>, pins: seq<nat>, todo: seq<nat>, r: nat,
                        b: nat)
    requires LogOk(l, disk, view, bufs, pins, todo) && Unique(bufs) && r < NBUF && Keeps(bufs[r], b)
    ensures pins[r] == if b in todo then 1 else 0
  {
    if b in todo {
      var k :| 0 <= k < |todo| && todo[k] == b;
      assert PinnedAt(bufs, pins, todo[k]);
      OnlyOneCopy(bufs, r, b);
    }
  }

  /** Releasing a buffer whose block is logged or unchanged keeps the invariant. */
  lemma ReleaseStep(l: Layout, disk: Disk, view: Disk, s: seq<Buf>, t: seq<Buf>, pins: seq<nat>, todo: seq<nat>,
                    r: nat, b: nat)
    requires LogOk(l, disk, view, s, pins, todo) && Unique(s)
    requires r < NBUF && Held(s[r], b) && b < |disk| && (disk[b] == view[b] || b in todo)
    requires |t| == NBUF && t == s[r := t[r]] && Caches(t[r], ROOTDEV, b) && t[r].valid && !t[r].locked
    requires (pins[r] > 0 ==> t[r].refcnt > 0)
    ensures LogOk(l, disk, view, t, pins, todo) && !IsLocked(t, b)
  {
    OnlyOneCopy(s, r, b);
    forall k | 0 <= k < |todo| ensures PinnedAt(t, pins, todo[k]) {
      assert PinnedAt(s, pins, todo[k]);
      var i :| 0 <= i < NBUF && Keeps(s[i], todo[k]) && pins[i] == 1;
      assert Keeps(t[i], todo[k]);
    }
    forall x | 0 <= x < |disk| && disk[x] != view[x] && x !in todo ensures IsLocked(t, x) {
      var i :| 0 <= i < NBUF && Caches(s[i], ROOTDEV, x) && s[i].locked;
      assert Caches(t[i], ROOTDEV, x) && t[i].locked;
    }
  }

  lemma ReleasedUnlogged(l: Layout, disk: Disk, view: Disk, s: seq<Buf>, t: seq<Buf>, pins: seq<nat>, todo: seq<nat>,
                         r: nat, b: nat)
    requires |s| == |t| == NBUF && Unique(s) && r < NBUF && Held(s[r], b) && t == s[r := t[r]] && !t[r].locked
    requires |disk| == |view| && b < |disk| && disk[b] != view[b] && b !in todo
    ensures !IsLocked(t, b) && !LogOk(l, disk, view, t, pins, todo)
  {
    OnlyOneCopy(s, r, b);
  }

  /** A balanced write to a block of the log region keeps the invariant. */
  lemma LogStep(l: Layout, disk: Disk, view: Disk, s: seq<Buf>, t: seq<Buf>, pins: seq<nat>, todo: seq<nat>,
                at: nat, disk': Disk, view': Disk)
    requires LogOk(l, disk, view, s, pins, todo) && SameRefs(s, t) && LocksAreRefs(s)
    requires at < |disk| && |view'| == |view| && disk' == disk[at := view'[at]] && view' == view[at := view'[at]]
    requires Undisturbed(l, |disk|, s, todo)
    ensures LogOk(l, disk', view', t, pins, todo) && Undisturbed(l, |disk'|, t, todo)
  {
    KeepStep(l, disk, view, s, t, pins, todo);
    UndisturbedKept(l, |disk|, s, t, todo);
    forall b | 0 <= b < |disk'| && disk'[b] != view'[b] ensures l.IsHome(b, |disk'|) && (b in todo || IsLocked(t, b)) {
      assert disk[b] != view[b];
    }
  }

  lemma UndisturbedKept(l: Layout, n: nat, s: seq<Buf>, t: seq<Buf>, todo: seq<nat>)
    requires |s| == |t| == NBUF && SameRefs(s, t) && LocksAreRefs(s) && Undisturbed(l, n, s, todo)
    ensures Undisturbed(l, n, t, todo)
  {
    var i :| 0 <= i < NBUF && s[i].refcnt == 0;
    assert t[i].refcnt == 0;
    forall b: nat | IsLocked(t, b) ensures IsLocked(s, b) {
      var j :| 0 <= j < NBUF && Caches(t[j], ROOTDEV, b) && t[j].locked;
      assert Caches(s[j], ROOTDEV, b) && s[j].locked;
    }
  }

  lemma HomeTail(l: Layout, n: nat, todo: seq<nat>)
    requires todo != [] && HomeBlocks(l, n, todo)
    ensures HomeBlocks(l, n, todo[1..]) && todo[0] !in todo[1..]
  {
    forall i, j | 0 <= i < j < |todo| - 1 ensures !Repeats(todo[1..], i, j) {
      assert !Repeats(todo, i + 1, j + 1);
    }
    forall i | 0 <= i < |todo| - 1 ensures todo[1..][i] != todo[0] {
      assert !Repeats(todo, 0, i + 1);
    }
  }

  lemma InstallPins(s: seq<Buf>, t: seq<Buf>, pins: seq<nat>, todo: seq<nat>, r: nat)
    requires |s| == |t| == |pins| == NBUF && r < NBUF && todo != [] && todo[0] !in todo[1..] && Unique(s)
    requires Keeps(s[r], todo[0]) && RefsKept(s[r := t[r]], t) && PinsMatch(s, pins, todo)
    ensures PinsMatch(t, pins[r := 0], todo[1..])
  {
    OnlyOneCopy(s, r, todo[0]);
    var p := pins[r := 0];
    forall k | 0 <= k < |todo| - 1 ensures PinnedAt(t, p, todo[1..][k]) {
      assert PinnedAt(s, pins, todo[k + 1]);
      var i :| 0 <= i < NBUF && Keeps(s[i], todo[k + 1]) && pins[i] == 1;
      assert Keeps(t[i], todo[k + 1]);
    }
    forall i | 0 <= i < NBUF && p[i] > 0 ensures Keeps(t[i], t[i].blockno) && t[i].blockno in todo[1..] {
      assert Keeps(s[i], s[i].blockno);
    }
  }

  /** Bringing the first block of the transaction home, and dropping its pin, keeps the invariant for the others. */
  lemma InstallStep(l: Layout, disk: Disk, view: Disk, s: seq<Buf>, t: seq<Buf>, pins: seq<nat>, pins': seq<nat>,
                    todo: seq<nat>,
                    r: nat, disk': Disk)
    requires LogOk(l, disk, view, s, pins, todo) && Unique(s) && LocksAreRefs(s) && todo != []
    requires r < NBUF == |t| && Keeps(s[r], todo[0]) && pins' == pins[r := 0] && Caches(t[r], ROOTDEV, todo[0])
    requires !t[r].locked
    requires SameRefs(s[r := t[r]], t)
    requires Undisturbed(l, |disk|, s, todo)
    requires todo[0] < |disk| && disk' == disk[todo[0] := view[todo[0]]]
    ensures LogOk(l, disk', view, t, pins', todo[1..]) && Undisturbed(l, |disk'|, t, todo[1..])
  {
    HomeTail(l, |disk|, todo);
    InstallPins(s, t, pins, todo, r);
    assert !s[r].locked by {
      assert l.IsHome(todo[0], |disk|);
      if s[r].locked {
        assert IsLocked(s, todo[0]);
      }
    }
    forall b: nat ensures IsLocked(t, b) <==> IsLocked(s, b) {
      if IsLocked(s, b) {
        var i :| 0 <= i < NBUF && Caches(s[i], ROOTDEV, b) && s[i].locked;
        assert Caches(t[i], ROOTDEV, b) && t[i].locked;
      }
      if IsLocked(t, b) {
        var i :| 0 <= i < NBUF && Caches(t[i], ROOTDEV, b) && t[i].locked;
        assert Caches(s[i], ROOTDEV, b) && s[i].locked;
      }
    }
    var i :| 0 <= i < NBUF && s[i].refcnt == 0;
    assert t[i].refcnt == 0;
    forall b | 0 <= b < |disk'| && disk'[b] != view[b]
      ensures l.IsHome(b, |disk'|) && (b in todo[1..] || IsLocked(t, b))
    {
      assert disk[b] != view[b] && b != todo[0];
    }
  }

  // ---- reading two blocks and giving them back ----

  /** Two buffers taken and given back, with `drop` pins of the first removed on the way. */
  predicate TakenAndReturned(s: seq<Buf>, m: seq<Buf>, t: seq<Buf>, a: nat, x: nat, b: nat, y: nat, drop: nat) {
    && |s| == |m| == |t| && a < |s| && b < |s| && a != b
    && m == s[a := m[a]][b := m[b]]
    && Held(m[a], x) && Held(m[b], y)
    && m[a].refcnt == s[a].refcnt + 1 && m[b].refcnt == s[b].refcnt + 1
    && !s[a].locked && !s[b].locked
    && (s[a].refcnt == 0 || Caches(s[a], ROOTDEV, x)) && (s[b].refcnt == 0 || Caches(s[b], ROOTDEV, y))
    && (forall i :: 0 <= i < |s| && i != a && i != b ==> t[i] == m[i])
    && t[b] == m[b].(locked := false, refcnt := m[b].refcnt - 1)
    && drop < m[a].refcnt && t[a] == m[a].(locked := false, refcnt := m[a].refcnt - 1 - drop, data := t[a].data)
  }

  lemma Balanced(s: seq<Buf>, m: seq<Buf>, t: seq<Buf>, a: nat, x: nat, b: nat, y: nat, drop: nat)
    requires TakenAndReturned(s, m, t, a, x, b, y, drop)
    ensures t[a].refcnt == s[a].refcnt - drop && !t[a].locked && Caches(t[a], ROOTDEV, x)
    ensures SameRefs(s[a := t[a]], t)
    ensures drop == 0 ==> SameRefs(s, t)
  {
  }

  /** One more write of the sequence `ws` has been issued. */
  lemma Advance(d: Disk, before: seq<Write>, ws: seq<Write>, k: nat, w: Write)
    requires k < |ws| && ws[k] == w && w.blockno < |d|
    ensures Apply(d, ws[..k])[w.blockno := w.data] == Apply(d, ws[..k + 1])
    ensures before + ws[..k] + [w] == before + ws[..k + 1]
  {
    assert ws[..k + 1] == ws[..k] + [w];
    ApplySnoc(d, ws[..k], w);
  }

  /** The contents a transaction commits: what the file system last put in each block. */
  function Contents(view: Disk, blocks: seq<nat>): (r: seq<Block>)
    requires forall i :: 0 <= i < |blocks| ==> blocks[i] < |view|
    ensures |r| == |blocks|
    ensures forall i :: 0 <= i < |blocks| ==> r[i] == view[blocks[i]]
  {
    seq(|blocks|, i requires 0 <= i < |blocks| => view[blocks[i]])
  }

  predicate LogHoldsAt(l: Layout, view: Disk, blocks: seq<nat>, i: nat)
    requires i < |blocks|
  {
    l.start + 1 + i < |view| && blocks[i] < |view| && view[l.start + 1 + i] == view[blocks[i]]
  }

  /** The log data region holds the current contents of the first `n` blocks. */
  predicate LogHolds(l: Layout, view: Disk, blocks: seq<nat>, n: nat) {
    forall i: nat {:trigger LogHoldsAt(l, view, blocks, i)} :: i < n && i < |blocks| ==> LogHoldsAt(l, view, blocks, i)
  }

  lemma LogHoldsNothing(l: Layout, view: Disk, blocks: seq<nat>)
    ensures LogHolds(l, view, blocks, 0)
  {
  }

  lemma HomeAt(l: Layout, n: nat, blocks: seq<nat>, i: nat)
    requires HomeBlocks(l, n, blocks) && i < |blocks|
    ensures l.IsHome(blocks[i], n) && blocks[i] < n
  {
  }

  /** Copying block `k` to the log extends what the log holds; home blocks are not touched. */
  lemma LogHoldsMore(l: Layout, view: Disk, view': Disk, blocks: seq<nat>, k: nat)
    requires LogHolds(l, view, blocks, k) && k < |blocks| <= LOGSIZE && l.Fits(|view|) && blocks[k] < |view|
    requires HomeBlocks(l, |view|, blocks) && view' == view[l.start + 1 + k := view[blocks[k]]]
    ensures LogHolds(l, view', blocks, k + 1) && SameHome(l, view', view)
  {
    hide HomeBlocks;
    forall i: nat | i < k + 1 ensures LogHoldsAt(l, view', blocks, i) {
      assert i < k ==> LogHoldsAt(l, view, blocks, i);
      HomeAt(l, |view|, blocks, i);
      assert view'[blocks[i]] == view[blocks[i]];
    }
  }

  /** Publishing a header does not touch log data or home blocks. */
  lemma LogHoldsHeader(l: Layout, view: Disk, view': Disk, blocks: seq<nat>, n: nat)
    requires LogHolds(l, view, blocks, n) && l.Fits(|view|) && HomeBlocks(l, |view|, blocks) && |view'| == |view|
    requires view' == view[l.start := view'[l.start]]
    ensures LogHolds(l, view', blocks, n) && SameHome(l, view', view)
  {
    hide HomeBlocks;
    forall b | 0 <= b < |view| && b != l.start ensures view'[b] == view[b] {
      assert view[l.start := view'[l.start]][b] == view[b];
    }
    forall i: nat | i < n && i < |blocks| ensures LogHoldsAt(l, view', blocks, i) {
      assert LogHoldsAt(l, view, blocks, i);
      HomeAt(l, |view|, blocks, i);
      assert view'[blocks[i]] == view[blocks[i]];
    }
  }

  lemma HomeInRange(l: Layout, n: nat, blocks: seq<nat>)
    requires HomeBlocks(l, n, blocks)
    ensures forall i :: 0 <= i < |blocks| ==> blocks[i] < n
  {
    forall i | 0 <= i < |blocks| ensures blocks[i] < n {
      assert l.IsHome(blocks[i], n);
    }
  }

  lemma SameContents(l: Layout, v: Disk, w: Disk, blocks: seq<nat>)
    requires SameHome(l, v, w) && HomeBlocks(l, |v|, blocks)
    requires forall i :: 0 <= i < |blocks| ==> blocks[i] < |v|
    ensures Contents(v, blocks) == Contents(w, blocks)
  {
    forall i | 0 <= i < |blocks| ensures v[blocks[i]] == w[blocks[i]] {
      assert l.IsHome(blocks[i], |v|);
    }
  }

  lemma SameHomeTrans(l: Layout, a: Disk, b: Disk, c: Disk)
    ensures SameHome(l, a, a)
    ensures SameHome(l, a, b) && SameHome(l, b, c) ==> SameHome(l, a, c)
  {
  }

  predicate AllFree(bufs: seq<Buf>) {
    forall i :: 0 <= i < |bufs| ==> bufs[i].refcnt == 0 && !bufs[i].locked
  }

  class Log {
    const cache: Cache
    const layout: Layout
    var blocks: seq<nat>

    ghost predicate Sound(todo: seq<nat>)
      reads cache
    {
      cache.Valid() && LogOk(layout, cache.disk, cache.view, cache.bufs, cache.pins, todo)
    }

    /** Between commits the on-disk header is empty. */
    ghost predicate Valid()
      reads this, cache
    {
      Sound(blocks) && layout.Fits(|cache.disk|) && HeaderCount(layout, cache.disk) == 0
    }

    constructor (cache: Cache, layout: Layout)
      ensures this.cache == cache && this.layout == layout && blocks == []
    {
      this.cache := cache;
      this.layout := layout;
      blocks := [];
    }

    // ---- file-system calls between begin_op and end_op ----

    /** Reading a block gives the last contents anyone put there, committed or not. */
    method Bread(b: nat) returns (ok: bool, r: nat)
      requires Valid() && layout.IsHome(b, |cache.disk|) && !IsLocked(cache.bufs, b)
      modifies cache
      ensures Valid() && cache.view == old(cache.view) && cache.disk == old(cache.disk)
      ensures cache.writes == old(cache.writes)
      ensures !ok <==> AllBusy(old(cache.bufs), ROOTDEV, b)
      ensures ok ==> r < NBUF && Held(cache.bufs[r], b) && cache.bufs[r].data == cache.view[b]
    {
      hide LogOk, Linked, Unique, Coherent;
      ok, r := cache.Bread(b);
      if ok {
        KeepStep(layout, cache.disk, cache.view, old(cache.bufs), cache.bufs, cache.pins, blocks);
      }
    }

    /** The holder changes the block in memory; nothing reaches the disk. */
    method Modify(r: nat, b: nat, data: Block)
      requires Valid() && r < NBUF && Held(cache.bufs[r], b) && layout.IsHome(b, |cache.disk|)
      modifies cache
      ensures Valid() && Held(cache.bufs[r], b)
      ensures cache.view == old(cache.view)[b := data] && cache.disk == old(cache.disk)
      ensures cache.writes == old(cache.writes)
    {
      hide LogOk, Linked, Unique;
      cache.SetData(r, b, data);
      assert Caches(cache.bufs[r], ROOTDEV, b) && cache.bufs[r].locked;
      ModifyStep(layout, cache.disk, old(cache.view), old(cache.bufs), cache.bufs, cache.pins, blocks, b, cache.view);
    }

    /**
     `log_write`: record the block, once however often it is logged, and pin its buffer.
     The source panics when the transaction is already full.
     */
    method LogWrite(r: nat, b: nat)
      requires Valid() && r < NBUF && Held(cache.bufs[r], b) && layout.IsHome(b, |cache.disk|)
      requires |blocks| < LOGSIZE && |blocks| < layout.size - 1
      modifies this, cache
      ensures Valid() && Held(cache.bufs[r], b)
      ensures blocks == if b in old(blocks) then old(blocks) else old(blocks) + [b]
      ensures cache.view == old(cache.view) && cache.disk == old(cache.disk) && cache.writes == old(cache.writes)
      ensures cache.pins[r] == 1
    {
      hide LogOk, Linked, Coherent;
      PinnedIffLogged(layout, cache.disk, cache.view, cache.bufs, cache.pins, blocks, r, b);
      var i := FindLogged(b);
      if i == |blocks| {
        cache.Bpin(r);
        AddStep(layout, cache.disk, cache.view, old(cache.bufs), cache.bufs, old(cache.pins), cache.pins, blocks, r, b);
        blocks := blocks + [b];
      }
    }

    /** The scan for log absorption: the block's place in the transaction, or its length. */
    method FindLogged(b: nat) returns (i: nat)
      ensures i <= |blocks|
      ensures i < |blocks| ==> blocks[i] == b
      ensures i == |blocks| ==> b !in blocks
    {
      i := 0;
      while i < |blocks| && blocks[i] != b
        invariant 0 <= i <= |blocks|
        invariant forall j :: 0 <= j < i ==> blocks[j] != b
      {
        i := i + 1;
      }
    }

    /**
     Releasing a buffer. If whoever changed the block has not logged it, the log's invariant is gone and, unless
     somebody else waits for the buffer, so is the change as soon as the buffer is recycled.
     */
    method Brelse(r: nat, b: nat)
      requires Valid() && r < NBUF && Held(cache.bufs[r], b) && layout.IsHome(b, |cache.disk|)
      modifies cache
      ensures cache.Intact() && cache.view == old(cache.view) && cache.disk == old(cache.disk)
      ensures cache.writes == old(cache.writes)
      ensures !IsLocked(cache.bufs, b)
      ensures Valid() <==> cache.disk[b] == cache.view[b] || b in blocks
      ensures !Valid() ==> cache.lost == if old(cache.bufs[r].refcnt) == 1 then {b} else {}
    {
      hide LogOk, Linked, Unique;
      PinnedIffLogged(layout, cache.disk, cache.view, cache.bufs, cache.pins, blocks, r, b);
      cache.Brelse(r, b);
      if cache.disk[b] == cache.view[b] || b in blocks {
        ReleaseStep(layout, cache.disk, cache.view, old(cache.bufs), cache.bufs, cache.pins, blocks, r, b);
      } else {
        ReleasedUnlogged(layout, cache.disk, cache.view, old(cache.bufs), cache.bufs, cache.pins, blocks, r, b);
      }
    }

    // ---- copying a block through the cache ----

    /** The two `bread`s at the top of the loops of `write_log` and `install_trans`. */
    method ReadTwo(a: nat, b: nat) returns (ok: bool, ra: nat, rb: nat)
      requires cache.Valid() && a < |cache.disk| && b < |cache.disk| && a != b
      requires !IsLocked(cache.bufs, a) && !IsLocked(cache.bufs, b)
      requires (exists i :: 0 <= i < NBUF && Keeps(cache.bufs[i], b)) || AllFree(cache.bufs)
      modifies cache`bufs, cache`holds, cache`view
      ensures cache.Valid() && cache.view == old(cache.view)
      ensures !ok <==> AllBusy(old(cache.bufs), ROOTDEV, a)
      ensures !ok ==> cache.bufs == old(cache.bufs)
      ensures ok ==> ra < NBUF && rb < NBUF && ra != rb && Held(cache.bufs[ra], a) && Held(cache.bufs[rb], b)
      ensures ok ==> cache.bufs == old(cache.bufs)[ra := cache.bufs[ra]][rb := cache.bufs[rb]]
      ensures ok ==> cache.bufs[ra].refcnt == old(cache.bufs[ra].refcnt) + 1
      ensures ok ==> cache.bufs[rb].refcnt == old(cache.bufs[rb].refcnt) + 1
      ensures ok ==> !old(cache.bufs[ra].locked) && !old(cache.bufs[rb].locked)
      ensures ok ==> old(cache.bufs[ra].refcnt) == 0 || Caches(old(cache.bufs[ra]), ROOTDEV, a)
      ensures ok ==> old(cache.bufs[rb].refcnt) == 0 || Caches(old(cache.bufs[rb]), ROOTDEV, b)
    {
      hide Linked, Unique, Coherent;
      rb := 0;
      ok, ra := cache.Bread(a);
      if ok {
        OnlyOneCopy(cache.bufs, ra, a);
        if exists i :: 0 <= i < NBUF && Keeps(old(cache.bufs[i]), b) {
          ghost var i :| 0 <= i < NBUF && Keeps(old(cache.bufs[i]), b);
          assert Caches(cache.bufs[i], ROOTDEV, b);
        } else {
          assert cache.bufs[(ra + 1) % NBUF].refcnt == 0;
        }
        ok, rb := cache.Bread(b);
      }
    }

    /** The rest of those loops: `memmove`, `bwrite`, an optional `bunpin`, and the two `brelse`s. */
    method WriteBack(rd: nat, dst: nat, rs: nat, src: nat, unpin: bool)
      requires cache.Valid() && rd < NBUF && rs < NBUF && rd != rs && dst != src
      requires Held(cache.bufs[rd], dst) && Held(cache.bufs[rs], src) && src < |cache.disk|
      requires cache.bufs[rs].refcnt == 1 ==> cache.disk[src] == cache.view[src]
      requires unpin ==> cache.pins[rd] > 0
      modifies cache
      ensures cache.Valid() && |cache.view| == |cache.disk| == old(|cache.disk|) && dst < |cache.disk|
      ensures cache.view == old(cache.view)[dst := old(cache.view)[src]]
      ensures cache.disk == old(cache.disk)[dst := old(cache.view)[src]]
      ensures cache.writes == old(cache.writes) + [Write(dst, old(cache.view)[src])]
      ensures cache.pins == if unpin then old(cache.pins)[rd := old(cache.pins)[rd] - 1] else old(cache.pins)
      ensures |cache.bufs| == NBUF
      ensures forall i :: 0 <= i < NBUF && i != rd && i != rs ==> cache.bufs[i] == old(cache.bufs)[i]
      ensures cache.bufs[rs] == old(cache.bufs)[rs].(locked := false, refcnt := old(cache.bufs)[rs].refcnt - 1)
      ensures var n := old(cache.bufs)[rd].refcnt - (if unpin then 2 else 1);
        0 <= n && cache.bufs[rd] == old(cache.bufs)[rd].(locked := false, refcnt := n, data := old(cache.view)[src])
    {
      hide Linked, Unique, Coherent;
      HeldIsView(cache.bufs, cache.disk, cache.view, cache.lost, rs, src);
      HeldIsView(cache.bufs, cache.disk, cache.view, cache.lost, rd, dst);
      cache.SetData(rd, dst, cache.bufs[rs].data);
      cache.Bwrite(rd, dst);
      if unpin {
        cache.Bunpin(rd, dst);
      }
      cache.Brelse(rs, src);
      cache.Brelse(rd, dst);
    }

    /** `write_head`: the header block names the blocks `hs`, and nothing else on disk changes. */
    method WriteHead(hs: seq<nat>)
      requires cache.Valid() && layout.Fits(|cache.disk|) && |hs| <= LOGSIZE
      requires !IsLocked(cache.bufs, layout.start) && exists i :: 0 <= i < NBUF && cache.bufs[i].refcnt == 0
      requires cache.disk[layout.start] == cache.view[layout.start]
      modifies cache
      ensures cache.Valid() && cache.pins == old(cache.pins) && SameRefs(old(cache.bufs), cache.bufs)
      ensures var h := PutHeader(old(cache.disk)[layout.start], hs);
        && cache.disk == old(cache.disk)[layout.start := h]
        && cache.view == old(cache.view)[layout.start := h]
        && cache.writes == old(cache.writes) + [Write(layout.start, h)]
    {
      hide Linked, Unique, Coherent;
      var ok, r := cache.Bread(layout.start);
      HeldIsView(cache.bufs, cache.disk, cache.view, cache.lost, r, layout.start);
      var hb := FillHeader(cache.bufs[r].data, hs);
      cache.SetData(r, layout.start, hb);
      cache.Bwrite(r, layout.start);
      cache.Brelse(r, layout.start);
    }

    /** The loop of `write_head` over the header's words. */
    static method FillHeader(data: Block, hs: seq<nat>) returns (hb: Block)
      requires |hs| <= LOGSIZE
      ensures hb == PutHeader(data, hs)
    {
      var h: seq<int> := data[0 := |hs|];
      for i := 0 to |hs|
        invariant |h| == BLOCK_WORDS && h[0] == |hs|
        invariant forall j :: 0 <= j < i ==> h[1 + j] == hs[j]
        invariant forall j :: i < j < BLOCK_WORDS ==> h[j] == data[j]
      {
        h := h[1 + i := hs[i]];
      }
      assert h == PutHeader(data, hs);
      hb := h;
    }

    // ---- write_log ----

    /** One round of `write_log`: the cached contents of block `src` go to the log block `dst`. */
    method CopyToLog(dst: nat, src: nat)
      requires cache.Valid() && dst < |cache.disk| && src < |cache.disk| && dst != src
      requires !IsLocked(cache.bufs, dst) && !IsLocked(cache.bufs, src)
      requires PinnedAt(cache.bufs, cache.pins, src) && exists i :: 0 <= i < NBUF && cache.bufs[i].refcnt == 0
      modifies cache
      ensures cache.Valid() && cache.pins == old(cache.pins) && SameRefs(old(cache.bufs), cache.bufs)
      ensures |cache.view| == |old(cache.view)| == |cache.disk|
      ensures cache.view == old(cache.view)[dst := old(cache.view)[src]]
      ensures cache.disk == old(cache.disk)[dst := old(cache.view)[src]]
      ensures cache.writes == old(cache.writes) + [Write(dst, old(cache.view)[src])]
    {
      hide Linked, Unique;
      ghost var i :| 0 <= i < NBUF && Keeps(cache.bufs[i], src) && cache.pins[i] == 1;
      var ok, rd, rs := ReadTwo(dst, src);
      assert rs == i by {
        OnlyOneCopy(cache.bufs, rs, src);
      }
      label read:
      WriteBack(rd, dst, rs, src, false);
      Balanced(old(cache.bufs), old@read(cache.bufs), cache.bufs, rd, dst, rs, src, 0);
    }

    /** The state in which `commit` works. */
    ghost predicate Ready(todo: seq<nat>)
      reads cache
    {
      Sound(todo) && Undisturbed(layout, |cache.disk|, cache.bufs, todo)
    }

    lemma ReadyFacts(todo: seq<nat>, k: nat)
      requires Ready(todo) && k < |todo|
      ensures todo[k] < |cache.disk| && layout.IsHome(todo[k], |cache.disk|) && layout.Fits(|cache.disk|)
      ensures PinnedAt(cache.bufs, cache.pins, todo[k]) && !IsLocked(cache.bufs, todo[k])
      ensures layout.start + 1 + k < |cache.disk| && todo[k] != layout.start + 1 + k
      ensures !IsLocked(cache.bufs, layout.start + 1 + k)
      ensures |cache.view| == |cache.disk| && cache.disk[layout.start + 1 + k] == cache.view[layout.start + 1 + k]
    {
      assert layout.IsHome(todo[k], |cache.disk|);
      assert PinnedAt(cache.bufs, cache.pins, todo[k]);
    }

    method LogOne(tail: nat)
      requires Ready(blocks) && tail < |blocks|
      modifies cache
      ensures Ready(blocks) && |cache.disk| == |cache.view| == |old(cache.disk)| == |old(cache.view)|
      ensures layout.start + 1 + tail < |cache.disk| && blocks[tail] < |old(cache.view)|
      ensures cache.disk == old(cache.disk)[layout.start + 1 + tail := old(cache.view)[blocks[tail]]]
      ensures cache.view == old(cache.view)[layout.start + 1 + tail := old(cache.view)[blocks[tail]]]
      ensures cache.writes == old(cache.writes) + [Write(layout.start + 1 + tail, old(cache.view)[blocks[tail]])]
    {
      hide LogOk, Linked, Unique, Coherent;
      ReadyFacts(blocks, tail);
      CopyToLog(layout.start + 1 + tail, blocks[tail]);
      LogStep(layout, old(cache.disk), old(cache.view), old(cache.bufs), cache.bufs, cache.pins, blocks,
              layout.start + 1 + tail, cache.disk, cache.view);
    }

    /** What `Ready` says about the transaction itself. */
    lemma ReadyBlocks(todo: seq<nat>)
      requires Ready(todo)
      ensures |todo| <= LOGSIZE && layout.Fits(|cache.disk|) && |cache.view| == |cache.disk|
      ensures HomeBlocks(layout, |cache.disk|, todo)
      ensures forall i :: 0 <= i < |todo| ==> todo[i] < |cache.disk|
    {
      HomeInRange(layout, |cache.disk|, todo);
    }

    /** `write_log`: every block of the transaction, with its last contents, goes to the log. */
    method WriteLog()
      requires Ready(blocks)
      modifies cache
      ensures Ready(blocks) && |cache.disk| == |old(cache.disk)| && |cache.view| == |old(cache.view)|
      ensures SameHome(layout, cache.view, old(cache.view)) && LogHolds(layout, cache.view, blocks, |blocks|)
      ensures forall i :: 0 <= i < |blocks| ==> blocks[i] < |old(cache.view)|
      ensures var ws := LogWrites(layout, Contents(old(cache.view), blocks));
        cache.writes == old(cache.writes) + ws && cache.disk == Apply(old(cache.disk), ws)
    {
      hide LogOk, Undisturbed, Linked, Unique, Coherent, Counted, HomeBlocks, LogHolds;
      ReadyBlocks(blocks);
      ghost var data := Contents(cache.view, blocks);
      ghost var ws := LogWrites(layout, data);
      LogHoldsNothing(layout, cache.view, blocks);
      var tail := 0;
      while tail < |blocks|
        invariant 0 <= tail <= |blocks|
        invariant Ready(blocks) && |cache.disk| == |old(cache.disk)| && |cache.view| == |old(cache.view)|
        invariant SameHome(layout, cache.view, old(cache.view)) && LogHolds(layout, cache.view, blocks, tail)
        invariant cache.writes == old(cache.writes) + ws[..tail]
        invariant cache.disk == Apply(old(cache.disk), ws[..tail])
      {
        SameContents(layout, cache.view, old(cache.view), blocks);
        assert Contents(cache.view, blocks)[tail] == data[tail];
        Advance(old(cache.disk), old(cache.writes), ws, tail, ws[tail]);
        ghost var view := cache.view;
        LogOne(tail);
        LogHoldsMore(layout, view, cache.view, blocks, tail);
        tail := tail + 1;
      }
      assert ws[..tail] == ws;
    }

    // ---- install_trans ----

    /** One round of `install_trans(0)`: the log block goes home, and the home block's pin is dropped. */
    method Install(dst: nat, src: nat) returns (ghost r: nat)
      requires cache.Valid() && dst < |cache.disk| && src < |cache.disk| && dst != src
      requires !IsLocked(cache.bufs, dst) && !IsLocked(cache.bufs, src)
      requires PinnedAt(cache.bufs, cache.pins, dst) && exists i :: 0 <= i < NBUF && cache.bufs[i].refcnt == 0
      requires cache.disk[src] == cache.view[src]
      modifies cache
      ensures cache.Valid() && r < NBUF && cache.pins == old(cache.pins)[r := 0]
      ensures Keeps(old(cache.bufs)[r], dst) && Caches(cache.bufs[r], ROOTDEV, dst) && !cache.bufs[r].locked
      ensures SameRefs(old(cache.bufs)[r := cache.bufs[r]], cache.bufs)
      ensures |cache.view| == |old(cache.view)| == |cache.disk|
      ensures cache.view == old(cache.view)[dst := old(cache.view)[src]]
      ensures cache.disk == old(cache.disk)[dst := old(cache.view)[src]]
      ensures cache.writes == old(cache.writes) + [Write(dst, old(cache.view)[src])]
    {
      hide Linked, Unique;
      ghost var i :| 0 <= i < NBUF && Keeps(cache.bufs[i], dst) && cache.pins[i] == 1;
      var ok, rs, rd := ReadTwo(src, dst);
      assert rd == i by {
        OnlyOneCopy(cache.bufs, rd, dst);
      }
      label read:
      WriteBack(rd, dst, rs, src, true);
      Balanced(old(cache.bufs), old@read(cache.bufs), cache.bufs, rd, dst, rs, src, 1);
      r := rd;
    }

    /** Round `tail` of `install_trans(0)`: the blocks from `tail` on are still to be installed. */
    method InstallOne(tail: nat)
      requires tail < |blocks| <= LOGSIZE && Ready(blocks[tail..])
      requires layout.Fits(|cache.view|) && blocks[tail] < |cache.view|
      requires cache.view[layout.start + 1 + tail] == cache.view[blocks[tail]]
      requires cache.disk[layout.start + 1 + tail] == cache.view[layout.start + 1 + tail]
      requires !IsLocked(cache.bufs, layout.start + 1 + tail)
      modifies cache
      ensures Ready(blocks[tail + 1..]) && cache.view == old(cache.view)
      ensures |cache.disk| == |old(cache.disk)|
      ensures cache.disk == old(cache.disk)[blocks[tail] := cache.view[blocks[tail]]]
      ensures cache.writes == old(cache.writes) + [Write(blocks[tail], cache.view[blocks[tail]])]
    {
      hide LogOk, Linked, Unique, Coherent;
      ghost var todo := blocks[tail..];
      assert todo[0] == blocks[tail] && todo[1..] == blocks[tail + 1..];
      ReadyFacts(todo, 0);
      ghost var r := Install(blocks[tail], layout.start + 1 + tail);
      assert cache.view == old(cache.view);
      InstallStep(layout, old(cache.disk), cache.view, old(cache.bufs), cache.bufs, old(cache.pins), cache.pins, todo,
                  r, cache.disk);
    }

    /** Log blocks are up to date on disk and nobody holds them. */
    lemma LogRegionClean(todo: seq<nat>, k: nat)
      requires Ready(todo) && k < LOGSIZE
      ensures layout.Fits(|cache.disk|) && |cache.view| == |cache.disk|
      ensures !IsLocked(cache.bufs, layout.start + 1 + k) && !IsLocked(cache.bufs, layout.start)
      ensures cache.disk[layout.start + 1 + k] == cache.view[layout.start + 1 + k]
      ensures cache.disk[layout.start] == cache.view[layout.start]
      ensures exists i :: 0 <= i < NBUF && cache.bufs[i].refcnt == 0
    {
    }

    /** `install_trans(0)`: every block of the transaction goes home, and no block stays pinned. */
    method InstallTrans()
      requires Ready(blocks) && LogHolds(layout, cache.view, blocks, |blocks|)
      requires forall i :: 0 <= i < |blocks| ==> blocks[i] < |cache.view|
      modifies cache
      ensures Ready([]) && cache.view == old(cache.view) && |cache.disk| == |old(cache.disk)|
      ensures var ws := InstallWrites(blocks, Contents(cache.view, blocks));
        cache.writes == old(cache.writes) + ws && cache.disk == Apply(old(cache.disk), ws)
    {
      hide LogOk, Undisturbed, Linked, Unique, Coherent, Counted, HomeBlocks;
      ReadyBlocks(blocks);
      ghost var ws := InstallWrites(blocks, Contents(cache.view, blocks));
      var tail := 0;
      assert blocks[0..] == blocks;
      while tail < |blocks|
        invariant 0 <= tail <= |blocks|
        invariant Ready(blocks[tail..]) && cache.view == old(cache.view) && |cache.disk| == |old(cache.disk)|
        invariant cache.writes == old(cache.writes) + ws[..tail]
        invariant cache.disk == Apply(old(cache.disk), ws[..tail])
      {
        LogRegionClean(blocks[tail..], tail);
        Advance(old(cache.disk), old(cache.writes), ws, tail, ws[tail]);
        assert LogHoldsAt(layout, cache.view, blocks, tail);
        InstallOne(tail);
        tail := tail + 1;
      }
      assert ws[..tail] == ws && blocks[tail..] == [];
    }

    // ---- commit and recovery ----

    /** `write_head` in the middle of a commit. */
    method PublishHead(hs: seq<nat>, ghost todo: seq<nat>)
      requires Ready(todo) && |hs| <= LOGSIZE && layout.Fits(|cache.disk|)
      modifies cache
      ensures Ready(todo) && |cache.disk| == |old(cache.disk)| && |cache.view| == |old(cache.view)|
      ensures layout.Fits(|cache.view|)
      ensures var h := PutHeader(old(cache.disk)[layout.start], hs);
        && cache.disk == old(cache.disk)[layout.start := h]
        && cache.view == old(cache.view)[layout.start := h]
        && cache.writes == old(cache.writes) + [Write(layout.start, h)]
    {
      hide LogOk, Undisturbed, Linked, Unique, Coherent;
      LogRegionClean(todo, 0);
      WriteHead(hs);
      LogStep(layout, old(cache.disk), old(cache.view), old(cache.bufs), cache.bufs, cache.pins, todo,
              layout.start, cache.disk, cache.view);
    }

    /** The first half of `commit`, up to and including the header write that makes it durable. */
    method WriteAhead()
      requires Ready(blocks) && layout.Fits(|cache.disk|)
      modifies cache
      ensures Ready(blocks) && layout.Fits(|cache.disk|) && SameHome(layout, cache.view, old(cache.view))
      ensures Transaction(layout, |cache.disk|, blocks, Contents(old(cache.view), blocks))
      ensures LogHolds(layout, cache.view, blocks, |blocks|)
      ensures var ws := LogWrites(layout, Contents(old(cache.view), blocks))
                        + [Write(layout.start, PutHeader(old(cache.disk[layout.start]), blocks))];
        && |cache.disk| == |old(cache.disk)| && cache.writes == old(cache.writes) + ws
        && cache.disk == Apply(old(cache.disk), ws)
    {
      hide LogOk, Undisturbed, Linked, Unique, Coherent, Counted, HomeBlocks, LogHolds, SameHome;
      ReadyBlocks(blocks);
      ghost var data := Contents(cache.view, blocks);
      WriteLog();
      ghost var view := cache.view;
      LogThenHeader(layout, old(cache.disk), blocks, data, old(cache.writes));
      PublishHead(blocks, blocks);
      LogHoldsHeader(layout, view, cache.view, blocks, |blocks|);
      SameHomeTrans(layout, cache.view, view, old(cache.view));
    }

    /** The second half of `commit`: bring everything home and clear the header. */
    method BringHome()
      requires Ready(blocks) && layout.Fits(|cache.disk|) && |blocks| <= LOGSIZE
      requires HomeBlocks(layout, |cache.disk|, blocks)
      requires LogHolds(layout, cache.view, blocks, |blocks|)
      requires forall i :: 0 <= i < |blocks| ==> blocks[i] < |cache.view|
      modifies this, cache
      ensures Ready([]) && blocks == [] && layout.Fits(|cache.disk|) && cache.disk[layout.start][0] == 0
      ensures SameHome(layout, cache.view, old(cache.view))
      ensures var ws := InstallWrites(old(blocks), Contents(old(cache.view), old(blocks)))
                        + [Write(layout.start, PutHeader(old(cache.disk[layout.start]), []))];
        && |cache.disk| == |old(cache.disk)| && cache.writes == old(cache.writes) + ws
        && cache.disk == Apply(old(cache.disk), ws)
    {
      hide LogOk, Undisturbed, Linked, Unique, Coherent, Counted, HomeBlocks, LogHolds;
      InstallTrans();
      InstallThenHeader(layout, old(cache.disk), blocks, Contents(cache.view, blocks), old(cache.writes));
      blocks := [];
      PublishHead(blocks, []);
    }

    /**
     `commit`. It issues exactly the writes of `CommitWrites`, with the last contents of every
     logged block, so a crash anywhere inside it is a crash inside that sequence; when it is
     done every home block is on disk and nothing is pinned.
     */
    method Commit()
      requires Valid() && Ready(blocks)
      modifies this, cache
      ensures Valid() && blocks == [] && Ready([])
      ensures |old(blocks)| <= LOGSIZE && forall i :: 0 <= i < |old(blocks)| ==> old(blocks)[i] < |old(cache.view)|
      ensures var ws := CommitWrites(layout, old(cache.disk[layout.start]), old(blocks),
                                     Contents(old(cache.view), old(blocks)));
        cache.writes == old(cache.writes) + ws && cache.disk == Apply(old(cache.disk), ws)
      ensures SameHome(layout, cache.view, old(cache.view))
    {
      hide LogOk, Undisturbed, Linked, Unique, Coherent, Counted, HomeBlocks, LogHolds, SameHome;
      ReadyBlocks(blocks);
      if |blocks| > 0 {
        ghost var data := Contents(cache.view, blocks);
        WriteAhead();
        ghost var view := cache.view;
        ReadyBlocks(blocks);
        SameContents(layout, cache.view, old(cache.view), blocks);
        BringHome();
        CommitChain(layout, old(cache.disk), old(blocks), data, old(cache.writes));
        SameHomeTrans(layout, cache.view, view, old(cache.view));
      } else {
        SameHomeTrans(layout, cache.view, cache.view, cache.view);
      }
    }

    // ---- recovery at boot ----

    /** The cache as `binit` leaves it, apart from unreferenced copies of blocks. */
    ghost predicate Booted()
      reads cache
    {
      && cache.Valid() && AllFree(cache.bufs) && cache.view == cache.disk
      && forall i :: 0 <= i < NBUF ==> cache.pins[i] == 0
    }

    /** `read_head`: the in-memory header becomes the one on disk. */
    method ReadHead()
      requires Booted() && WellFormed(layout, cache.disk)
      modifies `blocks, cache
      ensures Booted() && cache.disk == old(cache.disk) && cache.writes == old(cache.writes)
      ensures blocks == LoggedBlocks(layout, cache.disk)
    {
      hide Linked, Unique;
      assert cache.bufs[0].refcnt == 0;
      var ok, r := cache.Bread(layout.start);
      var hb := cache.bufs[r].data;
      var bs: seq<nat> := [];
      var i := 0;
      while i < hb[0]
        invariant 0 <= i <= hb[0] && |bs| == i
        invariant bs == LoggedBlocks(layout, cache.disk)[..i]
      {
        assert LoggedBlocks(layout, cache.disk)[i] == hb[1 + i];
        bs := bs + [hb[1 + i]];
        i := i + 1;
      }
      assert bs == LoggedBlocks(layout, cache.disk);
      cache.Brelse(r, layout.start);
      blocks := bs;
    }

    /** One round of `install_trans(1)`: at boot nothing is pinned. */
    method Reinstall(dst: nat, src: nat)
      requires Booted() && dst < |cache.disk| && src < |cache.disk| && dst != src
      modifies cache
      ensures Booted() && |cache.disk| == |old(cache.disk)|
      ensures cache.disk == old(cache.disk)[dst := old(cache.disk)[src]]
      ensures cache.writes == old(cache.writes) + [Write(dst, old(cache.disk)[src])]
    {
      hide Linked, Unique;
      assert cache.bufs[0].refcnt == 0;
      var ok, rs, rd := ReadTwo(src, dst);
      label read:
      WriteBack(rd, dst, rs, src, false);
      Balanced(old(cache.bufs), old@read(cache.bufs), cache.bufs, rd, dst, rs, src, 0);
    }

    /** `install_trans(1)`: every logged block goes home. */
    method ReinstallAll(ghost data: seq<Block>)
      requires Booted() && layout.Fits(|cache.disk|) && Transaction(layout, |cache.disk|, blocks, data)
      requires forall i :: 0 <= i < |blocks| ==> cache.disk[layout.start + 1 + i] == data[i]
      modifies cache
      ensures Booted() && |cache.disk| == |old(cache.disk)|
      ensures cache.writes == old(cache.writes) + InstallWrites(blocks, data)
      ensures cache.disk == Apply(old(cache.disk), InstallWrites(blocks, data))
    {
      hide Linked, Unique, Coherent, Counted, AllFree, HomeBlocks;
      ghost var ws := InstallWrites(blocks, data);
      var tail := 0;
      while tail < |blocks|
        invariant 0 <= tail <= |blocks| && Booted() && |cache.disk| == |old(cache.disk)|
        invariant cache.writes == old(cache.writes) + ws[..tail]
        invariant cache.disk == Apply(old(cache.disk), ws[..tail])
      {
        NextLogBlock(layout, old(cache.disk), blocks, data, tail);
        Advance(old(cache.disk), old(cache.writes), ws, tail, ws[tail]);
        Reinstall(blocks[tail], layout.start + 1 + tail);
        tail := tail + 1;
      }
      assert ws[..tail] == ws;
    }

    /** `recover_from_log`: exactly the writes of `RecoverWrites`, and then an empty log over an up-to-date disk. */
    method RecoverFromLog()
      requires Booted() && WellFormed(layout, cache.disk)
      modifies this, cache
      ensures Valid() && blocks == [] && Ready([]) && cache.view == cache.disk
      ensures cache.disk == Recover(layout, old(cache.disk))
      ensures cache.writes == old(cache.writes) + RecoverWrites(layout, old(cache.disk))
    {
      hide Linked, Unique, Coherent, Counted, AllFree, HomeBlocks, LogOk, Undisturbed;
      ReadHead();
      ghost var data := LogData(layout, cache.disk);
      ReinstallAll(data);
      InstallThenHeader(layout, old(cache.disk), blocks, data, old(cache.writes));
      BootReady();
      blocks := [];
      PublishHead(blocks, []);
    }

    lemma BootReady()
      requires Booted() && layout.Fits(|cache.disk|)
      ensures Ready([])
    {
      assert cache.bufs[0].refcnt == 0;
    }
  }

  // ---- what a crash leaves, and when a commit can run at all ----

  /**
   The promise to file-system code: if nobody is in the middle of changing a block and the
   machine crashes after any `k` writes of the commit, with any number of crashes inside the
   recoveries, then every home block is as it was on disk before, or every home block is as
   the file system last left it.
   */
  lemma CrashKeepsOldOrNew(l: Layout, disk: Disk, view: Disk, bufs: seq<Buf>, pins: seq<nat>, blocks: seq<nat>,
                           k: nat, crashes: seq<nat>)
    requires LogOk(l, disk, view, bufs, pins, blocks) && (forall b: nat :: !IsLocked(bufs, b))
    requires HeaderCount(l, disk) == 0
    requires forall i :: 0 <= i < |blocks| ==> blocks[i] < |view|
    requires k <= |CommitWrites(l, disk[l.start], blocks, Contents(view, blocks))|
    ensures var e := Apply(disk, CommitWrites(l, disk[l.start], blocks, Contents(view, blocks))[..k]);
      && WellFormed(l, e)
      && SameHome(l, RecoverThrough(l, e, crashes), if PastCommitPoint(blocks, k) then view else disk)
  {
    var data := Contents(view, blocks);
    assert HeaderBlocks(l, disk) == [];
    CommitAtomic(l, disk, blocks, data, k, crashes);
    var e := Apply(disk, CommitWrites(l, disk[l.start], blocks, data)[..k]);
    var r := RecoverThrough(l, e, crashes);
    if PastCommitPoint(blocks, k) {
      forall b | 0 <= b < |r| && l.IsHome(b, |r|) ensures r[b] == view[b] {
        if b in blocks {
          var i :| 0 <= i < |blocks| && blocks[i] == b;
        } else {
          assert disk[b] == view[b];
        }
      }
    }
  }

  function BlockNumbers(bufs: seq<Buf>): (r: seq<nat>)
    ensures |r| == |bufs| && forall i :: 0 <= i < |bufs| ==> r[i] == bufs[i].blockno
  {
    seq(|bufs|, i requires 0 <= i < |bufs| => bufs[i].blockno)
  }

  /**
   With no buffer in use, the first `bget` of a commit finds a buffer exactly when the
   transaction is smaller than the cache. A transaction of LOGSIZE = NBUF blocks pins the
   whole cache and the commit panics.
   */
  lemma CommitNeedsABuffer(l: Layout, disk: Disk, view: Disk, bufs: seq<Buf>, holds: seq<nat>, pins: seq<nat>,
                           blocks: seq<nat>)
    requires LogOk(l, disk, view, bufs, pins, blocks) && Unique(bufs) && Counted(bufs, holds, pins) && blocks != []
    requires forall i :: 0 <= i < NBUF ==> holds[i] == 0
    ensures AllBusy(bufs, ROOTDEV, l.start + 1) <==> |blocks| == NBUF
  {
    if AllBusy(bufs, ROOTDEV, l.start + 1) {
      var nums := BlockNumbers(bufs);
      forall i, j | 0 <= i < j < NBUF ensures nums[i] != nums[j] {
        OnlyOneCopy(bufs, i, nums[i]);
      }
      DistinctCardinality(nums);
      assert Elements(nums) <= Elements(blocks);
      SubsetSize(Elements(nums), Elements(blocks));
      CardinalityBound(blocks);
    }
    if |blocks| == NBUF {
      var where := PinnedBuffers(bufs, pins, blocks);
      forall i, j | 0 <= i < j < |blocks| ensures where[i] != where[j] {
        assert !Repeats(blocks, i, j);
      }
      AllIndices(where, NBUF);
      forall b | 0 <= b < NBUF ensures bufs[b].refcnt > 0 && !Caches(bufs[b], ROOTDEV, l.start + 1) {
        assert b in where;
        var k :| 0 <= k < |where| && where[k] == b;
        assert l.IsHome(blocks[k], |disk|);
      }
    }
  }

  function PinnedBuffer(b: nat, data: Block): (r: Buf) {
    Buf(true, ROOTDEV, b, false, 1, data)
  }

  /**
   Such a transaction: LOGSIZE blocks from `first` on, each released by its writers and pinned, the rest of
   the cache empty.
   */
  lemma FullTransactionPanics(l: Layout, disk: Disk, view: Disk, first: nat, bufs: seq<Buf>, holds: seq<nat>,
                              pins: seq<nat>,
                              blocks: seq<nat>)
    requires l.Fits(|disk|) && l.start + l.size <= first && first + LOGSIZE <= |disk| == |view|
    requires forall b :: 0 <= b < |disk| && disk[b] != view[b] ==> first <= b < first + LOGSIZE
    requires |bufs| == NBUF && forall i :: 0 <= i < NBUF ==> bufs[i] == PinnedBuffer(first + i, view[first + i])
    requires holds == seq(NBUF, i => 0) && pins == seq(NBUF, i => 1)
    requires |blocks| == LOGSIZE && forall i :: 0 <= i < LOGSIZE ==> blocks[i] == first + i
    ensures LogOk(l, disk, view, bufs, pins, blocks) && Unique(bufs) && Coherent(bufs, disk, view, {})
    ensures Counted(bufs, holds, pins)
    ensures AllBusy(bufs, ROOTDEV, l.start + 1)
  {
    forall b | first <= b < first + LOGSIZE ensures b in blocks && PinnedAt(bufs, pins, b) {
      assert blocks[b - first] == b;
      assert Keeps(bufs[b - first], b) && pins[b - first] == 1;
    }
    forall b | 0 <= b < |disk| && disk[b] != view[b]
      ensures l.IsHome(b, |disk|) && exists i :: 0 <= i < NBUF && Backs(bufs[i], b, {})
    {
      assert Backs(bufs[b - first], b, {});
    }
    CommitNeedsABuffer(l, disk, view, bufs, holds, pins, blocks);
  }

  lemma {:induction false} CardinalityBound(s: seq<nat>)
    ensures |Elements(s)| <= |s|
  {
    if s == [] {
      assert Elements(s) == {};
    } else {
      var init, last := s[..|s| - 1], s[|s| - 1];
      CardinalityBound(init);
      assert Elements(s) == Elements(init) + {last};
    }
  }

  ghost function PinnedBuffers(bufs: seq<Buf>, pins: seq<nat>, blocks: seq<nat>): (r: seq<nat>)
    requires |bufs| == |pins| == NBUF && forall k :: 0 <= k < |blocks| ==> PinnedAt(bufs, pins, blocks[k])
    ensures |r| == |blocks|
    ensures forall k :: 0 <= k < |r| ==> r[k] < NBUF && Keeps(bufs[r[k]], blocks[k])
  {
    if blocks == [] then [] else
      assert PinnedAt(bufs, pins, blocks[|blocks| - 1]);
      var i :| 0 <= i < NBUF && Keeps(bufs[i], blocks[|blocks| - 1]) && pins[i] == 1;
      PinnedBuffers(bufs, pins, blocks[..|blocks| - 1]) + [i]
  }

  /** Bookkeeping for `WriteAhead`: the log writes, then the header write. */
  lemma LogThenHeader(l: Layout, d: Disk, blocks: seq<nat>, data: seq<Block>, w: seq<Write>)
    requires l.Fits(|d|) && |blocks| == |data| <= LOGSIZE
    ensures var lw, h := LogWrites(l, data), Write(l.start, PutHeader(d[l.start], blocks));
      && Apply(d, lw)[l.start] == d[l.start]
      && Apply(d, lw + [h]) == Apply(d, lw)[l.start := h.data]
      && w + lw + [h] == w + (lw + [h])
  {
    var lw := LogWrites(l, data);
    assert lw[..|data|] == lw;
    LogPrefix(l, d, data, |data|);
    ApplySnoc(d, lw, Write(l.start, PutHeader(d[l.start], blocks)));
  }

  /** Bookkeeping for `BringHome`: the installs, then the cleared header. */
  lemma InstallThenHeader(l: Layout, d: Disk, blocks: seq<nat>, data: seq<Block>, w: seq<Write>)
    requires l.Fits(|d|) && Transaction(l, |d|, blocks, data)
    ensures var iw, h := InstallWrites(blocks, data), Write(l.start, PutHeader(d[l.start], []));
      && Apply(d, iw)[l.start] == d[l.start]
      && Apply(d, iw + [h]) == Apply(d, iw)[l.start := h.data]
      && w + iw + [h] == w + (iw + [h])
  {
    var iw := InstallWrites(blocks, data);
    assert iw[..|data|] == iw;
    InstallPrefix(l, d, blocks, data, |data|);
    ApplySnoc(d, iw, Write(l.start, PutHeader(d[l.start], [])));
  }

  /** Installing blocks does not disturb the log block that comes next. */
  lemma NextLogBlock(l: Layout, d: Disk, blocks: seq<nat>, data: seq<Block>, k: nat)
    requires l.Fits(|d|) && Transaction(l, |d|, blocks, data) && k < |blocks|
    ensures Apply(d, InstallWrites(blocks, data)[..k])[l.start + 1 + k] == d[l.start + 1 + k]
    ensures blocks[k] < |d| && blocks[k] != l.start + 1 + k
  {
    InstallPrefix(l, d, blocks, data, k);
    assert l.IsHome(blocks[k], |d|);
  }

  /** The two halves, one after the other, are the commit's sequence of writes. */
  lemma CommitChain(l: Layout, d: Disk, blocks: seq<nat>, data: seq<Block>, w: seq<Write>)
    requires l.Fits(|d|) && |blocks| == |data| <= LOGSIZE && blocks != []
    ensures var lead := LogWrites(l, data) + [Write(l.start, PutHeader(d[l.start], blocks))];
      var e := Apply(d, lead);
      var rest := InstallWrites(blocks, data) + [Write(l.start, PutHeader(e[l.start], []))];
      var ws := CommitWrites(l, d[l.start], blocks, data);
      Apply(d, ws) == Apply(e, rest) && w + lead + rest == w + ws
  {
    var lead := LogWrites(l, data) + [Write(l.start, PutHeader(d[l.start], blocks))];
    var e := Apply(d, lead);
    var rest := InstallWrites(blocks, data) + [Write(l.start, PutHeader(e[l.start], []))];
    LogThenHeader(l, d, blocks, data, w);
    Regroup(LogWrites(l, data), [Write(l.start, PutHeader(d[l.start], blocks))],
            InstallWrites(blocks, data), [Write(l.start, PutHeader(e[l.start], []))], w);
    ApplyConcat(d, lead, rest);
  }

  lemma Regroup(a: seq<Write>, b: seq<Write>, c: seq<Write>, e: seq<Write>, w: seq<Write>)
    ensures a + b + c + e == (a + b) + (c + e)
    ensures w + (a + b) + (c + e) == w + (a + b + c + e)
  {
  }
}
