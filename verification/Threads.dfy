/**
 Thread groups of thread/kernel/paull04_thread.c and thread/kernel/proc.c: clone, join, sbrk,
 exit, fork and the reaping of a process, each in one step on one processor.

 The members of a group share one page table. It maps exactly the heap, TRAMPOLINE, TRAPFRAME
 and one page for the trap frame of every thread that is not reaped yet, and all members agree
 on the size. So clone never maps a page twice and freeing the table never meets a leaf.
 */
module Threads {

  import opened Params

  /** From KERNBASE to PHYSTOP: every page of a heap is one of these. */
  const RAM_PAGES := 128 * 1024 * 1024 / PGSIZE
  /** Virtual page numbers. */
  const TRAMPOLINE := 0x3FF_FFFF
  const TRAPFRAME := 0x3FF_FFFE

  /** Live stands for RUNNABLE, RUNNING and SLEEPING. */
  datatype Status = Unused | Live | Zombie

  /**
   `table` names the page table, `va` is the virtual page and `frame` the physical page of the trap frame,
   `stack` the address of the stack that the thread was started with.
   */
  datatype Proc = Proc(state: Status, pid: nat, mainPid: nat, main: nat, isThread: bool, table: nat, sz: nat,
                       va: nat, frame: nat, cnt: nat, stack: nat)

  datatype Leaf = Heap | Tramp | Frame(p: nat)

  type Key = (nat, nat)

  function PageUp(sz: nat): (r: nat) {
    (sz + PGSIZE - 1) / PGSIZE
  }

  /**
   `leaves` are the leaf PTEs of all page tables. The rest is bookkeeping: the main thread of
   every page table, the process of every pid, and the thread whose trap frame a page is.
   */
  datatype Groups = Groups(procs: seq<Proc>, leaves: map<Key, Leaf>, tables: map<nat, nat>,
                           pids: map<nat, nat>, slots: map<Key, nat>)

  predicate Used(g: Groups, i: nat) {
    i < |g.procs| && !g.procs[i].state.Unused?
  }

  predicate IsMain(g: Groups, m: nat) {
    Used(g, m) && !g.procs[m].isThread && g.procs[m].main == m
  }

  /** Every process belongs to a main thread and agrees with it. */
  predicate MemberOk(g: Groups, i: nat)
    requires i < |g.procs|
  {
    var p := g.procs[i];
    if p.state.Unused? then p.mainPid == 0 && !p.isThread
    else
      && IsMain(g, p.main) && p.pid > 0 && p.pid in g.pids && g.pids[p.pid] == i
      && (p.isThread <==> p.main != i)
      && var m := g.procs[p.main];
        p.mainPid == m.pid && p.table == m.table && p.sz == m.sz && (p.isThread ==> m.state.Live?)
  }

  /** A main thread has a page table of its own, a heap that fits in memory, and has not run out of thread numbers. */
  predicate MainOk(g: Groups, i: nat)
    requires i < |g.procs|
  {
    var p := g.procs[i];
    IsMain(g, i) ==> p.table in g.tables && g.tables[p.table] == i && PageUp(p.sz) <= RAM_PAGES && p.cnt < LIMIT
  }

  /** The trap frame of a thread is mapped at a page that is its own. */
  predicate ThreadOk(g: Groups, i: nat)
    requires i < |g.procs|
  {
    var p := g.procs[i];
    Used(g, i) && p.isThread && IsMain(g, p.main) ==>
      && TRAPFRAME - g.procs[p.main].cnt <= p.va < TRAPFRAME
      && (p.table, p.va) in g.slots && g.slots[(p.table, p.va)] == i
      && (p.table, p.va) in g.leaves && g.leaves[(p.table, p.va)] == Frame(p.frame)
  }

  predicate SlotOk(g: Groups, k: Key)
    requires k in g.slots
  {
    var i := g.slots[k];
    Used(g, i) && g.procs[i].isThread && k == (g.procs[i].table, g.procs[i].va)
  }

  /** The virtual pages a group's table must map. */
  predicate Belongs(g: Groups, k: Key) {
    k.0 in g.tables && IsMain(g, g.tables[k.0]) && g.procs[g.tables[k.0]].table == k.0 &&
    (k.1 < PageUp(g.procs[g.tables[k.0]].sz) || k.1 == TRAMPOLINE || k.1 == TRAPFRAME || k in g.slots)
  }

  ghost predicate Ok(g: Groups) {
    && |g.procs| == NPROC
    && (forall i: nat {:trigger MemberOk(g, i)} :: i < NPROC ==> MemberOk(g, i))
    && (forall i: nat {:trigger MainOk(g, i)} :: i < NPROC ==> MainOk(g, i))
    && (forall i: nat {:trigger ThreadOk(g, i)} :: i < NPROC ==> ThreadOk(g, i))
    && (forall k: Key {:trigger SlotOk(g, k)} :: k in g.slots ==> SlotOk(g, k))
    && (forall k: Key {:trigger Belongs(g, k)} :: k in g.leaves <==> Belongs(g, k))
    && (forall t :: t in g.tables ==> IsMain(g, g.tables[t]) && g.procs[g.tables[t]].table == t)
    && (forall n :: n in g.pids ==> Used(g, g.pids[n]) && g.procs[g.pids[n]].pid == n)
  }

  const NOBODY := Proc(Unused, 0, 0, 0, false, 0, 0, 0, 0, 0, 0)

  /** `procinit`: no process, no page table. */
  function NoGroups(): (g: Groups) {
    Groups(seq(NPROC, i => NOBODY), map[], map[], map[], map[])
  }

  lemma NoGroupsOk()
    ensures Ok(NoGroups())
  {
  }

  // ---- what the invariant says about one group ----

  /** The shared table maps exactly the heap, the two top pages and one page per thread. */
  lemma TableExact(g: Groups, m: nat, v: nat)
    requires Ok(g) && IsMain(g, m)
    ensures var t := g.procs[m].table;
      (t, v) in g.leaves <==>
        || v < PageUp(g.procs[m].sz) || v == TRAMPOLINE || v == TRAPFRAME
        || exists i: nat :: i < NPROC && ThreadAt(g, i, m, v)
  {
    assert MainOk(g, m);
    var t := g.procs[m].table;
    assert Belongs(g, (t, v)) <==> (t, v) in g.leaves;
    if (t, v) in g.slots {
      assert SlotOk(g, (t, v));
      var i := g.slots[(t, v)];
      assert MemberOk(g, i) && MainOk(g, g.procs[i].main);
      assert ThreadAt(g, i, m, v);
    }
    if i: nat :| i < NPROC && ThreadAt(g, i, m, v) {
      assert ThreadOk(g, i) && MemberOk(g, i);
    }
  }

  predicate ThreadAt(g: Groups, i: nat, m: nat, v: nat) {
    Used(g, i) && g.procs[i].isThread && g.procs[i].main == m && g.procs[i].va == v
  }

  /** Threads of one group have different pages, none of them in the heap. */
  lemma ThreadsApart(g: Groups, i: nat, j: nat)
    requires Ok(g) && Used(g, i) && Used(g, j) && g.procs[i].isThread && g.procs[j].isThread
    requires g.procs[i].main == g.procs[j].main && i != j
    ensures g.procs[i].va != g.procs[j].va && g.procs[i].va >= PageUp(g.procs[i].sz)
  {
    assert ThreadOk(g, i) && ThreadOk(g, j) && MemberOk(g, i) && MemberOk(g, j);
    assert MainOk(g, g.procs[i].main);
  }

  /** Members of one group agree on the size and the table; members of different groups share no table. */
  lemma GroupsAgree(g: Groups, i: nat, j: nat)
    requires Ok(g) && Used(g, i) && Used(g, j)
    ensures g.procs[i].main == g.procs[j].main <==> g.procs[i].table == g.procs[j].table
    ensures g.procs[i].main == g.procs[j].main <==> g.procs[i].mainPid == g.procs[j].mainPid
    ensures g.procs[i].main == g.procs[j].main ==> g.procs[i].sz == g.procs[j].sz
  {
    assert MemberOk(g, i) && MemberOk(g, j);
    assert MainOk(g, g.procs[i].main) && MainOk(g, g.procs[j].main);
    assert MemberOk(g, g.procs[i].main) && MemberOk(g, g.procs[j].main);
  }

  // ---- the page of the next thread ----

  /** `int` arithmetic, wrapped to 32 bits. */
  function Int32(x: int): (r: int) {
    var y := x % 0x1_0000_0000;
    if y < 0x8000_0000 then y else y - 0x1_0000_0000
  }

  const MAXVA := 0x40_0000_0000

  /** `TRAPFRAME - (cnt * PGSIZE)`: the product is one of two `int`s. */
  function FrameAddr(cnt: nat): (r: int) {
    TRAPFRAME * PGSIZE - Int32(cnt * PGSIZE)
  }

  /** The count at which the product overflows. */
  const LIMIT := 0x8_0000

  /**
   The address is the page meant exactly as long as the product is an `int`; at the first overflow it is
   beyond MAXVA.
   */
  lemma FrameAddrIs(cnt: nat)
    ensures FrameAddr(cnt) == (TRAPFRAME - cnt) * PGSIZE <==> cnt < LIMIT
    ensures cnt <= LIMIT ==> (FrameAddr(cnt) < MAXVA <==> cnt < LIMIT)
  {
  }

  /**
   The 524288th clone of a group, with everything else in order: one page of heap, no thread left, and no
   table page needed.
   */
  lemma CloneOverflows()
    ensures var g := Forked(NoGroups(), 0, 1, 0, 0, 1);
      && var h := g.(procs := g.procs[0 := g.procs[0].(cnt := LIMIT - 1)]);
      && Ok(h) && IsMain(h, 0) && NoThreads(h, 0) && NewTables(h.procs[0].cnt) == 0
      && FrameAddr(h.procs[0].cnt + 1) == TRAPFRAME * PGSIZE + 0x8000_0000 >= MAXVA
  {
    NoGroupsOk();
    ForkKeeps(NoGroups(), 0, 1, 0, 0, 1);
    var g := Forked(NoGroups(), 0, 1, 0, 0, 1);
    CountStays(g, 0, LIMIT - 1);
    TablesNeeded(LIMIT - 1);
  }

  /** The count may be anything in a group whose threads are all gone. */
  lemma CountStays(g: Groups, m: nat, cnt: nat)
    requires Ok(g) && IsMain(g, m) && NoThreads(g, m) && cnt < LIMIT
    ensures var h := g.(procs := g.procs[m := g.procs[m].(cnt := cnt)]); Ok(h) && IsMain(h, m) && NoThreads(h, m)
  {
    hide PageUp;
    var h := g.(procs := g.procs[m := g.procs[m].(cnt := cnt)]);
    forall j: nat | j < NPROC ensures MemberOk(h, j) && MainOk(h, j) && ThreadOk(h, j) {
      assert MemberOk(g, j) && MainOk(g, j) && ThreadOk(g, j);
    }
    forall q: Key | q in h.slots ensures SlotOk(h, q) {
      assert SlotOk(g, q);
    }
    forall q: Key ensures q in h.leaves <==> Belongs(h, q) {
      assert Belongs(g, q) <==> q in g.leaves;
    }
  }

  /**
   Below that count the page of the next thread is never mapped already: it lies below all the others and
   far above the heap.
   */
  lemma CloneNeverRemaps(g: Groups, m: nat)
    requires Ok(g) && IsMain(g, m)
    ensures g.procs[m].cnt + 1 <= LIMIT < TRAPFRAME - RAM_PAGES
    ensures (g.procs[m].table, TRAPFRAME - (g.procs[m].cnt + 1)) !in g.leaves
  {
    assert MainOk(g, m);
    var k := (g.procs[m].table, TRAPFRAME - (g.procs[m].cnt + 1));
    assert Belongs(g, k) <==> k in g.leaves;
    if k in g.slots {
      SlotBelow(g, m, k);
    }
  }

  lemma SlotBelow(g: Groups, m: nat, k: Key)
    requires Ok(g) && IsMain(g, m) && k in g.slots && k.0 == g.procs[m].table
    ensures TRAPFRAME - g.procs[m].cnt <= k.1 < TRAPFRAME
  {
    assert SlotOk(g, k);
    var i := g.slots[k];
    GroupsAgree(g, i, m);
    assert ThreadOk(g, i) && MemberOk(g, i);
  }

  // ---- page-table pages ----

  /** Entries of a page-table page. */
  const PTES := 512

  /**
   The page-table pages, last level and the level above it, in which TRAPFRAME and the first `cnt` threads of a
   group had their trap frames. `uvmunmap` clears entries and frees no page-table page, so they all stay.
   */
  ghost function FrameTables(cnt: nat, span: nat): (r: set<nat>)
    requires cnt <= TRAPFRAME && span > 0
  {
    set v | TRAPFRAME - cnt <= v <= TRAPFRAME :: v / span
  }

  /** How many page-table pages `walk` has to allocate for the next thread. */
  ghost function NewTables(cnt: nat): (r: nat)
    requires cnt < TRAPFRAME
  {
    var v := TRAPFRAME - (cnt + 1);
    (if v / PTES in FrameTables(cnt, PTES) then 0 else 1)
    + (if v / (PTES * PTES) in FrameTables(cnt, PTES * PTES) then 0 else 1)
  }

  lemma InFrameTables(cnt: nat, span: nat)
    requires cnt < TRAPFRAME && span > 0
    ensures (TRAPFRAME - (cnt + 1)) / span in FrameTables(cnt, span) <==>
      (TRAPFRAME - (cnt + 1)) / span == (TRAPFRAME - cnt) / span
  {
    var v := TRAPFRAME - (cnt + 1);
    if v / span == (v + 1) / span {
      assert TRAPFRAME - cnt <= v + 1 <= TRAPFRAME;
    }
    if v / span in FrameTables(cnt, span) {
      var u :| TRAPFRAME - cnt <= u <= TRAPFRAME && u / span == v / span;
      DivMonotone(v, v + 1, span);
      DivMonotone(v + 1, u, span);
    }
  }

  lemma DivMonotone(a: nat, b: nat, k: nat)
    requires a <= b && k > 0
    ensures a / k <= b / k
  {
    var x, y := a / k, b / k;
    MulMonotone(k, y + 1, x);
  }

  lemma MulMonotone(k: nat, x: nat, y: nat)
    requires k > 0
    ensures x <= y ==> k * x <= k * y
  {
  }

  function TablesFor(cnt: nat): (r: nat) {
    (if cnt % PTES == PTES - 2 then 1 else 0) + (if cnt % (PTES * PTES) == PTES * PTES - 2 then 1 else 0)
  }

  /**
   The next clone has to allocate a page-table page exactly when its group has had 510 threads, or 512 more, and so
   on, however many of them are gone; and a second one exactly when it has had 2^18 - 2, or 2^18 more, and so on.
   */
  lemma TablesNeeded(cnt: nat)
    requires cnt < TRAPFRAME
    ensures NewTables(cnt) == TablesFor(cnt)
  {
    hide FrameTables;
    InFrameTables(cnt, PTES);
    InFrameTables(cnt, PTES * PTES);
    LastLevel(cnt);
    LevelAbove(cnt);
  }

  lemma LastLevel(cnt: nat)
    requires cnt < TRAPFRAME
    ensures (TRAPFRAME - (cnt + 1)) / PTES == (TRAPFRAME - cnt) / PTES <==> cnt % PTES != PTES - 2
  {
  }

  lemma LevelAbove(cnt: nat)
    requires cnt < TRAPFRAME
    ensures var span := PTES * PTES; (TRAPFRAME - (cnt + 1)) / span == (TRAPFRAME - cnt) / span <==>
      cnt % span != span - 2
  {
    assert PTES * PTES == 262144;
  }

  /** None of these pages is one of the heap's. */
  lemma HeapTablesApart(h: nat, cnt: nat)
    requires h < RAM_PAGES && cnt <= LIMIT
    ensures h / (PTES * PTES) < (TRAPFRAME - cnt) / (PTES * PTES) && h / PTES < (TRAPFRAME - cnt) / PTES
  {
  }

  // ---- clone ----

  function NewThread(p: Proc, pid: nat, va: nat, frame: nat, cnt: nat, stack: nat): (r: Proc) {
    Proc(Live, pid, p.mainPid, p.main, true, p.table, p.sz, va, frame, cnt, stack)
  }

  /** The state after `paull04_clone` by `c` into slot `i`. */
  function Cloned(g: Groups, c: nat, i: nat, pid: nat, frame: nat, stack: nat): (r: Groups)
    requires Used(g, c) && g.procs[c].main < |g.procs| && i < |g.procs| && g.procs[g.procs[c].main].cnt < TRAPFRAME
  {
    var p := g.procs[c];
    var m := g.procs[p.main];
    var va := TRAPFRAME - (m.cnt + 1);
    Groups(g.procs[p.main := m.(cnt := m.cnt + 1)][i := NewThread(p, pid, va, frame, g.procs[i].cnt, stack)],
           g.leaves[(p.table, va) := Frame(frame)], g.tables, g.pids[pid := i], g.slots[(p.table, va) := i])
  }

  lemma CloneKeeps(g: Groups, c: nat, i: nat, pid: nat, frame: nat, stack: nat)
    requires Ok(g) && Used(g, c) && g.procs[c].state.Live? && i < NPROC && !Used(g, i) && pid > 0 && pid !in g.pids
    requires g.procs[c].main < NPROC && g.procs[g.procs[c].main].cnt + 1 < LIMIT
    ensures (g.procs[c].table, TRAPFRAME - (g.procs[g.procs[c].main].cnt + 1)) !in g.leaves
    ensures Ok(Cloned(g, c, i, pid, frame, stack))
  {
    hide MemberOk, MainOk, ThreadOk, SlotOk, Belongs, PageUp;
    var h, m := Cloned(g, c, i, pid, frame, stack), g.procs[c].main;
    var k := (g.procs[c].table, TRAPFRAME - (g.procs[m].cnt + 1));
    CloneFree(g, c);
    forall j: nat | j < NPROC ensures MemberOk(h, j) && MainOk(h, j) && ThreadOk(h, j) {
      CloneMember(g, c, i, pid, frame, stack, j);
      CloneThread(g, c, i, pid, frame, stack, j);
    }
    forall q: Key | q in h.slots ensures SlotOk(h, q) {
      CloneSlot(g, c, i, pid, frame, stack, q);
    }
    forall q: Key ensures q in h.leaves <==> Belongs(h, q) {
      CloneLeaf(g, c, i, pid, frame, stack, q);
    }
  }

  lemma CloneFree(g: Groups, c: nat)
    requires Ok(g) && Used(g, c) && g.procs[c].main < NPROC && g.procs[g.procs[c].main].cnt + 1 < LIMIT
    ensures (g.procs[c].table, TRAPFRAME - (g.procs[g.procs[c].main].cnt + 1)) !in g.leaves
    ensures IsMain(g, g.procs[c].main)
  {
    hide PageUp;
    assert MemberOk(g, c);
    CloneNeverRemaps(g, g.procs[c].main);
  }

  /** What clone may assume. */
  ghost predicate CanClone(g: Groups, c: nat, i: nat, pid: nat) {
    && Ok(g) && Used(g, c) && g.procs[c].state.Live? && i < NPROC && !Used(g, i) && pid > 0 && pid !in g.pids
    && g.procs[c].main < NPROC && g.procs[g.procs[c].main].cnt + 1 < LIMIT
  }

  lemma CloneMember(g: Groups, c: nat, i: nat, pid: nat, frame: nat, stack: nat, j: nat)
    requires CanClone(g, c, i, pid) && j < NPROC
    ensures MemberOk(Cloned(g, c, i, pid, frame, stack), j) && MainOk(Cloned(g, c, i, pid, frame, stack), j)
  {
    hide PageUp, ThreadOk, SlotOk, Belongs;
    assert MemberOk(g, c) && MemberOk(g, j) && MainOk(g, j);
    assert MemberOk(g, g.procs[c].main);
  }

  lemma CloneThread(g: Groups, c: nat, i: nat, pid: nat, frame: nat, stack: nat, j: nat)
    requires CanClone(g, c, i, pid) && j < NPROC
    ensures ThreadOk(Cloned(g, c, i, pid, frame, stack), j)
  {
    hide PageUp, SlotOk, Belongs;
    CloneFree(g, c);
    assert MemberOk(g, c) && MemberOk(g, j) && ThreadOk(g, j);
  }

  lemma CloneSlot(g: Groups, c: nat, i: nat, pid: nat, frame: nat, stack: nat, q: Key)
    requires CanClone(g, c, i, pid) && q in Cloned(g, c, i, pid, frame, stack).slots
    ensures SlotOk(Cloned(g, c, i, pid, frame, stack), q)
  {
    hide PageUp, Belongs, MainOk, ThreadOk;
    assert MemberOk(g, c);
    if q in g.slots {
      assert SlotOk(g, q);
    }
  }

  lemma CloneLeaf(g: Groups, c: nat, i: nat, pid: nat, frame: nat, stack: nat, q: Key)
    requires CanClone(g, c, i, pid)
    ensures q in Cloned(g, c, i, pid, frame, stack).leaves <==> Belongs(Cloned(g, c, i, pid, frame, stack), q)
  {
    hide PageUp, SlotOk, ThreadOk;
    assert MemberOk(g, c);
    assert MainOk(g, g.procs[c].main);
    assert Belongs(g, q) <==> q in g.leaves;
  }

  // ---- freethread ----

  function Cleared(p: Proc): (r: Proc) {
    Proc(Unused, 0, 0, 0, false, 0, 0, 0, 0, p.cnt, p.stack)
  }

  function WithoutThread(g: Groups, i: nat): (r: Groups)
    requires i < |g.procs|
  {
    var p := g.procs[i];
    var k := (p.table, p.va);
    Groups(g.procs[i := Cleared(p)], g.leaves - {k}, g.tables, g.pids - {p.pid}, g.slots - {k})
  }

  lemma FreethreadKeeps(g: Groups, i: nat)
    requires Ok(g) && Used(g, i) && g.procs[i].isThread
    ensures (g.procs[i].table, g.procs[i].va) in g.leaves && Ok(WithoutThread(g, i))
    ensures g.leaves[(g.procs[i].table, g.procs[i].va)] == Frame(g.procs[i].frame)
  {
    var h, k := WithoutThread(g, i), (g.procs[i].table, g.procs[i].va);
    assert MemberOk(g, i);
    assert ThreadOk(g, i);
    forall j: nat | j < NPROC ensures MemberOk(h, j) && MainOk(h, j) && ThreadOk(h, j) {
      assert MemberOk(g, j) && MainOk(g, j) && ThreadOk(g, j);
    }
    forall q: Key | q in h.slots ensures SlotOk(h, q) {
      assert SlotOk(g, q);
    }
    assert MainOk(g, g.procs[i].main);
    forall q: Key ensures q in h.leaves <==> Belongs(h, q) {
      assert Belongs(g, q) <==> q in g.leaves;
    }
  }

  // ---- exit ----

  /** No thread of the group is left, reaped or not. */
  predicate NoThreads(g: Groups, m: nat) {
    forall j: nat :: j < |g.procs| && Used(g, j) && g.procs[j].isThread ==> g.procs[j].main != m
  }

  lemma ZombieKeeps(g: Groups, i: nat)
    requires Ok(g) && Used(g, i) && (!g.procs[i].isThread ==> NoThreads(g, i))
    ensures Ok(g.(procs := g.procs[i := g.procs[i].(state := Zombie)]))
  {
    var h := g.(procs := g.procs[i := g.procs[i].(state := Zombie)]);
    forall j: nat | j < NPROC ensures MemberOk(h, j) && MainOk(h, j) && ThreadOk(h, j) {
      assert MemberOk(g, j) && MainOk(g, j) && ThreadOk(g, j);
    }
    forall q: Key | q in h.slots ensures SlotOk(h, q) {
      assert SlotOk(g, q);
    }
    forall q: Key ensures q in h.leaves <==> Belongs(h, q) {
      assert Belongs(g, q) <==> q in g.leaves;
    }
  }

  // ---- sbrk ----

  /** Heap pages from `a` up to `b` in one table. */
  function HeapRange(t: nat, a: nat, b: nat): (r: map<Key, Leaf>)
    ensures forall q :: q in r <==> q.0 == t && a <= q.1 < b
    decreases b
  {
    if b <= a then map[] else HeapRange(t, a, b - 1)[(t, b - 1) := Heap]
  }

  function Resized(g: Groups, m: nat, sz: nat): (r: seq<Proc>)
    requires m < |g.procs|
    ensures |r| == |g.procs|
  {
    seq(|g.procs|, i requires 0 <= i < |g.procs| =>
      if g.procs[i].mainPid == g.procs[m].pid then g.procs[i].(sz := sz) else g.procs[i])
  }

  function Grown(g: Groups, m: nat, sz: nat): (r: Groups)
    requires m < |g.procs|
  {
    var p := g.procs[m];
    g.(procs := Resized(g, m, sz),
       leaves := g.leaves - HeapRange(p.table, PageUp(sz), PageUp(p.sz)).Keys
                 + HeapRange(p.table, PageUp(p.sz), PageUp(sz)))
  }

  /** Everyone in the group, and nobody else, gets the new size. */
  lemma ResizedIs(g: Groups, m: nat, sz: nat, i: nat)
    requires Ok(g) && IsMain(g, m) && i < NPROC
    ensures Resized(g, m, sz)[i] == if Used(g, i) && g.procs[i].main == m then g.procs[i].(sz := sz) else g.procs[i]
  {
    assert MemberOk(g, i) && MemberOk(g, m);
    if Used(g, i) {
      GroupsAgree(g, i, m);
    }
  }

  lemma GrowKeeps(g: Groups, m: nat, sz: nat)
    requires Ok(g) && IsMain(g, m) && PageUp(sz) <= RAM_PAGES
    ensures Ok(Grown(g, m, sz))
    ensures forall v :: PageUp(sz) <= v < PageUp(g.procs[m].sz) ==> (g.procs[m].table, v) in g.leaves
    ensures forall v :: PageUp(g.procs[m].sz) <= v < PageUp(sz) ==> (g.procs[m].table, v) !in g.leaves
  {
    hide PageUp, HeapRange;
    var h, t := Grown(g, m, sz), g.procs[m].table;
    assert MainOk(g, m);
    forall j: nat | j < NPROC && Used(g, j) && g.procs[j].isThread && (g.procs[j].table, g.procs[j].va) in g.leaves
      ensures var k := (g.procs[j].table, g.procs[j].va); k in h.leaves && h.leaves[k] == g.leaves[k]
    {
      assert MemberOk(g, j) && ThreadOk(g, j);
      if g.procs[j].table == t {
        SlotBelow(g, m, (t, g.procs[j].va));
      }
    }
    forall j: nat | j < NPROC
      ensures h.procs[j] == if Used(g, j) && g.procs[j].main == m then g.procs[j].(sz := sz) else g.procs[j]
    {
      ResizedIs(g, m, sz, j);
    }
    GrowMembers(g, h, m, sz);
    forall v: nat
      ensures (t, v) in g.leaves <==>
        v < PageUp(g.procs[m].sz) || v == TRAMPOLINE || v == TRAPFRAME || (t, v) in g.slots
    {
      assert Belongs(g, (t, v)) <==> (t, v) in g.leaves;
    }
    forall v: nat | (t, v) in g.slots ensures v >= PageUp(g.procs[m].sz) && v >= PageUp(sz) {
      SlotBelow(g, m, (t, v));
    }
    forall q: Key ensures q in h.leaves <==> Belongs(h, q) {
      assert Belongs(g, q) <==> q in g.leaves;
    }
  }

  lemma GrowMembers(g: Groups, h: Groups, m: nat, sz: nat)
    requires Ok(g) && IsMain(g, m) && PageUp(sz) <= RAM_PAGES && |h.procs| == NPROC
    requires h.tables == g.tables && h.pids == g.pids && h.slots == g.slots
    requires forall j: nat :: j < NPROC ==>
      h.procs[j] == if Used(g, j) && g.procs[j].main == m then g.procs[j].(sz := sz) else g.procs[j]
    requires forall j: nat :: j < NPROC && Used(g, j) && g.procs[j].isThread ==>
      var k := (g.procs[j].table, g.procs[j].va); k in g.leaves ==> k in h.leaves && h.leaves[k] == g.leaves[k]
    ensures forall j: nat {:trigger MemberOk(h, j)} :: j < NPROC ==> MemberOk(h, j)
    ensures forall j: nat {:trigger MainOk(h, j)} :: j < NPROC ==> MainOk(h, j)
    ensures forall j: nat {:trigger ThreadOk(h, j)} :: j < NPROC ==> ThreadOk(h, j)
    ensures forall k: Key {:trigger SlotOk(h, k)} :: k in h.slots ==> SlotOk(h, k)
    ensures forall t :: t in h.tables ==> IsMain(h, h.tables[t]) && h.procs[h.tables[t]].table == t
    ensures forall n :: n in h.pids ==> Used(h, h.pids[n]) && h.procs[h.pids[n]].pid == n
  {
    hide PageUp;
    forall j: nat | j < NPROC ensures MemberOk(h, j) && MainOk(h, j) && ThreadOk(h, j) {
      assert MemberOk(g, j) && MainOk(g, j) && ThreadOk(g, j);
      assert MemberOk(g, m);
    }
    forall q: Key | q in h.slots ensures SlotOk(h, q) {
      assert SlotOk(g, q);
    }
  }

  // ---- fork, and the end of a process ----

  /** `stack` is what the slot was left with. */
  function NewMain(i: nat, pid: nat, t: nat, frame: nat, sz: nat, stack: nat): (r: Proc) {
    Proc(Live, pid, pid, i, false, t, sz, TRAPFRAME, frame, 0, stack)
  }

  function TopPages(t: nat, frame: nat): (r: map<Key, Leaf>) {
    map[(t, TRAMPOLINE) := Tramp, (t, TRAPFRAME) := Frame(frame)]
  }

  function Forked(g: Groups, i: nat, pid: nat, t: nat, frame: nat, sz: nat): (r: Groups)
    requires i < |g.procs|
  {
    Groups(g.procs[i := NewMain(i, pid, t, frame, sz, g.procs[i].stack)],
           g.leaves + HeapRange(t, 0, PageUp(sz)) + TopPages(t, frame), g.tables[t := i], g.pids[pid := i], g.slots)
  }

  lemma ForkKeeps(g: Groups, i: nat, pid: nat, t: nat, frame: nat, sz: nat)
    requires Ok(g) && i < NPROC && !Used(g, i) && pid > 0 && pid !in g.pids && t !in g.tables && PageUp(sz) <= RAM_PAGES
    ensures Ok(Forked(g, i, pid, t, frame, sz))
  {
    hide PageUp, HeapRange, TopPages, MemberOk, MainOk, ThreadOk, SlotOk, Belongs;
    var h := Forked(g, i, pid, t, frame, sz);
    TableUnused(g, t);
    ForkNames(g, i, pid, t, frame, sz);
    forall j: nat | j < NPROC ensures MemberOk(h, j) && MainOk(h, j) && ThreadOk(h, j) {
      ForkMember(g, i, pid, t, frame, sz, j);
      ForkThread(g, i, pid, t, frame, sz, j);
    }
    forall q: Key ensures (q in h.slots ==> SlotOk(h, q)) && (q in h.leaves <==> Belongs(h, q)) {
      ForkLeaf(g, i, pid, t, frame, sz, q);
    }
  }

  lemma ForkNames(g: Groups, i: nat, pid: nat, t: nat, frame: nat, sz: nat)
    requires Ok(g) && i < NPROC && !Used(g, i) && pid !in g.pids && t !in g.tables
    ensures var h := Forked(g, i, pid, t, frame, sz);
      && (forall x :: x in h.tables ==> IsMain(h, h.tables[x]) && h.procs[h.tables[x]].table == x)
      && (forall n :: n in h.pids ==> Used(h, h.pids[n]) && h.procs[h.pids[n]].pid == n)
  {
    hide PageUp, HeapRange, TopPages, MemberOk, MainOk, ThreadOk, SlotOk, Belongs;
  }

  lemma ForkMember(g: Groups, i: nat, pid: nat, t: nat, frame: nat, sz: nat, j: nat)
    requires Ok(g) && i < NPROC && !Used(g, i) && pid > 0 && pid !in g.pids && t !in g.tables
    requires PageUp(sz) <= RAM_PAGES && j < NPROC
    ensures MemberOk(Forked(g, i, pid, t, frame, sz), j) && MainOk(Forked(g, i, pid, t, frame, sz), j)
  {
    hide PageUp, HeapRange, TopPages, ThreadOk, SlotOk, Belongs;
    assert MemberOk(g, j) && MainOk(g, j);
  }

  lemma ForkThread(g: Groups, i: nat, pid: nat, t: nat, frame: nat, sz: nat, j: nat)
    requires Ok(g) && i < NPROC && !Used(g, i) && t !in g.tables && j < NPROC
    requires forall x: nat :: x < NPROC && Used(g, x) ==> g.procs[x].table != t
    ensures ThreadOk(Forked(g, i, pid, t, frame, sz), j)
  {
    hide PageUp, HeapRange, SlotOk, Belongs, MainOk;
    assert MemberOk(g, j) && ThreadOk(g, j);
  }

  lemma TableUnused(g: Groups, t: nat)
    requires Ok(g) && t !in g.tables
    ensures forall k: Key :: k.0 == t ==> k !in g.leaves && k !in g.slots
    ensures forall j: nat :: j < NPROC && Used(g, j) ==> g.procs[j].table != t
  {
    forall k: Key | k.0 == t ensures k !in g.leaves && k !in g.slots {
      assert Belongs(g, k) <==> k in g.leaves;
      if k in g.slots {
        assert SlotOk(g, k);
        TableKnown(g, g.slots[k]);
      }
    }
    forall j: nat | j < NPROC && Used(g, j) ensures g.procs[j].table != t {
      TableKnown(g, j);
    }
  }

  lemma TableKnown(g: Groups, i: nat)
    requires Ok(g) && Used(g, i)
    ensures g.procs[i].table in g.tables
  {
    assert MemberOk(g, i);
    assert MainOk(g, g.procs[i].main);
  }

  lemma ForkLeaf(g: Groups, i: nat, pid: nat, t: nat, frame: nat, sz: nat, q: Key)
    requires Ok(g) && i < NPROC && !Used(g, i) && t !in g.tables
    requires (forall k: Key :: k.0 == t ==> k !in g.leaves && k !in g.slots)
    ensures var h := Forked(g, i, pid, t, frame, sz);
      (q in h.slots ==> SlotOk(h, q)) && (q in h.leaves <==> Belongs(h, q))
  {
    hide PageUp, HeapRange, MemberOk, MainOk, ThreadOk;
    if q in g.slots {
      assert SlotOk(g, q);
    }
    assert Belongs(g, q) <==> q in g.leaves;
  }

  function Reaped(g: Groups, m: nat): (r: Groups)
    requires m < |g.procs|
  {
    var p := g.procs[m];
    Groups(g.procs[m := Cleared(p)],
           g.leaves - {(p.table, TRAMPOLINE)} - {(p.table, TRAPFRAME)} - HeapRange(p.table, 0, PageUp(p.sz)).Keys,
           g.tables - {p.table}, g.pids - {p.pid}, g.slots)
  }

  /** What `proc_freepagetable` unmaps is mapped, and is all there is: `freewalk` meets no leaf. */
  lemma ReapKeeps(g: Groups, m: nat)
    requires Ok(g) && IsMain(g, m) && NoThreads(g, m)
    ensures var t := g.procs[m].table;
      && (t, TRAMPOLINE) in g.leaves && (t, TRAPFRAME) in g.leaves
      && forall v :: 0 <= v < PageUp(g.procs[m].sz) ==> (t, v) in g.leaves
    ensures forall k :: k in Reaped(g, m).leaves ==> k.0 != g.procs[m].table
    ensures Ok(Reaped(g, m))
  {
    hide PageUp, HeapRange;
    var h, t := Reaped(g, m), g.procs[m].table;
    assert MainOk(g, m) && MemberOk(g, m);
    forall k: Key | k.0 == t
      ensures k !in g.slots
      ensures k in g.leaves <==> k.1 < PageUp(g.procs[m].sz) || k.1 == TRAMPOLINE || k.1 == TRAPFRAME
    {
      assert Belongs(g, k) <==> k in g.leaves;
      if k in g.slots {
        assert SlotOk(g, k);
        GroupsAgree(g, g.slots[k], m);
      }
    }
    ReapMembers(g, m);
    forall q: Key ensures (q in h.slots ==> SlotOk(h, q)) && (q in h.leaves <==> Belongs(h, q)) {
      if q in g.slots {
        assert SlotOk(g, q);
      }
      assert Belongs(g, q) <==> q in g.leaves;
    }
  }

  lemma ReapMembers(g: Groups, m: nat)
    requires Ok(g) && IsMain(g, m) && NoThreads(g, m)
    ensures var h := Reaped(g, m);
      && (forall i: nat {:trigger MemberOk(h, i)} :: i < NPROC ==> MemberOk(h, i))
      && (forall i: nat {:trigger MainOk(h, i)} :: i < NPROC ==> MainOk(h, i))
      && (forall i: nat {:trigger ThreadOk(h, i)} :: i < NPROC ==> ThreadOk(h, i))
  {
    hide PageUp, HeapRange, SlotOk, Belongs;
    var h := Reaped(g, m);
    assert MainOk(g, m) && MemberOk(g, m);
    forall j: nat | j < NPROC ensures MemberOk(h, j) && MainOk(h, j) && ThreadOk(h, j) {
      assert MemberOk(g, j) && MainOk(g, j) && ThreadOk(g, j);
      if Used(g, j) && j != m {
        GroupsAgree(g, j, m);
        ReapSpares(g, m, j);
      }
    }
  }

  lemma ReapSpares(g: Groups, m: nat, j: nat)
    requires Ok(g) && IsMain(g, m) && NoThreads(g, m) && Used(g, j) && j != m
    ensures g.procs[j].table != g.procs[m].table
  {
    hide PageUp, SlotOk, Belongs, ThreadOk;
    assert MemberOk(g, j) && MemberOk(g, m);
    GroupsAgree(g, j, m);
  }

  /** The group of a used slot, by pid as the loops in the source test it. */
  lemma SameGroup(g: Groups, i: nat, m: nat)
    requires Ok(g) && IsMain(g, m) && i < NPROC
    ensures g.procs[i].mainPid == g.procs[m].pid <==> Used(g, i) && g.procs[i].main == m
    ensures Used(g, i) ==> IsMain(g, g.procs[i].main) && g.procs[i].table == g.procs[g.procs[i].main].table
  {
    assert MemberOk(g, i) && MemberOk(g, m);
    if Used(g, i) {
      GroupsAgree(g, i, m);
    }
  }

  /** What a system call does: it returns, or the kernel panics and nothing happens any more. */
  datatype Call = Returns(value: int) | Panics

  predicate FirstUnused(procs: seq<Proc>, i: nat) {
    i < |procs| && procs[i].state.Unused? && forall j: nat :: j < i ==> !procs[j].state.Unused?
  }

  lemma OnlyFirst(procs: seq<Proc>, i: nat)
    requires FirstUnused(procs, i)
    ensures forall j: nat :: FirstUnused(procs, j) ==> j == i
  {
  }

  /** When clone panics, with `left` pages after the one for the trap frame. */
  ghost predicate CloneFails(g: Groups, c: nat, left: nat) {
    && Used(g, c) && IsMain(g, g.procs[c].main)
    && var cnt := g.procs[g.procs[c].main].cnt;
    cnt + 1 >= LIMIT || left < NewTables(cnt)
  }

  /** Slot `i` is a new thread of the caller's group, on the stack it was given; nothing else but a count changes. */
  ghost predicate ThreadStarted(g: Groups, c: nat, i: nat, frame: nat, stack: nat, h: Groups)
    requires |g.procs| == |h.procs| && Used(g, c) && i < |g.procs|
  {
    var p, q := g.procs[c], h.procs[i];
    && p.main < |g.procs| && q.state.Live? && q.pid > 0 && q.isThread && q.main == p.main && q.mainPid == p.mainPid
    && q.table == p.table && q.sz == p.sz && q.frame == frame && q.stack == stack && q.cnt == g.procs[i].cnt
    && q.va == TRAPFRAME - (g.procs[p.main].cnt + 1)
    && (q.table, q.va) !in g.leaves && h.leaves == g.leaves[(q.table, q.va) := Frame(frame)]
    && (forall j: nat :: j < |g.procs| && j != i ==>
          h.procs[j] == if j == p.main then g.procs[j].(cnt := g.procs[j].cnt + 1) else g.procs[j])
    && h.tables == g.tables && h.pids == g.pids[q.pid := i] && h.slots == g.slots[(q.table, q.va) := i]
  }

  /** Slot `i` is a process of its own whose table maps its heap and the two top pages and nothing else. */
  ghost predicate GroupStarted(g: Groups, i: nat, pid: nat, t: nat, frame: nat, sz: nat, h: Groups)
    requires |g.procs| == |h.procs| && i < |g.procs|
  {
    var q := h.procs[i];
    && q.state.Live? && !q.isThread && q.main == i && q.pid == q.mainPid == pid
    && q.table == t && q.sz == sz && q.va == TRAPFRAME && q.frame == frame && q.cnt == 0
    && q.stack == g.procs[i].stack && h.tables == g.tables[t := i] && h.pids == g.pids[pid := i] && h.slots == g.slots
    && (forall j: nat :: j < |g.procs| && j != i ==> h.procs[j] == g.procs[j])
    && (forall k: Key :: k in h.leaves <==>
          if k.0 == t then k.1 < PageUp(sz) || k.1 == TRAMPOLINE || k.1 == TRAPFRAME else k in g.leaves)
    && (forall k: Key :: k in h.leaves ==>
          h.leaves[k] == if k.0 != t then g.leaves[k] else TopOrHeap(k.1, frame))
  }

  function TopOrHeap(v: nat, frame: nat): (r: Leaf) {
    if v == TRAMPOLINE then Tramp else if v == TRAPFRAME then Frame(frame) else Heap
  }

  /** Process `m` is gone with its table, and nothing else. */
  ghost predicate GroupGone(g: Groups, m: nat, h: Groups)
    requires |g.procs| == |h.procs| && m < |g.procs|
  {
    && h.procs[m] == NOBODY.(cnt := g.procs[m].cnt, stack := g.procs[m].stack)
    && h.tables == g.tables - {g.procs[m].table} && h.pids == g.pids - {g.procs[m].pid} && h.slots == g.slots
    && (forall j: nat :: j < |g.procs| && j != m ==> h.procs[j] == g.procs[j])
    && (forall k: Key :: k in h.leaves <==> k in g.leaves && k.0 != g.procs[m].table)
    && (forall k: Key :: k in h.leaves ==> h.leaves[k] == g.leaves[k])
  }

  /** The heap of group `m` has the new size, for every member; nothing else changes. */
  ghost predicate HeapResized(g: Groups, m: nat, sz: nat, h: Groups)
    requires |g.procs| == |h.procs| && m < |g.procs|
  {
    && (forall j: nat :: j < |g.procs| ==>
          h.procs[j] == if Used(g, j) && g.procs[j].main == m then g.procs[j].(sz := sz) else g.procs[j])
    && (forall k: Key :: k in h.leaves <==>
          if k.0 == g.procs[m].table && k.1 < RAM_PAGES then k.1 < PageUp(sz) else k in g.leaves)
    && (forall k: Key :: k in h.leaves ==> h.leaves[k] == if k in g.leaves then g.leaves[k] else Heap)
  }

  /** The pages that the threads of group `m` had their trap frames in are not mapped any more, and no other page. */
  ghost predicate FramesGone(g: Groups, m: nat, h: Groups) {
    && (forall k: Key :: k in h.leaves <==> k in g.leaves && !FrameOf(g, m, k))
    && (forall k: Key :: k in h.leaves ==> h.leaves[k] == g.leaves[k])
  }

  predicate FrameOf(g: Groups, m: nat, k: Key) {
    exists j: nat :: j < |g.procs| && ThreadAt(g, j, m, k.1) && g.procs[j].table == k.0
  }

  lemma SameLeaves(g: Groups, m: nat, h: Groups, h': Groups)
    requires FramesGone(g, m, h) && h'.leaves == h.leaves
    ensures FramesGone(g, m, h')
  {
  }

  /** The same for the slots below `i`. */
  ghost predicate FramesBelow(g: Groups, m: nat, i: nat, leaves: map<Key, Leaf>) {
    && (forall k: Key :: k in leaves <==> k in g.leaves && !FrameBelow(g, m, i, k))
    && (forall k: Key :: k in leaves ==> leaves[k] == g.leaves[k])
  }

  predicate FrameBelow(g: Groups, m: nat, i: nat, k: Key) {
    exists j: nat :: j < i && ThreadAt(g, j, m, k.1) && g.procs[j].table == k.0
  }

  lemma FramesStep(g: Groups, m: nat, i: nat, leaves: map<Key, Leaf>)
    requires i < |g.procs| && FramesBelow(g, m, i, leaves)
    ensures Used(g, i) && g.procs[i].isThread && g.procs[i].main == m ==>
      FramesBelow(g, m, i + 1, leaves - {(g.procs[i].table, g.procs[i].va)})
    ensures !(Used(g, i) && g.procs[i].isThread && g.procs[i].main == m) ==> FramesBelow(g, m, i + 1, leaves)
  {
    var k := (g.procs[i].table, g.procs[i].va);
    forall q: Key
      ensures FrameBelow(g, m, i + 1, q) <==> FrameBelow(g, m, i, q) || (ThreadAt(g, i, m, q.1) && q.0 == k.0)
    {
    }
  }

  lemma AllFrames(g: Groups, m: nat, h: Groups)
    requires FramesBelow(g, m, |g.procs|, h.leaves)
    ensures FramesGone(g, m, h)
  {
    forall k: Key ensures FrameOf(g, m, k) <==> FrameBelow(g, m, |g.procs|, k) {
    }
  }

  /** The pages of a heap: as many as hold `sz` bytes, and no more. */
  lemma PageUpIs(sz: nat, n: nat)
    ensures PageUp(sz) == n <==> sz <= n * PGSIZE < sz + PGSIZE
  {
  }

  lemma ClonedStarts(g: Groups, c: nat, i: nat, pid: nat, frame: nat, stack: nat)
    requires CanClone(g, c, i, pid)
    ensures |Cloned(g, c, i, pid, frame, stack).procs| == NPROC
    ensures ThreadStarted(g, c, i, frame, stack, Cloned(g, c, i, pid, frame, stack))
  {
    hide PageUp;
    CloneFree(g, c);
    assert MemberOk(g, c);
  }

  lemma {:induction false} HeapRangeIs(t: nat, a: nat, b: nat, k: Key)
    requires k in HeapRange(t, a, b)
    ensures HeapRange(t, a, b)[k] == Heap
    decreases b
  {
    if b > a && k != (t, b - 1) {
      HeapRangeIs(t, a, b - 1, k);
    }
  }

  lemma ForkedLeaf(g: Groups, t: nat, frame: nat, sz: nat, k: Key)
    requires Ok(g) && t !in g.tables && PageUp(sz) <= RAM_PAGES
    ensures var leaves := g.leaves + HeapRange(t, 0, PageUp(sz)) + TopPages(t, frame);
      && (k in leaves <==>
            if k.0 == t then k.1 < PageUp(sz) || k.1 == TRAMPOLINE || k.1 == TRAPFRAME else k in g.leaves)
      && (k in leaves ==> leaves[k] == if k.0 != t then g.leaves[k] else TopOrHeap(k.1, frame))
  {
    hide Ok, PageUp, HeapRange;
    TableUnused(g, t);
    if k in HeapRange(t, 0, PageUp(sz)) {
      HeapRangeIs(t, 0, PageUp(sz), k);
    }
  }

  lemma ForkedStarts(g: Groups, i: nat, pid: nat, t: nat, frame: nat, sz: nat)
    requires Ok(g) && i < NPROC && t !in g.tables && PageUp(sz) <= RAM_PAGES
    ensures |Forked(g, i, pid, t, frame, sz).procs| == NPROC
    ensures GroupStarted(g, i, pid, t, frame, sz, Forked(g, i, pid, t, frame, sz))
  {
    hide PageUp, HeapRange, TopPages, TopOrHeap;
    var h := Forked(g, i, pid, t, frame, sz);
    forall k: Key
      ensures k in h.leaves <==>
        if k.0 == t then k.1 < PageUp(sz) || k.1 == TRAMPOLINE || k.1 == TRAPFRAME else k in g.leaves
      ensures k in h.leaves ==> h.leaves[k] == if k.0 != t then g.leaves[k] else TopOrHeap(k.1, frame)
    {
      ForkedLeaf(g, t, frame, sz, k);
    }
  }

  lemma ReapedGone(g: Groups, m: nat)
    requires Ok(g) && IsMain(g, m) && NoThreads(g, m)
    ensures |Reaped(g, m).procs| == NPROC && GroupGone(g, m, Reaped(g, m))
  {
    hide PageUp, HeapRange;
    ReapKeeps(g, m);
  }

  lemma GrownResized(g: Groups, m: nat, sz: nat)
    requires Ok(g) && IsMain(g, m) && PageUp(sz) <= RAM_PAGES
    ensures |Grown(g, m, sz).procs| == NPROC && HeapResized(g, m, sz, Grown(g, m, sz))
  {
    hide PageUp, HeapRange;
    var h, t := Grown(g, m, sz), g.procs[m].table;
    assert MainOk(g, m);
    forall j: nat | j < NPROC
      ensures h.procs[j] == if Used(g, j) && g.procs[j].main == m then g.procs[j].(sz := sz) else g.procs[j]
    {
      ResizedIs(g, m, sz, j);
    }
    forall k: Key
      ensures k in h.leaves <==> if k.0 == t && k.1 < RAM_PAGES then k.1 < PageUp(sz) else k in g.leaves
      ensures k in h.leaves ==> h.leaves[k] == if k in g.leaves then g.leaves[k] else Heap
    {
      if k.0 == t && k.1 < RAM_PAGES {
        HeapPage(g, m, k);
      }
      if k in HeapRange(t, PageUp(g.procs[m].sz), PageUp(sz)) {
        HeapRangeIs(t, PageUp(g.procs[m].sz), PageUp(sz), k);
      }
    }
  }

  lemma HeapPage(g: Groups, m: nat, k: Key)
    requires Ok(g) && IsMain(g, m) && k.0 == g.procs[m].table && k.1 < RAM_PAGES
    ensures k in g.leaves <==> k.1 < PageUp(g.procs[m].sz)
  {
    hide PageUp;
    assert MainOk(g, m);
    assert Belongs(g, k) <==> k in g.leaves;
    if k in g.slots {
      SlotBelow(g, m, k);
    }
  }

  lemma FailsExactly(g: Groups, c: nat, left: nat)
    requires Ok(g) && Used(g, c) && IsMain(g, g.procs[c].main)
    ensures var n := g.procs[g.procs[c].main].cnt + 1;
      && n <= LIMIT && (CloneFails(g, c, left) <==> FrameAddr(n) >= MAXVA || left < TablesFor(n - 1))
  {
    CloneNeverRemaps(g, g.procs[c].main);
    FrameAddrIs(g.procs[g.procs[c].main].cnt + 1);
    TablesNeeded(g.procs[g.procs[c].main].cnt);
  }

  /** An unused slot may hold anything but a claim to be in a group. */
  lemma UnusedStays(g: Groups, i: nat, p: Proc)
    requires Ok(g) && i < NPROC && !Used(g, i) && p.state.Unused? && p.mainPid == 0 && !p.isThread
    ensures Ok(g.(procs := g.procs[i := p]))
  {
    var h := g.(procs := g.procs[i := p]);
    forall j: nat | j < NPROC ensures MemberOk(h, j) && MainOk(h, j) && ThreadOk(h, j) {
      assert MemberOk(g, j) && MainOk(g, j) && ThreadOk(g, j);
    }
    forall q: Key | q in h.slots ensures SlotOk(h, q) {
      assert SlotOk(g, q);
    }
    forall q: Key ensures q in h.leaves <==> Belongs(h, q) {
      assert Belongs(g, q) <==> q in g.leaves;
    }
  }

  lemma StalePid(g: Groups, i: nat, pid: nat)
    requires Ok(g) && i < NPROC && !Used(g, i)
    ensures Ok(g.(procs := g.procs[i := g.procs[i].(pid := pid)]))
  {
    assert MemberOk(g, i);
    UnusedStays(g, i, g.procs[i].(pid := pid));
  }

  lemma HeapFits(g: Groups, c: nat)
    requires Ok(g) && Used(g, c)
    ensures PageUp(g.procs[c].sz) <= RAM_PAGES
  {
    assert MemberOk(g, c);
    assert MainOk(g, g.procs[c].main);
  }

  /** `sz + n` in 64 bits, as `uvmalloc` and `uvmdealloc` take it: a size below 0 is a huge one, and changes nothing. */
  function NewSize(sz: nat, n: int): (r: nat) {
    if sz + n < 0 then sz else sz + n
  }

  lemma Shrunk(g: Groups, m: nat, n: int)
    requires Ok(g) && IsMain(g, m)
    ensures n <= 0 ==> PageUp(NewSize(g.procs[m].sz, n)) <= RAM_PAGES
  {
    assert MainOk(g, m);
  }

  class ThreadTable {
    var procs: seq<Proc>
    var leaves: map<Key, Leaf>
    var nextpid: nat
    ghost var tables: map<nat, nat>
    ghost var pids: map<nat, nat>
    ghost var slots: map<Key, nat>

    ghost function G(): (g: Groups)
      reads this
    {
      Groups(procs, leaves, tables, pids, slots)
    }

    ghost predicate Valid()
      reads this
    {
      Ok(G()) && nextpid > 0 && forall n :: n in pids ==> n < nextpid
    }

    constructor ()
      ensures Valid() && G() == NoGroups()
    {
      procs, leaves, nextpid := NoGroups().procs, map[], 1;
      tables, pids, slots := map[], map[], map[];
      NoGroupsOk();
    }

    /** The search of `allocthread` and `allocproc`. */
    method FindUnused() returns (i: int)
      requires |procs| == NPROC
      ensures i == -1 ==> forall j: nat :: j < NPROC ==> !procs[j].state.Unused?
      ensures i != -1 ==> i >= 0 && FirstUnused(procs, i)
    {
      i := 0;
      while i < NPROC
        invariant 0 <= i <= NPROC && forall j: nat :: j < i ==> !procs[j].state.Unused?
      {
        if procs[i].state.Unused? {
          return;
        }
        i := i + 1;
      }
      i := -1;
    }

    /** `mappages` of one page: a page that is mapped already is a panic. */
    method MapPage(k: Key, leaf: Leaf)
      requires k !in leaves
      modifies `leaves
      ensures leaves == old(leaves)[k := leaf]
    {
      leaves := leaves[k := leaf];
    }

    /** `uvmunmap` of one page: a page that is not mapped is a panic. */
    method UnmapPage(k: Key)
      requires k in leaves
      modifies `leaves
      ensures leaves == old(leaves) - {k}
    {
      leaves := leaves - {k};
    }

    /**
     `paull04_clone` by process `c`, with `pages` on the kernel's free list. Without a slot nothing happens; without
     a page for the trap frame the slot keeps a pid. It panics exactly when the address of the new trap frame
     overflows or there are not enough pages for the page tables that lead to it.
     */
    method Clone(c: nat, stack: nat, pages: seq<nat>) returns (r: Call)
      requires Valid() && c < NPROC && procs[c].state.Live?
      modifies `procs, `leaves, `nextpid, `pids, `slots
      ensures r.Returns? ==> Valid()
      ensures (forall j: nat :: j < NPROC ==> Used(old(G()), j)) ==>
        r == Returns(-1) && G() == old(G()) && nextpid == old(nextpid)
      ensures forall i: nat :: FirstUnused(old(procs), i) ==>
        if pages == [] then
          && r == Returns(-1) && nextpid == old(nextpid) + 1
          && G() == old(G()).(procs := old(procs)[i := old(procs)[i].(pid := old(nextpid))])
        else if CloneFails(old(G()), c, |pages| - 1) then r == Panics
        else
          && r == Returns(old(nextpid)) && nextpid == old(nextpid) + 1
          && procs[i].pid == old(nextpid) && ThreadStarted(old(G()), c, i, pages[0], stack, G())
    {
      hide Ok, CloneFails;
      SlotCount(G());
      var s := FindUnused();
      if s == -1 {
        return Returns(-1);
      }
      var i: nat := s;
      OnlyFirst(procs, i);
      assert !Used(G(), i);
      var pid := nextpid;
      nextpid := nextpid + 1;
      if pages == [] {
        StalePid(G(), i, pid);
        procs := procs[i := procs[i].(pid := pid)];
        return Returns(-1);
      }
      MainUsed(G(), c);
      FailsExactly(G(), c, |pages| - 1);
      var p := procs[c];
      var n := procs[p.main].cnt + 1;
      if FrameAddr(n) >= MAXVA || |pages| - 1 < TablesFor(n - 1) {
        return Panics;
      }
      StartThread(c, i, pid, pages[0], stack);
      r := Returns(pid);
    }

    /** The rest of clone, in slot `i`. */
    method StartThread(c: nat, i: nat, pid: nat, frame: nat, stack: nat)
      requires Ok(G()) && Used(G(), c) && procs[c].state.Live? && IsMain(G(), procs[c].main) && i < NPROC
      requires !Used(G(), i)
      requires pid > 0 && pid !in pids && FrameAddr(procs[procs[c].main].cnt + 1) < MAXVA
      modifies `procs, `leaves, `pids, `slots
      ensures Ok(G()) && pids == old(pids)[pid := i] && procs[i].pid == pid
      ensures ThreadStarted(old(G()), c, i, frame, stack, G())
    {
      hide Ok;
      SlotCount(G());
      var p := procs[c];
      var n := procs[p.main].cnt + 1;
      CloneNeverRemaps(G(), p.main);
      FrameAddrIs(n);
      CloneKeeps(G(), c, i, pid, frame, stack);
      var va: nat := FrameAddr(n) / PGSIZE;
      procs := procs[p.main := procs[p.main].(cnt := n)];
      MapPage((p.table, va), Frame(frame));
      procs := procs[i := NewThread(p, pid, va, frame, procs[i].cnt, stack)];
      slots := slots[(p.table, va) := i];
      pids := pids[pid := i];
      assert G() == Cloned(old(G()), c, i, pid, frame, stack);
      ClonedStarts(old(G()), c, i, pid, frame, stack);
    }

    /** `freethread`: the page of the trap frame is unmapped and the slot cleared. `page` is what goes to `kfree`. */
    method Freethread(i: nat) returns (page: nat)
      requires Valid() && Used(G(), i) && procs[i].isThread
      modifies `procs, `leaves, `pids, `slots
      ensures Valid() && G() == WithoutThread(old(G()), i) && page == old(procs)[i].frame
      ensures procs[i] == NOBODY.(cnt := old(procs)[i].cnt, stack := old(procs)[i].stack)
      ensures var k := (old(procs)[i].table, old(procs)[i].va); k in old(leaves) && old(leaves)[k] == Frame(page)
    {
      hide Ok;
      SlotCount(G());
      FreethreadKeeps(G(), i);
      page := procs[i].frame;
      UnmapPage((procs[i].table, procs[i].va));
      slots := slots - {(procs[i].table, procs[i].va)};
      pids := pids - {procs[i].pid};
      procs := procs[i := Cleared(procs[i])];
    }

    /** `cleanAllThreads`: every thread of the group goes, whatever its state, and nobody else. */
    method CleanAllThreads(m: nat)
      requires Valid() && IsMain(G(), m)
      modifies `procs, `leaves, `pids, `slots
      ensures Valid() && IsMain(G(), m) && NoThreads(G(), m) && FramesGone(old(G()), m, G())
      ensures |procs| == |old(procs)| == NPROC && forall j: nat :: j < NPROC ==>
        procs[j] == if Used(old(G()), j) && old(procs)[j].isThread && old(procs)[j].main == m
                    then Cleared(old(procs)[j]) else old(procs)[j]
    {
      hide Ok;
      SlotCount(G());
      var i := 0;
      while i < NPROC
        invariant 0 <= i <= NPROC && Valid() && IsMain(G(), m) && |procs| == NPROC && procs[m] == old(procs)[m]
        invariant forall j: nat :: j < NPROC ==>
          procs[j] == if j < i && Used(old(G()), j) && old(procs)[j].isThread && old(procs)[j].main == m
                      then Cleared(old(procs)[j]) else old(procs)[j]
        invariant FramesBelow(old(G()), m, i, leaves)
      {
        FramesStep(old(G()), m, i, leaves);
        SameGroup(G(), i, m);
        if procs[i].mainPid == procs[m].pid && procs[i].isThread {
          var page := Freethread(i);
        }
        i := i + 1;
      }
      AllFrames(old(G()), m, G());
    }

    /**
     `paull04_join` by `c`: the pid of the first thread of the group, in table order, that has
     exited, which is freed, and the address of its stack; -1 if the group has no threads or `c` was
     killed; 0 stands for going to sleep. If the address cannot be stored (`canStore`) the locks are
     released twice, and that panics.
     */
    method Join(c: nat, killed: bool, canStore: bool) returns (r: Call, base: nat)
      requires Valid() && Used(G(), c)
      modifies `procs, `leaves, `pids, `slots
      ensures r == Panics <==> !canStore && exists j: nat :: j < NPROC && Exited(old(G()), c, j)
      ensures r.Returns? ==> Valid()
      ensures r.Returns? && r.value > 0 ==> exists i: nat ::
        && i < NPROC && Exited(old(G()), c, i) && r.value == old(procs)[i].pid && base == old(procs)[i].stack
        && G() == WithoutThread(old(G()), i) && forall j: nat :: j < i ==> !Exited(old(G()), c, j)
      ensures r.Returns? && r.value <= 0 ==> G() == old(G()) && forall j: nat :: j < NPROC ==> !Exited(G(), c, j)
      ensures r == Returns(-1) <==>
        && (forall j: nat :: j < NPROC ==> !Exited(old(G()), c, j))
        && (killed || forall j: nat :: j < NPROC ==> !Mate(old(G()), c, j))
    {
      hide Ok;
      SlotCount(G());
      var havekids := false;
      base := 0;
      var i := 0;
      while i < NPROC
        invariant 0 <= i <= NPROC && Valid() && G() == old(G())
        invariant havekids <==> exists j: nat :: j < i && Mate(G(), c, j)
        invariant forall j: nat :: j < i ==> !Exited(G(), c, j)
      {
        MateByPid(G(), c, i);
        if procs[i].mainPid == procs[c].mainPid && procs[i].isThread {
          havekids := true;
          if procs[i].state.Zombie? {
            assert Exited(G(), c, i);
            if !canStore {
              return Panics, 0;
            }
            r, base := Returns(procs[i].pid), procs[i].stack;
            var page := Freethread(i);
            return;
          }
        }
        i := i + 1;
      }
      if !havekids || killed {
        return Returns(-1), 0;
      }
      return Returns(0), 0;
    }

    /**
     A thread from clone to join, started in slot `i`: join gives back the pid that clone returned and the stack
     that clone was given, and leaves the table of the group and all slots as they were, but for the count.
     */
    method CloneExitJoin(c: nat, i: nat, stack: nat, pages: seq<nat>) returns (pid: Call, joined: Call, base: nat)
      requires Valid() && c < NPROC && procs[c].state.Live? && FirstUnused(procs, i) && pages != []
      requires !CloneFails(G(), c, |pages| - 1) && NoneExited(G(), c)
      modifies `procs, `leaves, `nextpid, `pids, `slots
      ensures Valid() && pid == joined == Returns(old(nextpid)) && base == stack
      ensures leaves == old(leaves) && |procs| == NPROC && forall j: nat :: j < NPROC ==>
        procs[j] == if j == i then NOBODY.(cnt := old(procs)[i].cnt, stack := stack)
                    else if j == old(procs)[c].main then old(procs)[j].(cnt := old(procs)[j].cnt + 1)
                    else old(procs)[j]
    {
      hide Ok, CloneFails, ThreadStarted, Mate, Exited, Used;
      SlotCount(G());
      CallerUsed(G(), c, i);
      ghost var g := G();
      pid := Clone(c, stack, pages);
      SlotCount(G());
      Started(g, c, i, pages[0], stack, G());
      ghost var h := G();
      Exit(i);
      SlotCount(G());
      OnlyExited(h, c, i, G());
      ghost var z := G();
      joined, base := Join(c, false, true);
      Rejoined(g, c, i, pages[0], stack, h, z, G());
    }

    /**
     `growproc` by `c`, by `n` bytes: the table and every member of the group change together. Growing needs memory
     (`granted`); without it nothing changes, and the call returns -1 with `wait_lock` held.
     */
    method Growproc(c: nat, n: int, granted: bool) returns (r: int, held: bool)
      requires Valid() && Used(G(), c) && -0x8000_0000 <= n < 0x8000_0000 && procs[c].main < NPROC
      requires granted ==> PageUp(NewSize(procs[procs[c].main].sz, n)) <= RAM_PAGES
      modifies `procs, `leaves
      ensures Valid() && (r == if n > 0 && !granted then -1 else 0) && (held <==> r == -1)
      ensures |procs| == NPROC && old(procs)[c].main < NPROC
      ensures var m := old(procs)[c].main;
        var sz := old(procs)[m].sz;
        if r == -1 then G() == old(G()) else HeapResized(old(G()), m, if sz + n >= 0 then sz + n else sz, G())
    {
      hide Ok, PageUp, HeapRange, Grown, HeapResized;
      SlotCount(G());
      var m := procs[c].main;
      MainUsed(G(), c);
      if n > 0 && !granted {
        return -1, true;
      }
      Shrunk(G(), m, n);
      Resize(m, NewSize(procs[m].sz, n));
      return 0, false;
    }

    /** What `uvmalloc` and `uvmdealloc` do to the table, and the loop of `growproc` to the members. */
    method Resize(m: nat, sz: nat)
      requires Valid() && IsMain(G(), m) && PageUp(sz) <= RAM_PAGES
      modifies `procs, `leaves
      ensures Valid() && |procs| == NPROC && HeapResized(old(G()), m, sz, G())
    {
      hide Ok, PageUp, HeapRange;
      SlotCount(G());
      GrowKeeps(G(), m, sz);
      GrownResized(G(), m, sz);
      var t, was := procs[m].table, procs[m].sz;
      leaves := leaves - HeapRange(t, PageUp(sz), PageUp(was)).Keys + HeapRange(t, PageUp(was), PageUp(sz));
      var pid := procs[m].pid;
      ghost var before := procs;
      procs := procs[m := procs[m].(sz := sz)];
      SameGroup(old(G()), m, m);
      var i := 0;
      while i < NPROC
        invariant 0 <= i <= NPROC && |procs| == NPROC
        invariant forall j: nat :: j < NPROC ==>
          procs[j] == if (j < i || j == m) && before[j].mainPid == pid then before[j].(sz := sz) else before[j]
        modifies `procs
      {
        if procs[i].mainPid == pid {
          procs := procs[i := procs[i].(sz := sz)];
        }
        i := i + 1;
      }
      assert procs == Resized(old(G()), m, sz);
      assert G() == Grown(old(G()), m, sz);
    }

    /** `exit` of process `i`: a main thread takes all its threads along. */
    method Exit(i: nat)
      requires Valid() && i < NPROC && procs[i].state.Live?
      modifies `procs, `leaves, `pids, `slots
      ensures Valid() && procs[i] == old(procs)[i].(state := Zombie)
      ensures forall j: nat :: j < NPROC && j != i ==>
        procs[j] == if !old(procs)[i].isThread && Used(old(G()), j) && old(procs)[j].isThread && old(procs)[j].main == i
                    then Cleared(old(procs)[j]) else old(procs)[j]
      ensures if old(procs)[i].isThread then leaves == old(leaves) else FramesGone(old(G()), i, G())
    {
      hide Ok, FramesGone;
      SlotCount(G());
      if !procs[i].isThread {
        MainUsed(G(), i);
        CleanAllThreads(i);
      }
      ZombieKeeps(G(), i);
      ghost var g := G();
      procs := procs[i := procs[i].(state := Zombie)];
      if !old(procs)[i].isThread {
        SameLeaves(old(G()), i, g, G());
      }
    }

    /** `userinit`: the first process, with one page. */
    method Userinit(t: nat, frame: nat)
      requires Valid() && t !in tables && G() == NoGroups()
      modifies `procs, `leaves, `nextpid, `tables, `pids
      ensures Valid() && |procs| == NPROC && nextpid == old(nextpid) + 1
      ensures GroupStarted(old(G()), 0, old(nextpid), t, frame, PGSIZE, G())
    {
      hide Ok, HeapRange;
      var s := FindUnused();
      NewGroup(0, t, frame, PGSIZE);
    }

    /** `allocproc` and the end of `userinit` and `fork`, in slot `i`. */
    method NewGroup(i: nat, t: nat, frame: nat, sz: nat)
      requires Valid() && i < NPROC && !Used(G(), i) && t !in tables && PageUp(sz) <= RAM_PAGES
      modifies `procs, `leaves, `nextpid, `tables, `pids
      ensures Valid() && |procs| == |old(procs)| && nextpid == old(nextpid) + 1
      ensures GroupStarted(old(G()), i, old(nextpid), t, frame, sz, G())
    {
      hide Ok, PageUp, HeapRange, GroupStarted;
      SlotCount(G());
      ForkKeeps(G(), i, nextpid, t, frame, sz);
      ForkedStarts(G(), i, nextpid, t, frame, sz);
      leaves := leaves + HeapRange(t, 0, PageUp(sz)) + TopPages(t, frame);
      procs := procs[i := NewMain(i, nextpid, t, frame, sz, procs[i].stack)];
      tables := tables[t := i];
      pids := pids[nextpid := i];
      nextpid := nextpid + 1;
      assert G() == Forked(old(G()), i, old(nextpid), t, frame, sz);
    }

    /**
     `fork` by `c`: a group of one with a table of its own, `t`, and a heap of the caller's size. Without the memory
     for it (`granted`) the slot is cleared and only a pid is used up.
     */
    method Fork(c: nat, t: nat, frame: nat, granted: bool) returns (r: int)
      requires Valid() && Used(G(), c) && t !in tables
      modifies `procs, `leaves, `nextpid, `tables, `pids
      ensures Valid()
      ensures (forall j: nat :: j < NPROC ==> Used(old(G()), j)) ==> r == -1 && G() == old(G())
      ensures (forall j: nat :: j < NPROC ==> Used(old(G()), j)) ==> nextpid == old(nextpid)
      ensures forall i: nat :: FirstUnused(old(procs), i) ==>
        if granted then
          && r == old(nextpid) && nextpid == old(nextpid) + 1 && |procs| == NPROC
          && GroupStarted(old(G()), i, old(nextpid), t, frame, old(procs)[c].sz, G())
        else
          && r == -1 && nextpid == old(nextpid) + 1
          && G() == old(G()).(procs := old(procs)[i := Cleared(old(procs)[i])])
    {
      hide Ok, PageUp, HeapRange, GroupStarted;
      SlotCount(G());
      var s := FindUnused();
      if s == -1 {
        return -1;
      }
      var i: nat := s;
      OnlyFirst(procs, i);
      if !granted {
        UnusedStays(G(), i, Cleared(procs[i]));
        nextpid := nextpid + 1;
        procs := procs[i := Cleared(procs[i])];
        return -1;
      }
      HeapFits(G(), c);
      r := nextpid;
      NewGroup(i, t, frame, procs[c].sz);
    }

    /**
     `freeproc` of a process that has exited: its table is unmapped and freed, and no leaf is left for
     `freewalk` to panic on.
     */
    method Freeproc(m: nat)
      requires Valid() && m < NPROC && procs[m].state.Zombie? && !procs[m].isThread
      modifies `procs, `leaves, `tables, `pids
      ensures Valid() && |procs| == NPROC && GroupGone(old(G()), m, G())
    {
      hide Ok, PageUp, HeapRange;
      SlotCount(G());
      DeadMain(G(), m);
      ReapKeeps(G(), m);
      ReapedGone(G(), m);
      var t, sz := procs[m].table, procs[m].sz;
      UnmapPage((t, TRAMPOLINE));
      UnmapPage((t, TRAPFRAME));
      leaves := leaves - HeapRange(t, 0, PageUp(sz)).Keys;
      assert forall k :: k in leaves ==> k.0 != t;
      tables := tables - {t};
      pids := pids - {procs[m].pid};
      procs := procs[m := Cleared(procs[m])];
      assert G() == Reaped(old(G()), m);
    }
  }

  /** A thread of the caller's group. */
  predicate Mate(g: Groups, c: nat, i: nat) {
    Used(g, c) && Used(g, i) && g.procs[i].isThread && g.procs[i].main == g.procs[c].main
  }

  predicate Exited(g: Groups, c: nat, i: nat) {
    Mate(g, c, i) && g.procs[i].state.Zombie?
  }

  lemma CallerUsed(g: Groups, c: nat, i: nat)
    requires Ok(g) && c < NPROC && i < NPROC && g.procs[c].state.Live? && g.procs[i].state.Unused?
    ensures |g.procs| == NPROC && Used(g, c) && !Used(g, i) && c != i && g.procs[c].main < NPROC && g.procs[c].main != i
  {
    assert MemberOk(g, c);
  }

  predicate NoneExited(g: Groups, c: nat) {
    forall j: nat :: j < |g.procs| ==> !Exited(g, c, j)
  }

  lemma Started(g: Groups, c: nat, i: nat, frame: nat, stack: nat, h: Groups)
    requires |g.procs| == |h.procs| && Used(g, c) && i < |g.procs| && c != i && g.procs[c].main != i
    requires ThreadStarted(g, c, i, frame, stack, h) && NoneExited(g, c)
    ensures Used(h, c) && Mate(h, c, i) && h.procs[i].state.Live? && h.procs[i].isThread && NoneExited(h, c)
  {
    forall j: nat | j < |h.procs| ensures !Exited(h, c, j) {
      assert !Exited(g, c, j);
    }
  }

  lemma OnlyExited(h: Groups, c: nat, i: nat, z: Groups)
    requires |h.procs| == |z.procs| && i < |h.procs| && c != i && Mate(h, c, i) && NoneExited(h, c)
    requires z.procs[i] == h.procs[i].(state := Zombie)
    requires forall j: nat :: j < |h.procs| && j != i ==> z.procs[j] == h.procs[j]
    ensures Used(z, c) && Exited(z, c, i) && forall j: nat :: j < |h.procs| && Exited(z, c, j) ==> j == i
  {
    forall j: nat | j < |h.procs| && j != i ensures !Exited(z, c, j) {
      assert !Exited(h, c, j);
    }
  }

  lemma Rejoined(g: Groups, c: nat, i: nat, frame: nat, stack: nat, h: Groups, z: Groups, end: Groups)
    requires |g.procs| == |h.procs| == |z.procs| && Used(g, c) && i < |g.procs| && c != i && g.procs[c].main != i
    requires ThreadStarted(g, c, i, frame, stack, h)
    requires z.procs == h.procs[i := h.procs[i].(state := Zombie)] && z.leaves == h.leaves
    requires end == WithoutThread(z, i)
    ensures end.leaves == g.leaves && |end.procs| == |g.procs| && forall j: nat :: j < |g.procs| ==>
      end.procs[j] == if j == i then NOBODY.(cnt := g.procs[i].cnt, stack := stack)
                      else if j == g.procs[c].main then g.procs[j].(cnt := g.procs[j].cnt + 1)
                      else g.procs[j]
  {
    var k := (h.procs[i].table, h.procs[i].va);
    assert end.leaves == g.leaves[k := Frame(frame)] - {k};
  }

  lemma MateByPid(g: Groups, c: nat, i: nat)
    requires Ok(g) && Used(g, c) && i < NPROC
    ensures Mate(g, c, i) <==> g.procs[i].mainPid == g.procs[c].mainPid && g.procs[i].isThread
    ensures Used(g, i) ==> g.procs[i].pid > 0
  {
    assert MemberOk(g, c) && MemberOk(g, i);
    if Used(g, i) {
      GroupsAgree(g, c, i);
    }
  }

  lemma SlotCount(g: Groups)
    requires Ok(g)
    ensures |g.procs| == NPROC
  {
  }

  lemma MainUsed(g: Groups, c: nat)
    requires Ok(g) && Used(g, c)
    ensures IsMain(g, g.procs[c].main) && (!g.procs[c].isThread ==> g.procs[c].main == c)
  {
    assert MemberOk(g, c);
  }

  /** A main thread that has exited has no threads left. */
  lemma DeadMain(g: Groups, m: nat)
    requires Ok(g) && Used(g, m) && g.procs[m].state.Zombie? && !g.procs[m].isThread
    ensures IsMain(g, m) && NoThreads(g, m)
  {
    assert MemberOk(g, m);
    forall j: nat | j < |g.procs| && Used(g, j) && g.procs[j].isThread ensures g.procs[j].main != m {
      assert MemberOk(g, j);
    }
  }
}
