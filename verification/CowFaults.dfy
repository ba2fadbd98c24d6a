/**
 Concurrent copy-on-write faults on one shared page: the unlocked steps of `page_change`,
 and of the fork and exit steps that can run beside them, in any interleaving.

 Only the steps under `pgref_lock` are atomic with the count. The reference count protects the
 page because whoever has not yet given up its count keeps it: the page is not freed under a
 copy, it is freed exactly once, and a sharer that reuses it in place is alone with it.
 */
module CowFaults {

  import opened Params

  type Bytes = p: seq<int> | |p| == PGSIZE witness seq(PGSIZE, i => 0)

  /** Where a sharer is between two atomic steps. */
  datatype Pc =
    /** Mapped copy-on-write, running or about to fault. */
    | Idle
    /** `get_ref` returned `r`. */
    | Saw(r: int)
    /** `kalloc` succeeded and `memmove` has copied the first `n` bytes. */
    | Copying(n: nat)
    /** `decrement_ref` took the count down to `r` and has not yet acted on it. */
    | Dropped(r: int)
    /** The old page is given up; the new one is counted and mapped next. */
    | Switching
    /** Mapped writable, in a page of its own. */
    | Private
    /** Mapped writable, in the old page. */
    | InPlace
    /** In `uvmcopy`, after `mappages` and before `increment_ref`. */
    | Forking(child: nat)
    /** A child that is mapped but not yet counted, and does not run. */
    | Born(parent: nat)
    /** `decrement_ref` in `uvmunmap` took the count down to `r`. */
    | Leaving(r: int)
    | Gone

  /** `view` is what the sharer's page holds as far as the sharer knows; `copy` its new page. */
  datatype Sharer = Sharer(pc: Pc, view: Bytes, copy: Bytes)

  /** The count, the contents and the number of times the old page was freed. */
  datatype State = State(ref: int, page: Bytes, freed: nat, procs: seq<Sharer>)

  /** These sharers still have their count. */
  predicate Holds(pc: Pc) {
    pc.Idle? || pc.Saw? || pc.Copying? || pc.InPlace? || pc.Forking?
  }

  /** These are about to call `kfree`. */
  predicate Last(pc: Pc) {
    (pc.Dropped? || pc.Leaving?) && pc.r == 0
  }

  /** These may read the old page, now or when they run. */
  predicate Reads(pc: Pc) {
    Holds(pc) || pc.Born?
  }

  function Holders(s: State): (r: set<nat>) {
    set i: nat | i < |s.procs| && Holds(s.procs[i].pc)
  }

  function Freers(s: State): (r: set<nat>) {
    set i: nat | i < |s.procs| && Last(s.procs[i].pc)
  }

  // ---- steps ----

  datatype Step =
    | GetRef(i: nat)
    | Kalloc(i: nat, ok: bool, junk: Bytes)
    | CopyByte(i: nat)
    | Decrement(i: nat)
    | FreeOld(i: nat, junk: Bytes)
    | Remap(i: nat)
    | Reuse(i: nat)
    | Store(i: nat, at: nat, byte: int)
    | MapChild(i: nat)
    | Increment(i: nat)
    | Unmap(i: nat)

  predicate Enabled(s: State, e: Step) {
    e.i < |s.procs| &&
    var pc := s.procs[e.i].pc;
    match e
    case GetRef(_) => pc.Idle?
    case Kalloc(_, _, _) => pc.Saw? && pc.r > 1
    case CopyByte(_) => pc.Copying? && pc.n < PGSIZE
    case Decrement(_) => pc.Copying? && pc.n == PGSIZE
    case FreeOld(_, _) => pc.Dropped? || pc.Leaving?
    case Remap(_) => pc.Switching?
    case Reuse(_) => pc.Saw? && pc.r <= 1
    case Store(_, at, _) => (pc.Private? || pc.InPlace?) && at < PGSIZE
    case MapChild(_) => pc.Idle? || pc.InPlace?
    case Increment(_) => pc.Forking? && pc.child < |s.procs|
    case Unmap(_) => pc.Idle? || pc.InPlace?
  }

  function Move(s: State, i: nat, pc: Pc): (t: State)
    requires i < |s.procs|
  {
    s.(procs := s.procs[i := s.procs[i].(pc := pc)])
  }

  function Next(s: State, e: Step): (t: State)
    requires Enabled(s, e)
  {
    var i := e.i;
    var p := s.procs[i];
    match e
    case GetRef(_) => Move(s, i, Saw(s.ref))
    case Kalloc(_, ok, junk) =>
      if ok then s.(procs := s.procs[i := Sharer(Copying(0), p.view, junk)]) else Move(s, i, Idle)
    case CopyByte(_) => s.(procs := s.procs[i := Sharer(Copying(p.pc.n + 1), p.view, p.copy[p.pc.n := s.page[p.pc.n]])])
    case Decrement(_) => Move(s, i, Dropped(s.ref - 1)).(ref := s.ref - 1)
    case FreeOld(_, junk) =>
      var t := Move(s, i, if p.pc.Dropped? then Switching else Gone);
      if p.pc.r == 0 then t.(freed := s.freed + 1, page := junk) else t
    case Remap(_) => Move(s, i, Private)
    case Reuse(_) => Move(s, i, InPlace)
    case Store(_, at, byte) =>
      if p.pc.Private? then s.(procs := s.procs[i := Sharer(Private, p.view[at := byte], p.copy[at := byte])])
      else s.(page := s.page[at := byte], procs := s.procs[i := p.(view := p.view[at := byte])])
    case MapChild(_) =>
      s.(procs := s.procs[i := p.(pc := Forking(|s.procs|))] + [Sharer(Born(i), p.view, p.copy)])
    case Increment(_) =>
      Move(Move(s, p.pc.child, Idle), i, Idle).(ref := s.ref + 1)
    case Unmap(_) => Move(s, i, Leaving(s.ref - 1)).(ref := s.ref - 1)
  }

  // ---- the invariant ----

  predicate Alone(s: State, i: nat) {
    forall j: nat :: j < |s.procs| && j != i ==> !Reads(s.procs[j].pc)
  }

  /** What one sharer sees, and what it may rely on. */
  predicate SharerOk(s: State, i: nat)
    requires i < |s.procs|
  {
    var p := s.procs[i];
    && (Reads(p.pc) ==> p.view == s.page)
    && (p.pc.Copying? ==> p.pc.n <= PGSIZE && p.copy[..p.pc.n] == p.view[..p.pc.n])
    && (p.pc.Switching? || p.pc.Private? || p.pc.Dropped? ==> p.copy == p.view)
    && (p.pc.InPlace? || (p.pc.Saw? && p.pc.r <= 1) ==> Alone(s, i))
    && (p.pc.Forking? ==> p.pc.child < |s.procs| && s.procs[p.pc.child].pc == Born(i))
    && (p.pc.Born? ==> p.pc.parent < |s.procs| && s.procs[p.pc.parent].pc == Forking(i))
  }

  predicate Inv(s: State) {
    && s.ref == |Holders(s)|
    && |Freers(s)| + s.freed == (if s.ref == 0 then 1 else 0)
    && (forall i: nat {:trigger SharerOk(s, i)} :: i < |s.procs| ==> SharerOk(s, i))
  }

  // ---- counting ----

  /** Only sharer `i` moved. */
  predicate OnlyAt(s: State, t: State, i: nat) {
    |t.procs| == |s.procs| && i < |s.procs| && forall j: nat :: j < |s.procs| && j != i ==> t.procs[j] == s.procs[j]
  }

  lemma Recount(s: State, t: State, i: nat)
    requires OnlyAt(s, t, i)
    ensures |Holders(t)| ==
      |Holders(s)| - (if Holds(s.procs[i].pc) then 1 else 0) + (if Holds(t.procs[i].pc) then 1 else 0)
    ensures |Freers(t)| == |Freers(s)| - (if Last(s.procs[i].pc) then 1 else 0) + (if Last(t.procs[i].pc) then 1 else 0)
  {
    hide Holds, Last;
    CountAt(Holders(s), Holders(t), i);
    CountAt(Freers(s), Freers(t), i);
  }

  lemma CountAt(a: set<nat>, b: set<nat>, i: nat)
    requires forall j :: j != i ==> (j in a <==> j in b)
    ensures |b| == |a| - (if i in a then 1 else 0) + (if i in b then 1 else 0)
  {
    assert a - {i} == b - {i};
    assert |a| == |a - {i}| + (if i in a then 1 else 0);
    assert |b| == |b - {i}| + (if i in b then 1 else 0);
  }

  lemma RecountMore(s: State, t: State, p: Sharer)
    requires t.procs == s.procs + [p] && !Holds(p.pc) && !Last(p.pc)
    ensures |Holders(t)| == |Holders(s)| && |Freers(t)| == |Freers(s)|
  {
    assert Holders(t) == Holders(s);
    assert Freers(t) == Freers(s);
  }

  /** The only one with a count is the only one who can read. */
  lemma SoleHolder(s: State, i: nat)
    requires Inv(s) && i < |s.procs| && Holds(s.procs[i].pc) && !s.procs[i].pc.Forking? && s.ref <= 1
    ensures Alone(s, i)
  {
    forall j: nat | j < |s.procs| && Reads(s.procs[j].pc)
      ensures HolderOf(s, j) in Holders(s) && (j != i ==> HolderOf(s, j) != i)
    {
      ReaderHeld(s, j);
    }
    assert i in Holders(s);
    assert |Holders(s) - {i}| == 0;
  }

  /** Whose count protects sharer `j`. */
  function HolderOf(s: State, j: nat): (h: nat)
    requires j < |s.procs|
  {
    if s.procs[j].pc.Born? then s.procs[j].pc.parent else j
  }

  lemma ReaderHeld(s: State, j: nat)
    requires Inv(s) && j < |s.procs| && Reads(s.procs[j].pc)
    ensures HolderOf(s, j) in Holders(s) && (HolderOf(s, j) != j ==> s.procs[HolderOf(s, j)].pc.Forking?)
  {
    assert SharerOk(s, j);
  }

  lemma CountPositive(s: State, i: nat)
    requires Inv(s) && i < |s.procs| && Holds(s.procs[i].pc)
    ensures s.ref > 0 && s.freed == 0 && Freers(s) == {}
  {
    assert i in Holders(s);
  }

  lemma FreerCounted(s: State, i: nat)
    requires i < |s.procs| && Last(s.procs[i].pc)
    ensures |Freers(s)| > 0
  {
    assert i in Freers(s);
  }

  // ---- every step keeps the invariant ----

  /** Steps that neither touch the old page nor the count. */
  lemma LocalKeeps(s: State, e: Step)
    requires Inv(s) && Enabled(s, e) && (e.GetRef? || e.Kalloc? || e.CopyByte? || e.Remap? || e.Reuse?)
    ensures Inv(Next(s, e))
  {
    hide Holders, Freers, Alone;
    var t, i := Next(s, e), e.i;
    Recount(s, t, i);
    if e.GetRef? && s.ref <= 1 {
      SoleHolder(s, i);
    }
    assert SharerOk(s, i);
    forall j: nat | j < |t.procs| ensures SharerOk(t, j) {
      assert SharerOk(s, j);
      AloneStays(s, t, i, j);
    }
  }

  lemma AloneStays(s: State, t: State, i: nat, j: nat)
    requires OnlyAt(s, t, i) && (Reads(t.procs[i].pc) ==> Reads(s.procs[i].pc))
    ensures Alone(s, j) ==> Alone(t, j)
  {
  }

  lemma DecrementKeeps(s: State, e: Step)
    requires Inv(s) && Enabled(s, e) && (e.Decrement? || e.Unmap?)
    ensures Inv(Next(s, e))
  {
    hide Holders, Freers, Alone;
    var t, i := Next(s, e), e.i;
    Recount(s, t, i);
    CountPositive(s, i);
    assert SharerOk(s, i);
    forall j: nat | j < |t.procs| ensures SharerOk(t, j) {
      assert SharerOk(s, j);
      AloneStays(s, t, i, j);
    }
  }

  lemma FreeKeeps(s: State, e: Step)
    requires Inv(s) && Enabled(s, e) && e.FreeOld?
    ensures Inv(Next(s, e))
  {
    hide Alone;
    var t, i := Next(s, e), e.i;
    Recount(s, t, i);
    if s.procs[i].pc.r == 0 {
      FreerCounted(s, i);
      assert Holders(s) == {};
      NobodyReads(s);
    }
    assert SharerOk(s, i);
    forall j: nat | j < |t.procs| ensures SharerOk(t, j) {
      assert SharerOk(s, j);
      AloneStays(s, t, i, j);
    }
  }

  lemma NobodyReads(s: State)
    requires Inv(s) && Holders(s) == {}
    ensures forall j: nat :: j < |s.procs| ==> !Reads(s.procs[j].pc)
  {
    forall j: nat | j < |s.procs| && Reads(s.procs[j].pc) ensures HolderOf(s, j) in Holders(s) {
      ReaderHeld(s, j);
    }
  }

  lemma StoreKeeps(s: State, e: Step)
    requires Inv(s) && Enabled(s, e) && e.Store?
    ensures Inv(Next(s, e))
  {
    hide Holders, Freers;
    var t, i := Next(s, e), e.i;
    Recount(s, t, i);
    assert SharerOk(s, i);
    forall j: nat | j < |t.procs| ensures SharerOk(t, j) {
      assert SharerOk(s, j);
      AloneStays(s, t, i, j);
    }
  }

  lemma MapChildKeeps(s: State, e: Step)
    requires Inv(s) && Enabled(s, e) && e.MapChild?
    ensures Inv(Next(s, e))
  {
    hide Holders, Freers;
    var t, i, n := Next(s, e), e.i, |s.procs|;
    var p := s.procs[i];
    var m := Move(s, i, Forking(n));
    Recount(s, m, i);
    RecountMore(m, t, Sharer(Born(i), p.view, p.copy));
    assert SharerOk(s, i);
    forall j: nat | j < |t.procs| ensures SharerOk(t, j) {
      if j < n && j != i {
        assert SharerOk(s, j);
      }
    }
  }

  lemma IncrementKeeps(s: State, e: Step)
    requires Inv(s) && Enabled(s, e) && e.Increment?
    ensures Inv(Next(s, e))
  {
    hide Holders, Freers;
    var t, i := Next(s, e), e.i;
    assert SharerOk(s, i);
    var c := s.procs[i].pc.child;
    var m := Move(s, c, Idle);
    Recount(s, m, c);
    Recount(m, t, i);
    CountPositive(s, i);
    forall j: nat | j < |t.procs| ensures SharerOk(t, j) {
      assert SharerOk(s, j);
      if j != c {
        assert SharerOk(s, c);
      }
    }
  }

  lemma StepKeepsInv(s: State, e: Step)
    requires Inv(s) && Enabled(s, e)
    ensures Inv(Next(s, e))
  {
    match e {
      case GetRef(_) => LocalKeeps(s, e);
      case Kalloc(_, _, _) => LocalKeeps(s, e);
      case CopyByte(_) => LocalKeeps(s, e);
      case Remap(_) => LocalKeeps(s, e);
      case Reuse(_) => LocalKeeps(s, e);
      case Decrement(_) => DecrementKeeps(s, e);
      case Unmap(_) => DecrementKeeps(s, e);
      case FreeOld(_, _) => FreeKeeps(s, e);
      case Store(_, _, _) => StoreKeeps(s, e);
      case MapChild(_) => MapChildKeeps(s, e);
      case Increment(_) => IncrementKeeps(s, e);
    }
  }

  // ---- whole runs ----

  /** `n` processes share the page after some forks. */
  function Start(n: nat, page: Bytes): (s: State) {
    State(n, page, 0, seq(n, i => Sharer(Idle, page, page)))
  }

  lemma {:induction false} StartOk(n: nat, page: Bytes)
    requires n > 0
    ensures Inv(Start(n, page))
  {
    var s := Start(n, page);
    AllBelow(n, Holders(s));
    assert Freers(s) == {};
    forall i: nat | i < n ensures SharerOk(s, i) {
    }
  }

  lemma {:induction false} AllBelow(n: nat, a: set<nat>)
    requires forall i: nat :: i in a <==> i < n
    ensures |a| == n
    decreases n
  {
    if n == 0 {
      assert a == {};
    } else {
      AllBelow(n - 1, a - {n - 1});
    }
  }

  ghost predicate LegalRun(s: State, run: seq<Step>)
    decreases |run|
  {
    run == [] || (Enabled(s, run[0]) && LegalRun(Next(s, run[0]), run[1..]))
  }

  ghost function After(s: State, run: seq<Step>): (t: State)
    requires LegalRun(s, run)
    decreases |run|
  {
    if run == [] then s else After(Next(s, run[0]), run[1..])
  }

  lemma {:induction false} RunKeepsInv(s: State, run: seq<Step>)
    requires Inv(s) && LegalRun(s, run)
    ensures Inv(After(s, run))
    decreases |run|
  {
    if run != [] {
      StepKeepsInv(s, run[0]);
      RunKeepsInv(Next(s, run[0]), run[1..]);
    }
  }

  /** In every interleaving, the old page is neither freed nor about to be freed while a copy from it is in progress. */
  lemma NeverFreedUnderCopy(n: nat, page: Bytes, run: seq<Step>, i: nat)
    requires n > 0 && LegalRun(Start(n, page), run)
    requires var s := After(Start(n, page), run); i < |s.procs| && s.procs[i].pc.Copying?
    ensures var s := After(Start(n, page), run); s.freed == 0 && Freers(s) == {} && s.page == s.procs[i].view
  {
    StartOk(n, page);
    RunKeepsInv(Start(n, page), run);
    var s := After(Start(n, page), run);
    CountPositive(s, i);
    assert SharerOk(s, i);
  }

  /**
   In every interleaving the old page is freed at most once, and it is freed exactly when nobody has a count
   and nobody is about to free it.
   */
  lemma FreedExactlyOnce(n: nat, page: Bytes, run: seq<Step>)
    requires n > 0 && LegalRun(Start(n, page), run)
    ensures var s := After(Start(n, page), run); s.freed <= 1
    ensures var s := After(Start(n, page), run);
      s.freed == 1 <==> forall i: nat :: i < |s.procs| ==> !Holds(s.procs[i].pc) && !Last(s.procs[i].pc)
  {
    StartOk(n, page);
    RunKeepsInv(Start(n, page), run);
    var s := After(Start(n, page), run);
    if forall i: nat :: i < |s.procs| ==> !Holds(s.procs[i].pc) && !Last(s.procs[i].pc) {
      assert Holders(s) == {} && Freers(s) == {};
    }
    if s.freed == 1 {
      forall i: nat | i < |s.procs| ensures !Holds(s.procs[i].pc) && !Last(s.procs[i].pc) {
        assert i in Holders(s) <==> Holds(s.procs[i].pc);
        assert i in Freers(s) <==> Last(s.procs[i].pc);
      }
    }
  }

  /** What a sharer's page holds: the old page until its count is given up, its own page afterwards. */
  function Sees(s: State, j: nat): (r: Bytes)
    requires j < |s.procs|
  {
    if Reads(s.procs[j].pc) then s.page else s.procs[j].copy
  }

  predicate Present(s: State, j: nat) {
    j < |s.procs| && !s.procs[j].pc.Gone? && !s.procs[j].pc.Leaving?
  }

  lemma SeesView(s: State, j: nat)
    requires Inv(s) && Present(s, j)
    ensures Sees(s, j) == s.procs[j].view
  {
    assert SharerOk(s, j);
  }

  /**
   Whatever the others do, and wherever the sharer itself is in its fault, its bytes stay the same; only its
   own stores change them.
   */
  lemma OnlyOwnStores(s: State, e: Step, j: nat)
    requires Inv(s) && Enabled(s, e) && Present(s, j) && Present(Next(s, e), j)
    ensures Sees(Next(s, e), j) == if e.Store? && e.i == j then Sees(s, j)[e.at := e.byte] else Sees(s, j)
  {
    StepKeepsInv(s, e);
    SeesView(s, j);
    SeesView(Next(s, e), j);
  }

  /** The bytes after a run: the sharer's own stores, in order. */
  function OwnStores(b: Bytes, run: seq<Step>, j: nat): (r: Bytes)
    decreases |run|
  {
    if run == [] then b
    else
      var e := run[0];
      OwnStores(if e.Store? && e.i == j && e.at < PGSIZE then b[e.at := e.byte] else b, run[1..], j)
  }

  lemma StaysPresent(s: State, e: Step, j: nat)
    requires Inv(s) && Enabled(s, e) && j < |s.procs| && Present(Next(s, e), j)
    ensures Present(s, j)
  {
    assert SharerOk(s, e.i);
  }

  lemma {:induction false} WasPresent(s: State, run: seq<Step>, j: nat)
    requires Inv(s) && LegalRun(s, run) && j < |s.procs| && Present(After(s, run), j)
    ensures Present(s, j)
    decreases |run|
  {
    if run != [] {
      StepKeepsInv(s, run[0]);
      WasPresent(Next(s, run[0]), run[1..], j);
      StaysPresent(s, run[0], j);
    }
  }

  /**
   Isolation in every interleaving: a sharer still there at the end sees what it saw, changed by its own
   stores and nothing else.
   */
  lemma {:induction false} RunIsolates(s: State, run: seq<Step>, j: nat)
    requires Inv(s) && LegalRun(s, run) && j < |s.procs| && Present(After(s, run), j)
    ensures j < |After(s, run).procs| && Present(s, j) && Sees(After(s, run), j) == OwnStores(Sees(s, j), run, j)
    decreases |run|
  {
    WasPresent(s, run, j);
    if run != [] {
      var t := Next(s, run[0]);
      StepKeepsInv(s, run[0]);
      WasPresent(t, run[1..], j);
      OnlyOwnStores(s, run[0], j);
      RunIsolates(t, run[1..], j);
    }
  }
}
