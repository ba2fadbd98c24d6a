/**
 Copy-on-write memory at the granularity of single pages: what vm.c, paull04_vm.c and
 kalloc.c do to user pages, with the page tables read as one flat map from (page table,
 virtual page) to PTE.

 The reference is the eager fork of the unmodified kernel, in which every address space
 has pages of its own. The main result says that over any run of steps, interleaved
 between address spaces in any way, every address space reads exactly the bytes it would
 read under eager copying, so no store is ever visible through another mapping.
 */
module CowMemory {

  import opened Params

  type Page = p: seq<int> | |p| == PGSIZE witness seq(PGSIZE, i => 0)
  type Key = (nat, nat)

  /** A valid leaf PTE: the physical page and the permission bits; `cow` is the software bit PTE_COW. */
  datatype Pte = Pte(ppn: nat, r: bool, w: bool, x: bool, u: bool, cow: bool)

  /** `user` holds the PTEs of all user pages; pages that are neither free nor referenced belong to the kernel. */
  datatype Memory = Memory(user: map<Key, Pte>, mem: map<nat, Page>, refs: map<nat, nat>, free: set<nat>)

  function Users(user: map<Key, Pte>, p: nat): (r: set<Key>) {
    set k | k in user && user[k].ppn == p
  }

  // ---- the invariant ----

  /** `pgref` of every page is the number of user PTEs that map it. */
  predicate RefsExact(s: Memory) {
    && s.refs.Keys == s.mem.Keys
    && (forall k :: k in s.user ==> s.user[k].ppn in s.mem)
    && (forall p :: p in s.mem ==> s.refs[p] == |Users(s.user, p)|)
  }

  /** No free page is mapped anywhere. */
  predicate FreeUnmapped(s: Memory) {
    s.free <= s.mem.Keys && forall k :: k in s.user ==> s.user[k].ppn !in s.free
  }

  /** A page that someone may write without a fault is mapped once. */
  predicate WritableIsExclusive(s: Memory) {
    forall k :: k in s.user && s.user[k].w ==> s.user[k].ppn in s.refs && s.refs[s.user[k].ppn] == 1
  }

  /** A page is either writable or marked PTE_COW, or neither. */
  predicate CowIsReadOnly(s: Memory) {
    forall k :: k in s.user ==> !(s.user[k].w && s.user[k].cow)
  }

  predicate Inv(s: Memory) {
    RefsExact(s) && FreeUnmapped(s) && WritableIsExclusive(s) && CowIsReadOnly(s)
  }

  // ---- steps ----

  datatype Step =
    /** One round of `uvmcopy`, first half: the parent's page `k` becomes read-only and COW. */
    | Mark(k: Key)
    /** Second half: the same PTE appears in the child, at `j`. */
    | Share(k: Key, j: Key)
    /** `page_change` on a page with other users: a private copy in the page `p` just allocated. */
    | Break(k: Key, p: nat)
    /** `page_change` on a page without other users: writable again, in place. */
    | Reuse(k: Key)
    /** One round of `uvmalloc`: the page just allocated, zeroed, appears at `k`. */
    | Map(k: Key, pte: Pte)
    /** One round of `uvmunmap` with do_free: the mapping goes, and the page with its last mapping. */
    | Unmap(k: Key, junk: Page)
    /** Bytes stored through a writable mapping. */
    | Put(k: Key, data: Page)
    /** `kalloc`: a free page, filled with junk, belongs to the kernel. `kfree` is the way back. */
    | Take(p: nat, junk: Page)
    | Give(p: nat, junk: Page)

  predicate KernelPage(s: Memory, p: nat) {
    p in s.mem && p in s.refs && p !in s.free && s.refs[p] == 0
  }

  predicate Enabled(s: Memory, e: Step) {
    match e
    case Mark(k) => k in s.user
    case Share(k, j) => k in s.user && j !in s.user && s.user[k] == Shared(s.user[k]) && s.user[k].ppn in s.refs
    case Break(k, p) =>
      k in s.user && s.user[k].cow && KernelPage(s, p) && s.user[k].ppn in s.refs && s.refs[s.user[k].ppn] > 1
    case Reuse(k) => k in s.user && s.user[k].cow && s.user[k].ppn in s.refs && s.refs[s.user[k].ppn] <= 1
    case Map(k, pte) => k !in s.user && KernelPage(s, pte.ppn) && !(pte.w && pte.cow)
    case Unmap(k, _) => k in s.user && s.user[k].ppn in s.refs
    case Put(k, _) => k in s.user && s.user[k].w && s.user[k].ppn in s.mem
    case Take(p, _) => p in s.free
    case Give(p, _) => KernelPage(s, p)
  }

  function ZeroPage(): (r: Page)
    ensures forall i :: 0 <= i < PGSIZE ==> r[i] == 0
  {
    seq(PGSIZE, i => 0)
  }

  /** `flags &= ~PTE_W; flags |= PTE_COW` of `uvmcopy`. */
  function Shared(pte: Pte): Pte {
    pte.(w := false, cow := true)
  }

  /** `flags |= PTE_W; flags &= ~PTE_COW` of `page_change`. */
  function Owned(pte: Pte, p: nat): Pte {
    pte.(ppn := p, w := true, cow := false)
  }

  function Next(s: Memory, e: Step): (r: Memory)
    requires Inv(s) && Enabled(s, e)
  {
    match e
    case Mark(k) => s.(user := s.user[k := Shared(s.user[k])])
    case Share(k, j) =>
      var q := s.user[k];
      s.(user := s.user[j := q], refs := s.refs[q.ppn := s.refs[q.ppn] + 1])
    case Break(k, p) =>
      var was := s.user[k].ppn;
      Memory(s.user[k := Owned(s.user[k], p)], s.mem[p := s.mem[was]],
             s.refs[was := s.refs[was] - 1][p := s.refs[p] + 1], s.free)
    case Reuse(k) =>
      s.(user := s.user[k := Owned(s.user[k], s.user[k].ppn)])
    case Map(k, pte) =>
      s.(user := s.user[k := pte], mem := s.mem[pte.ppn := ZeroPage()], refs := s.refs[pte.ppn := s.refs[pte.ppn] + 1])
    case Unmap(k, junk) =>
      var p := s.user[k].ppn;
      UsersOfMapped(s, k);
      Memory(s.user - {k}, if s.refs[p] == 1 then s.mem[p := junk] else s.mem,
             s.refs[p := s.refs[p] - 1], if s.refs[p] == 1 then s.free + {p} else s.free)
    case Put(k, data) =>
      s.(mem := s.mem[s.user[k].ppn := data])
    case Take(p, junk) => s.(mem := s.mem[p := junk], free := s.free - {p})
    case Give(p, junk) => s.(mem := s.mem[p := junk], free := s.free + {p})
  }

  lemma UsersOfMapped(s: Memory, k: Key)
    requires RefsExact(s) && k in s.user
    ensures s.refs[s.user[k].ppn] > 0
  {
    assert k in Users(s.user, s.user[k].ppn);
  }

  // ---- every step keeps the invariant ----

  lemma UsersAdd(user: map<Key, Pte>, k: Key, pte: Pte)
    requires k !in user
    ensures forall p :: |Users(user[k := pte], p)| == |Users(user, p)| + (if p == pte.ppn then 1 else 0)
  {
    forall p ensures |Users(user[k := pte], p)| == |Users(user, p)| + (if p == pte.ppn then 1 else 0) {
      assert Users(user[k := pte], p) == if p == pte.ppn then Users(user, p) + {k} else Users(user, p);
    }
  }

  lemma UsersRemove(user: map<Key, Pte>, k: Key)
    requires k in user
    ensures forall p :: |Users(user - {k}, p)| == |Users(user, p)| - (if p == user[k].ppn then 1 else 0)
  {
    assert (user - {k})[k := user[k]] == user;
    UsersAdd(user - {k}, k, user[k]);
  }

  lemma UsersReplace(user: map<Key, Pte>, k: Key, pte: Pte)
    requires k in user
    ensures forall p :: (|Users(user[k := pte], p)| ==
      |Users(user, p)| - (if p == user[k].ppn then 1 else 0) + (if p == pte.ppn then 1 else 0))
  {
    UsersRemove(user, k);
    UsersAdd(user - {k}, k, pte);
    assert (user - {k})[k := pte] == user[k := pte];
  }

  lemma SoleUser(user: map<Key, Pte>, k: Key, j: Key)
    requires k in user && j in user && user[j].ppn == user[k].ppn && |Users(user, user[k].ppn)| <= 1
    ensures j == k
  {
    var us := Users(user, user[k].ppn);
    assert k in us && j in us;
    assert us == {k} + (us - {k});
    assert |us - {k}| == 0;
  }

  lemma MarkKeeps(s: Memory, k: Key)
    requires Inv(s) && Enabled(s, Mark(k))
    ensures Inv(Next(s, Mark(k)))
  {
    hide Users;
    UsersReplace(s.user, k, Shared(s.user[k]));
  }

  lemma ShareKeeps(s: Memory, k: Key, j: Key)
    requires Inv(s) && Enabled(s, Share(k, j))
    ensures Inv(Next(s, Share(k, j)))
  {
    hide Users;
    UsersAdd(s.user, j, s.user[k]);
    forall m | m in s.user && s.user[m].w ensures s.user[m].ppn != s.user[k].ppn {
      if s.user[m].ppn == s.user[k].ppn {
        SoleUser(s.user, m, k);
      }
    }
  }

  lemma BreakKeeps(s: Memory, k: Key, p: nat)
    requires Inv(s) && Enabled(s, Break(k, p))
    ensures Inv(Next(s, Break(k, p)))
  {
    hide Users;
    UsersReplace(s.user, k, Owned(s.user[k], p));
  }

  lemma FreeHasNoUsers(s: Memory, p: nat)
    requires RefsExact(s) && FreeUnmapped(s) && p in s.free
    ensures s.refs[p] == 0
  {
    assert Users(s.user, p) == {};
  }

  lemma ReuseKeeps(s: Memory, k: Key)
    requires Inv(s) && Enabled(s, Reuse(k))
    ensures Inv(Next(s, Reuse(k)))
  {
    hide Users;
    UsersReplace(s.user, k, Owned(s.user[k], s.user[k].ppn));
    UsersOfMapped(s, k);
  }

  lemma MapKeeps(s: Memory, k: Key, pte: Pte)
    requires Inv(s) && Enabled(s, Map(k, pte))
    ensures Inv(Next(s, Map(k, pte)))
  {
    hide Users;
    UsersAdd(s.user, k, pte);
  }

  lemma UnmapKeeps(s: Memory, k: Key, junk: Page)
    requires Inv(s) && Enabled(s, Unmap(k, junk))
    ensures Inv(Next(s, Unmap(k, junk)))
  {
    hide Users;
    UsersRemove(s.user, k);
    UsersOfMapped(s, k);
    forall j | j in s.user && s.user[j].ppn == s.user[k].ppn && s.refs[s.user[k].ppn] == 1 ensures j == k {
      SoleUser(s.user, k, j);
    }
  }

  lemma KernelPageUnmapped(s: Memory, p: nat)
    requires RefsExact(s) && KernelPage(s, p)
    ensures forall k :: k in s.user ==> s.user[k].ppn != p
  {
    forall k | k in s.user ensures s.user[k].ppn != p {
      assert s.user[k].ppn == p ==> k in Users(s.user, p);
    }
  }

  /** What the kernel does to a page of its own concerns nobody. */
  lemma KernelWrites(s: Memory, p: nat, bytes: Page)
    requires Inv(s) && KernelPage(s, p)
    ensures Inv(s.(mem := s.mem[p := bytes]))
    ensures forall q :: KernelPage(s, q) ==> KernelPage(s.(mem := s.mem[p := bytes]), q)
  {
    hide Users;
  }

  lemma GiveKeeps(s: Memory, p: nat, junk: Page)
    requires Inv(s) && Enabled(s, Give(p, junk))
    ensures Inv(Next(s, Give(p, junk)))
  {
    hide Users;
    KernelPageUnmapped(s, p);
  }

  /** Reference counts stay exact, free pages stay unmapped and writable pages stay unshared, whatever happens. */
  lemma StepKeepsInv(s: Memory, e: Step)
    requires Inv(s) && Enabled(s, e)
    ensures Inv(Next(s, e))
  {
    match e {
      case Mark(k) => MarkKeeps(s, k);
      case Share(k, j) => ShareKeeps(s, k, j);
      case Break(k, p) => BreakKeeps(s, k, p);
      case Reuse(k) => ReuseKeeps(s, k);
      case Map(k, pte) => MapKeeps(s, k, pte);
      case Unmap(k, junk) => UnmapKeeps(s, k, junk);
      case Put(_, _) =>
      case Take(_, _) =>
      case Give(p, junk) => GiveKeeps(s, p, junk);
    }
  }

  // ---- the eager reference ----

  /** One private page per mapping, and the permissions the page was given. */
  datatype Private = Private(bytes: Page, writable: bool, r: bool, x: bool, u: bool)

  type Eager = map<Key, Private>

  function Given(bytes: Page, pte: Pte): (r: Private) {
    Private(bytes, pte.w, pte.r, pte.x, pte.u)
  }

  /**
   What the step means when fork copies: sharing is copying with the parent's permission,
   breaking and reusing are nothing, and everything else happens to that one mapping.
   */
  function EagerNext(v: Eager, e: Step): (r: Eager) {
    match e
    case Mark(_) => v
    case Share(k, j) => if k in v then v[j := v[k]] else v
    case Break(_, _) => v
    case Reuse(_) => v
    case Map(k, pte) => v[k := Given(ZeroPage(), pte)]
    case Unmap(k, _) => v - {k}
    case Put(k, data) => if k in v then v[k := v[k].(bytes := data)] else v
    case Take(_, _) => v
    case Give(_, _) => v
  }

  /**
   Every address space reads the same bytes in both, with the same permissions to read, to execute and for user code;
   and whatever eager copying lets it store to, it can store to.
   */
  predicate Refines(s: Memory, v: Eager) {
    && v.Keys == s.user.Keys
    && forall k :: k in s.user ==>
        && s.user[k].ppn in s.mem && s.mem[s.user[k].ppn] == v[k].bytes
        && (v[k].writable ==> s.user[k].w || s.user[k].cow)
        && s.user[k].r == v[k].r && s.user[k].x == v[k].x && s.user[k].u == v[k].u
  }

  lemma MarkRefines(s: Memory, v: Eager, k: Key)
    requires Inv(s) && Enabled(s, Mark(k)) && Refines(s, v)
    ensures Refines(Next(s, Mark(k)), EagerNext(v, Mark(k)))
  {
    hide RefsExact, FreeUnmapped, WritableIsExclusive, CowIsReadOnly;
  }

  lemma ReuseRefines(s: Memory, v: Eager, k: Key)
    requires Inv(s) && Enabled(s, Reuse(k)) && Refines(s, v)
    ensures Refines(Next(s, Reuse(k)), EagerNext(v, Reuse(k)))
  {
    hide RefsExact, FreeUnmapped, WritableIsExclusive, CowIsReadOnly;
  }

  lemma TakeRefines(s: Memory, v: Eager, p: nat, junk: Page)
    requires Inv(s) && Enabled(s, Take(p, junk)) && Refines(s, v)
    ensures Refines(Next(s, Take(p, junk)), EagerNext(v, Take(p, junk)))
  {
    hide RefsExact, WritableIsExclusive, CowIsReadOnly;
  }

  lemma ShareRefines(s: Memory, v: Eager, k: Key, j: Key)
    requires Inv(s) && Enabled(s, Share(k, j)) && Refines(s, v)
    ensures Refines(Next(s, Share(k, j)), EagerNext(v, Share(k, j)))
  {
    hide Users;
  }

  lemma BreakRefines(s: Memory, v: Eager, k: Key, p: nat)
    requires Inv(s) && Enabled(s, Break(k, p)) && Refines(s, v)
    ensures Refines(Next(s, Break(k, p)), EagerNext(v, Break(k, p)))
  {
    hide Users;
    KernelPageUnmapped(s, p);
  }

  lemma MapRefines(s: Memory, v: Eager, k: Key, pte: Pte)
    requires Inv(s) && Enabled(s, Map(k, pte)) && Refines(s, v)
    ensures Refines(Next(s, Map(k, pte)), EagerNext(v, Map(k, pte)))
  {
    hide Users;
    KernelPageUnmapped(s, pte.ppn);
  }

  lemma UnmapRefines(s: Memory, v: Eager, k: Key, junk: Page)
    requires Inv(s) && Enabled(s, Unmap(k, junk)) && Refines(s, v)
    ensures Refines(Next(s, Unmap(k, junk)), EagerNext(v, Unmap(k, junk)))
  {
    hide Users;
    forall j | j in s.user && s.user[j].ppn == s.user[k].ppn && s.refs[s.user[k].ppn] == 1 ensures j == k {
      SoleUser(s.user, k, j);
    }
  }

  lemma PutRefines(s: Memory, v: Eager, k: Key, data: Page)
    requires Inv(s) && Enabled(s, Put(k, data)) && Refines(s, v)
    ensures Refines(Next(s, Put(k, data)), EagerNext(v, Put(k, data)))
  {
    hide Users;
    forall j | j in s.user && s.user[j].ppn == s.user[k].ppn ensures j == k {
      SoleUser(s.user, k, j);
    }
  }

  lemma KernelWritesRefine(s: Memory, v: Eager, p: nat, bytes: Page)
    requires Inv(s) && KernelPage(s, p) && Refines(s, v)
    ensures Refines(s.(mem := s.mem[p := bytes]), v)
  {
    hide Users;
    KernelPageUnmapped(s, p);
  }

  lemma GiveRefines(s: Memory, v: Eager, p: nat, junk: Page)
    requires Inv(s) && Enabled(s, Give(p, junk)) && Refines(s, v)
    ensures Refines(Next(s, Give(p, junk)), EagerNext(v, Give(p, junk)))
  {
    hide Users;
    KernelPageUnmapped(s, p);
  }

  lemma StepRefines(s: Memory, v: Eager, e: Step)
    requires Inv(s) && Enabled(s, e) && Refines(s, v)
    ensures Refines(Next(s, e), EagerNext(v, e))
  {
    hide Inv, Refines, Next, Enabled;
    match e {
      case Mark(k) => MarkRefines(s, v, k);
      case Share(k, j) => ShareRefines(s, v, k, j);
      case Break(k, p) => BreakRefines(s, v, k, p);
      case Reuse(k) => ReuseRefines(s, v, k);
      case Map(k, pte) => MapRefines(s, v, k, pte);
      case Unmap(k, junk) => UnmapRefines(s, v, k, junk);
      case Put(k, data) => PutRefines(s, v, k, data);
      case Take(p, junk) => TakeRefines(s, v, p, junk);
      case Give(p, junk) => GiveRefines(s, v, p, junk);
    }
  }

  // ---- whole runs ----

  ghost predicate LegalRun(s: Memory, run: seq<Step>)
    requires Inv(s)
    decreases |run|
  {
    run == [] || (Enabled(s, run[0]) && Inv(Next(s, run[0])) && LegalRun(Next(s, run[0]), run[1..]))
  }

  ghost function RunMemory(s: Memory, run: seq<Step>): (r: Memory)
    requires Inv(s) && LegalRun(s, run)
    ensures Inv(r)
    decreases |run|
  {
    if run == [] then s else RunMemory(Next(s, run[0]), run[1..])
  }

  function RunEager(v: Eager, run: seq<Step>): (r: Eager)
    decreases |run|
  {
    if run == [] then v else RunEager(EagerNext(v, run[0]), run[1..])
  }

  /** Copy-on-write refines eager copying over every run. */
  lemma {:induction false} RunRefinesEager(s: Memory, v: Eager, run: seq<Step>)
    requires Inv(s) && Refines(s, v) && LegalRun(s, run)
    ensures Refines(RunMemory(s, run), RunEager(v, run))
    decreases |run|
  {
    if run != [] {
      StepRefines(s, v, run[0]);
      RunRefinesEager(Next(s, run[0]), EagerNext(v, run[0]), run[1..]);
    }
  }

  /**
   Isolation: a run in which nobody stores to, maps or unmaps `k` leaves the bytes of `k` alone, whatever is
   done to the pages it shares.
   */
  lemma {:induction false} OthersCannotChange(s: Memory, v: Eager, run: seq<Step>, k: Key)
    requires Inv(s) && Refines(s, v) && LegalRun(s, run) && k in s.user
    requires forall i :: 0 <= i < |run| ==> !(run[i].Put? && run[i].k == k) && !(run[i].Unmap? && run[i].k == k)
    ensures var t := RunMemory(s, run);
      k in t.user && t.user[k].ppn in t.mem && t.mem[t.user[k].ppn] == s.mem[s.user[k].ppn]
  {
    RunRefinesEager(s, v, run);
    EagerKeeps(s, v, run, k);
  }

  lemma {:induction false} EagerKeeps(s: Memory, v: Eager, run: seq<Step>, k: Key)
    requires Inv(s) && Refines(s, v) && LegalRun(s, run) && k in v
    requires forall i :: 0 <= i < |run| ==> !(run[i].Put? && run[i].k == k) && !(run[i].Unmap? && run[i].k == k)
    ensures k in RunEager(v, run) && RunEager(v, run)[k] == v[k]
    decreases |run|
  {
    hide RefsExact, FreeUnmapped, WritableIsExclusive, CowIsReadOnly, Users;
    if run != [] {
      StepRefines(s, v, run[0]);
      EagerKeeps(Next(s, run[0]), EagerNext(v, run[0]), run[1..], k);
    }
  }

  /**
   Conservation: user pages, free pages and kernel pages partition memory. A page becomes a
   user page only from the kernel, leaves the free list only to the kernel, and returns to
   it only from the kernel or with its last mapping.
   */
  lemma PagesPartition(s: Memory, e: Step, p: nat)
    requires Inv(s) && Enabled(s, e) && p in s.mem
    ensures p in Next(s, e).mem
    ensures !(p in s.free && s.refs[p] > 0)
    ensures Next(s, e).refs[p] > 0 && s.refs[p] == 0 ==> KernelPage(s, p) && (e.Break? || e.Map?)
    ensures p in s.free && p !in Next(s, e).free ==> e.Take? && KernelPage(Next(s, e), p)
    ensures p !in s.free && p in Next(s, e).free ==> (e.Give? && KernelPage(s, p)) || (e.Unmap? && s.refs[p] == 1)
    ensures Next(s, e).refs[p] == 0 && s.refs[p] > 0 ==> e.Unmap? && p in Next(s, e).free
  {
    StepKeepsInv(s, e);
    if p in s.free {
      FreeHasNoUsers(s, p);
    }
    if e.Share? {
      UsersOfMapped(s, e.k);
    }
  }

  /**
   Permissions are not refined exactly: after a fork every store goes through, in the parent
   and in the child, and that agrees with eager copying exactly when the parent's page was
   writable before.
   */
  lemma ExtraStores(s: Memory, v: Eager, k: Key, j: Key)
    requires Inv(s) && Refines(s, v) && k in s.user && j !in s.user
    ensures Inv(Next(s, Mark(k))) && Enabled(Next(s, Mark(k)), Share(k, j))
    ensures var t, u := Next(Next(s, Mark(k)), Share(k, j)), EagerNext(v, Share(k, j));
      && (t.user[k].w || t.user[k].cow) && (t.user[j].w || t.user[j].cow)
      && (((t.user[k].w || t.user[k].cow) == u[k].writable) <==> v[k].writable)
      && (((t.user[j].w || t.user[j].cow) == u[j].writable) <==> v[k].writable)
  {
    MarkKeeps(s, k);
  }
}
