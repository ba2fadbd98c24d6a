/**
 Physical pages, reference counts and Sv39 page tables together: kalloc.c, paull04_vm.c and
 the user half of vm.c. The methods work on the table pages themselves; their contracts speak
 of the flat memory of `CowMemory` and of the eager reference it refines.
 */
module VirtualMemory {
  import opened CowMemory
  import opened Sv39
  import opened TablePages
  import opened Params
  import opened Sets

  /** TRAPFRAME and TRAMPOLINE are the two top pages; user memory lies below. */
  const USERTOP := MAXVPN - 2

  predicate NoDup(s: seq<nat>) {
    s == [] || (s[0] !in s[1..] && NoDup(s[1..]))
  }

  /** The free list holds the free pages, each once. */
  ghost predicate MemOk(m: Memory, free: seq<nat>) {
    Inv(m) && m.free == Elements(free) && NoDup(free) && 0 !in m.mem
  }

  /** The allocator's list, the table pages and the user pages are apart from each other. */
  ghost predicate PhysOk(m: Memory, free: seq<nat>, t: Tables, pos: map<nat, Place>, roots: set<nat>) {
    && MemOk(m, free)
    && TreeOk(t, pos, roots) && EntriesTyped(t, pos)
    && (forall b :: b in t ==> KernelPage(m, b))
  }

  /**
   Below USERTOP the page tables hold exactly the PTEs of the flat map, and every user page is
   readable; the pages above are the kernel's own.
   */
  ghost predicate LeavesMatch(t: Tables, roots: set<nat>, user: map<Key, Pte>) {
    && Sized(t)
    && (forall k :: k in user ==> k.0 in roots && k.1 < USERTOP && user[k].r)
    && (forall r, vpn {:trigger LeafAt(t, r, vpn)} :: r in roots && 0 <= vpn < USERTOP ==>
          (LeafAt(t, r, vpn).v <==> (r, vpn) in user) && ((r, vpn) in user ==> LeafAt(t, r, vpn).pte == user[(r, vpn)]))
    && (forall r, vpn {:trigger LeafAt(t, r, vpn)} :: r in roots && USERTOP <= vpn < MAXVPN && LeafAt(t, r, vpn).v ==>
          !LeafAt(t, r, vpn).pte.u && !LeafAt(t, r, vpn).pte.cow)
  }

  /** Only free pages changed hands, to the kernel, and no page in use changed its contents. */
  ghost predicate Quiet(s: Memory, t: Memory) {
    && t.user == s.user && t.refs == s.refs && t.free <= s.free && t.mem.Keys == s.mem.Keys
    && forall p :: p in s.mem && p !in s.free ==> t.mem[p] == s.mem[p]
  }

  lemma QuietRefines(s: Memory, t: Memory, v: Eager)
    requires Quiet(s, t) && FreeUnmapped(s) && Refines(s, v)
    ensures Refines(t, v)
  {
  }

  lemma QuietTrans(a: Memory, b: Memory, c: Memory)
    requires Quiet(a, b) && Quiet(b, c)
    ensures Quiet(a, c)
  {
  }

  /** Every page that left the free list became a table page. */
  ghost predicate Took(s: Memory, t: Tables, n: Memory, u: Tables) {
    t.Keys <= u.Keys && s.free == n.free + (u.Keys - t.Keys) && s.free !! t.Keys
  }

  lemma TookNone(s: Memory, t: Tables)
    requires s.free !! t.Keys
    ensures Took(s, t, s, t)
  {
  }

  lemma TookMore(s: Memory, t: Tables, n: Memory, u: Tables, o: Memory, w: Tables, b: nat)
    requires Took(s, t, n, u) && b in n.free && o.free == n.free - {b} && w.Keys == u.Keys + {b}
    ensures Took(s, t, o, w)
  {
  }

  lemma TookTrans(s: Memory, t: Tables, n: Memory, u: Tables, o: Memory, w: Tables)
    requires Took(s, t, n, u) && Took(n, u, o, w)
    ensures Took(s, t, o, w)
  {
  }

  lemma TookSame(s: Memory, t: Tables, n: Memory, u: Tables, w: Tables)
    requires Took(s, t, n, u) && w.Keys == u.Keys
    ensures Took(s, t, n, w)
  {
  }

  /** No table page moved, and the new ones belong to one address space. */
  ghost predicate Extends(p: map<nat, Place>, q: map<nat, Place>, root: nat) {
    && (forall b :: b in p ==> b in q && q[b] == p[b])
    && (forall b :: b in q && b !in p ==> q[b].root == root)
  }

  lemma ExtendsRefl(p: map<nat, Place>, root: nat)
    ensures Extends(p, p, root)
  {
  }

  lemma ExtendsTrans(p: map<nat, Place>, q: map<nat, Place>, r: map<nat, Place>, root: nat)
    requires Extends(p, q, root) && Extends(q, r, root)
    ensures Extends(p, r, root)
  {
  }

  lemma ExtendsMore(m: Memory, free: seq<nat>, t: Tables, p: map<nat, Place>, q: map<nat, Place>, roots: set<nat>,
                    root: nat,
                    b: nat, path: Path)
    requires Extends(p, q, root) && PhysOk(m, free, t, q, roots) && b !in t
    ensures Extends(p, q[b := Place(root, path)], root)
  {
    hide MemOk, Node, EntriesTyped;
    assert b !in q;
  }

  lemma FreeNotTables(m: Memory, free: seq<nat>, t: Tables, pos: map<nat, Place>, roots: set<nat>)
    requires PhysOk(m, free, t, pos, roots)
    ensures m.free !! t.Keys
  {
  }

  // ---- kalloc and kfree, on values ----

  lemma TakeFirst(m: Memory, free: seq<nat>, t: Tables, pos: map<nat, Place>, roots: set<nat>, junk: Page)
    requires PhysOk(m, free, t, pos, roots) && free != []
    ensures Enabled(m, Take(free[0], junk))
    ensures var n := Next(m, Take(free[0], junk));
      PhysOk(n, free[1..], t, pos, roots) && KernelPage(n, free[0]) && free[0] !in t && free[0] != 0 && Quiet(m, n)
  {
    var p := free[0];
    assert p in m.free;
    FreeHasNoUsers(m, p);
    StepKeepsInv(m, Take(p, junk));
    assert Elements(free[1..]) == Elements(free) - {p} by {
      assert free == [p] + free[1..];
    }
  }

  lemma GiveBack(m: Memory, free: seq<nat>, p: nat, junk: Page)
    requires MemOk(m, free) && KernelPage(m, p)
    ensures MemOk(Next(m, Give(p, junk)), [p] + free)
  {
    StepKeepsInv(m, Give(p, junk));
    assert Elements([p] + free) == Elements(free) + {p};
    assert ([p] + free)[1..] == free;
  }

  lemma GiveBackPhys(m: Memory, free: seq<nat>, t: Tables, pos: map<nat, Place>, roots: set<nat>, p: nat, junk: Page)
    requires PhysOk(m, free, t, pos, roots) && KernelPage(m, p) && p !in t
    ensures PhysOk(Next(m, Give(p, junk)), [p] + free, t, pos, roots)
  {
    hide TreeOk, EntriesTyped;
    GiveBack(m, free, p, junk);
  }

  // ---- freewalk and uvmfree, on values ----

  /** Some kernel pages went to the free list and nothing else happened. */
  ghost predicate Freed(s: Memory, n: Memory, gone: set<nat>) {
    && n.user == s.user && n.refs == s.refs && n.free == s.free + gone && s.free !! gone && n.mem.Keys == s.mem.Keys
    && forall p :: p in s.mem && p !in gone ==> n.mem[p] == s.mem[p]
  }

  lemma FreedNone(s: Memory)
    ensures Freed(s, s, {})
  {
  }

  lemma FreedMore(s: Memory, n: Memory, o: Memory, a: set<nat>, b: set<nat>)
    requires Freed(s, n, a) && Freed(n, o, b)
    ensures Freed(s, o, a + b)
  {
  }

  lemma FreedOne(s: Memory, free: seq<nat>, p: nat, junk: Page)
    requires MemOk(s, free) && KernelPage(s, p)
    ensures Freed(s, Next(s, Give(p, junk)), {p})
  {
  }

  lemma FreedRefines(s: Memory, n: Memory, gone: set<nat>, v: Eager)
    requires Freed(s, n, gone) && Refines(s, v) && RefsExact(s) && forall p :: p in gone ==> KernelPage(s, p)
    ensures Refines(n, v)
  {
    hide Users;
    forall k | k in s.user ensures s.user[k].ppn !in gone {
      UsersOfMapped(s, k);
    }
  }

  lemma StillKernel(s: Memory, n: Memory, gone: set<nat>, others: set<nat>)
    requires Freed(s, n, gone) && others !! gone && forall p :: p in others ==> KernelPage(s, p)
    ensures forall p :: p in others ==> KernelPage(n, p)
  {
  }

  /** The table pages `part` are as they were in `t`. */
  ghost predicate Intact(now: Tables, t: Tables, part: set<nat>) {
    forall b :: b in part ==> b in now && b in t && now[b] == t[b]
  }

  /** Halfway through a table page: the tables behind its first entries are gone, the other entries are untouched. */
  ghost predicate Halfway(before: Tables, now: Tables, t: Tables, b: nat, gone: set<nat>, i: nat) {
    && b in now && b in t && |now[b]| == |t[b]| == ENTRIES && i <= ENTRIES && now[b][i..] == t[b][i..]
    && now.Keys == before.Keys - gone && b !in gone
    && forall c :: c in now && c != b ==> now[c] == before[c]
  }

  lemma HalfwayStart(before: Tables, t: Tables, pos: map<nat, Place>, b: nat)
    requires b in pos && Sized(t) && Intact(before, t, Under(pos, b))
    ensures Halfway(before, before, t, b, {}, 0)
  {
    assert b in Under(pos, b);
  }

  lemma HalfwayEntry(before: Tables, now: Tables, t: Tables, b: nat, gone: set<nat>, i: nat)
    requires Halfway(before, now, t, b, gone, i) && i < ENTRIES
    ensures now[b][i] == t[b][i] && Halfway(before, now, t, b, gone, i + 1)
  {
    assert now[b][i..][0] == t[b][i..][0];
    assert now[b][i + 1..] == now[b][i..][1..] == t[b][i..][1..] == t[b][i + 1..];
  }

  lemma HalfwayIntact(before: Tables, now: Tables, t: Tables, b: nat, gone: set<nat>, i: nat, part: set<nat>)
    requires Halfway(before, now, t, b, gone, i) && Intact(before, t, part) && part !! gone && b !in part
    ensures Intact(now, t, part)
  {
  }

  lemma HalfwayCleared(before: Tables, now: Tables, t: Tables, b: nat, gone: set<nat>, i: nat, more: set<nat>)
    requires Halfway(before, now, t, b, gone, i) && i < ENTRIES && b !in more && more !! gone
    ensures b in now - more && Halfway(before, (now - more)[b := now[b][i := Invalid()]], t, b, gone + more, i + 1)
  {
    var u := (now - more)[b := now[b][i := Invalid()]];
    assert u[b][i + 1..] == now[b][i..][1..] == t[b][i..][1..] == t[b][i + 1..];
    assert u.Keys == now.Keys - more;
  }

  lemma HalfwayDone(before: Tables, now: Tables, t: Tables, b: nat, gone: set<nat>)
    requires Halfway(before, now, t, b, gone, ENTRIES)
    ensures now - {b} == before - (gone + {b})
  {
  }

  lemma EntryKind(t: Tables, pos: map<nat, Place>, roots: set<nat>, b: nat, i: nat)
    requires TreeOk(t, pos, roots) && EntriesTyped(t, pos) && b in t && b in pos && Bare(t, pos, pos[b].root)
    requires i < ENTRIES
    ensures |t[b]| == ENTRIES && (t[b][i].v ==> !IsLeaf(t[b][i]) && |pos[b].path| < 2)
  {
    hide Node;
  }

  lemma SelfKernel(pos: map<nat, Place>, b: nat, s: Memory, n: Memory, gone: set<nat>)
    requires b in pos && Freed(s, n, gone) && b !in gone && forall c :: c in Under(pos, b) ==> KernelPage(s, c)
    ensures KernelPage(n, b)
  {
    assert b in Under(pos, b);
  }

  lemma IntactPart(now: Tables, t: Tables, all: set<nat>, part: set<nat>)
    requires Intact(now, t, all) && part <= all
    ensures Intact(now, t, part)
  {
  }

  /** With the leaves and the table pages of one address space gone, the rest is in order. */
  lemma Dropped(s: Memory, n: Memory, free: seq<nat>, was: seq<nat>, t: Tables, pos: map<nat, Place>,
                roots: set<nat>, root: nat)
    requires PhysOk(s, was, t, pos, roots) && LeavesMatch(t, roots, s.user) && root in roots
    requires MemOk(n, free) && Freed(s, n, PagesOf(pos, root)) && forall k :: k in s.user ==> k.0 != root
    ensures var gone := PagesOf(pos, root);
      PhysOk(n, free, t - gone, pos - gone, roots - {root}) && LeavesMatch(t - gone, roots - {root}, n.user)
  {
    hide Inv, NoDup, Node, LeafAt, TreeOk, EntriesTyped, MemOk;
    var gone := PagesOf(pos, root);
    DropKeeps(t, pos, roots, root);
    forall b | b in t - gone ensures KernelPage(n, b) {
      TablePlaced(t, pos, roots, b);
      assert KernelPage(s, b) && b !in gone;
    }
    LeavesFewer(t, t - gone, roots, root, s.user);
  }

  lemma TablePlaced(t: Tables, pos: map<nat, Place>, roots: set<nat>, b: nat)
    requires TreeOk(t, pos, roots) && b in t
    ensures b in pos
  {
  }

  lemma LeavesFewer(t: Tables, u: Tables, roots: set<nat>, root: nat, user: map<Key, Pte>)
    requires LeavesMatch(t, roots, user) && SameLeaves(t, u, roots - {root}) && forall k :: k in user ==> k.0 != root
    ensures LeavesMatch(u, roots - {root}, user)
  {
    hide LeafAt;
    forall r, v | r in roots - {root} && 0 <= v < MAXVPN ensures LeafAt(u, r, v) == LeafAt(t, r, v) {
    }
  }

  lemma TopStays(t: Tables, u: Tables, roots: set<nat>, root: nat, n: nat)
    requires Cleared(t, u, roots, root, 0, n) && root in roots && TopBare(t, root)
    ensures TopBare(u, root)
  {
    hide LeafAt;
    forall v | USERTOP <= v < MAXVPN ensures !LeafAt(u, root, v).v {
      assert LeafAt(u, root, v) == if v < n then Invalid() else LeafAt(t, root, v);
    }
  }

  lemma NothingMapped(t: Tables, roots: set<nat>, user: map<Key, Pte>, root: nat)
    requires LeavesMatch(t, roots, user) && root in roots && (forall k :: k in user ==> k.0 != root) && TopBare(t, root)
    ensures NoLeaves(t, root)
  {
    hide LeafAt;
  }

  lemma RootAdded(s: Memory, m: Memory, free: seq<nat>, t: Tables, pos: map<nat, Place>, roots: set<nat>, b: nat)
    requires PhysOk(m, free, t, pos, roots) && LeavesMatch(t, roots, m.user) && KernelPage(m, b) && b !in t && b != 0
    requires b in s.free && m.free == s.free - {b} && s.free !! t.Keys
    ensures var u, o := t[b := ZeroTable()], pos[b := Place(b, [])];
      && PhysOk(m, free, u, o, roots + {b}) && LeavesMatch(u, roots + {b}, m.user) && NoLeaves(u, b)
      && Took(s, t, m, u) && Extends(pos, o, b) && b !in roots && u.Keys == t.Keys + {b}
  {
    hide MemOk, Node, LeafAt, NodesPlaced, PlacesReached, EntriesTyped, KernelPage;
    NewRootKeeps(t, pos, roots, b);
    var u := t[b := ZeroTable()];
    RootNotPlaced(t, pos, roots, b);
    LeavesMore(t, u, roots, b, m.user);
  }

  lemma RootNotPlaced(t: Tables, pos: map<nat, Place>, roots: set<nat>, b: nat)
    requires TreeOk(t, pos, roots) && b !in t
    ensures b !in pos && b !in roots
  {
  }

  lemma LeavesMore(t: Tables, u: Tables, roots: set<nat>, b: nat, user: map<Key, Pte>)
    requires LeavesMatch(t, roots, user) && SameLeaves(t, u, roots) && NoLeaves(u, b) && b !in roots
    ensures LeavesMatch(u, roots + {b}, user)
  {
    hide LeafAt;
    forall r, v | r in roots && 0 <= v < MAXVPN ensures LeafAt(u, r, v) == LeafAt(t, r, v) {
    }
    forall r, v | r in roots + {b} && 0 <= v < USERTOP
      ensures (LeafAt(u, r, v).v <==> (r, v) in user) && ((r, v) in user ==> LeafAt(u, r, v).pte == user[(r, v)])
    {
      if r != b {
        assert LeafAt(u, r, v) == LeafAt(t, r, v);
      }
    }
  }

  lemma FreewalkReady(m: Memory, free: seq<nat>, t: Tables, pos: map<nat, Place>, roots: set<nat>, root: nat)
    requires PhysOk(m, free, t, pos, roots) && root in roots && NoLeaves(t, root)
    ensures TreeOk(t, pos, roots) && EntriesTyped(t, pos) && root in t && root in pos && pos[root].root == root
    ensures Bare(t, pos, root)
    ensures Intact(t, t, Under(pos, root)) && MemOk(m, free) && Under(pos, root) == PagesOf(pos, root)
    ensures RefsExact(m) && forall c :: c in Under(pos, root) ==> KernelPage(m, c)
  {
    hide Node, KernelPage;
    NoLeavesBare(t, pos, roots, root);
    UnderRoot(t, pos, roots, root);
  }

  lemma NoneLeft(u: map<Key, Pte>, w: map<Key, Pte>, root: nat, n: nat)
    requires (forall i: nat :: (root, i) in u <==> i < n) && w == u - Range(root, 0, n)
    ensures forall k :: k in w ==> k.0 != root
  {
    forall k | k in w ensures k.0 != root {
    }
  }

  // ---- the two top pages ----

  lemma LeavesAfterTop(t: Tables, u: Tables, roots: set<nat>, user: map<Key, Pte>, root: nat, vpn: nat, e: Raw)
    requires LeavesMatch(t, roots, user) && PteSet(t, u, roots, root, vpn, e) && USERTOP <= vpn
    requires (e.v ==> !e.pte.u && !e.pte.cow)
    ensures LeavesMatch(u, roots, user)
  {
    hide LeafAt;
    forall r, v | r in roots && 0 <= v < USERTOP
      ensures (LeafAt(u, r, v).v <==> (r, v) in user) && ((r, v) in user ==> LeafAt(u, r, v).pte == user[(r, v)])
    {
      assert LeafAt(u, r, v) == LeafAt(t, r, v);
    }
    forall r, v | r in roots && USERTOP <= v < MAXVPN && LeafAt(u, r, v).v
      ensures !LeafAt(u, r, v).pte.u && !LeafAt(u, r, v).pte.cow
    {
      assert LeafAt(u, r, v) == if r == root && v == vpn then e else LeafAt(t, r, v);
    }
  }

  lemma StillUnset(t: Tables, u: Tables, roots: set<nat>, root: nat, vpn: nat)
    requires SameLeaves(t, u, roots) && vpn < MAXVPN && root in roots
    ensures PteSet(t, u, roots, root, vpn, LeafAt(t, root, vpn))
  {
    hide LeafAt;
    forall r, v | r in roots && 0 <= v < MAXVPN ensures LeafAt(u, r, v) == LeafAt(t, r, v) {
    }
  }

  /** TRAMPOLINE and TRAPFRAME are mapped, to these physical pages. */
  ghost predicate TopIs(t: Tables, root: nat, trampoline: nat, trapframe: nat) {
    && Sized(t)
    && LeafAt(t, root, MAXVPN - 1) == Raw(true, Pte(trampoline, true, false, true, false, false))
    && LeafAt(t, root, MAXVPN - 2) == Raw(true, Pte(trapframe, true, true, false, false, false))
  }

  lemma TablesAre(m: Memory, free: seq<nat>, t: Tables, pos: map<nat, Place>, roots: set<nat>)
    requires PhysOk(m, free, t, pos, roots)
    ensures pos.Keys == t.Keys && forall b :: b in pos ==> pos[b].root in roots
  {
    hide Node, MemOk;
  }

  lemma KeysInRoots(t: Tables, roots: set<nat>, user: map<Key, Pte>)
    requires LeavesMatch(t, roots, user)
    ensures forall k :: k in user ==> k.0 in roots
  {
  }

  lemma AllBack(m0: Memory, t0: Tables, p0: map<nat, Place>, r0: set<nat>, m2: Memory, t2: Tables, p2: map<nat, Place>,
                m: Memory, o: Memory, root: nat)
    requires Took(m0, t0, m2, t2) && Extends(p0, p2, root) && p0.Keys == t0.Keys && p2.Keys == t2.Keys && root !in r0
    requires (forall b :: b in p0 ==> p0[b].root in r0) && Inv(m2) && Inv(o) && o.user == m2.user
    requires Released(m2, m) && Freed(m, o, PagesOf(p2, root))
    ensures o.free == m0.free && t2.Keys - PagesOf(p2, root) == t0.Keys
  {
    hide Users;
    assert PagesOf(p2, root) == t2.Keys - t0.Keys;
    forall p | p in m2.mem ensures p in m.free <==> p in m2.free {
      assert m.refs[p] == m2.refs[p];
    }
    assert m.free <= o.mem.Keys;
    assert m.free == m2.free;
  }

  lemma EmptyTop(t: Tables, root: nat)
    requires NoLeaves(t, root)
    ensures Sized(t) && TopBare(t, root) && !LeafAt(t, root, MAXVPN - 1).v
  {
    hide LeafAt;
  }

  lemma TopAfter(t: Tables, u: Tables, roots: set<nat>, root: nat, vpn: nat)
    requires TopBare(t, root) && root in roots && vpn < MAXVPN && PteSet(t, u, roots, root, vpn, LeafAt(t, root, vpn))
    ensures TopBare(u, root)
  {
    hide LeafAt;
    forall v | USERTOP <= v < MAXVPN ensures !LeafAt(u, root, v).v {
      assert LeafAt(u, root, v) == LeafAt(t, root, v);
    }
  }

  lemma SecondFree(t1: Tables, t2: Tables, roots: set<nat>, root: nat, trampoline: nat)
    requires TopBare(t1, root) && root in roots
    requires PteSet(t1, t2, roots, root, MAXVPN - 1, Raw(true, Pte(trampoline, true, false, true, false, false)))
    ensures Sized(t2) && !LeafAt(t2, root, MAXVPN - 2).v && LeafAt(t2, root, MAXVPN - 1).v
  {
    hide LeafAt;
    assert LeafAt(t2, root, MAXVPN - 2) == LeafAt(t1, root, MAXVPN - 2);
  }

  lemma BothThere(t1: Tables, t2: Tables, t3: Tables, roots: set<nat>, root: nat, trampoline: nat, trapframe: nat)
    requires root in roots
    requires PteSet(t1, t2, roots, root, MAXVPN - 1, Raw(true, Pte(trampoline, true, false, true, false, false)))
    requires PteSet(t2, t3, roots, root, MAXVPN - 2, Raw(true, Pte(trapframe, true, true, false, false, false)))
    ensures TopIs(t3, root, trampoline, trapframe)
  {
    hide LeafAt;
    assert LeafAt(t3, root, MAXVPN - 1) == LeafAt(t2, root, MAXVPN - 1);
  }

  lemma TopThere(t: Tables, root: nat, trampoline: nat, trapframe: nat)
    requires TopIs(t, root, trampoline, trapframe)
    ensures Sized(t) && LeafAt(t, root, MAXVPN - 1).v
  {
  }

  lemma OneLeft(t: Tables, u: Tables, roots: set<nat>, root: nat, trampoline: nat, trapframe: nat)
    requires TopIs(t, root, trampoline, trapframe) && root in roots && PteSet(t, u, roots, root, MAXVPN - 1, Invalid())
    ensures Sized(u) && LeafAt(u, root, MAXVPN - 2).v
  {
    hide LeafAt;
    assert LeafAt(u, root, MAXVPN - 2) == LeafAt(t, root, MAXVPN - 2);
  }

  lemma BothCleared(t: Tables, u: Tables, w: Tables, roots: set<nat>, root: nat)
    requires root in roots && PteSet(t, u, roots, root, MAXVPN - 1, Invalid())
    requires PteSet(u, w, roots, root, MAXVPN - 2, Invalid())
    ensures TopBare(w, root)
  {
    hide LeafAt;
    assert LeafAt(w, root, MAXVPN - 1) == LeafAt(u, root, MAXVPN - 1) == Invalid();
  }

  /** Neither TRAMPOLINE nor TRAPFRAME is mapped. */
  ghost predicate TopBare(t: Tables, root: nat) {
    Sized(t) && forall vpn {:trigger LeafAt(t, root, vpn)} :: USERTOP <= vpn < MAXVPN ==> !LeafAt(t, root, vpn).v
  }

  function PageNumbers(lo: nat, hi: nat): (r: set<nat>)
    ensures forall p :: p in r <==> lo <= p < hi
    decreases hi
  {
    if hi <= lo then {} else PageNumbers(lo, hi - 1) + {hi - 1}
  }

  lemma NoPages(lo: nat)
    ensures PageNumbers(lo, lo) == {}
  {
  }

  ghost predicate AllKernel(m: Memory, lo: nat, hi: nat) {
    forall p {:trigger KernelPage(m, p)} :: lo <= p < hi ==> KernelPage(m, p)
  }

  lemma FirstKernel(m: Memory, p: nat, hi: nat)
    requires AllKernel(m, p, hi) && p < hi
    ensures KernelPage(m, p)
  {
  }

  lemma FreedFirst(m: Memory, lo: nat, p: nat, hi: nat, junk: Page)
    requires Inv(m) && AllKernel(m, p, hi) && lo <= p < hi && m.free == PageNumbers(lo, p) && KernelPage(m, p)
    ensures var n := Next(m, Give(p, junk));
      n.free == PageNumbers(lo, p + 1) && AllKernel(n, p + 1, hi) && n.mem.Keys == m.mem.Keys
  {
    hide RefsExact, FreeUnmapped, WritableIsExclusive;
    var n := Next(m, Give(p, junk));
    forall q | p + 1 <= q < hi ensures KernelPage(n, q) {
      assert KernelPage(m, q);
    }
  }

  /** Physical memory before the first `kfree`. */
  lemma EmptyOk(m: Memory)
    requires m.user == map[] && m.free == {} && m.refs.Keys == m.mem.Keys && 0 !in m.mem
    requires forall p :: p in m.refs ==> m.refs[p] == 0
    ensures PhysOk(m, [], map[], map[], {})
  {
    assert forall p :: Users(m.user, p) == {};
  }

  class Vm {
    var free: seq<nat>
    var tables: Tables
    var pgref: map<nat, nat>
    var data: map<nat, Page>
    ghost var user: map<Key, Pte>
    ghost var pos: map<nat, Place>
    ghost var roots: set<nat>

    ghost function M(): Memory
      reads this
    {
      Memory(user, data, pgref, Elements(free))
    }

    ghost predicate Phys()
      reads this
    {
      PhysOk(M(), free, tables, pos, roots)
    }

    ghost predicate Valid()
      reads this
    {
      Phys() && LeavesMatch(tables, roots, user)
    }

    /** Memory at boot: all of it belongs to the kernel. */
    constructor (lo: nat, hi: nat)
      requires 0 < lo <= hi
      ensures Valid() && user == map[] && tables == map[] && roots == {} && free == []
      ensures data.Keys == PageNumbers(lo, hi) && AllKernel(M(), lo, hi)
    {
      free, tables, user, pos, roots := [], map[], map[], map[], {};
      data := map p | p in PageNumbers(lo, hi) :: ZeroPage();
      pgref := map p | p in PageNumbers(lo, hi) :: 0;
      new;
      hide PhysOk, LeafAt, ZeroPage;
      EmptyOk(M());
    }

    /** `freerange`, as `kinit` calls it: every page from `lo` up to `hi` goes to the free list, each once. */
    method Freerange(lo: nat, hi: nat)
      requires Phys() && tables == map[] && M().free == {} && lo <= hi && AllKernel(M(), lo, hi)
      modifies `free, `data
      ensures Phys() && M().free == PageNumbers(lo, hi) && data.Keys == old(data).Keys
    {
      hide PhysOk, MemOk, Elements, Next, AllKernel, Inv, KernelPage, PageNumbers;
      NoPages(lo);
      var p := lo;
      while p < hi
        invariant lo <= p <= hi && Phys() && M().free == PageNumbers(lo, p) && AllKernel(M(), p, hi)
        invariant data.Keys == old(data).Keys
      {
        PhysInv(M(), free, tables, pos, roots);
        FirstKernel(M(), p, hi);
        ghost var m0 := M();
        Kfree(p);
        FreedFirst(m0, lo, p, hi, data[p]);
        p := p + 1;
      }
    }

    /** `kalloc`: the head of the free list, filled with 5s, or 0 when there is none. */
    method Kalloc() returns (p: nat)
      requires Phys()
      modifies `free, `data
      ensures Phys() && Quiet(old(M()), M())
      ensures p == 0 <==> old(free) == []
      ensures p == 0 ==> free == old(free) && data == old(data)
      ensures p != 0 ==> p == old(free)[0] && free == old(free)[1..] && KernelPage(M(), p) && p !in tables
      ensures p != 0 ==> p in old(M()).free && M().free == old(M()).free - {p}
      ensures p != 0 ==> data == old(data)[p := seq(PGSIZE, i => 5)]
    {
      hide Inv, TreeOk, EntriesTyped, NoDup;
      if free == [] {
        return 0;
      }
      var junk: Page := seq(PGSIZE, i => 5);
      TakeFirst(M(), free, tables, pos, roots, junk);
      p := free[0];
      free := free[1..];
      data := data[p := junk];
      assert M() == Next(old(M()), Take(p, junk));
    }

    /** `kfree` of a page that belongs to the kernel. */
    method Kfree(p: nat)
      requires MemOk(M(), free) && KernelPage(M(), p)
      modifies `free, `data
      ensures MemOk(M(), free) && free == [p] + old(free) && data == old(data)[p := seq(PGSIZE, i => 1)]
      ensures M() == Next(old(M()), Give(p, data[p]))
      ensures old(Phys()) && p !in tables ==> Phys()
    {
      hide TreeOk, EntriesTyped, NoDup;
      var junk: Page := seq(PGSIZE, i => 1);
      GiveBack(M(), free, p, junk);
      if Phys() && p !in tables {
        GiveBackPhys(M(), free, tables, pos, roots, p, junk);
      }
      free := [p] + free;
      data := data[p := junk];
      assert Elements(free) == old(Elements(free)) + {p};
      assert M() == Next(old(M()), Give(p, junk));
    }

    /** Where `walk` stands: `pg` is the table at `level`, and only missing tables on the way were made. */
    ghost predicate WalkState(m0: Memory, t0: Tables, p0: map<nat, Place>, f0: seq<nat>, root: nat, vpn: nat,
                              level: nat, pg: nat)
      requires vpn < MAXVPN && level <= 2
      reads this
    {
      && Phys() && Quiet(m0, M()) && SameLeaves(t0, tables, roots) && Took(m0, t0, M(), tables)
      && Extends(p0, pos, root)
      && Sized(tables) && pg in tables && pg == Node(tables, root, PathTo(level, vpn))
      && Walking(f0, p0, free, pos, root, vpn, level)
    }

    /**
     `walk`: the lowest-level table page that holds the PTE of a virtual page. With `alloc`,
     missing tables are made from free pages, and it succeeds exactly when there are enough of them;
     without, 0 means a table is missing. No leaf PTE of any address space changes.
     */
    method Walk(root: nat, vpn: nat, alloc: bool) returns (h: nat)
      requires Phys() && root in roots && vpn < MAXVPN
      modifies `free, `data, `tables, `pos
      ensures Phys() && Quiet(old(M()), M()) && SameLeaves(old(tables), tables, roots)
      ensures Took(old(M()), old(tables), M(), tables) && Extends(old(pos), pos, root)
      ensures h != 0 ==> h == Node(tables, root, PathTo(0, vpn)) && h in tables
      ensures h == 0 && alloc ==> free == []
      ensures alloc ==> (h != 0 <==> Enough(old(free), old(pos), root, Ways(vpn), 0))
      ensures alloc && h != 0 ==> Spent(old(free), old(pos), free, pos, root, Ways(vpn), 0)
      ensures !alloc ==> M() == old(M()) && tables == old(tables) && pos == old(pos) && free == old(free)
      ensures !alloc && h == 0 ==> Node(tables, root, PathTo(0, vpn)) == 0
    {
      hide PhysOk, Quiet, SameLeaves, Node, PathTo, Index, Follow, Took;
      hide Extends, Walking, Enough, Spent, Ways, Have, TreeOk;
      ExtendsRefl(pos, root);
      WalkingStart(free, pos, root, vpn);
      FreeNotTables(M(), free, tables, pos, roots);
      TookNone(M(), tables);
      WalkStart(M(), free, tables, pos, roots, root, vpn);
      var pg, level := root, 2;
      while level > 0
        invariant 0 <= level <= 2 && WalkState(old(M()), old(tables), old(pos), old(free), root, vpn, level, pg)
        invariant !alloc ==> M() == old(M()) && tables == old(tables) && pos == old(pos) && free == old(free)
      {
        WalkDown(M(), free, tables, pos, roots, root, level, vpn);
        PhysTree(M(), free, tables, pos, roots);
        WalkingDown(old(free), old(pos), free, tables, pos, roots, root, vpn, level);
        var e := tables[pg][Index(level, vpn)];
        if e.v {
          pg := e.pte.ppn;
        } else {
          if !alloc {
            WalkMissing(tables, root, level, vpn);
            return 0;
          }
          pg := MakeTable(root, vpn, level, pg, old(M()), old(tables), old(pos), old(free));
          if pg == 0 {
            return 0;
          }
        }
        level := level - 1;
      }
      WalkingEnd(old(free), old(pos), free, pos, root, vpn);
      h := pg;
    }

    /** The allocating branch of `walk`. */
    method MakeTable(root: nat, vpn: nat, level: nat, pg: nat,
                     ghost m0: Memory, ghost t0: Tables, ghost p0: map<nat, Place>, ghost f0: seq<nat>) returns (b: nat)
      requires root in roots && vpn < MAXVPN && 0 < level <= 2 && WalkState(m0, t0, p0, f0, root, vpn, level, pg)
      requires Node(tables, root, PathTo(level - 1, vpn)) == 0 && PathTo(level - 1, vpn) !in Have(pos, root)
      modifies `free, `data, `tables, `pos
      ensures b != 0 ==> WalkState(m0, t0, p0, f0, root, vpn, level - 1, b)
      ensures b == 0 ==> free == [] && !Enough(f0, p0, root, Ways(vpn), 0)
      ensures b == 0 ==>
        Phys() && Quiet(m0, M()) && SameLeaves(t0, tables, roots) && Took(m0, t0, M(), tables) && Extends(p0, pos, root)
    {
      hide PhysOk, Quiet, SameLeaves, Node, PathTo, Index, AddTable, Took, Extends, Walking, Enough, Ways, Have;
      ghost var m1, t1, p1, f1 := M(), tables, pos, free;
      b := Kalloc();
      QuietTrans(m0, m1, M());
      if b == 0 {
        WalkingShort(f0, p0, pos, root, vpn, level);
        return;
      }
      TablesAre(M(), free, tables, pos, roots);
      WalkingAdd(f0, p0, f1, pos, free, root, vpn, level, b);
      ExtendsMore(M(), free, t1, p0, p1, roots, root, b, PathTo(level - 1, vpn));
      WalkAdd(M(), free, tables, pos, roots, root, level, vpn, b, t0);
      AddKeys(tables, pg, Index(level, vpn), b);
      tables := AddTable(tables, pg, Index(level, vpn), b);
      pos := pos[b := Place(root, PathTo(level - 1, vpn))];
      TookMore(m0, t0, m1, t1, M(), tables, b);
    }

    /** Write the PTE of one virtual page, in the table page that `Walk` found. */
    method SetPte(root: nat, vpn: nat, h: nat, e: Raw)
      requires Phys() && root in roots && vpn < MAXVPN && h != 0 && h in tables
      requires h == Node(tables, root, PathTo(0, vpn))
      requires e.v ==> IsLeaf(e)
      modifies `tables
      ensures Phys() && tables.Keys == old(tables).Keys && PteSet(old(tables), tables, roots, root, vpn, e)
    {
      hide Node, LeafAt, Inv, NoDup;
      PutKeeps(tables, pos, roots, root, vpn, e);
      tables := PutEntry(tables, h, Index(0, vpn), e);
    }

    /**
     `mappages`: `n` consecutive virtual pages to consecutive physical pages, none of them
     mapped before (the source panics on a remap). Exactly that range changes; if a table page
     cannot be allocated, the pages before it stay mapped.
     */
    method Mappages(root: nat, vpn: nat, n: nat, ppn: nat, perm: Pte) returns (ok: bool, ghost done: nat)
      requires Phys() && root in roots && n > 0 && vpn + n <= MAXVPN && (perm.r || perm.w || perm.x)
      requires forall v :: vpn <= v < vpn + n ==> !LeafAt(tables, root, v).v
      modifies `free, `data, `tables, `pos
      ensures Phys() && Quiet(old(M()), M())
      ensures Took(old(M()), old(tables), M(), tables) && Extends(old(pos), pos, root)
      ensures done <= n && (ok <==> done == n) && RangeSet(old(tables), tables, roots, root, vpn, done, ppn, perm)
      ensures !ok ==> free == []
      ensures ok <==> Enough(old(free), old(pos), root, WaysOf(vpn, n), 0)
      ensures ok ==> Spent(old(free), old(pos), free, pos, root, WaysOf(vpn, n), 0)
    {
      hide PhysOk, Quiet, SameLeaves, Node, PathTo, Index, LeafAt, RangeSet;
      hide PteSet, Took, Extends, Enough, Spent, Ways, WaysOf;
      SpentNone(free, pos, root);
      WaysOfOne(vpn);
      FreeNotTables(M(), free, tables, pos, roots);
      ExtendsRefl(pos, root);
      TookNone(M(), tables);
      MapStart(M(), free, tables, pos, roots, root, vpn, ppn, perm);
      var i := 0;
      while i < n
        invariant 0 <= i <= n && Phys() && Quiet(old(M()), M())
        invariant Took(old(M()), old(tables), M(), tables) && Extends(old(pos), pos, root)
        invariant RangeSet(old(tables), tables, roots, root, vpn, i, ppn, perm)
        invariant Spent(old(free), old(pos), free, pos, root, WaysOf(vpn, i), 0)
      {
        ghost var m0, t0, p0, f0 := M(), tables, pos, free;
        var h := Walk(root, vpn + i, true);
        ExtendsTrans(old(pos), p0, pos, root);
        QuietTrans(old(M()), m0, M());
        TookTrans(old(M()), old(tables), m0, t0, M(), tables);
        RangeSame(old(tables), t0, tables, roots, root, vpn, i, ppn, perm);
        if h == 0 {
          ShortNext(old(free), old(pos), f0, p0, root, vpn, i, n, 0, 0, 0);
          return false, i;
        }
        SpentNext(old(free), old(pos), f0, p0, free, pos, root, vpn, i, 0, 0);
        ghost var t1 := tables;
        SetPte(root, vpn + i, h, Raw(true, perm.(ppn := ppn + i)));
        TookSame(old(M()), old(tables), M(), t1, tables);
        RangeMore(old(tables), t1, tables, roots, root, vpn, i, ppn, perm);
        i := i + 1;
      }
      SpentEnough(old(free), old(pos), free, pos, root, WaysOf(vpn, n), 0);
      return true, n;
    }

    /** `walk` without `alloc` for a mapped user page, and the PTE found there. */
    method Lookup(root: nat, vpn: nat) returns (h: nat, pte: Pte)
      requires Valid() && (root, vpn) in user
      modifies `free, `data, `tables, `pos
      ensures M() == old(M()) && tables == old(tables) && pos == old(pos) && free == old(free)
      ensures vpn < USERTOP && root in roots && Sized(tables) && h != 0 && h in tables
      ensures h == Node(tables, root, PathTo(0, vpn))
      ensures pte == user[(root, vpn)] && pte.r
    {
      hide PhysOk, Node, PathTo, Index, Quiet, SameLeaves;
      MappedHasTable(tables, roots, user, root, vpn);
      h := Walk(root, vpn, false);
      pte := tables[h][Index(0, vpn)].pte;
    }

    /**
     One round of `uvmunmap` with do_free: `decrement_ref`, which frees the page with its last reference,
     then `*pte = 0`.
     */
    method UnmapOne(root: nat, vpn: nat, ghost v: Eager)
      requires Valid() && (root, vpn) in user && Refines(M(), v)
      modifies `free, `data, `tables, `pgref, `user, `pos
      ensures Valid() && tables.Keys == old(tables).Keys && pos == old(pos)
      ensures user == old(user) - {(root, vpn)} && Refines(M(), v - {(root, vpn)}) && Released(old(M()), M())
      ensures PteSet(old(tables), tables, roots, root, vpn, Invalid())
    {
      hide PhysOk, Node, PathTo, Index, LeafAt, LeavesMatch, Refines, PteSet, Released, Next, Inv;
      PhysInv(M(), free, tables, pos, roots);
      var h, pte := Lookup(root, vpn);
      ghost var k := (root, vpn);
      var p := pte.ppn;
      DropRef(M(), free, tables, pos, roots, k, v);
      pgref := pgref[p := pgref[p] - 1];
      user := user - {k};
      ghost var mid := M();
      PhysInv(M(), free, tables, pos, roots);
      if pgref[p] == 0 {
        Kfree(p);
        AfterFree(old(M()), mid, M(), k, v, data[p]);
      }
      SetPte(root, vpn, h, Invalid());
      LeavesAfterSet(old(tables), tables, roots, old(user), root, vpn, Invalid());
    }

    /**
     `uvmunmap` with do_free: exactly the range disappears, and a page is free again exactly when its last
     mapping went.
     */
    method Uvmunmap(root: nat, vpn: nat, n: nat, ghost v: Eager)
      requires Valid() && Refines(M(), v) && forall i :: vpn <= i < vpn + n ==> (root, i) in user
      modifies `free, `data, `tables, `pgref, `user, `pos
      ensures Valid() && tables.Keys == old(tables).Keys && pos == old(pos)
      ensures user == old(user) - Range(root, vpn, n) && Refines(M(), v - Range(root, vpn, n))
      ensures Released(old(M()), M())
      ensures Cleared(old(tables), tables, roots, root, vpn, n)
    {
      hide PhysOk, LeavesMatch, Refines, Released, Inv, Range, PteSet, Cleared;
      ClearedNone(M(), free, tables, pos, roots, root, vpn);
      PhysInv(M(), free, tables, pos, roots);
      ReleasedRefl(M());
      MinusNone(user, root, vpn);
      MinusNone(v, root, vpn);
      var i := 0;
      while i < n
        invariant 0 <= i <= n && Valid() && tables.Keys == old(tables).Keys && pos == old(pos)
        invariant user == old(user) - Range(root, vpn, i) && Refines(M(), v - Range(root, vpn, i))
        invariant Released(old(M()), M())
        invariant Cleared(old(tables), tables, roots, root, vpn, i)
      {
        ghost var m0, t0 := M(), tables;
        RangeNext(root, vpn, i);
        MinusNext(old(user), root, vpn, i);
        MinusNext(v, root, vpn, i);
        UnmapOne(root, vpn + i, v - Range(root, vpn, i));
        ClearedNext(old(tables), t0, tables, roots, root, vpn, i);
        ReleasedTrans(old(M()), m0, M());
        i := i + 1;
      }
    }

    /** `kalloc` and `memset(mem, 0, PGSIZE)` of `uvmalloc`. */
    method AllocZeroed(ghost v: Eager) returns (p: nat)
      requires Valid() && Refines(M(), v)
      modifies `free, `data
      ensures Valid() && Refines(M(), v)
      ensures Conserved(old(M()), tables, M(), tables, if p == 0 then {} else {p})
      ensures p != 0 ==> KernelPage(M(), p) && p !in tables && p in old(M()).free && data[p] == ZeroPage()
      ensures (p == 0 <==> old(free) == []) && (p != 0 ==> |free| + 1 == |old(free)|)
    {
      hide PhysOk, LeavesMatch, Refines, Inv, Quiet, Conserved, KernelPage, Elements, ZeroPage;
      PhysInv(M(), free, tables, pos, roots);
      FreeNotTables(M(), free, tables, pos, roots);
      ghost var m0 := M();
      p := Kalloc();
      if p == 0 {
        NothingTaken(m0, M(), tables, v);
        return;
      }
      PageTaken(m0, M(), free, tables, pos, roots, p, ZeroPage(), v);
      data := data[p := ZeroPage()];
    }

    /** `kfree(mem)` after a failed `mappages` in `uvmalloc`. */
    method GiveUp(p: nat, ghost m0: Memory, ghost t0: Tables, ghost v: Eager)
      requires Valid() && Refines(M(), v) && KernelPage(M(), p) && p !in tables && p in m0.free
      requires Conserved(m0, t0, M(), tables, {p})
      modifies `free, `data
      ensures Valid() && Refines(M(), v) && Conserved(m0, t0, M(), tables, {})
    {
      hide PhysOk, LeavesMatch, Refines, Inv, Conserved, KernelPage, Elements, Next;
      ghost var m2 := M();
      PhysInv(M(), free, tables, pos, roots);
      Kfree(p);
      GivenBack(m0, m2, M(), t0, tables, p, data[p], v);
    }

    /** `mappages` of the page just zeroed and `increment_ref`, or `kfree` if a table is missing. */
    method MapZeroed(root: nat, vpn: nat, p: nat, perm: Pte, ghost m0: Memory, ghost v: Eager) returns (ok: bool)
      requires Valid() && root in roots && vpn < USERTOP && (root, vpn) !in user && Refines(M(), v)
      requires perm.r && !(perm.w && perm.cow)
      requires Conserved(m0, tables, M(), tables, {p}) && KernelPage(M(), p) && p !in tables && p in m0.free
      requires data[p] == ZeroPage()
      modifies `free, `data, `tables, `pos, `pgref, `user
      ensures Valid() && Conserved(m0, old(tables), M(), tables, {})
      ensures user == if ok then old(user)[(root, vpn) := perm.(ppn := p)] else old(user)
      ensures Refines(M(), if ok then v[(root, vpn) := Given(ZeroPage(), perm)] else v)
      ensures ok <==> Enough(old(free), old(pos), root, Ways(vpn), 0)
      ensures ok ==> Spent(old(free), old(pos), free, pos, root, Ways(vpn), 0)
    {
      hide PhysOk, LeafAt, LeavesMatch, Refines, PteSet, RangeSet, Inv, Enough, Spent, Ways, WaysOf;
      hide Next, Quiet, Conserved, KernelPage, Took, Elements, ZeroPage, SameLeaves, Extends;
      WaysOfOne(vpn);
      ghost var m1, t0 := M(), tables;
      var pte := perm.(ppn := p);
      PhysInv(M(), free, tables, pos, roots);
      UnmappedLeaf(tables, roots, user, root, vpn);
      var mapped, done := Mappages(root, vpn, 1, p, pte);
      TablesTaken(m0, m1, M(), t0, tables, p, v);
      if !mapped {
        RangeOfNone(t0, tables, roots, root, vpn, pte);
        LeavesSame(t0, tables, roots, user);
        GiveUp(p, m0, t0, v);
        return false;
      }
      RangeOfOne(t0, tables, roots, root, vpn, pte);
      LeavesAfterSet(t0, tables, roots, user, root, vpn, Raw(true, pte));
      PageMapped(m0, M(), free, t0, tables, pos, roots, (root, vpn), pte, v);
      pgref := pgref[p := pgref[p] + 1];
      user := user[(root, vpn) := pte];
      ok := true;
    }

    /** One round of `uvmalloc`: a page, zeroed, mapped and counted; without memory everything is as before. */
    method AllocOne(root: nat, vpn: nat, perm: Pte, ghost v: Eager) returns (ok: bool)
      requires Valid() && root in roots && vpn < USERTOP && (root, vpn) !in user && Refines(M(), v)
      requires perm.r && !(perm.w && perm.cow)
      modifies `free, `data, `tables, `pos, `pgref, `user
      ensures Valid() && Conserved(old(M()), old(tables), M(), tables, {})
      ensures ok ==> (root, vpn) in user && user == old(user)[(root, vpn) := perm.(ppn := user[(root, vpn)].ppn)]
      ensures ok ==> Refines(M(), v[(root, vpn) := Given(ZeroPage(), perm)])
      ensures !ok ==> user == old(user) && Refines(M(), v)
      ensures ok <==> Enough(old(free), old(pos), root, Ways(vpn), 1)
      ensures ok ==> Spent(old(free), old(pos), free, pos, root, Ways(vpn), 1)
    {
      hide PhysOk, LeavesMatch, Refines, Conserved, KernelPage, Elements, ZeroPage, Spent, Ways;
      ghost var m0 := M();
      var p := AllocZeroed(v);
      if p == 0 {
        return false;
      }
      OneMore(old(free), free, pos, root, Ways(vpn));
      PhysInv(M(), free, tables, pos, roots);
      ok := MapZeroed(root, vpn, p, perm, m0, v);
    }

    /**
     `uvmalloc`: zeroed pages from the end of the old size to the new size, or nothing. When
     memory runs out the mapping is exactly the old one and every page is free again that did
     not become a page table.
     */
    method Uvmalloc(root: nat, oldsz: nat, newsz: nat, w: bool, x: bool, ghost v: Eager)
      returns (r: nat, ghost ok: bool)
      requires Valid() && root in roots && Refines(M(), v) && newsz <= USERTOP * PGSIZE
      requires forall i :: PageUp(oldsz) <= i < PageUp(newsz) ==> (root, i) !in user
      modifies `free, `data, `tables, `pos, `pgref, `user
      ensures Valid()
      ensures newsz < oldsz ==> ok && r == oldsz && M() == old(M()) && tables == old(tables)
      ensures newsz >= oldsz && ok ==> r == newsz
      ensures newsz >= oldsz && ok ==> Refines(M(), Grown(v, root, PageUp(oldsz), PageUp(newsz) - PageUp(oldsz), w, x))
      ensures newsz >= oldsz && ok ==> forall k :: k in old(user) ==> k in user && user[k] == old(user)[k]
      ensures newsz >= oldsz && ok ==> forall i :: PageUp(oldsz) <= i < PageUp(newsz) ==>
        (root, i) in user && user[(root, i)] == Pte(user[(root, i)].ppn, true, w, x, true, false)
      ensures !ok ==> r == 0 && user == old(user) && pgref == old(pgref) && Refines(M(), v)
      ensures !ok ==> M().free + (tables.Keys - old(tables).Keys) == old(M()).free
      ensures newsz >= oldsz ==> (ok <==> RangeFits(old(free), old(pos), root, PageUp(oldsz), PageUp(newsz), 1))
    {
      hide PhysOk, LeavesMatch, Refines, Conserved, Elements, Range, Grown, Inv, ZeroPage, Enough, Spent, Ways, WaysOf;
      if newsz < oldsz {
        return oldsz, true;
      }
      ghost var m0, t0 := M(), tables;
      ConservedRefl(m0, free, t0, pos, roots);
      PageUpMonotone(oldsz, newsz);
      var first := PageUp(oldsz);
      GrownNone(v, root, first, w, x);
      MinusNone(user, root, first);
      var perm := Pte(0, true, w, x, true, false);
      PageUpBelow(newsz);
      WaysOfOne(0);
      SpentStart(free, pos, root, first);
      var a := first;
      while a * PGSIZE < newsz
        invariant first <= a <= PageUp(newsz) && Valid() && Conserved(m0, t0, M(), tables, {})
        invariant Spent(old(free), old(pos), free, pos, root, WaysOf(first, a - first), a - first)
        invariant Refines(M(), Grown(v, root, first, a - first, w, x))
        invariant user.Keys == old(user).Keys + Range(root, first, a - first)
        invariant user - Range(root, first, a - first) == old(user)
        invariant forall i :: first <= i < a ==>
          (root, i) in user && user[(root, i)] == perm.(ppn := user[(root, i)].ppn)
      {
        PageUpBound(a, newsz);
        RangeNext(root, first, a - first);
        NotYet(user, old(user), root, first, a);
        GrownNext(v, root, first, a - first, w, x);
        ghost var m1, t1, u1, f1, p1 := M(), tables, user, free, pos;
        var got := AllocOne(root, a, perm, Grown(v, root, first, a - first, w, x));
        ConservedTrans(m0, t0, m1, t1, M(), tables);
        if !got {
          ShortNext(old(free), old(pos), f1, p1, root, first, a - first, PageUp(newsz) - first, a - first, 1,
                    PageUp(newsz) - first);
          NoneBefore(old(M()), v, root, first, PageUp(newsz));
          GrownUndone(v, root, first, a - first, w, x);
          Rollback(root, first, a - first, m0, t0, v, Grown(v, root, first, a - first, w, x));
          return 0, false;
        }
        SpentNext(old(free), old(pos), f1, p1, free, pos, root, first, a - first, a - first, 1);
        AddedOne(u1, user, old(user), root, first, a);
        a := a + 1;
      }
      PageUpEnd(a, newsz);
      SpentEnough(old(free), old(pos), free, pos, root, WaysOf(first, a - first), a - first);
      KeptAll(user, old(user), root, first, a - first);
      r, ok := newsz, true;
    }

    /** The `uvmdealloc` on the error paths of `uvmalloc`. */
    method Rollback(root: nat, vpn: nat, n: nat, ghost m0: Memory, ghost t0: Tables, ghost v: Eager, ghost w: Eager)
      requires Valid() && Refines(M(), w) && Conserved(m0, t0, M(), tables, {}) && Inv(m0)
      requires user.Keys == m0.user.Keys + Range(root, vpn, n) && user - Range(root, vpn, n) == m0.user
      requires w - Range(root, vpn, n) == v
      modifies `free, `data, `tables, `pgref, `user, `pos
      ensures Valid() && user == m0.user && pgref == m0.refs && Refines(M(), v)
      ensures M().free + (tables.Keys - t0.Keys) == m0.free
    {
      hide PhysOk, LeavesMatch, Refines, Conserved, Elements, Inv, Released;
      ghost var m1, t1 := M(), tables;
      Uvmunmap(root, vpn, n, w);
      PhysInv(M(), free, tables, pos, roots);
      Undone(m0, t0, m1, t1, M(), tables);
    }

    /** First half of a round of `uvmcopy`: the parent's PTE loses PTE_W and gets PTE_COW. */
    method MarkPage(a: nat, i: nat, ghost v: Eager) returns (q: Pte)
      requires Valid() && (a, i) in user && Refines(M(), v)
      modifies `free, `data, `tables, `pos, `user
      ensures Valid() && Refines(M(), v) && Conserved(old(M()), old(tables), M(), tables, {})
      ensures q == Shared(old(user)[(a, i)]) && q.r && user == old(user)[(a, i) := q]
      ensures free == old(free) && pos == old(pos)
    {
      hide PhysOk, Node, PathTo, Index, LeafAt, LeavesMatch, Refines, PteSet, Conserved, Elements;
      ghost var m0, t0 := M(), tables;
      var h, pte := Lookup(a, i);
      MarkOne(M(), free, tables, pos, roots, (a, i), v);
      q := Shared(pte);
      user := user[(a, i) := q];
      SetPte(a, i, h, Raw(true, q));
      LeavesAfterSet(t0, tables, roots, m0.user, a, i, Raw(true, q));
      ConservedSame(m0, t0, M(), tables);
    }

    /** `mappages` of one user page; the count is the caller's business. */
    method MapOne(b: nat, i: nat, q: Pte, ghost v: Eager) returns (ok: bool)
      requires Valid() && b in roots && i < USERTOP && (b, i) !in user && Refines(M(), v) && q.r
      modifies `free, `data, `tables, `pos
      ensures Phys() && Refines(M(), v) && Conserved(old(M()), old(tables), M(), tables, {})
      ensures Quiet(old(M()), M()) && Took(old(M()), old(tables), M(), tables)
      ensures LeavesMatch(tables, roots, if ok then user[(b, i) := q] else user)
      ensures ok <==> Enough(old(free), old(pos), b, Ways(i), 0)
      ensures ok ==> Spent(old(free), old(pos), free, pos, b, Ways(i), 0)
    {
      hide PhysOk, LeafAt, LeavesMatch, Refines, PteSet, RangeSet, Conserved, Took, Quiet, Elements, Inv, SameLeaves;
      hide Enough, Spent, Ways, WaysOf;
      WaysOfOne(i);
      ghost var m1, t1 := M(), tables;
      PhysInv(M(), free, tables, pos, roots);
      UnmappedLeaf(tables, roots, user, b, i);
      ghost var done: nat;
      ok, done := Mappages(b, i, 1, q.ppn, q);
      OnlyTables(m1, M(), t1, tables, v);
      if ok {
        RangeOfOne(t1, tables, roots, b, i, q);
        LeavesAfterSet(t1, tables, roots, user, b, i, Raw(true, q));
      } else {
        RangeOfNone(t1, tables, roots, b, i, q);
        LeavesSame(t1, tables, roots, user);
      }
    }

    /** Second half: `mappages` of the same page in the child, then `increment_ref`. */
    method SharePage(k: Key, b: nat, i: nat, q: Pte, ghost v: Eager) returns (ok: bool)
      requires Valid() && b in roots && i < USERTOP && k in user && (b, i) !in user && Refines(M(), v)
      requires q == user[k] && q == Shared(q) && q.r
      modifies `free, `data, `tables, `pos, `pgref, `user
      ensures Valid() && Conserved(old(M()), old(tables), M(), tables, {}) && k in v
      ensures user == if ok then old(user)[(b, i) := q] else old(user)
      ensures Refines(M(), if ok then v[(b, i) := v[k]] else v)
      ensures ok <==> Enough(old(free), old(pos), b, Ways(i), 0)
      ensures ok ==> Spent(old(free), old(pos), free, pos, b, Ways(i), 0)
    {
      hide PhysOk, LeavesMatch, Refines, Conserved, Elements, Quiet, Took, Enough, Spent, Ways;
      ghost var m1, t1 := M(), tables;
      MappedInEager(m1, v, k);
      ok := MapOne(b, i, q, v);
      if ok {
        SameUser(m1, M());
        ghost var m2, t2 := M(), tables;
        ShareOne(M(), free, tables, pos, roots, k, (b, i), v);
        pgref := pgref[q.ppn := pgref[q.ppn] + 1];
        user := user[(b, i) := q];
        ConservedTrans(m1, t1, m2, t2, M(), tables);
      }
    }

    /** One round of `uvmcopy`. */
    method CopyOne(a: nat, b: nat, i: nat, ghost v: Eager) returns (ok: bool)
      requires Valid() && a != b && b in roots && i < USERTOP && (a, i) in user && (b, i) !in user && Refines(M(), v)
      modifies `free, `data, `tables, `pos, `pgref, `user
      ensures Valid() && Conserved(old(M()), old(tables), M(), tables, {}) && (a, i) in v
      ensures var marked := old(user)[(a, i) := Shared(old(user)[(a, i)])];
        user == if ok then marked[(b, i) := Shared(old(user)[(a, i)])] else marked
      ensures Refines(M(), if ok then v[(b, i) := v[(a, i)]] else v)
      ensures ok <==> Enough(old(free), old(pos), b, Ways(i), 0)
      ensures ok ==> Spent(old(free), old(pos), free, pos, b, Ways(i), 0)
    {
      hide PhysOk, LeavesMatch, Refines, Conserved, Elements, Enough, Spent, Ways;
      ghost var m0, t0 := M(), tables;
      var q := MarkPage(a, i, v);
      ghost var m1, t1 := M(), tables;
      ok := SharePage((a, i), b, i, q, v);
      ConservedTrans(m0, t0, m1, t1, M(), tables);
    }

    /**
     `uvmcopy`: afterwards parent and child read what they would read after eager copying. When
     a page table cannot be allocated, the child has nothing, every count is the old one and
     every page is free again that did not become a page table; pages 0 to `n` of the parent
     have become copy-on-write.
     */
    method Uvmcopy(a: nat, b: nat, sz: nat, ghost v: Eager) returns (ok: bool, ghost n: nat)
      requires Valid() && a != b && b in roots && Refines(M(), v) && sz <= USERTOP * PGSIZE
      requires forall i :: 0 <= i < PageUp(sz) ==> (a, i) in user && (b, i) !in user
      modifies `free, `data, `tables, `pos, `pgref, `user
      ensures Valid()
      ensures ok ==> n == PageUp(sz) && AreCopied(old(user), user, a, b, n) && ReadsForked(M(), v, a, b, n)
      ensures !ok ==> n < PageUp(sz) && user == Marked(old(user), a, n + 1) && Refines(M(), v)
      ensures !ok ==> pgref == old(pgref) && M().free + (tables.Keys - old(tables).Keys) == old(M()).free
      ensures ok <==> RangeFits(old(free), old(pos), b, 0, PageUp(sz), 0)
    {
      hide PhysOk, LeavesMatch, Refines, Conserved, Elements, Range, Copied;
      hide Forked, Marked, Inv, Shared, Released, SamePages;
      hide Enough, Spent, Ways, WaysOf;
      PageUpBelow(sz);
      SpentStart(free, pos, b, 0);
      ghost var m0, t0 := M(), tables;
      ConservedRefl(m0, free, t0, pos, roots);
      ForkedNone(v, a, b);
      CopiedNone(user, a, b);
      AllInEager(m0, v, a, PageUp(sz));
      PageUpMonotone(0, sz);
      var i := 0;
      while i * PGSIZE < sz
        invariant 0 <= i <= PageUp(sz) && Valid() && Conserved(m0, t0, M(), tables, {})
        invariant user == Copied(old(user), a, b, i) && Refines(M(), Forked(v, a, b, i))
        invariant Spent(old(free), old(pos), free, pos, b, WaysOf(0, i), 0)
      {
        PageUpBound(i, sz);
        CopiedHas(old(user), a, b, i);
        CopiedNext(old(user), a, b, i);
        ForkedNext(v, a, b, i);
        ghost var m1, t1, f1, p1 := M(), tables, free, pos;
        ok := CopyOne(a, b, i, Forked(v, a, b, i));
        ConservedTrans(m0, t0, m1, t1, M(), tables);
        if !ok {
          ShortNext(old(free), old(pos), f1, p1, b, 0, i, PageUp(sz), 0, 0, 0);
          NoneBefore(m0, v, b, 0, PageUp(sz));
          ForkedUndone(v, a, b, i);
          CopiedUndone(old(user), a, b, i);
          ghost var m2, t2 := M(), tables;
          Uvmunmap(b, 0, i, Forked(v, a, b, i));
          PhysInv(M(), free, tables, pos, roots);
          MarkedSamePages(old(user), a, i + 1);
          Undone(m0, t0, m2, t2, M(), tables);
          n := i;
          return;
        }
        SpentNext(old(free), old(pos), f1, p1, free, pos, b, 0, i, 0, 0);
        i := i + 1;
      }
      PageUpEnd(i, sz);
      SpentEnough(old(free), old(pos), free, pos, b, WaysOf(0, i), 0);
      ok, n := true, i;
    }

    /**
     `freewalk`: every table page at and below `b` goes to the free list, each exactly once, and
     no other page does. `t`, `p` and `rs` are the tree as it was before its first page went.
     */
    method Freewalk(b: nat, ghost t: Tables, ghost p: map<nat, Place>, ghost rs: set<nat>)
      requires TreeOk(t, p, rs) && EntriesTyped(t, p) && b in t && b in p && Bare(t, p, p[b].root)
      requires Intact(tables, t, Under(p, b)) && MemOk(M(), free) && forall c :: c in Under(p, b) ==> KernelPage(M(), c)
      modifies `free, `data, `tables
      ensures tables == old(tables) - Under(p, b) && MemOk(M(), free) && Freed(old(M()), M(), Under(p, b))
      decreases 2 - |p[b].path|
    {
      hide TreeOk, EntriesTyped, Bare, MemOk, Freed, Halfway, Intact, Under, UnderUpto, Elements, NoDup, KernelPage;
      UnderSelf(t, p, rs, b);
      FreedNone(M());
      HalfwayStart(tables, t, p, b);
      var i := 0;
      while i < 512
        invariant 0 <= i <= 512 && MemOk(M(), free) && Freed(old(M()), M(), UnderUpto(p, b, i))
        invariant Halfway(old(tables), tables, t, b, UnderUpto(p, b, i), i)
      {
        ghost var gone := UnderUpto(p, b, i);
        HalfwayEntry(old(tables), tables, t, b, gone, i);
        var e := tables[b][i];
        EntryKind(t, p, rs, b, i);
        if e.v && !IsLeaf(e) {
          var child := e.pte.ppn;
          UnderChild(t, p, rs, b, i);
          ghost var more, m1 := Under(p, child), M();
          IntactPart(old(tables), t, Under(p, b), more);
          HalfwayIntact(old(tables), tables, t, b, gone, i, more);
          StillKernel(old(M()), M(), gone, more);
          HalfwayCleared(old(tables), tables, t, b, gone, i, more);
          Freewalk(child, t, p, rs);
          FreedMore(old(M()), m1, M(), gone, more);
          tables := tables[b := tables[b][i := Invalid()]];
        } else if e.v {
          assert false;
        } else {
          UnderMissing(t, p, rs, b, i);
        }
        i := i + 1;
      }
      HalfwayDone(old(tables), tables, t, b, UnderUpto(p, b, i));
      ghost var m2, f2 := M(), free;
      SelfKernel(p, b, old(M()), m2, UnderUpto(p, b, i));
      Kfree(b);
      FreedOne(m2, f2, b, data[b]);
      FreedMore(old(M()), m2, M(), UnderUpto(p, b, i), {b});
      tables := tables - {b};
    }

    /** `uvmcreate`: an empty page table in a page of its own. */
    method Uvmcreate(ghost v: Eager) returns (root: nat)
      requires Valid() && Refines(M(), v)
      modifies `free, `data, `tables, `pos, `roots
      ensures Valid() && Refines(M(), v)
      ensures root == 0 <==> old(free) == []
      ensures root == 0 ==> tables == old(tables) && pos == old(pos) && roots == old(roots) && free == old(free)
      ensures root != 0 ==> root !in old(roots) && roots == old(roots) + {root} && NoLeaves(tables, root)
      ensures root != 0 ==> Took(old(M()), old(tables), M(), tables) && Extends(old(pos), pos, root)
      ensures root != 0 ==> tables.Keys == old(tables).Keys + {root}
      ensures root != 0 ==> |free| + 1 == |old(free)| && Have(pos, root) == {[]}
    {
      hide MemOk, LeavesMatch, Refines, Quiet, Elements, TreeOk, EntriesTyped, NoLeaves, Took, Extends, Inv;
      ghost var m0, t0, p0, r0 := M(), tables, pos, roots;
      PhysInv(M(), free, tables, pos, roots);
      root := Kalloc();
      QuietRefines(m0, M(), v);
      if root == 0 {
        return;
      }
      RootAdded(m0, M(), free, tables, pos, roots, root);
      OnlyTheRoot(M(), free, tables, pos, roots, root);
      tables := tables[root := ZeroTable()];
      pos := pos[root := Place(root, [])];
      roots := roots + {root};
    }

    /**
     `uvmfree` of an address space of size `sz` without TRAMPOLINE and TRAPFRAME: exactly its
     leaf pages that nobody shares and its table pages are free afterwards, and no other
     address space changes.
     */
    method Uvmfree(root: nat, sz: nat, ghost v: Eager)
      requires Valid() && root in roots && Refines(M(), v) && TopBare(tables, root)
      requires forall i: nat :: (root, i) in user <==> i < PageUp(sz)
      modifies `free, `data, `tables, `pos, `pgref, `user, `roots
      ensures Valid() && roots == old(roots) - {root} && user == old(user) - Range(root, 0, PageUp(sz))
      ensures Refines(M(), v - Range(root, 0, PageUp(sz))) && tables.Keys == old(tables).Keys - PagesOf(old(pos), root)
      ensures pos == old(pos) - PagesOf(old(pos), root)
      ensures exists m :: Released(old(M()), m) && Freed(m, M(), PagesOf(old(pos), root))
    {
      hide PhysOk, LeavesMatch, Refines, Released, Freed, MemOk, Elements, Inv, Range;
      hide PagesOf, Cleared, TopBare, NoLeaves, TreeOk, EntriesTyped, Bare, Under, Intact, KernelPage;
      PhysInv(M(), free, tables, pos, roots);
      ReleasedRefl(M());
      MinusNone(user, root, 0);
      MinusNone(v, root, 0);
      ghost var u0, t0 := user, tables;
      if sz > 0 {
        Uvmunmap(root, 0, PageUp(sz), v);
      } else {
        ClearedNone(M(), free, tables, pos, roots, root, 0);
      }
      NoneLeft(u0, user, root, PageUp(sz));
      ghost var m1, f1, t1, w := M(), free, tables, v - Range(root, 0, PageUp(sz));
      TopStays(t0, tables, roots, root, PageUp(sz));
      NothingMapped(tables, roots, user, root);
      FreewalkReady(m1, free, tables, pos, roots, root);
      Freewalk(root, tables, pos, roots);
      Dropped(m1, M(), free, f1, t1, pos, roots, root);
      FreedRefines(m1, M(), PagesOf(pos, root), w);
      pos := pos - PagesOf(pos, root);
      roots := roots - {root};
    }

    /** `uvmunmap` without do_free of TRAMPOLINE or TRAPFRAME. */
    method UnmapTop(root: nat, vpn: nat)
      requires Valid() && root in roots && USERTOP <= vpn < MAXVPN && Sized(tables) && LeafAt(tables, root, vpn).v
      modifies `free, `data, `tables, `pos
      ensures Valid() && M() == old(M()) && free == old(free) && tables.Keys == old(tables).Keys && pos == old(pos)
      ensures PteSet(old(tables), tables, roots, root, vpn, Invalid())
    {
      hide PhysOk, LeavesMatch, LeafAt, Node, PathTo, Index, PteSet, Elements, Seen;
      var h, e := Peek(root, vpn);
      SetPte(root, vpn, h, Invalid());
      LeavesAfterTop(old(tables), tables, roots, user, root, vpn, Invalid());
    }

    /** `mappages` of TRAMPOLINE or TRAPFRAME. */
    method MapTop(root: nat, vpn: nat, perm: Pte, ghost v: Eager) returns (ok: bool)
      requires Valid() && root in roots && Refines(M(), v) && USERTOP <= vpn < MAXVPN && Sized(tables)
      requires !LeafAt(tables, root, vpn).v
      requires perm.r && !perm.u && !perm.cow
      modifies `free, `data, `tables, `pos
      ensures Valid() && Refines(M(), v) && Took(old(M()), old(tables), M(), tables) && Extends(old(pos), pos, root)
      ensures PteSet(old(tables), tables, roots, root, vpn,
                     if ok then Raw(true, perm) else LeafAt(old(tables), root, vpn))
      ensures ok <==> Enough(old(free), old(pos), root, Ways(vpn), 0)
      ensures ok ==> Spent(old(free), old(pos), free, pos, root, Ways(vpn), 0)
    {
      hide PhysOk, LeavesMatch, LeafAt, PteSet, RangeSet, Elements, Took, Extends, Refines, Quiet, Inv, SameLeaves;
      hide Enough, Spent, Ways, WaysOf;
      WaysOfOne(vpn);
      ghost var m0, t0 := M(), tables;
      PhysInv(M(), free, tables, pos, roots);
      ghost var done: nat;
      ok, done := Mappages(root, vpn, 1, perm.ppn, perm);
      QuietRefines(m0, M(), v);
      if ok {
        RangeOfOne(t0, tables, roots, root, vpn, perm);
        LeavesAfterTop(t0, tables, roots, user, root, vpn, Raw(true, perm));
      } else {
        RangeOfNone(t0, tables, roots, root, vpn, perm);
        LeavesSame(t0, tables, roots, user);
        StillUnset(t0, tables, roots, root, vpn);
      }
    }

    /** The error paths of `proc_pagetable`: `uvmfree(pagetable, 0)` gives back every page taken so far. */
    method Abandon(root: nat, ghost m0: Memory, ghost t0: Tables, ghost p0: map<nat, Place>, ghost r0: set<nat>,
                   ghost v: Eager)
      requires Valid() && root in roots && roots == r0 + {root} && root !in r0 && Refines(M(), v)
      requires TopBare(tables, root)
      requires (forall k :: k in user ==> k.0 != root) && Took(m0, t0, M(), tables) && Extends(p0, pos, root)
      requires p0.Keys == t0.Keys && forall b :: b in p0 ==> p0[b].root in r0
      modifies `free, `data, `tables, `pos, `pgref, `user, `roots
      ensures Valid() && Refines(M(), v) && user == old(user) && roots == r0 && tables.Keys == t0.Keys
      ensures M().free == m0.free
    {
      hide PhysOk, LeavesMatch, Refines, Took, Extends, Elements, Released, Freed, PagesOf, TopBare, Inv, Range;
      ghost var m2, t2, p2 := M(), tables, pos;
      MinusNone(user, root, 0);
      MinusNone(v, root, 0);
      PhysInv(M(), free, tables, pos, roots);
      TablesAre(M(), free, tables, pos, roots);
      Uvmfree(root, 0, v);
      PhysInv(M(), free, tables, pos, roots);
      ghost var m :| Released(m2, m) && Freed(m, M(), PagesOf(p2, root));
      AllBack(m0, t0, p0, r0, m2, t2, p2, m, M(), root);
    }

    /**
     `proc_pagetable`: a page table with TRAMPOLINE and TRAPFRAME and nothing else, exactly when there are three
     free pages; otherwise no page table and every page back. The second mapping cannot fail, because it needs
     no table that the first did not.
     */
    method ProcPagetable(trampoline: nat, trapframe: nat, ghost v: Eager) returns (root: nat)
      requires Valid() && Refines(M(), v)
      modifies `free, `data, `tables, `pos, `pgref, `user, `roots
      ensures Valid() && Refines(M(), v) && user == old(user)
      ensures root == 0 ==> roots == old(roots) && tables.Keys == old(tables).Keys && M().free == old(M()).free
      ensures root != 0 ==> root !in old(roots) && roots == old(roots) + {root}
      ensures root != 0 ==> TopIs(tables, root, trampoline, trapframe) && forall k :: k in user ==> k.0 != root
      ensures root != 0 <==> |old(free)| >= 3
    {
      hide Enough, Spent, Ways;
      hide PhysOk, LeavesMatch, Refines, Took, Extends, Elements, NoLeaves, LeafAt, PteSet, TopBare, TopIs, Inv;
      ghost var m0, t0, p0, r0 := M(), tables, pos, roots;
      TablesAre(M(), free, tables, pos, roots);
      KeysInRoots(tables, roots, user);
      root := Uvmcreate(v);
      if root == 0 {
        return;
      }
      ghost var m1, t1, p1, f1 := M(), tables, pos, free;
      TopTables(f1, p1, root);
      EmptyTop(t1, root);
      var ok := MapTop(root, MAXVPN - 1, Pte(trampoline, true, false, true, false, false), v);
      TookTrans(m0, t0, m1, t1, M(), tables);
      ExtendsTrans(p0, p1, pos, root);
      if !ok {
        TopAfter(t1, tables, roots, root, MAXVPN - 1);
        Abandon(root, m0, t0, p0, r0, v);
        return 0;
      }
      ghost var m2, t2, p2 := M(), tables, pos;
      SameTables(f1, p1, free, p2, root);
      SecondFree(t1, t2, roots, root, trampoline);
      ok := MapTop(root, MAXVPN - 2, Pte(trapframe, true, true, false, false, false), v);
      TookTrans(m0, t0, m2, t2, M(), tables);
      ExtendsTrans(p0, p2, pos, root);
      ghost var t3 := tables;
      if !ok {
        assert false;
      }
      BothThere(t1, t2, t3, roots, root, trampoline, trapframe);
    }

    /** `proc_freepagetable`: everything the address space had is given up, and `freewalk` meets no leaf. */
    method ProcFreepagetable(root: nat, sz: nat, trampoline: nat, trapframe: nat, ghost v: Eager)
      requires Valid() && root in roots && Refines(M(), v) && TopIs(tables, root, trampoline, trapframe)
      requires forall i: nat :: (root, i) in user <==> i < PageUp(sz)
      modifies `free, `data, `tables, `pos, `pgref, `user, `roots
      ensures Valid() && roots == old(roots) - {root} && user == old(user) - Range(root, 0, PageUp(sz))
      ensures Refines(M(), v - Range(root, 0, PageUp(sz))) && tables.Keys == old(tables).Keys - PagesOf(old(pos), root)
      ensures exists m :: Released(old(M()), m) && Freed(m, M(), PagesOf(old(pos), root))
    {
      hide PhysOk, LeavesMatch, Refines, Released, Freed, Elements, Range, PagesOf, LeafAt, PteSet, TopBare, TopIs;
      ghost var t0 := tables;
      TopThere(t0, root, trampoline, trapframe);
      UnmapTop(root, MAXVPN - 1);
      ghost var t1 := tables;
      OneLeft(t0, t1, roots, root, trampoline, trapframe);
      UnmapTop(root, MAXVPN - 2);
      BothCleared(t0, t1, tables, roots, root);
      Uvmfree(root, sz, v);
    }

    /** `kalloc` and `memmove` of the eager `uvmcopy`. */
    method AllocCopy(pa: nat, ghost v: Eager) returns (p: nat)
      requires Valid() && Refines(M(), v) && pa in data && pa !in M().free
      modifies `free, `data
      ensures Valid() && Refines(M(), v) && data.Keys == old(data).Keys && data[pa] == old(data)[pa]
      ensures Conserved(old(M()), tables, M(), tables, if p == 0 then {} else {p})
      ensures p != 0 ==> KernelPage(M(), p) && p !in tables && p in old(M()).free && data[p] == data[pa]
      ensures (p == 0 <==> old(free) == []) && (p != 0 ==> |free| + 1 == |old(free)|)
    {
      hide PhysOk, LeavesMatch, Refines, Inv, Conserved, KernelPage, Elements;
      PhysInv(M(), free, tables, pos, roots);
      FreeNotTables(M(), free, tables, pos, roots);
      ghost var m0 := M();
      p := Kalloc();
      if p == 0 {
        NothingTaken(m0, M(), tables, v);
        return;
      }
      PageTaken(m0, M(), free, tables, pos, roots, p, data[pa], v);
      data := data[p := data[pa]];
    }

    /** `mappages` of the page just copied, or `kfree` if a table is missing. */
    method MapCopied(k: Key, b: nat, i: nat, p: nat, pte: Pte, ghost m0: Memory, ghost v: Eager) returns (ok: bool)
      requires Valid() && b in roots && i < USERTOP && k in user && pte == user[k] && pte.r && (b, i) !in user
      requires Refines(M(), v) && k in v
      requires Conserved(m0, tables, M(), tables, {p}) && KernelPage(M(), p) && p !in tables && p in m0.free
      requires pte.ppn in data
      requires data[p] == data[pte.ppn]
      modifies `free, `data, `tables, `pos, `pgref, `user
      ensures Valid() && Conserved(m0, old(tables), M(), tables, {})
      ensures user == if ok then old(user)[(b, i) := pte.(ppn := p)] else old(user)
      ensures Refines(M(), if ok then v[(b, i) := v[k]] else v)
      ensures ok <==> Enough(old(free), old(pos), b, Ways(i), 0)
      ensures ok ==> Spent(old(free), old(pos), free, pos, b, Ways(i), 0)
    {
      hide PhysOk, LeavesMatch, Refines, Conserved, Elements, Quiet, Took, Inv, KernelPage, Enough, Spent, Ways;
      ghost var m1, t0 := M(), tables;
      PhysInv(M(), free, tables, pos, roots);
      ok := MapOne(b, i, pte.(ppn := p), v);
      TablesTaken(m0, m1, M(), t0, tables, p, v);
      SameUser(m1, M());
      if !ok {
        GiveUp(p, m0, t0, v);
        return;
      }
      InUse(m1, M(), pte.ppn, k, v);
      CountCopy(k, (b, i), p, pte, m0, t0, v);
    }

    /** The copy is a user page now. */
    method CountCopy(k: Key, j: Key, p: nat, pte: Pte, ghost m0: Memory, ghost t0: Tables, ghost v: Eager)
      requires Phys() && Conserved(m0, t0, M(), tables, {p}) && Refines(M(), v) && KernelPage(M(), p)
      requires p !in tables && p in m0.free && k in user && pte == user[k] && j !in user
      requires pte.ppn in data && p in data && data[p] == data[pte.ppn]
      requires LeavesMatch(tables, roots, user[j := pte.(ppn := p)])
      modifies `pgref, `user
      ensures Valid() && Conserved(m0, t0, M(), tables, {}) && k in v && Refines(M(), v[j := v[k]])
      ensures user == old(user)[j := pte.(ppn := p)]
    {
      hide PhysOk, LeavesMatch, Refines, Conserved, Elements;
      CopyMapped(m0, M(), free, t0, tables, pos, roots, k, j, p, v);
      pgref := pgref[p := pgref[p] + 1];
      user := user[j := pte.(ppn := p)];
    }

    /** One round of the eager `uvmcopy`: a page of the child's own with the parent's bytes and permissions. */
    method EagerOne(a: nat, b: nat, i: nat, ghost v: Eager) returns (ok: bool)
      requires Valid() && a != b && b in roots && i < USERTOP && (a, i) in user && (b, i) !in user && Refines(M(), v)
      modifies `free, `data, `tables, `pos, `pgref, `user
      ensures Valid() && Conserved(old(M()), old(tables), M(), tables, {}) && (a, i) in v
      ensures ok ==> (b, i) in user && user == old(user)[(b, i) := old(user)[(a, i)].(ppn := user[(b, i)].ppn)]
      ensures !ok ==> user == old(user)
      ensures Refines(M(), if ok then v[(b, i) := v[(a, i)]] else v)
      ensures ok <==> Enough(old(free), old(pos), b, Ways(i), 1)
      ensures ok ==> Spent(old(free), old(pos), free, pos, b, Ways(i), 1)
    {
      hide PhysOk, LeavesMatch, Refines, Conserved, Elements, Inv, KernelPage, Node, PathTo, Index, Spent, Ways;
      ghost var m0 := M();
      var h, pte := Lookup(a, i);
      UserPage(m0, free, tables, pos, roots, (a, i), v);
      var p := AllocCopy(pte.ppn, v);
      if p == 0 {
        return false;
      }
      OneMore(old(free), free, pos, b, Ways(i));
      ok := MapCopied((a, i), b, i, p, pte, m0, v);
    }

    /**
     The eager `uvmcopy` that copy-on-write replaced, on the same page tables and allocator. It
     leaves parent and child with the same bytes as the copy-on-write `Uvmcopy` does.
     */
    method UvmcopyEager(a: nat, b: nat, sz: nat, ghost v: Eager) returns (ok: bool)
      requires Valid() && a != b && b in roots && Refines(M(), v) && sz <= USERTOP * PGSIZE
      requires forall i :: 0 <= i < PageUp(sz) ==> (a, i) in user && (b, i) !in user
      modifies `free, `data, `tables, `pos, `pgref, `user
      ensures Valid()
      ensures ok ==> ReadsForked(M(), v, a, b, PageUp(sz)) && forall k :: k in old(user) ==>
        k in user && user[k] == old(user)[k]
      ensures !ok ==> user == old(user) && Refines(M(), v)
      ensures !ok ==> pgref == old(pgref) && M().free + (tables.Keys - old(tables).Keys) == old(M()).free
      ensures ok <==> RangeFits(old(free), old(pos), b, 0, PageUp(sz), 1)
    {
      hide PhysOk, LeavesMatch, Refines, Conserved, Elements, Range, Forked, Inv, Released, Enough, Spent, Ways, WaysOf;
      PageUpBelow(sz);
      SpentStart(free, pos, b, 0);
      ghost var m0, t0 := M(), tables;
      ConservedRefl(m0, free, t0, pos, roots);
      ForkedNone(v, a, b);
      MinusNone(user, b, 0);
      AllInEager(m0, v, a, PageUp(sz));
      PageUpMonotone(0, sz);
      var i := 0;
      while i * PGSIZE < sz
        invariant 0 <= i <= PageUp(sz) && Valid() && Conserved(m0, t0, M(), tables, {})
        invariant user.Keys == old(user).Keys + Range(b, 0, i) && user - Range(b, 0, i) == old(user)
        invariant Refines(M(), Forked(v, a, b, i))
        invariant Spent(old(free), old(pos), free, pos, b, WaysOf(0, i), i)
      {
        PageUpBound(i, sz);
        NotYet(user, old(user), b, 0, i);
        ForkedNext(v, a, b, i);
        ghost var m1, t1, u1, f1, p1 := M(), tables, user, free, pos;
        ok := EagerOne(a, b, i, Forked(v, a, b, i));
        ConservedTrans(m0, t0, m1, t1, M(), tables);
        if !ok {
          ShortNext(old(free), old(pos), f1, p1, b, 0, i, PageUp(sz), i, 1, PageUp(sz));
          NoneBefore(m0, v, b, 0, PageUp(sz));
          ForkedUndone(v, a, b, i);
          Rollback(b, 0, i, m0, t0, v, Forked(v, a, b, i));
          return;
        }
        SpentNext(old(free), old(pos), f1, p1, free, pos, b, 0, i, i, 1);
        AddedOne(u1, user, old(user), b, 0, i);
        i := i + 1;
      }
      PageUpEnd(i, sz);
      SpentEnough(old(free), old(pos), free, pos, b, WaysOf(0, i), i);
      KeptAll(user, old(user), b, 0, i);
      ok := true;
    }

    /** `walk` without `alloc`, and the PTE there: what the hardware sees. */
    method Peek(root: nat, vpn: nat) returns (h: nat, e: Raw)
      requires Valid() && root in roots && vpn < MAXVPN
      modifies `free, `data, `tables, `pos
      ensures M() == old(M()) && tables == old(tables) && pos == old(pos) && free == old(free) && Sized(tables)
      ensures e == LeafAt(tables, root, vpn)
      ensures (e.v ==> h != 0 && h in tables && h == Node(tables, root, PathTo(0, vpn)))
      ensures Seen(user, (root, vpn), e)
    {
      hide PhysOk, Node, PathTo, Index, Quiet, SameLeaves, LeavesMatch, Elements;
      PhysInv(M(), free, tables, pos, roots);
      SeenLeaf(tables, roots, user, root, vpn);
      h := Walk(root, vpn, false);
      if h == 0 {
        return h, Invalid();
      }
      e := tables[h][Index(0, vpn)];
    }

    /**
     `page_change`: the page becomes writable, as a private copy if there are other users, and
     no address space sees a different byte. It fails only if a copy is needed and memory is out.
     */
    method PageChange(root: nat, vpn: nat, ghost v: Eager) returns (pa: nat)
      requires Valid() && (root, vpn) in user && user[(root, vpn)].cow && Refines(M(), v)
      modifies `free, `data, `tables, `pos, `pgref, `user
      ensures Valid() && Refines(M(), v) && tables.Keys == old(tables).Keys
      ensures pa == 0 <==> !CanOwn(old(M()), (root, vpn))
      ensures pa == 0 ==> M() == old(M())
      ensures pa != 0 ==> user == old(user)[(root, vpn) := Owned(old(user)[(root, vpn)], pa)]
      ensures pa != 0 ==> CopyIfShared(old(free), old(pgref), old(user)[(root, vpn)].ppn, pa, free, pgref)
    {
      hide PhysOk, Node, PathTo, Index, LeafAt, LeavesMatch, Refines, PteSet, Elements, KernelPage, Inv, Quiet;
      hide CopyIfShared;
      ghost var k := (root, vpn);
      ghost var m0, t0 := M(), tables;
      PhysInv(M(), free, tables, pos, roots);
      var h, pte := Lookup(root, vpn);
      var p := pte.ppn;
      MappedPage(m0, k, v);
      FreeListEmpty(free);
      pa := p;
      if pgref[p] > 1 {
        pa := Kalloc();
        if pa == 0 {
          return;
        }
        BreakOne(m0, M(), free, tables, pos, roots, k, pa, v);
        DidCopy(old(free), old(pgref), p, pa, free);
        data := data[pa := data[p]];
        pgref := pgref[p := pgref[p] - 1];
        if pgref[p] == 0 {
          assert false;
        }
        pgref := pgref[pa := pgref[pa] + 1];
      } else {
        ReuseOne(m0, free, tables, pos, roots, k, v);
        DidReuse(free, pgref, p);
      }
      user := user[k := Owned(pte, pa)];
      SetPte(root, vpn, h, Raw(true, Owned(pte, pa)));
      LeavesAfterSet(t0, tables, roots, m0.user, root, vpn, Raw(true, Owned(pte, pa)));
    }

    /** `pagefault_handler`, for an address below MAXVA (above it `walk` panics). */
    method PagefaultHandler(root: nat, va: nat, ghost v: Eager) returns (r: int)
      requires Valid() && root in roots && va < MAXVPN * PGSIZE && Refines(M(), v)
      modifies `free, `data, `tables, `pos, `pgref, `user
      ensures Valid() && Refines(M(), v) && user.Keys == old(user).Keys
      ensures var k := (root, va / PGSIZE);
        r == if k in old(user) && old(user)[k].cow && CanOwn(old(M()), k) then 0 else -1
      ensures r == 0 ==>
        exists pa :: user == old(user)[(root, va / PGSIZE) := Owned(old(user)[(root, va / PGSIZE)], pa)]
      ensures r != 0 ==> M() == old(M())
    {
      hide PhysOk, Node, PathTo, Index, LeafAt, LeavesMatch, Refines, Elements, Inv, CanOwn;
      var vpn := va / PGSIZE;
      var h, e := Peek(root, vpn);
      if !e.v {
        return -1;
      } else if !e.pte.cow {
        return -1;
      }
      var pa := PageChange(root, vpn, v);
      if pa == 0 {
        return -1;
      }
      return 0;
    }

    /**
     A store instruction: done when the PTE allows it, otherwise a page fault, after which it
     is tried again or the process is killed. It goes through exactly when the page is a user
     page that is writable, or copy-on-write with memory for a copy; then that byte of that
     address space changes and no other byte of any address space.
     */
    method Store(root: nat, va: nat, byte: int, ghost v: Eager) returns (killed: bool)
      requires Valid() && root in roots && va < MAXVPN * PGSIZE && Refines(M(), v)
      modifies `free, `data, `tables, `pos, `pgref, `user
      ensures Valid() && user.Keys == old(user).Keys
      ensures !killed <==> Storable(old(M()), (root, va / PGSIZE))
      ensures killed ==> Refines(M(), v)
      ensures !killed ==> (root, va / PGSIZE) in v && Refines(M(), Patched(v, (root, va / PGSIZE), va % PGSIZE, [byte]))
    {
      hide PhysOk, Node, PathTo, Index, LeafAt, LeavesMatch, Refines, Elements, Inv, CanOwn, Patched;
      var vpn := va / PGSIZE;
      ghost var k := (root, vpn);
      var h, e := Peek(root, vpn);
      if !(e.v && e.pte.u && e.pte.w) {
        var r := PagefaultHandler(root, va, v);
        if r < 0 {
          return true;
        }
        h, e := Peek(root, vpn);
        if !(e.v && e.pte.u && e.pte.w) {
          r := PagefaultHandler(root, va, v);
          return true;
        }
      }
      PatchPage(root, vpn, e.pte.ppn, va % PGSIZE, [byte], v);
      return false;
    }

    /** `memmove` into a user page through a writable mapping. */
    method PatchPage(root: nat, vpn: nat, pa: nat, off: nat, bytes: seq<int>, ghost v: Eager)
      requires Valid() && (root, vpn) in user && user[(root, vpn)].w && user[(root, vpn)].ppn == pa && Refines(M(), v)
      requires off + |bytes| <= PGSIZE
      modifies `data
      ensures Valid() && (root, vpn) in v && Refines(M(), Patched(v, (root, vpn), off, bytes))
    {
      hide PhysOk, LeavesMatch, Refines, Elements, Inv, Patched, Patch;
      PatchOne(M(), free, tables, pos, roots, (root, vpn), off, bytes, v);
      data := data[pa := Patch(data[pa], off, bytes)];
    }

    /** One round of `copyout`: the checks, `re_page` and `memmove`. */
    method CopyoutPage(root: nat, vpn: nat, off: nat, bytes: seq<int>, ghost v: Eager) returns (ok: bool)
      requires Valid() && root in roots && Refines(M(), v) && off + |bytes| <= PGSIZE
      modifies `free, `data, `tables, `pos, `pgref, `user
      ensures Valid() && user.Keys == old(user).Keys
      ensures ok <==> Storable(old(M()), (root, vpn))
      ensures !ok ==> Refines(M(), v) && M() == old(M())
      ensures ok ==> (root, vpn) in v && Refines(M(), Patched(v, (root, vpn), off, bytes))
    {
      hide PhysOk, Node, PathTo, Index, LeafAt, LeavesMatch, Refines, Elements, Inv, CanOwn, Patched;
      if vpn >= MAXVPN {
        BelowTop(tables, roots, user);
        return false;
      }
      var h, e := Peek(root, vpn);
      if !e.v || !e.pte.u || (!e.pte.w && !e.pte.cow) {
        return false;
      }
      var pa := e.pte.ppn;
      if !e.pte.w {
        pa := PageChange(root, vpn, v);
        if pa == 0 {
          return false;
        }
      }
      PatchPage(root, vpn, pa, off, bytes, v);
      ok := true;
    }

    /**
     `copyout`: the bytes appear at `dst` in that address space and nothing else changes for
     anyone. On an error the bytes before the first page that cannot be stored to were copied.
     */
    method Copyout(root: nat, dst: nat, src: seq<int>, ghost v: Eager)
      returns (ok: bool, ghost w: Eager, ghost done: nat)
      requires Valid() && root in roots && Refines(M(), v)
      modifies `free, `data, `tables, `pos, `pgref, `user
      ensures Valid() && user.Keys == old(user).Keys && Refines(M(), w)
      ensures done <= |src| && (ok <==> done == |src|) && Stored(v, w, root, dst, src[..done])
      ensures !ok ==> done == 0 || (dst + done) % PGSIZE == 0
      ensures !ok ==> !Storable(M(), (root, (dst + done) / PGSIZE))
    {
      hide PhysOk, LeavesMatch, Refines, Elements, Inv, CanOwn, Patched, Stored, Storable;
      StoredNone(v, root, dst);
      var i := 0;
      w := v;
      while i < |src|
        invariant i <= |src| && Valid() && user.Keys == old(user).Keys && Refines(M(), w)
        invariant Stored(v, w, root, dst, src[..i])
        invariant i == 0 || i == |src| || (dst + i) % PGSIZE == 0
        decreases |src| - i
      {
        var vpn, off := (dst + i) / PGSIZE, (dst + i) % PGSIZE;
        var n := if PGSIZE - off > |src| - i then |src| - i else PGSIZE - off;
        ok := CopyoutPage(root, vpn, off, src[i..i + n], w);
        if !ok {
          done := i;
          return;
        }
        StoredNext(v, w, root, dst, src, i, n);
        w := Patched(w, (root, vpn), off, src[i..i + n]);
        PageEnd(dst + i, n, |src| - i);
        i := i + n;
      }
      assert src[..i] == src;
      ok, done := true, i;
    }

    /**
     `copyin`: exactly the bytes that the address space holds under eager copying, or an error
     at the first page that is not a user page. Nothing changes.
     */
    method Copyin(root: nat, src: nat, len: nat, ghost v: Eager) returns (ok: bool, dst: seq<int>)
      requires Valid() && root in roots && Refines(M(), v)
      modifies `free, `data, `tables, `pos
      ensures M() == old(M()) && tables == old(tables) && free == old(free) && Valid()
      ensures |dst| <= len && (ok <==> |dst| == len) && Loaded(v, root, src, dst)
      ensures !ok ==> var k := (root, (src + |dst|) / PGSIZE); k !in user || !user[k].u
    {
      hide PhysOk, LeavesMatch, Refines, Elements, Inv, LeafAt, Node, PathTo, Index, Loaded;
      dst := [];
      LoadedNone(v, root, src);
      BelowTop(tables, roots, user);
      while |dst| < len
        invariant |dst| <= len && M() == old(M()) && tables == old(tables) && free == old(free) && pos == old(pos)
        invariant Loaded(v, root, src, dst)
        decreases len - |dst|
      {
        var vpn, off := (src + |dst|) / PGSIZE, (src + |dst|) % PGSIZE;
        if vpn >= MAXVPN {
          return false, dst;
        }
        var h, e := Peek(root, vpn);
        if !e.v || !e.pte.u {
          return false, dst;
        }
        var n := if PGSIZE - off > len - |dst| then len - |dst| else PGSIZE - off;
        PageEnd(src + |dst|, n, len - |dst|);
        MappedBytes(M(), v, (root, vpn));
        LoadedNext(v, root, src, dst, n);
        dst := dst + data[e.pte.ppn][off..off + n];
      }
      ok := true;
    }

    /** `uvmdealloc`: the pages between the two sizes go, if there are any. */
    method Uvmdealloc(root: nat, oldsz: nat, newsz: nat, ghost v: Eager) returns (r: nat)
      requires Valid() && Refines(M(), v) && forall i :: PageUp(newsz) <= i < PageUp(oldsz) ==> (root, i) in user
      modifies `free, `data, `tables, `pgref, `user, `pos
      ensures Valid() && tables.Keys == old(tables).Keys && Released(old(M()), M())
      ensures r == if newsz >= oldsz then oldsz else newsz
      ensures var n := if PageUp(newsz) < PageUp(oldsz) then PageUp(oldsz) - PageUp(newsz) else 0;
        user == old(user) - Range(root, PageUp(newsz), n) && Refines(M(), v - Range(root, PageUp(newsz), n))
    {
      hide PhysOk, LeavesMatch, Refines, Released, Range, Inv, Elements;
      PhysInv(M(), free, tables, pos, roots);
      ReleasedRefl(M());
      PageUpMonotone(newsz, oldsz);
      PageUpMonotone(oldsz, newsz);
      MinusNone(user, root, PageUp(newsz));
      MinusNone(v, root, PageUp(newsz));
      if newsz >= oldsz {
        return oldsz;
      }
      if PageUp(newsz) < PageUp(oldsz) {
        Uvmunmap(root, PageUp(newsz), PageUp(oldsz) - PageUp(newsz), v);
      }
      r := newsz;
    }
  }

  // ---- fork, on values ----

  /**
   What fork means under eager copying: the child has copies of the parent's first pages, with the parent's
   permissions.
   */
  function Forked(v: Eager, a: nat, b: nat, n: nat): (r: Eager)
    requires forall i :: 0 <= i < n ==> (a, i) in v
  {
    v + map k | k in Range(b, 0, n) :: v[(a, k.1)]
  }

  /** Memory reads as after an eager copy of the first `n` pages of `a` to `b`. */
  ghost predicate ReadsForked(m: Memory, v: Eager, a: nat, b: nat, n: nat) {
    (forall i :: 0 <= i < n ==> (a, i) in v) && Refines(m, Forked(v, a, b, n))
  }

  lemma ForkedNone(v: Eager, a: nat, b: nat)
    ensures Forked(v, a, b, 0) == v
  {
  }

  lemma ForkedNext(v: Eager, a: nat, b: nat, n: nat)
    requires a != b && forall i :: 0 <= i < n + 1 ==> (a, i) in v
    ensures (a, n) in Forked(v, a, b, n)
    ensures Forked(v, a, b, n + 1) == Forked(v, a, b, n)[(b, n) := Forked(v, a, b, n)[(a, n)]]
  {
    hide Range;
    RangeNext(b, 0, n);
    ForkedKeepsParent(v, a, b, n);
  }

  lemma ForkedKeepsParent(v: Eager, a: nat, b: nat, n: nat)
    requires a != b && forall i :: 0 <= i < n + 1 ==> (a, i) in v
    ensures (a, n) in Forked(v, a, b, n) && Forked(v, a, b, n)[(a, n)] == v[(a, n)]
  {
  }

  lemma ForkedUndone(v: Eager, a: nat, b: nat, n: nat)
    requires forall i :: 0 <= i < n ==> (a, i) in v && (b, i) !in v
    ensures Forked(v, a, b, n) - Range(b, 0, n) == v
  {
  }

  /** The PTEs after `n` rounds of `uvmcopy`: the parent's first pages are marked, and the child has the marked PTEs. */
  function Copied(u: map<Key, Pte>, a: nat, b: nat, n: nat): (r: map<Key, Pte>)
    requires forall i :: 0 <= i < n ==> (a, i) in u
  {
    Marked(u, a, n) + map k | k in Range(b, 0, n) :: Shared(u[(a, k.1)])
  }

  /** The mappings after a fork of the first `n` pages. */
  ghost predicate AreCopied(before: map<Key, Pte>, after: map<Key, Pte>, a: nat, b: nat, n: nat) {
    (forall i :: 0 <= i < n ==> (a, i) in before) && after == Copied(before, a, b, n)
  }

  function Marked(u: map<Key, Pte>, a: nat, n: nat): (r: map<Key, Pte>)
    ensures r.Keys == u.Keys
  {
    map k | k in u :: if k.0 == a && k.1 < n then Shared(u[k]) else u[k]
  }

  lemma CopiedNone(u: map<Key, Pte>, a: nat, b: nat)
    ensures Copied(u, a, b, 0) == u
  {
  }

  lemma CopiedNext(u: map<Key, Pte>, a: nat, b: nat, n: nat)
    requires a != b && forall i :: 0 <= i < n + 1 ==> (a, i) in u
    ensures var c := Copied(u, a, b, n);
      (a, n) in c && Copied(u, a, b, n + 1) == c[(a, n) := Shared(c[(a, n)])][(b, n) := Shared(c[(a, n)])]
  {
    RangeNext(b, 0, n);
    assert (a, n) !in Range(b, 0, n);
    MarkedNext(u, a, n);
  }

  lemma MarkedNext(u: map<Key, Pte>, a: nat, n: nat)
    requires (a, n) in u
    ensures Marked(u, a, n)[(a, n)] == u[(a, n)] && Marked(u, a, n + 1) == Marked(u, a, n)[(a, n) := Shared(u[(a, n)])]
  {
  }

  /** The error path of `uvmcopy` takes the child's pages away; the parent's stay marked, the last one included. */
  lemma CopiedUndone(u: map<Key, Pte>, a: nat, b: nat, n: nat)
    requires a != b && (forall i :: 0 <= i < n + 1 ==> (a, i) in u) && forall i :: 0 <= i < n ==> (b, i) !in u
    ensures var c := Copied(u, a, b, n);
      (a, n) in c && c[(a, n) := Shared(c[(a, n)])] - Range(b, 0, n) == Marked(u, a, n + 1)
  {
    MarkedNext(u, a, n);
    assert (a, n) !in Range(b, 0, n);
  }

  lemma CopiedHas(u: map<Key, Pte>, a: nat, b: nat, n: nat)
    requires a != b && (forall i :: 0 <= i < n + 1 ==> (a, i) in u) && (b, n) !in u
    ensures (a, n) in Copied(u, a, b, n) && (b, n) !in Copied(u, a, b, n)
    ensures forall i :: 0 <= i < n ==> (b, i) in Copied(u, a, b, n)[(a, n) := Shared(Copied(u, a, b, n)[(a, n)])]
  {
    forall i | 0 <= i < n ensures (b, i) in Copied(u, a, b, n) {
      assert (b, i) in Range(b, 0, n);
    }
  }

  /** First half of a round: the parent's PTE, marked. */
  lemma MarkOne(m: Memory, free: seq<nat>, t: Tables, pos: map<nat, Place>, roots: set<nat>, k: Key, v: Eager)
    requires PhysOk(m, free, t, pos, roots) && Refines(m, v) && k in m.user
    ensures var n := m.(user := m.user[k := Shared(m.user[k])]);
      PhysOk(n, free, t, pos, roots) && Refines(n, v) && Conserved(m, t, n, t, {})
  {
    hide Users, TreeOk, EntriesTyped, NoDup, MemOk, Inv, Refines, Conserved;
    PhysInv(m, free, t, pos, roots);
    var n := Next(m, Mark(k));
    StepKeepsInv(m, Mark(k));
    MarkRefines(m, v, k);
    MemSame(m, n, free);
    MarkConserved(m, free, t, pos, roots, k);
    forall b | b in t ensures KernelPage(n, b) {
      assert KernelPage(m, b);
    }
  }

  lemma MarkConserved(m: Memory, free: seq<nat>, t: Tables, pos: map<nat, Place>, roots: set<nat>, k: Key)
    requires PhysOk(m, free, t, pos, roots) && k in m.user
    ensures Conserved(m, t, m.(user := m.user[k := Shared(m.user[k])]), t, {})
  {
    hide Users, TreeOk, EntriesTyped, NoDup;
    FreeNotTables(m, free, t, pos, roots);
  }

  lemma ConservedSame(s: Memory, t: Tables, n: Memory, u: Tables)
    requires Conserved(s, t, n, t, {}) && u.Keys == t.Keys
    ensures Conserved(s, t, n, u, {})
  {
  }

  lemma MappedInEager(m: Memory, v: Eager, k: Key)
    requires Refines(m, v) && k in m.user
    ensures k in v
  {
  }

  lemma SameUser(s: Memory, n: Memory)
    requires Quiet(s, n)
    ensures n.user == s.user && n.refs == s.refs
  {
  }

  lemma AllInEager(m: Memory, v: Eager, a: nat, n: nat)
    requires Refines(m, v) && forall i :: 0 <= i < n ==> (a, i) in m.user
    ensures forall i :: 0 <= i < n ==> (a, i) in v
  {
  }

  lemma MarkedSamePages(u: map<Key, Pte>, a: nat, n: nat)
    ensures SamePages(u, Marked(u, a, n))
  {
  }

  lemma OnlyTables(s: Memory, n: Memory, t: Tables, u: Tables, v: Eager)
    requires Quiet(s, n) && Took(s, t, n, u) && Inv(s) && Refines(s, v)
    ensures Conserved(s, t, n, u, {}) && Refines(n, v)
  {
  }

  /** Second half: the child's PTE and `increment_ref`. */
  lemma ShareOne(m: Memory, free: seq<nat>, t: Tables, pos: map<nat, Place>, roots: set<nat>, k: Key, j: Key, v: Eager)
    requires PhysOk(m, free, t, pos, roots) && Refines(m, v) && k in m.user && j !in m.user
    requires m.user[k] == Shared(m.user[k])
    ensures m.user[k].ppn in m.refs && k in v
    ensures var q := m.user[k];
      var n := m.(user := m.user[j := q], refs := m.refs[q.ppn := m.refs[q.ppn] + 1]);
      && PhysOk(n, free, t, pos, roots) && Refines(n, v[j := v[k]]) && Conserved(m, t, n, t, {})
  {
    hide Users, TreeOk, EntriesTyped, NoDup;
    UsersOfMapped(m, k);
    StepKeepsInv(m, Share(k, j));
    ShareRefines(m, v, k, j);
  }

  // ---- the eager fork, on values ----

  lemma UserPage(m: Memory, free: seq<nat>, t: Tables, pos: map<nat, Place>, roots: set<nat>, k: Key, v: Eager)
    requires PhysOk(m, free, t, pos, roots) && Refines(m, v) && k in m.user
    ensures m.user[k].ppn in m.mem && m.user[k].ppn !in m.free && k in v
  {
  }

  /** A user page keeps its contents while tables are taken. */
  lemma InUse(s: Memory, n: Memory, p: nat, k: Key, v: Eager)
    requires Quiet(s, n) && Refines(s, v) && Inv(s) && k in s.user && s.user[k].ppn == p
    ensures p in s.mem && p in n.mem && n.mem[p] == s.mem[p]
  {
  }

  lemma CopyMapped(s: Memory, n: Memory, free: seq<nat>, t: Tables, u: Tables, pos: map<nat, Place>, roots: set<nat>,
                   k: Key, j: Key, p: nat, v: Eager)
    requires PhysOk(n, free, u, pos, roots) && Conserved(s, t, n, u, {p}) && Refines(n, v) && KernelPage(n, p)
    requires p !in u && p in s.free
    requires k in n.user && j !in n.user && n.user[k].ppn in n.mem && n.mem[p] == n.mem[n.user[k].ppn]
    ensures k in v
    ensures var o := n.(user := n.user[j := n.user[k].(ppn := p)], refs := n.refs[p := n.refs[p] + 1]);
      PhysOk(o, free, u, pos, roots) && Conserved(s, t, o, u, {}) && Refines(o, v[j := v[k]])
  {
    hide Users, TreeOk, EntriesTyped, MemOk, Inv, Refines, Conserved;
    var o := n.(user := n.user[j := n.user[k].(ppn := p)], refs := n.refs[p := n.refs[p] + 1]);
    PhysInv(n, free, u, pos, roots);
    MappedInEager(n, v, k);
    CopyInv(n, k, j, p, v);
    MemSame(n, o, free);
    CopyConserved(s, n, t, u, j, n.user[k].(ppn := p));
    forall b | b in u ensures KernelPage(o, b) {
      assert KernelPage(n, b);
      StillKernelPage(n, o, p, b);
    }
  }

  lemma StillKernelPage(n: Memory, o: Memory, p: nat, b: nat)
    requires KernelPage(n, b) && b != p && o.mem == n.mem && o.free == n.free && p in n.refs
    requires o.refs == n.refs[p := n.refs[p] + 1]
    ensures KernelPage(o, b)
  {
  }

  lemma CopyInv(n: Memory, k: Key, j: Key, p: nat, v: Eager)
    requires Inv(n) && Refines(n, v) && KernelPage(n, p) && k in n.user && j !in n.user && k in v
    requires n.user[k].ppn in n.mem && n.mem[p] == n.mem[n.user[k].ppn]
    ensures var o := n.(user := n.user[j := n.user[k].(ppn := p)], refs := n.refs[p := n.refs[p] + 1]);
      Inv(o) && Refines(o, v[j := v[k]])
  {
    hide Users;
    UsersAdd(n.user, j, n.user[k].(ppn := p));
    KernelPageUnmapped(n, p);
  }

  lemma CopyConserved(s: Memory, n: Memory, t: Tables, u: Tables, j: Key, q: Pte)
    requires Conserved(s, t, n, u, {q.ppn}) && KernelPage(n, q.ppn) && q.ppn in s.free
    ensures Conserved(s, t, n.(user := n.user[j := q], refs := n.refs[q.ppn := n.refs[q.ppn] + 1]), u, {})
  {
  }

  // ---- stores, on values ----

  /** What a PTE read from the tables says about the flat map. */
  predicate Seen(user: map<Key, Pte>, k: Key, e: Raw) {
    && (k in user ==> e == Raw(true, user[k]))
    && (e.v && (e.pte.u || e.pte.cow) ==> k in user)
  }

  lemma SeenLeaf(t: Tables, roots: set<nat>, user: map<Key, Pte>, root: nat, vpn: nat)
    requires LeavesMatch(t, roots, user) && root in roots && vpn < MAXVPN
    ensures Seen(user, (root, vpn), LeafAt(t, root, vpn))
  {
    hide LeafAt;
  }

  lemma BelowTop(t: Tables, roots: set<nat>, user: map<Key, Pte>)
    requires LeavesMatch(t, roots, user)
    ensures forall k :: k in user ==> k.1 < MAXVPN
  {
    hide LeafAt;
  }

  /** There is memory to give the mapping a page of its own, or it has one. */
  predicate CanOwn(m: Memory, k: Key) {
    k in m.user && m.user[k].ppn in m.refs && (m.refs[m.user[k].ppn] <= 1 || m.free != {})
  }

  /** A store through the mapping succeeds, perhaps after a page fault. */
  predicate Storable(m: Memory, k: Key) {
    k in m.user && m.user[k].u && (m.user[k].w || (m.user[k].cow && CanOwn(m, k)))
  }

  lemma FreeListEmpty(free: seq<nat>)
    ensures Elements(free) == {} <==> free == []
  {
    if free != [] {
      assert free[0] in Elements(free);
    }
  }

  /** The page that is handed back: a new one exactly if the old one has other users. */
  ghost predicate CopyIfShared(f: seq<nat>, refs: map<nat, nat>, p: nat, pa: nat, g: seq<nat>, after: map<nat, nat>) {
    p in refs &&
    if refs[p] > 1 then
      pa in refs && pa != p && f == [pa] + g && after == refs[p := refs[p] - 1][pa := refs[pa] + 1]
    else pa == p && g == f && after == refs
  }

  lemma DidCopy(f: seq<nat>, refs: map<nat, nat>, p: nat, pa: nat, g: seq<nat>)
    requires f != [] && pa == f[0] && g == f[1..] && p in refs && refs[p] > 1 && pa in refs && pa != p
    ensures CopyIfShared(f, refs, p, pa, g, refs[p := refs[p] - 1][pa := refs[p := refs[p] - 1][pa] + 1])
  {
  }

  lemma DidReuse(f: seq<nat>, refs: map<nat, nat>, p: nat)
    requires p in refs && refs[p] <= 1
    ensures CopyIfShared(f, refs, p, p, f, refs)
  {
  }

  lemma MappedPage(m: Memory, k: Key, v: Eager)
    requires Inv(m) && k in m.user && Refines(m, v)
    ensures m.user[k].ppn in m.mem && m.user[k].ppn in m.refs
  {
  }

  /** `page_change` with other users: `kalloc`, `memmove`, `decrement_ref`, `increment_ref`, then the PTE. */
  lemma BreakOne(s: Memory, n: Memory, free: seq<nat>, t: Tables, pos: map<nat, Place>, roots: set<nat>, k: Key,
                 p: nat, v: Eager)
    requires Inv(s) && Quiet(s, n) && PhysOk(n, free, t, pos, roots) && KernelPage(n, p) && p !in t && p in s.free
    requires Refines(s, v)
    requires k in n.user && n.user[k].cow && n.user[k].ppn in n.refs && n.refs[n.user[k].ppn] > 1
    ensures var q := n.user[k].ppn; q in n.mem && q != p && p in n.refs
    ensures var q := n.user[k].ppn;
      var o := Memory(n.user[k := Owned(n.user[k], p)], n.mem[p := n.mem[q]],
                      n.refs[q := n.refs[q] - 1][p := n.refs[q := n.refs[q] - 1][p] + 1], n.free);
      PhysOk(o, free, t, pos, roots) && Refines(o, v)
  {
    hide Users, TreeOk, EntriesTyped, NoDup, MemOk, RefsExact, WritableIsExclusive, Refines, Quiet;
    PhysInv(n, free, t, pos, roots);
    QuietRefines(s, n, v);
    StepKeepsInv(n, Break(k, p));
    BreakRefines(n, v, k, p);
    MappedPage(n, k, v);
    var o := Next(n, Break(k, p));
    MemSame(n, o, free);
    forall b | b in t ensures KernelPage(o, b) {
      assert KernelPage(n, b);
    }
  }

  lemma MemSame(n: Memory, o: Memory, free: seq<nat>)
    requires MemOk(n, free) && Inv(o) && o.free == n.free && o.mem.Keys == n.mem.Keys
    ensures MemOk(o, free)
  {
  }

  lemma ReuseOne(m: Memory, free: seq<nat>, t: Tables, pos: map<nat, Place>, roots: set<nat>, k: Key, v: Eager)
    requires PhysOk(m, free, t, pos, roots) && Refines(m, v) && k in m.user && m.user[k].cow && m.user[k].ppn in m.refs
    requires m.refs[m.user[k].ppn] <= 1
    ensures m.user[k].ppn != 0
    ensures var o := m.(user := m.user[k := Owned(m.user[k], m.user[k].ppn)]);
      PhysOk(o, free, t, pos, roots) && Refines(o, v)
  {
    hide Users, TreeOk, EntriesTyped, NoDup, MemOk, Inv, Refines;
    PhysInv(m, free, t, pos, roots);
    PageNotNull(m, free, k, v);
    var o := Next(m, Reuse(k));
    StepKeepsInv(m, Reuse(k));
    ReuseRefines(m, v, k);
    MemSame(m, o, free);
    forall b | b in t ensures KernelPage(o, b) {
      assert KernelPage(m, b);
    }
  }

  lemma PageNotNull(m: Memory, free: seq<nat>, k: Key, v: Eager)
    requires MemOk(m, free) && Refines(m, v) && k in m.user
    ensures m.user[k].ppn != 0
  {
  }

  /** `memmove` of some bytes into a page. */
  function Patch(p: Page, off: nat, bytes: seq<int>): (r: Page)
    requires off + |bytes| <= PGSIZE
  {
    p[..off] + bytes + p[off + |bytes|..]
  }

  function Patched(v: Eager, k: Key, off: nat, bytes: seq<int>): (r: Eager)
    requires k in v && off + |bytes| <= PGSIZE
  {
    v[k := v[k].(bytes := Patch(v[k].bytes, off, bytes))]
  }

  lemma PatchOne(m: Memory, free: seq<nat>, t: Tables, pos: map<nat, Place>, roots: set<nat>, k: Key, off: nat,
                 bytes: seq<int>, v: Eager)
    requires PhysOk(m, free, t, pos, roots) && Refines(m, v) && k in m.user && m.user[k].w && off + |bytes| <= PGSIZE
    ensures k in v && m.user[k].ppn in m.mem
    ensures var p := m.user[k].ppn;
      var n := m.(mem := m.mem[p := Patch(m.mem[p], off, bytes)]);
      PhysOk(n, free, t, pos, roots) && Refines(n, Patched(v, k, off, bytes))
  {
    hide Users, TreeOk, EntriesTyped, NoDup, Patch;
    var d := Patch(m.mem[m.user[k].ppn], off, bytes);
    StepKeepsInv(m, Put(k, d));
    PutRefines(m, v, k, d);
  }

  /**
   The bytes of one address space at `dst` and after are `bytes`; every other byte of every address space is
   as it was.
   */
  ghost predicate Stored(v: Eager, w: Eager, root: nat, dst: nat, bytes: seq<int>) {
    && w.Keys == v.Keys
    && (forall i :: dst <= i < dst + |bytes| ==> (root, i / PGSIZE) in v)
    && (forall k: Key :: k in v ==> w[k] == v[k].(bytes := w[k].bytes))
    && forall k: Key, i {:trigger w[k].bytes[i]} :: k in v && 0 <= i < PGSIZE ==>
        w[k].bytes[i] == if k.0 == root && dst <= k.1 * PGSIZE + i < dst + |bytes|
                         then bytes[k.1 * PGSIZE + i - dst] else v[k].bytes[i]
  }

  lemma StoredNone(v: Eager, root: nat, dst: nat)
    ensures Stored(v, v, root, dst, [])
  {
  }

  /** The byte at one address of an address space. */
  predicate HoldsByte(v: Eager, root: nat, a: nat, byte: int) {
    (root, a / PGSIZE) in v && v[(root, a / PGSIZE)].bytes[a % PGSIZE] == byte
  }

  /** `bytes` are what the address space holds at `src` and after. */
  ghost predicate Loaded(v: Eager, root: nat, src: nat, bytes: seq<int>) {
    forall i {:trigger bytes[i]} :: 0 <= i < |bytes| ==> HoldsByte(v, root, src + i, bytes[i])
  }

  lemma LoadedNone(v: Eager, root: nat, src: nat)
    ensures Loaded(v, root, src, [])
  {
  }

  lemma MappedBytes(m: Memory, v: Eager, k: Key)
    requires Refines(m, v) && k in m.user
    ensures k in v && m.user[k].ppn in m.mem && m.mem[m.user[k].ppn] == v[k].bytes
  {
  }

  lemma LoadedNext(v: Eager, root: nat, src: nat, dst: seq<int>, n: nat)
    requires Loaded(v, root, src, dst) && (src + |dst|) % PGSIZE + n <= PGSIZE && (root, (src + |dst|) / PGSIZE) in v
    ensures var off := (src + |dst|) % PGSIZE;
      Loaded(v, root, src, dst + v[(root, (src + |dst|) / PGSIZE)].bytes[off..off + n])
  {
    hide HoldsByte;
    var off := (src + |dst|) % PGSIZE;
    var part := v[(root, (src + |dst|) / PGSIZE)].bytes[off..off + n];
    var more := dst + part;
    forall i {:trigger more[i]} | 0 <= i < |more| ensures HoldsByte(v, root, src + i, more[i]) {
      if i >= |dst| {
        NextByte(v, root, src + |dst|, n, i - |dst|);
        assert more[i] == part[i - |dst|];
      } else {
        assert more[i] == dst[i];
      }
    }
  }

  lemma NextByte(v: Eager, root: nat, a: nat, n: nat, i: nat)
    requires a % PGSIZE + n <= PGSIZE && (root, a / PGSIZE) in v && i < n
    ensures HoldsByte(v, root, a + i, v[(root, a / PGSIZE)].bytes[a % PGSIZE..a % PGSIZE + n][i])
  {
    SamePage(a, a + i);
    assert (a + i) % PGSIZE == a % PGSIZE + i;
  }

  lemma PageEnd(a: nat, n: nat, left: nat)
    requires n == if PGSIZE - a % PGSIZE > left then left else PGSIZE - a % PGSIZE
    ensures n == left || (a + n) % PGSIZE == 0
    ensures left > 0 ==> n > 0
  {
  }

  lemma SamePage(a: nat, j: nat)
    requires a <= j < a - a % PGSIZE + PGSIZE
    ensures j / PGSIZE == a / PGSIZE
  {
  }

  lemma PatchedAt(p: Page, off: nat, bytes: seq<int>, i: nat)
    requires off + |bytes| <= PGSIZE && i < PGSIZE
    ensures Patch(p, off, bytes)[i] == if off <= i < off + |bytes| then bytes[i - off] else p[i]
  {
  }

  lemma StoredNext(v: Eager, w: Eager, root: nat, dst: nat, src: seq<int>, i: nat, n: nat)
    requires i + n <= |src| && Stored(v, w, root, dst, src[..i]) && (dst + i) % PGSIZE + n <= PGSIZE
    requires (root, (dst + i) / PGSIZE) in w
    ensures Stored(v, Patched(w, (root, (dst + i) / PGSIZE), (dst + i) % PGSIZE, src[i..i + n]),
                   root, dst, src[..i + n])
  {
    hide Patch;
    var key, off := (root, (dst + i) / PGSIZE), (dst + i) % PGSIZE;
    var x := Patched(w, key, off, src[i..i + n]);
    forall j | dst <= j < dst + (i + n) ensures (root, j / PGSIZE) in v {
      if j >= dst + i {
        SamePage(dst + i, j);
      }
    }
    forall k: Key, j | k in v && 0 <= j < PGSIZE
      ensures x[k].bytes[j] ==
        if k.0 == root && dst <= k.1 * PGSIZE + j < dst + (i + n) then src[k.1 * PGSIZE + j - dst] else v[k].bytes[j]
    {
      var was :=
        if k.0 == root && dst <= k.1 * PGSIZE + j < dst + i then src[k.1 * PGSIZE + j - dst] else v[k].bytes[j];
      assert w[k].bytes[j] == was;
      if k == key {
        PatchedAt(w[k].bytes, off, src[i..i + n], j);
      }
    }
  }

  // ---- sizes ----

  /** PGROUNDUP(sz) / PGSIZE. */
  function PageUp(sz: nat): (r: nat)
    ensures sz <= r * PGSIZE < sz + PGSIZE
  {
    (sz + PGSIZE - 1) / PGSIZE
  }

  lemma PageUpMonotone(a: nat, b: nat)
    ensures a <= b ==> PageUp(a) <= PageUp(b)
  {
  }

  lemma PageUpBound(a: nat, sz: nat)
    requires a * PGSIZE < sz <= USERTOP * PGSIZE
    ensures a < PageUp(sz) <= USERTOP
  {
  }

  lemma PageUpEnd(a: nat, sz: nat)
    requires a * PGSIZE >= sz && a <= PageUp(sz)
    ensures a == PageUp(sz)
  {
  }

  /** What growing means under eager copying: fresh zeroed pages. */
  function Grown(v: Eager, root: nat, vpn: nat, n: nat, w: bool, x: bool): (r: Eager) {
    v + map k | k in Range(root, vpn, n) :: Private(ZeroPage(), w, true, x, true)
  }

  lemma GrownNone(v: Eager, root: nat, vpn: nat, w: bool, x: bool)
    ensures Grown(v, root, vpn, 0, w, x) == v
  {
    assert Range(root, vpn, 0) == {};
  }

  lemma GrownNext(v: Eager, root: nat, vpn: nat, n: nat, w: bool, x: bool)
    ensures Grown(v, root, vpn, n + 1, w, x) ==
      Grown(v, root, vpn, n, w, x)[(root, vpn + n) := Private(ZeroPage(), w, true, x, true)]
  {
    RangeNext(root, vpn, n);
  }

  lemma GrownUndone(v: Eager, root: nat, vpn: nat, n: nat, w: bool, x: bool)
    requires forall i :: vpn <= i < vpn + n ==> (root, i) !in v
    ensures Grown(v, root, vpn, n, w, x) - Range(root, vpn, n) == v
  {
  }

  // ---- allocation, on values ----

  /**
   Since `s`, pages left the free list only to become table pages, user pages or members of
   `held`, and no count fell; so undoing the mappings gives back everything but the tables.
   */
  ghost predicate Conserved(s: Memory, t: Tables, n: Memory, u: Tables, held: set<nat>) {
    && n.mem.Keys == s.mem.Keys && s.refs.Keys == s.mem.Keys && n.refs.Keys == s.mem.Keys
    && n.free <= s.free && t.Keys <= u.Keys && s.free !! t.Keys && u.Keys - t.Keys <= s.free
    && forall p :: p in s.mem ==>
        && (p in s.free ==> p in n.free || p in u || n.refs[p] > 0 || p in held)
        && n.refs[p] >= s.refs[p] && (n.refs[p] > 0 && s.refs[p] == 0 ==> p in s.free)
  }

  lemma ConservedRefl(s: Memory, free: seq<nat>, t: Tables, pos: map<nat, Place>, roots: set<nat>)
    requires PhysOk(s, free, t, pos, roots)
    ensures Conserved(s, t, s, t, {}) && Inv(s)
  {
  }

  lemma ConservedTrans(s: Memory, t: Tables, n: Memory, u: Tables, o: Memory, w: Tables)
    requires Conserved(s, t, n, u, {}) && Conserved(n, u, o, w, {})
    ensures Conserved(s, t, o, w, {})
  {
  }

  /** The same virtual pages map to the same physical pages, whatever the permissions. */
  predicate SamePages(u: map<Key, Pte>, w: map<Key, Pte>) {
    u.Keys == w.Keys && forall k :: k in u ==> w[k].ppn == u[k].ppn
  }

  lemma SameUsers(u: map<Key, Pte>, w: map<Key, Pte>, p: nat)
    requires SamePages(u, w)
    ensures Users(w, p) == Users(u, p)
  {
  }

  /** After the mappings made since `s` are gone, only table pages are missing from the free list. */
  lemma Undone(s: Memory, t: Tables, n: Memory, u: Tables, o: Memory, w: Tables)
    requires Inv(s) && Inv(o) && Conserved(s, t, n, u, {}) && Released(n, o) && w.Keys == u.Keys
    requires SamePages(s.user, o.user)
    ensures o.refs == s.refs && o.free + (w.Keys - t.Keys) == s.free
  {
    hide Users;
    forall p | p in s.mem ensures o.refs[p] == s.refs[p] {
      SameUsers(s.user, o.user, p);
    }
    forall p | p in s.free ensures p in o.free + (w.Keys - t.Keys) {
      FreeHasNoUsers(s, p);
    }
    forall p | p in o.free + (w.Keys - t.Keys) ensures p in s.free {
    }
  }

  lemma NoneBefore(s: Memory, v: Eager, root: nat, first: nat, end: nat)
    requires Refines(s, v) && forall i :: first <= i < end ==> (root, i) !in s.user
    ensures forall i :: first <= i < end ==> (root, i) !in v
  {
  }

  lemma NotYet(user: map<Key, Pte>, before: map<Key, Pte>, root: nat, first: nat, a: nat)
    requires first <= a && user.Keys == before.Keys + Range(root, first, a - first) && (root, a) !in before
    ensures (root, a) !in user
  {
  }

  lemma AddedOne(u1: map<Key, Pte>, user: map<Key, Pte>, before: map<Key, Pte>, root: nat, first: nat, a: nat)
    requires first <= a && u1.Keys == before.Keys + Range(root, first, a - first)
    requires u1 - Range(root, first, a - first) == before
    requires (root, a) in user && user == u1[(root, a) := user[(root, a)]] && (root, a) !in before
    ensures user.Keys == before.Keys + Range(root, first, a + 1 - first)
    ensures user - Range(root, first, a + 1 - first) == before
  {
    RangeNext(root, first, a - first);
  }

  lemma KeptAll(user: map<Key, Pte>, before: map<Key, Pte>, root: nat, first: nat, n: nat)
    requires user - Range(root, first, n) == before
    ensures forall k :: k in before ==> k in user && user[k] == before[k]
  {
    forall k | k in before ensures k in user && user[k] == before[k] {
      assert k in user - Range(root, first, n);
    }
  }

  lemma NothingTaken(s: Memory, n: Memory, t: Tables, v: Eager)
    requires n == s && s.refs.Keys == s.mem.Keys && Refines(s, v) && s.free !! t.Keys
    ensures Conserved(s, t, n, t, {}) && Refines(n, v)
  {
  }

  /** `kalloc`, and `memset` or `memmove`: the page is in nobody's hands yet. */
  lemma PageTaken(s: Memory, n: Memory, free: seq<nat>, t: Tables, pos: map<nat, Place>, roots: set<nat>, p: nat,
                  bytes: Page, v: Eager)
    requires PhysOk(n, free, t, pos, roots) && Quiet(s, n) && Inv(s) && p in s.free && n.free == s.free - {p}
    requires KernelPage(n, p)
    requires Refines(s, v) && s.free !! t.Keys
    ensures var o := n.(mem := n.mem[p := bytes]);
      && PhysOk(o, free, t, pos, roots) && KernelPage(o, p) && o.mem[p] == bytes
      && Conserved(s, t, o, t, {p}) && Refines(o, v)
  {
    hide Users, TreeOk, EntriesTyped, NoDup, MemOk, Refines, Conserved, Quiet, KernelPage;
    hide RefsExact, FreeUnmapped, WritableIsExclusive, CowIsReadOnly;
    PhysInv(n, free, t, pos, roots);
    var o := n.(mem := n.mem[p := bytes]);
    KernelWrites(n, p, bytes);
    QuietRefines(s, n, v);
    KernelWritesRefine(n, v, p, bytes);
    KernelHas(n, p);
    MemSame(n, o, free);
    TakenConserved(s, n, t, p, bytes);
  }

  lemma KernelHas(n: Memory, p: nat)
    requires KernelPage(n, p)
    ensures p in n.mem
  {
  }

  lemma TakenConserved(s: Memory, n: Memory, t: Tables, p: nat, bytes: Page)
    requires Quiet(s, n) && Inv(s) && n.free == s.free - {p} && s.free !! t.Keys && p in n.mem
    ensures Conserved(s, t, n.(mem := n.mem[p := bytes]), t, {p})
  {
    hide Users;
  }

  /** `mappages` took table pages, whether or not it succeeded. */
  lemma TablesTaken(s: Memory, n: Memory, o: Memory, t: Tables, u: Tables, p: nat, v: Eager)
    requires Conserved(s, t, n, t, {p}) && Quiet(n, o) && Took(n, t, o, u) && Refines(n, v) && Inv(n)
    requires KernelPage(n, p) && p !in t
    ensures Conserved(s, t, o, u, {p}) && Refines(o, v) && KernelPage(o, p) && o.mem[p] == n.mem[p] && p !in u
  {
  }

  /** The page that could not be mapped goes back. */
  lemma GivenBack(s: Memory, n: Memory, o: Memory, t: Tables, u: Tables, p: nat, junk: Page, v: Eager)
    requires Conserved(s, t, n, u, {p}) && p in s.free && KernelPage(n, p) && Inv(n) && Refines(n, v)
    requires o == Next(n, Give(p, junk))
    ensures Conserved(s, t, o, u, {}) && Refines(o, v)
  {
    hide Users;
    GiveRefines(n, v, p, junk);
  }

  /** `increment_ref` after a successful `mappages`: the page is a user page now. */
  lemma PageMapped(s: Memory, n: Memory, free: seq<nat>, t: Tables, u: Tables, pos: map<nat, Place>, roots: set<nat>,
                   k: Key, pte: Pte, v: Eager)
    requires PhysOk(n, free, u, pos, roots) && Conserved(s, t, n, u, {pte.ppn}) && Refines(n, v)
    requires KernelPage(n, pte.ppn) && n.mem[pte.ppn] == ZeroPage() && pte.ppn !in u && k !in n.user
    requires pte.ppn in s.free && !(pte.w && pte.cow)
    ensures var o := n.(user := n.user[k := pte], refs := n.refs[pte.ppn := n.refs[pte.ppn] + 1]);
      && PhysOk(o, free, u, pos, roots) && Conserved(s, t, o, u, {})
      && Refines(o, v[k := Given(ZeroPage(), pte)])
  {
    hide Users, TreeOk, EntriesTyped, MemOk, Inv, Refines, Conserved;
    var o := n.(user := n.user[k := pte], refs := n.refs[pte.ppn := n.refs[pte.ppn] + 1]);
    PhysInv(n, free, u, pos, roots);
    assert n.mem[pte.ppn := ZeroPage()] == n.mem;
    assert o == Next(n, Map(k, pte));
    StepKeepsInv(n, Map(k, pte));
    MapRefines(n, v, k, pte);
    MemSame(n, o, free);
    CopyConserved(s, n, t, u, k, pte);
    forall b | b in u ensures KernelPage(o, b) {
      assert KernelPage(n, b);
      StillKernelPage(n, o, pte.ppn, b);
    }
  }

  lemma UnmappedLeaf(t: Tables, roots: set<nat>, user: map<Key, Pte>, root: nat, vpn: nat)
    requires LeavesMatch(t, roots, user) && root in roots && vpn < USERTOP && (root, vpn) !in user
    ensures Sized(t) && !LeafAt(t, root, vpn).v
  {
  }

  lemma RangeOfNone(t: Tables, u: Tables, roots: set<nat>, root: nat, vpn: nat, perm: Pte)
    requires RangeSet(t, u, roots, root, vpn, 0, perm.ppn, perm)
    ensures SameLeaves(t, u, roots)
  {
    hide LeafAt;
  }

  lemma MinusNone<V>(m: map<Key, V>, root: nat, vpn: nat)
    ensures m - Range(root, vpn, 0) == m && Range(root, vpn, 0) == {}
  {
    assert Range(root, vpn, 0) == {};
  }

  lemma MinusNext<V>(m: map<Key, V>, root: nat, vpn: nat, i: nat)
    ensures m - Range(root, vpn, i + 1) == m - Range(root, vpn, i) - {(root, vpn + i)}
    ensures (root, vpn + i) in m ==> (root, vpn + i) in m - Range(root, vpn, i)
  {
    RangeNext(root, vpn, i);
  }

  lemma PhysInv(m: Memory, free: seq<nat>, t: Tables, pos: map<nat, Place>, roots: set<nat>)
    requires PhysOk(m, free, t, pos, roots)
    ensures Inv(m) && m.refs.Keys == m.mem.Keys && Sized(t) && m.free == Elements(free) && MemOk(m, free)
  {
  }

  // ---- unmapping, on values ----

  function Range(root: nat, vpn: nat, n: nat): (r: set<Key>) {
    set i: nat | vpn <= i < vpn + n :: (root, i)
  }

  lemma RangeNext(root: nat, vpn: nat, i: nat)
    ensures Range(root, vpn, i + 1) == Range(root, vpn, i) + {(root, vpn + i)}
    ensures (root, vpn + i) !in Range(root, vpn, i)
  {
  }

  /** Pages whose last mapping went are free, no other page is, and no count grew. */
  ghost predicate Released(s: Memory, t: Memory) {
    && t.mem.Keys == s.mem.Keys && s.refs.Keys == s.mem.Keys && t.refs.Keys == s.mem.Keys
    && forall p :: p in s.mem ==>
        t.refs[p] <= s.refs[p] && (p in t.free <==> p in s.free || (s.refs[p] > 0 && t.refs[p] == 0))
  }

  lemma ReleasedRefl(s: Memory)
    requires s.refs.Keys == s.mem.Keys
    ensures Released(s, s)
  {
  }

  lemma ReleasedTrans(s: Memory, t: Memory, u: Memory)
    requires Released(s, t) && Released(t, u)
    ensures Released(s, u)
  {
  }

  lemma MappedHasTable(t: Tables, roots: set<nat>, user: map<Key, Pte>, root: nat, vpn: nat)
    requires LeavesMatch(t, roots, user) && (root, vpn) in user
    ensures vpn < USERTOP && root in roots && Node(t, root, PathTo(0, vpn)) in t && Node(t, root, PathTo(0, vpn)) != 0
    ensures t[Node(t, root, PathTo(0, vpn))][Index(0, vpn)] == Raw(true, user[(root, vpn)])
  {
    hide Node, PathTo, Index;
    assert LeafAt(t, root, vpn).v;
  }

  /** A user page loses one mapping; without mappings it belongs to the kernel. */
  lemma DropRef(m: Memory, free: seq<nat>, t: Tables, pos: map<nat, Place>, roots: set<nat>, k: Key, v: Eager)
    requires PhysOk(m, free, t, pos, roots) && k in m.user && Refines(m, v)
    ensures m.refs.Keys == m.mem.Keys && m.user[k].ppn in m.refs && m.refs[m.user[k].ppn] > 0
    ensures var p := m.user[k].ppn;
      var n := m.(user := m.user - {k}, refs := m.refs[p := m.refs[p] - 1]);
      && PhysOk(n, free, t, pos, roots) && Refines(n, v - {k})
      && (m.refs[p] == 1 ==> KernelPage(n, p) && p !in t)
      && (m.refs[p] > 1 ==> Released(m, n))
  {
    hide TreeOk, EntriesTyped, Users, NoDup;
    UsersOfMapped(m, k);
    UsersRemove(m.user, k);
    var p := m.user[k].ppn;
    if m.refs[p] == 1 {
      forall j | j in m.user && m.user[j].ppn == p ensures j == k {
        SoleUser(m.user, k, j);
      }
    }
  }

  lemma AfterFree(m: Memory, n: Memory, o: Memory, k: Key, v: Eager, junk: Page)
    requires Inv(m) && k in m.user && m.refs[m.user[k].ppn] == 1
    requires n == m.(user := m.user - {k}, refs := m.refs[m.user[k].ppn := 0]) && Inv(n) && Refines(n, v - {k})
    requires KernelPage(n, m.user[k].ppn) && o == Next(n, Give(m.user[k].ppn, junk))
    ensures Released(m, o) && Refines(o, v - {k})
  {
    GiveRefines(n, v - {k}, m.user[k].ppn, junk);
  }

  // ---- ranges of leaf PTEs ----

  ghost predicate PteSet(t: Tables, u: Tables, roots: set<nat>, root: nat, vpn: nat, e: Raw) {
    && Sized(t) && Sized(u)
    && forall r, v {:trigger LeafAt(u, r, v)} :: r in roots && 0 <= v < MAXVPN ==>
        LeafAt(u, r, v) == if r == root && v == vpn then e else LeafAt(t, r, v)
  }

  ghost predicate RangeSet(t: Tables, u: Tables, roots: set<nat>, root: nat, vpn: nat, n: nat, ppn: nat, perm: Pte) {
    && Sized(t) && Sized(u)
    && forall r, v {:trigger LeafAt(u, r, v)} :: r in roots && 0 <= v < MAXVPN ==>
        LeafAt(u, r, v) == if r == root && vpn <= v < vpn + n then Raw(true, perm.(ppn := ppn + (v - vpn)))
                           else LeafAt(t, r, v)
  }

  ghost predicate Cleared(t: Tables, u: Tables, roots: set<nat>, root: nat, vpn: nat, n: nat) {
    && Sized(t) && Sized(u)
    && forall r, v {:trigger LeafAt(u, r, v)} :: r in roots && 0 <= v < MAXVPN ==>
        LeafAt(u, r, v) == if r == root && vpn <= v < vpn + n then Invalid() else LeafAt(t, r, v)
  }

  lemma ClearedNone(m: Memory, free: seq<nat>, t: Tables, pos: map<nat, Place>, roots: set<nat>, root: nat, vpn: nat)
    requires PhysOk(m, free, t, pos, roots)
    ensures Cleared(t, t, roots, root, vpn, 0)
  {
    hide LeafAt, Node;
  }

  lemma ClearedNext(t: Tables, u: Tables, w: Tables, roots: set<nat>, root: nat, vpn: nat, n: nat)
    requires Cleared(t, u, roots, root, vpn, n) && PteSet(u, w, roots, root, vpn + n, Invalid())
    ensures Cleared(t, w, roots, root, vpn, n + 1)
  {
    hide LeafAt;
    forall r, x | r in roots && 0 <= x < MAXVPN
      ensures LeafAt(w, r, x) == if r == root && vpn <= x < vpn + n + 1 then Invalid() else LeafAt(t, r, x)
    {
      assert LeafAt(w, r, x) == if r == root && x == vpn + n then Invalid() else LeafAt(u, r, x);
    }
  }

  lemma MapStart(m: Memory, free: seq<nat>, t: Tables, pos: map<nat, Place>, roots: set<nat>, root: nat, vpn: nat,
                 ppn: nat, perm: Pte)
    requires PhysOk(m, free, t, pos, roots)
    ensures Quiet(m, m) && RangeSet(t, t, roots, root, vpn, 0, ppn, perm)
  {
    hide LeafAt, Node;
  }

  lemma RangeSame(t: Tables, u: Tables, v: Tables, roots: set<nat>, root: nat, vpn: nat, n: nat, ppn: nat, perm: Pte)
    requires RangeSet(t, u, roots, root, vpn, n, ppn, perm) && SameLeaves(u, v, roots)
    ensures RangeSet(t, v, roots, root, vpn, n, ppn, perm)
  {
    hide LeafAt;
    forall r, x | r in roots && 0 <= x < MAXVPN
      ensures LeafAt(v, r, x) ==
        if r == root && vpn <= x < vpn + n then Raw(true, perm.(ppn := ppn + (x - vpn))) else LeafAt(t, r, x)
    {
      assert LeafAt(v, r, x) == LeafAt(u, r, x);
    }
  }

  lemma RangeMore(t: Tables, u: Tables, v: Tables, roots: set<nat>, root: nat, vpn: nat, n: nat, ppn: nat, perm: Pte)
    requires RangeSet(t, u, roots, root, vpn, n, ppn, perm)
    requires PteSet(u, v, roots, root, vpn + n, Raw(true, perm.(ppn := ppn + n)))
    ensures RangeSet(t, v, roots, root, vpn, n + 1, ppn, perm)
  {
    hide LeafAt;
    forall r, x | r in roots && 0 <= x < MAXVPN
      ensures LeafAt(v, r, x) ==
        if r == root && vpn <= x < vpn + n + 1 then Raw(true, perm.(ppn := ppn + (x - vpn))) else LeafAt(t, r, x)
    {
      assert LeafAt(v, r, x) == if r == root && x == vpn + n then Raw(true, perm.(ppn := ppn + n)) else LeafAt(u, r, x);
    }
  }

  lemma RangeOfOne(t: Tables, u: Tables, roots: set<nat>, root: nat, vpn: nat, perm: Pte)
    requires RangeSet(t, u, roots, root, vpn, 1, perm.ppn, perm)
    ensures PteSet(t, u, roots, root, vpn, Raw(true, perm))
  {
    hide LeafAt;
  }

  /** The flat map after one PTE of the user range was written. */
  lemma LeavesAfterSet(t: Tables, u: Tables, roots: set<nat>, user: map<Key, Pte>, root: nat, vpn: nat, e: Raw)
    requires LeavesMatch(t, roots, user) && PteSet(t, u, roots, root, vpn, e) && root in roots && vpn < USERTOP
    requires (e.v ==> e.pte.r)
    ensures LeavesMatch(u, roots, if e.v then user[(root, vpn) := e.pte] else user - {(root, vpn)})
  {
    hide LeafAt;
    var w := if e.v then user[(root, vpn) := e.pte] else user - {(root, vpn)};
    forall r, v | r in roots && 0 <= v < USERTOP
      ensures (LeafAt(u, r, v).v <==> (r, v) in w) && ((r, v) in w ==> LeafAt(u, r, v).pte == w[(r, v)])
    {
      assert LeafAt(u, r, v) == if r == root && v == vpn then e else LeafAt(t, r, v);
    }
    forall r, v | r in roots && USERTOP <= v < MAXVPN && LeafAt(u, r, v).v
      ensures !LeafAt(u, r, v).pte.u && !LeafAt(u, r, v).pte.cow
    {
      assert LeafAt(u, r, v) == LeafAt(t, r, v);
    }
  }

  lemma LeavesSame(t: Tables, u: Tables, roots: set<nat>, user: map<Key, Pte>)
    requires LeavesMatch(t, roots, user) && SameLeaves(t, u, roots)
    ensures LeavesMatch(u, roots, user)
  {
    hide LeafAt;
    forall r, v | r in roots && 0 <= v < USERTOP
      ensures (LeafAt(u, r, v).v <==> (r, v) in user) && ((r, v) in user ==> LeafAt(u, r, v).pte == user[(r, v)])
    {
      assert LeafAt(u, r, v) == LeafAt(t, r, v);
    }
    forall r, v | r in roots && USERTOP <= v < MAXVPN && LeafAt(u, r, v).v
      ensures !LeafAt(u, r, v).pte.u && !LeafAt(u, r, v).pte.cow
    {
      assert LeafAt(u, r, v) == LeafAt(t, r, v);
    }
  }

  // ---- walk, on values ----

  lemma SpentStart(f: seq<nat>, p: map<nat, Place>, root: nat, vpn: nat)
    requires vpn <= MAXVPN
    ensures Spent(f, p, f, p, root, WaysOf(vpn, 0), 0)
  {
    SpentNone(f, p, root);
  }

  lemma PageUpBelow(sz: nat)
    requires sz <= USERTOP * PGSIZE
    ensures PageUp(sz) <= USERTOP < MAXVPN
  {
  }

  /** A new root has no other table. */
  lemma OnlyTheRoot(m: Memory, free: seq<nat>, t: Tables, pos: map<nat, Place>, roots: set<nat>, b: nat)
    requires PhysOk(m, free, t, pos, roots) && b !in roots
    ensures Have(pos[b := Place(b, [])], b) == {[]}
  {
    hide Node, MemOk, EntriesTyped;
    var q := pos[b := Place(b, [])];
    assert b in q;
    forall c | c in q && q[c].root == b ensures c == b {
    }
  }

  /** TRAMPOLINE and TRAPFRAME lie in the same two tables, which a new address space lacks. */
  lemma TopTables(f: seq<nat>, p: map<nat, Place>, root: nat)
    requires Have(p, root) == {[]}
    ensures Enough(f, p, root, Ways(MAXVPN - 1), 0) <==> |f| >= 2
    ensures Ways(MAXVPN - 2) == Ways(MAXVPN - 1)
  {
    var w := Ways(MAXVPN - 1);
    assert PathTo(1, MAXVPN - 1) == [255] && PathTo(0, MAXVPN - 1) == [255, 511];
    assert PathTo(1, MAXVPN - 2) == [255] && PathTo(0, MAXVPN - 2) == [255, 511];
    assert w - {[]} == {[255], [255, 511]};
  }

  lemma SameTables(f: seq<nat>, p: map<nat, Place>, g: seq<nat>, q: map<nat, Place>, root: nat)
    requires Spent(f, p, g, q, root, Ways(MAXVPN - 1), 0) && Ways(MAXVPN - 2) == Ways(MAXVPN - 1)
    ensures Enough(g, q, root, Ways(MAXVPN - 2), 0)
  {
    hide Have, Ways;
    assert Ways(MAXVPN - 1) - Have(q, root) == {};
  }

  lemma WalkingStart(f: seq<nat>, p: map<nat, Place>, root: nat, vpn: nat)
    requires vpn < MAXVPN
    ensures Walking(f, p, f, p, root, vpn, 2)
  {
  }

  lemma PhysTree(m: Memory, free: seq<nat>, t: Tables, pos: map<nat, Place>, roots: set<nat>)
    requires PhysOk(m, free, t, pos, roots)
    ensures TreeOk(t, pos, roots)
  {
  }

  lemma WalkStart(m: Memory, free: seq<nat>, t: Tables, pos: map<nat, Place>, roots: set<nat>, root: nat, vpn: nat)
    requires PhysOk(m, free, t, pos, roots) && root in roots && vpn < MAXVPN
    ensures Sized(t) && root in t && Node(t, root, PathTo(2, vpn)) == root && Quiet(m, m) && SameLeaves(t, t, roots)
  {
  }

  /** One level further down the same path. */
  lemma WalkDown(m: Memory, free: seq<nat>, t: Tables, pos: map<nat, Place>, roots: set<nat>, root: nat, level: nat,
                 vpn: nat)
    requires PhysOk(m, free, t, pos, roots) && root in roots && vpn < MAXVPN && 0 < level < 3
    requires Sized(t) && Node(t, root, PathTo(level, vpn)) in t
    ensures var e := t[Node(t, root, PathTo(level, vpn))][Index(level, vpn)];
      && Node(t, root, PathTo(level - 1, vpn)) == (if e.v then e.pte.ppn else 0)
      && (e.v ==> e.pte.ppn in t)
  {
    hide Node, Inv, PathTo, Index;
    var p := PathTo(level - 1, vpn);
    PathStep(level, vpn);
    NodeStep(t, root, p);
    var h := Node(t, root, PathTo(level, vpn));
    assert pos[h] == Place(root, PathTo(level, vpn));
    var e := t[h][Index(level, vpn)];
    if e.v {
      assert e.pte.ppn == Node(t, root, p) && e.pte.ppn != 0;
      assert Node(t, root, p) in pos;
    }
  }

  lemma PathStep(level: nat, vpn: nat)
    requires 0 < level < 3 && vpn < MAXVPN
    ensures var p := PathTo(level - 1, vpn); |p| > 0 && Init(p) == PathTo(level, vpn) && Last(p) == Index(level, vpn)
  {
  }

  lemma {:induction false} WalkMissing(t: Tables, root: nat, level: nat, vpn: nat)
    requires Sized(t) && vpn < MAXVPN && 0 < level < 3 && Node(t, root, PathTo(level - 1, vpn)) == 0
    ensures Node(t, root, PathTo(0, vpn)) == 0
  {
    if level == 2 {
      assert Init(PathTo(0, vpn)) == PathTo(1, vpn);
    }
  }

  lemma WalkAdd(m: Memory, free: seq<nat>, t: Tables, pos: map<nat, Place>, roots: set<nat>, root: nat, level: nat,
                vpn: nat,
                b: nat, t0: Tables)
    requires PhysOk(m, free, t, pos, roots) && root in roots && vpn < MAXVPN && 0 < level < 3
    requires SameLeaves(t0, t, roots)
    requires Sized(t) && Node(t, root, PathTo(level, vpn)) in t && Node(t, root, PathTo(level - 1, vpn)) == 0
    requires KernelPage(m, b) && b !in t
    ensures b != 0
    ensures var u := AddTable(t, Node(t, root, PathTo(level, vpn)), Index(level, vpn), b);
      && PhysOk(m, free, u, pos[b := Place(root, PathTo(level - 1, vpn))], roots)
      && SameLeaves(t0, u, roots) && Node(u, root, PathTo(level - 1, vpn)) == b && b in u
  {
    hide Node, LeafAt, Index, PathTo, Inv, NoDup, NodesPlaced, PlacesReached, EntriesTyped, AddTable;
    var p := PathTo(level - 1, vpn);
    PathStep(level, vpn);
    TopIndex(level - 1, vpn);
    AddKeeps(t, pos, roots, root, p, b);
    AddKeepsTypes(t, pos, roots, root, p, b);
    AddKeys(t, Node(t, root, Init(p)), Last(p), b);
  }
}
