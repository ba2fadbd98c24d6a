/**
 The three-level Sv39 page tables of kernel/vm.c, stored in table pages.

 A table page is found from its root by a path of at most two indices; the ghost map `pos`
 records the one place of every table page. The invariant says that places and links agree
 exactly, so trees of different address spaces are disjoint and the leaf PTEs form a flat
 map from (root, virtual page) to PTE.
 */
module Sv39 {
  import opened CowMemory
  import opened Params

  const ENTRIES := 512
  /** MAXVA is one bit less than Sv39 allows, so the top-level index stays below 256. */
  const MAXVPN := 0x400_0000

  /** A 64-bit PTE: PTE_V and the rest. */
  datatype Raw = Raw(v: bool, pte: Pte)

  type Tables = map<nat, seq<Raw>>
  type Path = seq<nat>
  datatype Place = Place(root: nat, path: Path)

  function Invalid(): Raw {
    Raw(false, Pte(0, false, false, false, false, false))
  }

  /** `PA2PTE(pagetable) | PTE_V`. */
  function Link(b: nat): Raw {
    Raw(true, Pte(b, false, false, false, false, false))
  }

  predicate IsLeaf(e: Raw) {
    e.v && (e.pte.r || e.pte.w || e.pte.x)
  }

  function ZeroTable(): (r: seq<Raw>)
    ensures |r| == ENTRIES && forall i :: 0 <= i < ENTRIES ==> r[i] == Invalid()
  {
    seq(ENTRIES, i => Invalid())
  }

  // ---- PX(level, va) ----

  function Index(level: nat, vpn: nat): (r: nat)
    requires level < 3 && vpn < MAXVPN
    ensures r < ENTRIES
  {
    if level == 2 then vpn / 0x4_0000 else if level == 1 then vpn / 0x200 % 0x200 else vpn % 0x200
  }

  /** The path to the table that holds entry `Index(level, vpn)`. */
  function PathTo(level: nat, vpn: nat): (p: Path)
    requires level < 3 && vpn < MAXVPN
    ensures ValidPath(p) && |p| == 2 - level
  {
    if level == 2 then [] else if level == 1 then [Index(2, vpn)] else [Index(2, vpn), Index(1, vpn)]
  }

  /** Distinct virtual pages have distinct leaf slots. */
  lemma PagesNeverAlias(a: nat, b: nat)
    requires a < MAXVPN && b < MAXVPN && PathTo(0, a) == PathTo(0, b) && Index(0, a) == Index(0, b)
    ensures a == b
  {
    assert PathTo(0, a)[0] == Index(2, a) && PathTo(0, a)[1] == Index(1, a);
    assert PathTo(0, b)[0] == Index(2, b) && PathTo(0, b)[1] == Index(1, b);
    Parts(a);
    Parts(b);
  }

  /** The three indices are the fields of a virtual page number, nine bits each, the highest first. */
  lemma Parts(a: nat)
    requires a < MAXVPN
    ensures a == Index(2, a) * 0x4_0000 + Index(1, a) * 0x200 + Index(0, a)
  {
    var h := a / 0x200;
    assert a == h * 0x200 + a % 0x200;
    assert h == h / 0x200 * 0x200 + h % 0x200;
    assert a / 0x4_0000 == h / 0x200;
  }

  predicate ValidPath(p: Path) {
    |p| <= 2 && forall i :: 0 <= i < |p| ==> p[i] < ENTRIES
  }

  function Init(p: Path): Path
    requires |p| > 0
  {
    p[..|p| - 1]
  }

  function Last(p: Path): nat
    requires |p| > 0
  {
    p[|p| - 1]
  }

  lemma TopIndex(level: nat, vpn: nat)
    requires level < 2 && vpn < MAXVPN
    ensures PathTo(level, vpn)[0] < 256
  {
  }

  // ---- following links ----

  predicate Sized(t: Tables) {
    0 !in t && forall b :: b in t ==> |t[b]| == ENTRIES
  }

  function Follow(t: Tables, h: nat, i: nat): (r: nat)
    requires Sized(t) && i < ENTRIES
  {
    if h in t && t[h][i].v then t[h][i].pte.ppn else 0
  }

  /** The table page at the end of a path, or 0. */
  function Node(t: Tables, root: nat, p: Path): (r: nat)
    requires Sized(t) && ValidPath(p)
    decreases |p|
  {
    if |p| == 0 then (if root in t then root else 0) else Follow(t, Node(t, root, Init(p)), Last(p))
  }

  /** The PTE of a virtual page; invalid where a table is missing. This is what the hardware sees. */
  function LeafAt(t: Tables, root: nat, vpn: nat): (r: Raw)
    requires Sized(t) && vpn < MAXVPN
  {
    var h := Node(t, root, PathTo(0, vpn));
    if h in t then t[h][Index(0, vpn)] else Invalid()
  }

  // ---- the invariant ----

  ghost predicate NodesPlaced(t: Tables, pos: map<nat, Place>, roots: set<nat>) {
    && Sized(t)
    && forall r, p {:trigger Node(t, r, p)} :: r in roots && ValidPath(p) && Node(t, r, p) != 0 ==>
        Node(t, r, p) in pos && pos[Node(t, r, p)] == Place(r, p)
  }

  ghost predicate PlacesReached(t: Tables, pos: map<nat, Place>, roots: set<nat>) {
    && Sized(t) && pos.Keys == t.Keys
    && forall b :: b in pos ==> pos[b].root in roots && ValidPath(pos[b].path) && Node(t, pos[b].root, pos[b].path) == b
  }

  /** Links are interior entries without R, W, X; entries of the lowest level are leaves; no table lies above MAXVA. */
  ghost predicate EntriesTyped(t: Tables, pos: map<nat, Place>) {
    && Sized(t)
    && (forall b :: b in pos && |pos[b].path| > 0 ==> pos[b].path[0] < 256)
    && forall b, i {:trigger t[b][i]} :: b in t && b in pos && 0 <= i < ENTRIES && t[b][i].v ==>
        (IsLeaf(t[b][i]) <==> |pos[b].path| == 2) && (|pos[b].path| < 2 ==> t[b][i].pte.ppn != 0)
  }

  ghost predicate TreeOk(t: Tables, pos: map<nat, Place>, roots: set<nat>) {
    && NodesPlaced(t, pos, roots) && PlacesReached(t, pos, roots)
    && forall r :: r in roots ==> r in t && r in pos && pos[r] == Place(r, [])
  }

  // ---- adding a table page: the allocating branch of `walk` ----

  function AddTable(t: Tables, h: nat, i: nat, b: nat): (r: Tables)
    requires Sized(t) && h in t && i < ENTRIES && b != 0
    ensures Sized(r)
  {
    t[h := t[h][i := Link(b)]][b := ZeroTable()]
  }

  ghost predicate CanAdd(t: Tables, pos: map<nat, Place>, roots: set<nat>, root: nat, p: Path, b: nat) {
    && TreeOk(t, pos, roots) && root in roots && ValidPath(p) && |p| > 0
    && Node(t, root, Init(p)) != 0 && Node(t, root, p) == 0 && b != 0 && b !in t
  }

  lemma SamePath(p: Path, q: Path)
    requires |p| > 0 && |q| > 0 && Init(p) == Init(q) && Last(p) == Last(q)
    ensures p == q
  {
    assert p == Init(p) + [Last(p)] && q == Init(q) + [Last(q)];
  }

  lemma FollowAfterAdd(t: Tables, h: nat, i: nat, b: nat, g: nat, j: nat)
    requires Sized(t) && h in t && i < ENTRIES && b != 0 && b !in t && j < ENTRIES
    ensures Follow(AddTable(t, h, i, b), g, j) == if g == h && j == i then b else if g == b then 0 else Follow(t, g, j)
  {
  }

  lemma {:induction false} NodeAfterAdd(t: Tables, pos: map<nat, Place>, roots: set<nat>, root: nat, p: Path, b: nat,
                                        r: nat, q: Path)
    requires CanAdd(t, pos, roots, root, p, b) && r in roots && ValidPath(q)
    ensures Node(t, root, Init(p)) in t
    ensures Node(AddTable(t, Node(t, root, Init(p)), Last(p), b), r, q) ==
      if r == root && q == p then b else Node(t, r, q)
    decreases |q|
  {
    hide Follow, AddTable;
    var h := Node(t, root, Init(p));
    assert pos[h] == Place(root, Init(p));
    var u := AddTable(t, h, Last(p), b);
    if |q| == 0 {
      RootAfterAdd(t, h, Last(p), b, r);
    } else {
      NodeAfterAdd(t, pos, roots, root, p, b, r, Init(q));
      var g := Node(t, r, Init(q));
      FollowAfterAdd(t, h, Last(p), b, Node(u, r, Init(q)), Last(q));
      if g == h {
        assert pos[g] == Place(r, Init(q));
        if Last(p) == Last(q) {
          SamePath(p, q);
        }
      } else if r == root && Init(q) == p {
        FollowNothing(t, Last(q));
      } else {
        assert g != 0 ==> g in pos;
      }
    }
  }

  lemma RootAfterAdd(t: Tables, h: nat, i: nat, b: nat, r: nat)
    requires Sized(t) && h in t && i < ENTRIES && b != 0 && b !in t && r in t
    ensures Node(AddTable(t, h, i, b), r, []) == Node(t, r, [])
  {
  }

  lemma FollowNothing(t: Tables, i: nat)
    requires Sized(t) && i < ENTRIES
    ensures Follow(t, 0, i) == 0
  {
  }

  /** A new table page gets a place of its own; no leaf PTE of any address space changes. */
  lemma AddKeeps(t: Tables, pos: map<nat, Place>, roots: set<nat>, root: nat, p: Path, b: nat)
    requires CanAdd(t, pos, roots, root, p, b)
    ensures Node(t, root, Init(p)) in t
    ensures var u := AddTable(t, Node(t, root, Init(p)), Last(p), b);
      && TreeOk(u, pos[b := Place(root, p)], roots) && SameLeaves(t, u, roots)
      && Node(u, root, p) == b
  {
    hide LeafAt, Follow, AddTable, SameLeaves, Node;
    var h := Node(t, root, Init(p));
    assert pos[h] == Place(root, Init(p));
    var u, o := AddTable(t, h, Last(p), b), pos[b := Place(root, p)];
    forall r, q | r in roots && ValidPath(q) ensures Node(u, r, q) == if r == root && q == p then b else Node(t, r, q) {
      NodeAfterAdd(t, pos, roots, root, p, b, r, q);
    }
    AddKeys(t, h, Last(p), b);
    AddKeepsLeaves(t, pos, roots, root, p, b);
  }

  lemma AddKeepsLeaves(t: Tables, pos: map<nat, Place>, roots: set<nat>, root: nat, p: Path, b: nat)
    requires CanAdd(t, pos, roots, root, p, b)
    ensures Node(t, root, Init(p)) in t && SameLeaves(t, AddTable(t, Node(t, root, Init(p)), Last(p), b), roots)
  {
    hide LeafAt, Follow, AddTable, Node;
    var h := Node(t, root, Init(p));
    assert pos[h] == Place(root, Init(p));
    var u := AddTable(t, h, Last(p), b);
    forall r, vpn | r in roots && 0 <= vpn < MAXVPN ensures LeafAt(u, r, vpn) == LeafAt(t, r, vpn) {
      AddKeepsLeaf(t, pos, roots, root, p, b, r, vpn);
    }
  }

  lemma AddKeys(t: Tables, h: nat, i: nat, b: nat)
    requires Sized(t) && h in t && i < ENTRIES && b != 0
    ensures AddTable(t, h, i, b).Keys == t.Keys + {b}
  {
  }

  lemma AddKeepsTypes(t: Tables, pos: map<nat, Place>, roots: set<nat>, root: nat, p: Path, b: nat)
    requires CanAdd(t, pos, roots, root, p, b) && EntriesTyped(t, pos) && p[0] < 256
    ensures Node(t, root, Init(p)) in t
    ensures EntriesTyped(AddTable(t, Node(t, root, Init(p)), Last(p), b), pos[b := Place(root, p)])
  {
    var h := Node(t, root, Init(p));
    assert pos[h] == Place(root, Init(p));
    var u: Tables, o := AddTable(t, h, Last(p), b), pos[b := Place(root, p)];
    forall c: nat, i: nat | c in u && c in o && 0 <= i < ENTRIES && u[c][i].v
      ensures (IsLeaf(u[c][i]) <==> |o[c].path| == 2) && (|o[c].path| < 2 ==> u[c][i].pte.ppn != 0)
    {
      if c != b && !(c == h && i == Last(p)) {
        assert u[c][i] == t[c][i];
      }
    }
  }

  lemma AddKeepsLeaf(t: Tables, pos: map<nat, Place>, roots: set<nat>, root: nat, p: Path, b: nat, r: nat, vpn: nat)
    requires CanAdd(t, pos, roots, root, p, b) && r in roots && vpn < MAXVPN
    ensures Node(t, root, Init(p)) in t
    ensures LeafAt(AddTable(t, Node(t, root, Init(p)), Last(p), b), r, vpn) == LeafAt(t, r, vpn)
  {
    hide Node, PathTo, Index, Follow;
    var q := PathTo(0, vpn);
    NodeAfterAdd(t, pos, roots, root, p, b, r, q);
    var h, g := Node(t, root, Init(p)), Node(t, r, q);
    assert pos[h] == Place(root, Init(p));
    assert |Init(p)| < 2 && |q| == 2;
    if g != 0 {
      assert pos[g] == Place(r, q);
    }
  }

  ghost predicate SameLeaves(t: Tables, u: Tables, roots: set<nat>) {
    && Sized(t) && Sized(u)
    && forall r, vpn {:trigger LeafAt(u, r, vpn)} :: r in roots && 0 <= vpn < MAXVPN ==>
         LeafAt(u, r, vpn) == LeafAt(t, r, vpn)
  }

  ghost predicate NoLeaves(t: Tables, root: nat) {
    Sized(t) && forall vpn {:trigger LeafAt(t, root, vpn)} :: 0 <= vpn < MAXVPN ==> !LeafAt(t, root, vpn).v
  }

  // ---- writing a leaf PTE ----

  function PutEntry(t: Tables, h: nat, i: nat, e: Raw): (r: Tables)
    requires Sized(t) && h in t && i < ENTRIES
    ensures Sized(r) && r.Keys == t.Keys
  {
    t[h := t[h][i := e]]
  }

  lemma {:induction false} NodeAfterPut(t: Tables, pos: map<nat, Place>, roots: set<nat>, h: nat, i: nat, e: Raw,
                                        r: nat, q: Path)
    requires TreeOk(t, pos, roots) && h in t && |pos[h].path| == 2 && i < ENTRIES && r in roots && ValidPath(q)
    ensures Node(PutEntry(t, h, i, e), r, q) == Node(t, r, q)
    decreases |q|
  {
    if |q| > 0 {
      NodeAfterPut(t, pos, roots, h, i, e, r, Init(q));
    }
  }

  /** Writing the PTE of one virtual page changes that page of that address space and nothing else. */
  lemma PutKeeps(t: Tables, pos: map<nat, Place>, roots: set<nat>, root: nat, vpn: nat, e: Raw)
    requires TreeOk(t, pos, roots) && root in roots && vpn < MAXVPN && Node(t, root, PathTo(0, vpn)) != 0
    requires e.v ==> IsLeaf(e)
    ensures Node(t, root, PathTo(0, vpn)) in t
    ensures var u := PutEntry(t, Node(t, root, PathTo(0, vpn)), Index(0, vpn), e);
      && TreeOk(u, pos, roots) && (EntriesTyped(t, pos) ==> EntriesTyped(u, pos))
      && forall r, v {:trigger LeafAt(u, r, v)} :: r in roots && 0 <= v < MAXVPN ==>
          LeafAt(u, r, v) == if r == root && v == vpn then e else LeafAt(t, r, v)
  {
    hide LeafAt, ValidPath, Follow, PutEntry, EntriesTyped, PathTo, Index;
    var h, i := Node(t, root, PathTo(0, vpn)), Index(0, vpn);
    assert pos[h] == Place(root, PathTo(0, vpn));
    var u := PutEntry(t, h, i, e);
    forall r, q | r in roots && ValidPath(q) ensures Node(u, r, q) == Node(t, r, q) {
      NodeAfterPut(t, pos, roots, h, i, e, r, q);
    }
    forall r, v | r in roots && 0 <= v < MAXVPN
      ensures LeafAt(u, r, v) == if r == root && v == vpn then e else LeafAt(t, r, v)
    {
      LeafAfterPut(t, pos, roots, root, vpn, e, r, v);
    }
    if EntriesTyped(t, pos) {
      PutKeepsTypes(t, pos, h, i, e);
    }
  }

  lemma PutKeepsTypes(t: Tables, pos: map<nat, Place>, h: nat, i: nat, e: Raw)
    requires EntriesTyped(t, pos) && h in t && h in pos && |pos[h].path| == 2 && i < ENTRIES && (e.v ==> IsLeaf(e))
    ensures EntriesTyped(PutEntry(t, h, i, e), pos)
  {
  }

  lemma LeafAfterPut(t: Tables, pos: map<nat, Place>, roots: set<nat>, root: nat, vpn: nat, e: Raw, r: nat, v: nat)
    requires TreeOk(t, pos, roots) && root in roots && vpn < MAXVPN && Node(t, root, PathTo(0, vpn)) != 0
    requires r in roots && v < MAXVPN
    ensures var h := Node(t, root, PathTo(0, vpn));
      && h in t
      && LeafAt(PutEntry(t, h, Index(0, vpn), e), r, v) == if r == root && v == vpn then e else LeafAt(t, r, v)
  {
    hide Node, PathTo, Index;
    var h, i := Node(t, root, PathTo(0, vpn)), Index(0, vpn);
    assert pos[h] == Place(root, PathTo(0, vpn));
    NodeAfterPut(t, pos, roots, h, i, e, r, PathTo(0, v));
    if Node(t, r, PathTo(0, v)) == h && Index(0, v) == i {
      assert pos[h] == Place(r, PathTo(0, v));
      PagesNeverAlias(v, vpn);
    }
  }

  // ---- a new address space, and the end of one ----

  lemma FollowAfterRoot(t: Tables, b: nat, g: nat, j: nat)
    requires Sized(t) && b != 0 && b !in t && j < ENTRIES
    ensures Sized(t[b := ZeroTable()]) && Follow(t[b := ZeroTable()], g, j) == if g == b then 0 else Follow(t, g, j)
  {
  }

  lemma {:induction false} NodeAfterRoot(t: Tables, pos: map<nat, Place>, roots: set<nat>, b: nat, r: nat, q: Path)
    requires TreeOk(t, pos, roots) && b != 0 && b !in t && r in roots + {b} && ValidPath(q)
    ensures Sized(t[b := ZeroTable()])
    ensures Node(t[b := ZeroTable()], r, q) == if r == b then (if |q| == 0 then b else 0) else Node(t, r, q)
    decreases |q|
  {
    hide Follow;
    if |q| > 0 {
      NodeAfterRoot(t, pos, roots, b, r, Init(q));
      var g := Node(t[b := ZeroTable()], r, Init(q));
      FollowAfterRoot(t, b, g, Last(q));
      if r != b {
        assert g != 0 ==> g in pos;
      } else {
        FollowNothing(t, Last(q));
      }
    }
  }

  lemma NewRootKeeps(t: Tables, pos: map<nat, Place>, roots: set<nat>, b: nat)
    requires TreeOk(t, pos, roots) && b != 0 && b !in t
    ensures TreeOk(t[b := ZeroTable()], pos[b := Place(b, [])], roots + {b})
    ensures SameLeaves(t, t[b := ZeroTable()], roots)
    ensures EntriesTyped(t, pos) ==> EntriesTyped(t[b := ZeroTable()], pos[b := Place(b, [])])
    ensures NoLeaves(t[b := ZeroTable()], b)
  {
    hide Follow;
    var u, o := t[b := ZeroTable()], pos[b := Place(b, [])];
    forall r, q | r in roots + {b} && ValidPath(q)
      ensures Node(u, r, q) == if r == b then (if |q| == 0 then b else 0) else Node(t, r, q)
    {
      NodeAfterRoot(t, pos, roots, b, r, q);
    }
    assert o.Keys == u.Keys;
  }

  /** The table pages of one address space. */
  function PagesOf(pos: map<nat, Place>, root: nat): (r: set<nat>) {
    set b | b in pos && pos[b].root == root
  }

  lemma {:induction false} NodeAfterDrop(t: Tables, pos: map<nat, Place>, roots: set<nat>, root: nat, r: nat, q: Path)
    requires TreeOk(t, pos, roots) && root in roots && r in roots && r != root && ValidPath(q)
    ensures Sized(t - PagesOf(pos, root)) && Node(t - PagesOf(pos, root), r, q) == Node(t, r, q)
    decreases |q|
  {
    if |q| > 0 {
      NodeAfterDrop(t, pos, roots, root, r, Init(q));
      var g := Node(t, r, Init(q));
      if g != 0 {
        assert pos[g] == Place(r, Init(q));
      }
    }
  }

  /** Without the table pages of one address space, every other one is as it was. */
  lemma DropKeeps(t: Tables, pos: map<nat, Place>, roots: set<nat>, root: nat)
    requires TreeOk(t, pos, roots) && root in roots
    ensures var gone := PagesOf(pos, root);
      && TreeOk(t - gone, pos - gone, roots - {root}) && SameLeaves(t, t - gone, roots - {root})
      && (EntriesTyped(t, pos) ==> EntriesTyped(t - gone, pos - gone))
  {
    var gone := PagesOf(pos, root);
    var u, o := t - gone, pos - gone;
    forall r, q | r in roots - {root} && ValidPath(q) ensures Node(u, r, q) == Node(t, r, q) {
      NodeAfterDrop(t, pos, roots, root, r, q);
    }
    forall r, vpn | r in roots - {root} && 0 <= vpn < MAXVPN ensures LeafAt(u, r, vpn) == LeafAt(t, r, vpn) {
      var g := Node(t, r, PathTo(0, vpn));
      assert Node(u, r, PathTo(0, vpn)) == g;
      if g != 0 {
        assert pos[g] == Place(r, PathTo(0, vpn));
      }
    }
  }

  // ---- freewalk, on values ----

  /** The table pages at and below one table page. */
  function Under(pos: map<nat, Place>, b: nat): (r: set<nat>)
    requires b in pos
  {
    set c | c in pos && pos[c].root == pos[b].root && pos[b].path <= pos[c].path
  }

  /** Those below its first `i` entries. */
  function UnderUpto(pos: map<nat, Place>, b: nat, i: nat): (r: set<nat>)
    requires b in pos
  {
    set c | c in Under(pos, b) && |pos[b].path| < |pos[c].path| && pos[c].path[|pos[b].path|] < i
  }

  /** A table page under root with a lowest-level place has no valid entry. */
  ghost predicate Bare(t: Tables, pos: map<nat, Place>, root: nat) {
    forall b, i {:trigger t[b][i]} ::
      b in t && b in pos && pos[b].root == root && |pos[b].path| == 2 && 0 <= i < |t[b]| ==> !t[b][i].v
  }

  lemma NodeStep(t: Tables, root: nat, p: Path)
    requires Sized(t) && ValidPath(p) && |p| > 0
    ensures Node(t, root, p) == Follow(t, Node(t, root, Init(p)), Last(p))
  {
  }

  lemma LeafFromPath(t: Tables, root: nat, p: Path, i: nat)
    requires Sized(t) && ValidPath(p) && |p| == 2 && p[0] < 256 && i < ENTRIES && Node(t, root, p) in t
    ensures var vpn := p[0] * 0x4_0000 + p[1] * 0x200 + i;
      vpn < MAXVPN && LeafAt(t, root, vpn) == t[Node(t, root, p)][i]
  {
    hide Node;
    var vpn := p[0] * 0x4_0000 + p[1] * 0x200 + i;
    assert vpn / 0x200 == p[0] * 0x200 + p[1];
    assert PathTo(0, vpn) == [p[0], p[1]] == p;
  }

  lemma NoLeavesBare(t: Tables, pos: map<nat, Place>, roots: set<nat>, root: nat)
    requires TreeOk(t, pos, roots) && EntriesTyped(t, pos) && root in roots && NoLeaves(t, root)
    ensures Bare(t, pos, root)
  {
    hide Node, LeafAt;
    forall b, i | b in t && b in pos && pos[b].root == root && |pos[b].path| == 2 && 0 <= i < |t[b]|
      ensures !t[b][i].v
    {
      LeafFromPath(t, root, pos[b].path, i);
    }
  }

  lemma UnderSelf(t: Tables, pos: map<nat, Place>, roots: set<nat>, b: nat)
    requires TreeOk(t, pos, roots) && b in pos
    ensures Sized(t) && UnderUpto(pos, b, 0) == {} && Under(pos, b) == UnderUpto(pos, b, ENTRIES) + {b}
    ensures b !in UnderUpto(pos, b, ENTRIES)
  {
    hide Node;
    forall c | c in Under(pos, b) ensures c in UnderUpto(pos, b, ENTRIES) + {b} {
      if |pos[c].path| == |pos[b].path| {
        assert pos[c].path == pos[b].path;
      } else {
        assert pos[c].path[|pos[b].path|] < ENTRIES;
      }
    }
  }

  lemma UnderRoot(t: Tables, pos: map<nat, Place>, roots: set<nat>, root: nat)
    requires TreeOk(t, pos, roots) && root in roots
    ensures root in pos && Under(pos, root) == PagesOf(pos, root)
  {
  }

  /** The table page behind a link has the place one step further. */
  lemma ChildPlace(t: Tables, pos: map<nat, Place>, roots: set<nat>, b: nat, i: nat)
    requires TreeOk(t, pos, roots) && EntriesTyped(t, pos) && b in t && b in pos && i < ENTRIES && t[b][i].v
    requires |pos[b].path| < 2
    ensures var c := t[b][i].pte.ppn; c in t && c in pos && pos[c] == Place(pos[b].root, pos[b].path + [i])
  {
    hide Node;
    var q := pos[b].path + [i];
    assert Init(q) == pos[b].path && Last(q) == i;
    NodeStep(t, pos[b].root, q);
    assert Node(t, pos[b].root, q) == t[b][i].pte.ppn;
  }

  lemma UnderChild(t: Tables, pos: map<nat, Place>, roots: set<nat>, b: nat, i: nat)
    requires TreeOk(t, pos, roots) && EntriesTyped(t, pos) && b in t && b in pos && i < ENTRIES && t[b][i].v
    requires |pos[b].path| < 2
    ensures var c := t[b][i].pte.ppn;
      && c in t && c in pos && |pos[c].path| == |pos[b].path| + 1 && pos[c].root == pos[b].root
      && UnderUpto(pos, b, i + 1) == UnderUpto(pos, b, i) + Under(pos, c)
      && Under(pos, c) !! UnderUpto(pos, b, i) && b !in Under(pos, c) && Under(pos, c) <= Under(pos, b)
  {
    hide NodesPlaced, PlacesReached, Node;
    ChildPlace(t, pos, roots, b, i);
    var c, n := t[b][i].pte.ppn, |pos[b].path|;
    forall d | d in pos ensures d in Under(pos, c) <==> d in Under(pos, b) && n < |pos[d].path| && pos[d].path[n] == i {
      if d in Under(pos, b) && n < |pos[d].path| && pos[d].path[n] == i {
        assert pos[d].path[..n + 1] == pos[b].path + [i];
      }
      if d in Under(pos, c) {
        assert pos[d].path[..n + 1] == pos[b].path + [i];
      }
    }
  }

  lemma NothingBelow(t: Tables, root: nat, p: Path, n: nat)
    requires Sized(t) && ValidPath(p) && n <= |p| && Node(t, root, p[..n]) == 0
    ensures Node(t, root, p) == 0
    decreases |p|
  {
    if n == |p| {
      assert p[..n] == p;
    } else {
      assert Init(p)[..n] == p[..n];
      NothingBelow(t, root, Init(p), n);
      NodeStep(t, root, p);
    }
  }

  lemma UnderMissing(t: Tables, pos: map<nat, Place>, roots: set<nat>, b: nat, i: nat)
    requires TreeOk(t, pos, roots) && b in t && b in pos && i < ENTRIES && !t[b][i].v
    ensures UnderUpto(pos, b, i + 1) == UnderUpto(pos, b, i)
  {
    hide Node;
    var n := |pos[b].path|;
    forall c | c in Under(pos, b) && n < |pos[c].path| && pos[c].path[n] == i ensures false {
      var q := pos[c].path[..n + 1];
      assert Init(q) == pos[b].path && Last(q) == i;
      NodeStep(t, pos[b].root, q);
      NothingBelow(t, pos[b].root, pos[c].path, n + 1);
    }
  }
}
