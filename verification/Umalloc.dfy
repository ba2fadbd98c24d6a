/**
 The Kernighan and Ritchie allocator of user/umalloc.c (section 8.7 of The C Programming
 Language, 2nd edition).

 Headers live at byte addresses and are linked into a circular list. Three ghost values
 describe the heap: `order`, the list from `base` on in address order; `blocks`, the size in
 units of every block, free or live; and `owner`, the one block that every byte obtained from
 `sbrk` belongs to. No byte is ever lost, and no byte is ever in two blocks.
 */
module Umalloc {

  /** sizeof(Header). */
  const UNIT := 16
  /** All of user memory comes out of the physical memory between KERNBASE and PHYSTOP. */
  const HEAPMAX := 0x800_0000

  datatype Header = Header(ptr: nat, size: nat)

  // ---- blocks tile the bytes obtained from sbrk ----

  predicate At(a: nat, n: nat, u: nat) {
    a <= u < a + UNIT * n
  }

  ghost predicate Tiled(blocks: map<nat, nat>, owner: map<nat, nat>) {
    && (forall a :: a in blocks ==> blocks[a] > 0)
    && (forall u :: u in owner ==> owner[u] in blocks && At(owner[u], blocks[owner[u]], u))
    && (forall a, u {:trigger At(a, blocks[a], u)} :: a in blocks && At(a, blocks[a], u) ==>
          u in owner && owner[u] == a)
  }

  /** Blocks never overlap. */
  lemma Disjoint(blocks: map<nat, nat>, owner: map<nat, nat>, a: nat, b: nat)
    requires Tiled(blocks, owner) && a in blocks && b in blocks && a < b
    ensures a + UNIT * blocks[a] <= b
  {
    assert At(b, blocks[b], b);
    if b < a + UNIT * blocks[a] {
      assert At(a, blocks[a], b);
    }
  }

  function Bytes(a: nat, n: nat, b: nat): (r: map<nat, nat>) {
    map u: nat | a <= u < a + UNIT * n && At(a, n, u) :: b
  }

  /** Block `b`, right after block `a`, becomes part of it. */
  function JoinedBlocks(blocks: map<nat, nat>, a: nat, b: nat): (r: map<nat, nat>)
    requires a in blocks && b in blocks
  {
    (blocks - {b})[a := blocks[a] + blocks[b]]
  }

  lemma JoinTiles(blocks: map<nat, nat>, owner: map<nat, nat>, a: nat, b: nat)
    requires Tiled(blocks, owner) && a in blocks && b in blocks && a + UNIT * blocks[a] == b
    ensures Tiled(JoinedBlocks(blocks, a, b), owner + Bytes(b, blocks[b], a))
    ensures (owner + Bytes(b, blocks[b], a)).Keys == owner.Keys
  {
    var k, o := JoinedBlocks(blocks, a, b), owner + Bytes(b, blocks[b], a);
    forall u | u in Bytes(b, blocks[b], a) ensures u in owner {
      assert At(b, blocks[b], u);
    }
    forall u | u in o ensures o[u] in k && At(o[u], k[o[u]], u) {
    }
    forall c, u | c in k && At(c, k[c], u) ensures u in o && o[u] == c {
      if c == a {
        assert At(a, blocks[a], u) || At(b, blocks[b], u);
      } else {
        assert At(c, blocks[c], u);
      }
    }
  }

  /** The last `n` units of block `a` become a block of their own. */
  function SplitBlocks(blocks: map<nat, nat>, a: nat, n: nat): (r: map<nat, nat>)
    requires a in blocks && n < blocks[a]
  {
    blocks[a := blocks[a] - n][a + UNIT * (blocks[a] - n) := n]
  }

  lemma SplitTiles(blocks: map<nat, nat>, owner: map<nat, nat>, a: nat, n: nat)
    requires Tiled(blocks, owner) && a in blocks && 0 < n < blocks[a]
    ensures var b := a + UNIT * (blocks[a] - n);
      && b !in blocks && Tiled(SplitBlocks(blocks, a, n), owner + Bytes(b, n, b))
      && (owner + Bytes(b, n, b)).Keys == owner.Keys
  {
    var b := a + UNIT * (blocks[a] - n);
    var k, o := SplitBlocks(blocks, a, n), owner + Bytes(b, n, b);
    if b in blocks {
      Disjoint(blocks, owner, a, b);
    }
    SplitBytes(blocks, owner, a, n);
    hide Bytes, At;
    forall u | u in o ensures o[u] in k && At(o[u], k[o[u]], u) {
      SplitPlace(blocks, owner, a, n, u);
    }
    forall c, u | c in k && At(c, k[c], u) ensures u in o && o[u] == c {
      SplitOwner(blocks, owner, a, n, c, u);
    }
  }

  lemma SplitBytes(blocks: map<nat, nat>, owner: map<nat, nat>, a: nat, n: nat)
    requires Tiled(blocks, owner) && a in blocks && 0 < n < blocks[a]
    ensures var b := a + UNIT * (blocks[a] - n); (owner + Bytes(b, n, b)).Keys == owner.Keys
  {
    var b := a + UNIT * (blocks[a] - n);
    forall u | u in Bytes(b, n, b) ensures u in owner {
      assert At(a, blocks[a], u);
    }
  }

  lemma SplitPlace(blocks: map<nat, nat>, owner: map<nat, nat>, a: nat, n: nat, u: nat)
    requires Tiled(blocks, owner) && a in blocks && 0 < n < blocks[a] && a + UNIT * (blocks[a] - n) !in blocks
    requires var b := a + UNIT * (blocks[a] - n); u in owner + Bytes(b, n, b)
    ensures var b := a + UNIT * (blocks[a] - n);
      var k, o := SplitBlocks(blocks, a, n), owner + Bytes(b, n, b);
      o[u] in k && At(o[u], k[o[u]], u)
  {
    var b := a + UNIT * (blocks[a] - n);
    if u !in Bytes(b, n, b) {
      assert At(owner[u], blocks[owner[u]], u);
      assert !At(b, n, u);
    }
  }

  lemma SplitOwner(blocks: map<nat, nat>, owner: map<nat, nat>, a: nat, n: nat, c: nat, u: nat)
    requires Tiled(blocks, owner) && a in blocks && 0 < n < blocks[a] && a + UNIT * (blocks[a] - n) !in blocks
    requires var k := SplitBlocks(blocks, a, n); c in k && At(c, k[c], u)
    ensures var b := a + UNIT * (blocks[a] - n); u in owner && (owner + Bytes(b, n, b))[u] == c
  {
    var b := a + UNIT * (blocks[a] - n);
    assert u in Bytes(b, n, b) <==> At(b, n, u);
    if c == a || c == b {
      assert At(a, blocks[a], u);
    } else {
      assert At(c, blocks[c], u);
      assert At(b, n, u) ==> At(a, blocks[a], u);
    }
  }

  /** Fresh memory behind everything is a block of its own. */
  lemma GrowTiles(blocks: map<nat, nat>, owner: map<nat, nat>, brk: nat, n: nat)
    requires Tiled(blocks, owner) && n > 0 && forall a :: a in blocks ==> a + UNIT * blocks[a] <= brk
    ensures brk !in blocks && Tiled(blocks[brk := n], owner + Bytes(brk, n, brk))
    ensures forall u :: u in owner ==> u < brk
  {
    var k, o := blocks[brk := n], owner + Bytes(brk, n, brk);
    forall u | u in owner ensures u < brk {
      assert At(owner[u], blocks[owner[u]], u);
    }
    forall c, u | c in k && At(c, k[c], u) ensures u in o && o[u] == c {
      if c != brk {
        assert At(c, blocks[c], u);
      }
    }
  }

  // ---- the free list ----

  predicate Ascending(s: seq<nat>) {
    forall i, j :: 0 <= i < j < |s| ==> s[i] < s[j]
  }

  /** There is something between free block `i` and the next one. */
  predicate Gap(order: seq<nat>, blocks: map<nat, nat>, i: nat)
    requires i + 1 < |order|
  {
    order[i] in blocks && order[i] + UNIT * blocks[order[i]] < order[i + 1]
  }

  /** `base`, then free blocks in address order; apart from the one after index `t`, no two neighbours touch. */
  ghost predicate ListBut(base: nat, order: seq<nat>, blocks: map<nat, nat>, t: int) {
    && |order| > 0 && order[0] == base && Ascending(order)
    && (forall i :: 1 <= i < |order| ==> order[i] in blocks)
    && (forall i {:trigger Gap(order, blocks, i)} :: 1 <= i < |order| - 1 && i != t ==> Gap(order, blocks, i))
  }

  ghost predicate ListOk(base: nat, order: seq<nat>, blocks: map<nat, nat>) {
    ListBut(base, order, blocks, -1)
  }

  function Succ(order: seq<nat>, i: nat): (r: nat)
    requires i < |order|
  {
    if i + 1 == |order| then order[0] else order[i + 1]
  }

  /** The pointers close the list into a ring, apart from the one at index `t`. */
  ghost predicate RingBut(headers: map<nat, Header>, order: seq<nat>, t: int) {
    && (forall i :: 0 <= i < |order| ==> order[i] in headers)
    && (forall i {:trigger Succ(order, i)} :: 0 <= i < |order| && i != t ==> headers[order[i]].ptr == Succ(order, i))
  }

  ghost predicate Ring(headers: map<nat, Header>, order: seq<nat>) {
    RingBut(headers, order, -1)
  }

  ghost predicate SizesMatch(headers: map<nat, Header>, base: nat, blocks: map<nat, nat>) {
    && base in headers && headers[base].size == 0
    && forall a :: a in blocks ==> a in headers && headers[a].size == blocks[a]
  }

  ghost predicate Bounds(base: nat, blocks: map<nat, nat>, brk: nat) {
    base + UNIT <= brk && forall a :: a in blocks ==> base + UNIT <= a && a + UNIT * blocks[a] <= brk
  }

  /** Fully coalesced: no free block ends where another one begins. */
  lemma FullyCoalesced(base: nat, order: seq<nat>, blocks: map<nat, nat>, i: nat, j: nat)
    requires ListOk(base, order, blocks) && 1 <= i < |order| && 1 <= j < |order|
    requires forall a :: a in blocks ==> blocks[a] > 0
    ensures order[i] + UNIT * blocks[order[i]] != order[j]
  {
    if i < j {
      assert Gap(order, blocks, i);
      if i + 1 < j {
        assert order[i + 1] < order[j];
      }
    } else if j < i {
      assert order[j] < order[i];
    }
  }

  /** No block is so large that adding its size to another overflows the 32-bit size field. */
  lemma SizesFit(base: nat, blocks: map<nat, nat>, brk: nat, a: nat)
    requires Bounds(base, blocks, brk) && a in blocks && brk <= HEAPMAX
    ensures blocks[a] < 0x80_0000
  {
  }

  // ---- linking a block in ----

  /** `t` is the place of `bp` in address order. */
  ghost predicate Fits(order: seq<nat>, t: nat, bp: nat) {
    t < |order| && order[t] < bp && (t + 1 < |order| ==> bp < order[t + 1])
  }

  function Inserted(order: seq<nat>, t: nat, bp: nat): (r: seq<nat>)
    requires t < |order|
  {
    order[..t + 1] + [bp] + order[t + 1..]
  }

  function Without(order: seq<nat>, j: nat): (r: seq<nat>)
    requires j < |order|
  {
    order[..j] + order[j + 1..]
  }

  lemma FitsBelow(order: seq<nat>, t: nat, bp: nat)
    requires Ascending(order) && Fits(order, t, bp)
    ensures forall i :: 0 <= i <= t ==> order[i] < bp
    ensures forall i :: t < i < |order| ==> bp < order[i]
  {
  }

  lemma InsertAscending(order: seq<nat>, t: nat, bp: nat)
    requires Ascending(order) && Fits(order, t, bp)
    ensures Ascending(Inserted(order, t, bp))
  {
    FitsBelow(order, t, bp);
  }

  /** Not touching the next free block: `bp` goes in between, its distance to `order[t]` still open. */
  lemma InsertList(base: nat, order: seq<nat>, blocks: map<nat, nat>, owner: map<nat, nat>, t: nat, bp: nat)
    requires ListOk(base, order, blocks) && Tiled(blocks, owner) && Fits(order, t, bp) && bp in blocks
    requires t + 1 < |order| ==> bp + UNIT * blocks[bp] != order[t + 1]
    ensures ListBut(base, Inserted(order, t, bp), blocks, t)
  {
    InsertAscending(order, t, bp);
    var o := Inserted(order, t, bp);
    forall i {:trigger Gap(o, blocks, i)} | 1 <= i < |o| - 1 && i != t ensures Gap(o, blocks, i) {
      if i < t {
        assert Gap(order, blocks, i);
      } else if i == t + 1 {
        Disjoint(blocks, owner, bp, order[t + 1]);
      } else {
        assert Gap(order, blocks, i - 1);
      }
    }
  }

  lemma InsertRing(headers: map<nat, Header>, order: seq<nat>, t: nat, bp: nat)
    requires Ring(headers, order) && t < |order| && bp !in order && bp in headers
    ensures RingBut(headers[bp := headers[bp].(ptr := Succ(order, t))], Inserted(order, t, bp), t)
  {
    var h, o := headers[bp := headers[bp].(ptr := Succ(order, t))], Inserted(order, t, bp);
    forall i {:trigger Succ(o, i)} | 0 <= i < |o| && i != t ensures h[o[i]].ptr == Succ(o, i) {
      if i < t {
        assert headers[order[i]].ptr == Succ(order, i);
      } else if i > t + 1 {
        assert headers[order[i - 1]].ptr == Succ(order, i - 1);
      }
    }
  }

  /** Touching the next free block `q`: `bp` takes its place and its units. */
  lemma AbsorbList(base: nat, order: seq<nat>, blocks: map<nat, nat>, t: nat, bp: nat)
    requires ListOk(base, order, blocks) && Fits(order, t, bp) && t + 1 < |order| && bp in blocks
    requires bp + UNIT * blocks[bp] == order[t + 1]
    ensures ListBut(base, order[t + 1 := bp], JoinedBlocks(blocks, bp, order[t + 1]), t)
  {
    var q, o := order[t + 1], order[t + 1 := bp];
    var k := JoinedBlocks(blocks, bp, q);
    FitsBelow(order, t, bp);
    forall i {:trigger Gap(o, k, i)} | 1 <= i < |o| - 1 && i != t ensures Gap(o, k, i) {
      assert Gap(order, blocks, i);
    }
  }

  lemma AbsorbRing(headers: map<nat, Header>, order: seq<nat>, t: nat, bp: nat, n: nat)
    requires Ring(headers, order) && t + 1 < |order| && bp !in order && bp in headers && Ascending(order)
    ensures RingBut(headers[bp := Header(headers[order[t + 1]].ptr, n)], order[t + 1 := bp], t)
  {
    var h, o := headers[bp := Header(headers[order[t + 1]].ptr, n)], order[t + 1 := bp];
    forall i {:trigger Succ(o, i)} | 0 <= i < |o| && i != t ensures h[o[i]].ptr == Succ(o, i) {
      assert headers[order[i]].ptr == Succ(order, i);
    }
  }

  /** Not touching the free block before: the pointer of `order[t]` completes the ring. */
  lemma LinkList(base: nat, order: seq<nat>, blocks: map<nat, nat>, owner: map<nat, nat>, t: nat)
    requires ListBut(base, order, blocks, t) && Tiled(blocks, owner) && t + 1 < |order|
    requires t > 0 ==> order[t] + UNIT * blocks[order[t]] != order[t + 1]
    ensures ListOk(base, order, blocks)
  {
    if t > 0 {
      Disjoint(blocks, owner, order[t], order[t + 1]);
      assert Gap(order, blocks, t);
    }
  }

  lemma LinkRing(headers: map<nat, Header>, order: seq<nat>, t: nat)
    requires RingBut(headers, order, t) && t + 1 < |order| && Ascending(order)
    ensures Ring(headers[order[t] := headers[order[t]].(ptr := order[t + 1])], order)
  {
    var h := headers[order[t] := headers[order[t]].(ptr := order[t + 1])];
    forall i {:trigger Succ(order, i)} | 0 <= i < |order| ensures h[order[i]].ptr == Succ(order, i) {
    }
  }

  // ---- taking a block out of the list ----

  lemma WithoutAscending(order: seq<nat>, j: nat)
    requires Ascending(order) && j < |order|
    ensures Ascending(Without(order, j))
  {
  }

  /** Touching the free block before: it takes over the units of `order[t + 1]`, which leaves the list. */
  lemma MergeList(base: nat, order: seq<nat>, blocks: map<nat, nat>, t: nat)
    requires ListBut(base, order, blocks, t) && 0 < t && t + 1 < |order|
    requires order[t] + UNIT * blocks[order[t]] == order[t + 1]
    ensures ListOk(base, Without(order, t + 1), JoinedBlocks(blocks, order[t], order[t + 1]))
  {
    var o, k := Without(order, t + 1), JoinedBlocks(blocks, order[t], order[t + 1]);
    WithoutAscending(order, t + 1);
    forall i {:trigger Gap(o, k, i)} | 1 <= i < |o| - 1 ensures Gap(o, k, i) {
      if i < t {
        assert Gap(order, blocks, i);
      } else {
        assert Gap(order, blocks, i + 1);
      }
    }
  }

  lemma WithoutRing(headers: map<nat, Header>, order: seq<nat>, j: nat, n: nat, t: int)
    requires RingBut(headers, order, t) && Ascending(order) && 0 < j < |order| && (t == -1 || t == j - 1)
    ensures Ring(headers[order[j - 1] := Header(headers[order[j]].ptr, n)], Without(order, j))
  {
    var h, o := headers[order[j - 1] := Header(headers[order[j]].ptr, n)], Without(order, j);
    assert headers[order[j]].ptr == Succ(order, j);
    forall i {:trigger Succ(o, i)} | 0 <= i < |o| ensures h[o[i]].ptr == Succ(o, i) {
      if i < j - 1 {
        assert headers[order[i]].ptr == Succ(order, i);
      } else if i >= j {
        assert headers[order[i + 1]].ptr == Succ(order, i + 1);
      }
    }
  }

  /** An exact fit leaves the list. */
  lemma TakeList(base: nat, order: seq<nat>, blocks: map<nat, nat>, j: nat)
    requires ListOk(base, order, blocks) && 0 < j < |order|
    ensures ListOk(base, Without(order, j), blocks)
  {
    var o := Without(order, j);
    WithoutAscending(order, j);
    forall i {:trigger Gap(o, blocks, i)} | 1 <= i < |o| - 1 ensures Gap(o, blocks, i) {
      if i < j {
        assert Gap(order, blocks, i);
        assert i == j - 1 ==> order[j] < order[j + 1];
      } else {
        assert Gap(order, blocks, i + 1);
      }
    }
  }

  /** A larger block stays, without its tail. */
  lemma TrimList(base: nat, order: seq<nat>, blocks: map<nat, nat>, j: nat, n: nat)
    requires ListOk(base, order, blocks) && 0 < j < |order| && 0 < n < blocks[order[j]]
    requires order[j] + UNIT * (blocks[order[j]] - n) !in blocks
    ensures ListOk(base, order, SplitBlocks(blocks, order[j], n))
  {
    var k := SplitBlocks(blocks, order[j], n);
    forall i {:trigger Gap(order, k, i)} | 1 <= i < |order| - 1 ensures Gap(order, k, i) {
      assert Gap(order, blocks, i);
      assert i != j ==> order[i] != order[j];
    }
  }

  // ---- the whole heap ----

  /** `HeapOk` apart from the pointer at, and the gap after, index `t`. */
  ghost predicate HeapBut(base: nat, headers: map<nat, Header>, order: seq<nat>, blocks: map<nat, nat>,
                          owner: map<nat, nat>,
                          brk: nat, t: int) {
    && base > 0 && Tiled(blocks, owner) && ListBut(base, order, blocks, t) && RingBut(headers, order, t)
    && SizesMatch(headers, base, blocks) && Bounds(base, blocks, brk)
  }

  ghost predicate HeapOk(base: nat, headers: map<nat, Header>, order: seq<nat>, blocks: map<nat, nat>,
                         owner: map<nat, nat>, brk: nat) {
    HeapBut(base, headers, order, blocks, owner, brk, -1)
  }

  /** The blocks that the program holds. */
  function LiveBlocks(order: seq<nat>, blocks: map<nat, nat>): (r: map<nat, nat>) {
    map a | a in blocks && a !in order :: blocks[a]
  }

  lemma InsertedHas(order: seq<nat>, t: nat, bp: nat)
    requires t < |order|
    ensures forall a :: a in Inserted(order, t, bp) <==> a in order || a == bp
  {
    assert order == order[..t + 1] + order[t + 1..];
  }

  lemma WithoutHas(order: seq<nat>, j: nat)
    requires Ascending(order) && j < |order|
    ensures forall a :: a in Without(order, j) <==> a in order && a != order[j]
  {
    assert order == order[..j] + [order[j]] + order[j + 1..];
    assert order[j] !in order[..j] && order[j] !in order[j + 1..];
  }

  lemma ReplacedHas(order: seq<nat>, j: nat, bp: nat)
    requires Ascending(order) && j < |order|
    ensures forall a :: a in order[j := bp] <==> (a in order && a != order[j]) || a == bp
  {
    var o := order[j := bp];
    forall a | (a in order && a != order[j]) || a == bp ensures a in o {
      if a == bp {
        assert o[j] == bp;
      } else {
        var i :| 0 <= i < |order| && order[i] == a;
        assert o[i] == a;
      }
    }
  }

  lemma HeadersHave(base: nat, headers: map<nat, Header>, order: seq<nat>, blocks: map<nat, nat>,
                    owner: map<nat, nat>, brk: nat, t: int)
    requires HeapBut(base, headers, order, blocks, owner, brk, t)
    ensures |order| > 0 && base == order[0] && forall a :: a in order ==> a in headers && (a == base || a in blocks)
    ensures forall a :: a in blocks ==> a in headers && a != base && a > base
  {
  }

  /** First half of `free`: the block after. */
  lemma AbsorbNext(base: nat, headers: map<nat, Header>, order: seq<nat>, blocks: map<nat, nat>, owner: map<nat, nat>,
                   brk: nat,
                   t: nat, bp: nat)
    requires HeapOk(base, headers, order, blocks, owner, brk) && Fits(order, t, bp) && bp in blocks && bp !in order
    requires bp + UNIT * blocks[bp] == Succ(order, t) && Succ(order, t) in headers && bp in headers
    ensures t + 1 < |order| && Succ(order, t) == order[t + 1] && order[t + 1] in blocks
    ensures var q := order[t + 1];
      var h := headers[bp := Header(headers[q].ptr, headers[bp].size + headers[q].size)];
      var o, k := order[t + 1 := bp], JoinedBlocks(blocks, bp, q);
      && HeapBut(base, h, o, k, owner + Bytes(q, blocks[q], bp), brk, t)
      && LiveBlocks(o, k) == LiveBlocks(order, blocks) - {bp}
      && (owner + Bytes(q, blocks[q], bp)).Keys == owner.Keys && k[bp] >= blocks[bp]
  {
    hide Tiled, Gap;
    HeadersHave(base, headers, order, blocks, owner, brk, -1);
    var q := order[t + 1];
    AbsorbList(base, order, blocks, t, bp);
    AbsorbRing(headers, order, t, bp, headers[bp].size + headers[q].size);
    JoinTiles(blocks, owner, bp, q);
    ReplacedHas(order, t + 1, bp);
  }

  lemma InsertNext(base: nat, headers: map<nat, Header>, order: seq<nat>, blocks: map<nat, nat>, owner: map<nat, nat>,
                   brk: nat,
                   t: nat, bp: nat)
    requires HeapOk(base, headers, order, blocks, owner, brk) && Fits(order, t, bp) && bp in blocks && bp !in order
    requires bp + UNIT * blocks[bp] != Succ(order, t) && bp in headers
    ensures var h, o := headers[bp := headers[bp].(ptr := Succ(order, t))], Inserted(order, t, bp);
      HeapBut(base, h, o, blocks, owner, brk, t) && LiveBlocks(o, blocks) == LiveBlocks(order, blocks) - {bp}
  {
    hide Tiled, Gap;
    InsertList(base, order, blocks, owner, t, bp);
    InsertRing(headers, order, t, bp);
    InsertedHas(order, t, bp);
  }

  /** Second half: the block before. */
  lemma MergePrevious(base: nat, headers: map<nat, Header>, order: seq<nat>, blocks: map<nat, nat>,
                      owner: map<nat, nat>, brk: nat, t: nat)
    requires HeapBut(base, headers, order, blocks, owner, brk, t) && t + 1 < |order| && order[t] in headers
    requires order[t + 1] in headers
    requires order[t] + UNIT * headers[order[t]].size == order[t + 1]
    ensures order[t] in blocks && order[t + 1] in blocks
    ensures var p, bp := order[t], order[t + 1];
      var h := headers[p := Header(headers[bp].ptr, headers[p].size + headers[bp].size)];
      var o, k := Without(order, t + 1), JoinedBlocks(blocks, p, bp);
      && HeapOk(base, h, o, k, owner + Bytes(bp, blocks[bp], p), brk) && LiveBlocks(o, k) == LiveBlocks(order, blocks)
      && (owner + Bytes(bp, blocks[bp], p)).Keys == owner.Keys && p in o && HasFree(o, k, blocks[bp])
  {
    hide Tiled, Gap;
    HeadersHave(base, headers, order, blocks, owner, brk, t);
    var p, bp := order[t], order[t + 1];
    assert t > 0;
    MergeList(base, order, blocks, t);
    WithoutRing(headers, order, t + 1, headers[p].size + headers[bp].size, t);
    JoinTiles(blocks, owner, p, bp);
    WithoutHas(order, t + 1);
    assert Without(order, t + 1)[t] == p;
  }

  lemma MergeReady(base: nat, headers: map<nat, Header>, order: seq<nat>, blocks: map<nat, nat>,
                   owner: map<nat, nat>, brk: nat, t: nat)
    requires HeapBut(base, headers, order, blocks, owner, brk, t) && t + 1 < |order| && order[t] in headers
    requires order[t] + UNIT * headers[order[t]].size == order[t + 1]
    ensures t > 0 && order[t] in blocks && blocks[order[t]] == headers[order[t]].size
  {
    hide Tiled, Gap;
    HeadersHave(base, headers, order, blocks, owner, brk, t);
    assert order[t] in order;
  }

  lemma LinkPrevious(base: nat, headers: map<nat, Header>, order: seq<nat>, blocks: map<nat, nat>,
                     owner: map<nat, nat>, brk: nat, t: nat)
    requires HeapBut(base, headers, order, blocks, owner, brk, t) && t + 1 < |order| && order[t] in headers
    requires order[t] + UNIT * headers[order[t]].size != order[t + 1]
    ensures HeapOk(base, headers[order[t] := headers[order[t]].(ptr := order[t + 1])], order, blocks, owner, brk)
    ensures order[t + 1] in blocks && HasFree(order, blocks, blocks[order[t + 1]])
  {
    hide Tiled, Gap;
    LinkList(base, order, blocks, owner, t);
    LinkRing(headers, order, t);
  }

  ghost predicate HasFree(order: seq<nat>, blocks: map<nat, nat>, n: nat) {
    exists i :: 1 <= i < |order| && order[i] in blocks && blocks[order[i]] >= n
  }

  lemma HasFreeLess(order: seq<nat>, blocks: map<nat, nat>, n: nat, m: nat)
    requires HasFree(order, blocks, n) && m <= n
    ensures HasFree(order, blocks, m)
  {
  }

  // ---- what becomes of the other free blocks ----

  /** The block at `a`, of `n` units, holds the one at `bp` of `size` units. */
  predicate Covers(a: nat, n: nat, bp: nat, size: nat) {
    a <= bp && bp + UNIT * size <= a + UNIT * n
  }

  predicate KeptAt(order0: seq<nat>, blocks0: map<nat, nat>, a: nat, blocks: map<nat, nat>, bp: nat, size: nat) {
    a in blocks && ((a in order0 && a in blocks0 && blocks[a] == blocks0[a]) || Covers(a, blocks[a], bp, size))
  }

  /** Every free block was free before and is as large as before, or holds the block at `bp`. */
  ghost predicate Kept(order0: seq<nat>, blocks0: map<nat, nat>, order: seq<nat>, blocks: map<nat, nat>, bp: nat,
                       size: nat) {
    forall i :: 1 <= i < |order| ==> KeptAt(order0, blocks0, order[i], blocks, bp, size)
  }

  lemma KeptTwice(order0: seq<nat>, blocks0: map<nat, nat>, order1: seq<nat>, blocks1: map<nat, nat>, order: seq<nat>,
                  blocks: map<nat, nat>, bp: nat, size: nat, size1: nat)
    requires Kept(order0, blocks0, order1, blocks1, bp, size) && Kept(order1, blocks1, order, blocks, bp, size1)
    requires size <= size1 && order1 != [] && order != [] && order1[0] == order[0] && Ascending(order)
    ensures Kept(order0, blocks0, order, blocks, bp, size)
  {
    forall i | 1 <= i < |order| ensures KeptAt(order0, blocks0, order[i], blocks, bp, size) {
      assert KeptAt(order1, blocks1, order[i], blocks, bp, size1);
      if order[i] in order1 && !Covers(order[i], blocks[order[i]], bp, size1) {
        var j :| 0 <= j < |order1| && order1[j] == order[i];
        assert KeptAt(order0, blocks0, order1[j], blocks1, bp, size);
      }
    }
  }

  lemma InsertKept(base: nat, order: seq<nat>, blocks: map<nat, nat>, t: nat, bp: nat)
    requires ListOk(base, order, blocks) && t < |order| && bp in blocks
    ensures Kept(order, blocks, Inserted(order, t, bp), blocks, bp, blocks[bp])
  {
    hide Gap;
    InsertedHas(order, t, bp);
    var o := Inserted(order, t, bp);
    forall i | 1 <= i < |o| ensures KeptAt(order, blocks, o[i], blocks, bp, blocks[bp]) {
      assert o[i] == if i <= t then order[i] else if i == t + 1 then bp else order[i - 1];
    }
  }

  lemma AbsorbKept(base: nat, order: seq<nat>, blocks: map<nat, nat>, t: nat, bp: nat)
    requires ListOk(base, order, blocks) && t + 1 < |order| && bp in blocks && bp !in order
    ensures Kept(order, blocks, order[t + 1 := bp], JoinedBlocks(blocks, bp, order[t + 1]), bp, blocks[bp])
  {
    hide Gap;
  }

  lemma MergeKept(base: nat, order: seq<nat>, blocks: map<nat, nat>, t: nat)
    requires ListBut(base, order, blocks, t) && 0 < t && t + 1 < |order|
    requires order[t] + UNIT * blocks[order[t]] == order[t + 1]
    ensures var bp := order[t + 1];
      Kept(order, blocks, Without(order, t + 1), JoinedBlocks(blocks, order[t], bp), bp, blocks[bp])
  {
    hide Gap;
    var o, k, bp := Without(order, t + 1), JoinedBlocks(blocks, order[t], order[t + 1]), order[t + 1];
    forall i | 1 <= i < |o| ensures KeptAt(order, blocks, o[i], k, bp, blocks[bp]) {
      assert o[i] == if i <= t then order[i] else order[i + 1];
    }
  }

  lemma AllKept(base: nat, order: seq<nat>, blocks: map<nat, nat>, t: int, bp: nat, size: nat)
    requires ListBut(base, order, blocks, t)
    ensures Kept(order, blocks, order, blocks, bp, size)
  {
    hide Gap;
  }

  // ---- searching ----

  /** Steps along the ring from index `j` to index `t`. */
  function Distance(n: nat, j: nat, t: nat): (r: nat)
    requires j < n && t < n
    ensures r < n
  {
    if j <= t then t - j else t + n - j
  }

  lemma {:induction false} PlaceExists(order: seq<nat>, bp: nat) returns (t: nat)
    requires |order| > 0 && Ascending(order) && order[0] < bp && bp !in order
    ensures Fits(order, t, bp)
  {
    t := 0;
    while t + 1 < |order| && order[t + 1] < bp
      invariant t < |order| && order[t] < bp
    {
      t := t + 1;
    }
    assert t + 1 < |order| ==> order[t + 1] in order;
  }

  /** The exits of the search loop of `free` are reached at the place of `bp` and nowhere else. */
  lemma SearchStops(order: seq<nat>, j: nat, bp: nat)
    requires |order| > 0 && Ascending(order) && order[0] < bp && bp !in order && j < |order|
    ensures var p, q := order[j], Succ(order, j);
      Fits(order, j, bp) <==> (bp > p && bp < q) || (p >= q && (bp > p || bp < q))
  {
    assert j + 1 < |order| ==> order[j + 1] in order;
  }

  lemma NextIndex(headers: map<nat, Header>, order: seq<nat>, j: nat)
    requires Ring(headers, order) && j < |order|
    ensures order[j] in headers && headers[order[j]].ptr == Succ(order, j)
    ensures Succ(order, j) == order[if j + 1 == |order| then 0 else j + 1]
  {
  }

  class Heap {
    const base: nat
    var headers: map<nat, Header>
    var freep: nat
    var brk: nat
    ghost var top: nat
    ghost var order: seq<nat>
    ghost var blocks: map<nat, nat>
    ghost var owner: map<nat, nat>

    /** A program that has not called `malloc` yet. */
    constructor (base: nat, brk: nat)
      requires 0 < base && base + UNIT <= brk <= HEAPMAX
      ensures Valid() && Live() == map[] && this.base == base && this.brk == brk
    {
      this.base, this.brk, headers, freep := base, brk, map[], 0;
      top, order, blocks, owner := brk, [], map[], map[];
    }

    /** The list exists once `malloc` has been called. */
    ghost predicate Ready()
      reads this
    {
      HeapOk(base, headers, order, blocks, owner, top) && freep in order
    }

    ghost function Live(): map<nat, nat>
      reads this
    {
      LiveBlocks(order, blocks)
    }

    /** The search loop of `free`. It always ends, at the free block before `bp`. */
    method FindPlace(bp: nat) returns (p: nat, ghost t: nat)
      requires Ready() && bp in Live()
      ensures Fits(order, t, bp) && p == order[t]
    {
      hide Tiled, Gap, Fits, ListBut, Ring, RingBut;
      HeadersHave(base, headers, order, blocks, owner, top, -1);
      OrderAscends(base, order, blocks);
      t := PlaceExists(order, bp);
      ghost var j :| 0 <= j < |order| && order[j] == freep;
      p := freep;
      IndexOfPlace(order, t, bp);
      while !(bp > p && bp < headers[p].ptr)
        invariant 0 <= j < |order| && p == order[j] && p in headers
        invariant t < |order|
        decreases Distance(|order|, j, t)
      {
        NextIndex(headers, order, j);
        SearchStops(order, j, bp);
        if p >= headers[p].ptr && (bp > p || bp < headers[p].ptr) {
          break;
        }
        p := headers[p].ptr;
        j := if j + 1 == |order| then 0 else j + 1;
      }
      NextIndex(headers, order, j);
      SearchStops(order, j, bp);
      t := j;
    }

    /** `free`: the block joins the free list and whatever free block it touches; nothing else changes hands. */
    method Free(ap: nat)
      requires Ready() && ap >= UNIT && ap - UNIT in Live()
      modifies `headers, `freep, `order, `blocks, `owner
      ensures Ready() && Live() == old(Live()) - {ap - UNIT} && owner.Keys == old(owner).Keys
      ensures HasFree(order, blocks, old(Live())[ap - UNIT])
      ensures Kept(old(order), old(blocks), order, blocks, ap - UNIT, old(Live())[ap - UNIT])
      ensures exists t: nat :: Fits(old(order), t, ap - UNIT) && freep == old(order)[t]
    {
      hide HeapBut, LiveBlocks, Fits, HasFree, Kept;
      var bp := ap - UNIT;
      LiveIs(order, blocks, bp);
      var p, t := FindPlace(bp);
      JoinNext(p, bp, t);
      ghost var size, order1, blocks1 := blocks[bp], order, blocks;
      OrderFirst(base, headers, order, blocks, owner, top, t);
      JoinPrevious(p, bp, t);
      OrderFirst(base, headers, order, blocks, owner, top, -1);
      HasFreeLess(order, blocks, size, old(Live())[bp]);
      KeptTwice(old(order), old(blocks), order1, blocks1, order, blocks, bp, old(Live())[bp], size);
      freep := p;
    }

    /** The first half of `free`: the block points to the free block after it, or swallows it. */
    method JoinNext(p: nat, bp: nat, ghost t: nat)
      requires Ready() && bp in Live() && Fits(order, t, bp) && p == order[t]
      modifies `headers, `order, `blocks, `owner
      ensures HeapBut(base, headers, order, blocks, owner, top, t) && t + 1 < |order| && order[t] == p
      ensures order[t + 1] == bp
      ensures Live() == old(Live()) - {bp} && owner.Keys == old(owner).Keys && bp in blocks
      ensures blocks[bp] >= old(Live())[bp] && Kept(old(order), old(blocks), order, blocks, bp, old(Live())[bp])
    {
      hide HeapBut, LiveBlocks, Fits, Inserted, Without, Bytes, Kept, ListBut;
      LiveIs(order, blocks, bp);
      OrderFirst(base, headers, order, blocks, owner, top, -1);
      PlaceReady(base, headers, order, blocks, owner, top, t, bp);
      var q := headers[p].ptr;
      if bp + UNIT * headers[bp].size == q {
        AbsorbNext(base, headers, order, blocks, owner, top, t, bp);
        AbsorbKept(base, order, blocks, t, bp);
        headers := headers[bp := Header(headers[q].ptr, headers[bp].size + headers[q].size)];
        owner := owner + Bytes(q, blocks[q], bp);
        blocks := JoinedBlocks(blocks, bp, q);
        order := order[t + 1 := bp];
      } else {
        InsertNext(base, headers, order, blocks, owner, top, t, bp);
        InsertKept(base, order, blocks, t, bp);
        InsertedAt(order, t, bp);
        headers := headers[bp := headers[bp].(ptr := q)];
        order := Inserted(order, t, bp);
      }
    }

    /** The second half: the free block before it points to the block, or swallows it. */
    method JoinPrevious(p: nat, bp: nat, ghost t: nat)
      requires HeapBut(base, headers, order, blocks, owner, top, t) && t + 1 < |order| && order[t] == p
      requires order[t + 1] == bp
      requires bp in blocks
      modifies `headers, `order, `blocks, `owner
      ensures HeapOk(base, headers, order, blocks, owner, top) && p in order
      ensures Live() == old(Live()) && owner.Keys == old(owner).Keys && HasFree(order, blocks, old(blocks)[bp])
      ensures Kept(old(order), old(blocks), order, blocks, bp, old(blocks)[bp])
    {
      hide HeapBut, LiveBlocks, Without, JoinedBlocks, Bytes, HasFree, Kept, ListBut;
      OrderFirst(base, headers, order, blocks, owner, top, t);
      AllKept(base, order, blocks, t, bp, blocks[bp]);
      HeadersHave(base, headers, order, blocks, owner, top, t);
      assert order[t] in order && order[t + 1] in order;
      if p + UNIT * headers[p].size == bp {
        MergePrevious(base, headers, order, blocks, owner, top, t);
        MergeReady(base, headers, order, blocks, owner, top, t);
        MergeKept(base, order, blocks, t);
        headers := headers[p := Header(headers[bp].ptr, headers[p].size + headers[bp].size)];
        owner := owner + Bytes(bp, blocks[bp], p);
        blocks := JoinedBlocks(blocks, p, bp);
        order := Without(order, t + 1);
      } else {
        LinkPrevious(base, headers, order, blocks, owner, top, t);
        headers := headers[p := headers[p].(ptr := bp)];
      }
    }

    /** Between calls: the allocator's memory ends at the break. */
    ghost predicate Valid()
      reads this
    {
      && top == brk <= HEAPMAX
      && if freep == 0 then base > 0 && order == [] && blocks == map[] && owner == map[]
      && base + UNIT <= brk else Ready()
    }

    /** `sbrk`: growing needs memory; shrinking below 0 changes nothing, and succeeds like any other. */
    method Sbrk(n: int, granted: bool) returns (p: int)
      modifies `brk
      ensures p == if n > 0 && !(granted && old(brk) + n <= HEAPMAX) then -1 else old(brk)
      ensures brk == if p == -1 || old(brk) + n < 0 then old(brk) else old(brk) + n
    {
      p := brk;
      if n > 0 {
        if !(granted && brk + n <= HEAPMAX) {
          return -1;
        }
        brk := brk + n;
      } else if n < 0 && brk + n >= 0 {
        brk := brk + n;
      }
    }

    /**
     `morecore`: at least 4096 units more, in a free block that is large enough; 0 and no change if
     the kernel refuses; -1 if the new header is not on a page of the program, which is then killed.
     */
    method Morecore(nu: nat, granted: bool) returns (p: int)
      requires Ready() && top == brk <= HEAPMAX && 0 < nu <= LARGEST
      modifies `headers, `freep, `order, `blocks, `owner, `brk, `top
      ensures Ready() && Live() == old(Live()) && brk <= HEAPMAX && (nu < TOO_LARGE ==> top == brk)
      ensures p <= 0 ==> headers == old(headers) && freep == old(freep) && order == old(order) && blocks == old(blocks)
      ensures p <= 0 ==> owner == old(owner) && top == old(top)
      ensures p == 0 <==> Refused(nu, old(brk), granted)
      ensures p == 0 ==> brk == old(brk)
      ensures p != 0 ==> brk == BrkAfter(nu, old(brk))
      ensures p == -1 <==> !Refused(nu, old(brk), granted) && Faults(old(brk), BrkAfter(nu, old(brk)))
      ensures p == -1 ==> TOO_LARGE <= nu < LARGEST
      ensures p == -1 || p >= 0
      ensures p > 0 ==> p == freep && HasFree(order, blocks, nu)
      ensures p > 0 ==> Extended(old(owner), old(brk), owner, top, Request(nu))
      ensures p > 0 && !HasFree(old(order), old(blocks), nu) ==> OnlyLast(order, blocks, nu, top)
    {
      hide HeapBut, LiveBlocks, HasFree, Bytes, Kept, OnlyLast;
      var n := if nu < 4096 then 4096 else nu;
      RequestFits(n);
      var b := Sbrk(ToInt32(UNIT * n), granted);
      if b == -1 {
        return 0;
      }
      var hp: nat := b;
      if Faults(hp, brk) {
        return -1;
      }
      CoreAdded(base, headers, order, blocks, owner, hp, n);
      NotListed(base, headers, order, blocks, owner, hp);
      headers := headers[hp := Header(0, n)];
      blocks := blocks[hp := n];
      owner := owner + Bytes(hp, n, hp);
      top := hp + UNIT * n;
      ghost var blocks1 := blocks;
      Free(hp + UNIT);
      HasFreeLess(order, blocks, n, nu);
      KeptLast(base, headers, old(order), old(blocks), blocks1, order, blocks, owner, top, hp, n, nu);
      BytesKeys(hp, n, hp, 0);
      ListedNotNull(base, headers, order, blocks, owner, top, freep);
      p := freep;
    }

    /** An exact fit leaves the list; otherwise the tail of the block is split off. */
    method TakeFrom(p: nat, prevp: nat, ghost i: nat, nunits: nat) returns (bp: nat)
      requires Ready() && 0 < i < |order| && p == order[i] && prevp == order[i - 1] && p in headers
      requires headers[p].size >= nunits > 0
      modifies `headers, `freep, `order, `blocks, `owner
      ensures Ready() && bp !in old(Live()) && Live() == old(Live())[bp := nunits] && owner.Keys == old(owner).Keys
      ensures bp + UNIT * nunits == p + UNIT * old(headers)[p].size && freep == prevp
    {
      hide HeapBut, LiveBlocks, Without, SplitBlocks, Bytes;
      HeadersHave(base, headers, order, blocks, owner, top, -1);
      assert order[i - 1] in order;
      if headers[p].size == nunits {
        TakeWhole(base, headers, order, blocks, owner, top, i);
        headers := headers[prevp := headers[prevp].(ptr := headers[p].ptr)];
        order := Without(order, i);
        bp := p;
      } else {
        TakeTail(base, headers, order, blocks, owner, top, i, nunits);
        headers := headers[p := headers[p].(size := headers[p].size - nunits)];
        bp := p + UNIT * headers[p].size;
        headers := headers[bp := Header(if bp in headers then headers[bp].ptr else 0, nunits)];
        blocks := SplitBlocks(blocks, p, nunits);
        owner := owner + Bytes(bp, nunits, bp);
      }
      freep := prevp;
    }

    /**
     `malloc`: a block that was nobody's, of the fewest units `n` that hold `nbytes`, or 0 when no free
     block is large enough and the kernel refuses more. It is the end of the first large enough block
     after the one where the search before it ended; if there is none, `sbrk` is called, once, and it is
     the end of the heap. The block lies below the break exactly when it is of less than 2^27 units; a
     larger one is handed out all the same, unless writing its header kills the program.
     */
    method Malloc(nbytes: nat, granted: bool) returns (ap: int, ghost n: nat)
      requires Valid() && nbytes < 0x1_0000_0000
      modifies `headers, `freep, `order, `blocks, `owner, `brk, `top
      ensures Smallest(n, nbytes) && Ready() && (n < TOO_LARGE ==> Valid())
      ensures ap <= 0 ==> Live() == old(Live()) && owner == old(owner) && top == old(top)
      ensures ap == 0 <==> !HasFree(old(order), old(blocks), n) && Refused(n, old(brk), granted)
      ensures ap == 0 ==> brk == old(brk)
      ensures ap == -1 <==> !HasFree(old(order), old(blocks), n) && !Refused(n, old(brk), granted)
                            && Faults(old(brk), BrkAfter(n, old(brk)))
      ensures ap == -1 ==> TOO_LARGE <= n < LARGEST
      ensures ap != 0 ==> brk == if HasFree(old(order), old(blocks), n) then old(brk) else BrkAfter(n, old(brk))
      ensures ap <= -1 ==> ap == -1
      ensures ap > 0 ==> ap >= UNIT && ap - UNIT !in old(Live()) && Live() == old(Live())[ap - UNIT := n]
      ensures ap > 0 ==> (ap - UNIT + UNIT * n <= brk <==> n < TOO_LARGE)
      ensures ap > 0 ==>
        if HasFree(old(order), old(blocks), n) then
          && NextFit(old(order), old(blocks), old(freep), n, ap - UNIT, freep)
          && Extended(old(owner), old(brk), owner, top, 0)
        else ap - UNIT + UNIT * n == top && Extended(old(owner), old(brk), owner, top, Request(n))
    {
      hide HeapBut, LiveBlocks, HasFree, Extended, Waiting, Seen, Refused, NextFit, FirstFit, Smallest, OnlyLast;
      var nunits := (nbytes + UNIT - 1) / UNIT + 1;
      UnitsSmallest(nbytes);
      n := nunits;
      if freep == 0 {
        StartList();
      }
      ap := Search(nunits, granted);
      if ap > 0 {
        LiveBelow(base, headers, order, blocks, owner, top, ap - UNIT);
      }
    }

    /** The first call of `malloc`. */
    method StartList()
      requires Valid() && freep == 0
      modifies `headers, `freep, `order
      ensures Ready() && freep != 0 && Live() == old(Live())
      ensures forall n :: !HasFree(order, blocks, n) && !HasFree(old(order), old(blocks), n)
    {
      EmptyHeap(base, headers, top);
      headers := headers[base := Header(base, 0)];
      freep := base;
      order := [base];
    }

    /** The loop of `malloc`: once around the list, and after `morecore` once more at most. */
    method Search(nunits: nat, granted: bool) returns (ap: int)
      requires Ready() && top == brk <= HEAPMAX && 0 < nunits <= LARGEST
      modifies `headers, `freep, `order, `blocks, `owner, `brk, `top
      ensures Ready() && freep != 0 && brk <= HEAPMAX && (nunits < TOO_LARGE ==> top == brk)
      ensures ap <= 0 ==> Live() == old(Live()) && owner == old(owner) && top == old(top)
      ensures ap == 0 <==> !HasFree(old(order), old(blocks), nunits) && Refused(nunits, old(brk), granted)
      ensures ap == 0 ==> brk == old(brk)
      ensures ap == -1 <==> !HasFree(old(order), old(blocks), nunits) && !Refused(nunits, old(brk), granted)
                            && Faults(old(brk), BrkAfter(nunits, old(brk)))
      ensures ap == -1 ==> TOO_LARGE <= nunits < LARGEST
      ensures ap != 0 ==>
        brk == if HasFree(old(order), old(blocks), nunits) then old(brk) else BrkAfter(nunits, old(brk))
      ensures ap == -1 || ap >= 0
      ensures ap > 0 ==> ap >= UNIT && ap - UNIT !in old(Live()) && Live() == old(Live())[ap - UNIT := nunits]
      ensures ap > 0 ==>
        if HasFree(old(order), old(blocks), nunits) then
          && NextFit(old(order), old(blocks), old(freep), nunits, ap - UNIT, freep)
          && Extended(old(owner), old(brk), owner, top, 0)
        else ap - UNIT + UNIT * nunits == top && Extended(old(owner), old(brk), owner, top, Request(nunits))
    {
      hide HeapBut, LiveBlocks, HasFree, Extended, Distance, Waiting, Seen, Succ, Request, Refused, Faults;
      hide NextFit, FirstFit, OnlyLast, BrkAfter;
      ghost var order0, blocks0, live0 := order, blocks, Live();
      NotExtended(owner, top);
      var prevp := freep;
      ghost var j: nat :| j < |order| && order[j] == freep;
      ghost var f, grown := j, false;
      HeadersHave(base, headers, order, blocks, owner, top, -1);
      RingStep(base, headers, order, blocks, owner, top, j);
      var p := headers[prevp].ptr;
      SeenNone(headers, order, f, nunits);
      while true
        invariant Ready() && Live() == live0 && 0 <= j < |order| && prevp == order[j] && 0 <= f < |order|
        invariant freep == order[f]
        invariant p == order[After(|order|, j)] && p in headers
        invariant !grown ==> order == order0 && blocks == blocks0 && owner == old(owner) && top == brk == old(brk)
        invariant !grown ==> Seen(headers, order, f, After(|order|, j), nunits)
        invariant brk <= HEAPMAX && (nunits < TOO_LARGE ==> top == brk)
        invariant grown ==> Waiting(headers, order, f, After(|order|, j), nunits) && !HasFree(order0, blocks0, nunits)
        invariant grown ==> !Refused(nunits, old(brk), granted) && OnlyLast(order, blocks, nunits, top)
        invariant grown ==> brk == BrkAfter(nunits, old(brk)) && !Faults(old(brk), BrkAfter(nunits, old(brk)))
        invariant !grown ==> freep == old(freep)
        invariant Extended(old(owner), old(brk), owner, top, if grown then Request(nunits) else 0)
        decreases !grown, |order| - Distance(|order|, After(|order|, f), After(|order|, j))
      {
        ghost var i := After(|order|, j);
        if headers[p].size >= nunits {
          NotBase(base, headers, order, blocks, owner, top, i, j, nunits);
          FoundFree(base, headers, order, blocks, owner, top, i, nunits);
          ghost var owner1 := owner;
          if grown {
            TakenLast(base, headers, order, blocks, owner, top, i, nunits);
          } else {
            SeenFirst(base, headers, order, blocks, owner, top, f, i, nunits,
                      order[i] + UNIT * (headers[order[i]].size - nunits));
          }
          var bp := TakeFrom(p, prevp, i, nunits);
          ListedNotNull(base, headers, order, blocks, owner, top, freep);
          ExtendedSame(old(owner), old(brk), owner1, owner, top, if grown then Request(nunits) else 0);
          return bp + UNIT;
        }
        if p == freep {
          SameIndex(base, headers, order, blocks, owner, top, i, f);
          if grown {
            WaitingOver(headers, order, f, nunits);
            assert false;
          }
          SeenAll(base, headers, order, blocks, owner, top, f, nunits);
          var more := Morecore(nunits, granted);
          if more <= 0 {
            ListedNotNull(base, headers, order, blocks, owner, top, freep);
            return more;
          }
          p := more;
          grown := true;
          f :| 0 <= f < |order| && order[f] == freep;
          j := f;
          BigWaiting(base, headers, order, blocks, owner, top, f, nunits);
        } else {
          StepOn(headers, order, f, i, nunits);
          j := i;
        }
        prevp := p;
        HeadersHave(base, headers, order, blocks, owner, top, -1);
        RingStep(base, headers, order, blocks, owner, top, j);
        p := headers[p].ptr;
      }
    }
  }

  /** The 64-bit product passed to `sbrk(int)`. */
  function ToInt32(x: nat): (r: int) {
    var y := x % 0x1_0000_0000;
    if y < 0x8000_0000 then y else y - 0x1_0000_0000
  }

  /** From 2^27 units on the size in bytes is no `int`; no request is larger than 2^28 + 1 units. */
  const TOO_LARGE := 0x800_0000
  const LARGEST := 0x1000_0001

  /**
   What `sbrk` is asked for: what is meant exactly below 2^27 units, then less than nothing, nothing, and at
   last 16 bytes.
   */
  lemma RequestFits(nu: nat)
    ensures ToInt32(UNIT * nu) == UNIT * nu <==> nu < TOO_LARGE
    ensures TOO_LARGE <= nu < 0x1000_0000 ==> ToInt32(UNIT * nu) < 0
    ensures nu == 0x1000_0000 ==> ToInt32(UNIT * nu) == 0
    ensures nu == LARGEST ==> ToInt32(UNIT * nu) == UNIT
  {
  }

  /** The kernel has no memory for the request as it arrives. */
  predicate Refused(nu: nat, brk: nat, granted: bool) {
    var n := ToInt32(UNIT * Request(nu));
    n > 0 && !(granted && brk + n <= HEAPMAX)
  }

  /** The break after `sbrk` granted the request as it arrives. */
  function BrkAfter(nu: nat, brk: nat): (r: nat) {
    var n := ToInt32(UNIT * Request(nu));
    if brk + n < 0 then brk else brk + n
  }

  /** The fields of a header at `a` are not on a page below the break. */
  predicate Faults(a: nat, brk: nat) {
    a + 12 > (brk + 4095) / 4096 * 4096
  }

  /** Some byte of the fields, of 8 and 4 bytes, is on a page that begins at or beyond the break. */
  lemma FaultsExactly(a: nat, brk: nat)
    ensures Faults(a, brk) <==> exists u: nat {:trigger PageOf(u)} :: a <= u < a + 8 + 4 && PageOf(u) * 4096 >= brk
  {
    var u := a + 11;
    assert Faults(a, brk) ==> PageOf(u) * 4096 >= brk;
  }

  function PageOf(u: nat): (r: nat) {
    u / 4096
  }

  /**
   malloc(0xFFFFFFFF): 16 bytes come from `sbrk`, and a block of 4 GiB that ends far beyond the break is
   handed out.
   */
  method HugeRequest(base: nat, brk: nat) returns (h: Heap, ap: int)
    requires 0 < base && base + UNIT <= brk && brk + UNIT <= HEAPMAX
    ensures ap > 0 && ap - UNIT in h.Live() && h.Live()[ap - UNIT] == LARGEST
    ensures ap - UNIT + UNIT * h.Live()[ap - UNIT] > h.brk
  {
    hide HeapBut, HasFree, Extended;
    h := new Heap(base, brk);
    RequestFits(LARGEST);
    ghost var n;
    ap, n := h.Malloc(0xFFFF_FFFF, true);
    assert Holds(LARGEST, 0xFFFF_FFFF) && !Holds(LARGEST - 1, 0xFFFF_FFFF);
  }

  function Request(nu: nat): (r: nat) {
    if nu < 4096 then 4096 else nu
  }

  // ---- malloc, on values ----

  /** `n` units are the fewest that hold a header and `nbytes` bytes. */
  ghost predicate Smallest(n: nat, nbytes: nat) {
    Holds(n, nbytes) && forall m: nat :: Holds(m, nbytes) ==> n <= m
  }

  predicate Holds(n: nat, nbytes: nat) {
    n > 0 && UNIT * (n - 1) >= nbytes
  }

  lemma UnitsSmallest(nbytes: nat)
    ensures Smallest((nbytes + UNIT - 1) / UNIT + 1, nbytes)
  {
  }

  lemma SmallestIsOne(n: nat, m: nat, nbytes: nat)
    requires Smallest(n, nbytes)
    ensures Smallest(m, nbytes) <==> m == n
    ensures nbytes == 0 <==> n == 1
    ensures nbytes > 0 ==> UNIT * (n - 2) < nbytes
  {
    if n > 1 {
      assert !Holds(n - 1, nbytes);
    }
  }

  /**
   The list, from the block after index `f` on and once around, has its first block of at least `n` units at
   index `i`.
   */
  ghost predicate FirstFit(order: seq<nat>, blocks: map<nat, nat>, f: nat, i: nat, n: nat) {
    && f < |order| && 0 < i < |order| && order[i] in blocks && blocks[order[i]] >= n
    && forall x :: 1 <= x < |order| && order[x] in blocks
         && Distance(|order|, After(|order|, f), x) < Distance(|order|, After(|order|, f), i)
         ==> blocks[order[x]] < n
  }

  /** The block at `a` is the end of the first block that fits, and the search goes on from the one before it. */
  ghost predicate NextFit(order: seq<nat>, blocks: map<nat, nat>, freep: nat, n: nat, a: nat, freep': nat) {
    exists f: nat, i: nat :: FirstFit(order, blocks, f, i, n) && order[f] == freep && freep' == order[i - 1]
      && a + UNIT * n == order[i] + UNIT * blocks[order[i]]
  }

  lemma SeenFirst(base: nat, headers: map<nat, Header>, order: seq<nat>, blocks: map<nat, nat>, owner: map<nat, nat>,
                  top: nat, f: nat, i: nat, n: nat, a: nat)
    requires HeapOk(base, headers, order, blocks, owner, top) && Seen(headers, order, f, i, n) && 0 < i < |order|
    requires order[i] in headers && headers[order[i]].size >= n && f < |order|
    requires a + UNIT * n == order[i] + UNIT * headers[order[i]].size
    ensures NextFit(order, blocks, order[f], n, a, order[i - 1])
  {
    hide Tiled, Gap;
    HeadersHave(base, headers, order, blocks, owner, top, -1);
    assert order[i] in order;
    forall x | 1 <= x < |order| && order[x] in blocks
      && Distance(|order|, After(|order|, f), x) < Distance(|order|, After(|order|, f), i)
      ensures blocks[order[x]] < n
    {
      assert Small(headers, order, x, n);
    }
    assert FirstFit(order, blocks, f, i, n);
  }

  lemma TakenLast(base: nat, headers: map<nat, Header>, order: seq<nat>, blocks: map<nat, nat>, owner: map<nat, nat>,
                  top: nat, i: nat, n: nat)
    requires HeapOk(base, headers, order, blocks, owner, top) && OnlyLast(order, blocks, n, top) && 0 < i < |order|
    requires order[i] in headers && headers[order[i]].size >= n
    ensures order[i] + UNIT * headers[order[i]].size == top
  {
    hide Tiled, Gap;
    HeadersHave(base, headers, order, blocks, owner, top, -1);
    assert order[i] in order;
  }

  /** The heap got `n` units more from `sbrk`, and lost nothing. */
  ghost predicate Extended(owner0: map<nat, nat>, brk0: nat, owner: map<nat, nat>, brk: nat, n: nat) {
    brk == brk0 + UNIT * n && owner.Keys == owner0.Keys + Bytes(brk0, n, 0).Keys
  }

  lemma NotExtended(owner: map<nat, nat>, brk: nat)
    ensures Extended(owner, brk, owner, brk, 0)
  {
    assert Bytes(brk, 0, 0).Keys == {};
  }

  lemma ExtendedSame(owner0: map<nat, nat>, brk0: nat, owner1: map<nat, nat>, owner: map<nat, nat>, brk: nat, n: nat)
    requires Extended(owner0, brk0, owner1, brk, n) && owner.Keys == owner1.Keys
    ensures Extended(owner0, brk0, owner, brk, n)
  {
  }

  lemma BytesKeys(a: nat, n: nat, b: nat, c: nat)
    ensures Bytes(a, n, b).Keys == Bytes(a, n, c).Keys
  {
  }

  lemma EmptyHeap(base: nat, headers: map<nat, Header>, brk: nat)
    requires base > 0 && base + UNIT <= brk
    ensures HeapOk(base, headers[base := Header(base, 0)], [base], map[], map[], brk)
    ensures LiveBlocks([base], map[]) == LiveBlocks([], map[])
    ensures base in [base] && forall n :: !HasFree([], map[], n)
  {
  }

  lemma ListedNotNull(base: nat, headers: map<nat, Header>, order: seq<nat>, blocks: map<nat, nat>,
                      owner: map<nat, nat>, brk: nat, a: nat)
    requires HeapOk(base, headers, order, blocks, owner, brk) && a in order
    ensures a > 0
  {
  }

  /** Only the block at the end of the heap is large enough. */
  ghost predicate OnlyLast(order: seq<nat>, blocks: map<nat, nat>, n: nat, top: nat) {
    forall i :: 1 <= i < |order| && order[i] in blocks && blocks[order[i]] >= n ==>
      order[i] + UNIT * blocks[order[i]] == top
  }

  lemma KeptLast(base: nat, headers: map<nat, Header>, order0: seq<nat>, blocks0: map<nat, nat>, blocks1: map<nat, nat>,
                 order: seq<nat>, blocks: map<nat, nat>, owner: map<nat, nat>, top: nat, hp: nat, n: nat, nu: nat)
    requires HeapOk(base, headers, order, blocks, owner, top) && top == hp + UNIT * n
    requires blocks1 == blocks0[hp := n] && hp !in order0 && order0 != [] && order0[0] == base
    requires Kept(order0, blocks1, order, blocks, hp, n)
    ensures !HasFree(order0, blocks0, nu) ==> OnlyLast(order, blocks, nu, top)
  {
    hide Tiled, Gap;
    if !HasFree(order0, blocks0, nu) {
      forall i | 1 <= i < |order| && order[i] in blocks && blocks[order[i]] >= nu
        ensures order[i] + UNIT * blocks[order[i]] == top
      {
        assert KeptAt(order0, blocks1, order[i], blocks, hp, n);
        if !Covers(order[i], blocks[order[i]], hp, n) {
          var j :| 0 <= j < |order0| && order0[j] == order[i];
          assert false;
        }
      }
    }
  }

  lemma NotListed(base: nat, headers: map<nat, Header>, order: seq<nat>, blocks: map<nat, nat>, owner: map<nat, nat>,
                  brk: nat)
    requires HeapOk(base, headers, order, blocks, owner, brk)
    ensures brk !in order && |order| > 0 && order[0] == base
  {
    hide Gap;
  }

  lemma CoreAdded(base: nat, headers: map<nat, Header>, order: seq<nat>, blocks: map<nat, nat>, owner: map<nat, nat>,
                  brk: nat, n: nat)
    requires HeapOk(base, headers, order, blocks, owner, brk) && 0 < n
    ensures var h, k := headers[brk := Header(0, n)], blocks[brk := n];
      && HeapOk(base, h, order, k, owner + Bytes(brk, n, brk), brk + UNIT * n)
      && brk !in LiveBlocks(order, blocks) && LiveBlocks(order, k) == LiveBlocks(order, blocks)[brk := n]
      && LiveBlocks(order, k) - {brk} == LiveBlocks(order, blocks)
      && (owner + Bytes(brk, n, brk)).Keys == owner.Keys + Bytes(brk, n, brk).Keys
  {
    GrowTiles(blocks, owner, brk, n);
    HeadersHave(base, headers, order, blocks, owner, brk, -1);
    hide Tiled, Bytes;
    var k, h := blocks[brk := n], headers[brk := Header(0, n)];
    forall i {:trigger Gap(order, k, i)} | 1 <= i < |order| - 1 ensures Gap(order, k, i) {
      assert Gap(order, blocks, i);
    }
    forall i {:trigger Succ(order, i)} | 0 <= i < |order| ensures h[order[i]].ptr == Succ(order, i) {
      assert order[i] in order;
    }
  }

  lemma TakeWhole(base: nat, headers: map<nat, Header>, order: seq<nat>, blocks: map<nat, nat>, owner: map<nat, nat>,
                  brk: nat, i: nat)
    requires HeapOk(base, headers, order, blocks, owner, brk) && 0 < i < |order| && order[i] in headers
    requires order[i - 1] in headers
    ensures order[i] in blocks && order[i - 1] in Without(order, i)
    ensures HeapOk(base, headers[order[i - 1] := headers[order[i - 1]].(ptr := headers[order[i]].ptr)],
                   Without(order, i), blocks, owner, brk)
    ensures order[i] !in LiveBlocks(order, blocks)
    ensures LiveBlocks(Without(order, i), blocks) == LiveBlocks(order, blocks)[order[i] := headers[order[i]].size]
  {
    hide Tiled, Gap;
    TakeList(base, order, blocks, i);
    WithoutRing(headers, order, i, headers[order[i - 1]].size, -1);
    WithoutHas(order, i);
    assert order[i] in order;
  }

  lemma TakeTail(base: nat, headers: map<nat, Header>, order: seq<nat>, blocks: map<nat, nat>, owner: map<nat, nat>,
                 brk: nat,
                 i: nat, n: nat)
    requires HeapOk(base, headers, order, blocks, owner, brk) && 0 < i < |order| && order[i] in headers
    requires 0 < n < headers[order[i]].size
    ensures order[i] in blocks && n < blocks[order[i]] && headers[order[i]].size == blocks[order[i]]
    ensures var p := order[i];
      var bp := p + UNIT * (headers[p].size - n);
      var h := headers[p := headers[p].(size := headers[p].size - n)];
      && HeapOk(base, h[bp := Header(if bp in h then h[bp].ptr else 0, n)], order,
                SplitBlocks(blocks, p, n), owner + Bytes(bp, n, bp), brk)
      && bp !in LiveBlocks(order, blocks)
      && LiveBlocks(order, SplitBlocks(blocks, p, n)) == LiveBlocks(order, blocks)[bp := n]
      && (owner + Bytes(bp, n, bp)).Keys == owner.Keys
  {
    hide Tiled, Gap, Bytes, ListBut, RingBut, LiveBlocks;
    var p := order[i];
    HeadersHave(base, headers, order, blocks, owner, brk, -1);
    OrderAscends(base, order, blocks);
    assert p in order;
    assert p != base && p in blocks;
    SplitTiles(blocks, owner, p, n);
    TrimList(base, order, blocks, i, n);
    var bp := p + UNIT * (headers[p].size - n);
    assert bp !in order;
    TailRing(headers, order, i, bp, n);
    TailLive(order, blocks, p, n);
  }

  lemma TailRing(headers: map<nat, Header>, order: seq<nat>, i: nat, bp: nat, n: nat)
    requires Ring(headers, order) && i < |order| && order[i] in headers && bp !in order && n <= headers[order[i]].size
    ensures var h := headers[order[i] := headers[order[i]].(size := headers[order[i]].size - n)];
      Ring(h[bp := Header(if bp in h then h[bp].ptr else 0, n)], order)
  {
    var g := headers[order[i] := headers[order[i]].(size := headers[order[i]].size - n)];
    var h := g[bp := Header(if bp in g then g[bp].ptr else 0, n)];
    forall x {:trigger Succ(order, x)} | 0 <= x < |order| ensures h[order[x]].ptr == Succ(order, x) {
      assert order[x] in order;
    }
  }

  lemma TailLive(order: seq<nat>, blocks: map<nat, nat>, p: nat, n: nat)
    requires p in blocks && p in order && n < blocks[p] && p + UNIT * (blocks[p] - n) !in blocks
    requires p + UNIT * (blocks[p] - n) !in order
    ensures var bp := p + UNIT * (blocks[p] - n);
      && bp !in LiveBlocks(order, blocks)
      && LiveBlocks(order, SplitBlocks(blocks, p, n)) == LiveBlocks(order, blocks)[bp := n]
  {
  }

  // ---- walking the ring ----

  function After(n: nat, j: nat): (r: nat)
    requires j < n
    ensures r < n
  {
    if j + 1 == n then 0 else j + 1
  }

  lemma RingStep(base: nat, headers: map<nat, Header>, order: seq<nat>, blocks: map<nat, nat>, owner: map<nat, nat>,
                 brk: nat, j: nat)
    requires HeapOk(base, headers, order, blocks, owner, brk) && j < |order|
    ensures order[j] in headers && headers[order[j]].ptr == order[After(|order|, j)]
    ensures order[After(|order|, j)] in headers
  {
    NextIndex(headers, order, j);
  }

  predicate Small(headers: map<nat, Header>, order: seq<nat>, x: nat, n: nat)
    requires x < |order|
  {
    order[x] in headers && headers[order[x]].size < n
  }

  /** Everything from after index `f` up to index `i` was too small. */
  ghost predicate Seen(headers: map<nat, Header>, order: seq<nat>, f: nat, i: nat, n: nat) {
    f < |order| && i < |order| &&
    forall x {:trigger Small(headers, order, x, n)} ::
      0 <= x < |order| && Distance(|order|, After(|order|, f), x) < Distance(|order|, After(|order|, f), i) ==>
      Small(headers, order, x, n)
  }

  /** Something from index `i` up to index `f` is large enough. */
  ghost predicate Waiting(headers: map<nat, Header>, order: seq<nat>, f: nat, i: nat, n: nat) {
    f < |order| && i < |order| &&
    exists x {:trigger Small(headers, order, x, n)} ::
      0 <= x < |order| && Distance(|order|, After(|order|, f), x) >= Distance(|order|, After(|order|, f), i) &&
      order[x] in headers && !Small(headers, order, x, n)
  }

  lemma SeenNone(headers: map<nat, Header>, order: seq<nat>, f: nat, n: nat)
    requires f < |order|
    ensures Seen(headers, order, f, After(|order|, f), n)
  {
  }

  lemma StepOn(headers: map<nat, Header>, order: seq<nat>, f: nat, i: nat, n: nat)
    requires f < |order| && i < |order| && i != f && Small(headers, order, i, n)
    ensures Seen(headers, order, f, i, n) ==> Seen(headers, order, f, After(|order|, i), n)
    ensures Waiting(headers, order, f, i, n) ==> Waiting(headers, order, f, After(|order|, i), n)
    ensures Distance(|order|, After(|order|, f), After(|order|, i)) == Distance(|order|, After(|order|, f), i) + 1
  {
    var l, g := |order|, After(|order|, f);
    if Seen(headers, order, f, i, n) {
      forall x {:trigger Small(headers, order, x, n)} | 0 <= x < l && Distance(l, g, x) < Distance(l, g, After(l, i))
        ensures Small(headers, order, x, n)
      {
      }
    }
    if Waiting(headers, order, f, i, n) {
      var x :| && 0 <= x < l && Distance(l, g, x) >= Distance(l, g, i)
               && order[x] in headers && !Small(headers, order, x, n);
      assert x != i;
    }
  }

  lemma WaitingOver(headers: map<nat, Header>, order: seq<nat>, f: nat, n: nat)
    requires Waiting(headers, order, f, f, n)
    ensures !Small(headers, order, f, n)
  {
  }

  lemma SeenAll(base: nat, headers: map<nat, Header>, order: seq<nat>, blocks: map<nat, nat>, owner: map<nat, nat>,
                brk: nat,
                f: nat, n: nat)
    requires HeapOk(base, headers, order, blocks, owner, brk) && Seen(headers, order, f, f, n)
    requires Small(headers, order, f, n)
    ensures !HasFree(order, blocks, n)
  {
    forall x | 1 <= x < |order| && order[x] in blocks ensures blocks[order[x]] < n {
      if x != f {
        assert Distance(|order|, After(|order|, f), x) < Distance(|order|, After(|order|, f), f);
      }
      assert Small(headers, order, x, n);
    }
  }

  lemma BigWaiting(base: nat, headers: map<nat, Header>, order: seq<nat>, blocks: map<nat, nat>, owner: map<nat, nat>,
                   brk: nat,
                   f: nat, n: nat)
    requires HeapOk(base, headers, order, blocks, owner, brk) && HasFree(order, blocks, n) && f < |order|
    ensures Waiting(headers, order, f, After(|order|, f), n)
  {
    var x :| 1 <= x < |order| && order[x] in blocks && blocks[order[x]] >= n;
    assert !Small(headers, order, x, n);
  }

  lemma NotBase(base: nat, headers: map<nat, Header>, order: seq<nat>, blocks: map<nat, nat>, owner: map<nat, nat>,
                brk: nat,
                i: nat, j: nat, n: nat)
    requires HeapOk(base, headers, order, blocks, owner, brk) && j < |order| && i == After(|order|, j)
    requires order[i] in headers
    requires headers[order[i]].size >= n > 0
    ensures i > 0 && j == i - 1
  {
  }

  lemma FoundFree(base: nat, headers: map<nat, Header>, order: seq<nat>, blocks: map<nat, nat>, owner: map<nat, nat>,
                  brk: nat,
                  i: nat, n: nat)
    requires HeapOk(base, headers, order, blocks, owner, brk) && 0 < i < |order| && order[i] in headers
    requires headers[order[i]].size >= n
    ensures HasFree(order, blocks, n)
  {
  }

  lemma SameIndex(base: nat, headers: map<nat, Header>, order: seq<nat>, blocks: map<nat, nat>, owner: map<nat, nat>,
                  brk: nat,
                  i: nat, f: nat)
    requires HeapOk(base, headers, order, blocks, owner, brk) && i < |order| && f < |order| && order[i] == order[f]
    ensures i == f
  {
  }

  /** What the program holds never overlaps, and neither touches `base` nor reaches beyond the break. */
  lemma LiveApart(base: nat, headers: map<nat, Header>, order: seq<nat>, blocks: map<nat, nat>, owner: map<nat, nat>,
                  brk: nat,
                  a: nat, b: nat)
    requires HeapOk(base, headers, order, blocks, owner, brk) && a in LiveBlocks(order, blocks) && b in blocks && a != b
    ensures a + UNIT * blocks[a] <= b || b + UNIT * blocks[b] <= a
    ensures base + UNIT <= a && a + UNIT * blocks[a] <= brk
  {
    if a < b {
      Disjoint(blocks, owner, a, b);
    } else {
      Disjoint(blocks, owner, b, a);
    }
  }

  lemma LiveBelow(base: nat, headers: map<nat, Header>, order: seq<nat>, blocks: map<nat, nat>, owner: map<nat, nat>,
                  brk: nat, a: nat)
    requires HeapOk(base, headers, order, blocks, owner, brk) && a in LiveBlocks(order, blocks)
    ensures a + UNIT * LiveBlocks(order, blocks)[a] <= brk
  {
  }

  lemma OrderAscends(base: nat, order: seq<nat>, blocks: map<nat, nat>)
    requires ListOk(base, order, blocks)
    ensures Ascending(order) && |order| > 0 && order[0] == base
  {
  }

  lemma OrderFirst(base: nat, headers: map<nat, Header>, order: seq<nat>, blocks: map<nat, nat>, owner: map<nat, nat>,
                   brk: nat, t: int)
    requires HeapBut(base, headers, order, blocks, owner, brk, t)
    ensures Ascending(order) && |order| > 0 && order[0] == base && ListBut(base, order, blocks, t)
  {
  }

  lemma IndexOfPlace(order: seq<nat>, t: nat, bp: nat)
    requires Fits(order, t, bp)
    ensures t < |order|
  {
  }

  lemma LiveIs(order: seq<nat>, blocks: map<nat, nat>, bp: nat)
    requires bp in LiveBlocks(order, blocks)
    ensures bp in blocks && bp !in order && LiveBlocks(order, blocks)[bp] == blocks[bp]
  {
  }

  lemma PlaceReady(base: nat, headers: map<nat, Header>, order: seq<nat>, blocks: map<nat, nat>, owner: map<nat, nat>,
                   brk: nat,
                   t: nat, bp: nat)
    requires HeapOk(base, headers, order, blocks, owner, brk) && Fits(order, t, bp) && bp in blocks
    ensures t < |order| && order[t] in headers && headers[order[t]].ptr == Succ(order, t) && Succ(order, t) in headers
    ensures bp in headers && headers[bp].size == blocks[bp]
  {
    hide Tiled, Gap;
    NextIndex(headers, order, t);
  }

  lemma InsertedAt(order: seq<nat>, t: nat, bp: nat)
    requires t < |order|
    ensures var o := Inserted(order, t, bp); |o| == |order| + 1 && o[t] == order[t] && o[t + 1] == bp
  {
  }
}
