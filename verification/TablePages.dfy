/**
 How many page-table pages a range of virtual pages needs, and what they cost: the free list gets shorter by
 one page for every table that was missing, so whether there is enough is decided by the state before.
 */
module TablePages {
  import opened Sv39
  import opened Sets

  /** The places at which an address space has table pages. */
  function Have(pos: map<nat, Place>, root: nat): (r: set<Path>) {
    set b | b in pos && pos[b].root == root :: pos[b].path
  }

  /** The tables below the root on the way to a virtual page. */
  function Ways(vpn: nat): (r: set<Path>)
    requires vpn < MAXVPN
  {
    {PathTo(1, vpn), PathTo(0, vpn)}
  }

  /** The tables on the way to `n` virtual pages. */
  function WaysOf(vpn: nat, n: nat): (r: set<Path>)
    requires vpn + n <= MAXVPN
    decreases n
  {
    if n == 0 then {} else WaysOf(vpn, n - 1) + Ways(vpn + n - 1)
  }

  lemma {:induction false} WaysOfAll(vpn: nat, n: nat, p: Path)
    requires vpn + n <= MAXVPN
    ensures p in WaysOf(vpn, n) <==> exists v: nat {:trigger Ways(v)} :: vpn <= v < vpn + n && p in Ways(v)
    decreases n
  {
    hide Ways;
    if n > 0 {
      WaysOfAll(vpn, n - 1, p);
      assert p in WaysOf(vpn, n) <==> p in WaysOf(vpn, n - 1) || p in Ways(vpn + n - 1);
    }
  }

  lemma {:induction false} WaysOfMore(vpn: nat, k: nat, n: nat)
    requires k <= n && vpn + n <= MAXVPN
    ensures WaysOf(vpn, k) <= WaysOf(vpn, n)
    decreases n
  {
    if k < n {
      WaysOfMore(vpn, k, n - 1);
    }
  }

  /** The free list has a page for every table that is missing, and `extra` more. */
  ghost predicate Enough(free: seq<nat>, pos: map<nat, Place>, root: nat, ways: set<Path>, extra: nat) {
    |free| >= extra + |ways - Have(pos, root)|
  }

  /** Exactly these pages were taken: one for every table that was missing, and `extra` more. */
  ghost predicate Spent(f: seq<nat>, p: map<nat, Place>, g: seq<nat>, q: map<nat, Place>, root: nat, ways: set<Path>,
                        extra: nat) {
    Have(q, root) == Have(p, root) + ways && |g| + |Have(q, root)| + extra == |f| + |Have(p, root)|
  }

  lemma UnionSize<T>(a: set<T>, b: set<T>)
    ensures |a + b| == |a| + |b - a|
  {
    assert a + b == a + (b - a);
  }

  lemma SpentEnough(f: seq<nat>, p: map<nat, Place>, g: seq<nat>, q: map<nat, Place>, root: nat, ways: set<Path>,
                    extra: nat)
    requires Spent(f, p, g, q, root, ways, extra)
    ensures Enough(f, p, root, ways, extra)
  {
    hide Have;
    UnionSize(Have(p, root), ways);
  }

  lemma SpentNone(f: seq<nat>, p: map<nat, Place>, root: nat)
    ensures Spent(f, p, f, p, root, {}, 0)
  {
    assert Have(p, root) + {} == Have(p, root);
  }

  lemma SpentThen(f: seq<nat>, p: map<nat, Place>, g: seq<nat>, q: map<nat, Place>, h: seq<nat>, r: map<nat, Place>,
                  root: nat, a: set<Path>, i: nat, b: set<Path>, j: nat)
    requires Spent(f, p, g, q, root, a, i) && Spent(g, q, h, r, root, b, j)
    ensures Spent(f, p, h, r, root, a + b, i + j)
  {
    hide Have;
    assert Have(p, root) + a + b == Have(p, root) + (a + b);
  }

  /** What is too little after something was taken was too little for all of it before. */
  lemma ShortThen(f: seq<nat>, p: map<nat, Place>, g: seq<nat>, q: map<nat, Place>,
                  root: nat, a: set<Path>, i: nat, b: set<Path>, j: nat, all: set<Path>, n: nat)
    requires Spent(f, p, g, q, root, a, i) && !Enough(g, q, root, b, j) && a + b <= all && i + j <= n
    ensures !Enough(f, p, root, all, n)
  {
    hide Have;
    UnionSize(Have(q, root), b);
    UnionSize(Have(p, root), all);
    SubsetSize(Have(q, root) + b, Have(p, root) + all);
  }

  /** One page of a range after the others. */
  lemma SpentNext(f: seq<nat>, p: map<nat, Place>, g: seq<nat>, q: map<nat, Place>, h: seq<nat>, r: map<nat, Place>,
                  root: nat, vpn: nat, i: nat, e: nat, j: nat)
    requires vpn + i < MAXVPN && Spent(f, p, g, q, root, WaysOf(vpn, i), e) && Spent(g, q, h, r, root, Ways(vpn + i), j)
    ensures Spent(f, p, h, r, root, WaysOf(vpn, i + 1), e + j)
  {
    hide Spent, Ways;
    SpentThen(f, p, g, q, h, r, root, WaysOf(vpn, i), e, Ways(vpn + i), j);
  }

  lemma ShortNext(f: seq<nat>, p: map<nat, Place>, g: seq<nat>, q: map<nat, Place>,
                  root: nat, vpn: nat, i: nat, n: nat, e: nat, j: nat, total: nat)
    requires i < n && vpn + n <= MAXVPN && Spent(f, p, g, q, root, WaysOf(vpn, i), e)
    requires !Enough(g, q, root, Ways(vpn + i), j) && e + j <= total
    ensures !Enough(f, p, root, WaysOf(vpn, n), total)
  {
    hide Spent, Enough, Ways;
    WaysOfMore(vpn, i + 1, n);
    ShortThen(f, p, g, q, root, WaysOf(vpn, i), e, Ways(vpn + i), j, WaysOf(vpn, n), total);
  }

  lemma WaysOfOne(vpn: nat)
    requires vpn < MAXVPN
    ensures WaysOf(vpn, 1) == Ways(vpn) && WaysOf(vpn, 0) == {}
  {
    hide Ways;
    assert WaysOf(vpn, 0) + Ways(vpn) == Ways(vpn);
  }

  /** A page taken first, for something else. */
  lemma OneMore(f: seq<nat>, g: seq<nat>, p: map<nat, Place>, root: nat, ways: set<Path>)
    requires |g| + 1 == |f|
    ensures Enough(g, p, root, ways, 0) <==> Enough(f, p, root, ways, 1)
    ensures forall h, q :: Spent(g, p, h, q, root, ways, 0) ==> Spent(f, p, h, q, root, ways, 1)
  {
    hide Have;
  }

  /** Enough pages for virtual pages `lo` to `hi`, with `each` page for every one of them and its missing tables. */
  ghost predicate RangeFits(free: seq<nat>, pos: map<nat, Place>, root: nat, lo: nat, hi: nat, each: nat) {
    lo <= hi <= MAXVPN && Enough(free, pos, root, WaysOf(lo, hi - lo), each * (hi - lo))
  }

  /** A new table at a place that had none. */
  lemma HaveMore(p: map<nat, Place>, root: nat, b: nat, path: Path)
    requires b !in p
    ensures Have(p[b := Place(root, path)], root) == Have(p, root) + {path}
  {
    var q := p[b := Place(root, path)];
    forall x | x in Have(p, root) ensures x in Have(q, root) {
      var c :| c in p && p[c].root == root && p[c].path == x;
      assert c in q && q[c] == p[c];
    }
    assert b in q;
  }

  lemma NotThere(t: Tables, p: map<nat, Place>, roots: set<nat>, root: nat, path: Path)
    requires TreeOk(t, p, roots) && root in roots && ValidPath(path)
    ensures path in Have(p, root) <==> Node(t, root, path) != 0
  {
    hide Node;
    if path in Have(p, root) {
      var b :| b in p && p[b].root == root && p[b].path == path;
      assert Node(t, root, path) == b;
    }
  }

  // ---- walk ----

  /** Where `walk` stands: it has seen the tables down to `level`, and made those that were missing. */
  ghost predicate Walking(f: seq<nat>, p: map<nat, Place>, g: seq<nat>, q: map<nat, Place>, root: nat, vpn: nat,
                          level: nat)
    requires vpn < MAXVPN
  {
    && |g| + |Have(q, root)| == |f| + |Have(p, root)|
    && Have(p, root) <= Have(q, root) <= Have(p, root) + Ways(vpn)
    && (level <= 1 ==> PathTo(1, vpn) in Have(q, root)) && (level == 0 ==> PathTo(0, vpn) in Have(q, root))
  }

  lemma WalkingDown(f: seq<nat>, p: map<nat, Place>, g: seq<nat>, t: Tables, q: map<nat, Place>, roots: set<nat>,
                    root: nat, vpn: nat, level: nat)
    requires vpn < MAXVPN && 0 < level <= 2 && Walking(f, p, g, q, root, vpn, level) && TreeOk(t, q, roots)
    requires root in roots
    ensures if Node(t, root, PathTo(level - 1, vpn)) != 0 then Walking(f, p, g, q, root, vpn, level - 1)
            else PathTo(level - 1, vpn) !in Have(q, root)
  {
    hide Have, TreeOk, PathTo;
    NotThere(t, q, roots, root, PathTo(level - 1, vpn));
  }

  lemma WalkingAdd(f: seq<nat>, p: map<nat, Place>, g: seq<nat>, q: map<nat, Place>, h: seq<nat>, root: nat, vpn: nat,
                   level: nat, b: nat)
    requires vpn < MAXVPN && 0 < level <= 2 && Walking(f, p, g, q, root, vpn, level) && b !in q
    requires PathTo(level - 1, vpn) !in Have(q, root) && |h| + 1 == |g|
    ensures Walking(f, p, h, q[b := Place(root, PathTo(level - 1, vpn))], root, vpn, level - 1)
  {
    hide Have, PathTo;
    HaveMore(q, root, b, PathTo(level - 1, vpn));
  }

  lemma WalkingEnd(f: seq<nat>, p: map<nat, Place>, g: seq<nat>, q: map<nat, Place>, root: nat, vpn: nat)
    requires vpn < MAXVPN && Walking(f, p, g, q, root, vpn, 0)
    ensures Spent(f, p, g, q, root, Ways(vpn), 0) && Enough(f, p, root, Ways(vpn), 0)
  {
    hide Have, PathTo;
    assert Have(q, root) == Have(p, root) + Ways(vpn);
    SpentEnough(f, p, g, q, root, Ways(vpn), 0);
  }

  lemma WalkingShort(f: seq<nat>, p: map<nat, Place>, q: map<nat, Place>, root: nat, vpn: nat, level: nat)
    requires vpn < MAXVPN && 0 < level <= 2 && Walking(f, p, [], q, root, vpn, level)
    requires PathTo(level - 1, vpn) !in Have(q, root)
    ensures !Enough(f, p, root, Ways(vpn), 0)
  {
    hide Have, PathTo;
    UnionSize(Have(p, root), Ways(vpn));
    SubsetSize(Have(q, root) + {PathTo(level - 1, vpn)}, Have(p, root) + Ways(vpn));
  }
}
