/**
 `struct queue` of scheduler/kernel/my_proc.c: an array of QNUM slots used as a ring by the
 first-come queue and by levels 0 and 1, and as a list from slot 0 on by level 2. The contents
 of both are a sequence of process slots.
 */
module RunQueue {

  const QNUM := 128

  /** The entries from `s` up to `e`, around the end of the array. */
  function Around(a: seq<nat>, s: nat, e: nat): (r: seq<nat>)
    requires |a| == QNUM && s < QNUM && e < QNUM
  {
    if s <= e then a[s..e] else a[s..] + a[..e]
  }

  /** `(i + 1) & QMOD`. */
  function NextSlot(i: nat): (r: nat)
    requires i < QNUM
    ensures r < QNUM && r == (i + 1) % QNUM
  {
    if i + 1 == QNUM then 0 else i + 1
  }

  lemma AroundPush(a: seq<nat>, s: nat, e: nat, x: nat)
    requires |a| == QNUM && s < QNUM && e < QNUM && |Around(a, s, e)| < QNUM - 1
    ensures Around(a[e := x], s, NextSlot(e)) == Around(a, s, e) + [x]
  {
    var b := a[e := x];
    if e + 1 == QNUM {
      assert b[s..] + b[..0] == a[s..e] + [x];
    } else if s <= e {
      assert b[s..e + 1] == a[s..e] + [x];
    } else {
      assert b[s..] == a[s..] && b[..e + 1] == a[..e] + [x];
    }
  }

  lemma Regroup(a: seq<nat>, b: seq<nat>, c: seq<nat>)
    ensures a + b + c == a + (b + c)
  {
  }

  lemma AroundPop(a: seq<nat>, s: nat, e: nat)
    requires |a| == QNUM && s < QNUM && e < QNUM && s != e
    ensures Around(a, s, e) == [a[s]] + Around(a, NextSlot(s), e)
  {
    if s < e {
      assert a[s..e] == [a[s]] + a[s + 1..e];
    } else if s + 1 == QNUM {
      assert a[s..] == [a[s]];
      assert a[0..e] == a[..e];
    } else {
      assert a[s..] == [a[s]] + a[s + 1..];
      Regroup([a[s]], a[s + 1..], a[..e]);
    }
  }

  // ---- the priority queue ----

  /** `k` is the earliest of the entries with the highest priority. */
  predicate Foremost(q: seq<nat>, prio: seq<int>, k: nat) {
    && k < |q| && (forall i :: 0 <= i < |q| ==> q[i] < |prio|)
    && (forall i :: 0 <= i < k ==> prio[q[i]] < prio[q[k]])
    && (forall i :: k < i < |q| ==> prio[q[i]] <= prio[q[k]])
  }

  /** No entry has a priority that `L2_pop` looks for. */
  predicate AllNegative(q: seq<nat>, prio: seq<int>) {
    forall i :: 0 <= i < |q| ==> q[i] < |prio| && prio[q[i]] <= -1
  }

  lemma ForemostIsOne(q: seq<nat>, prio: seq<int>, j: nat, k: nat)
    requires Foremost(q, prio, j) && Foremost(q, prio, k)
    ensures j == k
  {
    assert q[j] < |prio| && q[k] < |prio|;
  }

  function Without(q: seq<nat>, k: nat): (r: seq<nat>)
    requires k < |q|
  {
    q[..k] + q[k + 1..]
  }

  /** The entry at `idx` has been swapped past the entries up to `i`. */
  predicate Sunk(a: seq<nat>, b: seq<nat>, idx: nat, i: nat) {
    && idx <= i < |a| == |b|
    && (forall x :: 0 <= x < |a| && (x < idx || x > i) ==> b[x] == a[x])
    && (forall x :: idx <= x < i ==> b[x] == a[x + 1])
    && b[i] == a[idx]
  }

  class Queue {
    const p: array<nat>
    var s: nat
    var e: nat

    ghost predicate Valid()
      reads this
    {
      p.Length == QNUM && s < QNUM && e < QNUM
    }

    ghost function Contents(): (r: seq<nat>)
      requires Valid()
      reads this, p
    {
      Around(p[..], s, e)
    }

    constructor ()
      ensures Valid() && Contents() == [] && s == 0 && fresh(p)
    {
      p := new nat[QNUM](i => 0);
      s, e := 0, 0;
    }

    /** `queue_push`. */
    method Push(x: nat)
      requires Valid() && |Contents()| < QNUM - 1
      modifies `e, p
      ensures Valid() && Contents() == old(Contents()) + [x] && (old(e) + 1 < QNUM ==> e == old(e) + 1)
    {
      AroundPush(p[..], s, e, x);
      assert p[..][e := x] == p[..e] + [x] + p[e + 1..];
      p[e] := x;
      assert p[..] == old(p[..])[e := x];
      e := NextSlot(e);
    }

    /** `queue_pop`. */
    method Pop() returns (x: nat)
      requires Valid() && Contents() != []
      modifies `s
      ensures Valid() && old(Contents()) == [x] + Contents()
    {
      AroundPop(p[..], s, e);
      x := p[s];
      s := NextSlot(s);
    }

    /** `isEmpty`: with fewer than QNUM entries, equal indices mean that there are none. */
    method IsEmpty() returns (b: bool)
      requires Valid()
      ensures b <==> Contents() == []
    {
      b := s == e;
    }

    /** `s = e = 0`. */
    method Reset()
      requires Valid()
      modifies `s, `e
      ensures Valid() && s == 0 && Contents() == []
    {
      s, e := 0, 0;
    }

    /** `p[e++]`: `L2_push`, and how the mode switches and the boost fill a queue. */
    method Append(x: nat)
      requires Valid() && s == 0 && |Contents()| < QNUM - 1
      modifies `e, p
      ensures Valid() && s == 0 && Contents() == old(Contents()) + [x]
    {
      p[e] := x;
      e := e + 1;
      assert p[0..e] == old(p[0..e]) + [x];
    }

    /** The search of `L2_pop`: the earliest entry of the highest priority, if any priority is above -1. */
    method FindMax(prio: seq<int>) returns (r: int, idx: nat)
      requires Valid() && s == 0 && forall i :: 0 <= i < |Contents()| ==> Contents()[i] < |prio|
      ensures r == -1 ==> idx == e && AllNegative(Contents(), prio)
      ensures r != -1 ==> idx < e && r == p[idx] && Foremost(Contents(), prio, idx) && prio[p[idx]] > -1
    {
      r := -1;
      var pr := -1;
      idx := e;
      ghost var q := Contents();
      assert forall i :: 0 <= i < e ==> q[i] == p[i];
      var i := 0;
      while i < e
        invariant 0 <= i <= e
        invariant r == -1 ==> idx == e && pr == -1 && forall j :: 0 <= j < i ==> prio[q[j]] <= -1
        invariant r != -1 ==> idx < i && r == q[idx] && pr == prio[q[idx]] > -1
        invariant r != -1 ==> (forall j :: 0 <= j < idx ==> prio[q[j]] < pr)
        invariant r != -1 ==> (forall j :: idx < j < i ==> prio[q[j]] <= pr)
      {
        if pr < prio[p[i]] {
          r := p[i];
          pr := prio[p[i]];
          idx := i;
        }
        i := i + 1;
      }
    }

    /**
     `L2_pop`: a stable priority queue. Without any priority above -1 it returns nothing and
     drops the last entry.
     */
    method L2Pop(prio: seq<int>) returns (r: int, ghost k: nat)
      requires Valid() && s == 0 && Contents() != [] && forall i :: 0 <= i < |Contents()| ==> Contents()[i] < |prio|
      modifies `e, p
      ensures Valid() && s == 0 && k < |old(Contents())| && Contents() == Without(old(Contents()), k)
      ensures r == -1 ==> k == |old(Contents())| - 1 && AllNegative(old(Contents()), prio)
      ensures r != -1 ==> r == old(Contents())[k] && Foremost(old(Contents()), prio, k) && prio[r] > -1
    {
      var idx: nat;
      ghost var q := Contents();
      r, idx := FindMax(prio);
      assert Contents() == q;
      ghost var a, n := p[..], e;
      e := e - 1;
      k := if idx < e then idx else e;
      var i := idx;
      while i < e
        invariant idx <= i && (idx <= e ==> i <= e) && (idx > e ==> i == idx && p[..] == a)
        invariant idx <= e ==> Sunk(a, p[..], idx, i)
        modifies p
      {
        p[i], p[i + 1] := p[i + 1], p[i];
        i := i + 1;
      }
      SunkWithout(a, p[..], n, k, idx <= e);
    }
  }

  lemma SunkWithout(a: seq<nat>, b: seq<nat>, n: nat, k: nat, sunk: bool)
    requires |a| == QNUM && 0 < n < QNUM && k < n && |b| == QNUM
    requires if sunk then Sunk(a, b, k, n - 1) else b == a && k == n - 1
    ensures Around(b, 0, n - 1) == Without(Around(a, 0, n), k)
  {
    var x, y := Around(b, 0, n - 1), Without(Around(a, 0, n), k);
    assert |x| == |y|;
    forall i | 0 <= i < |x| ensures x[i] == y[i] {
    }
  }
}
