/**
 What becomes of the faults, forks and exits of CowFaults.dfy. Each of them can always go on, whatever
 the others do, and takes a bounded number of steps under every schedule. Alone, a fault on a page that
 nobody else has ends in the same page, and any other one in a copy; and the old page is freed by
 whoever gives it up last.
 */
module FaultRuns {

  import opened Params
  import opened CowFaults

  // ---- runs ----

  ghost predicate Reaches(s: State, t: State) {
    exists run :: LegalRun(s, run) && After(s, run) == t
  }

  lemma {:induction false} RunOn(s: State, a: seq<Step>, b: seq<Step>)
    requires LegalRun(s, a) && LegalRun(After(s, a), b)
    ensures LegalRun(s, a + b) && After(s, a + b) == After(After(s, a), b)
    decreases |a|
  {
    hide Enabled, Next;
    if a == [] {
      assert a + b == b;
    } else {
      assert (a + b)[0] == a[0] && (a + b)[1..] == a[1..] + b;
      RunOn(Next(s, a[0]), a[1..], b);
    }
  }

  lemma Stays(s: State)
    ensures Reaches(s, s)
  {
    assert LegalRun(s, []) && After(s, []) == s;
  }

  lemma Then(s: State, t: State, e: Step)
    requires Reaches(s, t) && Enabled(t, e)
    ensures Reaches(s, Next(t, e))
  {
    hide Enabled, Next;
    var a :| LegalRun(s, a) && After(s, a) == t;
    assert LegalRun(t, [e]) && After(t, [e]) == Next(t, e) by {
      assert [e][1..] == [];
    }
    RunOn(s, a, [e]);
  }

  function With(s: State, i: nat, p: Sharer): (t: State)
    requires i < |s.procs|
  {
    s.(procs := s.procs[i := p])
  }

  // ---- one call alone ----

  lemma PutAgain(s: State, i: nat, p: Sharer, q: Sharer)
    requires i < |s.procs|
    ensures With(With(s, i, p), i, q) == With(s, i, q)
  {
    assert s.procs[i := p][i := q] == s.procs[i := q];
  }

  /** The first `m` bytes of the old page, and the rest of what the new page held. */
  function Copied(page: Bytes, junk: Bytes, m: nat): (r: Bytes)
    requires m <= PGSIZE
  {
    page[..m] + junk[m..]
  }

  lemma {:induction false} Copies(s: State, a: State, i: nat, view: Bytes, junk: Bytes, m: nat)
    requires i < |s.procs| && m <= PGSIZE && Reaches(a, With(s, i, Sharer(Copying(0), view, junk)))
    ensures Reaches(a, With(s, i, Sharer(Copying(m), view, Copied(s.page, junk, m))))
    decreases m
  {
    hide Reaches;
    if m == 0 {
      assert Copied(s.page, junk, 0) == junk;
    } else {
      Copies(s, a, i, view, junk, m - 1);
      var b := With(s, i, Sharer(Copying(m - 1), view, Copied(s.page, junk, m - 1)));
      Then(a, b, CopyByte(i));
      assert Copied(s.page, junk, m - 1)[m - 1 := s.page[m - 1]] == Copied(s.page, junk, m);
      PutAgain(s, i, b.procs[i], Sharer(Copying(m), view, Copied(s.page, junk, m)));
    }
  }

  /** Up to the end of the copy: `page_change` of a page with other users. */
  lemma FaultCopies(s: State, i: nat, junk: Bytes)
    requires i < |s.procs| && s.procs[i].pc.Idle? && s.ref > 1
    ensures Reaches(s, With(s, i, Sharer(Copying(PGSIZE), s.procs[i].view, s.page)))
  {
    hide Reaches;
    var p := s.procs[i];
    Stays(s);
    Then(s, s, GetRef(i));
    var b := With(s, i, p.(pc := Saw(s.ref)));
    Then(s, b, Kalloc(i, true, junk));
    PutAgain(s, i, b.procs[i], Sharer(Copying(0), p.view, junk));
    Copies(s, s, i, p.view, junk, PGSIZE);
    assert Copied(s.page, junk, PGSIZE) == s.page;
  }

  /**
   A fault alone: without other users the page becomes the sharer's own, in place; otherwise the sharer gets a
   page of its own with the same bytes and one count goes, or, without memory, nothing happens. Only then can
   it store.
   */
  lemma FaultAlone(s: State, i: nat, junk: Bytes, at: nat, byte: int)
    requires Inv(s) && i < |s.procs| && s.procs[i].pc.Idle? && at < PGSIZE
    ensures var p := s.procs[i];
      var t := if s.ref <= 1 then With(s, i, p.(pc := InPlace))
               else With(s, i, Sharer(Private, p.view, p.view)).(ref := s.ref - 1);
      Reaches(s, t) && Enabled(t, Store(i, at, byte)) && !Enabled(s, Store(i, at, byte))
    ensures s.ref > 1 ==>
      && Enabled(s, GetRef(i)) && Enabled(Next(s, GetRef(i)), Kalloc(i, false, junk))
      && Next(Next(s, GetRef(i)), Kalloc(i, false, junk)) == s
  {
    hide Reaches;
    var p := s.procs[i];
    assert SharerOk(s, i);
    if s.ref <= 1 {
      Stays(s);
      Then(s, s, GetRef(i));
      var b := With(s, i, p.(pc := Saw(s.ref)));
      Then(s, b, Reuse(i));
      PutAgain(s, i, b.procs[i], p.(pc := InPlace));
    } else {
      FaultCopies(s, i, junk);
      var b := With(s, i, Sharer(Copying(PGSIZE), p.view, s.page));
      Then(s, b, Decrement(i));
      var c := With(s, i, Sharer(Dropped(s.ref - 1), p.view, s.page)).(ref := s.ref - 1);
      PutAgain(s, i, b.procs[i], c.procs[i]);
      Then(s, c, FreeOld(i, junk));
      var d := With(s, i, Sharer(Switching, p.view, s.page)).(ref := s.ref - 1);
      PutAgain(s, i, c.procs[i], d.procs[i]);
      Then(s, d, Remap(i));
      PutAgain(s, i, d.procs[i], Sharer(Private, p.view, p.view));
      PutAgain(s, i, p.(pc := Saw(s.ref)), p);
      assert With(s, i, p) == s;
    }
  }

  /** A fork alone: the child has the same bytes and one count more, and both will fault. */
  lemma ForkAlone(s: State, i: nat)
    requires i < |s.procs| && (s.procs[i].pc.Idle? || s.procs[i].pc.InPlace?)
    ensures var p := s.procs[i].(pc := Idle);
      Reaches(s, s.(ref := s.ref + 1, procs := s.procs[i := p] + [p]))
  {
    hide Reaches;
    var p, n := s.procs[i], |s.procs|;
    Stays(s);
    Then(s, s, MapChild(i));
    var b := Next(s, MapChild(i));
    Then(s, b, Increment(i));
    assert Next(b, Increment(i)).procs == s.procs[i := p.(pc := Idle)] + [p.(pc := Idle)];
  }

  /** An exit alone: one count goes, and the page with the last one. */
  lemma LeaveAlone(s: State, i: nat, junk: Bytes)
    requires i < |s.procs| && (s.procs[i].pc.Idle? || s.procs[i].pc.InPlace?)
    ensures var t := With(s, i, s.procs[i].(pc := Gone)).(ref := s.ref - 1);
      Reaches(s, if s.ref == 1 then t.(freed := s.freed + 1, page := junk) else t)
  {
    hide Reaches;
    var p := s.procs[i];
    Stays(s);
    Then(s, s, Unmap(i));
    var b := With(s, i, p.(pc := Leaving(s.ref - 1))).(ref := s.ref - 1);
    Then(s, b, FreeOld(i, junk));
    PutAgain(s, i, b.procs[i], p.(pc := Gone));
  }

  lemma Onward(s: State, t: State, u: State)
    requires Reaches(s, t) && Reaches(t, u)
    ensures Reaches(s, u)
  {
    hide LegalRun, After;
    var a :| LegalRun(s, a) && After(s, a) == t;
    var b :| LegalRun(t, b) && After(t, b) == u;
    RunOn(s, a, b);
  }

  /** From the end of the copy on, with `ref` the count before: the page goes with the last count. */
  lemma SwitchOver(s: State, a: State, i: nat, junk: Bytes)
    requires i < |s.procs| && s.procs[i].pc == Copying(PGSIZE) && Reaches(a, s)
    ensures var t := With(s, i, s.procs[i].(pc := Private)).(ref := s.ref - 1);
      Reaches(a, if s.ref == 1 then t.(freed := s.freed + 1, page := junk) else t)
  {
    hide Reaches;
    var p := s.procs[i];
    Then(a, s, Decrement(i));
    var c := With(s, i, p.(pc := Dropped(s.ref - 1))).(ref := s.ref - 1);
    Then(a, c, FreeOld(i, junk));
    var d := With(s, i, p.(pc := Switching)).(ref := s.ref - 1);
    var d' := if s.ref == 1 then d.(freed := s.freed + 1, page := junk) else d;
    PutAgain(s, i, c.procs[i], d.procs[i]);
    Then(a, d', Remap(i));
    PutAgain(s, i, d.procs[i], p.(pc := Private));
  }

  /**
   Two sharers fault at the same time, and both see a count of two: both copy, and the second to give up the
   old page frees it. Each ends with the bytes it had.
   */
  lemma BothCopy(s: State, i: nat, j: nat, junk: Bytes)
    requires Inv(s) && i < |s.procs| && j < |s.procs| && i != j && s.ref == 2
    requires s.procs[i].pc.Idle? && s.procs[j].pc.Idle?
    ensures var p, q := s.procs[i], s.procs[j];
      Reaches(s, State(0, junk, s.freed + 1,
                       s.procs[i := Sharer(Private, p.view, p.view)][j := Sharer(Private, q.view, q.view)]))
  {
    hide Reaches;
    assert SharerOk(s, i) && SharerOk(s, j);
    var p, q := s.procs[i], s.procs[j];
    FaultCopies(s, i, junk);
    var b := With(s, i, Sharer(Copying(PGSIZE), p.view, s.page));
    FaultCopies(b, j, junk);
    var c := With(b, j, Sharer(Copying(PGSIZE), q.view, s.page));
    Onward(s, b, c);
    SwitchOver(c, s, i, junk);
    var d := With(c, i, c.procs[i].(pc := Private)).(ref := 1);
    SwitchOver(d, s, j, junk);
    var e := With(d, j, d.procs[j].(pc := Private)).(ref := 0, freed := s.freed + 1, page := junk);
    assert e.procs == s.procs[i := Sharer(Private, p.view, p.view)][j := Sharer(Private, q.view, q.view)];
  }

  // ---- every call ends ----

  /** Not in a fault, a fork or an exit. */
  predicate AtRest(pc: Pc) {
    pc.Idle? || pc.Private? || pc.InPlace? || pc.Gone?
  }

  /** The steps that begin a call, and stores. */
  predicate Begins(e: Step) {
    e.GetRef? || e.Store? || e.MapChild? || e.Unmap?
  }

  function Work(pc: Pc): (r: nat) {
    match pc
    case Idle => 0
    case Saw(_) => PGSIZE + 4
    case Copying(n) => if n < PGSIZE then PGSIZE - n + 3 else 3
    case Dropped(_) => 2
    case Switching => 1
    case Private => 0
    case InPlace => 0
    case Forking(_) => 1
    case Born(_) => 0
    case Leaving(_) => 1
    case Gone => 0
  }

  function Total(ps: seq<Sharer>): (r: nat) {
    if ps == [] then 0 else Total(ps[..|ps| - 1]) + Work(ps[|ps| - 1].pc)
  }

  lemma {:induction false} Change(ps: seq<Sharer>, i: nat, p: Sharer)
    requires i < |ps|
    ensures Total(ps[i := p]) == Total(ps) - Work(ps[i].pc) + Work(p.pc)
    decreases |ps|
  {
    hide Work;
    var m := |ps| - 1;
    if i < m {
      Change(ps[..m], i, p);
      assert ps[i := p][..m] == ps[..m][i := p];
    } else {
      assert ps[i := p][..m] == ps[..m];
    }
  }

  lemma StepDown(s: State, e: Step)
    requires Inv(s) && Enabled(s, e) && !Begins(e)
    ensures Total(Next(s, e).procs) < Total(s.procs)
  {
    hide Total;
    var i, t := e.i, Next(s, e);
    if e.Increment? {
      assert SharerOk(s, i);
      var c := s.procs[i].pc.child;
      Change(s.procs, c, s.procs[c].(pc := Idle));
      Change(s.procs[c := s.procs[c].(pc := Idle)], i, s.procs[i].(pc := Idle));
    } else {
      Change(s.procs, i, t.procs[i]);
      assert t.procs == s.procs[i := t.procs[i]];
    }
  }

  /** Nobody begins a call or stores. */
  ghost predicate WorkingRun(run: seq<Step>) {
    forall k :: 0 <= k < |run| ==> !Begins(run[k])
  }

  /** Under every schedule the calls under way take at most so many steps. */
  lemma {:induction false} RunsEnd(s: State, run: seq<Step>)
    requires Inv(s) && LegalRun(s, run) && WorkingRun(run)
    ensures |run| + Total(After(s, run).procs) <= Total(s.procs)
    decreases |run|
  {
    hide Inv, Enabled, Next, Total;
    if run != [] {
      StepDown(s, run[0]);
      StepKeepsInv(s, run[0]);
      RunsEnd(Next(s, run[0]), run[1..]);
    }
  }

  predicate SameKind(e: Step, f: Step) {
    match e
    case Kalloc(_, _, _) => f.Kalloc?
    case CopyByte(_) => f.CopyByte?
    case Decrement(_) => f.Decrement?
    case FreeOld(_, _) => f.FreeOld?
    case Remap(_) => f.Remap?
    case Reuse(_) => f.Reuse?
    case Increment(_) => f.Increment?
    case _ => false
  }

  /**
   In every interleaving whoever is in a fault, a fork or an exit can go on, with or without memory, and in one
   way only.
   */
  lemma CanGoOn(n: nat, page: Bytes, run: seq<Step>, i: nat, ok: bool, junk: Bytes) returns (e: Step)
    requires n > 0 && LegalRun(Start(n, page), run)
    requires var s := After(Start(n, page), run);
      i < |s.procs| && !AtRest(s.procs[i].pc) && !s.procs[i].pc.Born?
    ensures var s := After(Start(n, page), run);
      && e.i == i && Enabled(s, e) && !Begins(e) && (e.Kalloc? ==> e.ok == ok)
      && forall f: Step :: f.i == i && Enabled(s, f) && !Begins(f) ==> SameKind(e, f)
  {
    StartOk(n, page);
    RunKeepsInv(Start(n, page), run);
    hide LegalRun, After;
    var s := After(Start(n, page), run);
    assert SharerOk(s, i);
    match s.procs[i].pc {
      case Saw(r) => e := if r > 1 then Kalloc(i, ok, junk) else Reuse(i);
      case Copying(m) => e := if m < PGSIZE then CopyByte(i) else Decrement(i);
      case Dropped(_) => e := FreeOld(i, junk);
      case Switching => e := Remap(i);
      case Forking(_) => e := Increment(i);
      case Leaving(_) => e := FreeOld(i, junk);
    }
  }
}
