/**
 Who is whose parent, over every interleaving of the steps of Wakeup.dfy.

 `exit` gives its children to init before it becomes a ZOMBIE, so every process descends from init
 through processes that are alive. `wait` sees exactly the children there are: it gives up if and
 only if it has none or was killed, and sleeps otherwise, so nobody sleeps in `wait` without a child.
 */
module ProcessTree {

  import opened Wakeup

  predicate ChildOf(s: State, i: nat, c: nat)
    requires c < |s.procs|
  {
    s.procs[c].parent == i
  }

  predicate NoChildBelow(s: State, i: nat, k: nat) {
    forall c: nat {:trigger ChildOf(s, i, c)} :: c < k && c < |s.procs| ==> !ChildOf(s, i, c)
  }

  predicate Childless(s: State, i: nat) {
    NoChildBelow(s, i, |s.procs|)
  }

  /** `fork` with child `c` under way. */
  predicate Forks(pc: Pc, c: nat) {
    (pc.ForkHave? || pc.ForkLocked? || pc.ForkSet?) && pc.c == c
  }

  predicate Exiting(pc: Pc) {
    pc.Reparent? || pc.ReparentWake? || Abandoned(pc)
  }

  /** In `exit` after `reparent`. */
  predicate Abandoned(pc: Pc) {
    pc.ExitWake? || pc.ExitReady? || pc.DyingLocked? || pc.Dying? || pc.Dead?
  }

  /** From the decision of `wait` to sleep until it scans again. */
  predicate InSleep(pc: Pc) {
    pc.SleepEnter? || pc.SleepLocked? || pc.SleepReleased? || pc.Asleep? || pc.Resumed?
  }

  /** Loops over the table stay in it. */
  predicate InTable(pc: Pc, n: nat) {
    match pc
    case Scan(k, _) => k <= n
    case Reparent(k) => k <= n
    case ReparentWake(k, j) => k < n && j <= n
    case ExitWake(j) => j <= n
    case _ => true
  }

  // ---- the invariant ----

  predicate StatusOk(s: State, x: nat)
    requires x < |s.procs|
  {
    var p := s.procs[x];
    && (p.status.Unused? <==> p.pc.Empty?)
    && (p.status.Used? <==> p.pc.Embryo?)
    && InTable(p.pc, |s.procs|)
    && (p.status.Sleeping? ==> p.pc.OtherSleep? || p.pc.Asleep?)
    && p.chan == (if p.pc.Asleep? then x else if p.pc.OtherSleep? then OTHER else NONE)
    && (p.pc.Embryo? ==> p.pc.forker < |s.procs| && Forks(s.procs[p.pc.forker].pc, x))
  }

  predicate ParentOk(s: State, x: nat)
    requires x < |s.procs|
  {
    var p := s.procs[x];
    && NONE <= p.parent < |s.procs| && p.parent != x
    && (p.pc.Empty? ==> p.parent == NONE)
    && (p.pc.Embryo? ==> p.parent == NONE || p.parent == p.pc.forker)
    && (x != s.init && !p.pc.Empty? && !p.pc.Embryo? ==> p.parent != NONE)
    && (x == s.init ==> !p.pc.Empty? && !p.pc.Embryo? && !Exiting(p.pc) && p.parent == NONE)
    && (p.pc.ForkHave? || p.pc.ForkLocked? ==> p.pc.c < |s.procs| && s.procs[p.pc.c].parent == NONE)
    && (p.pc.ForkSet? ==> p.pc.c < |s.procs| && s.procs[p.pc.c].parent == x)
  }

  predicate ChildrenOk(s: State, x: nat)
    requires x < |s.procs|
  {
    var p := s.procs[x];
    && (p.pc.Empty? || p.pc.Embryo? || Abandoned(p.pc) ==> Childless(s, x))
    && (p.pc.Reparent? ==> NoChildBelow(s, x, p.pc.k))
    && (p.pc.ReparentWake? ==> NoChildBelow(s, x, p.pc.k + 1))
    && (p.pc.Scan? ==> (p.pc.havekids <==> !NoChildBelow(s, x, p.pc.k)))
    && (InSleep(p.pc) ==> !Childless(s, x))
  }

  predicate TreeInv(s: State) {
    && Inv(s) && NONE <= s.waitLock < |s.procs|
    && (forall x: nat {:trigger StatusOk(s, x)} :: x < |s.procs| ==> StatusOk(s, x))
    && (forall x: nat {:trigger ParentOk(s, x)} :: x < |s.procs| ==> ParentOk(s, x))
    && (forall x: nat {:trigger ChildrenOk(s, x)} :: x < |s.procs| ==> ChildrenOk(s, x))
  }

  // ---- every step keeps it ----

  lemma Forker(s: State, i: nat)
    requires TreeInv(s) && i < |s.procs|
    ensures var pc := s.procs[i].pc;
      pc.ForkHave? || pc.ForkLocked? || pc.ForkSet? ==> pc.c < |s.procs| && s.procs[pc.c].pc == Embryo(i)
  {
    assert ProcOk(s, i);
  }

  lemma InRange(s: State, e: Step)
    requires TreeInv(s) && Enabled(s, e)
    ensures e.i < |s.procs| && s.init < |s.procs|
  {
  }

  /** All that a step of another process can make of slot `x`. */
  predicate Elsewhere(s: State, e: Step, x: nat, q: Proc)
    requires e.i < |s.procs| && x < |s.procs|
  {
    var p, i := s.procs[x], s.procs[e.i];
    || q == p
    || (p.status.Sleeping? && q == p.(status := Ready) &&
        ((e.WakeInit? && p.chan == s.init) || (e.WakeParent? && p.chan == i.parent)))
    || (e == ForkAlloc(e.i, x) && p.pc.Empty? && q == p.(status := Used, pc := Embryo(e.i)))
    || (p.pc == Embryo(e.i) && Forks(i.pc, x) && Fostered(e, p, q))
    || (p.pc.Dead? && e.ScanSlot? && e.copied && i.pc.Scan? && i.pc.k == x && ZombieChild(s, e.i, x) && q == Freed())
    || (p.parent == e.i && e.Adopt? && i.pc.Reparent? && !p.pc.Embryo? && q == p.(parent := s.init))
  }

  /** What fork does to the child it is setting up. */
  predicate Fostered(e: Step, p: Proc, q: Proc) {
    || (e.ForkParent? && q == p.(parent := e.i))
    || (e.ForkRun? && q == p.(status := Ready, pc := User))
    || (e.ForkAbort? && q == Freed())
  }

  lemma Others(s: State, e: Step, x: nat)
    requires TreeInv(s) && Enabled(s, e) && x < |s.procs| && x != e.i
    ensures x < |Next(s, e).procs| && Elsewhere(s, e, x, Next(s, e).procs[x])
  {
    hide Inv, ChildrenOk;
    assert StatusOk(s, x) && ParentOk(s, x);
    FamilyOk(s, e);
    Forker(s, e.i);
  }

  lemma StatusOther(s: State, e: Step, x: nat)
    requires TreeInv(s) && Enabled(s, e) && x < |s.procs| && x != e.i
    ensures x < |Next(s, e).procs| && StatusOk(Next(s, e), x)
  {
    hide Inv, ChildrenOk, ParentOk, Next, Enabled;
    SameLength(s, e);
    assert StatusOk(s, x);
    Others(s, e, x);
    var p, q := s.procs[x], Next(s, e).procs[x];
    if q.pc.Embryo? {
      ForkerStays(s, e, x);
    }
  }

  lemma ForkGoesOn(s: State, e: Step, x: nat)
    requires TreeInv(s) && Enabled(s, e) && x < |s.procs| && x != e.i
    requires x < |Next(s, e).procs| && Next(s, e).procs[x].pc == Embryo(e.i)
    ensures e.i < |Next(s, e).procs| && Forks(Next(s, e).procs[e.i].pc, x)
  {
    hide Inv, ChildrenOk, ParentOk;
    assert StatusOk(s, x);
    Forker(s, e.i);
  }

  /** The embryo of a fork that goes on stays its embryo. */
  lemma ForkerStays(s: State, e: Step, x: nat)
    requires TreeInv(s) && Enabled(s, e) && x < |s.procs| && x != e.i
    requires x < |Next(s, e).procs| && Next(s, e).procs[x].pc.Embryo?
    ensures var f := Next(s, e).procs[x].pc.forker;
      f < |s.procs| && f < |Next(s, e).procs| && Forks(Next(s, e).procs[f].pc, x)
  {
    hide Inv, ChildrenOk, ParentOk, Next, Enabled;
    assert StatusOk(s, x);
    SameLength(s, e);
    InRange(s, e);
    Others(s, e, x);
    var f := Next(s, e).procs[x].pc.forker;
    if f != e.i {
      Others(s, e, f);
    } else {
      ForkGoesOn(s, e, x);
    }
  }

  lemma StatusSelf(s: State, e: Step)
    requires TreeInv(s) && Enabled(s, e)
    ensures e.i < |Next(s, e).procs| && StatusOk(Next(s, e), e.i)
  {
    hide Inv, ChildrenOk, ParentOk;
    assert StatusOk(s, e.i);
    Forker(s, e.i);
    FamilyOk(s, e);
    var p := s.procs[e.i];
    if p.pc.Embryo? {
      EmbryoIdle(s, e);
    }
  }

  /** Only `kill` steps on behalf of a slot that `fork` is setting up. */
  lemma EmbryoIdle(s: State, e: Step)
    requires TreeInv(s) && Enabled(s, e) && s.procs[e.i].pc.Embryo?
    ensures e.Kill? && |Next(s, e).procs| == |s.procs|
    ensures Next(s, e).procs[e.i] == s.procs[e.i].(killed := true)
    ensures forall x :: 0 <= x < |s.procs| && x != e.i ==> Next(s, e).procs[x] == s.procs[x]
  {
    hide Inv, ChildrenOk, ParentOk;
    assert StatusOk(s, e.i);
  }

  /** The child of a fork that somebody else steps beside. */
  lemma ChildOther(s: State, e: Step, x: nat, c: nat)
    requires TreeInv(s) && Enabled(s, e) && x < |s.procs| && x != e.i && Forks(s.procs[x].pc, c)
    ensures c < |s.procs| && c < |Next(s, e).procs| && Next(s, e).procs[c].parent == s.procs[c].parent
  {
    hide Inv, ChildrenOk, Next, Enabled;
    Forker(s, x);
    SameLength(s, e);
    assert ParentOk(s, c);
    if c == e.i {
      EmbryoIdle(s, e);
    } else {
      Others(s, e, c);
    }
  }

  lemma ParentOther(s: State, e: Step, x: nat)
    requires TreeInv(s) && Enabled(s, e) && x < |s.procs| && x != e.i
    ensures x < |Next(s, e).procs| && ParentOk(Next(s, e), x)
  {
    hide Inv, ChildrenOk, Next, Enabled;
    SameLength(s, e);
    InRange(s, e);
    assert ParentOk(s, x) && StatusOk(s, x);
    Others(s, e, x);
    var pc := s.procs[x].pc;
    if pc.ForkHave? || pc.ForkLocked? || pc.ForkSet? {
      ChildOther(s, e, x, pc.c);
    }
    if pc.Embryo? {
      EmbryoRuns(s, e, x);
    }
  }

  /** The child that fork lets run has the forker as its parent. */
  lemma RunsWhenSet(s: State, e: Step)
    requires TreeInv(s) && Enabled(s, e)
    ensures e.ForkRun? ==> e.i < |s.procs| && s.procs[e.i].pc.ForkSet?
  {
  }

  /** A new process starts with its forker as its parent. */
  lemma EmbryoRuns(s: State, e: Step, x: nat)
    requires TreeInv(s) && Enabled(s, e) && x < |s.procs| && x != e.i && s.procs[x].pc.Embryo?
    ensures x < |Next(s, e).procs|
    ensures Next(s, e).procs[x].pc.User? ==> Next(s, e).procs[x].parent == e.i
  {
    hide Inv, ChildrenOk, Next, Enabled;
    InRange(s, e);
    SameLength(s, e);
    Others(s, e, x);
    assert ParentOk(s, e.i) && StatusOk(s, x);
    RunsWhenSet(s, e);
  }

  predicate IsFork(e: Step) {
    e.ForkAlloc? || e.ForkAbort? || e.ForkLock? || e.ForkParent? || e.ForkRun?
  }

  lemma ParentForker(s: State, e: Step)
    requires TreeInv(s) && Enabled(s, e) && IsFork(e)
    ensures e.i < |Next(s, e).procs| && ParentOk(Next(s, e), e.i)
  {
    hide Inv, ChildrenOk;
    assert ParentOk(s, e.i) && StatusOk(s, e.i);
    Forker(s, e.i);
    FamilyOk(s, e);
    if e.ForkAlloc? {
      assert ParentOk(s, e.c);
    }
  }

  lemma ParentSelf(s: State, e: Step)
    requires TreeInv(s) && Enabled(s, e) && !IsFork(e)
    ensures e.i < |Next(s, e).procs| && ParentOk(Next(s, e), e.i)
  {
    hide Inv, ChildrenOk;
    assert ParentOk(s, e.i) && StatusOk(s, e.i);
    Forker(s, e.i);
    FamilyOk(s, e);
  }

  /** What one step does to one parent link. */
  predicate LinkStep(s: State, e: Step, c: nat)
    requires Enabled(s, e) && c < |s.procs| && c < |Next(s, e).procs|
  {
    var t := Next(s, e);
    if e.ForkParent? && c == s.procs[e.i].pc.c then
      s.procs[c].parent == NONE && t.procs[c].parent == e.i
    else if e.Adopt? && c == s.procs[e.i].pc.k && s.procs[c].parent == e.i then
      t.procs[c].parent == s.init
    else if e.ScanSlot? && e.copied && c == s.procs[e.i].pc.k && ZombieChild(s, e.i, c) then
      t.procs[c].parent == NONE
    else t.procs[c].parent == s.procs[c].parent
  }

  lemma LinkSteps(s: State, e: Step, c: nat)
    requires TreeInv(s) && Enabled(s, e) && c < |s.procs|
    ensures c < |Next(s, e).procs| && LinkStep(s, e, c)
  {
    hide Inv, ChildrenOk;
    assert ParentOk(s, e.i);
    Forker(s, e.i);
  }

  /** The step changes the children of `x`. */
  predicate Moves(s: State, e: Step, x: nat)
    requires Enabled(s, e)
  {
    || (e.ForkParent? && x == e.i)
    || (e.ScanSlot? && x == e.i)
    || (e.Adopt? && (x == e.i || x == s.init))
  }

  lemma SameChildren(s: State, e: Step, x: nat, k: nat)
    requires TreeInv(s) && Enabled(s, e) && x < |s.procs| && !Moves(s, e, x)
    ensures NoChildBelow(Next(s, e), x, k) <==> NoChildBelow(s, x, k)
  {
    hide TreeInv, Next, Enabled;
    SameLength(s, e);
    var t := Next(s, e);
    forall c: nat | c < |s.procs| ensures ChildOf(t, x, c) <==> ChildOf(s, x, c) {
      LinkSteps(s, e, c);
    }
  }

  lemma ChildrenOther(s: State, e: Step, x: nat)
    requires TreeInv(s) && Enabled(s, e) && x < |s.procs| && x != e.i && !(e.Adopt? && x == s.init)
    ensures x < |Next(s, e).procs| && ChildrenOk(Next(s, e), x)
  {
    hide Inv, Next, Enabled, StatusOk, ParentOk, NoChildBelow;
    SameLength(s, e);
    var p, n := s.procs[x], |s.procs|;
    assert ChildrenOk(s, x);
    Others(s, e, x);
    SameChildren(s, e, x, n);
    if p.pc.Reparent? || p.pc.Scan? {
      SameChildren(s, e, x, p.pc.k);
    } else if p.pc.ReparentWake? {
      SameChildren(s, e, x, p.pc.k + 1);
    }
  }

  /** init may get a child while it sleeps, and not while it scans. */
  lemma ChildrenInit(s: State, e: Step)
    requires TreeInv(s) && Enabled(s, e) && e.Adopt? && s.init != e.i
    ensures s.init < |Next(s, e).procs| && ChildrenOk(Next(s, e), s.init)
  {
    hide StatusOk, LockOk, ProcOk, NotLost, NoneBelow;
    var x, t := s.init, Next(s, e);
    assert ChildrenOk(s, x) && ParentOk(s, x);
    LockAlone(s, e.i, x);
    if InSleep(s.procs[x].pc) {
      var c: nat :| c < |s.procs| && ChildOf(s, x, c);
      assert ChildOf(t, x, c);
    }
  }

  lemma ChildrenSelf(s: State, e: Step)
    requires TreeInv(s) && Enabled(s, e) && !Moves(s, e, e.i)
    ensures e.i < |Next(s, e).procs| && ChildrenOk(Next(s, e), e.i)
  {
    hide Inv, StatusOk, ParentOk, NoChildBelow;
    var i, n := e.i, |s.procs|;
    var pc := s.procs[i].pc;
    assert ChildrenOk(s, i);
    SameChildren(s, e, i, n);
    if pc.Reparent? || pc.Scan? {
      SameChildren(s, e, i, pc.k);
    } else if pc.ReparentWake? {
      SameChildren(s, e, i, pc.k + 1);
    }
    NoneYet(Next(s, e), i);
  }

  lemma NoneYet(s: State, i: nat)
    ensures NoChildBelow(s, i, 0)
  {
  }

  /** One slot more has been looked at. */
  lemma OneMore(s: State, i: nat, k: nat)
    requires k < |s.procs|
    ensures NoChildBelow(s, i, k + 1) <==> NoChildBelow(s, i, k) && !ChildOf(s, i, k)
  {
    if NoChildBelow(s, i, k + 1) {
      forall c: nat | c < k ensures !ChildOf(s, i, c) {
      }
    }
  }

  lemma ChildrenForker(s: State, e: Step)
    requires TreeInv(s) && Enabled(s, e) && e.ForkParent?
    ensures e.i < |Next(s, e).procs| && ChildrenOk(Next(s, e), e.i)
  {
    hide TreeInv, NoChildBelow;
  }

  lemma ChildrenScan(s: State, e: Step)
    requires TreeInv(s) && Enabled(s, e) && e.ScanSlot?
    ensures e.i < |Next(s, e).procs| && ChildrenOk(Next(s, e), e.i)
  {
    hide Inv, StatusOk, ParentOk;
    var i, t, k := e.i, Next(s, e), s.procs[e.i].pc.k;
    assert ChildrenOk(s, i);
    if t.procs[i].pc.Scan? {
      forall c: nat | c < |s.procs| ensures ChildOf(t, i, c) <==> ChildOf(s, i, c) {
      }
      OneMore(s, i, k);
    }
  }

  lemma ChildrenAdopt(s: State, e: Step)
    requires TreeInv(s) && Enabled(s, e) && e.Adopt?
    ensures e.i < |Next(s, e).procs| && ChildrenOk(Next(s, e), e.i)
  {
    hide Inv, StatusOk;
    var i, t, k := e.i, Next(s, e), s.procs[e.i].pc.k;
    assert ChildrenOk(s, i) && ParentOk(s, i);
    forall c: nat | c < k + 1 && c < |s.procs| ensures !ChildOf(t, i, c) {
      assert c < k ==> !ChildOf(s, i, c);
    }
  }

  lemma ChildrenKeeps(s: State, e: Step, x: nat)
    requires TreeInv(s) && Enabled(s, e) && x < |s.procs|
    ensures x < |Next(s, e).procs| && ChildrenOk(Next(s, e), x)
  {
    hide TreeInv, Next, ChildrenOk, Enabled;
    if x != e.i {
      if e.Adopt? && x == s.init {
        ChildrenInit(s, e);
      } else {
        ChildrenOther(s, e, x);
      }
    } else if e.ForkParent? {
      ChildrenForker(s, e);
    } else if e.ScanSlot? {
      ChildrenScan(s, e);
    } else if e.Adopt? {
      ChildrenAdopt(s, e);
    } else {
      ChildrenSelf(s, e);
    }
  }

  lemma LockInTable(s: State, e: Step)
    requires TreeInv(s) && Enabled(s, e)
    ensures NONE <= Next(s, e).waitLock < |s.procs|
  {
    hide Inv, StatusOk, ParentOk, ChildrenOk;
  }

  lemma StepKeepsTree(s: State, e: Step)
    requires TreeInv(s) && Enabled(s, e)
    ensures TreeInv(Next(s, e))
  {
    hide Inv, Next, StatusOk, ParentOk, ChildrenOk, Enabled;
    StepKeepsInv(s, e);
    SameLength(s, e);
    LockInTable(s, e);
    var t := Next(s, e);
    forall x: nat | x < |t.procs| ensures StatusOk(t, x) && ParentOk(t, x) && ChildrenOk(t, x) {
      if x == e.i {
        StatusSelf(s, e);
        if IsFork(e) {
          ParentForker(s, e);
        } else {
          ParentSelf(s, e);
        }
      } else {
        StatusOther(s, e, x);
        ParentOther(s, e, x);
      }
      ChildrenKeeps(s, e, x);
    }
  }

  // ---- whole runs ----

  lemma BootTree(n: nat)
    requires n > 0
    ensures TreeInv(Boot(n))
  {
    BootOk(n);
    var s := Boot(n);
    forall x: nat | x < n ensures StatusOk(s, x) && ParentOk(s, x) && ChildrenOk(s, x) {
    }
  }

  lemma {:induction false} RunKeepsTree(s: State, run: seq<Step>)
    requires TreeInv(s) && LegalRun(s, run)
    ensures TreeInv(After(s, run))
    decreases |run|
  {
    hide TreeInv;
    if run != [] {
      StepKeepsTree(s, run[0]);
      RunKeepsTree(Next(s, run[0]), run[1..]);
    }
  }

  ghost predicate Reachable(n: nat, s: State) {
    n > 0 && exists run :: LegalRun(Boot(n), run) && After(Boot(n), run) == s
  }

  lemma ReachableOk(n: nat, s: State)
    requires Reachable(n, s)
    ensures TreeInv(s)
  {
    hide TreeInv, LegalRun, After;
    var run :| LegalRun(Boot(n), run) && After(Boot(n), run) == s;
    BootTree(n);
    RunKeepsTree(Boot(n), run);
  }

  /**
   At the end of its scan `wait` gives up if and only if the caller was killed or no slot names it as
   parent at that moment, and otherwise goes to sleep with `wait_lock` still held.
   */
  lemma WaitDecides(n: nat, s: State, i: nat)
    requires Reachable(n, s) && Enabled(s, ScanEnd(i))
    ensures var t := Next(s, ScanEnd(i));
      && t.procs[i].pc.User? == (s.procs[i].killed || Childless(s, i))
      && (t.procs[i].pc.User? ==> t.waitLock == NONE)
      && (!t.procs[i].pc.User? ==> t.procs[i].pc.SleepEnter? && t.waitLock == i)
      && t.procs == s.procs[i := s.procs[i].(pc := t.procs[i].pc)]
  {
    ReachableOk(n, s);
    assert ChildrenOk(s, i) && LockOk(s, i);
  }

  /** In every interleaving a process that sleeps in `wait` has a child, and unless it is being woken a live one. */
  lemma SleeperHasChild(n: nat, s: State, i: nat) returns (c: nat)
    requires Reachable(n, s) && i < |s.procs| && InSleep(s.procs[i].pc)
    ensures c < |s.procs| && ChildOf(s, i, c) && !s.procs[c].status.Unused?
    ensures s.waitLock == NONE && Waiting(s.procs[i]) ==> !s.procs[c].status.Zombie?
  {
    ReachableOk(n, s);
    assert ChildrenOk(s, i) && NotLost(s, i);
    c :| c < |s.procs| && ChildOf(s, i, c);
    assert ParentOk(s, c) && StatusOk(s, c);
    if s.waitLock == NONE && Waiting(s.procs[i]) {
      assert !ZombieChild(s, i, c);
    }
  }

  /** In every interleaving the parent of a process is neither an unused slot nor past `reparent` in `exit`. */
  lemma ParentAlive(n: nat, s: State, x: nat)
    requires Reachable(n, s) && x < |s.procs| && !s.procs[x].status.Unused? && !s.procs[x].status.Used?
    ensures x == s.init <==> s.procs[x].parent == NONE
    ensures x != s.init ==> var q := s.procs[x].parent;
      0 <= q < |s.procs| && (s.procs[q].status.Ready? || s.procs[q].status.Sleeping?) && !Abandoned(s.procs[q].pc)
  {
    ReachableOk(n, s);
    assert ParentOk(s, x) && StatusOk(s, x);
    if x != s.init {
      var q := s.procs[x].parent;
      assert ChildrenOk(s, q) && StatusOk(s, q) && ProcOk(s, q);
      assert ChildOf(s, q, x);
    }
  }

  // ---- everyone descends from init ----

  /** Parents have smaller numbers than their children. */
  predicate Below(s: State, r: seq<nat>, x: nat)
    requires x < |s.procs| == |r|
  {
    var q := s.procs[x].parent;
    0 <= q < |r| ==> r[q] < r[x]
  }

  ghost predicate Ranks(s: State, r: seq<nat>) {
    && |r| == |s.procs| && s.init < |r| && r[s.init] == 0
    && forall x: nat {:trigger Below(s, r, x)} :: x < |r| ==> Below(s, r, x)
  }

  lemma StepRanks(s: State, e: Step, r: seq<nat>) returns (r': seq<nat>)
    requires TreeInv(s) && Enabled(s, e) && Ranks(s, r)
    ensures Ranks(Next(s, e), r')
  {
    hide Inv, Next, StatusOk, ChildrenOk, Enabled;
    SameLength(s, e);
    InRange(s, e);
    var t := Next(s, e);
    r' := r;
    if e.ForkParent? {
      var c := NewChild(s, e);
      r' := r[c := r[e.i] + 1];
    }
    forall x: nat | x < |r'| ensures Below(t, r', x) {
      LinkSteps(s, e, x);
      assert Below(s, r, x);
      if e.ForkParent? {
        var c := NewChild(s, e);
        assert !ChildOf(s, c, x);
      }
    }
  }

  lemma NewChild(s: State, e: Step) returns (c: nat)
    requires TreeInv(s) && Enabled(s, e) && e.ForkParent?
    ensures e.i < |s.procs| && s.procs[e.i].pc.ForkLocked? && c == s.procs[e.i].pc.c
    ensures c < |s.procs| && c != e.i && c != s.init && Childless(s, c)
  {
    c := s.procs[e.i].pc.c;
    Forker(s, e.i);
    assert ParentOk(s, c) && ChildrenOk(s, c);
  }

  lemma {:induction false} RunRanks(s: State, run: seq<Step>, r: seq<nat>) returns (r': seq<nat>)
    requires TreeInv(s) && LegalRun(s, run) && Ranks(s, r)
    ensures Ranks(After(s, run), r')
    decreases |run|
  {
    hide TreeInv, Ranks;
    if run == [] {
      r' := r;
    } else {
      var q := StepRanks(s, run[0], r);
      StepKeepsTree(s, run[0]);
      r' := RunRanks(Next(s, run[0]), run[1..], q);
    }
  }

  /** `d` steps up from `x` is init. */
  predicate Descends(s: State, x: nat, d: nat)
    decreases d
  {
    x < |s.procs| &&
    if d == 0 then x == s.init else s.procs[x].parent >= 0 && Descends(s, s.procs[x].parent, d - 1)
  }

  /** In every interleaving every process descends from init, and there is no cycle of parents. */
  lemma AllDescend(n: nat, s: State, x: nat) returns (d: nat)
    requires Reachable(n, s) && x < |s.procs| && !s.procs[x].status.Unused? && !s.procs[x].status.Used?
    ensures Descends(s, x, d)
  {
    hide TreeInv, LegalRun, After;
    var run :| LegalRun(Boot(n), run) && After(Boot(n), run) == s;
    BootTree(n);
    var r := RunRanks(Boot(n), run, seq(n, i => 0));
    d := Climb(n, s, r, x);
  }

  lemma {:induction false} Climb(n: nat, s: State, r: seq<nat>, x: nat) returns (d: nat)
    requires Reachable(n, s) && Ranks(s, r) && x < |s.procs|
    requires !s.procs[x].status.Unused? && !s.procs[x].status.Used?
    ensures Descends(s, x, d)
    decreases r[x]
  {
    hide Reachable;
    ParentAlive(n, s, x);
    if x == s.init {
      d := 0;
    } else {
      assert Below(s, r, x);
      var up := Climb(n, s, r, s.procs[x].parent);
      d := up + 1;
    }
  }

  // ---- what a step may do to a process ----

  /** The life of a process, and who may take it from one state to the next. */
  predicate LifeStep(s: State, e: Step, x: nat)
    requires Enabled(s, e) && x < |s.procs| && x < |Next(s, e).procs|
  {
    var p, q := s.procs[x], Next(s, e).procs[x];
    match (p.status, q.status)
    case (Unused, Used) => e == ForkAlloc(e.i, x)
    case (Used, Ready) => e.ForkRun? && Forks(s.procs[e.i].pc, x) && p.parent == e.i
    case (Used, Unused) => e.ForkAbort? && Forks(s.procs[e.i].pc, x) && q == Freed()
    case (Ready, Sleeping) => x == e.i && q.chan == (if e.SleepOther? then OTHER else x)
    case (Sleeping, Ready) =>
      || e == Kill(x) || e == WakeOther(x)
      || (e.WakeInit? && p.chan == s.init) || (e.WakeParent? && p.chan == s.procs[e.i].parent)
    case (Ready, Zombie) => x == e.i && x != s.init && Childless(s, x)
    case (Zombie, Unused) => e.ScanSlot? && e.copied && ZombieChild(s, e.i, x) && NoneBelow(s, e.i, x) && q == Freed()
    case (_, _) => p.status == q.status
  }

  lemma ZombieIs(s: State, i: nat)
    requires TreeInv(s) && i < |s.procs|
    ensures var pc := s.procs[i].pc; s.procs[i].status.Zombie? <==> pc.DyingLocked? || pc.Dying? || pc.Dead?
  {
    assert ProcOk(s, i);
  }

  lemma LifeSelf(s: State, e: Step)
    requires TreeInv(s) && Enabled(s, e)
    ensures e.i < |Next(s, e).procs| && LifeStep(s, e, e.i)
  {
    hide Inv, NoneBelow, NoChildBelow;
    FamilyOk(s, e);
    Forker(s, e.i);
    ZombieIs(s, e.i);
    assert StatusOk(s, e.i) && ParentOk(s, e.i) && ChildrenOk(s, e.i);
  }

  /** The scan of `wait` has passed no ZOMBIE child. */
  lemma Passed(s: State, i: nat)
    requires TreeInv(s) && i < |s.procs|
    ensures s.procs[i].pc.Scan? ==> NoneBelow(s, i, s.procs[i].pc.k)
  {
    assert ProcOk(s, i);
  }

  lemma LifeOther(s: State, e: Step, x: nat)
    requires TreeInv(s) && Enabled(s, e) && x < |s.procs| && x != e.i
    ensures x < |Next(s, e).procs| && LifeStep(s, e, x)
  {
    hide Inv, NoneBelow, ChildrenOk, Next, Enabled;
    InRange(s, e);
    SameLength(s, e);
    Others(s, e, x);
    Passed(s, e.i);
    assert StatusOk(s, x) && ParentOk(s, e.i);
    RunsWhenSet(s, e);
  }

  lemma LifeSteps(n: nat, s: State, e: Step, x: nat)
    requires Reachable(n, s) && Enabled(s, e) && x < |s.procs|
    ensures x < |Next(s, e).procs| && LifeStep(s, e, x)
  {
    hide *;
    ReachableOk(n, s);
    if x == e.i {
      LifeSelf(s, e);
    } else {
      LifeOther(s, e, x);
    }
  }

  /** Killed, and yet going to sleep or asleep in `wait`. */
  predicate Overslept(p: Proc) {
    p.killed && (p.pc.SleepEnter? || p.pc.SleepLocked? || Waiting(p))
  }

  lemma KilledSelf(s: State, e: Step)
    requires TreeInv(s) && Enabled(s, e)
    ensures e.i < |Next(s, e).procs|
    ensures var p, q := s.procs[e.i], Next(s, e).procs[e.i];
      && (q.killed <==> p.killed || e.Kill?)
      && (q.status.Unused? <==> p.status.Unused?)
      && (!Overslept(p) ==> (Overslept(q) <==> e.Kill? && p.pc.SleepEnter?))
  {
    hide Inv, ChildrenOk, ParentOk;
    assert StatusOk(s, e.i);
    Forker(s, e.i);
    FamilyOk(s, e);
  }

  lemma KilledOther(s: State, e: Step, x: nat)
    requires TreeInv(s) && Enabled(s, e) && x < |s.procs| && x != e.i
    ensures x < |Next(s, e).procs|
    ensures var p, q := s.procs[x], Next(s, e).procs[x];
      && (q.killed <==> p.killed && !(q.status.Unused? && !p.status.Unused?))
      && (Overslept(q) ==> Overslept(p))
  {
    hide Inv, ChildrenOk, ParentOk, Enabled, Next;
    assert StatusOk(s, x);
    Others(s, e, x);
  }

  /** `killed` is set by `kill` and cleared only with the slot. */
  lemma KilledStays(n: nat, s: State, e: Step, x: nat)
    requires Reachable(n, s) && Enabled(s, e) && x < |s.procs|
    ensures x < |Next(s, e).procs|
    ensures Next(s, e).procs[x].killed <==>
      (s.procs[x].killed || e == Kill(x)) && !(Next(s, e).procs[x].status.Unused? && !s.procs[x].status.Unused?)
  {
    hide *;
    ReachableOk(n, s);
    if x == e.i {
      KilledSelf(s, e);
    } else {
      KilledOther(s, e, x);
    }
  }

  /**
   `wait` looks at `killed` before `sleep` takes the process's lock. A `kill` between the two is the one
   way for a killed process to sleep in `wait`.
   */
  lemma KillMissed(n: nat, s: State, e: Step, x: nat)
    requires Reachable(n, s) && Enabled(s, e) && x < |s.procs| && !Overslept(s.procs[x])
    ensures x < |Next(s, e).procs|
    ensures Overslept(Next(s, e).procs[x]) <==> e == Kill(x) && s.procs[x].pc.SleepEnter?
  {
    hide *;
    ReachableOk(n, s);
    if x == e.i {
      KilledSelf(s, e);
    } else {
      KilledOther(s, e, x);
    }
  }

  /** A `fork` that finds no memory leaves the process table as it was. */
  lemma ForkUndone(s: State, i: nat, c: nat)
    requires Enabled(s, ForkAlloc(i, c)) && s.procs[c] == Freed()
    ensures var t := Next(s, ForkAlloc(i, c));
      t.procs[c].status.Used? && Enabled(t, ForkAbort(i)) && Next(t, ForkAbort(i)) == s
  {
    var t := Next(s, ForkAlloc(i, c));
    assert Next(t, ForkAbort(i)).procs == s.procs;
  }

  lemma SleepAndWake(s: State, i: nat, kill: bool)
    requires i < |s.procs| && s.procs[i].pc.User? && s.procs[i].status.Ready? && s.procs[i].chan == NONE
    ensures Enabled(s, SleepOther(i))
    ensures var t := Next(s, SleepOther(i));
      && t.procs[i].status.Sleeping? && !Enabled(t, Resume(i)) && Enabled(t, WakeOther(i)) && Enabled(t, Kill(i))
      && var u := Next(t, if kill then Kill(i) else WakeOther(i));
         Enabled(u, Resume(i)) && Next(u, Resume(i)) == Put(s, i, s.procs[i].(killed := s.procs[i].killed || kill))
  {
    var t := Next(s, SleepOther(i));
    var u := Next(t, if kill then Kill(i) else WakeOther(i));
    assert Next(u, Resume(i)).procs == Put(s, i, s.procs[i].(killed := s.procs[i].killed || kill)).procs;
  }

  /** Sleep on a channel that is no process, and a wakeup there or a `kill`: the call goes on where it was. */
  lemma SleepElsewhere(n: nat, s: State, i: nat, kill: bool)
    requires Reachable(n, s) && i < |s.procs| && s.procs[i].pc.User?
    ensures Enabled(s, SleepOther(i))
    ensures var t := Next(s, SleepOther(i));
      && t.procs[i].status.Sleeping? && !Enabled(t, Resume(i)) && Enabled(t, WakeOther(i)) && Enabled(t, Kill(i))
      && var u := Next(t, if kill then Kill(i) else WakeOther(i));
         Enabled(u, Resume(i)) && Next(u, Resume(i)) == Put(s, i, s.procs[i].(killed := s.procs[i].killed || kill))
  {
    hide Next, Enabled;
    ReachableOk(n, s);
    ZombieIs(s, i);
    assert StatusOk(s, i);
    SleepAndWake(s, i, kill);
  }

  // ---- fork, wait, exit, and the child is gone again ----

  ghost predicate Reaches(s: State, t: State) {
    exists run :: LegalRun(s, run) && After(s, run) == t
  }

  lemma {:induction false} RunOn(s: State, a: seq<Step>, b: seq<Step>)
    requires LegalRun(s, a) && LegalRun(After(s, a), b)
    ensures LegalRun(s, a + b) && After(s, a + b) == After(After(s, a), b)
    decreases |a|
  {
    hide Enabled, Next;
    if a == [] {
      assert a + b == b;
    } else {
      assert (a + b)[0] == a[0] && (a + b)[1..] == a[1..] + b;
      RunOn(Next(s, a[0]), a[1..], b);
    }
  }

  lemma Stays(s: State)
    ensures Reaches(s, s)
  {
    assert LegalRun(s, []) && After(s, []) == s;
  }

  lemma Then(s: State, t: State, e: Step)
    requires Reaches(s, t) && Enabled(t, e)
    ensures Reaches(s, Next(t, e))
  {
    hide Enabled, Next;
    var a :| LegalRun(s, a) && After(s, a) == t;
    assert LegalRun(t, [e]) && After(t, [e]) == Next(t, e) by {
      assert [e][1..] == [];
    }
    RunOn(s, a, [e]);
  }

  lemma Onward(s: State, t: State, u: State)
    requires Reaches(s, t) && Reaches(t, u)
    ensures Reaches(s, u)
  {
    hide LegalRun, After;
    var a :| LegalRun(s, a) && After(s, a) == t;
    var b :| LegalRun(t, b) && After(t, b) == u;
    RunOn(s, a, b);
  }

  /** `s` with two processes and `wait_lock` as given. */
  function With(s: State, i: nat, p: Proc, c: nat, q: Proc, lock: int): (t: State)
    requires i < |s.procs| && c < |s.procs|
  {
    State(lock, s.init, s.procs[i := p][c := q])
  }

  function Parent(pc: Pc, up: int): Proc {
    Proc(Ready, NONE, up, false, pc)
  }

  predicate Idle(s: State, i: nat, x: nat)
    requires x < |s.procs|
  {
    !Held(s.procs[x].pc) && s.procs[x].parent != i && !(s.procs[x].status.Sleeping? && s.procs[x].chan == i)
  }

  /** Nothing is going on but what processes `i` and `c` will do; slot `c` is unused. */
  predicate Calling(s: State, i: nat, c: nat) {
    && i < |s.procs| && c < |s.procs| && i != c && c != s.init && s.waitLock == NONE
    && s.procs[i] == Parent(User, s.procs[i].parent) && s.procs[i].parent != i && s.procs[i].parent != c
    && s.procs[c] == Freed()
    && (forall x: nat {:trigger Idle(s, i, x)} :: x < |s.procs| ==> Idle(s, i, x) && s.procs[x].parent != c)
  }

  lemma {:induction false} Scans(s: State, i: nat, c: nat, q: Proc, m: nat)
    requires Calling(s, i, c) && q.parent == i && !Held(q.pc) && m <= |s.procs|
    requires m <= c || !q.status.Zombie?
    ensures var up := s.procs[i].parent;
      Reaches(With(s, i, Parent(Scan(0, false), up), c, q, i), With(s, i, Parent(Scan(m, m > c), up), c, q, i))
    decreases m
  {
    hide Reaches;
    var up := s.procs[i].parent;
    var a := With(s, i, Parent(Scan(0, false), up), c, q, i);
    if m == 0 {
      Stays(a);
    } else {
      Scans(s, i, c, q, m - 1);
      var b := With(s, i, Parent(Scan(m - 1, m - 1 > c), up), c, q, i);
      assert Idle(s, i, m - 1);
      Then(a, b, ScanSlot(i, true));
      assert Next(b, ScanSlot(i, true)).procs == With(s, i, Parent(Scan(m, m > c), up), c, q, i).procs;
    }
  }

  lemma {:induction false} Adopts(s: State, i: nat, p: Proc, c: nat, m: nat)
    requires Calling(s, i, c) && p.parent == s.procs[i].parent && m <= |s.procs|
    ensures Reaches(With(s, i, p, c, Parent(Reparent(0), i), c), With(s, i, p, c, Parent(Reparent(m), i), c))
    decreases m
  {
    hide Reaches;
    var a := With(s, i, p, c, Parent(Reparent(0), i), c);
    if m == 0 {
      Stays(a);
    } else {
      Adopts(s, i, p, c, m - 1);
      var b := With(s, i, p, c, Parent(Reparent(m - 1), i), c);
      assert Idle(s, i, m - 1);
      Then(a, b, Adopt(c));
      assert Next(b, Adopt(c)).procs == With(s, i, p, c, Parent(Reparent(m), i), c).procs;
    }
  }

  function Sleeper(i: nat, up: int, awake: bool): Proc {
    Proc(if awake then Ready else Sleeping, i, up, false, Asleep)
  }

  lemma {:induction false} Wakes(s: State, i: nat, c: nat, m: nat)
    requires Calling(s, i, c) && m <= |s.procs|
    ensures var up := s.procs[i].parent;
      Reaches(With(s, i, Sleeper(i, up, false), c, Parent(ExitWake(0), i), c),
              With(s, i, Sleeper(i, up, m > i), c, Parent(ExitWake(m), i), c))
    decreases m
  {
    hide Reaches;
    var up := s.procs[i].parent;
    var a := With(s, i, Sleeper(i, up, false), c, Parent(ExitWake(0), i), c);
    if m == 0 {
      Stays(a);
    } else {
      Wakes(s, i, c, m - 1);
      var b := With(s, i, Sleeper(i, up, m - 1 > i), c, Parent(ExitWake(m - 1), i), c);
      assert Idle(s, i, m - 1);
      Then(a, b, WakeParent(c));
      assert Next(b, WakeParent(c)).procs == With(s, i, Sleeper(i, up, m > i), c, Parent(ExitWake(m), i), c).procs;
    }
  }

  /** `fork`, up to the child that can run. */
  lemma ForkRuns(s: State, i: nat, c: nat)
    requires Calling(s, i, c)
    ensures Reaches(s, With(s, i, s.procs[i], c, Parent(User, i), NONE))
  {
    hide Reaches;
    var up := s.procs[i].parent;
    var child := Proc(Used, NONE, NONE, false, Embryo(i));
    Stays(s);
    Then(s, s, ForkAlloc(i, c));
    var s1 := With(s, i, Parent(ForkHave(c), up), c, child, NONE);
    assert Next(s, ForkAlloc(i, c)).procs == s1.procs;
    Then(s, s1, ForkLock(i));
    var s2 := With(s, i, Parent(ForkLocked(c), up), c, child, i);
    assert Next(s1, ForkLock(i)).procs == s2.procs;
    Then(s, s2, ForkParent(i));
    var s3 := With(s, i, Parent(ForkSet(c), up), c, child.(parent := i), NONE);
    assert Next(s2, ForkParent(i)).procs == s3.procs;
    Then(s, s3, ForkRun(i));
    assert Next(s3, ForkRun(i)).procs == With(s, i, s.procs[i], c, Parent(User, i), NONE).procs;
  }

  /** `wait` with a live child, up to its decision to sleep. */
  lemma WaitEnters(s: State, i: nat, c: nat)
    requires Calling(s, i, c)
    ensures Reaches(With(s, i, s.procs[i], c, Parent(User, i), NONE),
                    With(s, i, Parent(SleepEnter, s.procs[i].parent), c, Parent(User, i), i))
  {
    hide Reaches;
    var up, child, n := s.procs[i].parent, Parent(User, i), |s.procs|;
    var a := With(s, i, s.procs[i], c, child, NONE);
    Stays(a);
    Then(a, a, WaitLock(i));
    var b := With(s, i, Parent(Scan(0, false), up), c, child, i);
    assert Next(a, WaitLock(i)).procs == b.procs;
    Scans(s, i, c, child, n);
    var d := With(s, i, Parent(Scan(n, true), up), c, child, i);
    Onward(a, b, d);
    Then(a, d, ScanEnd(i));
    assert Next(d, ScanEnd(i)).procs == With(s, i, Parent(SleepEnter, up), c, child, i).procs;
  }

  /** From the decision to sleep to sleep, whether killed or not. */
  lemma FallsAsleep(s: State, i: nat, p: Proc, c: nat, q: Proc, a: State)
    requires i < |s.procs| && c < |s.procs| && i != c && p.pc.SleepEnter? && p.status.Ready?
    requires Reaches(a, With(s, i, p, c, q, i))
    ensures Reaches(a, With(s, i, p.(status := Sleeping, chan := i, pc := Asleep), c, q, NONE))
  {
    hide Reaches;
    var b := With(s, i, p, c, q, i);
    Then(a, b, SleepLock(i));
    var b1 := With(s, i, p.(pc := SleepLocked), c, q, i);
    assert Next(b, SleepLock(i)).procs == b1.procs;
    Then(a, b1, SleepRelease(i));
    var b2 := With(s, i, p.(pc := SleepReleased), c, q, NONE);
    assert Next(b1, SleepRelease(i)).procs == b2.procs;
    Then(a, b2, SleepSwitch(i));
    assert Next(b2, SleepSwitch(i)).procs ==
      With(s, i, p.(status := Sleeping, chan := i, pc := Asleep), c, q, NONE).procs;
  }

  /** `exit` of the child wakes its parent and leaves a ZOMBIE. */
  lemma ExitWakes(s: State, i: nat, c: nat)
    requires Calling(s, i, c)
    ensures var up := s.procs[i].parent;
      Reaches(With(s, i, Sleeper(i, up, false), c, Parent(User, i), NONE),
              With(s, i, Sleeper(i, up, true), c, Proc(Zombie, NONE, i, false, Dead), NONE))
  {
    hide Reaches;
    var up, n := s.procs[i].parent, |s.procs|;
    var p, p' := Sleeper(i, up, false), Sleeper(i, up, true);
    var a := With(s, i, p, c, Parent(User, i), NONE);
    Stays(a);
    Then(a, a, ExitLock(c));
    var b := With(s, i, p, c, Parent(Reparent(0), i), c);
    assert Next(a, ExitLock(c)).procs == b.procs;
    Adopts(s, i, p, c, n);
    var b1 := With(s, i, p, c, Parent(Reparent(n), i), c);
    Onward(a, b, b1);
    Then(a, b1, Adopt(c));
    var b2 := With(s, i, p, c, Parent(ExitWake(0), i), c);
    assert Next(b1, Adopt(c)).procs == b2.procs;
    Wakes(s, i, c, n);
    var b3 := With(s, i, p', c, Parent(ExitWake(n), i), c);
    Onward(a, b2, b3);
    Then(a, b3, WakeParent(c));
    var b4 := With(s, i, p', c, Parent(ExitReady, i), c);
    assert Next(b3, WakeParent(c)).procs == b4.procs;
    Dies(s, i, p', c, a, b4);
  }

  lemma Dies(s: State, i: nat, p: Proc, c: nat, a: State, b: State)
    requires i < |s.procs| && c < |s.procs| && i != c
    requires b == With(s, i, p, c, Parent(ExitReady, i), c) && Reaches(a, b)
    ensures Reaches(a, With(s, i, p, c, Proc(Zombie, NONE, i, false, Dead), NONE))
  {
    hide Reaches;
    Then(a, b, BecomeZombie(c));
    var b1 := With(s, i, p, c, Proc(Zombie, NONE, i, false, DyingLocked), c);
    assert Next(b, BecomeZombie(c)).procs == b1.procs;
    Then(a, b1, ReleaseDying(c));
    var b2 := With(s, i, p, c, Proc(Zombie, NONE, i, false, Dying), NONE);
    assert Next(b1, ReleaseDying(c)).procs == b2.procs;
    Then(a, b2, SwitchDead(c));
    assert Next(b2, SwitchDead(c)).procs == With(s, i, p, c, Proc(Zombie, NONE, i, false, Dead), NONE).procs;
  }

  /** Woken, `wait` finds the ZOMBIE and frees its slot. */
  lemma WaitReaps(s: State, i: nat, c: nat)
    requires Calling(s, i, c)
    ensures Reaches(With(s, i, Sleeper(i, s.procs[i].parent, true), c, Proc(Zombie, NONE, i, false, Dead), NONE), s)
  {
    hide Reaches;
    var up, zombie := s.procs[i].parent, Proc(Zombie, NONE, i, false, Dead);
    var a := With(s, i, Sleeper(i, up, true), c, zombie, NONE);
    Stays(a);
    Then(a, a, Resume(i));
    var b := With(s, i, Parent(Resumed, up), c, zombie, NONE);
    assert Next(a, Resume(i)).procs == b.procs;
    Then(a, b, WaitLock(i));
    var b1 := With(s, i, Parent(Scan(0, false), up), c, zombie, i);
    assert Next(b, WaitLock(i)).procs == b1.procs;
    Scans(s, i, c, zombie, c);
    var b2 := With(s, i, Parent(Scan(c, false), up), c, zombie, i);
    Onward(a, b1, b2);
    Then(a, b2, ScanSlot(i, true));
    assert Next(b2, ScanSlot(i, true)).procs == s.procs;
  }

  /**
   A process without children forks, waits and falls asleep; the child exits, which wakes it; it frees
   the child's slot and returns. The process table is as it was before.
   */
  lemma ForkWaitExit(s: State, i: nat, c: nat)
    requires Calling(s, i, c)
    ensures var asleep := With(s, i, Sleeper(i, s.procs[i].parent, false), c, Parent(User, i), NONE);
      Waiting(asleep.procs[i]) && Reaches(s, asleep) && Reaches(asleep, s)
  {
    hide Reaches;
    var up := s.procs[i].parent;
    var forked := With(s, i, s.procs[i], c, Parent(User, i), NONE);
    var asleep := With(s, i, Sleeper(i, up, false), c, Parent(User, i), NONE);
    ForkRuns(s, i, c);
    WaitEnters(s, i, c);
    Onward(s, forked, With(s, i, Parent(SleepEnter, up), c, Parent(User, i), i));
    FallsAsleep(s, i, Parent(SleepEnter, up), c, Parent(User, i), s);
    ExitWakes(s, i, c);
    WaitReaps(s, i, c);
    Onward(asleep, With(s, i, Sleeper(i, up, true), c, Proc(Zombie, NONE, i, false, Dead), NONE), s);
  }

  lemma BootCalling(n: nat)
    requires n > 1
    ensures Calling(Boot(n), 0, 1)
  {
    var boot := Boot(n);
    forall x: nat | x < n ensures Idle(boot, 0, x) && boot.procs[x].parent != 1 {
    }
  }

  /** Some run from boot has init asleep in `wait`. */
  lemma SomeoneSleeps(n: nat) returns (s: State)
    requires n > 1
    ensures Reachable(n, s) && |s.procs| == n && Waiting(s.procs[0]) && s.procs[0].pc.Asleep?
  {
    hide LegalRun, After;
    var boot := Boot(n);
    BootCalling(n);
    ForkWaitExit(boot, 0, 1);
    s := With(boot, 0, Sleeper(0, NONE, false), 1, Parent(User, 0), NONE);
  }

  /** Some run from boot has a killed process asleep in `wait`, with a child that need never exit. */
  lemma KilledAsleep(n: nat) returns (s: State)
    requires n > 1
    ensures Reachable(n, s) && |s.procs| == n && Overslept(s.procs[0]) && s.procs[0].pc.Asleep?
    ensures s.procs[1] == Parent(User, 0)
  {
    hide Reaches, Calling;
    var boot, child := Boot(n), Parent(User, 0);
    BootCalling(n);
    ForkRuns(boot, 0, 1);
    WaitEnters(boot, 0, 1);
    var enter := With(boot, 0, Parent(SleepEnter, NONE), 1, child, 0);
    Onward(boot, With(boot, 0, boot.procs[0], 1, child, NONE), enter);
    Then(boot, enter, Kill(0));
    var p := Parent(SleepEnter, NONE).(killed := true);
    assert Next(enter, Kill(0)).procs == With(boot, 0, p, 1, child, 0).procs;
    FallsAsleep(boot, 0, p, 1, child, boot);
    s := With(boot, 0, p.(status := Sleeping, chan := 0, pc := Asleep), 1, child, NONE);
    FromBoot(n, s);
  }

  lemma FromBoot(n: nat, s: State)
    requires n > 0 && Reaches(Boot(n), s)
    ensures Reachable(n, s)
  {
  }
}
