/**
 Progress of the calls of Wakeup.dfy. A run in which nobody starts a call and nobody is killed is
 finite, whatever the schedule, and cannot end before every call under way has returned, has become
 a ZOMBIE or sleeps in `wait`. So no reachable state is a deadlock.
 */
module Settling {

  import opened Wakeup
  import opened ProcessTree

  /** The call is over, or asleep in `wait`. */
  predicate Settled(p: Proc) {
    p.pc.Empty? || p.pc.User? || p.pc.Dead? || (p.pc.Asleep? && p.status.Sleeping?)
  }

  /** A step of a call under way; the others start a call or kill. */
  predicate Working(s: State, e: Step)
    requires Enabled(s, e)
  {
    !e.ForkAlloc? && !e.ExitLock? && !e.Kill? && !e.SleepOther? && !(e.WaitLock? && s.procs[e.i].pc.User?)
  }

  // ---- how much work is left ----

  function Times(a: nat, k: nat): (r: nat) {
    if a == 0 then 0 else k + Times(a - 1, k)
  }

  /** A slot of `wakeup` may make a sleeper scan the table again. */
  function SlotWork(n: nat): (r: nat) {
    n + 8
  }

  function WakeWork(n: nat, j: nat): (r: nat) {
    if j < n then Times(n - j, SlotWork(n)) else 0
  }

  function ReparentWork(n: nat, k: nat): (r: nat) {
    if k < n then Times(n - k, WakeWork(n, 0) + 2) else 0
  }

  function Work(n: nat, p: Proc): (r: nat) {
    match p.pc
    case Empty => 0
    case Embryo(_) => 0
    case User => 0
    case ForkHave(_) => 3
    case ForkLocked(_) => 2
    case ForkSet(_) => 1
    case Reparent(k) => 5 + WakeWork(n, 0) + ReparentWork(n, k)
    case ReparentWake(k, j) => 6 + WakeWork(n, 0) + ReparentWork(n, k + 1) + WakeWork(n, j)
    case ExitWake(j) => 4 + WakeWork(n, j)
    case ExitReady => 3
    case DyingLocked => 2
    case Dying => 1
    case Dead => 0
    case Scan(k, _) => if k < n then 4 + (n - k) else 4
    case SleepEnter => 3
    case SleepLocked => 2
    case SleepReleased => 1
    case Asleep => if p.status.Sleeping? then 0 else n + 6
    case Resumed => n + 5
    case OtherSleep => if p.status.Sleeping? then 2 else 1
  }

  function Total(n: nat, ps: seq<Proc>): (r: nat) {
    if ps == [] then 0 else Total(n, ps[..|ps| - 1]) + Work(n, ps[|ps| - 1])
  }

  lemma {:induction false} Change(n: nat, ps: seq<Proc>, i: nat, p: Proc)
    requires i < |ps|
    ensures Total(n, ps[i := p]) == Total(n, ps) - Work(n, ps[i]) + Work(n, p)
    decreases |ps|
  {
    hide Work;
    var m := |ps| - 1;
    if i < m {
      Change(n, ps[..m], i, p);
      assert ps[i := p][..m] == ps[..m][i := p];
    } else {
      assert ps[i := p][..m] == ps[..m];
    }
  }

  lemma {:induction false} SomeWork(n: nat, ps: seq<Proc>) returns (x: nat)
    requires Total(n, ps) > 0
    ensures x < |ps| && Work(n, ps[x]) > 0
    decreases |ps|
  {
    hide Work;
    var m := |ps| - 1;
    if Work(n, ps[m]) > 0 {
      x := m;
    } else {
      x := SomeWork(n, ps[..m]);
    }
  }

  lemma Drop(n: nat, ps: seq<Proc>, i: nat, p: Proc)
    requires i < |ps| && Work(n, p) < Work(n, ps[i])
    ensures Total(n, ps[i := p]) < Total(n, ps)
  {
    hide Work, Total;
    Change(n, ps, i, p);
  }

  lemma DropTwo(n: nat, ps: seq<Proc>, i: nat, p: Proc, j: nat, q: Proc)
    requires i < |ps| && j < |ps| && i != j && Work(n, p) + Work(n, q) < Work(n, ps[i]) + Work(n, ps[j])
    ensures Total(n, ps[j := q][i := p]) < Total(n, ps)
  {
    hide Work, Total;
    Change(n, ps, j, q);
    Change(n, ps[j := q], i, p);
  }

  lemma OneSlotLess(n: nat, j: nat)
    requires j < n
    ensures WakeWork(n, j) == SlotWork(n) + WakeWork(n, j + 1)
    ensures ReparentWork(n, j) == WakeWork(n, 0) + 2 + ReparentWork(n, j + 1)
  {
  }

  lemma ForkDown(s: State, e: Step)
    requires TreeInv(s) && Enabled(s, e) && (e.ForkAbort? || e.ForkLock? || e.ForkParent? || e.ForkRun?)
    ensures Total(|s.procs|, Next(s, e).procs) < Total(|s.procs|, s.procs)
  {
    hide Inv, Total, StatusOk, ParentOk, ChildrenOk;
    var i, n, t := e.i, |s.procs|, Next(s, e);
    Forker(s, i);
    if e.ForkLock? {
      Drop(n, s.procs, i, t.procs[i]);
    } else {
      var c := s.procs[i].pc.c;
      DropTwo(n, s.procs, i, t.procs[i], c, t.procs[c]);
    }
  }

  lemma WaitDown(s: State, e: Step)
    requires TreeInv(s) && Enabled(s, e) && Working(s, e)
    requires e.WaitLock? || e.ScanSlot? || e.ScanEnd? || e.SleepLock? || e.SleepRelease? || e.SleepSwitch? || e.Resume?
    ensures Total(|s.procs|, Next(s, e).procs) < Total(|s.procs|, s.procs)
  {
    hide Inv, Total, StatusOk, ParentOk, ChildrenOk;
    var i, n, t := e.i, |s.procs|, Next(s, e);
    FamilyOk(s, e);
    if e.ScanSlot? && e.copied && ZombieChild(s, i, s.procs[i].pc.k) {
      var k := s.procs[i].pc.k;
      DropTwo(n, s.procs, i, t.procs[i], k, t.procs[k]);
    } else {
      Drop(n, s.procs, i, t.procs[i]);
    }
  }

  lemma AdoptDown(s: State, e: Step)
    requires TreeInv(s) && Enabled(s, e) && e.Adopt?
    ensures Total(|s.procs|, Next(s, e).procs) < Total(|s.procs|, s.procs)
  {
    hide Inv, Total, StatusOk, ChildrenOk, WakeWork, ReparentWork;
    var i, n, t, k := e.i, |s.procs|, Next(s, e), s.procs[e.i].pc.k;
    assert ParentOk(s, i);
    if k < n {
      OneSlotLess(n, k);
    }
    if k < n && s.procs[k].parent == i {
      DropTwo(n, s.procs, i, t.procs[i], k, t.procs[k]);
    } else {
      Drop(n, s.procs, i, t.procs[i]);
    }
  }

  /** One slot of `wakeup` costs more than the scan that it may set off. */
  lemma WakeDown(s: State, e: Step)
    requires TreeInv(s) && Enabled(s, e) && (e.WakeInit? || e.WakeParent?)
    ensures Total(|s.procs|, Next(s, e).procs) < Total(|s.procs|, s.procs)
  {
    hide Inv, Total, ParentOk, ChildrenOk, WakeWork, ReparentWork;
    var i, n, t, j := e.i, |s.procs|, Next(s, e), s.procs[e.i].pc.j;
    if j < n && j != i {
      OneSlotLess(n, j);
      assert StatusOk(s, j);
      DropTwo(n, s.procs, i, t.procs[i], j, t.procs[j]);
      assert t.procs == s.procs[j := t.procs[j]][i := t.procs[i]];
    } else {
      if j < n {
        OneSlotLess(n, j);
      }
      Drop(n, s.procs, i, t.procs[i]);
    }
  }

  lemma DieDown(s: State, e: Step)
    requires TreeInv(s) && Enabled(s, e) && (e.BecomeZombie? || e.ReleaseDying? || e.SwitchDead? || e.WakeOther?)
    ensures Total(|s.procs|, Next(s, e).procs) < Total(|s.procs|, s.procs)
  {
    hide Inv, Total, StatusOk, ParentOk, ChildrenOk;
    Drop(|s.procs|, s.procs, e.i, Next(s, e).procs[e.i]);
  }

  lemma StepDown(s: State, e: Step)
    requires TreeInv(s) && Enabled(s, e) && Working(s, e)
    ensures Total(|s.procs|, Next(s, e).procs) < Total(|s.procs|, s.procs)
  {
    hide TreeInv, Enabled, Next, Total;
    if e.ForkAbort? || e.ForkLock? || e.ForkParent? || e.ForkRun? {
      ForkDown(s, e);
    } else if e.Adopt? {
      AdoptDown(s, e);
    } else if e.WakeInit? || e.WakeParent? {
      WakeDown(s, e);
    } else if e.BecomeZombie? || e.ReleaseDying? || e.SwitchDead? || e.WakeOther? {
      DieDown(s, e);
    } else {
      WaitDown(s, e);
    }
  }

  // ---- some step of a call under way can always be taken ----

  /** The holder of `wait_lock` goes on, or the one whose own lock it waits for. */
  lemma HolderSteps(s: State) returns (e: Step)
    requires TreeInv(s) && s.waitLock != NONE
    ensures Enabled(s, e) && Working(s, e)
  {
    hide ProcOk, NotLost, ParentOk, ChildrenOk, NoneBelow, ParentAwake;
    var h, n := s.waitLock, |s.procs|;
    assert LockOk(s, h) && StatusOk(s, h);
    Forker(s, h);
    var j := match s.procs[h].pc
      case ReparentWake(_, j) => j
      case ExitWake(j) => j
      case Scan(k, _) => k
      case _ => n;
    if j < n && j != h && Held(s.procs[j].pc) {
      assert LockOk(s, j);
      e := if s.procs[j].pc.SleepReleased? then SleepSwitch(j) else SwitchDead(j);
    } else {
      match s.procs[h].pc {
        case ForkLocked(_) => e := ForkParent(h);
        case Reparent(_) => e := Adopt(h);
        case ReparentWake(_, _) => e := WakeInit(h);
        case ExitWake(_) => e := WakeParent(h);
        case ExitReady => e := BecomeZombie(h);
        case DyingLocked => e := ReleaseDying(h);
        case Scan(k, _) => e := if k < n then ScanSlot(h, true) else ScanEnd(h);
        case SleepEnter => e := SleepLock(h);
        case SleepLocked => e := SleepRelease(h);
        case _ => assert false;
      }
    }
  }

  /** About to take `wait_lock`. */
  predicate WantsLock(pc: Pc) {
    pc.ForkHave? || pc.Resumed?
  }

  /** Outside `wait_lock` everyone in a call can go on, except for taking it. */
  lemma AnyoneSteps(s: State, x: nat) returns (e: Step)
    requires TreeInv(s) && x < |s.procs| && !Settled(s.procs[x]) && !s.procs[x].pc.Embryo?
    requires s.waitLock == NONE || (!WantsLock(s.procs[x].pc) && !InLock(s.procs[x].pc))
    ensures e.i == x && Enabled(s, e) && Working(s, e)
  {
    hide ProcOk, NotLost, ParentOk, ChildrenOk;
    assert LockOk(s, x) && StatusOk(s, x);
    Forker(s, x);
    Alive(s, x);
    match s.procs[x].pc {
      case ForkHave(_) => e := ForkLock(x);
      case ForkSet(_) => e := ForkRun(x);
      case Dying => e := SwitchDead(x);
      case SleepReleased => e := SleepSwitch(x);
      case Asleep => e := Resume(x);
      case Resumed => e := WaitLock(x);
      case OtherSleep => e := if s.procs[x].status.Sleeping? then WakeOther(x) else Resume(x);
      case _ => assert false;
    }
  }

  lemma Alive(s: State, x: nat)
    requires TreeInv(s) && x < |s.procs|
    ensures var pc := s.procs[x].pc;
      !pc.Empty? && !pc.Embryo? && !pc.DyingLocked? && !pc.Dying? && !pc.Dead? ==>
        s.procs[x].status.Ready? || s.procs[x].status.Sleeping?
  {
    assert ProcOk(s, x) && StatusOk(s, x);
  }

  /**
   In every interleaving, unless all calls are settled a call under way can take a step; and a call that
   neither holds `wait_lock` nor is about to take it can take one of its own.
   */
  lemma NoDeadlock(n: nat, s: State, x: nat) returns (e: Step)
    requires Reachable(n, s) && x < |s.procs| && !Settled(s.procs[x])
    ensures Enabled(s, e) && Working(s, e)
    ensures var pc := s.procs[x].pc; !pc.Embryo? && !InLock(pc) && (s.waitLock == NONE || !WantsLock(pc)) ==> e.i == x
  {
    ReachableOk(n, s);
    var pc := s.procs[x].pc;
    if !pc.Embryo? && !InLock(pc) && (s.waitLock == NONE || !WantsLock(pc)) {
      e := AnyoneSteps(s, x);
    } else {
      e := SomeStep(s, x);
    }
  }

  lemma SomeStep(s: State, x: nat) returns (e: Step)
    requires TreeInv(s) && x < |s.procs| && !Settled(s.procs[x])
    ensures Enabled(s, e) && Working(s, e)
  {
    hide Inv, ParentOk, ChildrenOk, Working, Enabled;
    if s.waitLock != NONE {
      e := HolderSteps(s);
    } else if s.procs[x].pc.Embryo? {
      assert StatusOk(s, x);
      e := AnyoneSteps(s, s.procs[x].pc.forker);
    } else {
      e := AnyoneSteps(s, x);
    }
  }

  // ---- whole runs ----

  /** Nobody starts a call and nobody is killed. */
  ghost predicate WorkingRun(s: State, run: seq<Step>)
    requires LegalRun(s, run)
    decreases |run|
  {
    run == [] || (Working(s, run[0]) && WorkingRun(Next(s, run[0]), run[1..]))
  }

  lemma {:induction false} WorkRuns(s: State, run: seq<Step>)
    requires TreeInv(s) && LegalRun(s, run) && WorkingRun(s, run)
    ensures |run| + Total(|s.procs|, After(s, run).procs) <= Total(|s.procs|, s.procs)
    decreases |run|
  {
    hide TreeInv, Enabled, Next, Total, Working;
    if run != [] {
      StepDown(s, run[0]);
      StepKeepsTree(s, run[0]);
      SameLength(s, run[0]);
      WorkRuns(Next(s, run[0]), run[1..]);
    }
  }

  /** Under every schedule: unless a call starts or someone is killed, there are at most so many steps. */
  lemma RunsEnd(n: nat, s: State, run: seq<Step>)
    requires Reachable(n, s) && LegalRun(s, run) && WorkingRun(s, run)
    ensures |run| <= Total(|s.procs|, s.procs)
  {
    hide *;
    ReachableOk(n, s);
    WorkRuns(s, run);
  }

  ghost predicate AllSettled(s: State) {
    s.waitLock == NONE && forall x: nat :: x < |s.procs| ==> Settled(s.procs[x])
  }

  lemma {:induction false} Settle(s: State) returns (run: seq<Step>)
    requires TreeInv(s)
    ensures LegalRun(s, run) && WorkingRun(s, run) && AllSettled(After(s, run))
    decreases Total(|s.procs|, s.procs)
  {
    hide TreeInv, Enabled, Next, Total, Working, Settled;
    if AllSettled(s) {
      run := [];
    } else {
      var e := Unsettled(s);
      StepDown(s, e);
      StepKeepsTree(s, e);
      SameLength(s, e);
      var rest := Settle(Next(s, e));
      run := [e] + rest;
      assert run[0] == e && run[1..] == rest;
    }
  }

  lemma Unsettled(s: State) returns (e: Step)
    requires TreeInv(s) && !AllSettled(s)
    ensures Enabled(s, e) && Working(s, e)
  {
    hide TreeInv, Enabled, Working, Settled;
    if s.waitLock != NONE {
      e := HolderSteps(s);
    } else {
      var x: nat :| x < |s.procs| && !Settled(s.procs[x]);
      e := SomeStep(s, x);
    }
  }

  /**
   From every reachable state the calls under way can all be brought to an end or to sleep in `wait`; then
   `wait_lock` is free, and every process in user code can call `exit`, unless it is init, `wait`, and
   `fork` into any unused slot, and every slot can be killed.
   */
  lemma AllSettle(n: nat, s: State) returns (run: seq<Step>)
    requires Reachable(n, s)
    ensures LegalRun(s, run) && WorkingRun(s, run) && AllSettled(After(s, run))
    ensures var t := After(s, run);
      forall x: nat, c: nat :: x < |t.procs| && c < |t.procs| && t.procs[x].pc.User? ==>
        && (Enabled(t, ExitLock(x)) <==> x != t.init) && Enabled(t, WaitLock(x))
        && (Enabled(t, ForkAlloc(x, c)) <==> t.procs[c].status.Unused?) && Enabled(t, Kill(c))
  {
    hide LegalRun, WorkingRun, After;
    ReachableOk(n, s);
    run := Settle(s);
    var t := After(s, run);
    RunKeepsTree(s, run);
    forall x: nat, c: nat | x < |t.procs| && c < |t.procs| && t.procs[x].pc.User?
      ensures
        && (Enabled(t, ExitLock(x)) <==> x != t.init) && Enabled(t, WaitLock(x))
        && (Enabled(t, ForkAlloc(x, c)) <==> t.procs[c].status.Unused?) && Enabled(t, Kill(c))
    {
      Alive(t, x);
      assert StatusOk(t, x) && StatusOk(t, c);
      assert Settled(t.procs[c]);
    }
  }
}
