/**
 sleep, wakeup, exit, wait, fork and kill of kernel/proc.c, as an interleaving of steps no
 longer than the time a lock is held.

 `wait_lock` is explicit. A process's own lock is explicit where it is held across steps: by a
 process that is going to sleep, from before it releases `wait_lock` until it is SLEEPING, and
 by one that is exiting, from before it is a ZOMBIE until it is off the processor. The result
 is that no wakeup is lost: whenever `wait_lock` is free, no process that sleeps in `wait`, or
 is on its way to sleep there, has a ZOMBIE child.
 */
module Wakeup {

  /** Ready stands for RUNNABLE and RUNNING. */
  datatype Status = Unused | Used | Ready | Sleeping | Zombie

  datatype Pc =
    /** Slots without a process, and children that `fork` is still setting up. */
    | Empty
    | Embryo(forker: nat)
    /** Anything outside the code below. */
    | User
    | ForkHave(c: nat)
    | ForkLocked(c: nat)
    | ForkSet(c: nat)
    /** `reparent` at slot `k`, and its `wakeup(initproc)` at slot `j`. */
    | Reparent(k: nat)
    | ReparentWake(k: nat, j: nat)
    /** `wakeup(p->parent)` at slot `j`. */
    | ExitWake(j: nat)
    | ExitReady
    /** ZOMBIE, with both locks, with its own lock only, and switched away from. */
    | DyingLocked
    | Dying
    | Dead
    /** The scan of `wait` at slot `k`. */
    | Scan(k: nat, havekids: bool)
    /** The decision to sleep is taken; `sleep` has not taken the process's own lock yet. */
    | SleepEnter
    /** In `sleep(p, &wait_lock)`: both locks held; `wait_lock` released; switched away from. */
    | SleepLocked
    | SleepReleased
    | Asleep
    /** Back in `sleep`, about to take `wait_lock` again. */
    | Resumed
    /** In `sleep` on a channel that is no process. */
    | OtherSleep

  /** Channels are process slots; OTHER is any other channel. */
  const OTHER := -2
  const NONE := -1

  datatype Proc = Proc(status: Status, chan: int, parent: int, killed: bool, pc: Pc)

  datatype State = State(waitLock: int, init: nat, procs: seq<Proc>)

  predicate InLock(pc: Pc) {
    || pc.ForkLocked? || pc.Reparent? || pc.ReparentWake? || pc.ExitWake? || pc.ExitReady?
    || pc.DyingLocked? || pc.Scan? || pc.SleepEnter? || pc.SleepLocked?
  }

  /** The process's own lock is held. */
  predicate Held(pc: Pc) {
    pc.SleepLocked? || pc.SleepReleased? || pc.DyingLocked? || pc.Dying?
  }

  /** Sleeping in `wait`, or past the point of no return. */
  predicate Waiting(p: Proc) {
    p.pc.SleepReleased? || (p.pc.Asleep? && p.status.Sleeping?)
  }

  // ---- steps ----

  datatype Step =
    | ForkAlloc(i: nat, c: nat)
    | ForkAbort(i: nat)
    | ForkLock(i: nat)
    | ForkParent(i: nat)
    | ForkRun(i: nat)
    | ExitLock(i: nat)
    | Adopt(i: nat)
    | WakeInit(i: nat)
    | WakeParent(i: nat)
    | BecomeZombie(i: nat)
    | ReleaseDying(i: nat)
    | SwitchDead(i: nat)
    | WaitLock(i: nat)
    | ScanSlot(i: nat, copied: bool)
    | ScanEnd(i: nat)
    | SleepLock(i: nat)
    | SleepRelease(i: nat)
    | SleepSwitch(i: nat)
    | Resume(i: nat)
    | Kill(i: nat)
    | SleepOther(i: nat)
    | WakeOther(i: nat)

  predicate Enabled(s: State, e: Step) {
    e.i < |s.procs| &&
    var p := s.procs[e.i];
    var n := |s.procs|;
    match e
    case ForkAlloc(i, c) =>
      p.pc.User? && p.status.Ready? && c < n && c != i && s.procs[c].status.Unused? && s.procs[c].pc.Empty?
    case ForkAbort(_) => p.pc.ForkHave? && p.pc.c < n
    case ForkLock(_) => p.pc.ForkHave? && s.waitLock == NONE
    case ForkParent(_) => p.pc.ForkLocked? && p.pc.c < n
    case ForkRun(_) => p.pc.ForkSet? && p.pc.c < n
    case ExitLock(i) => p.pc.User? && p.status.Ready? && i != s.init && s.waitLock == NONE
    case Adopt(_) => p.pc.Reparent? && p.pc.k <= n
    case WakeInit(i) =>
      p.pc.ReparentWake? && (p.pc.j == n || (p.pc.j < n && (p.pc.j == i || !Held(s.procs[p.pc.j].pc))))
    case WakeParent(i) => p.pc.ExitWake? && (p.pc.j == n || (p.pc.j < n && (p.pc.j == i || !Held(s.procs[p.pc.j].pc))))
    case BecomeZombie(_) => p.pc.ExitReady?
    case ReleaseDying(_) => p.pc.DyingLocked?
    case SwitchDead(_) => p.pc.Dying?
    case WaitLock(_) => ((p.pc.User? && p.status.Ready?) || p.pc.Resumed?) && s.waitLock == NONE
    case ScanSlot(i, _) => p.pc.Scan? && p.pc.k < n && (s.procs[p.pc.k].parent != i || !Held(s.procs[p.pc.k].pc))
    case ScanEnd(_) => p.pc.Scan? && p.pc.k == n
    case SleepLock(_) => p.pc.SleepEnter?
    case SleepRelease(_) => p.pc.SleepLocked?
    case SleepSwitch(_) => p.pc.SleepReleased?
    case Resume(_) => (p.pc.Asleep? || p.pc.OtherSleep?) && p.status.Ready?
    case Kill(_) => !Held(p.pc)
    case SleepOther(_) => p.pc.User? && p.status.Ready?
    case WakeOther(_) => p.pc.OtherSleep? && p.status.Sleeping?
  }

  function Put(s: State, i: nat, p: Proc): (t: State)
    requires i < |s.procs|
  {
    s.(procs := s.procs[i := p])
  }

  function Goto(s: State, i: nat, pc: Pc): (t: State)
    requires i < |s.procs|
  {
    Put(s, i, s.procs[i].(pc := pc))
  }

  /** One slot of `wakeup(chan)` called by process `i`. */
  function WakeSlot(s: State, i: nat, j: nat, chan: int): (t: State)
    requires j < |s.procs|
  {
    var q := s.procs[j];
    if j != i && q.status.Sleeping? && q.chan == chan then Put(s, j, q.(status := Ready)) else s
  }

  function Freed(): Proc {
    Proc(Unused, NONE, NONE, false, Empty)
  }

  function Next(s: State, e: Step): (t: State)
    requires Enabled(s, e)
  {
    var i := e.i;
    var p := s.procs[i];
    var n := |s.procs|;
    match e
    case ForkAlloc(_, c) => Goto(Put(s, c, s.procs[c].(status := Used, pc := Embryo(i))), i, ForkHave(c))
    case ForkAbort(_) => Goto(Put(s, p.pc.c, Freed()), i, User)
    case ForkLock(_) => Goto(s, i, ForkLocked(p.pc.c)).(waitLock := i)
    case ForkParent(_) => Goto(Put(s, p.pc.c, s.procs[p.pc.c].(parent := i)), i, ForkSet(p.pc.c)).(waitLock := NONE)
    case ForkRun(_) => Goto(Put(s, p.pc.c, s.procs[p.pc.c].(status := Ready, pc := User)), i, User)
    case ExitLock(_) => Goto(s, i, Reparent(0)).(waitLock := i)
    case Adopt(_) =>
      var k := p.pc.k;
      if k == n then Goto(s, i, ExitWake(0))
      else if s.procs[k].parent == i then Goto(Put(s, k, s.procs[k].(parent := s.init)), i, ReparentWake(k, 0))
      else Goto(s, i, Reparent(k + 1))
    case WakeInit(_) =>
      if p.pc.j == n then Goto(s, i, Reparent(p.pc.k + 1))
      else Goto(WakeSlot(s, i, p.pc.j, s.init), i, ReparentWake(p.pc.k, p.pc.j + 1))
    case WakeParent(_) =>
      if p.pc.j == n then Goto(s, i, ExitReady)
      else Goto(WakeSlot(s, i, p.pc.j, p.parent), i, ExitWake(p.pc.j + 1))
    case BecomeZombie(_) => Put(s, i, p.(status := Zombie, pc := DyingLocked))
    case ReleaseDying(_) => Goto(s, i, Dying).(waitLock := NONE)
    case SwitchDead(_) => Goto(s, i, Dead)
    case WaitLock(_) => Goto(s, i, Scan(0, false)).(waitLock := i)
    case ScanSlot(_, copied) =>
      var k := p.pc.k;
      if s.procs[k].parent != i then Goto(s, i, Scan(k + 1, p.pc.havekids))
      else if !s.procs[k].status.Zombie? then Goto(s, i, Scan(k + 1, true))
      else Goto(if copied then Put(s, k, Freed()) else s, i, User).(waitLock := NONE)
    case ScanEnd(_) =>
      if !p.pc.havekids || p.killed then Goto(s, i, User).(waitLock := NONE) else Goto(s, i, SleepEnter)
    case SleepLock(_) => Goto(s, i, SleepLocked)
    case SleepRelease(_) => Goto(s, i, SleepReleased).(waitLock := NONE)
    case SleepSwitch(_) => Put(s, i, p.(status := Sleeping, chan := i, pc := Asleep))
    case Resume(_) => Put(s, i, p.(chan := NONE, pc := if p.pc.Asleep? then Resumed else User))
    case Kill(_) => Put(s, i, p.(killed := true, status := if p.status.Sleeping? then Ready else p.status))
    case SleepOther(_) => Put(s, i, p.(status := Sleeping, chan := OTHER, pc := OtherSleep))
    case WakeOther(_) => Put(s, i, p.(status := Ready))
  }

  // ---- the invariant ----

  predicate ZombieChild(s: State, i: nat, c: nat)
    requires c < |s.procs|
  {
    s.procs[c].parent == i && s.procs[c].status.Zombie?
  }

  predicate NoneBelow(s: State, i: nat, k: nat) {
    forall c: nat {:trigger ZombieChild(s, i, c)} :: c < k && c < |s.procs| ==> !ZombieChild(s, i, c)
  }

  /** `wakeup(initproc)` has not come to init yet. */
  predicate InitPending(s: State) {
    && 0 <= s.waitLock < |s.procs|
    && s.procs[s.waitLock].pc.ReparentWake? && s.procs[s.waitLock].pc.j <= s.init
  }

  predicate NotLost(s: State, i: nat)
    requires i < |s.procs|
  {
    Waiting(s.procs[i]) ==> NoneBelow(s, i, |s.procs|) || (i == s.init && InitPending(s))
  }

  predicate ParentAwake(s: State, i: nat, j: nat)
    requires i < |s.procs|
  {
    var q := s.procs[i].parent;
    0 <= q < |s.procs| && q < j ==> !Waiting(s.procs[q])
  }

  predicate LockOk(s: State, i: nat)
    requires i < |s.procs|
  {
    InLock(s.procs[i].pc) <==> s.waitLock == i
  }

  predicate ProcOk(s: State, i: nat)
    requires i < |s.procs|
  {
    var p := s.procs[i];
    && (p.status.Zombie? <==> p.pc.DyingLocked? || p.pc.Dying? || p.pc.Dead?)
    && (p.pc.Asleep? && p.status.Sleeping? ==> p.chan == i)
    && (p.pc.ExitWake? ==> ParentAwake(s, i, p.pc.j))
    && (p.pc.ExitReady? ==> ParentAwake(s, i, |s.procs|))
    && (p.pc.Scan? ==> NoneBelow(s, i, p.pc.k))
    && (p.pc.SleepEnter? || p.pc.SleepLocked? ==> NoneBelow(s, i, |s.procs|))
    && (p.pc.ForkHave? || p.pc.ForkLocked? || p.pc.ForkSet? ==> p.pc.c < |s.procs| && s.procs[p.pc.c].pc == Embryo(i))
  }

  predicate Inv(s: State) {
    && s.init < |s.procs|
    && (forall i: nat {:trigger LockOk(s, i)} :: i < |s.procs| ==> LockOk(s, i))
    && (forall i: nat {:trigger ProcOk(s, i)} :: i < |s.procs| ==> ProcOk(s, i))
    && (forall i: nat {:trigger NotLost(s, i)} :: i < |s.procs| ==> NotLost(s, i))
  }

  // ---- every step keeps the invariant ----

  /** Nobody got a ZOMBIE child. */
  predicate NoNewZombies(s: State, t: State) {
    |t.procs| == |s.procs| && forall c: nat :: c < |s.procs| && t.procs[c].status.Zombie? ==>
      s.procs[c].status.Zombie? && t.procs[c].parent == s.procs[c].parent
  }

  lemma StillNone(s: State, t: State, i: nat, k: nat)
    requires NoNewZombies(s, t) && NoneBelow(s, i, k)
    ensures NoneBelow(t, i, k)
  {
    forall c: nat | c < k && c < |t.procs| ensures !ZombieChild(t, i, c) {
      assert !ZombieChild(s, i, c);
    }
  }

  lemma LockSelf(s: State, e: Step)
    requires Inv(s) && Enabled(s, e)
    ensures LockOk(Next(s, e), e.i)
  {
    hide ProcOk, NotLost;
    assert LockOk(s, e.i);
    FamilyOk(s, e);
  }

  lemma LockOther(s: State, e: Step, x: nat)
    requires Inv(s) && Enabled(s, e) && x < |s.procs| && x != e.i
    ensures x < |Next(s, e).procs| && LockOk(Next(s, e), x)
  {
    hide ProcOk, NotLost;
    assert LockOk(s, x) && LockOk(s, e.i);
    FamilyOk(s, e);
  }

  /** The lock moves only from and to the process that takes the step. */
  lemma LocksKeep(s: State, e: Step)
    requires Inv(s) && Enabled(s, e)
    ensures forall x: nat {:trigger LockOk(Next(s, e), x)} :: x < |s.procs| ==> LockOk(Next(s, e), x)
  {
    hide *;
    SameLength(s, e);
    forall x: nat | x < |s.procs| ensures LockOk(Next(s, e), x) {
      if x == e.i {
        LockSelf(s, e);
      } else {
        LockOther(s, e, x);
      }
    }
  }

  /** The other slot a fork step writes is its own child's; the one `wait` frees is a dead process's. */
  lemma FamilyOk(s: State, e: Step)
    requires Inv(s) && Enabled(s, e)
    ensures var pc := s.procs[e.i].pc;
      && (e.ForkAbort? || e.ForkParent? || e.ForkRun? ==>
            s.procs[pc.c].pc == Embryo(e.i) && !s.procs[pc.c].status.Zombie?)
      && (e.ScanSlot? && s.procs[pc.k].parent == e.i && s.procs[pc.k].status.Zombie? ==> s.procs[pc.k].pc.Dead?)
  {
    hide NotLost, LockOk, NoneBelow;
    assert ProcOk(s, e.i);
    if e.ScanSlot? {
      assert ProcOk(s, s.procs[e.i].pc.k);
    } else if e.ForkAbort? || e.ForkParent? || e.ForkRun? {
      assert ProcOk(s, s.procs[e.i].pc.c);
    }
  }

  /** Apart from a parent change in `reparent` and the end of `exit`, no step makes a ZOMBIE child. */
  predicate Calm(s: State, e: Step)
    requires Enabled(s, e)
  {
    !e.BecomeZombie? && !(e.Adopt? && s.procs[e.i].pc.k < |s.procs| && s.procs[s.procs[e.i].pc.k].parent == e.i)
  }

  lemma CalmZombies(s: State, e: Step)
    requires Inv(s) && Enabled(s, e) && Calm(s, e)
    ensures NoNewZombies(s, Next(s, e))
  {
    hide NotLost, LockOk, NoneBelow, ProcOk;
    FamilyOk(s, e);
    assert ProcOk(s, e.i);
  }

  /** Only a process that gives up `wait_lock` in `sleep` starts to wait. */
  lemma WhoWaits(s: State, e: Step, q: nat)
    requires Inv(s) && Enabled(s, e) && q < |s.procs| && !(e.SleepRelease? && q == e.i)
    ensures Waiting(Next(s, e).procs[q]) ==> Waiting(s.procs[q])
  {
    hide NotLost, LockOk, NoneBelow, ProcOk;
    FamilyOk(s, e);
  }

  lemma AwakeStays(s: State, e: Step, x: nat, j: nat)
    requires Inv(s) && Enabled(s, e) && x < |s.procs| && InLock(s.procs[x].pc) && !s.procs[x].pc.SleepLocked?
    requires ParentAwake(s, x, j) && Next(s, e).procs[x].parent == s.procs[x].parent
    ensures ParentAwake(Next(s, e), x, j)
  {
    hide NotLost, NoneBelow, ProcOk, Next;
    assert LockOk(s, x) && LockOk(s, e.i);
    SameLength(s, e);
    var q := s.procs[x].parent;
    if 0 <= q < |s.procs| && q < j {
      WhoWaits(s, e, q);
    }
  }

  lemma SameLength(s: State, e: Step)
    requires Enabled(s, e)
    ensures |Next(s, e).procs| == |s.procs| && Next(s, e).init == s.init
  {
  }

  /** What a step can do to another process: nothing, wake it, or what fork and wait do to a child. */
  predicate Bystander(p: Proc, q: Proc, i: nat) {
    || q == p
    || (p.status.Sleeping? && q == p.(status := Ready))
    || (p.pc.Empty? && q.pc.Embryo? && q.status.Used?)
    || (p.pc == Embryo(i) && (q == p.(parent := i) || q == p.(status := Ready, pc := User) || q == Freed()))
    || (p.pc.Dead? && q == Freed())
  }

  lemma Bystands(s: State, e: Step, x: nat)
    requires Inv(s) && Enabled(s, e) && Calm(s, e) && x < |s.procs| && x != e.i
    ensures Bystander(s.procs[x], Next(s, e).procs[x], e.i)
  {
    hide NotLost, NoneBelow, ProcOk, LockOk;
    FamilyOk(s, e);
  }

  lemma ChildStays(s: State, e: Step, x: nat, c: nat)
    requires Inv(s) && Enabled(s, e) && x < |s.procs| && x != e.i && c < |s.procs| && s.procs[c].pc == Embryo(x)
    ensures Next(s, e).procs[c].pc == Embryo(x)
  {
    hide NotLost, NoneBelow, ProcOk, LockOk;
    FamilyOk(s, e);
  }

  /** A process that the step leaves where it was. */
  lemma BystanderKeeps(s: State, e: Step, x: nat)
    requires Inv(s) && Enabled(s, e) && Calm(s, e) && x < |s.procs| && x != e.i
    ensures x < |Next(s, e).procs| && ProcOk(Next(s, e), x)
  {
    hide NotLost, NoneBelow, ParentAwake, Next, Enabled, Calm, LockOk;
    SameLength(s, e);
    var t := Next(s, e);
    var pc := s.procs[x].pc;
    assert ProcOk(s, x);
    CalmZombies(s, e);
    Bystands(s, e, x);
    if pc.Scan? {
      StillNone(s, t, x, pc.k);
    } else if pc.SleepEnter? || pc.SleepLocked? {
      StillNone(s, t, x, |s.procs|);
    } else if pc.ExitWake? {
      AwakeStays(s, e, x, pc.j);
    } else if pc.ExitReady? {
      AwakeStays(s, e, x, |s.procs|);
    } else if pc.ForkHave? || pc.ForkLocked? || pc.ForkSet? {
      ChildStays(s, e, x, pc.c);
    }
  }

  // ---- the process that takes the step ----

  lemma ForkerKeeps(s: State, e: Step)
    requires Inv(s) && Enabled(s, e) && (e.ForkAlloc? || e.ForkAbort? || e.ForkLock? || e.ForkParent? || e.ForkRun?)
    ensures ProcOk(Next(s, e), e.i)
  {
    hide NotLost, NoneBelow, LockOk, ParentAwake;
    FamilyOk(s, e);
    assert ProcOk(s, e.i);
  }

  lemma ExiterKeeps(s: State, e: Step)
    requires Inv(s) && Enabled(s, e) && Calm(s, e)
    requires (e.ExitLock? || e.Adopt? || e.WakeInit? || e.WakeParent? || e.ReleaseDying? || e.SwitchDead?)
    ensures ProcOk(Next(s, e), e.i)
  {
    hide NotLost, NoneBelow;
    var t, i := Next(s, e), e.i;
    assert ProcOk(s, i) && LockOk(s, i);
    if e.WakeParent? {
      hide Next;
      SameLength(s, e);
      ParentKept(s, e);
      AwakeStays(s, e, i, s.procs[i].pc.j);
      ParentWoken(s, e);
    }
  }

  lemma ParentKept(s: State, e: Step)
    requires Enabled(s, e) && e.WakeParent?
    ensures Next(s, e).procs[e.i].parent == s.procs[e.i].parent
    ensures var j := s.procs[e.i].pc.j;
      Next(s, e).procs[e.i] == s.procs[e.i].(pc := if j == |s.procs| then ExitReady else ExitWake(j + 1))
  {
  }

  /** The slot that `wakeup(p->parent)` has just passed does not wait any more if it is the parent's. */
  lemma ParentWoken(s: State, e: Step)
    requires Inv(s) && Enabled(s, e) && e.WakeParent?
    ensures var j := s.procs[e.i].pc.j; j < |s.procs| && j == s.procs[e.i].parent ==> !Waiting(Next(s, e).procs[j])
  {
    hide NotLost, NoneBelow, LockOk, ParentAwake;
    var j := s.procs[e.i].pc.j;
    if j < |s.procs| {
      assert ProcOk(s, j);
    }
  }

  lemma WaiterKeeps(s: State, e: Step)
    requires Inv(s) && Enabled(s, e)
    requires e.WaitLock? || e.ScanSlot? || e.ScanEnd? || e.SleepLock? || e.SleepRelease? || e.SleepSwitch? || e.Resume?
    ensures ProcOk(Next(s, e), e.i)
  {
    hide NotLost, LockOk, ParentAwake;
    var t, i := Next(s, e), e.i;
    assert ProcOk(s, i);
    if e.ScanSlot? {
      FamilyOk(s, e);
      var k := s.procs[i].pc.k;
      assert !ZombieChild(s, i, k) || s.procs[k].parent == i;
      CalmZombies(s, e);
      if t.procs[i].pc.Scan? {
        StillNone(s, t, i, k);
        assert !ZombieChild(t, i, k);
      }
    } else if e.ScanEnd? || e.SleepLock? {
      CalmZombies(s, e);
      StillNone(s, t, i, |s.procs|);
    }
  }

  lemma RestKeeps(s: State, e: Step)
    requires Inv(s) && Enabled(s, e) && (e.Kill? || e.SleepOther? || e.WakeOther?)
    ensures ProcOk(Next(s, e), e.i)
  {
    hide NotLost;
    var t, i := Next(s, e), e.i;
    var pc := s.procs[i].pc;
    assert ProcOk(s, i);
    CalmZombies(s, e);
    if pc.Scan? {
      StillNone(s, t, i, pc.k);
    } else if pc.SleepEnter? {
      StillNone(s, t, i, |s.procs|);
    } else if pc.ExitWake? {
      AwakeStays(s, e, i, pc.j);
    } else if pc.ExitReady? {
      AwakeStays(s, e, i, |s.procs|);
    }
  }

  lemma CalmProcs(s: State, e: Step, x: nat)
    requires Inv(s) && Enabled(s, e) && Calm(s, e) && x < |s.procs|
    ensures x < |Next(s, e).procs| && ProcOk(Next(s, e), x)
  {
    hide Inv, Next, ProcOk;
    SameLength(s, e);
    if x != e.i {
      BystanderKeeps(s, e, x);
    } else if e.ForkAlloc? || e.ForkAbort? || e.ForkLock? || e.ForkParent? || e.ForkRun? {
      ForkerKeeps(s, e);
    } else if e.ExitLock? || e.Adopt? || e.WakeInit? || e.WakeParent? || e.ReleaseDying? || e.SwitchDead? {
      ExiterKeeps(s, e);
    } else if e.Kill? || e.SleepOther? || e.WakeOther? {
      RestKeeps(s, e);
    } else {
      WaiterKeeps(s, e);
    }
  }

  /** `wakeup(initproc)` stays under way until it has woken init. */
  lemma PendingStays(s: State, e: Step)
    requires Inv(s) && Enabled(s, e) && InitPending(s) && Waiting(Next(s, e).procs[s.init])
    ensures InitPending(Next(s, e))
  {
    hide NoneBelow, ParentAwake;
    var h := s.waitLock;
    assert LockOk(s, h) && LockOk(s, e.i);
    assert ProcOk(s, s.init);
    FamilyOk(s, e);
  }

  lemma CalmNotLost(s: State, e: Step, x: nat)
    requires Inv(s) && Enabled(s, e) && Calm(s, e) && x < |s.procs|
    ensures x < |Next(s, e).procs| && NotLost(Next(s, e), x)
  {
    hide NoneBelow, ParentAwake, Next, Enabled, Calm, LockOk, InitPending;
    SameLength(s, e);
    CalmZombies(s, e);
    var t := Next(s, e);
    if Waiting(t.procs[x]) {
      assert NotLost(s, x) && ProcOk(s, x);
      if e.SleepRelease? && x == e.i {
        StepperSleeps(s, e);
        StillNone(s, t, x, |s.procs|);
      } else {
        WhoWaits(s, e, x);
        if NoneBelow(s, x, |s.procs|) {
          StillNone(s, t, x, |s.procs|);
        } else {
          PendingStays(s, e);
        }
      }
    }
  }

  lemma StepperSleeps(s: State, e: Step)
    requires Enabled(s, e) && e.SleepRelease?
    ensures s.procs[e.i].pc.SleepLocked?
  {
  }

  /** While one process exits, nobody scans, falls asleep or exits beside it. */
  lemma LockAlone(s: State, i: nat, x: nat)
    requires Inv(s) && i < |s.procs| && InLock(s.procs[i].pc) && x < |s.procs| && x != i
    ensures !InLock(s.procs[x].pc) && s.waitLock == i
  {
    assert LockOk(s, i) && LockOk(s, x);
  }

  lemma ZombieKeeps(s: State, e: Step, x: nat)
    requires Inv(s) && Enabled(s, e) && e.BecomeZombie? && x < |s.procs|
    ensures ProcOk(Next(s, e), x) && NotLost(Next(s, e), x)
  {
    var t, i := Next(s, e), e.i;
    assert ProcOk(s, i) && ProcOk(s, x) && NotLost(s, x);
    if x != i {
      LockAlone(s, i, x);
      if Waiting(t.procs[x]) {
        forall c: nat | c < |t.procs| ensures !ZombieChild(t, x, c) {
          assert !ZombieChild(s, x, c);
        }
      }
    }
  }

  lemma AdoptKeeps(s: State, e: Step, x: nat)
    requires Inv(s) && Enabled(s, e) && e.Adopt? && !Calm(s, e) && x < |s.procs|
    ensures ProcOk(Next(s, e), x) && NotLost(Next(s, e), x)
  {
    var t, i := Next(s, e), e.i;
    assert ProcOk(s, i) && ProcOk(s, x) && NotLost(s, x);
    if x != i {
      LockAlone(s, i, x);
      if Waiting(t.procs[x]) && x != s.init {
        forall c: nat | c < |t.procs| ensures !ZombieChild(t, x, c) {
          assert !ZombieChild(s, x, c);
        }
      }
    }
  }

  lemma StepKeepsInv(s: State, e: Step)
    requires Inv(s) && Enabled(s, e)
    ensures Inv(Next(s, e))
  {
    hide Next, ProcOk, NotLost, LockOk, Enabled;
    SameLength(s, e);
    LocksKeep(s, e);
    var t := Next(s, e);
    forall x: nat | x < |s.procs| ensures ProcOk(t, x) && NotLost(t, x) {
      if Calm(s, e) {
        CalmProcs(s, e, x);
        CalmNotLost(s, e, x);
      } else if e.BecomeZombie? {
        ZombieKeeps(s, e, x);
      } else {
        AdoptKeeps(s, e, x);
      }
    }
  }

  // ---- whole runs ----

  /** One process, init, and empty slots. */
  function Boot(n: nat): (s: State)
    requires n > 0
  {
    State(NONE, 0, [Proc(Ready, NONE, NONE, false, User)] + seq(n - 1, i => Freed()))
  }

  lemma BootOk(n: nat)
    requires n > 0
    ensures Inv(Boot(n))
  {
    var s := Boot(n);
    forall x: nat | x < n ensures LockOk(s, x) && ProcOk(s, x) && NotLost(s, x) {
    }
  }

  ghost predicate LegalRun(s: State, run: seq<Step>)
    decreases |run|
  {
    run == [] || (Enabled(s, run[0]) && LegalRun(Next(s, run[0]), run[1..]))
  }

  ghost function After(s: State, run: seq<Step>): (t: State)
    requires LegalRun(s, run)
    decreases |run|
  {
    if run == [] then s else After(Next(s, run[0]), run[1..])
  }

  lemma {:induction false} RunKeepsInv(s: State, run: seq<Step>)
    requires Inv(s) && LegalRun(s, run)
    ensures Inv(After(s, run))
    decreases |run|
  {
    hide Inv;
    if run != [] {
      StepKeepsInv(s, run[0]);
      RunKeepsInv(Next(s, run[0]), run[1..]);
    }
  }

  /** In every interleaving: when `wait_lock` is free, nobody waits for a child that is a ZOMBIE already. */
  lemma NoLostWakeup(n: nat, run: seq<Step>, i: nat, c: nat)
    requires n > 0 && LegalRun(Boot(n), run)
    requires var s := After(Boot(n), run); s.waitLock == NONE && i < |s.procs| && c < |s.procs| && Waiting(s.procs[i])
    ensures var s := After(Boot(n), run); !ZombieChild(s, i, c)
  {
    BootOk(n);
    RunKeepsInv(Boot(n), run);
    assert NotLost(After(Boot(n), run), i);
  }

  /** From the decision to sleep until `wait_lock` is given up every child of the caller of `wait` is alive. */
  lemma SleepsWithLiveChildren(n: nat, run: seq<Step>, i: nat, c: nat)
    requires n > 0 && LegalRun(Boot(n), run)
    requires var s := After(Boot(n), run);
      && i < |s.procs| && c < |s.procs| && s.procs[c].parent == i
      && (s.procs[i].pc.SleepEnter? || s.procs[i].pc.SleepLocked?)
    ensures var s := After(Boot(n), run); !s.procs[c].status.Zombie?
  {
    BootOk(n);
    RunKeepsInv(Boot(n), run);
    var s := After(Boot(n), run);
    assert ProcOk(s, i);
    assert !ZombieChild(s, i, c);
  }
}
