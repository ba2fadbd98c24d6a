/**
 The scheduler of scheduler/kernel/my_proc.c and the state changes of scheduler/kernel/proc.c
 that feed it, on one processor, each operation in one step.

 Two modes: first come, first served with one queue, and a multi-level feedback queue with two
 rings and a priority queue. Whatever happens, mode switches and priority boosts included,
 every RUNNABLE process is in the queues of the active mode exactly once and nothing else is.
 */
module Scheduler {
  import opened RunQueue
  import opened Params

  datatype Status = UNUSED | USED | SLEEPING | RUNNABLE | RUNNING | ZOMBIE

  datatype Proc = Proc(state: Status, level: int, priority: int, quantum: int)

  datatype Mode = FCFS | MLFQ

  /** `ticks` is an unsigned int. */
  const TICKS := 0x1_0000_0000

  /** The contents of the four queues. */
  datatype Queues = Queues(f: seq<nat>, l0: seq<nat>, l1: seq<nat>, l2: seq<nat>)

  function Active(mode: Mode, q: Queues): (r: seq<nat>) {
    if mode.FCFS? then q.f else q.l0 + q.l1 + q.l2
  }

  // ---- the invariant ----

  /** Process `x` is in the active queues once if it is RUNNABLE, and otherwise not at all; `hole` is on its way. */
  predicate Once(mode: Mode, q: Queues, procs: seq<Proc>, hole: int, x: nat) {
    multiset(Active(mode, q))[x] == if x < |procs| && procs[x].state.RUNNABLE? && x != hole then 1 else 0
  }

  ghost predicate Conserved(mode: Mode, q: Queues, procs: seq<Proc>, hole: int) {
    forall x: nat {:trigger Once(mode, q, procs, hole, x)} :: Once(mode, q, procs, hole, x)
  }

  predicate FieldOk(p: Proc) {
    0 <= p.level <= 2 && 0 <= p.priority <= 3 && 1 <= p.quantum <= 2 * p.level + 1
  }

  /** In MLFQ mode every process has a level, a priority and a quantum in range, and is queued at its level. */
  ghost predicate LevelsOk(mode: Mode, q: Queues, procs: seq<Proc>) {
    mode.MLFQ? ==>
      && (forall x :: 0 <= x < |procs| ==> FieldOk(procs[x]))
      && (forall x :: x in q.l0 ==> x < |procs| && procs[x].level == 0)
      && (forall x :: x in q.l1 ==> x < |procs| && procs[x].level == 1)
      && (forall x :: x in q.l2 ==> x < |procs| && procs[x].level == 2)
  }

  predicate RunningOk(procs: seq<Proc>, current: int) {
    && |procs| == NPROC && -1 <= current < NPROC
    && forall x :: 0 <= x < |procs| ==> (procs[x].state.RUNNING? <==> x == current)
  }

  ghost predicate SchedOk(mode: Mode, q: Queues, procs: seq<Proc>, current: int, hole: int) {
    Conserved(mode, q, procs, hole) && LevelsOk(mode, q, procs) && RunningOk(procs, current)
  }

  // ---- counting ----

  lemma Three(a: seq<nat>, b: seq<nat>, c: seq<nat>)
    ensures multiset(a + b + c) == multiset(a) + multiset(b) + multiset(c)
  {
  }

  lemma ActiveSum(mode: Mode, q: Queues)
    ensures multiset(Active(mode, q)) ==
      if mode.FCFS? then multiset(q.f) else multiset(q.l0) + multiset(q.l1) + multiset(q.l2)
  {
    Three(q.l0, q.l1, q.l2);
  }

  lemma {:induction false} FewElements(m: multiset<nat>, n: nat)
    requires forall x :: x in m ==> x < n && m[x] == 1
    ensures |m| <= n
    decreases n
  {
    if n == 0 {
      assert m == multiset{};
    } else if n - 1 in m {
      FewElements(m - multiset{n - 1}, n - 1);
    } else {
      FewElements(m, n - 1);
    }
  }

  /** There are never more entries than processes, so the rings of QNUM slots never overflow. */
  lemma NeverFull(mode: Mode, q: Queues, procs: seq<Proc>, hole: int)
    requires Conserved(mode, q, procs, hole) && |procs| == NPROC
    ensures |Active(mode, q)| <= NPROC < QNUM - 1
    ensures mode.MLFQ? ==> |q.l0| <= NPROC && |q.l1| <= NPROC && |q.l2| <= NPROC
  {
    var m := multiset(Active(mode, q));
    forall x | x in m ensures x < NPROC && m[x] == 1 {
      assert Once(mode, q, procs, hole, x);
    }
    FewElements(m, NPROC);
  }

  lemma Queued(mode: Mode, q: Queues, procs: seq<Proc>, hole: int, x: nat)
    requires Conserved(mode, q, procs, hole) && x in Active(mode, q)
    ensures x < |procs| && procs[x].state.RUNNABLE? && x != hole
  {
    assert Once(mode, q, procs, hole, x);
  }

  // ---- pushing ----

  function Into(mode: Mode, q: Queues, level: int, x: nat): (r: Queues) {
    if mode.FCFS? then q.(f := q.f + [x])
    else if level == 0 then q.(l0 := q.l0 + [x])
    else if level == 1 then q.(l1 := q.l1 + [x])
    else q.(l2 := q.l2 + [x])
  }

  /** Where a process starts: at the end of the first-come queue or of level 0. */
  function AtEnd(mode: Mode, q: Queues, x: nat): (r: Queues)
    ensures r == Into(mode, q, 0, x)
  {
    if mode.FCFS? then Queues(q.f + [x], q.l0, q.l1, q.l2) else Queues(q.f, q.l0 + [x], q.l1, q.l2)
  }

  lemma AnyLevel(q: Queues, level: int, x: nat)
    ensures Into(FCFS, q, level, x) == Into(FCFS, q, 0, x)
  {
  }

  lemma AddToOne(a: multiset<nat>, b: multiset<nat>, c: multiset<nat>, m: multiset<nat>)
    ensures (a + m) + b + c == a + b + c + m && a + (b + m) + c == a + b + c + m && a + b + (c + m) == a + b + c + m
  {
  }

  lemma EndCounts(s: seq<nat>, x: nat)
    ensures multiset(s + [x]) == multiset(s) + multiset{x}
  {
  }

  lemma IntoCounts(mode: Mode, q: Queues, level: int, x: nat)
    ensures multiset(Active(mode, Into(mode, q, level, x))) == multiset(Active(mode, q)) + multiset{x}
  {
    hide Active;
    ActiveSum(mode, q);
    ActiveSum(mode, Into(mode, q, level, x));
    AddToOne(multiset(q.l0), multiset(q.l1), multiset(q.l2), multiset{x});
    if mode.FCFS? {
      EndCounts(q.f, x);
    } else if level == 0 {
      EndCounts(q.l0, x);
    } else if level == 1 {
      EndCounts(q.l1, x);
    } else {
      EndCounts(q.l2, x);
    }
  }

  /** `push` of the process on its way, at its level. */
  lemma PushKeeps(mode: Mode, q: Queues, procs: seq<Proc>, current: int, x: nat, p: Proc)
    requires SchedOk(mode, q, procs, current, x) && x < |procs| && procs[x].state.RUNNABLE?
    requires p.state.RUNNABLE? && (mode.MLFQ? ==> FieldOk(p))
    ensures SchedOk(mode, Into(mode, q, p.level, x), procs[x := p], current, -1)
  {
    hide Active;
    var r, ps := Into(mode, q, p.level, x), procs[x := p];
    IntoCounts(mode, q, p.level, x);
    assert Once(mode, q, procs, x, x);
    forall y: nat ensures Once(mode, r, ps, -1, y) {
      assert Once(mode, q, procs, x, y);
    }
    if mode.MLFQ? {
      NotQueued(mode, q, x);
      IntoLevels(q, procs, x, p);
    }
  }

  lemma IntoLevels(q: Queues, procs: seq<Proc>, x: nat, p: Proc)
    requires LevelsOk(MLFQ, q, procs) && x < |procs| && FieldOk(p) && x !in q.l0 && x !in q.l1 && x !in q.l2
    ensures LevelsOk(MLFQ, Into(MLFQ, q, p.level, x), procs[x := p])
  {
  }

  lemma NotQueued(mode: Mode, q: Queues, x: nat)
    requires multiset(Active(mode, q))[x] == 0 && mode.MLFQ?
    ensures x !in q.l0 && x !in q.l1 && x !in q.l2
  {
    ActiveSum(mode, q);
    assert x !in multiset(q.l0) && x !in multiset(q.l1) && x !in multiset(q.l2);
  }

  // ---- picking ----

  function Priorities(procs: seq<Proc>): (r: seq<int>)
    ensures |r| == |procs| && forall x :: 0 <= x < |procs| ==> r[x] == procs[x].priority
  {
    seq(|procs|, i requires 0 <= i < |procs| => procs[i].priority)
  }

  /**
   What the scheduler picks: the head of the first queue that is not empty, and from level 2 the foremost of
   the highest priority.
   */
  ghost predicate Picked(mode: Mode, q: Queues, prio: seq<int>, r: nat, t: Queues) {
    if mode.FCFS? then q == t.(f := [r] + t.f)
    else if q.l0 != [] then q == t.(l0 := [r] + t.l0)
    else if q.l1 != [] then q == t.(l1 := [r] + t.l1)
    else exists k: nat :: Foremost(q.l2, prio, k) && r == q.l2[k] && t == q.(l2 := Without(q.l2, k))
  }

  lemma WithoutCounts(s: seq<nat>, k: nat)
    requires k < |s|
    ensures multiset(s) == multiset(Without(s, k)) + multiset{s[k]}
  {
    assert s == s[..k] + [s[k]] + s[k + 1..];
  }

  lemma HeadCounts(r: nat, s: seq<nat>)
    ensures multiset([r] + s) == multiset(s) + multiset{r}
  {
  }

  lemma PickCounts(mode: Mode, q: Queues, prio: seq<int>, r: nat, t: Queues)
    requires Picked(mode, q, prio, r, t)
    ensures multiset(Active(mode, q)) == multiset(Active(mode, t)) + multiset{r}
  {
    hide Active;
    ActiveSum(mode, q);
    ActiveSum(mode, t);
    AddToOne(multiset(t.l0), multiset(t.l1), multiset(t.l2), multiset{r});
    if mode.FCFS? {
      HeadCounts(r, t.f);
    } else if q.l0 != [] {
      HeadCounts(r, t.l0);
    } else if q.l1 != [] {
      HeadCounts(r, t.l1);
    } else {
      var k: nat :| Foremost(q.l2, prio, k) && r == q.l2[k] && t == q.(l2 := Without(q.l2, k));
      WithoutCounts(q.l2, k);
    }
  }

  lemma PickedFrom(mode: Mode, q: Queues, prio: seq<int>, r: nat, t: Queues)
    requires Picked(mode, q, prio, r, t) && mode.MLFQ?
    ensures (forall x :: x in t.l0 ==> x in q.l0) && (forall x :: x in t.l1 ==> x in q.l1)
    ensures (forall x :: x in t.l2 ==> x in q.l2)
  {
    if q.l0 == [] && q.l1 == [] {
      var k: nat :| Foremost(q.l2, prio, k) && r == q.l2[k] && t == q.(l2 := Without(q.l2, k));
      forall x | x in t.l2 ensures x in q.l2 {
        assert x in q.l2[..k] || x in q.l2[k + 1..];
      }
    }
  }

  /** The process picked is RUNNABLE; once it is RUNNING everything is in order again. */
  lemma PickKeeps(mode: Mode, q: Queues, procs: seq<Proc>, r: nat, t: Queues)
    requires SchedOk(mode, q, procs, -1, -1) && Picked(mode, q, Priorities(procs), r, t)
    ensures r < |procs| && procs[r].state.RUNNABLE? && SchedOk(mode, t, procs, -1, r)
    ensures SchedOk(mode, t, procs[r := procs[r].(state := RUNNING)], r, -1)
  {
    hide Picked, Active, LevelsOk;
    PickCounts(mode, q, Priorities(procs), r, t);
    assert Once(mode, q, procs, -1, r);
    forall y: nat ensures Once(mode, t, procs, r, y) {
      assert Once(mode, q, procs, -1, y);
    }
    PickedLevels(mode, q, procs, r, t);
    RunKeeps(mode, t, procs, r);
  }

  lemma PickedLevels(mode: Mode, q: Queues, procs: seq<Proc>, r: nat, t: Queues)
    requires LevelsOk(mode, q, procs) && Picked(mode, q, Priorities(procs), r, t)
    ensures LevelsOk(mode, t, procs)
  {
    hide Picked;
    if mode.MLFQ? {
      PickedFrom(mode, q, Priorities(procs), r, t);
    }
  }

  lemma RunKeeps(mode: Mode, t: Queues, procs: seq<Proc>, r: nat)
    requires SchedOk(mode, t, procs, -1, r) && r < |procs|
    ensures SchedOk(mode, t, procs[r := procs[r].(state := RUNNING)], r, -1)
  {
    hide Active, LevelsOk;
    var ps := procs[r := procs[r].(state := RUNNING)];
    assert Once(mode, t, procs, r, r);
    forall y: nat ensures Once(mode, t, ps, -1, y) {
      assert Once(mode, t, procs, r, y);
    }
    LevelsSame(mode, t, procs, ps);
  }

  // ---- state changes outside the queues ----

  /** A process that is neither RUNNABLE before nor after. */
  lemma OtherKeeps(mode: Mode, q: Queues, procs: seq<Proc>, current: int, x: nat, p: Proc, now: int)
    requires SchedOk(mode, q, procs, current, -1) && x < |procs| && !procs[x].state.RUNNABLE? && !p.state.RUNNABLE?
    requires !p.state.RUNNING?
    requires p == procs[x].(state := p.state) && now == if x == current then -1 else current
    ensures SchedOk(mode, q, procs[x := p], now, -1)
  {
    var ps := procs[x := p];
    forall y: nat ensures Once(mode, q, ps, -1, y) {
      assert Once(mode, q, procs, -1, y);
    }
    LevelsSame(mode, q, procs, ps);
  }

  /** A process that becomes RUNNABLE and is not queued yet. */
  lemma RaiseKeeps(mode: Mode, q: Queues, procs: seq<Proc>, current: int, x: nat, now: int)
    requires SchedOk(mode, q, procs, current, -1) && x < |procs| && !procs[x].state.RUNNABLE?
    requires now == if x == current then -1 else current
    ensures SchedOk(mode, q, procs[x := procs[x].(state := RUNNABLE)], now, x)
  {
    var ps := procs[x := procs[x].(state := RUNNABLE)];
    assert Once(mode, q, procs, -1, x);
    forall y: nat ensures Once(mode, q, ps, x, y) {
      assert Once(mode, q, procs, -1, y);
    }
    LevelsSame(mode, q, procs, ps);
  }

  lemma LevelsSame(mode: Mode, q: Queues, procs: seq<Proc>, ps: seq<Proc>)
    requires LevelsOk(mode, q, procs) && |ps| == |procs|
    requires forall x :: 0 <= x < |procs| ==> ps[x].level == procs[x].level && (FieldOk(procs[x]) ==> FieldOk(ps[x]))
    ensures LevelsOk(mode, q, ps)
  {
  }

  /** `sys_setpriority`: only values from 0 to 3 get through. */
  lemma PriorityKeeps(mode: Mode, q: Queues, procs: seq<Proc>, current: int, x: nat, pr: int)
    requires SchedOk(mode, q, procs, current, -1) && x < |procs| && 0 <= pr <= 3
    ensures SchedOk(mode, q, procs[x := procs[x].(priority := pr)], current, -1)
  {
    var ps := procs[x := procs[x].(priority := pr)];
    forall y: nat ensures Once(mode, q, ps, -1, y) {
      assert Once(mode, q, procs, -1, y);
    }
    LevelsSame(mode, q, procs, ps);
  }

  // ---- rebuilding a queue from the process table ----

  function RunnableBelow(procs: seq<Proc>, n: nat): (r: seq<nat>)
    requires n <= |procs|
    ensures |r| <= n
  {
    if n == 0 then [] else RunnableBelow(procs, n - 1) + (if procs[n - 1].state.RUNNABLE? then [n - 1] else [])
  }

  lemma RunnableNext(procs: seq<Proc>, n: nat)
    requires n < |procs|
    ensures RunnableBelow(procs, n + 1) ==
      if procs[n].state.RUNNABLE? then RunnableBelow(procs, n) + [n] else RunnableBelow(procs, n)
  {
  }

  lemma CountSnoc(s: seq<nat>, y: nat, x: nat)
    ensures multiset(s + [y])[x] == multiset(s)[x] + (if x == y then 1 else 0)
  {
  }

  lemma RunnableNowhere(procs: seq<Proc>)
    ensures RunnableBelow(procs, 0) == []
  {
  }

  lemma {:induction false} RunnableCounts(procs: seq<Proc>, n: nat, x: nat)
    requires n <= |procs|
    ensures multiset(RunnableBelow(procs, n))[x] == if x < n && procs[x].state.RUNNABLE? then 1 else 0
    decreases n
  {
    hide RunnableBelow;
    if n == 0 {
      RunnableNowhere(procs);
    } else {
      RunnableCounts(procs, n - 1, x);
      RunnableNext(procs, n - 1);
      var r, k: nat := RunnableBelow(procs, n - 1), n - 1;
      CountSnoc(r, k, x);
    }
  }

  /** Only the scheduling fields differ. */
  predicate SameStates(procs: seq<Proc>, ps: seq<Proc>) {
    |ps| == |procs| && forall x :: 0 <= x < |procs| ==> ps[x].state == procs[x].state
  }

  lemma {:induction false} SameRunnable(procs: seq<Proc>, ps: seq<Proc>, n: nat)
    requires SameStates(procs, ps) && n <= |procs|
    ensures RunnableBelow(ps, n) == RunnableBelow(procs, n)
    decreases n
  {
    if n > 0 {
      SameRunnable(procs, ps, n - 1);
    }
  }

  lemma RebuiltFcfs(procs: seq<Proc>, ps: seq<Proc>, current: int, q: Queues)
    requires RunningOk(procs, current) && SameStates(procs, ps) && q.f == RunnableBelow(ps, |ps|)
    ensures SchedOk(FCFS, q, ps, current, -1)
  {
    forall x: nat ensures Once(FCFS, q, ps, -1, x) {
      RunnableCounts(ps, |ps|, x);
    }
  }

  /** All at level 0 with full priority and one turn. */
  predicate Fresh(ps: seq<Proc>) {
    forall x :: 0 <= x < |ps| ==> ps[x].level == 0 && ps[x].priority == 3 && ps[x].quantum == 1
  }

  /** A boost: the states stay, and everyone is fresh. */
  predicate Boosted(procs: seq<Proc>, ps: seq<Proc>) {
    |ps| == |procs| && forall x :: 0 <= x < |procs| ==> ps[x] == Proc(procs[x].state, 0, 3, 1)
  }

  lemma BoostedSince(procs: seq<Proc>, queued: seq<Proc>, ps: seq<Proc>)
    requires SameStates(procs, queued) && SameStates(queued, ps) && Fresh(ps)
    ensures Boosted(procs, ps) && RunnableBelow(queued, |queued|) == RunnableBelow(ps, |ps|)
  {
    SameRunnable(queued, ps, |queued|);
  }

  lemma IntoOthers(mode: Mode, q: Queues, level: int, x: nat)
    ensures Into(mode, q, level, x).f == if mode.FCFS? then q.f + [x] else q.f
  {
  }

  /** Exactly the RUNNABLE processes, in the order of the process table. */
  lemma {:induction false} RunnableInOrder(procs: seq<Proc>, n: nat)
    requires n <= |procs|
    ensures var r := RunnableBelow(procs, n);
      && (forall x: nat :: x in r <==> x < n && procs[x].state.RUNNABLE?)
      && (forall i, j :: 0 <= i < j < |r| ==> r[i] < r[j])
    decreases n
  {
    hide RunnableBelow;
    if n == 0 {
      RunnableNowhere(procs);
    } else {
      RunnableInOrder(procs, n - 1);
      RunnableNext(procs, n - 1);
      var r := RunnableBelow(procs, n - 1);
      forall i | 0 <= i < |r| ensures r[i] < n - 1 {
        assert r[i] in r;
      }
      SnocHas(r, n - 1);
    }
  }

  lemma SnocHas(s: seq<nat>, y: nat)
    ensures forall x: nat :: x in s + [y] <==> x in s || x == y
  {
  }

  /** Ticks until the next multiple of 50, counting a wrap to 0. */
  function ToFifty(ticks: nat): (r: nat)
    requires ticks < TICKS
  {
    if ticks >= TICKS - 46 then TICKS - ticks else 50 - ticks % 50
  }

  lemma CloserToFifty(ticks: nat)
    requires ticks < TICKS
    ensures var t := (ticks + 1) % TICKS;
      && 0 < ToFifty(ticks) <= 50 && (t % 50 == 0 <==> ToFifty(ticks) == 1)
      && (t % 50 != 0 ==> ToFifty(t) == ToFifty(ticks) - 1)
  {
    assert TICKS == 50 * 85899345 + 46;
    if ticks >= TICKS - 46 {
      assert ticks - (TICKS - 46) == ticks - 50 * 85899345;
    }
  }

  lemma RebuiltMlfq(procs: seq<Proc>, ps: seq<Proc>, current: int, q: Queues, s: seq<nat>)
    requires RunningOk(procs, current) && SameStates(procs, ps) && Fresh(ps) && q.l0 == s && q.l1 == [] && q.l2 == []
    requires forall x: nat :: multiset(s)[x] == if x < |ps| && ps[x].state.RUNNABLE? then 1 else 0
    ensures SchedOk(MLFQ, q, ps, current, -1)
  {
    ActiveSum(MLFQ, q);
    forall x: nat ensures Once(MLFQ, q, ps, -1, x) {
    }
    forall x | x in q.l0 ensures x < |ps| && ps[x].level == 0 {
      assert multiset(s)[x] > 0;
    }
  }

  // ---- one process's turn ----

  /** What `my_queueing` does to a process that used up a turn. */
  function Requeued(p: Proc): (r: Proc) {
    var n := p.quantum - 1;
    if n != 0 then p.(quantum := n)
    else
      var level := if p.level != 2 then p.level + 1 else p.level;
      var priority := if p.level == 2 && p.priority > 0 then p.priority - 1 else p.priority;
      p.(level := level, priority := priority, quantum := level * 2 + 1)
  }

  /** What `add_proc_to_queue` does to a process that arrives. */
  function Admitted(p: Proc): (r: Proc) {
    p.(level := 0, priority := 3, quantum := 1)
  }

  lemma RequeuedOk(p: Proc)
    requires FieldOk(p)
    ensures FieldOk(Requeued(p)) && Requeued(p).state == p.state
  {
  }

  lemma RequeuedState(p: Proc, state: Status)
    ensures Requeued(p.(state := state)) == Requeued(p).(state := state) && Requeued(p.(state := state)).state == state
  {
  }

  function Turns(p: Proc, k: nat): (r: Proc) {
    if k == 0 then p else Requeued(Turns(p, k - 1))
  }

  /**
   The closed form of demotion: after `k` turns since admission or boost the process is at
   level 1 from the first turn, at level 2 from the fourth, and from there loses one priority
   every five turns down to 0.
   */
  lemma {:induction false} Demotion(p: Proc, k: nat)
    ensures var r := Turns(Admitted(p), k);
      && r.level == (if k < 1 then 0 else if k < 4 then 1 else 2)
      && r.priority == (if k < 4 then 3 else if (k - 4) / 5 < 3 then 3 - (k - 4) / 5 else 0)
      && r.quantum == (if k < 1 then 1 else if k < 4 then 4 - k else 5 - (k - 4) % 5)
  {
    if k > 0 {
      Demotion(p, k - 1);
      if k > 4 {
        FifthTurn(k - 4);
      }
    }
  }

  lemma FifthTurn(n: nat)
    requires n > 0
    ensures n % 5 == 0 ==> (n - 1) % 5 == 4 && n / 5 == (n - 1) / 5 + 1
    ensures n % 5 != 0 ==> (n - 1) % 5 == n % 5 - 1 && n / 5 == (n - 1) / 5
  {
  }

  // ---- waiting at level 0 ----

  /** What can happen to the queues while there is neither a boost nor a change of mode. */
  datatype Event = Arrive(level: int, x: nat) | Dispatch(r: nat)

  ghost predicate Happens(q: Queues, prio: seq<int>, e: Event, t: Queues) {
    match e
    case Arrive(level, x) => t == Into(MLFQ, q, level, x)
    case Dispatch(r) => Picked(MLFQ, q, prio, r, t)
  }

  /** States `qs[0..]` with the events between them; priorities may change at any time. */
  ghost predicate History(qs: seq<Queues>, prios: seq<seq<int>>, es: seq<Event>) {
    && |qs| == |es| + 1 && |prios| == |es|
    && forall i {:trigger es[i]} :: 0 <= i < |es| ==> Happens(qs[i], prios[i], es[i], qs[i + 1])
  }

  function Dispatches(es: seq<Event>): (n: nat) {
    if es == [] then 0 else Dispatches(es[..|es| - 1]) + (if es[|es| - 1].Dispatch? then 1 else 0)
  }

  /**
   A process at position `i` of level 0 is dispatched after exactly `i` other dispatches,
   whatever arrives: after `n <= i` of them it is at position `i - n`, and the next dispatch
   after `i` picks it.
   */
  lemma {:induction false} TurnComes(qs: seq<Queues>, prios: seq<seq<int>>, es: seq<Event>, i: nat)
    requires History(qs, prios, es) && i < |qs[0].l0| && Dispatches(es) <= i
    ensures var n := Dispatches(es); i - n < |qs[|es|].l0| && qs[|es|].l0[i - n] == qs[0].l0[i]
    decreases |es|
  {
    if es != [] {
      var k := |es| - 1;
      assert forall j :: 0 <= j < k ==> es[..k][j] == es[j];
      TurnComes(qs[..k + 1], prios[..k], es[..k], i);
      assert Happens(qs[k], prios[k], es[k], qs[k + 1]);
    }
  }

  lemma NextDispatch(q: Queues, prio: seq<int>, r: nat, t: Queues)
    requires Picked(MLFQ, q, prio, r, t) && q.l0 != []
    ensures r == q.l0[0]
  {
  }

  lemma ExactlyAfter(qs: seq<Queues>, prios: seq<seq<int>>, es: seq<Event>, i: nat, prio: seq<int>, r: nat, t: Queues)
    requires History(qs, prios, es) && i < |qs[0].l0| && Dispatches(es) == i && Picked(MLFQ, qs[|es|], prio, r, t)
    ensures r == qs[0].l0[i]
  {
    TurnComes(qs, prios, es, i);
    NextDispatch(qs[|es|], prio, r, t);
  }

  class Sched {
    const fcfs: Queue
    const q0: Queue
    const q1: Queue
    const q2: Queue
    var mode: Mode
    var procs: seq<Proc>
    var boost: bool
    var current: int
    var ticks: nat

    ghost predicate Shape()
      reads this, fcfs, q0, q1, q2
    {
      && fcfs.Valid() && q0.Valid() && q1.Valid() && q2.Valid() && q2.s == 0
      && fcfs != q0 && fcfs != q1 && fcfs != q2 && q0 != q1 && q0 != q2 && q1 != q2
      && fcfs.p != q0.p && fcfs.p != q1.p && fcfs.p != q2.p && q0.p != q1.p && q0.p != q2.p && q1.p != q2.p
    }

    ghost function Qs(): (r: Queues)
      requires Shape()
      reads this, fcfs, q0, q1, q2, fcfs.p, q0.p, q1.p, q2.p
    {
      Queues(fcfs.Contents(), q0.Contents(), q1.Contents(), q2.Contents())
    }

    ghost predicate Valid()
      reads this, fcfs, q0, q1, q2, fcfs.p, q0.p, q1.p, q2.p
    {
      Shape() && SchedOk(mode, Qs(), procs, current, -1) && ticks < TICKS
    }

    /** The scheduler at boot: `init_my_lock` and the zeroed process table. */
    constructor ()
      ensures Valid() && mode.FCFS? && Qs() == Queues([], [], [], []) && current == -1 && !boost && ticks == 0
      ensures |procs| == NPROC && forall x :: 0 <= x < NPROC ==> procs[x].state.UNUSED?
      ensures fresh(fcfs) && fresh(q0) && fresh(q1) && fresh(q2)
      ensures fresh(fcfs.p) && fresh(q0.p) && fresh(q1.p) && fresh(q2.p)
    {
      fcfs := new Queue();
      q0 := new Queue();
      q1 := new Queue();
      q2 := new Queue();
      mode, boost, current, ticks := FCFS, false, -1, 0;
      procs := seq(NPROC, i => Proc(UNUSED, 0, 0, 0));
      new;
      forall x: nat ensures Once(mode, Qs(), procs, -1, x) {
      }
    }

    /** `push`, into the queue of the mode and level. */
    method Push(level: int, x: nat)
      requires Shape() && |Active(mode, Qs())| < QNUM - 1 && (mode.MLFQ? ==> 0 <= level <= 2)
      modifies fcfs, q0, q1, q2, fcfs.p, q0.p, q1.p, q2.p
      ensures Shape() && Qs() == Into(mode, old(Qs()), level, x)
    {
      if mode.FCFS? {
        fcfs.Push(x);
      } else if level == 0 {
        q0.Push(x);
      } else if level == 1 {
        q1.Push(x);
      } else {
        q2.Append(x);
      }
    }

    /**
     `my_queueing`: a process that gives up the processor goes to the end of its queue, demoted if its
     quantum is used up.
     */
    method MyQueueing(x: nat)
      requires Shape() && SchedOk(mode, Qs(), procs, current, x) && ticks < TICKS
      requires x < NPROC && procs[x].state.RUNNABLE?
      modifies `procs, fcfs, q0, q1, q2, fcfs.p, q0.p, q1.p, q2.p
      ensures Valid() && procs == if mode.FCFS? then old(procs) else old(procs)[x := Requeued(old(procs)[x])]
      ensures Qs() == Into(mode, old(Qs()), procs[x].level, x)
    {
      hide LevelsOk, Conserved, Into, Active;
      NeverFull(mode, Qs(), procs, x);
      if mode.FCFS? {
        PushKeeps(mode, Qs(), procs, current, x, procs[x]);
        assert procs[x := procs[x]] == procs;
        Push(procs[x].level, x);
      } else {
        FieldsOk(mode, Qs(), procs, x);
        RequeuedOk(procs[x]);
        PushKeeps(mode, Qs(), procs, current, x, Requeued(procs[x]));
        var p := procs[x].(quantum := procs[x].quantum - 1);
        if p.quantum == 0 {
          if p.level != 2 {
            p := p.(level := p.level + 1);
          } else if p.priority > 0 {
            p := p.(priority := p.priority - 1);
          }
          p := p.(quantum := p.level * 2 + 1);
        }
        procs := procs[x := p];
        Push(p.level, x);
      }
    }

    /** `add_proc_to_queue`: a process that becomes RUNNABLE starts at level 0. */
    method AddProcToQueue(x: nat)
      requires Shape() && SchedOk(mode, Qs(), procs, current, x) && ticks < TICKS
      requires x < NPROC && procs[x].state.RUNNABLE?
      modifies `procs, fcfs, q0, q1, q2, fcfs.p, q0.p, q1.p, q2.p
      ensures Valid() && procs == if mode.FCFS? then old(procs) else old(procs)[x := Proc(RUNNABLE, 0, 3, 1)]
      ensures Qs() == AtEnd(mode, old(Qs()), x)
    {
      hide LevelsOk, Conserved, Into, Active, AtEnd;
      NeverFull(mode, Qs(), procs, x);
      if mode.FCFS? {
        PushKeeps(mode, Qs(), procs, current, x, procs[x]);
        assert procs[x := procs[x]] == procs;
        AnyLevel(Qs(), procs[x].level, x);
        Push(procs[x].level, x);
      } else {
        PushKeeps(mode, Qs(), procs, current, x, Admitted(procs[x]));
        procs := procs[x := procs[x].(level := 0, priority := 3, quantum := 1)];
        Push(0, x);
      }
    }

    /** `userinit` and the end of `fork`. */
    method Start(x: nat)
      requires Valid() && x < NPROC && procs[x].state.USED?
      modifies `procs, fcfs, q0, q1, q2, fcfs.p, q0.p, q1.p, q2.p
      ensures Valid() && Qs() == AtEnd(mode, old(Qs()), x)
      ensures procs == old(procs)[x :=
        if mode.FCFS? then old(procs)[x].(state := RUNNABLE) else Proc(RUNNABLE, 0, 3, 1)]
    {
      hide LevelsOk, Conserved, AtEnd, Active;
      RaiseKeeps(mode, Qs(), procs, current, x, current);
      procs := procs[x := procs[x].(state := RUNNABLE)];
      AddProcToQueue(x);
    }

    /** One process in `wakeup`, or in `kill`. */
    method WakeOne(x: nat)
      requires Valid() && x < NPROC && procs[x].state.SLEEPING?
      modifies `procs, fcfs, q0, q1, q2, fcfs.p, q0.p, q1.p, q2.p
      ensures Valid() && Qs() == AtEnd(mode, old(Qs()), x)
      ensures procs == old(procs)[x :=
        if mode.FCFS? then old(procs)[x].(state := RUNNABLE) else Proc(RUNNABLE, 0, 3, 1)]
    {
      hide LevelsOk, Conserved, AtEnd, Active;
      RaiseKeeps(mode, Qs(), procs, current, x, current);
      procs := procs[x := procs[x].(state := RUNNABLE)];
      AddProcToQueue(x);
    }

    /** `allocproc` and `freeproc`, as far as the scheduler is concerned. */
    method SetIdle(x: nat, state: Status)
      requires Valid() && x < NPROC && (procs[x].state.UNUSED? || procs[x].state.USED? || procs[x].state.ZOMBIE?)
      requires (state.UNUSED? || state.USED?)
      modifies `procs
      ensures Valid() && Qs() == old(Qs()) && procs == old(procs)[x := old(procs)[x].(state := state)]
    {
      OtherKeeps(mode, Qs(), procs, current, x, procs[x].(state := state), current);
      procs := procs[x := procs[x].(state := state)];
    }

    /**
     The loop of `select_with_fcfs`, and of `select_with_mlfq` on levels 0 and 1: entries that are not
     RUNNABLE are dropped.
     */
    method PopRunnable(q: Queue) returns (r: int, ghost skipped: seq<nat>)
      requires q.Valid() && forall x :: x in q.Contents() ==> x < |procs|
      modifies q
      ensures q.Valid() && forall x :: x in skipped ==> x < |procs| && !procs[x].state.RUNNABLE?
      ensures r == -1 ==> q.Contents() == [] && old(q.Contents()) == skipped
      ensures r != -1 ==> 0 <= r < |procs| && procs[r].state.RUNNABLE?
      ensures r != -1 ==> old(q.Contents()) == skipped + [r] + q.Contents()
    {
      hide Around;
      skipped := [];
      var empty := q.IsEmpty();
      while !empty
        invariant q.Valid() && (empty <==> q.Contents() == []) && old(q.Contents()) == skipped + q.Contents()
        invariant forall x :: x in skipped ==> x < |procs| && !procs[x].state.RUNNABLE?
        decreases |q.Contents()|
      {
        ghost var before := q.Contents();
        var t := q.Pop();
        assert before[0] == t;
        OutOf(old(q.Contents()), skipped, t, q.Contents());
        if procs[t].state.RUNNABLE? {
          return t, skipped;
        }
        skipped := skipped + [t];
        empty := q.IsEmpty();
      }
      return -1, skipped;
    }

    /** The same loop on level 2. */
    method PopHighest() returns (r: int, ghost skipped: seq<nat>)
      requires q2.Valid() && q2.s == 0 && forall x :: x in q2.Contents() ==> x < |procs| && procs[x].priority >= 0
      modifies q2, q2.p
      ensures q2.Valid() && q2.s == 0
      ensures forall x :: x in skipped ==> x in old(q2.Contents()) && x < |procs| && !procs[x].state.RUNNABLE?
      ensures r == -1 ==> q2.Contents() == [] && (skipped == [] ==> old(q2.Contents()) == [])
      ensures r != -1 ==> r >= 0
      ensures r != -1 && skipped == [] ==> exists k: nat ::
        && Foremost(old(q2.Contents()), Priorities(procs), k) && r == old(q2.Contents())[k]
        && q2.Contents() == Without(old(q2.Contents()), k)
    {
      hide Around, Foremost, Without;
      skipped := [];
      var empty := q2.IsEmpty();
      while !empty
        invariant q2.Valid() && q2.s == 0 && (empty <==> q2.Contents() == [])
        invariant (skipped == [] ==> q2.Contents() == old(q2.Contents()))
        invariant forall x :: x in q2.Contents() ==> x in old(q2.Contents())
        invariant forall x :: x in skipped ==> x in old(q2.Contents()) && x < |procs| && !procs[x].state.RUNNABLE?
        decreases |q2.Contents()|
      {
        ghost var before := q2.Contents();
        NotAllNegative(before, procs);
        ghost var k: nat;
        r, k := q2.L2Pop(Priorities(procs));
        WithoutFrom(before, k);
        if r == -1 {
          assert false;
        }
        if procs[r].state.RUNNABLE? {
          return r, skipped;
        }
        skipped := skipped + [r];
        empty := q2.IsEmpty();
      }
      return -1, skipped;
    }

    /** `select_with_fcfs`. */
    method SelectFcfs() returns (r: int)
      requires Valid() && mode.FCFS? && current == -1
      modifies fcfs
      ensures Shape() && (r == -1 ==> old(Active(mode, Qs())) == [] && Qs() == old(Qs()))
      ensures r != -1 ==> r >= 0 && Picked(mode, old(Qs()), Priorities(procs), r, Qs())
    {
      hide Conserved, LevelsOk, Foremost, Around;
      ghost var q := Qs();
      AllRunnable(FCFS, q, procs);
      ghost var skipped;
      r, skipped := PopRunnable(fcfs);
      NoneSkipped(q.f, skipped, procs, if r == -1 then 0 else r, fcfs.Contents());
    }

    /** `select_with_mlfq`. Level 2 never yields nothing, because every priority is at least 0. */
    method SelectMlfq() returns (r: int)
      requires Valid() && mode.MLFQ? && current == -1
      modifies q0, q1, q2, q2.p
      ensures Shape() && (r == -1 ==> old(Active(mode, Qs())) == [] && Qs() == old(Qs()))
      ensures r != -1 ==> r >= 0 && Picked(mode, old(Qs()), Priorities(procs), r, Qs())
    {
      hide Conserved, LevelsOk, Foremost, Around, Without;
      ghost var q := Qs();
      AllRunnable(MLFQ, q, procs);
      MlfqPriorities(q, procs);
      ghost var skipped;
      r, skipped := PopRunnable(q0);
      NoneSkipped(q.l0, skipped, procs, if r == -1 then 0 else r, q0.Contents());
      if r != -1 {
        return;
      }
      r, skipped := PopRunnable(q1);
      NoneSkipped(q.l1, skipped, procs, if r == -1 then 0 else r, q1.Contents());
      if r != -1 {
        return;
      }
      r, skipped := PopHighest();
      NoneSkipped(q.l2, skipped, procs, 0, []);
    }

    /** One round of `my_scheduler` up to the switch: if anything is RUNNABLE, one process becomes RUNNING. */
    method Dispatch() returns (r: int)
      requires Valid() && current == -1
      modifies `procs, `current, fcfs, q0, q1, q2, q2.p
      ensures Valid() && current == r
      ensures r == -1 ==> procs == old(procs) && forall x :: 0 <= x < NPROC ==> !procs[x].state.RUNNABLE?
      ensures r == -1 ==> Qs() == old(Qs())
      ensures r != -1 ==> 0 <= r < NPROC && Picked(mode, old(Qs()), Priorities(old(procs)), r, Qs())
      ensures r != -1 ==> old(procs)[r].state.RUNNABLE? && procs == old(procs)[r := old(procs)[r].(state := RUNNING)]
    {
      hide Conserved, LevelsOk, Picked;
      if mode.FCFS? {
        r := SelectFcfs();
      } else {
        r := SelectMlfq();
      }
      if r == -1 {
        NoneRunnable(mode, Qs(), procs, current);
        return;
      }
      PickKeeps(mode, old(Qs()), procs, r, Qs());
      procs := procs[r := procs[r].(state := RUNNING)];
      current := r;
    }

    /** The loop of `priority_boosting`. */
    method FillLevel0()
      requires Shape() && |procs| == NPROC && q0.s == 0 && q0.Contents() == []
      modifies `procs, q0, q0.p
      ensures Shape() && SameStates(old(procs), procs) && Fresh(procs)
      ensures q0.Contents() == RunnableBelow(old(procs), NPROC)
    {
      hide Fresh, FreshBelow, Around;
      ghost var before := procs;
      FreshNone(procs);
      var i := 0;
      while i < NPROC
        invariant 0 <= i <= NPROC && Shape() && q0.s == 0 && q0.Contents() == RunnableBelow(before, i)
        invariant SameStates(before, procs) && FreshBelow(procs, i)
      {
        FreshNext(procs, i);
        procs := procs[i := procs[i].(priority := 3, level := 0, quantum := 1)];
        if procs[i].state.RUNNABLE? {
          q0.Append(i);
        }
        i := i + 1;
      }
      FreshAll(procs);
    }

    /**
     `priority_boosting`: everyone back to level 0, in the order of the process table. In FCFS mode it is
     without effect on what runs.
     */
    method PriorityBoosting()
      requires Valid()
      modifies `procs, q0, q1, q2, q0.p
      ensures Valid() && Fresh(procs) && SameStates(old(procs), procs)
      ensures Qs() == Queues(old(Qs()).f, RunnableBelow(old(procs), NPROC), [], [])
    {
      hide Conserved, LevelsOk, Fresh, Around;
      ghost var before, q := procs, Qs();
      q0.Reset();
      q1.Reset();
      q2.Reset();
      FillLevel0();
      if mode.FCFS? {
        BoostInFcfs(before, procs, current, q, Qs());
      } else {
        SameRunnable(before, procs, NPROC);
        BoostInMlfq(before, procs, current, Qs());
      }
    }

    /** The end of `my_switching`. */
    method BoostIfDue()
      requires Valid()
      modifies `procs, `boost, q0, q1, q2, q0.p
      ensures Valid() && SameStates(old(procs), procs) && !boost
      ensures !old(boost) ==> procs == old(procs) && Qs() == old(Qs())
      ensures old(boost) ==> Fresh(procs) && Qs() == Queues(old(Qs()).f, RunnableBelow(old(procs), NPROC), [], [])
    {
      if boost {
        PriorityBoosting();
      }
      boost := false;
    }

    /** `yield`, back to the scheduler: the process is queued again, and a boost that is due follows. */
    method Yield()
      requires Valid() && current != -1
      modifies `procs, `boost, `current, fcfs, q0, q1, q2, fcfs.p, q0.p, q1.p, q2.p
      ensures Valid() && current == -1 && !boost
      ensures var x: nat := old(current);
        if old(boost) then
          && Boosted(old(procs)[x := old(procs)[x].(state := RUNNABLE)], procs)
          && Qs() == Queues(if mode.FCFS? then old(Qs()).f + [x] else old(Qs()).f, RunnableBelow(procs, NPROC), [], [])
        else
          && Qs() == Into(mode, old(Qs()), procs[x].level, x)
          && procs == old(procs)[x :=
               (if mode.FCFS? then old(procs)[x] else Requeued(old(procs)[x])).(state := RUNNABLE)]
    {
      hide Conserved, LevelsOk, Into, Active, Around, Requeued, Fresh, RunnableBelow;
      var x := current;
      RaiseKeeps(mode, Qs(), procs, current, x, -1);
      RequeuedState(procs[x], RUNNABLE);
      procs := procs[x := procs[x].(state := RUNNABLE)];
      ghost var raised := procs;
      current := -1;
      MyQueueing(x);
      ghost var queued, q := procs, Qs();
      BoostIfDue();
      if old(boost) {
        BoostedSince(raised, queued, procs);
        IntoOthers(mode, old(Qs()), queued[x].level, x);
      }
    }

    /** `sleep` and `exit`, back to the scheduler. */
    method Block(state: Status)
      requires Valid() && current != -1 && (state.SLEEPING? || state.ZOMBIE?)
      modifies `procs, `boost, `current, q0, q1, q2, q0.p
      ensures Valid() && current == -1 && !boost
      ensures var blocked := old(procs)[old(current) := old(procs)[old(current)].(state := state)];
        if old(boost) then
          Boosted(blocked, procs) && Qs() == Queues(old(Qs()).f, RunnableBelow(procs, NPROC), [], [])
        else procs == blocked && Qs() == old(Qs())
    {
      hide Conserved, LevelsOk, Fresh, RunnableBelow;
      var x := current;
      OtherKeeps(mode, Qs(), procs, current, x, procs[x].(state := state), -1);
      procs := procs[x := procs[x].(state := state)];
      ghost var blocked := procs;
      current := -1;
      BoostIfDue();
      if old(boost) {
        BoostedSince(blocked, blocked, procs);
      }
    }

    /**
     `clockintr`: a boost is asked for every 50 ticks in MLFQ mode. It holds `schedule_lock` around `wakeup`, which
     takes it again for a process that sleeps on the ticks (`onTicks`): then `acquire` panics. `ticks` has 32 bits.
     */
    method Tick(onTicks: set<nat>) returns (panics: bool)
      requires Valid()
      modifies `boost, `ticks
      ensures Valid() && ticks == (old(ticks) + 1) % TICKS
      ensures boost == (old(boost) || (ticks % 50 == 0 && mode.MLFQ?))
      ensures panics <==> exists x: nat :: x < NPROC && x in onTicks && procs[x].state.SLEEPING?
    {
      ticks := (ticks + 1) % TICKS;
      if ticks % 50 == 0 && mode.MLFQ? {
        boost := true;
      }
      var x := 0;
      while x < NPROC
        invariant 0 <= x <= NPROC && forall y: nat :: y < x && y in onTicks ==> !procs[y].state.SLEEPING?
      {
        if procs[x].state.SLEEPING? && x in onTicks {
          return true;
        }
        x := x + 1;
      }
      panics := false;
    }

    /**
     Nobody stays below level 0 for longer: any 50 ticks ask for a boost, also where `ticks` wraps, and the
     next process to give up the processor finds everyone, itself included, queued at level 0 in the order of
     the process table.
     */
    method FiftyTicksThenYield()
      requires Valid() && mode.MLFQ? && current != -1
      modifies `procs, `boost, `current, `ticks, fcfs, q0, q1, q2, fcfs.p, q0.p, q1.p, q2.p
      ensures Valid() && current == -1 && !boost
      ensures Boosted(old(procs)[old(current) := old(procs)[old(current)].(state := RUNNABLE)], procs)
      ensures Qs() == Queues(old(Qs()).f, RunnableBelow(procs, NPROC), [], [])
    {
      hide SchedOk, Boosted, RunnableBelow;
      var n := 0;
      while n < 50
        invariant 0 <= n <= 50 && Valid() && procs == old(procs) && Qs() == old(Qs()) && current == old(current)
        invariant mode.MLFQ? && (boost || ToFifty(old(ticks)) > n)
        invariant !boost ==> ToFifty(ticks) == ToFifty(old(ticks)) - n
        modifies `boost, `ticks
      {
        CloserToFifty(ticks);
        var panics := Tick({});
        n := n + 1;
      }
      Yield();
    }

    /** `sys_fcfsmode`: the RUNNABLE processes in the order of the process table. */
    method FcfsMode() returns (r: int)
      requires Valid()
      modifies `procs, `mode, `ticks, fcfs, fcfs.p
      ensures Valid() && mode.FCFS? && r == (if old(mode).FCFS? then -1 else 0)
      ensures r == -1 ==> Qs() == old(Qs()) && procs == old(procs) && ticks == old(ticks)
      ensures r == 0 ==> SameStates(old(procs), procs) && Qs() == old(Qs()).(f := RunnableBelow(old(procs), NPROC))
      ensures r == 0 ==> ticks == 0 && forall x :: 0 <= x < NPROC ==> procs[x] == Proc(procs[x].state, -1, -1, -1)
    {
      hide Conserved, LevelsOk;
      if mode.FCFS? {
        return -1;
      }
      ghost var before, q := procs, Qs();
      fcfs.Reset();
      var i := 0;
      while i < NPROC
        invariant 0 <= i <= NPROC && Shape() && fcfs.s == 0 && Qs() == q.(f := RunnableBelow(before, i))
        invariant SameStates(before, procs) && mode == old(mode)
        invariant forall x :: 0 <= x < i ==> procs[x] == Proc(procs[x].state, -1, -1, -1)
      {
        procs := procs[i := procs[i].(quantum := -1, level := -1, priority := -1)];
        if procs[i].state.RUNNABLE? {
          fcfs.Append(i);
        }
        i := i + 1;
      }
      SameRunnable(before, procs, NPROC);
      RebuiltFcfs(before, procs, current, Qs());
      ticks := 0;
      mode := FCFS;
      return 0;
    }

    /** `sys_mlfqmode`: the first-come queue becomes level 0, in its order. */
    method MlfqMode() returns (r: int)
      requires Valid()
      modifies `procs, `mode, `ticks, q0, q1, q2, q0.p
      ensures Valid() && mode.MLFQ? && r == (if old(mode).MLFQ? then -1 else 0)
      ensures r == -1 ==> Qs() == old(Qs()) && procs == old(procs) && ticks == old(ticks)
      ensures r == 0 ==> SameStates(old(procs), procs) && Fresh(procs) && ticks == 0
      ensures r == 0 ==> Qs() == Queues(old(Qs()).f, old(Qs()).f, [], [])
    {
      hide Conserved, LevelsOk, Fresh, Around;
      if mode.MLFQ? {
        return -1;
      }
      ghost var before, q := procs, Qs();
      NeverFull(mode, q, procs, -1);
      q0.Reset();
      q1.Reset();
      q2.Reset();
      FreshNone(procs);
      var x := 0;
      while x < NPROC
        invariant 0 <= x <= NPROC && SameStates(before, procs) && FreshBelow(procs, x)
        modifies `procs
      {
        FreshNext(procs, x);
        procs := procs[x := procs[x].(quantum := 1, level := 0, priority := 3)];
        x := x + 1;
      }
      FreshAll(procs);
      RefillLevel0(before, q);
      MovedToMlfq(before, procs, current, q, Qs());
      mode := MLFQ;
      ticks := 0;
      return 0;
    }

    /** The second loop of `sys_mlfqmode`: what the first-come queue holds is appended to level 0. */
    method RefillLevel0(ghost before: seq<Proc>, ghost q: Queues)
      requires Shape() && q.f == fcfs.Contents() && |q.f| <= NPROC && Conserved(FCFS, q, before, -1)
      requires SameStates(before, procs)
      requires |procs| == NPROC && q0.s == 0 && q0.Contents() == [] && q1.Contents() == [] && q2.Contents() == []
      modifies q0, q0.p
      ensures Shape() && Qs() == Queues(q.f, q.f, [], [])
    {
      hide Conserved, Around;
      var i: nat := fcfs.s;
      while i != fcfs.e
        invariant Shape() && i < QNUM && fcfs.Contents() == q.f && q0.s == 0 && q1.Contents() == []
        invariant q2.Contents() == []
        invariant q.f == q0.Contents() + Around(fcfs.p[..], i, fcfs.e)
        decreases |Around(fcfs.p[..], i, fcfs.e)|
        modifies q0, q0.p
      {
        ghost var done := q0.Contents();
        AroundPop(fcfs.p[..], i, fcfs.e);
        StillRunnable(q, before, procs, done, fcfs.p[i], Around(fcfs.p[..], NextSlot(i), fcfs.e));
        if procs[fcfs.p[i]].state.RUNNABLE? {
          q0.Append(fcfs.p[i]);
        } else {
          assert false;
        }
        i := NextSlot(i);
      }
      AroundNone(fcfs.p[..], i);
    }

    /**
     `sys_setpriority` by process `me`, for the process table's pids: the caller itself if the pid is its own, or
     else the first other process that has it. `held` is the process whose lock the call returns with, or -1.
     */
    method SetPriority(pids: seq<int>, me: nat, pid: int, priority: int) returns (r: int, held: int)
      requires Valid() && |pids| == NPROC && me < NPROC
      modifies `procs
      ensures Valid() && Qs() == old(Qs())
      ensures r == -2 <==> priority < 0 || priority > 3
      ensures r == -1 <==> 0 <= priority <= 3 && forall x: nat :: x < NPROC ==> pids[x] != pid
      ensures r == -2 || r == -1 || r == 0
      ensures r != 0 ==> procs == old(procs) && held == -1
      ensures r == 0 ==> exists x: nat ::
        && Names(pids, me, pid, x) && procs == old(procs)[x := old(procs)[x].(priority := priority)]
        && held == if x == me then -1 else x
    {
      held := -1;
      if priority < 0 || priority > 3 {
        return -2, -1;
      }
      if pids[me] == pid {
        PriorityKeeps(mode, Qs(), procs, current, me, priority);
        procs := procs[me := procs[me].(priority := priority)];
        assert Names(pids, me, pid, me);
        return 0, -1;
      }
      var x := 0;
      while x < NPROC
        invariant 0 <= x <= NPROC && held == -1 && procs == old(procs) && forall y :: 0 <= y < x ==> pids[y] != pid
      {
        if x != me {
          held := x;
          if pids[x] == pid {
            PriorityKeeps(mode, Qs(), procs, current, x, priority);
            procs := procs[x := procs[x].(priority := priority)];
            assert Names(pids, me, pid, x);
            return 0, held;
          }
          held := -1;
        }
        x := x + 1;
      }
      return -1, held;
    }
  }

  /** The process that a system call of `me` finds for `pid`. */
  predicate Names(pids: seq<int>, me: nat, pid: int, x: nat) {
    && |pids| == NPROC && me < NPROC && x < NPROC && pids[x] == pid
    && (x == me || (pids[me] != pid && forall y :: 0 <= y < x ==> pids[y] != pid))
  }

  lemma FieldsOk(mode: Mode, q: Queues, procs: seq<Proc>, x: nat)
    requires LevelsOk(mode, q, procs) && mode.MLFQ? && x < |procs|
    ensures FieldOk(procs[x])
  {
  }

  /** Everything in the active queues is RUNNABLE. */
  lemma AllRunnable(mode: Mode, q: Queues, procs: seq<Proc>)
    requires Conserved(mode, q, procs, -1)
    ensures mode.FCFS? ==> forall x :: x in q.f ==> x < |procs| && procs[x].state.RUNNABLE?
    ensures mode.MLFQ? ==> forall x :: x in q.l0 || x in q.l1 || x in q.l2 ==> x < |procs| && procs[x].state.RUNNABLE?
  {
    forall x | (mode.FCFS? && x in q.f) || (mode.MLFQ? && (x in q.l0 || x in q.l1 || x in q.l2))
      ensures x < |procs| && procs[x].state.RUNNABLE?
    {
      assert x in Active(mode, q);
      Queued(mode, q, procs, -1, x);
    }
  }

  lemma NoneSkipped(q: seq<nat>, skipped: seq<nat>, procs: seq<Proc>, r: nat, rest: seq<nat>)
    requires forall x :: x in q ==> x < |procs| && procs[x].state.RUNNABLE?
    requires forall x :: x in skipped ==> x < |procs| && !procs[x].state.RUNNABLE?
    ensures (forall x :: x in skipped ==> x in q) ==> skipped == []
    ensures q == skipped ==> q == []
    ensures q == skipped + [r] + rest ==> q == [r] + rest
  {
    if skipped != [] {
      assert skipped[0] in skipped;
    } else {
      assert [] + [r] == [r];
    }
  }

  lemma OutOf(all: seq<nat>, skipped: seq<nat>, t: nat, rest: seq<nat>)
    requires all == skipped + ([t] + rest)
    ensures all == skipped + [t] + rest && t in all
  {
    assert all[|skipped|] == t;
  }

  lemma WithoutFrom(s: seq<nat>, k: nat)
    requires k < |s|
    ensures forall x :: x in Without(s, k) ==> x in s
    ensures s[k] in s && |Without(s, k)| == |s| - 1
  {
  }

  lemma NotAllNegative(q: seq<nat>, procs: seq<Proc>)
    requires q != [] && forall x :: x in q ==> x < |procs| && procs[x].priority >= 0
    ensures !AllNegative(q, Priorities(procs)) && forall i :: 0 <= i < |q| ==> q[i] < |Priorities(procs)|
  {
    assert q[0] in q;
    forall i | 0 <= i < |q| ensures q[i] < |procs| {
      assert q[i] in q;
    }
  }

  lemma MlfqPriorities(q: Queues, procs: seq<Proc>)
    requires LevelsOk(MLFQ, q, procs)
    ensures forall x :: x in q.l2 ==> x < |procs| && procs[x].priority >= 0
  {
  }

  lemma NoneRunnable(mode: Mode, q: Queues, procs: seq<Proc>, current: int)
    requires SchedOk(mode, q, procs, current, -1) && Active(mode, q) == []
    ensures forall x :: 0 <= x < |procs| ==> !procs[x].state.RUNNABLE?
  {
    forall x | 0 <= x < |procs| ensures !procs[x].state.RUNNABLE? {
      assert Once(mode, q, procs, -1, x);
    }
  }

  predicate FreshBelow(ps: seq<Proc>, n: nat) {
    forall x :: 0 <= x < n && x < |ps| ==> ps[x].level == 0 && ps[x].priority == 3 && ps[x].quantum == 1
  }

  lemma FreshNone(ps: seq<Proc>)
    ensures FreshBelow(ps, 0) && SameStates(ps, ps)
  {
  }

  lemma FreshNext(ps: seq<Proc>, n: nat)
    requires FreshBelow(ps, n) && n < |ps|
    ensures FreshBelow(ps[n := ps[n].(priority := 3, level := 0, quantum := 1)], n + 1)
  {
  }

  lemma FreshAll(ps: seq<Proc>)
    requires FreshBelow(ps, |ps|)
    ensures Fresh(ps)
  {
  }

  lemma BoostInFcfs(procs: seq<Proc>, ps: seq<Proc>, current: int, q: Queues, r: Queues)
    requires SchedOk(FCFS, q, procs, current, -1) && SameStates(procs, ps) && r.f == q.f
    ensures SchedOk(FCFS, r, ps, current, -1)
  {
    forall x: nat ensures Once(FCFS, r, ps, -1, x) {
      assert Once(FCFS, q, procs, -1, x);
    }
  }

  lemma BoostInMlfq(procs: seq<Proc>, ps: seq<Proc>, current: int, r: Queues)
    requires RunningOk(procs, current) && SameStates(procs, ps) && Fresh(ps) && r.l0 == RunnableBelow(ps, |ps|)
    requires r.l1 == [] && r.l2 == []
    ensures SchedOk(MLFQ, r, ps, current, -1)
  {
    forall x: nat ensures multiset(r.l0)[x] == if x < |ps| && ps[x].state.RUNNABLE? then 1 else 0 {
      RunnableCounts(ps, |ps|, x);
    }
    RebuiltMlfq(procs, ps, current, r, r.l0);
  }

  lemma StillRunnable(q: Queues, procs: seq<Proc>, ps: seq<Proc>, done: seq<nat>, x: nat, more: seq<nat>)
    requires Conserved(FCFS, q, procs, -1) && SameStates(procs, ps) && q.f == done + ([x] + more) && |q.f| <= NPROC
    ensures x < |ps| && ps[x].state.RUNNABLE? && |done| < NPROC
    ensures q.f == (done + [x]) + more
  {
    assert q.f[|done|] == x;
    Queued(FCFS, q, procs, -1, x);
  }

  lemma AroundNone(a: seq<nat>, i: nat)
    requires |a| == QNUM && i < QNUM
    ensures Around(a, i, i) == []
  {
  }

  lemma MovedToMlfq(procs: seq<Proc>, ps: seq<Proc>, current: int, q: Queues, r: Queues)
    requires SchedOk(FCFS, q, procs, current, -1) && SameStates(procs, ps) && Fresh(ps) && r.l0 == q.f && r.l1 == []
    requires r.l2 == []
    ensures SchedOk(MLFQ, r, ps, current, -1)
  {
    forall x: nat ensures multiset(r.l0)[x] == if x < |ps| && ps[x].state.RUNNABLE? then 1 else 0 {
      assert Once(FCFS, q, procs, -1, x);
    }
    RebuiltMlfq(procs, ps, current, r, r.l0);
  }

  predicate FirstOnly(procs: seq<Proc>) {
    |procs| == NPROC && procs[0].state.RUNNABLE? && forall x :: 0 < x < NPROC ==> procs[x].state.UNUSED?
  }

  lemma OnlyOne(procs: seq<Proc>, r: int)
    requires FirstOnly(procs)
    requires r == -1 ==> forall x :: 0 <= x < NPROC ==> !procs[x].state.RUNNABLE?
    requires r != -1 ==> 0 <= r < NPROC && procs[r].state.RUNNABLE?
    ensures r == 0 && |procs| == NPROC
  {
  }

  lemma FirstIs(procs: seq<Proc>, used: Proc, p: Proc, ps: seq<Proc>)
    requires |procs| == NPROC && (forall x :: 0 <= x < NPROC ==> procs[x].state.UNUSED?) && p.state.RUNNABLE?
    requires ps == procs[0 := used][0 := p]
    ensures FirstOnly(ps)
  {
  }

  /** From boot to the first process RUNNABLE. */
  method FirstProcess() returns (s: Sched)
    ensures fresh(s) && fresh(s.fcfs) && fresh(s.q0) && fresh(s.q1) && fresh(s.q2)
    ensures fresh(s.fcfs.p) && fresh(s.q0.p) && fresh(s.q1.p) && fresh(s.q2.p)
    ensures s.Valid() && s.current == -1 && !s.boost && FirstOnly(s.procs)
  {
    hide SchedOk, AtEnd, FirstOnly;
    s := new Sched();
    ghost var ps := s.procs;
    s.SetIdle(0, USED);
    s.Start(0);
    FirstIs(ps, ps[0].(state := USED), ps[0].(state := RUNNABLE), s.procs);
  }

  /** From boot: the first process runs, goes to sleep for a while, and the next tick panics. */
  method SleepThenTick() returns (s: Sched, panics: bool)
    ensures panics
  {
    hide SchedOk, Boosted, RunnableBelow, Picked, FirstOnly;
    s := FirstProcess();
    ghost var ps := s.procs;
    var r := s.Dispatch();
    OnlyOne(ps, r);
    s.Block(SLEEPING);
    panics := s.Tick({0});
  }
}
