/**
 The space protocol of kernel/log.c: `begin_op`, `log_write` and `end_op` of any number of
 processes in any interleaving, with `log.lock` held during each step.

 An operation that keeps to MAXOPBLOCKS distinct blocks always finds room for a block it has
 not logged yet, and no operation is open during a commit. `log_write` checks for room before
 it looks for the block in the log, so logging a block again can still panic: exactly when the
 log is full to the last block. The log holds exactly what was logged since the last commit, and
 when nobody is inside an operation it is empty and everyone can begin.
 */
module LogSpace {

  import opened Params
  import opened Sets

  datatype Op =
    /** Outside of any transaction. */
    | Out
    /** Between `begin_op` and `end_op`, with the distinct blocks logged so far. */
    | Open(mine: set<nat>)
    /** The last `end_op`, in `commit`. */
    | Committing

  /**
   `blocks` are the block numbers in `log.lh`; `size` is `log.size`; `last` is the process that called
   `commit` last.
   */
  datatype Log = Log(outstanding: int, committing: bool, blocks: set<nat>, size: nat, ops: seq<Op>, last: nat)

  datatype Step = Begin(i: nat) | Write(i: nat, b: nat) | End(i: nat) | Commit(i: nat)

  /** `begin_op` waits for a commit to end and for room for one more operation. */
  predicate Enabled(s: Log, e: Step) {
    e.i < |s.ops| &&
    match e
    case Begin(i) => s.ops[i].Out? && !s.committing && |s.blocks| + (s.outstanding + 1) * MAXOPBLOCKS <= LOGSIZE
    case Write(i, _) => s.ops[i].Open?
    case End(i) => s.ops[i].Open?
    case Commit(i) => s.ops[i].Committing?
  }

  /** The panics of `log_write` and `end_op`. */
  predicate Panics(s: Log, e: Step) {
    match e
    case Begin(_) => false
    case Write(_, _) => |s.blocks| >= LOGSIZE || |s.blocks| >= s.size - 1 || s.outstanding < 1
    case End(_) => s.committing
    case Commit(_) => false
  }

  function Next(s: Log, e: Step): (t: Log)
    requires Enabled(s, e)
  {
    match e
    case Begin(i) => s.(outstanding := s.outstanding + 1, ops := s.ops[i := Open({})])
    case Write(i, b) => s.(blocks := s.blocks + {b}, ops := s.ops[i := Open(s.ops[i].mine + {b})])
    case End(i) =>
      var last := s.outstanding - 1 == 0;
      if last then s.(outstanding := 0, committing := true, ops := s.ops[i := Committing], last := i)
      else s.(outstanding := s.outstanding - 1, ops := s.ops[i := Out])
    case Commit(i) => s.(blocks := {}, committing := false, ops := s.ops[i := Out])
  }

  /** The operation keeps to MAXOPBLOCKS distinct blocks. */
  predicate Disciplined(s: Log, e: Step)
    requires Enabled(s, e)
  {
    e.Write? ==> |s.ops[e.i].mine + {e.b}| <= MAXOPBLOCKS
  }

  // ---- what is reserved ----

  function Share(op: Op): (r: int) {
    if op.Open? then MAXOPBLOCKS - |op.mine| else 0
  }

  /** The blocks that open operations may still add. */
  function Reserved(ops: seq<Op>): (r: int) {
    if ops == [] then 0 else Reserved(ops[..|ops| - 1]) + Share(ops[|ops| - 1])
  }

  function Opens(ops: seq<Op>): (r: nat) {
    if ops == [] then 0 else Opens(ops[..|ops| - 1]) + (if ops[|ops| - 1].Open? then 1 else 0)
  }

  lemma {:induction false} Change(ops: seq<Op>, i: nat, op: Op)
    requires i < |ops|
    ensures Reserved(ops[i := op]) == Reserved(ops) - Share(ops[i]) + Share(op)
    ensures Opens(ops[i := op]) == Opens(ops) - (if ops[i].Open? then 1 else 0) + (if op.Open? then 1 else 0)
    decreases |ops|
  {
    var n := |ops| - 1;
    if i < n {
      Change(ops[..n], i, op);
      assert ops[i := op][..n] == ops[..n][i := op];
    } else {
      assert ops[i := op][..n] == ops[..n];
    }
  }

  predicate OpOk(s: Log, i: nat)
    requires i < |s.ops|
  {
    && (s.ops[i].Open? ==> s.ops[i].mine <= s.blocks && |s.ops[i].mine| <= MAXOPBLOCKS)
    && (s.ops[i].Committing? ==> s.committing && s.last == i)
  }

  lemma {:induction false} Bounds(ops: seq<Op>, i: nat)
    requires forall j :: 0 <= j < |ops| && ops[j].Open? ==> |ops[j].mine| <= MAXOPBLOCKS
    ensures 0 <= Reserved(ops) <= Opens(ops) * MAXOPBLOCKS
    ensures i < |ops| && ops[i].Open? ==> Reserved(ops) >= Share(ops[i]) && Opens(ops) > 0
    decreases |ops|
  {
    if ops != [] {
      var n := |ops| - 1;
      assert forall j :: 0 <= j < n ==> ops[..n][j] == ops[j];
      Bounds(ops[..n], i);
      if i >= n {
        Bounds(ops[..n], 0);
      }
    }
  }

  predicate Inv(s: Log) {
    && s.outstanding == Opens(s.ops) && |s.blocks| + Reserved(s.ops) <= LOGSIZE && s.size - 1 >= LOGSIZE
    && (s.committing ==> s.outstanding == 0 && s.last < |s.ops| && s.ops[s.last].Committing?)
    && (!s.committing && s.outstanding == 0 ==> s.blocks == {})
    && (forall i: nat {:trigger OpOk(s, i)} :: i < |s.ops| ==> OpOk(s, i))
  }

  lemma OpenBounds(s: Log, i: nat)
    requires Inv(s)
    ensures 0 <= Reserved(s.ops) <= Opens(s.ops) * MAXOPBLOCKS
    ensures i < |s.ops| && s.ops[i].Open? ==> Reserved(s.ops) >= Share(s.ops[i]) && Opens(s.ops) > 0
  {
    hide Reserved, Opens;
    forall j: nat | j < |s.ops| ensures s.ops[j].Open? ==> |s.ops[j].mine| <= MAXOPBLOCKS {
      assert OpOk(s, j);
    }
    Bounds(s.ops, i);
  }

  lemma BeginKeeps(s: Log, e: Step)
    requires Inv(s) && Enabled(s, e) && e.Begin?
    ensures Inv(Next(s, e))
  {
    hide Reserved, Opens;
    OpenBounds(s, e.i);
    Change(s.ops, e.i, Open({}));
    var t := Next(s, e);
    forall j: nat | j < |t.ops| ensures OpOk(t, j) {
      assert OpOk(s, j);
    }
  }

  /** A block that is new to the log comes out of the share of the operation that logs it. */
  lemma WriteKeeps(s: Log, e: Step)
    requires Inv(s) && Enabled(s, e) && e.Write? && Disciplined(s, e)
    ensures Inv(Next(s, e))
  {
    hide Reserved, Opens;
    var mine := s.ops[e.i].mine;
    assert OpOk(s, e.i);
    OpenBounds(s, e.i);
    Change(s.ops, e.i, Open(mine + {e.b}));
    if e.b in s.blocks {
      assert s.blocks + {e.b} == s.blocks;
      if e.b in mine {
        assert mine + {e.b} == mine;
      }
    }
    var t := Next(s, e);
    forall j: nat | j < |t.ops| ensures OpOk(t, j) {
      assert OpOk(s, j);
    }
  }

  lemma EndKeeps(s: Log, e: Step)
    requires Inv(s) && Enabled(s, e) && e.End?
    ensures Inv(Next(s, e)) && !Panics(s, e)
  {
    hide Reserved, Opens;
    var t := Next(s, e);
    OpenBounds(s, e.i);
    Change(s.ops, e.i, t.ops[e.i]);
    assert OpOk(s, e.i);
    forall j: nat | j < |t.ops| ensures OpOk(t, j) {
      assert OpOk(s, j);
    }
  }

  lemma CommitKeeps(s: Log, e: Step)
    requires Inv(s) && Enabled(s, e) && e.Commit?
    ensures Inv(Next(s, e))
  {
    hide Reserved, Opens;
    var t := Next(s, e);
    Change(s.ops, e.i, Out);
    assert OpOk(s, e.i);
    OpenBounds(s, e.i);
    forall j: nat | j < |t.ops| ensures OpOk(t, j) {
      assert OpOk(s, j);
      OpenBounds(s, j);
    }
  }

  // ---- whole runs ----

  function Empty(n: nat, size: nat): (s: Log) {
    Log(0, false, {}, size, seq(n, i => Out), 0)
  }

  lemma {:induction false} NoneOpen(n: nat)
    ensures Reserved(seq(n, i => Out)) == 0 && Opens(seq(n, i => Out)) == 0
    decreases n
  {
    if n > 0 {
      NoneOpen(n - 1);
      assert seq(n, i => Out)[..n - 1] == seq(n - 1, i => Out);
    }
  }

  lemma EmptyOk(n: nat, size: nat)
    requires size - 1 >= LOGSIZE
    ensures Inv(Empty(n, size))
  {
    hide Reserved, Opens;
    NoneOpen(n);
    var s := Empty(n, size);
    assert s.ops == seq(n, i => Out);
    forall j: nat | j < n ensures OpOk(s, j) {
    }
  }

  /** A run of operations that keep to MAXOPBLOCKS distinct blocks each. */
  ghost predicate LegalRun(s: Log, run: seq<Step>)
    decreases |run|
  {
    run == [] || (Enabled(s, run[0]) && Disciplined(s, run[0]) && LegalRun(Next(s, run[0]), run[1..]))
  }

  ghost function After(s: Log, run: seq<Step>): (t: Log)
    requires LegalRun(s, run)
    decreases |run|
  {
    if run == [] then s else After(Next(s, run[0]), run[1..])
  }

  lemma StepKeepsInv(s: Log, e: Step)
    requires Inv(s) && Enabled(s, e) && Disciplined(s, e)
    ensures Inv(Next(s, e))
  {
    match e {
      case Begin(_) => BeginKeeps(s, e);
      case Write(_, _) => WriteKeeps(s, e);
      case End(_) => EndKeeps(s, e);
      case Commit(_) => CommitKeeps(s, e);
    }
  }

  lemma {:induction false} RunKeepsInv(s: Log, run: seq<Step>)
    requires Inv(s) && LegalRun(s, run)
    ensures Inv(After(s, run))
    decreases |run|
  {
    hide Inv;
    if run != [] {
      StepKeepsInv(s, run[0]);
      RunKeepsInv(Next(s, run[0]), run[1..]);
    }
  }

  /** In every interleaving there is room for every block that an operation has a right to and has not logged yet. */
  lemma RoomForNewBlocks(n: nat, size: nat, run: seq<Step>, e: Step)
    requires size - 1 >= LOGSIZE && LegalRun(Empty(n, size), run)
    requires var s := After(Empty(n, size), run);
      Enabled(s, e) && Disciplined(s, e) && (e.Write? ==> e.b !in s.ops[e.i].mine)
    ensures !Panics(After(Empty(n, size), run), e)
  {
    hide Reserved, Opens;
    EmptyOk(n, size);
    RunKeepsInv(Empty(n, size), run);
    var s := After(Empty(n, size), run);
    OpenBounds(s, e.i);
    assert OpOk(s, e.i);
    if e.Write? {
      assert |s.ops[e.i].mine + {e.b}| == |s.ops[e.i].mine| + 1;
    }
  }

  /**
   Exactly when a disciplined step panics: it logs a block again while the log is full, and
   then every open operation has used up its share.
   */
  lemma PanicsOnlyWhenFull(s: Log, e: Step)
    requires Inv(s) && Enabled(s, e) && Disciplined(s, e)
    ensures Panics(s, e) <==> e.Write? && |s.blocks| == LOGSIZE
    ensures Panics(s, e) ==> e.b in s.ops[e.i].mine && forall j: nat :: j < |s.ops| && s.ops[j].Open? ==>
      |s.ops[j].mine| == MAXOPBLOCKS
  {
    hide Reserved, Opens;
    OpenBounds(s, e.i);
    assert OpOk(s, e.i);
    if e.End? {
      EndKeeps(s, e);
    }
    if Panics(s, e) {
      forall j: nat | j < |s.ops| && s.ops[j].Open? ensures |s.ops[j].mine| == MAXOPBLOCKS {
        OpenBounds(s, j);
        assert OpOk(s, j);
      }
    }
  }

  /** In every interleaving no operation is open, and none logs a block, while a commit is under way. */
  lemma CommitIsAlone(n: nat, size: nat, run: seq<Step>, i: nat, j: nat)
    requires size - 1 >= LOGSIZE && LegalRun(Empty(n, size), run)
    requires var s := After(Empty(n, size), run); i < |s.ops| && j < |s.ops| && s.ops[i].Committing?
    ensures var s := After(Empty(n, size), run); !s.ops[j].Open? && (j != i ==> s.ops[j].Out?) && !Enabled(s, Begin(j))
  {
    hide Reserved, Opens;
    EmptyOk(n, size);
    RunKeepsInv(Empty(n, size), run);
    var s := After(Empty(n, size), run);
    assert OpOk(s, i) && OpOk(s, j);
    OpenBounds(s, j);
  }

  // ---- what is in the log ----

  lemma {:induction false} LastStep(s: Log, run: seq<Step>)
    requires run != [] && LegalRun(s, run)
    ensures var m := |run| - 1;
      && LegalRun(s, run[..m]) && Enabled(After(s, run[..m]), run[m]) && Disciplined(After(s, run[..m]), run[m])
      && After(s, run) == Next(After(s, run[..m]), run[m])
    decreases |run|
  {
    hide Enabled, Next, Disciplined;
    var m := |run| - 1;
    if m > 0 {
      LastStep(Next(s, run[0]), run[1..]);
      assert run[..m][0] == run[0] && run[..m][1..] == run[1..][..m - 1];
    }
  }

  /** The blocks logged since the last commit, read off the calls. */
  function Logged(run: seq<Step>): (r: set<nat>) {
    if run == [] then {} else
    var m := |run| - 1;
    match run[m]
    case Begin(_) => Logged(run[..m])
    case Write(_, b) => Logged(run[..m]) + {b}
    case End(_) => Logged(run[..m])
    case Commit(_) => {}
  }

  /** Process `i` has begun an operation that it has not ended. */
  predicate Inside(run: seq<Step>, i: nat) {
    run != [] &&
    var m := |run| - 1;
    if run[m].i == i && (run[m].Begin? || run[m].End?) then run[m].Begin? else Inside(run[..m], i)
  }

  /** What process `i` has logged since it last began. */
  function LoggedBy(run: seq<Step>, i: nat): (r: set<nat>) {
    if run == [] then {} else
    var m := |run| - 1;
    if run[m] == Begin(i) then {}
    else if run[m].Write? && run[m].i == i then LoggedBy(run[..m], i) + {run[m].b}
    else LoggedBy(run[..m], i)
  }

  /**
   In every interleaving the log holds exactly the blocks logged since the last commit, and an operation is
   open exactly from its `begin_op` to its `end_op`, charged with exactly the blocks it has logged.
   */
  lemma {:induction false} LogIs(n: nat, size: nat, run: seq<Step>, i: nat)
    requires LegalRun(Empty(n, size), run) && i < n
    ensures var s := After(Empty(n, size), run);
      && s.blocks == Logged(run) && |s.ops| == n && s.size == size
      && (s.ops[i].Open? <==> Inside(run, i))
      && (s.ops[i].Open? ==> s.ops[i].mine == LoggedBy(run, i))
    decreases |run|
  {
    hide LegalRun, After;
    var s := Empty(n, size);
    if run == [] {
      EmptyRun(s);
    } else {
      var m := |run| - 1;
      LastStep(s, run);
      LogIs(n, size, run[..m], i);
      if run[m].i < n {
        LogIs(n, size, run[..m], run[m].i);
      }
    }
  }

  lemma EmptyRun(s: Log)
    ensures LegalRun(s, []) && After(s, []) == s
  {
  }

  predicate NoneInside(s: Log) {
    forall j :: 0 <= j < |s.ops| ==> s.ops[j].Out?
  }

  lemma {:induction false} OutNone(ops: seq<Op>)
    requires forall j :: 0 <= j < |ops| ==> !ops[j].Open?
    ensures Reserved(ops) == 0 && Opens(ops) == 0
    decreases |ops|
  {
    if ops != [] {
      OutNone(ops[..|ops| - 1]);
    }
  }

  /** With nobody inside an operation or a commit the log is empty and everyone can begin. */
  lemma IdleIsEmpty(s: Log, i: nat)
    requires Inv(s) && NoneInside(s) && i < |s.ops|
    ensures s.blocks == {} && s.outstanding == 0 && !s.committing && Enabled(s, Begin(i))
  {
    hide Reserved, Opens;
    OutNone(s.ops);
    assert OpOk(s, i);
  }

  /** In every interleaving: when nobody is inside an operation or a commit, everyone can begin. */
  lemma BeginWhenIdle(n: nat, size: nat, run: seq<Step>, i: nat)
    requires size - 1 >= LOGSIZE && LegalRun(Empty(n, size), run) && i < n
    requires NoneInside(After(Empty(n, size), run))
    ensures var s := After(Empty(n, size), run); i < |s.ops| && s.blocks == {} && Enabled(s, Begin(i))
  {
    hide Inv;
    EmptyOk(n, size);
    RunKeepsInv(Empty(n, size), run);
    LogIs(n, size, run, i);
    IdleIsEmpty(After(Empty(n, size), run), i);
  }

  /** In every interleaving: once a commit is done the log is empty and every process can begin. */
  lemma BeginAfterCommit(n: nat, size: nat, run: seq<Step>, i: nat, j: nat)
    requires size - 1 >= LOGSIZE && LegalRun(Empty(n, size), run) && i < n && j < n
    requires Enabled(After(Empty(n, size), run), Commit(i))
    ensures var t := Next(After(Empty(n, size), run), Commit(i));
      t.blocks == {} && NoneInside(t) && j < |t.ops| && Enabled(t, Begin(j))
  {
    hide Inv, LegalRun, After;
    EmptyOk(n, size);
    RunKeepsInv(Empty(n, size), run);
    LogIs(n, size, run, i);
    var s := After(Empty(n, size), run);
    CommitKeeps(s, Commit(i));
    var t := Next(s, Commit(i));
    forall k: nat | k < n ensures t.ops[k].Out? {
      CommitIsAlone(n, size, run, i, k);
    }
    IdleIsEmpty(t, j);
  }

  /** All open operations end, and the last one commits. */
  lemma {:induction false} Drains(s: Log) returns (run: seq<Step>)
    requires Inv(s)
    ensures LegalRun(s, run) && NoneInside(After(s, run)) && After(s, run).blocks == {}
    ensures |run| <= Opens(s.ops) + 1 && forall k :: 0 <= k < |run| ==> run[k].End? || run[k].Commit?
    decreases Opens(s.ops), s.committing
  {
    hide Reserved, Opens, Inv;
    if NoneInside(s) {
      run := [];
      Quiet(s);
    } else {
      var e := WayOut(s);
      var rest := Drains(Next(s, e));
      run := [e] + rest;
      assert run[0] == e && run[1..] == rest;
    }
  }

  lemma Quiet(s: Log)
    requires Inv(s) && NoneInside(s)
    ensures s.blocks == {}
  {
    hide Reserved, Opens;
    OutNone(s.ops);
    if s.committing {
      assert false;
    }
  }

  lemma WayOut(s: Log) returns (e: Step)
    requires Inv(s) && !NoneInside(s)
    ensures Enabled(s, e) && (e.End? || e.Commit?) && Disciplined(s, e) && Inv(Next(s, e))
    ensures var t := Next(s, e);
      || (Opens(t.ops) < Opens(s.ops) && (t.committing ==> Opens(t.ops) == 0))
      || (Opens(t.ops) == Opens(s.ops) == 0 && s.committing && !t.committing && NoneInside(t))
  {
    hide Reserved, Opens;
    var i: nat :| i < |s.ops| && !s.ops[i].Out?;
    assert OpOk(s, i);
    if s.ops[i].Open? {
      e := End(i);
      EndKeeps(s, e);
      OpenBounds(s, i);
      Change(s.ops, i, Next(s, e).ops[i]);
    } else {
      e := Commit(i);
      CommitKeeps(s, e);
      Change(s.ops, i, Out);
      forall j: nat | j < |s.ops| && j != i ensures s.ops[j].Out? {
        assert OpOk(s, j);
        OpenBounds(s, j);
      }
    }
  }

  // ---- a full log can be reached ----

  /** Operation `i` logs the blocks `from`, `from + 1` and so on. */
  function Writes(i: nat, from: nat, k: nat): (r: seq<Step>)
    decreases k
  {
    if k == 0 then [] else [Write(i, from)] + Writes(i, from + 1, k - 1)
  }

  lemma UpToNone(a: set<nat>, from: nat)
    ensures a + UpTo(from, 0) == a
  {
  }

  lemma UpToNext(a: set<nat>, from: nat, k: nat)
    requires k > 0
    ensures a + UpTo(from, k) == (a + {from}) + UpTo(from + 1, k - 1)
  {
    assert UpTo(from, k) == {from} + UpTo(from + 1, k - 1);
  }

  lemma UpToThree(k: nat)
    ensures UpTo(0, k) + UpTo(k, k) + UpTo(2 * k, k) == UpTo(0, 3 * k)
    ensures k > 0 ==> 0 in UpTo(0, k) && UpTo(0, k) + {0} == UpTo(0, k)
    ensures |UpTo(0, k)| == k && |UpTo(0, 3 * k)| == 3 * k
  {
    hide UpTo;
    var a, b := UpTo(0, k) + UpTo(k, k) + UpTo(2 * k, k), UpTo(0, 3 * k);
    assert forall x :: x in a <==> x in b;
  }

  lemma {:induction false} WritesRun(s: Log, i: nat, from: nat, k: nat)
    requires i < |s.ops| && s.ops[i].Open? && |s.ops[i].mine| + k <= MAXOPBLOCKS
    ensures LegalRun(s, Writes(i, from, k))
    ensures After(s, Writes(i, from, k)) ==
      s.(blocks := s.blocks + UpTo(from, k), ops := s.ops[i := Open(s.ops[i].mine + UpTo(from, k))])
    decreases k
  {
    hide UpTo;
    if k == 0 {
      UpToNone(s.blocks, from);
      UpToNone(s.ops[i].mine, from);
      assert s.ops[i := s.ops[i]] == s.ops;
    } else {
      var run, e := Writes(i, from, k), Write(i, from);
      assert run[0] == e && run[1..] == Writes(i, from + 1, k - 1);
      var t := Next(s, e);
      assert |s.ops[i].mine + {from}| <= |s.ops[i].mine| + 1;
      WritesRun(t, i, from + 1, k - 1);
      UpToNext(s.blocks, from, k);
      UpToNext(s.ops[i].mine, from, k);
      assert t.ops[i := Open(s.ops[i].mine + UpTo(from, k))] == s.ops[i := Open(s.ops[i].mine + UpTo(from, k))];
    }
  }

  lemma {:induction false} RunOn(s: Log, a: seq<Step>, b: seq<Step>)
    requires LegalRun(s, a) && LegalRun(After(s, a), b)
    ensures LegalRun(s, a + b) && After(s, a + b) == After(After(s, a), b)
    decreases |a|
  {
    if a == [] {
      assert a + b == b;
    } else {
      assert (a + b)[0] == a[0] && (a + b)[1..] == a[1..] + b;
      RunOn(Next(s, a[0]), a[1..], b);
    }
  }

  lemma Three(size: nat)
    ensures LegalRun(Empty(3, size), [Begin(0), Begin(1), Begin(2)])
    ensures After(Empty(3, size), [Begin(0), Begin(1), Begin(2)]) ==
      Log(3, false, {}, size, [Open({}), Open({}), Open({})], 0)
  {
    var s := Empty(3, size);
    var run := [Begin(0), Begin(1), Begin(2)];
    var t := Next(s, Begin(0));
    assert run[1..] == [Begin(1), Begin(2)] && run[1..][1..] == [Begin(2)] && run[1..][1..][1..] == [];
    var u := Next(t, Begin(1));
    assert LegalRun(u, [Begin(2)]) && After(u, [Begin(2)]) == Next(u, Begin(2));
  }

  lemma Fill(size: nat, t: Log, k: nat)
    requires k == MAXOPBLOCKS && t == Log(3, false, {}, size, [Open({}), Open({}), Open({})], 0)
    ensures var run := Writes(0, 0, k) + (Writes(1, k, k) + Writes(2, 2 * k, k));
      && LegalRun(t, run)
      && After(t, run) == Log(3, false, UpTo(0, k) + UpTo(k, k) + UpTo(2 * k, k), size,
                              [Open(UpTo(0, k)), Open(UpTo(k, k)), Open(UpTo(2 * k, k))], 0)
  {
    hide LegalRun, After, Writes, UpTo;
    WritesRun(t, 0, 0, k);
    var u := After(t, Writes(0, 0, k));
    assert {} + UpTo(0, k) == UpTo(0, k);
    assert u == Log(3, false, UpTo(0, k), size, [Open(UpTo(0, k)), Open({}), Open({})], 0);
    WritesRun(u, 1, k, k);
    var v := After(u, Writes(1, k, k));
    assert {} + UpTo(k, k) == UpTo(k, k);
    assert v == Log(3, false, UpTo(0, k) + UpTo(k, k), size, [Open(UpTo(0, k)), Open(UpTo(k, k)), Open({})], 0);
    WritesRun(v, 2, 2 * k, k);
    assert {} + UpTo(2 * k, k) == UpTo(2 * k, k);
    RunOn(u, Writes(1, k, k), Writes(2, 2 * k, k));
    RunOn(t, Writes(0, 0, k), Writes(1, k, k) + Writes(2, 2 * k, k));
  }

  /**
   Three operations with ten blocks each, none of them shared, fill the log; the next `log_write`, of a
   block already there, panics.
   */
  lemma FullLogPanics(size: nat, k: nat) returns (run: seq<Step>)
    requires size - 1 >= LOGSIZE && k == MAXOPBLOCKS
    ensures LegalRun(Empty(3, size), run)
    ensures var s := After(Empty(3, size), run);
      Enabled(s, Write(0, 0)) && Disciplined(s, Write(0, 0)) && Panics(s, Write(0, 0))
  {
    hide LegalRun, After, Writes, UpTo;
    var s := Empty(3, size);
    var a := [Begin(0), Begin(1), Begin(2)];
    Three(size);
    Fill(size, After(s, a), k);
    var b := Writes(0, 0, k) + (Writes(1, k, k) + Writes(2, 2 * k, k));
    RunOn(s, a, b);
    run := a + b;
    UpToThree(k);
  }
}
