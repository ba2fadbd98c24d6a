/**
 The on-disk side of the write-ahead log, as block writes on a disk.

 A disk is a sequence of blocks and one `bwrite` is one atomic step. The log occupies
 the header block `start` and the blocks after it; every other block is a home block.
 A commit and a recovery are the sequences of block writes they issue, so a crash point
 is a prefix of such a sequence. `WriteAheadLog` proves that the code, running over the
 buffer cache, issues exactly these writes.
 */
module CrashSafety {
  import opened Params

  const BLOCK_WORDS := 256

  type Block = b: seq<int> | |b| == BLOCK_WORDS witness seq(BLOCK_WORDS, i => 0)
  type Disk = seq<Block>

  datatype Write = Write(blockno: nat, data: Block)

  /** The place of the log, from the superblock fields `logstart` and `nlog`. */
  datatype Layout = Layout(start: nat, size: nat) {
    /** The log region fits on a disk of `blocks` blocks and holds a full header's worth of data blocks. */
    predicate Fits(blocks: nat) {
      LOGSIZE + 1 <= size && start + size <= blocks
    }

    predicate IsHome(b: int, blocks: nat) {
      0 <= b < blocks && !(start <= b < start + size)
    }
  }

  function Apply(d: Disk, ws: seq<Write>): (r: Disk)
    ensures |r| == |d|
  {
    if ws == [] then d
    else
      var r := Apply(d, ws[..|ws| - 1]);
      var w := ws[|ws| - 1];
      if w.blockno < |d| then r[w.blockno := w.data] else r
  }

  // ---- the header block ----

  function HeaderCount(l: Layout, d: Disk): int
    requires l.Fits(|d|)
  {
    d[l.start][0]
  }

  function HeaderBlock(l: Layout, d: Disk, i: nat): int
    requires l.Fits(|d|) && i < LOGSIZE
  {
    d[l.start][1 + i]
  }

  /** The header buffer after `write_head`: only the count and the first `|blocks|` entries change. */
  function PutHeader(was: Block, blocks: seq<nat>): (r: Block)
    requires |blocks| <= LOGSIZE
    ensures r[0] == |blocks|
    ensures forall i :: 0 <= i < |blocks| ==> r[1 + i] == blocks[i]
  {
    var r := seq(BLOCK_WORDS, i requires 0 <= i < BLOCK_WORDS =>
      if i == 0 then |blocks| else if i <= |blocks| then blocks[i - 1] else was[i]);
    r
  }

  predicate Repeats(s: seq<int>, i: int, j: int) {
    0 <= i < j < |s| && s[i] == s[j]
  }

  /** Distinct home blocks. */
  predicate HomeBlocks(l: Layout, n: nat, blocks: seq<int>) {
    && (forall i :: 0 <= i < |blocks| ==> l.IsHome(blocks[i], n))
    && (forall i, j {:trigger Repeats(blocks, i, j)} :: 0 <= i < j < |blocks| ==> !Repeats(blocks, i, j))
  }

  function HeaderBlocks(l: Layout, d: Disk): (r: seq<int>)
    requires l.Fits(|d|) && 0 <= HeaderCount(l, d) <= LOGSIZE
    ensures |r| == HeaderCount(l, d)
  {
    d[l.start][1..1 + HeaderCount(l, d)]
  }

  /** Every disk the system can crash on: the header names at most LOGSIZE distinct home blocks. */
  predicate WellFormed(l: Layout, d: Disk) {
    && l.Fits(|d|)
    && 0 <= HeaderCount(l, d) <= LOGSIZE
    && HomeBlocks(l, |d|, HeaderBlocks(l, d))
  }

  // ---- the writes of commit() and recover_from_log() ----

  /** `write_log`: block `i` of the transaction goes to the `i`-th block after the header. */
  function LogWrites(l: Layout, data: seq<Block>): (r: seq<Write>)
    ensures |r| == |data|
    ensures forall i :: 0 <= i < |data| ==> r[i] == Write(l.start + 1 + i, data[i])
  {
    seq(|data|, i requires 0 <= i < |data| => Write(l.start + 1 + i, data[i]))
  }

  /** `install_trans`: each logged block goes to its home block. */
  function InstallWrites(blocks: seq<nat>, data: seq<Block>): (r: seq<Write>)
    requires |blocks| == |data|
    ensures |r| == |data|
    ensures forall i :: 0 <= i < |data| ==> r[i] == Write(blocks[i], data[i])
  {
    seq(|data|, i requires 0 <= i < |data| => Write(blocks[i], data[i]))
  }

  /**
   The block writes of `commit`, given the header block found on disk. A transaction without blocks writes
   nothing.
   */
  function CommitWrites(l: Layout, header: Block, blocks: seq<nat>, data: seq<Block>): seq<Write>
    requires |blocks| == |data| <= LOGSIZE
  {
    if blocks == [] then [] else
      LogWrites(l, data)
      + [Write(l.start, PutHeader(header, blocks))]
      + InstallWrites(blocks, data)
      + [Write(l.start, PutHeader(PutHeader(header, blocks), []))]
  }

  function LogData(l: Layout, d: Disk): (r: seq<Block>)
    requires WellFormed(l, d)
    ensures |r| == HeaderCount(l, d)
  {
    d[l.start + 1..l.start + 1 + HeaderCount(l, d)]
  }

  function LoggedBlocks(l: Layout, d: Disk): (r: seq<nat>)
    requires WellFormed(l, d)
    ensures |r| == HeaderCount(l, d)
    ensures forall i :: 0 <= i < |r| ==> r[i] == HeaderBlock(l, d, i)
    ensures HomeBlocks(l, |d|, r)
  {
    var hb := HeaderBlocks(l, d);
    var r := seq(|hb|, i requires 0 <= i < |hb| => hb[i]);
    assert r == hb;
    r
  }

  /** The block writes of `recover_from_log` on disk `d`. */
  function RecoverWrites(l: Layout, d: Disk): seq<Write>
    requires WellFormed(l, d)
  {
    InstallWrites(LoggedBlocks(l, d), LogData(l, d))
    + [Write(l.start, PutHeader(d[l.start], []))]
  }

  function Recover(l: Layout, d: Disk): (r: Disk)
    requires WellFormed(l, d)
  {
    Apply(d, RecoverWrites(l, d))
  }

  // ---- what a transaction means for the file system ----

  /** The two disks agree on every home block: no file-system code can tell them apart. */
  predicate SameHome(l: Layout, d: Disk, e: Disk) {
    && |d| == |e|
    && forall b :: 0 <= b < |d| && l.IsHome(b, |d|) ==> d[b] == e[b]
  }

  /** `e` is `d` with every block of the transaction replaced at once. */
  predicate Committed(l: Layout, d: Disk, e: Disk, blocks: seq<nat>, data: seq<Block>)
    requires |blocks| == |data|
  {
    && |d| == |e|
    && (forall i :: 0 <= i < |blocks| && blocks[i] < |d| ==> e[blocks[i]] == data[i])
    && (forall b :: 0 <= b < |d| && l.IsHome(b, |d|) && b !in blocks ==> e[b] == d[b])
  }

  // ---- single writes ----

  lemma ApplySnoc(d: Disk, ws: seq<Write>, w: Write)
    ensures Apply(d, ws + [w]) == if w.blockno < |d| then Apply(d, ws)[w.blockno := w.data] else Apply(d, ws)
  {
    assert (ws + [w])[..|ws|] == ws;
  }

  lemma {:induction false} ApplyConcat(d: Disk, ws: seq<Write>, vs: seq<Write>)
    ensures Apply(d, ws + vs) == Apply(Apply(d, ws), vs)
  {
    if vs == [] {
      assert ws + vs == ws;
    } else {
      var init, last := vs[..|vs| - 1], vs[|vs| - 1];
      assert ws + vs == ws + init + [last] && vs == init + [last];
      ApplyConcat(d, ws, init);
      ApplySnoc(d, ws + init, last);
      ApplySnoc(Apply(d, ws), init, last);
    }
  }

  /** What a disk holds after writes to pairwise distinct blocks. */
  lemma {:induction false} ApplyDistinct(d: Disk, ws: seq<Write>)
    requires forall i, j :: 0 <= i < j < |ws| ==> ws[i].blockno != ws[j].blockno
    requires forall i :: 0 <= i < |ws| ==> ws[i].blockno < |d|
    ensures forall i :: 0 <= i < |ws| ==> Apply(d, ws)[ws[i].blockno] == ws[i].data
    ensures forall b :: 0 <= b < |d| && (forall i :: 0 <= i < |ws| ==> ws[i].blockno != b) ==> Apply(d, ws)[b] == d[b]
  {
    if ws != [] {
      var init := ws[..|ws| - 1];
      ApplyDistinct(d, init);
      assert forall i :: 0 <= i < |init| ==> init[i] == ws[i];
    }
  }

  /** Writing the first `k` log blocks changes the log data region and nothing else. */
  lemma LogPrefix(l: Layout, d: Disk, data: seq<Block>, k: nat)
    requires l.Fits(|d|) && k <= |data| <= LOGSIZE
    ensures var e := Apply(d, LogWrites(l, data)[..k]);
      && SameHome(l, e, d) && e[l.start] == d[l.start]
      && (forall i :: 0 <= i < k ==> e[l.start + 1 + i] == data[i])
  {
    hide Apply;
    var ws := LogWrites(l, data)[..k];
    ApplyDistinct(d, ws);
    var e := Apply(d, ws);
    forall i | 0 <= i < k ensures e[l.start + 1 + i] == data[i] {
      assert ws[i].blockno == l.start + 1 + i;
    }
  }

  /** Installing the first `k` blocks changes those home blocks and nothing else. */
  lemma InstallPrefix(l: Layout, d: Disk, blocks: seq<nat>, data: seq<Block>, k: nat)
    requires l.Fits(|d|) && |blocks| == |data| <= LOGSIZE && k <= |data|
    requires HomeBlocks(l, |d|, blocks)
    ensures var e := Apply(d, InstallWrites(blocks, data)[..k]);
      && (forall b :: l.start <= b < l.start + l.size ==> e[b] == d[b])
      && (forall i :: 0 <= i < k ==> e[blocks[i]] == data[i])
      && (forall b :: 0 <= b < |d| && b !in blocks[..k] ==> e[b] == d[b])
  {
    var ws := InstallWrites(blocks, data)[..k];
    forall i, j | 0 <= i < j < |ws| ensures ws[i].blockno != ws[j].blockno {
      assert !Repeats(blocks, i, j);
    }
    ApplyDistinct(d, ws);
    var e := Apply(d, ws);
    forall i | 0 <= i < k ensures e[blocks[i]] == data[i] {
      assert ws[i].blockno == blocks[i];
    }
    forall b | 0 <= b < |d| && b !in blocks[..k] ensures e[b] == d[b] {
      forall i | 0 <= i < |ws| ensures ws[i].blockno != b {
        assert blocks[..k][i] == ws[i].blockno;
      }
    }
  }

  // ---- recovery ----

  /** What finishing recovery produces: every logged block at its home, an empty header, nothing else changed. */
  lemma RecoverEffect(l: Layout, d: Disk)
    requires WellFormed(l, d)
    ensures var r := Recover(l, d);
      && WellFormed(l, r) && HeaderCount(l, r) == 0
      && Committed(l, d, r, LoggedBlocks(l, d), LogData(l, d))
  {
    var blocks, data := LoggedBlocks(l, d), LogData(l, d);
    var ws := InstallWrites(blocks, data);
    assert ws[..|blocks|] == ws;
    InstallPrefix(l, d, blocks, data, |blocks|);
    assert blocks[..|blocks|] == blocks;
    ApplySnoc(d, ws, Write(l.start, PutHeader(d[l.start], [])));
  }

  lemma SameRecovery(l: Layout, d: Disk, e: Disk)
    requires WellFormed(l, d) && WellFormed(l, e) && |d| == |e|
    requires LoggedBlocks(l, d) == LoggedBlocks(l, e) && LogData(l, d) == LogData(l, e)
    requires forall b :: 0 <= b < |d| && l.IsHome(b, |d|) && b !in LoggedBlocks(l, d) ==> d[b] == e[b]
    ensures SameHome(l, Recover(l, d), Recover(l, e))
  {
    RecoverEffect(l, d);
    RecoverEffect(l, e);
    var blocks := LoggedBlocks(l, d);
    forall b | 0 <= b < |d| && l.IsHome(b, |d|) ensures Recover(l, d)[b] == Recover(l, e)[b] {
      if b in blocks {
        var i :| 0 <= i < |blocks| && blocks[i] == b;
      }
    }
  }

  /** A crash after any number of recovery's own writes: recovering again gives the same home blocks. */
  lemma RecoveryRestartable(l: Layout, d: Disk, k: nat)
    requires WellFormed(l, d) && k <= |RecoverWrites(l, d)|
    ensures var e := Apply(d, RecoverWrites(l, d)[..k]);
      WellFormed(l, e) && SameHome(l, Recover(l, e), Recover(l, d))
  {
    var blocks, data := LoggedBlocks(l, d), LogData(l, d);
    var ws := RecoverWrites(l, d);
    var e := Apply(d, ws[..k]);
    if k <= |blocks| {
      assert ws[..k] == InstallWrites(blocks, data)[..k];
      InstallPrefix(l, d, blocks, data, k);
      assert HeaderBlocks(l, e) == HeaderBlocks(l, d);
      assert LoggedBlocks(l, e) == blocks;
      assert LogData(l, e) == data;
      SameRecovery(l, e, d);
    } else {
      assert ws[..k] == ws;
      RecoverEffect(l, d);
      RecoverEffect(l, e);
    }
  }

  /**
   Boot after boot: crash `i` interrupts recovery after `crashes[i]` of its writes (or none remain), the
   last boot finishes.
   */
  function RecoverThrough(l: Layout, d: Disk, crashes: seq<nat>): (r: Disk)
    requires WellFormed(l, d)
    decreases |crashes|
  {
    if crashes == [] then Recover(l, d)
    else
      var ws := RecoverWrites(l, d);
      var k := if crashes[0] < |ws| then crashes[0] else |ws|;
      RecoveryRestartable(l, d, k);
      RecoverThrough(l, Apply(d, ws[..k]), crashes[1..])
  }

  /** However often recovery itself is interrupted, the home blocks end as if it had run once, with an empty log. */
  lemma {:induction false} RepeatedRecovery(l: Layout, d: Disk, crashes: seq<nat>)
    requires WellFormed(l, d)
    ensures var r := RecoverThrough(l, d, crashes);
      WellFormed(l, r) && HeaderCount(l, r) == 0 && SameHome(l, r, Recover(l, d))
    decreases |crashes|
  {
    if crashes == [] {
      RecoverEffect(l, d);
    } else {
      var ws := RecoverWrites(l, d);
      var k := if crashes[0] < |ws| then crashes[0] else |ws|;
      RecoveryRestartable(l, d, k);
      RepeatedRecovery(l, Apply(d, ws[..k]), crashes[1..]);
    }
  }

  // ---- commit ----

  predicate Transaction(l: Layout, n: nat, blocks: seq<nat>, data: seq<Block>) {
    |blocks| == |data| <= LOGSIZE && HomeBlocks(l, n, blocks)
  }

  /** The header write is the commit point: it is write number `|blocks|` of the commit. */
  predicate PastCommitPoint(blocks: seq<nat>, k: nat) {
    blocks != [] && |blocks| < k
  }

  lemma CrashBeforeHeader(l: Layout, d: Disk, blocks: seq<nat>, data: seq<Block>, k: nat)
    requires WellFormed(l, d) && HeaderCount(l, d) == 0 && Transaction(l, |d|, blocks, data)
    requires k <= |blocks|
    ensures var e := Apply(d, LogWrites(l, data)[..k]);
      WellFormed(l, e) && SameHome(l, Recover(l, e), d)
  {
    LogPrefix(l, d, data, k);
    var e := Apply(d, LogWrites(l, data)[..k]);
    assert HeaderBlocks(l, e) == [];
    RecoverEffect(l, e);
  }

  /** The disk right after the header write: the whole transaction is in the log, none of it is home. */
  lemma HeaderWritten(l: Layout, d: Disk, blocks: seq<nat>, data: seq<Block>)
    requires WellFormed(l, d) && HeaderCount(l, d) == 0 && Transaction(l, |d|, blocks, data) && blocks != []
    ensures var e := Apply(d, LogWrites(l, data) + [Write(l.start, PutHeader(d[l.start], blocks))]);
      && WellFormed(l, e) && SameHome(l, e, d) && e[l.start] == PutHeader(d[l.start], blocks)
      && LoggedBlocks(l, e) == blocks && LogData(l, e) == data
  {
    var lw, h := LogWrites(l, data), PutHeader(d[l.start], blocks);
    assert lw[..|data|] == lw;
    LogPrefix(l, d, data, |data|);
    ApplySnoc(d, lw, Write(l.start, h));
    AddHeader(l, d, Apply(d, lw), blocks, data);
  }

  lemma AddHeader(l: Layout, d: Disk, f: Disk, blocks: seq<nat>, data: seq<Block>)
    requires l.Fits(|d|) && Transaction(l, |d|, blocks, data) && SameHome(l, f, d)
    requires forall i :: 0 <= i < |data| ==> f[l.start + 1 + i] == data[i]
    ensures var e := f[l.start := PutHeader(d[l.start], blocks)];
      && WellFormed(l, e) && SameHome(l, e, d)
      && LoggedBlocks(l, e) == blocks && LogData(l, e) == data
  {
    var e := f[l.start := PutHeader(d[l.start], blocks)];
    HeaderReadsBack(l, e, d[l.start], blocks);
    var ld := LogData(l, e);
    assert |ld| == |data|;
    forall i | 0 <= i < |data| ensures ld[i] == data[i] {
      assert ld[i] == f[l.start + 1 + i];
    }
    assert ld == data;
  }

  lemma HeaderReadsBack(l: Layout, e: Disk, header: Block, blocks: seq<nat>)
    requires l.Fits(|e|) && |blocks| <= LOGSIZE && HomeBlocks(l, |e|, blocks) && e[l.start] == PutHeader(header, blocks)
    ensures WellFormed(l, e) && LoggedBlocks(l, e) == blocks
  {
    assert HeaderCount(l, e) == |blocks|;
    var hb := HeaderBlocks(l, e);
    forall i | 0 <= i < |blocks| ensures hb[i] == blocks[i] {
      assert hb[i] == e[l.start][1 + i];
    }
    assert hb == blocks;
  }

  /** A commit is the log part followed by exactly the writes recovery would issue at that point. */
  lemma CommitIsLogThenRecover(l: Layout, d: Disk, blocks: seq<nat>, data: seq<Block>)
    requires WellFormed(l, d) && HeaderCount(l, d) == 0 && Transaction(l, |d|, blocks, data) && blocks != []
    ensures var lead := LogWrites(l, data) + [Write(l.start, PutHeader(d[l.start], blocks))];
      && WellFormed(l, Apply(d, lead))
      && CommitWrites(l, d[l.start], blocks, data) == lead + RecoverWrites(l, Apply(d, lead))
  {
    HeaderWritten(l, d, blocks, data);
  }

  /** Before the header is written, recovery leaves every home block as it was. */
  lemma CrashBeforeCommit(l: Layout, d: Disk, blocks: seq<nat>, data: seq<Block>, k: nat, crashes: seq<nat>)
    requires WellFormed(l, d) && HeaderCount(l, d) == 0 && Transaction(l, |d|, blocks, data)
    requires k <= |CommitWrites(l, d[l.start], blocks, data)| && !PastCommitPoint(blocks, k)
    ensures var e := Apply(d, CommitWrites(l, d[l.start], blocks, data)[..k]);
      && WellFormed(l, e)
      && var r := RecoverThrough(l, e, crashes);
      && WellFormed(l, r) && HeaderCount(l, r) == 0 && SameHome(l, r, d)
  {
    var ws := CommitWrites(l, d[l.start], blocks, data);
    assert ws[..k] == LogWrites(l, data)[..k];
    CrashBeforeHeader(l, d, blocks, data, k);
    RepeatedRecovery(l, Apply(d, ws[..k]), crashes);
  }

  /** From then on recovery completes the transaction. */
  lemma CrashAfterCommit(l: Layout, d: Disk, blocks: seq<nat>, data: seq<Block>, k: nat, crashes: seq<nat>)
    requires WellFormed(l, d) && HeaderCount(l, d) == 0 && Transaction(l, |d|, blocks, data)
    requires k <= |CommitWrites(l, d[l.start], blocks, data)| && PastCommitPoint(blocks, k)
    ensures var e := Apply(d, CommitWrites(l, d[l.start], blocks, data)[..k]);
      && WellFormed(l, e)
      && var r := RecoverThrough(l, e, crashes);
      && WellFormed(l, r) && HeaderCount(l, r) == 0 && Committed(l, d, r, blocks, data)
  {
    hide Apply, RecoverWrites, PutHeader;
    var ws := CommitWrites(l, d[l.start], blocks, data);
    var e := Apply(d, ws[..k]);
    CommitIsLogThenRecover(l, d, blocks, data);
    HeaderWritten(l, d, blocks, data);
    var lead := LogWrites(l, data) + [Write(l.start, PutHeader(d[l.start], blocks))];
    var h := Apply(d, lead);
    var j := k - |lead|;
    assert ws[..k] == lead + RecoverWrites(l, h)[..j];
    ApplyConcat(d, lead, RecoverWrites(l, h)[..j]);
    RecoveryRestartable(l, h, j);
    RepeatedRecovery(l, e, crashes);
    RecoverEffect(l, h);
    assert Committed(l, h, Recover(l, h), blocks, data);
  }

  /**
   Crash atomicity of one commit, with any number of crashes inside the recoveries that
   follow: all of the transaction if the header write was reached, none of it otherwise.
   */
  lemma CommitAtomic(l: Layout, d: Disk, blocks: seq<nat>, data: seq<Block>, k: nat, crashes: seq<nat>)
    requires WellFormed(l, d) && HeaderCount(l, d) == 0 && Transaction(l, |d|, blocks, data)
    requires k <= |CommitWrites(l, d[l.start], blocks, data)|
    ensures var e := Apply(d, CommitWrites(l, d[l.start], blocks, data)[..k]);
      && WellFormed(l, e)
      && var r := RecoverThrough(l, e, crashes);
      && WellFormed(l, r) && HeaderCount(l, r) == 0
      && (PastCommitPoint(blocks, k) ==> Committed(l, d, r, blocks, data))
      && (!PastCommitPoint(blocks, k) ==> SameHome(l, r, d))
  {
    if PastCommitPoint(blocks, k) {
      CrashAfterCommit(l, d, blocks, data, k, crashes);
    } else {
      CrashBeforeCommit(l, d, blocks, data, k, crashes);
    }
  }

  /** A commit that is not interrupted leaves all of its blocks home and the log empty. */
  lemma CommitCompletes(l: Layout, d: Disk, blocks: seq<nat>, data: seq<Block>)
    requires WellFormed(l, d) && HeaderCount(l, d) == 0 && Transaction(l, |d|, blocks, data)
    ensures var e := Apply(d, CommitWrites(l, d[l.start], blocks, data));
      WellFormed(l, e) && HeaderCount(l, e) == 0 && Committed(l, d, e, blocks, data)
  {
    if blocks != [] {
      CommitIsLogThenRecover(l, d, blocks, data);
      HeaderWritten(l, d, blocks, data);
      var lead := LogWrites(l, data) + [Write(l.start, PutHeader(d[l.start], blocks))];
      ApplyConcat(d, lead, RecoverWrites(l, Apply(d, lead)));
      RecoverEffect(l, Apply(d, lead));
    }
  }

  // ---- whole runs ----

  /**
   One commit of a run: it either completes, or the machine crashes after `k` of its writes and reboots,
   crashing in recovery too.
   */
  datatype Step =
    | Complete(blocks: seq<nat>, data: seq<Block>)
    | Interrupted(blocks: seq<nat>, data: seq<Block>, k: nat, crashes: seq<nat>)

  predicate Legal(l: Layout, n: nat, s: Step) {
    Transaction(l, n, s.blocks, s.data)
  }

  function CrashPoint(l: Layout, header: Block, s: Step): (k: nat)
    requires s.Interrupted? && |s.blocks| == |s.data| <= LOGSIZE
    ensures k <= |CommitWrites(l, header, s.blocks, s.data)|
  {
    var n := |CommitWrites(l, header, s.blocks, s.data)|;
    if s.k < n then s.k else n
  }

  /** The real disk after one step of a run. */
  function StepDisk(l: Layout, d: Disk, s: Step): (r: Disk)
    requires WellFormed(l, d) && HeaderCount(l, d) == 0 && Legal(l, |d|, s)
  {
    var ws := CommitWrites(l, d[l.start], s.blocks, s.data);
    match s
    case Complete(_, _) => Apply(d, ws)
    case Interrupted(_, _, _, crashes) =>
      var k := CrashPoint(l, d[l.start], s);
      CommitAtomic(l, d, s.blocks, s.data, k, crashes);
      RecoverThrough(l, Apply(d, ws[..k]), crashes)
  }

  lemma StepKeeps(l: Layout, d: Disk, s: Step)
    requires WellFormed(l, d) && HeaderCount(l, d) == 0 && Legal(l, |d|, s)
    ensures var r := StepDisk(l, d, s); |r| == |d| && WellFormed(l, r) && HeaderCount(l, r) == 0
  {
    if s.Complete? {
      CommitCompletes(l, d, s.blocks, s.data);
    } else {
      CommitAtomic(l, d, s.blocks, s.data, CrashPoint(l, d[l.start], s), s.crashes);
    }
  }

  predicate LegalRun(l: Layout, n: nat, run: seq<Step>) {
    forall i :: 0 <= i < |run| ==> Legal(l, n, run[i])
  }

  function RunDisk(l: Layout, d: Disk, run: seq<Step>): (r: Disk)
    requires WellFormed(l, d) && HeaderCount(l, d) == 0 && LegalRun(l, |d|, run)
    ensures |r| == |d| && WellFormed(l, r) && HeaderCount(l, r) == 0
    decreases |run|
  {
    if run == [] then d
    else
      StepKeeps(l, d, run[0]);
      RunDisk(l, StepDisk(l, d, run[0]), run[1..])
  }

  /** One step more at the end of a run. */
  lemma {:induction false} RunDiskSnoc(l: Layout, d: Disk, run: seq<Step>, s: Step)
    requires WellFormed(l, d) && HeaderCount(l, d) == 0 && LegalRun(l, |d|, run) && Legal(l, |d|, s)
    ensures LegalRun(l, |d|, run + [s]) && RunDisk(l, d, run + [s]) == StepDisk(l, RunDisk(l, d, run), s)
    decreases |run|
  {
    hide StepDisk, WellFormed, HeaderCount;
    if run == [] {
      StepKeeps(l, d, s);
      assert run + [s] == [s] && [s][1..] == [];
    } else {
      StepKeeps(l, d, run[0]);
      RunDiskSnoc(l, StepDisk(l, d, run[0]), run[1..], s);
      assert (run + [s])[1..] == run[1..] + [s];
    }
  }

  /** The atomic store the log implements: a plain block map on which a transaction happens at once or not at all. */
  function Overlay(d: Disk, blocks: seq<nat>, data: seq<Block>): (r: Disk)
    requires |blocks| == |data|
    ensures |r| == |d|
  {
    Apply(d, InstallWrites(blocks, data))
  }

  predicate Survives(s: Step, k: nat) {
    s.Complete? || PastCommitPoint(s.blocks, k)
  }

  function RunSpec(l: Layout, d: Disk, run: seq<Step>): (r: Disk)
    requires LegalRun(l, |d|, run)
    ensures |r| == |d|
    decreases |run|
  {
    if run == [] then d
    else
      var s := run[0];
      assert Legal(l, |d|, s);
      RunSpec(l, if Survives(s, if s.Interrupted? then s.k else 0) then Overlay(d, s.blocks, s.data) else d, run[1..])
  }

  lemma OverlayCommitted(l: Layout, d: Disk, e: Disk, blocks: seq<nat>, data: seq<Block>)
    requires l.Fits(|d|) && Transaction(l, |d|, blocks, data) && SameHome(l, d, e)
    ensures forall r :: Committed(l, d, r, blocks, data) ==> SameHome(l, r, Overlay(e, blocks, data))
  {
    var ws := InstallWrites(blocks, data);
    assert ws[..|blocks|] == ws && blocks[..|blocks|] == blocks;
    InstallPrefix(l, e, blocks, data, |blocks|);
    forall r, b | Committed(l, d, r, blocks, data) && 0 <= b < |d| && l.IsHome(b, |d|)
      ensures r[b] == Overlay(e, blocks, data)[b]
    {
      if b in blocks {
        var i :| 0 <= i < |blocks| && blocks[i] == b;
      }
    }
  }

  lemma StepRefines(l: Layout, d: Disk, e: Disk, s: Step)
    requires WellFormed(l, d) && HeaderCount(l, d) == 0 && Legal(l, |d|, s) && SameHome(l, d, e)
    ensures SameHome(l, StepDisk(l, d, s),
                     if Survives(s, if s.Interrupted? then s.k else 0) then Overlay(e, s.blocks, s.data) else e)
  {
    OverlayCommitted(l, d, e, s.blocks, s.data);
    if s.Complete? {
      CommitCompletes(l, d, s.blocks, s.data);
    } else {
      CommitAtomic(l, d, s.blocks, s.data, CrashPoint(l, d[l.start], s), s.crashes);
    }
  }

  /**
   Every run of commits and crashes, of any length: the home blocks are those of an atomic
   store that applied, in order, exactly the transactions whose header write was reached.
   */
  lemma {:induction false} RunRefinesAtomicStore(l: Layout, d: Disk, e: Disk, run: seq<Step>)
    requires WellFormed(l, d) && HeaderCount(l, d) == 0 && LegalRun(l, |d|, run) && SameHome(l, d, e)
    ensures SameHome(l, RunDisk(l, d, run), RunSpec(l, e, run))
    decreases |run|
  {
    if run != [] {
      var s := run[0];
      StepKeeps(l, d, s);
      StepRefines(l, d, e, s);
      var e' := if Survives(s, if s.Interrupted? then s.k else 0) then Overlay(e, s.blocks, s.data) else e;
      RunRefinesAtomicStore(l, StepDisk(l, d, s), e', run[1..]);
    }
  }
}
