/** The commit / checkpoint / rollback protocol of Database and its recovery, as a step machine that can
    crash between any two steps (src/main/include/database.h:92-157, src/main/database.cpp:55-84). */
module CrashRecovery {
  import opened Wrappers
  import opened WalFiles
  import opened WalReplay

  datatype Mode =
    | Idle                                         // no write transaction, WAL cleared
    | Active                                       // a write transaction is logging
    | CommitLogged                                 // COMMIT record appended in memory
    | Replaying(next: nat, pending: seq<Op>)       // checkpoint or recovery replay in progress
    | Down                                         // crashed: only durable state is left

  datatype CommitPoint = CommitPoint(log: seq<Record>, pages: WalPages, dir: Directory)

  /** `dir`, `log`, `pages` are durable; `memLog`, `memPages` are the WAL as the running process sees it.
      `base` and `commit` are history: the directory when the transaction began, and the durable state at
      the moment its COMMIT record became durable. */
  datatype State = State(dir: Directory, log: seq<Record>, pages: WalPages,
                         memLog: seq<Record>, memPages: WalPages, mode: Mode,
                         base: Directory, commit: Option<CommitPoint>)

  ghost predicate SameOriginals(a: Directory, b: Directory) {
    forall n :: Get(a, n).orig == Get(b, n).orig
  }

  predicate EndsInCommit(log: seq<Record>) {
    log != [] && log[|log| - 1].Commit?
  }

  /** clearWAL: truncates the log and removes every WAL version of a file. */
  function ClearWal(s: State): State {
    s.(dir := map n | n in s.dir && s.dir[n].orig.Some? :: Slot(s.dir[n].orig, None),
       log := [], pages := map[], memLog := [], memPages := map[], mode := Idle)
  }

  ghost predicate Init(s: State) {
    s.mode == Idle && s.log == [] && s.memLog == [] && s.base == s.dir && s.commit == None
  }

  ghost predicate Begin(s: State, t: State) {
    s.mode == Idle && t == s.(mode := Active, memLog := [], base := s.dir, commit := None)
  }

  /** Any work of the running transaction: it appends records, writes WAL pages and WAL versions of files;
      evicted WAL pages and filled header pages reach disk; no original file changes. */
  ghost predicate Work(s: State, t: State) {
    && s.mode == Active
    && SameOriginals(t.dir, s.dir)
    && s.memLog <= t.memLog && Commit !in t.memLog
    && t.log <= t.memLog
    && t == s.(dir := t.dir, log := t.log, pages := t.pages, memLog := t.memLog, memPages := t.memPages)
  }

  ghost predicate LogCommit(s: State, t: State) {
    s.mode == Active && t == s.(memLog := s.memLog + [Commit], mode := CommitLogged)
  }

  /** flushAllPages, then the checkpoint starts; the log is one that can be cut, as those of the statements are. */
  ghost predicate Flush(s: State, t: State) {
    && s.mode == CommitLogged
    && LogOk(s.memLog, s.memPages, s.dir)
    && t == s.(log := s.memLog, pages := s.memPages, mode := Replaying(0, []),
               commit := Some(CommitPoint(s.memLog, s.memPages, s.dir)))
  }

  ghost predicate Rollback(s: State, t: State) {
    s.mode == Active && t == ClearWal(s)
  }

  /** One step of the replay loop: take the next record, or perform one file operation. */
  ghost predicate ReplayStep(s: State, t: State) {
    && s.mode.Replaying?
    && var Replaying(i, pending) := s.mode;
       if pending != [] then
         t == s.(dir := Apply(pending[0], s.dir), mode := Replaying(i, pending[1..]))
       else
         && i < |s.log|
         && var ops := Expand(s.log[i], s.pages, s.dir);
            t == s.(mode := if ops.None? then Down else Replaying(i + 1, ops.value))
  }

  ghost predicate FinishReplay(s: State, t: State) {
    s.mode == Replaying(|s.log|, []) && t == ClearWal(s)
  }

  ghost predicate Crash(s: State, t: State) {
    t == s.(mode := Down, memLog := [], memPages := map[])
  }

  /** recoverIfNecessary */
  ghost predicate Restart(s: State, t: State) {
    && s.mode == Down
    && t == if s.log == [] then s.(mode := Idle)
            else if EndsInCommit(s.log) then s.(mode := Replaying(0, []))
            else ClearWal(s)
  }

  ghost predicate Next(s: State, t: State) {
    || Begin(s, t) || Work(s, t) || LogCommit(s, t) || Flush(s, t) || Rollback(s, t)
    || ReplayStep(s, t) || FinishReplay(s, t) || Crash(s, t) || Restart(s, t)
  }

  /** The directory a single uninterrupted checkpoint of the commit point leaves. */
  ghost function PostImage(c: CommitPoint): Directory {
    var r := Replay(c.log, c.pages, c.dir);
    if r.Some? then r.value else c.dir
  }

  ghost function OpsOf(c: CommitPoint): seq<Op> {
    OpsFrom(c.log, c.pages, c.dir)
  }

  /** Replays cut as `cuts` says, then one that has performed k operations. */
  ghost predicate CutAt(c: CommitPoint, dir: Directory, cuts: seq<nat>, k: nat) {
    k <= |OpsOf(c)| && dir == Run(Prefix(OpsOf(c), k), Series(OpsOf(c), cuts, c.dir))
  }

  /** The operations left to a replay with k performed are the pending ones and those of the records from i on. */
  ghost predicate Left(c: CommitPoint, i: nat, pending: seq<Op>, k: nat) {
    && i <= |c.log|
    && var d := Run(Prefix(OpsOf(c), k + |pending|), c.dir);
       && Steady(c.log[i..], c.log, c.pages, d)
       && k <= |OpsOf(c)| && pending + OpsFrom(c.log[i..], c.pages, d) == OpsOf(c)[k..]
  }

  ghost predicate Progress(c: CommitPoint, dir: Directory, mode: Mode, cuts: seq<nat>, k: nat) {
    CutAt(c, dir, cuts, k) && (mode.Replaying? ==> Left(c, mode.next, mode.pending, k))
  }

  /** The commit record is durable and the WAL is still there: the files are where some cut replays have left them. */
  ghost predicate Pending(s: State) {
    && s.commit.Some?
    && var c := s.commit.value;
       && s.log == c.log && s.pages == c.pages && EndsInCommit(s.log)
       && LogOk(c.log, c.pages, c.dir)
       && exists cuts: seq<nat>, k: nat :: Progress(c, s.dir, s.mode, cuts, k)
  }

  ghost predicate Inv(s: State) {
    match s.mode
    case Active => s.commit.None? && SameOriginals(s.dir, s.base) && Commit !in s.memLog && s.log <= s.memLog
    case CommitLogged => s.commit.None? && SameOriginals(s.dir, s.base) && !EndsInCommit(s.log)
      && EndsInCommit(s.memLog)
    case Replaying(_, _) => Pending(s)
    case Idle => s.log == [] && SameOriginals(s.dir, if s.commit.None? then s.base else PostImage(s.commit.value))
    case Down =>
      || Pending(s)
      || (s.commit.None? && SameOriginals(s.dir, s.base) && !EndsInCommit(s.log))
      || (s.commit.Some? && s.log == [] && SameOriginals(s.dir, PostImage(s.commit.value)))
  }

  lemma ClearKeepsOriginals(s: State)
    ensures SameOriginals(ClearWal(s).dir, s.dir)
  {
  }

  lemma PrefixNoCommit(log: seq<Record>, full: seq<Record>)
    requires log <= full && Commit !in full
    ensures !EndsInCommit(log)
  {
    if log != [] {
      assert full[|log| - 1] == log[|log| - 1];
      assert full[|log| - 1] in full;
    }
  }

  lemma PostIsRun(c: CommitPoint)
    requires LogOk(c.log, c.pages, c.dir)
    ensures PostImage(c) == Run(OpsOf(c), c.dir)
  {
    ReachedAtStart(c.log, c.dir);
    ReplayIsRun(c.log, c.log, c.pages, c.dir, c.dir);
  }

  lemma {:induction false} SeriesReached(c: CommitPoint, cuts: seq<nat>, d: Directory)
    requires LogOk(c.log, c.pages, c.dir) && Reached(c.log, c.dir, d)
    ensures Reached(c.log, c.dir, Series(OpsOf(c), cuts, d))
    decreases |cuts|
  {
    if cuts != [] {
      PrefixReached(c.log, c.pages, c.dir, d, cuts[0]);
      SeriesReached(c, cuts[1..], Run(Prefix(OpsOf(c), cuts[0]), d));
    }
  }

  /** The k operations lead alike from where the transaction committed and from where the cut replays stopped. */
  lemma CutReached(c: CommitPoint, dir: Directory, cuts: seq<nat>, k: nat)
    requires LogOk(c.log, c.pages, c.dir) && CutAt(c, dir, cuts, k)
    ensures Reached(c.log, c.dir, dir) && Reached(c.log, Run(Prefix(OpsOf(c), k), c.dir), dir)
  {
    var some := Prefix(OpsOf(c), k);
    ReachedAtStart(c.log, c.dir);
    SeriesReached(c, cuts, c.dir);
    OpsFromLogOps(c.log, c.log, c.pages, c.dir);
    assert forall o :: o in some ==> o in OpsOf(c);
    ReachedByAll(some, c.log, c.dir, Series(OpsOf(c), cuts, c.dir));
  }

  /** Wherever a replay of the committed log was cut, what is on disk replays to the post image. */
  lemma PendingReplays(s: State)
    requires Pending(s)
    ensures Replay(s.log, s.pages, s.dir) == Some(PostImage(s.commit.value))
  {
    var c := s.commit.value;
    var cuts: seq<nat>, k: nat :| Progress(c, s.dir, s.mode, cuts, k);
    CutReached(c, s.dir, cuts, k);
    ReplayIsRun(c.log, c.log, c.pages, c.dir, s.dir);
    SeriesNext(OpsOf(c), cuts, k, c.dir);
    SettledIsInvisible(OpsOf(c), cuts + [k], c.dir);
    PostIsRun(c);
  }

  lemma StartLeft(c: CommitPoint)
    requires LogOk(c.log, c.pages, c.dir)
    ensures Left(c, 0, [], 0)
  {
    assert c.log[0..] == c.log && OpsOf(c)[0..] == OpsOf(c) && Prefix(OpsOf(c), 0) == [];
  }

  lemma FlushPending(s: State, t: State)
    requires Inv(s) && Flush(s, t)
    ensures Pending(t)
  {
    var c := t.commit.value;
    StartLeft(c);
    assert Prefix(OpsOf(c), 0) == [];
    assert Progress(c, t.dir, t.mode, [], 0);
  }

  lemma NextOperation(c: CommitPoint, dir: Directory, i: nat, pending: seq<Op>, cuts: seq<nat>, k: nat)
    requires CutAt(c, dir, cuts, k) && Left(c, i, pending, k) && pending != []
    ensures CutAt(c, Apply(pending[0], dir), cuts, k + 1) && Left(c, i, pending[1..], k + 1)
  {
    var ops, o := OpsOf(c), pending[0];
    var rest := OpsFrom(c.log[i..], c.pages, Run(Prefix(ops, k + |pending|), c.dir));
    assert (pending + rest)[1..] == pending[1..] + rest;
    assert o == ops[k..][0] && ops[k..][1..] == ops[k + 1..] && k + |pending| == k + 1 + |pending[1..]|;
    assert ops[k..] == [o] + ops[k + 1..] && [o][1..] == [];
    NextPrefix(ops, k, [o], ops[k + 1..], Series(ops, cuts, c.dir));
    assert Run([o], dir) == Run([o][1..], Apply(o, dir));
  }

  /** One file operation of the log is the next of its operations. */
  lemma OperationKeepsPending(s: State, t: State)
    requires Pending(s) && s.mode.Replaying? && s.mode.pending != [] && ReplayStep(s, t)
    ensures Pending(t)
  {
    var c := s.commit.value;
    var cuts: seq<nat>, k: nat :| Progress(c, s.dir, s.mode, cuts, k);
    NextOperation(c, s.dir, s.mode.next, s.mode.pending, cuts, k);
    assert Progress(c, t.dir, t.mode, cuts, k + 1);
  }

  lemma NextPrefix(ops: seq<Op>, k: nat, now: seq<Op>, rest: seq<Op>, d: Directory)
    requires k <= |ops| && ops[k..] == now + rest
    ensures Run(Prefix(ops, k + |now|), d) == Run(now, Run(Prefix(ops, k), d))
  {
    assert ops[k..][..|now|] == now;
    assert Prefix(ops, k + |now|) == Prefix(ops, k) + now;
    RunConcat(Prefix(ops, k), now, d);
  }

  /** The next record expands to the next operations of the log. */
  lemma NextRecord(c: CommitPoint, dir: Directory, i: nat, cuts: seq<nat>, k: nat)
    requires LogOk(c.log, c.pages, c.dir) && CutAt(c, dir, cuts, k) && Left(c, i, [], k) && i < |c.log|
    ensures Expand(c.log[i], c.pages, dir).Some? && Left(c, i + 1, Expand(c.log[i], c.pages, dir).value, k)
  {
    var ops := OpsOf(c);
    var d := Run(Prefix(ops, k), c.dir);
    var recs := c.log[i..];
    assert recs[0] == c.log[i] && recs[1..] == c.log[i + 1..];
    CutReached(c, dir, cuts, k);
    var now := StepTogether(recs, c.log, c.pages, d, dir);
    var rest := OpsFrom(c.log[i + 1..], c.pages, Run(now, d));
    assert [] + OpsFrom(recs, c.pages, d) == now + rest;
    NextPrefix(ops, k, now, rest, c.dir);
  }

  lemma NextRecordKeepsPending(s: State, t: State)
    requires Pending(s) && s.mode.Replaying? && s.mode.pending == [] && ReplayStep(s, t)
    ensures Pending(t) && t.mode.Replaying?
  {
    var c := s.commit.value;
    var cuts: seq<nat>, k: nat :| Progress(c, s.dir, s.mode, cuts, k);
    NextRecord(c, s.dir, s.mode.next, cuts, k);
    assert Progress(c, t.dir, t.mode, cuts, k);
  }

  lemma TransactionStepInv(s: State, t: State)
    requires Inv(s) && (Begin(s, t) || Work(s, t) || LogCommit(s, t) || Rollback(s, t))
    ensures Inv(t)
  {
    if Rollback(s, t) {
      ClearKeepsOriginals(s);
    } else if LogCommit(s, t) {
      PrefixNoCommit(s.log, s.memLog);
    }
  }

  lemma FinishInv(s: State, t: State)
    requires Inv(s) && FinishReplay(s, t)
    ensures Inv(t)
  {
    ClearKeepsOriginals(s);
    var c := s.commit.value;
    var cuts: seq<nat>, k: nat :| Progress(c, s.dir, s.mode, cuts, k);
    assert c.log[|c.log|..] == [];
    assert Prefix(OpsOf(c), k) == OpsOf(c);
    SettledIsInvisible(OpsOf(c), cuts, c.dir);
    PostIsRun(c);
  }

  lemma CrashInv(s: State, t: State)
    requires Inv(s) && Crash(s, t)
    ensures Inv(t)
  {
    if s.mode == Active {
      PrefixNoCommit(s.log, s.memLog);
    } else if s.mode.Replaying? {
      var cuts: seq<nat>, k: nat :| Progress(s.commit.value, s.dir, s.mode, cuts, k);
      assert Progress(s.commit.value, t.dir, t.mode, cuts, k);
    } else if s.mode == Down && Pending(s) {
      assert t.mode == s.mode && Pending(t);
    }
  }

  lemma RestartInv(s: State, t: State)
    requires Inv(s) && Restart(s, t)
    ensures Inv(t)
  {
    ClearKeepsOriginals(s);
    if EndsInCommit(s.log) {
      var c := s.commit.value;
      var cuts: seq<nat>, k: nat :| Progress(c, s.dir, s.mode, cuts, k);
      SeriesNext(OpsOf(c), cuts, k, c.dir);
      StartLeft(c);
      assert Prefix(OpsOf(c), 0) == [];
      assert Progress(c, t.dir, t.mode, cuts + [k], 0);
    }
  }

  /** Every step keeps the invariant. */
  lemma StepInv(s: State, t: State)
    requires Inv(s) && Next(s, t)
    ensures Inv(t)
  {
    if Begin(s, t) || Work(s, t) || LogCommit(s, t) || Rollback(s, t) {
      TransactionStepInv(s, t);
    } else if Flush(s, t) {
      FlushPending(s, t);
    } else if ReplayStep(s, t) {
      if s.mode.pending != [] {
        OperationKeepsPending(s, t);
      } else {
        NextRecordKeepsPending(s, t);
      }
    } else if FinishReplay(s, t) {
      FinishInv(s, t);
    } else if Crash(s, t) {
      CrashInv(s, t);
    } else {
      RestartInv(s, t);
    }
  }

  ghost predicate IsRun(run: seq<State>) {
    run != [] && Init(run[0]) && forall i, j :: 0 <= i && j == i + 1 && j < |run| ==> Next(run[i], run[j])
  }

  lemma {:induction false} RunInv(run: seq<State>, i: nat)
    requires IsRun(run) && i < |run|
    ensures Inv(run[i])
  {
    if i > 0 {
      RunInv(run, i - 1);
      StepInv(run[i - 1], run[i]);
    }
  }

  /** Between a crash and the next transaction the commit decision does not change. */
  lemma {:induction false} DecisionStable(run: seq<State>, i: nat, j: nat)
    requires IsRun(run) && i <= j < |run| && run[i].mode == Down
    requires forall k :: i <= k < j ==> !Begin(run[k], run[k + 1])
    ensures run[j].commit == run[i].commit && run[j].base == run[i].base
    ensures run[j].mode in {Idle, Down} || run[j].mode.Replaying?
  {
    if i < j {
      DecisionStable(run, i, j - 1);
      var s, t := run[j - 1], run[j];
      assert !Begin(run[j - 1], run[j - 1 + 1]) && Next(s, t);
      DecisionStep(s, t);
    }
  }

  lemma DecisionStep(s: State, t: State)
    requires Next(s, t) && !Begin(s, t) && (s.mode in {Idle, Down} || s.mode.Replaying?)
    ensures t.commit == s.commit && t.base == s.base && (t.mode in {Idle, Down} || t.mode.Replaying?)
  {
    if !Restart(s, t) && !FinishReplay(s, t) && !Crash(s, t) {
      assert ReplayStep(s, t);
    }
  }

  /** Crash atomicity. In every run, whenever recovery from a crash at `i` has completed at `j`, after any
      number of further crashes, the original files are those of before the transaction or the complete
      checkpointed ones; the latter exactly when the log on disk at the crash ended in COMMIT. */
  lemma CrashAtomicity(run: seq<State>, i: nat, j: nat)
    requires IsRun(run) && i <= j < |run|
    requires run[i].mode == Down && run[i].log != [] && run[j].mode == Idle
    requires forall k :: i <= k < j ==> !Begin(run[k], run[k + 1])
    ensures EndsInCommit(run[i].log) <==> run[i].commit.Some?
    ensures SameOriginals(run[j].dir, if EndsInCommit(run[i].log) then PostImage(run[i].commit.value) else run[i].base)
  {
    RunInv(run, i);
    RunInv(run, j);
    DecisionStable(run, i, j);
  }

  /** Without a crash too: when no transaction is in progress the files are one of the two images. */
  lemma TransactionAtomicity(run: seq<State>, i: nat)
    requires IsRun(run) && i < |run| && run[i].mode == Idle
    ensures SameOriginals(run[i].dir, if run[i].commit.None? then run[i].base else PostImage(run[i].commit.value))
  {
    RunInv(run, i);
  }

  /** A replay in progress never throws, so recovery always gets to its end. */
  lemma RecoveryNeverThrows(run: seq<State>, i: nat)
    requires IsRun(run) && i < |run| && run[i].mode.Replaying?
    requires run[i].mode.pending == [] && run[i].mode.next < |run[i].log|
    ensures Expand(run[i].log[run[i].mode.next], run[i].pages, run[i].dir).Some?
  {
    RunInv(run, i);
    var s, c := run[i], run[i].commit.value;
    var cuts: seq<nat>, k: nat :| Progress(c, s.dir, s.mode, cuts, k);
    NextRecord(c, s.dir, s.mode.next, cuts, k);
  }
}
