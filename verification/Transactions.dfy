/** The transaction manager's two mutexes, and commit/rollback calls of the database over it, as steps of any number of
    threads (src/transaction/transaction_manager.cpp, src/main/include/database.h:128-156). */
module Transactions {
  import opened Wrappers

  const NO_WRITER: nat := 0x7FFF_FFFF_FFFF_FFFF // INT64_MAX

  datatype Transaction = Transaction(write: bool, id: nat)

  /** Where a thread is. `New` is the mutex for starting new transactions, `Public` the one that serializes the public
      functions. */
  datatype Pc =
    | Idle
    | BeginWantsNew(write: bool)
    | BeginWantsPublic(write: bool)      // holds New
    | BeginBody(write: bool)             // holds New, Public
    | BeginLeaves                        // holds New
    | EndWantsPublic(tx: Transaction, commit: bool)
    | EndBody(tx: Transaction, commit: bool) // holds Public
    | StopWantsPublic(tx: Transaction)   // stopNewTransactionsAndWaitUntilAllReadTransactionsLeave
    | StopWantsNew(tx: Transaction)      // holds Public
    | StopWaits(tx: Transaction)         // holds New, Public
    | TimedOut                           // threw out of the wait: holds New
    | Stopped(tx: Transaction)           // holds New; from here on the database commits and checkpoints
    | CommitBody(tx: Transaction)        // holds New, Public: commitButKeepActiveWriteTransaction
    | Checkpointing(tx: Transaction)     // holds New
    | ClearBody(tx: Transaction)         // holds New, Public: manuallyClearActiveWriteTransaction
    | Cleared                            // holds New; allowReceivingNewTransactions is next
    | Failed                             // threw after the stop: holds New
    | RollbackWantsPublic(tx: Transaction)
    | RollbackClear(tx: Transaction)     // holds Public

  datatype State = State(
    pc: map<nat, Pc>,
    publicHolder: Option<nat>, newHolder: Option<nat>,
    writer: nat, readers: set<nat>, lastID: nat, lastCommitID: nat,
    issued: seq<nat>,      // every transaction ID handed out, in order
    commits: seq<nat>,     // the COMMIT records in the log
    openWriters: set<nat>) // write transactions begun and not ended

  function At(s: State, t: nat): Pc {
    if t in s.pc then s.pc[t] else Idle
  }

  predicate HoldsNew(p: Pc) {
    match p
    case BeginWantsPublic(_) => true
    case BeginBody(_) => true
    case BeginLeaves => true
    case StopWaits(_) => true
    case TimedOut => true
    case _ => Quiet(p)
  }

  predicate HoldsPublic(p: Pc) {
    p.BeginBody? || p.EndBody? || p.StopWantsNew? || p.StopWaits? || p.CommitBody? || p.ClearBody? || p.RollbackClear?
  }

  /** Between a successful stop and the permission to start again. */
  predicate Quiet(p: Pc) {
    p.Stopped? || p.CommitBody? || p.Checkpointing? || p.ClearBody? || p.Cleared? || p.Failed?
  }

  datatype Call = CallBegin(write: bool) | CallEnd(tx: Transaction, commit: bool) | CallCommit(tx: Transaction)
                | CallRollback(tx: Transaction)

  /** Thread t starts a call, or makes its next step; `timeout` only matters while it waits. */
  datatype Action = Start(t: nat, call: Call) | Go(t: nat, timeout: bool)

  function First(c: Call): Pc {
    match c
    case CallBegin(w) => BeginWantsNew(w)
    case CallEnd(tx, commit) => EndWantsPublic(tx, commit)
    case CallCommit(tx) => StopWantsPublic(tx)
    case CallRollback(tx) => RollbackWantsPublic(tx)
  }

  /** A thread that wants a mutex can only go on when it is free; a waiting one when the readers are gone or on
      timeout. */
  predicate Enabled(s: State, a: Action) {
    match a
    case Start(t, _) => At(s, t) == Idle
    case Go(t, timeout) =>
      match At(s, t)
      case Idle => false
      case BeginWantsNew(_) => s.newHolder.None?
      case BeginWantsPublic(_) => s.publicHolder.None?
      case EndWantsPublic(_, _) => s.publicHolder.None?
      case StopWantsPublic(_) => s.publicHolder.None?
      case StopWantsNew(_) => s.newHolder.None?
      case StopWaits(_) => s.readers == {} <==> !timeout
      case TimedOut => false
      case Stopped(_) => s.publicHolder.None?
      case Checkpointing(_) => s.publicHolder.None?
      case Failed => false
      case RollbackWantsPublic(_) => s.publicHolder.None?
      case _ => true
  }

  function Goto(s: State, t: nat, p: Pc): State {
    s.(pc := s.pc[t := p])
  }

  function BeginTransaction(s: State, write: bool): State {
    if write && s.writer != NO_WRITER then s // throws
    else
      var id := s.lastID + 1;
      var s1 := s.(lastID := id, issued := s.issued + [id]);
      if write then s1.(writer := id, openWriters := s1.openWriters + {id})
      else s1.(readers := s1.readers + {id})
  }

  /** commitOrRollbackNoLock; None when it throws. */
  function CommitOrRollback(s: State, tx: Transaction, commit: bool): Option<State> {
    if !tx.write then Some(s.(readers := s.readers - {tx.id}))
    else if s.writer != tx.id then None
    else if commit then Some(s.(commits := s.commits + [tx.id], lastCommitID := s.lastCommitID + 1))
    else Some(s)
  }

  function ClearWriter(s: State, tx: Transaction): State {
    if tx.write then s.(writer := NO_WRITER, openWriters := s.openWriters - {tx.id}) else s
  }

  function EndTransaction(s: State, tx: Transaction, commit: bool): State {
    var r := CommitOrRollback(s, tx, commit);
    if r.None? then s else ClearWriter(r.value, tx)
  }

  function Next(s: State, a: Action): State {
    match a
    case Start(t, c) => Goto(s, t, First(c))
    case Go(t, timeout) =>
      match At(s, t)
      case BeginWantsNew(w) => Goto(s.(newHolder := Some(t)), t, BeginWantsPublic(w))
      case BeginWantsPublic(w) => Goto(s.(publicHolder := Some(t)), t, BeginBody(w))
      case BeginBody(w) => Goto(BeginTransaction(s, w).(publicHolder := None), t, BeginLeaves)
      case BeginLeaves => Goto(s.(newHolder := None), t, Idle)
      case EndWantsPublic(tx, c) => Goto(s.(publicHolder := Some(t)), t, EndBody(tx, c))
      case EndBody(tx, c) => Goto(EndTransaction(s, tx, c).(publicHolder := None), t, Idle)
      case StopWantsPublic(tx) => Goto(s.(publicHolder := Some(t)), t, StopWantsNew(tx))
      case StopWantsNew(tx) => Goto(s.(newHolder := Some(t)), t, StopWaits(tx))
      case StopWaits(tx) => Goto(s.(publicHolder := None), t, if timeout then TimedOut else Stopped(tx))
      case Stopped(tx) => Goto(s.(publicHolder := Some(t)), t, CommitBody(tx))
      case CommitBody(tx) =>
        var r := CommitOrRollback(s, tx, true);
        if r.None? then Goto(s.(publicHolder := None), t, Failed)
        else Goto(r.value.(publicHolder := None), t, Checkpointing(tx))
      case Checkpointing(tx) => Goto(s.(publicHolder := Some(t)), t, ClearBody(tx))
      case ClearBody(tx) =>
        if s.writer != tx.id then Goto(s.(publicHolder := None), t, Failed)
        else Goto(ClearWriter(s, tx).(publicHolder := None), t, Cleared)
      case Cleared => Goto(s.(newHolder := None), t, Idle)
      case RollbackWantsPublic(tx) => Goto(s.(publicHolder := Some(t)), t, RollbackClear(tx))
      case RollbackClear(tx) =>
        Goto((if s.writer != tx.id then s else ClearWriter(s, tx)).(publicHolder := None), t, Idle)
      case _ => s
  }

  const INITIAL := State(map[], None, None, NO_WRITER, {}, 0, 0, [], [], {})

  // ---------------------------------------------------------------------------------------------
  // What every step keeps
  // ---------------------------------------------------------------------------------------------

  ghost predicate Locks(s: State) {
    forall t: nat :: LocksOf(s, t)
  }

  /** No reader is active while a thread is between its stop and its permission. */
  ghost predicate Silence(s: State) {
    forall t: nat {:trigger At(s, t)} :: Quiet(At(s, t)) ==> s.readers == {}
  }

  ghost predicate Increasing(ids: seq<nat>) {
    forall i, j :: 0 <= i < j < |ids| ==> ids[i] < ids[j]
  }

  ghost predicate Numbers(s: State) {
    && Increasing(s.issued)
    && s.lastID == |s.issued| && (forall i :: 0 <= i < |s.issued| ==> s.issued[i] == i + 1)
    && s.lastCommitID == |s.commits|
  }

  /** As long as no ID has reached the value that stands for "no writer". */
  ghost predicate Writers(s: State) {
    s.lastID < NO_WRITER ==>
      (if s.writer == NO_WRITER then s.openWriters == {} else s.openWriters == {s.writer} && s.writer <= s.lastID)
  }

  ghost predicate Inv(s: State) {
    Locks(s) && Silence(s) && Numbers(s) && Writers(s)
  }

  ghost predicate LocksOf(s: State, t: nat) {
    (HoldsNew(At(s, t)) <==> s.newHolder == Some(t)) && (HoldsPublic(At(s, t)) <==> s.publicHolder == Some(t))
  }

  lemma OwnLocksKept(s: State, a: Action)
    requires LocksOf(s, a.t) && Enabled(s, a)
    ensures LocksOf(Next(s, a), a.t)
  {
  }

  lemma OtherLocksKept(s: State, a: Action, u: nat)
    requires LocksOf(s, a.t) && LocksOf(s, u) && Enabled(s, a) && u != a.t
    ensures LocksOf(Next(s, a), u)
  {
  }

  lemma LocksKept(s: State, a: Action)
    requires Locks(s) && Enabled(s, a)
    ensures Locks(Next(s, a))
  {
    forall u: nat ensures LocksOf(Next(s, a), u) {
      assert LocksOf(s, u) && LocksOf(s, a.t);
      if u == a.t {
        OwnLocksKept(s, a);
      } else {
        OtherLocksKept(s, a, u);
      }
    }
  }

  lemma SilenceKept(s: State, a: Action)
    requires Locks(s) && Silence(s) && Enabled(s, a)
    ensures Silence(Next(s, a))
  {
    var s' := Next(s, a);
    forall u: nat | Quiet(At(s', u)) ensures s'.readers == {} {
      assert LocksOf(s, u) && LocksOf(s, a.t) && At(s, u) == At(s, u);
    }
  }

  lemma NumbersKept(s: State, a: Action)
    requires Numbers(s) && Enabled(s, a)
    ensures Numbers(Next(s, a))
  {
  }

  lemma WritersKept(s: State, a: Action)
    requires Writers(s) && Numbers(s) && Enabled(s, a)
    ensures Writers(Next(s, a))
  {
  }

  lemma StepInv(s: State, a: Action)
    requires Inv(s) && Enabled(s, a)
    ensures Inv(Next(s, a))
  {
    LocksKept(s, a);
    SilenceKept(s, a);
    NumbersKept(s, a);
    WritersKept(s, a);
  }

  // ---------------------------------------------------------------------------------------------
  // Whole runs
  // ---------------------------------------------------------------------------------------------

  /** The states of a run of the given actions from the start. */
  ghost predicate IsRun(states: seq<State>, actions: seq<Action>) {
    && |states| == |actions| + 1 && states[0] == INITIAL
    && forall i :: 0 <= i < |actions| ==> Enabled(states[i], actions[i]) && states[i + 1] == Next(states[i], actions[i])
  }

  lemma {:induction false} RunInv(states: seq<State>, actions: seq<Action>, k: nat)
    requires IsRun(states, actions) && k < |states|
    ensures Inv(states[k])
    decreases k
  {
    if k > 0 {
      RunInv(states, actions, k - 1);
      StepInv(states[k - 1], actions[k - 1]);
    }
  }

  /** At most one write transaction is open, IDs strictly increase, lastCommitID counts the COMMIT records, and no
      reader is active while a thread commits and checkpoints. */
  lemma TransactionSafety(states: seq<State>, actions: seq<Action>, k: nat)
    requires IsRun(states, actions) && k < |states|
    ensures states[k].lastID < NO_WRITER ==> |states[k].openWriters| <= 1
    ensures Increasing(states[k].issued)
    ensures states[k].lastCommitID == |states[k].commits|
    ensures (exists t :: Quiet(At(states[k], t))) ==> states[k].readers == {}
  {
    RunInv(states, actions, k);
    var s := states[k];
    if t :| Quiet(At(s, t)) {
      assert s.readers == {};
    }
  }

  /** Thread t gives the permission to start new transactions. */
  predicate Allows(s: State, a: Action, t: nat) {
    a.Go? && a.t == t && At(s, t) == Cleared
  }

  /** Once t has stopped new transactions, no transaction begins until t allows it. */
  lemma {:induction false} SilenceUntilAllowed(states: seq<State>, actions: seq<Action>, t: nat, i: nat, k: nat)
    requires IsRun(states, actions) && i <= k < |states| && Quiet(At(states[i], t))
    requires forall m :: i <= m < k ==> !Allows(states[m], actions[m], t)
    ensures Quiet(At(states[k], t)) && states[k].readers == {}
    ensures states[k].issued == states[i].issued
    decreases k
  {
    RunInv(states, actions, k);
    if i < k {
      SilenceUntilAllowed(states, actions, t, i, k - 1);
      RunInv(states, actions, k - 1);
      QuietStep(states[k - 1], actions[k - 1], t);
    }
    assert Quiet(At(states[k], t));
  }

  lemma QuietStep(s: State, a: Action, t: nat)
    requires Inv(s) && Enabled(s, a) && Quiet(At(s, t)) && !Allows(s, a, t)
    ensures Quiet(At(Next(s, a), t)) && Next(s, a).issued == s.issued
  {
    assert LocksOf(s, t) && LocksOf(s, a.t);
  }

  /** While a thread waits for the readers, it holds the mutex they need to leave: the reader set cannot change. So a
      stop succeeds exactly when there is no reader at the moment it starts to wait; otherwise it can only time out. */
  lemma {:induction false} WaitingIsDecided(states: seq<State>, actions: seq<Action>, t: nat, i: nat, k: nat)
    requires IsRun(states, actions) && i <= k < |actions| && At(states[i], t).StopWaits?
    requires forall m :: i <= m < k ==> actions[m].t != t
    ensures At(states[k], t) == At(states[i], t) && states[k].readers == states[i].readers
    ensures actions[k].t == t ==> (At(states[k + 1], t).Stopped? <==> states[i].readers == {})
    decreases k
  {
    if i < k {
      WaitingIsDecided(states, actions, t, i, k - 1);
      RunInv(states, actions, k - 1);
      WaitingStep(states[k - 1], actions[k - 1], t);
    }
  }

  lemma WaitingStep(s: State, a: Action, t: nat)
    requires Inv(s) && Enabled(s, a) && At(s, t).StopWaits? && a.t != t
    ensures At(Next(s, a), t) == At(s, t) && Next(s, a).readers == s.readers
  {
    assert LocksOf(s, t) && LocksOf(s, a.t);
  }

  // ---------------------------------------------------------------------------------------------
  // The sentinel
  // ---------------------------------------------------------------------------------------------

  /** Beginning a write transaction lets a second one in exactly when the first one's ID is the sentinel. */
  lemma SecondWriterExact(s: State)
    requires s.writer == NO_WRITER && s.openWriters == {}
    ensures var s1 := BeginTransaction(s, true);
            |BeginTransaction(s1, true).openWriters| == 2 <==> s.lastID + 1 == NO_WRITER
  {
    var id := s.lastID + 1;
    var s1 := BeginTransaction(s, true);
    assert s1.openWriters == {id};
    if id == NO_WRITER {
      assert BeginTransaction(s1, true).openWriters == {id, id + 1};
    }
  }
}
