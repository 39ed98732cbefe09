/** The worker pool as a step machine: any number of worker threads and of client threads inside
    scheduleTaskAndWaitOrError, in any interleaving
    (src/common/task_system/task_scheduler.cpp:59-149, src/common/task_system/task.cpp:8-23). */
module TaskScheduling {
  import opened Wrappers
  import opened TaskTrees

  /** Counters of a task under its mutex. `calls`, `threw` and `finalizer` record the calls of finalizeIfNecessary: how
      many, whether one threw, and which worker made the last. */
  datatype TaskState = TaskState(reg: nat, fin: nat, exc: bool, calls: nat, threw: bool, finalizer: nat)

  const FRESH := TaskState(0, 0, false, 0, false, 0)

  datatype Worker =
    | Resting
    | Scanning(i: nat)           // inside getTaskAndRegister, holds the scheduler's mutex
    | Checking(i: nat)           // registering failed; is the task completed successfully?
    | Running(x: Task)
    | Caught(x: Task)            // run() threw
    | CaughtSet(x: Task)         // and setException was called
    | FinalizeCaught(x: Task)    // finalizeIfNecessary() threw out of the deregistration
    | FinalizeCaughtSet(x: Task)

  datatype Phase = Descending | Waiting | Testing | Removing | Thrown | Returned

  datatype Client = Client(root: Task, stack: seq<Activation>, phase: Phase, sid: nat, done: seq<Task>)

  datatype Scheduled = Scheduled(task: Task, sid: nat)

  datatype State = State(tasks: map<nat, TaskState>, queue: seq<Scheduled>, nextSid: nat, mtx: Option<nat>,
                         workers: map<nat, Worker>, clients: map<nat, Client>)

  function T(s: State, y: nat): TaskState {
    if y in s.tasks then s.tasks[y] else FRESH
  }

  function W(s: State, w: nat): Worker {
    if w in s.workers then s.workers[w] else Resting
  }

  predicate Completed(t: TaskState) {
    t.reg > 0 && t.fin == t.reg
  }

  function Top(c: Client): Activation
    requires c.stack != []
  {
    c.stack[|c.stack| - 1]
  }

  datatype Outcome = Fine | RunThrows | FinalizeThrows

  datatype Action = WorkerStep(w: nat, outcome: Outcome) | ClientStep(c: nat)

  predicate Enabled(s: State, a: Action) {
    match a
    case WorkerStep(w, _) => W(s, w) == Resting ==> s.mtx.None?
    case ClientStep(c) =>
      && c in s.clients && s.clients[c].stack != []
      && match s.clients[c].phase
         case Descending => Top(s.clients[c]).next >= |Top(s.clients[c]).task.children| ==> s.mtx.None?
         case Waiting => Completed(T(s, Top(s.clients[c]).task.id))
         case Testing => true
         case Removing => s.mtx.None?
         case _ => false
  }

  function SetWorker(s: State, w: nat, p: Worker): State {
    s.(workers := s.workers[w := p])
  }

  function SetTask(s: State, y: nat, t: TaskState): State {
    s.(tasks := s.tasks[y := t])
  }

  /** deRegisterThreadAndFinalizeTaskIfNecessary */
  function Deregister(s: State, w: nat, x: Task, throws: bool): State {
    var t := T(s, x.id);
    var t1 := t.(fin := t.fin + 1);
    if !t1.exc && Completed(t1) then
      SetWorker(SetTask(s, x.id, t1.(calls := t1.calls + 1, threw := t1.threw || throws, finalizer := w)), w,
                if throws then FinalizeCaught(x) else Resting)
    else SetWorker(SetTask(s, x.id, t1), w, Resting)
  }

  predicate CanRegister(t: TaskState, x: Task) {
    !t.exc && t.fin == 0 && x.max > t.reg
  }

  function NextWorker(s: State, w: nat, outcome: Outcome): State {
    match W(s, w)
    case Resting => SetWorker(s.(mtx := Some(w)), w, Scanning(0))
    case Scanning(i) =>
      if i >= |s.queue| then SetWorker(s.(mtx := None), w, Resting)
      else
        var x := s.queue[i].task;
        var t := T(s, x.id);
        if CanRegister(t, x) then SetWorker(SetTask(s, x.id, t.(reg := t.reg + 1)).(mtx := None), w, Running(x))
        else SetWorker(s, w, Checking(i))
    case Checking(i) =>
      if i < |s.queue| && Completed(T(s, s.queue[i].task.id)) && !T(s, s.queue[i].task.id).exc then
        SetWorker(s.(queue := s.queue[..i] + s.queue[i + 1..]), w, Scanning(i))
      else SetWorker(s, w, Scanning(i + 1))
    case Running(x) =>
      if outcome == RunThrows then SetWorker(s, w, Caught(x)) else Deregister(s, w, x, outcome == FinalizeThrows)
    case Caught(x) => SetWorker(SetTask(s, x.id, T(s, x.id).(exc := true)), w, CaughtSet(x))
    case CaughtSet(x) => Deregister(s, w, x, outcome == FinalizeThrows)
    case FinalizeCaught(x) => SetWorker(SetTask(s, x.id, T(s, x.id).(exc := true)), w, FinalizeCaughtSet(x))
    case FinalizeCaughtSet(x) => Deregister(s, w, x, outcome == FinalizeThrows)
  }

  function RemoveFirst(q: seq<Scheduled>, sid: nat): seq<Scheduled> {
    if q == [] then [] else if q[0].sid == sid then q[1..] else [q[0]] + RemoveFirst(q[1..], sid)
  }

  function SetClient(s: State, c: nat, cl: Client): State {
    s.(clients := s.clients[c := cl])
  }

  /** The activation of a task that was found successful returns. */
  function Popped(cl: Client): Client
    requires cl.stack != []
  {
    var rest := cl.stack[..|cl.stack| - 1];
    cl.(stack := rest, done := cl.done + [Top(cl).task], phase := if rest == [] then Returned else Descending)
  }

  /** One step of scheduleTaskAndWaitOrError: call into a dependency, schedule, find the task completed, test for an
      exception and return or rethrow. */
  function NextClient(s: State, c: nat): State
    requires Enabled(s, ClientStep(c))
  {
    var cl := s.clients[c];
    var top := Top(cl);
    match cl.phase
    case Descending =>
      if top.next < |top.task.children| then SetClient(s, c, cl.(stack := Push(cl.stack)))
      else
        SetClient(s.(queue := s.queue + [Scheduled(top.task, s.nextSid)], nextSid := s.nextSid + 1), c,
                  cl.(phase := Waiting, sid := s.nextSid))
    case Waiting => SetClient(s, c, cl.(phase := Testing))
    case Testing =>
      if T(s, top.task.id).exc then SetClient(s, c, cl.(phase := Removing))
      else
        SetClient(s, c, Popped(cl))
    case Removing => SetClient(s.(queue := RemoveFirst(s.queue, cl.sid)), c, cl.(phase := Thrown))
    case _ => s
  }

  function Next(s: State, a: Action): State
    requires Enabled(s, a)
  {
    match a
    case WorkerStep(w, o) => NextWorker(s, w, o)
    case ClientStep(c) => NextClient(s, c)
  }

  ghost predicate IsInitial(s: State) {
    && s.tasks == map[] && s.queue == [] && s.mtx == None && s.workers == map[]
    && forall c :: c in s.clients ==>
       s.clients[c] == Client(s.clients[c].root, [Activation(s.clients[c].root, 0)], Descending, 0, [])
  }

  // ---------------------------------------------------------------------------------------------
  // Counters
  // ---------------------------------------------------------------------------------------------

  /** The worker is registered with task y and has not deregistered yet. */
  predicate Works(p: Worker, y: nat) {
    (p.Running? || p.Caught? || p.CaughtSet?) && p.x.id == y
  }

  function Active(s: State, y: nat): set<nat> {
    set w | w in s.workers && Works(s.workers[w], y)
  }

  /** What holds of a task's counters when n workers are registered and not deregistered. */
  predicate CountsOk(t: TaskState, n: nat) {
    if t.calls == 0 then
      n + t.fin == t.reg && !t.threw && (Completed(t) ==> t.exc)
    else
      && t.calls == 1 && n == 0 && t.reg > 0 && (t.exc ==> t.threw)
      && (t.fin == t.reg || (t.fin == t.reg + 1 && t.exc))
  }

  ghost predicate TaskInv(s: State, y: nat) {
    CountsOk(T(s, y), |Active(s, y)|)
  }

  ghost predicate WorkerInv(s: State, w: nat) {
    match W(s, w)
    case CaughtSet(x) => T(s, x.id).exc
    case FinalizeCaught(x) => FinalizedBy(T(s, x.id), w) && !T(s, x.id).exc
    case FinalizeCaughtSet(x) => FinalizedBy(T(s, x.id), w) && T(s, x.id).exc
    case _ => true
  }

  ghost predicate FinalizedBy(t: TaskState, w: nat) {
    t.calls == 1 && t.threw && t.finalizer == w && t.fin == t.reg
  }

  /** Its worker has not called setException yet. */
  predicate InWindow(s: State, y: nat) {
    W(s, T(s, y).finalizer).FinalizeCaught? && W(s, T(s, y).finalizer).x.id == y
  }

  /** It has, and has not deregistered a second time yet. */
  predicate ExceptionSet(s: State, y: nat) {
    W(s, T(s, y).finalizer).FinalizeCaughtSet? && W(s, T(s, y).finalizer).x.id == y
  }

  /** What a finalizeIfNecessary that threw leaves behind, by where its worker is. */
  ghost predicate FailureInv(s: State, y: nat) {
    var t := T(s, y);
    t.threw ==>
      && t.calls == 1 && (t.exc <==> !InWindow(s, y))
      && t.fin == if InWindow(s, y) || ExceptionSet(s, y) then t.reg else t.reg + 1
  }

  ghost predicate Counters(s: State) {
    && (forall y: nat {:trigger TaskInv(s, y)} :: TaskInv(s, y))
    && (forall y: nat {:trigger FailureInv(s, y)} :: FailureInv(s, y))
    && (forall w: nat {:trigger WorkerInv(s, w)} :: WorkerInv(s, w))
  }

  /** The workers on a task after one worker moved. */
  lemma ActiveAfter(s: State, s': State, w: nat, p: Worker, y: nat)
    requires s'.workers == s.workers[w := p]
    ensures Active(s', y) == if Works(p, y) then Active(s, y) + {w} else Active(s, y) - {w}
    ensures w in Active(s, y) <==> Works(W(s, w), y)
    ensures |Active(s', y)| == |Active(s, y)| + (if Works(p, y) then 1 else 0) - if Works(W(s, w), y) then 1 else 0
  {
    var a := Active(s, y);
    if w in a {
      assert a == (a - {w}) + {w};
    }
  }

  function Registered(p: Worker, y: nat): nat {
    if Works(p, y) then 1 else 0
  }

  /** The counters of y are fine after a step of w if they fit the number of workers then. */
  lemma TaskInvAfter(s: State, s': State, w: nat, p: Worker, y: nat)
    requires s'.workers == s.workers[w := p] && TaskInv(s, y)
    requires var n := |Active(s, y)| + Registered(p, y) - Registered(W(s, w), y);
             |Active(s, y)| >= Registered(W(s, w), y) ==> CountsOk(T(s', y), n)
    ensures TaskInv(s', y)
  {
    ActiveAfter(s, s', w, p, y);
    if Works(W(s, w), y) {
      assert w in Active(s, y);
    }
  }

  /** Deregistering from task y as worker w, on the counters alone. */
  function Deregistered(t: TaskState, w: nat, throws: bool): TaskState {
    var t1 := t.(fin := t.fin + 1);
    if !t1.exc && Completed(t1) then t1.(calls := t1.calls + 1, threw := t1.threw || throws, finalizer := w) else t1
  }

  lemma DeregisterEffect(s: State, w: nat, x: Task, throws: bool)
    ensures var s' := Deregister(s, w, x, throws);
            && s'.tasks == s.tasks[x.id := Deregistered(T(s, x.id), w, throws)]
            && s'.workers == s.workers[w := W(s', w)] && !Works(W(s', w), x.id)
            && (W(s', w) != Resting ==> W(s', w) == FinalizeCaught(x) && T(s', x.id).threw)
            && (forall y :: !Works(W(s', w), y))
  {
  }

  predicate Deregisters(p: Worker, o: Outcome) {
    (p.Running? && o != RunThrows) || p.CaughtSet? || p.FinalizeCaughtSet?
  }

  lemma DeregisterKeeps(s: State, w: nat, o: Outcome, y: nat)
    requires TaskInv(s, y) && WorkerInv(s, w) && Deregisters(W(s, w), o)
    ensures TaskInv(NextWorker(s, w, o), y)
  {
    var s', p := NextWorker(s, w, o), W(s, w);
    DeregisterEffect(s, w, p.x, o == FinalizeThrows);
    TaskInvAfter(s, s', w, W(s', w), y);
  }

  lemma TaskInvKept(s: State, w: nat, o: Outcome, y: nat)
    requires TaskInv(s, y) && WorkerInv(s, w)
    ensures TaskInv(NextWorker(s, w, o), y)
  {
    if Deregisters(W(s, w), o) {
      DeregisterKeeps(s, w, o, y);
    } else {
      var s' := NextWorker(s, w, o);
      TaskInvAfter(s, s', w, W(s', w), y);
    }
  }

  lemma ActiveWorker(s: State, w: nat, y: nat)
    requires Works(W(s, w), y) && TaskInv(s, y)
    ensures T(s, y).calls == 0 && T(s, y).fin < T(s, y).reg
  {
    assert w in Active(s, y);
  }

  lemma WorkerInvSelf(s: State, w: nat, o: Outcome)
    requires WorkerInv(s, w) && forall y: nat {:trigger TaskInv(s, y)} :: TaskInv(s, y)
    ensures WorkerInv(NextWorker(s, w, o), w)
  {
    var p := W(s, w);
    if p.Running? {
      assert TaskInv(s, p.x.id);
      ActiveWorker(s, w, p.x.id);
    }
  }

  /** The counters of a task one worker's finalize threw on are not touched by any other worker. */
  lemma FinalizedStays(s: State, w: nat, o: Outcome, v: nat, y: nat)
    requires v != w && FinalizedBy(T(s, y), v) && TaskInv(s, y) && WorkerInv(s, w)
    ensures T(NextWorker(s, w, o), y) == T(s, y)
  {
    if Works(W(s, w), y) {
      ActiveWorker(s, w, y);
      assert false;
    }
  }

  lemma ExceptionStays(s: State, w: nat, o: Outcome, y: nat)
    requires T(s, y).exc
    ensures T(NextWorker(s, w, o), y).exc
  {
  }

  lemma WorkerInvOther(s: State, w: nat, o: Outcome, v: nat)
    requires Counters(s) && v != w
    ensures WorkerInv(NextWorker(s, w, o), v)
  {
    var s', p := NextWorker(s, w, o), W(s, v);
    assert WorkerInv(s, v) && WorkerInv(s, w);
    assert W(s', v) == p;
    if p.CaughtSet? {
      ExceptionStays(s, w, o, p.x.id);
    } else if p.FinalizeCaught? || p.FinalizeCaughtSet? {
      assert TaskInv(s, p.x.id);
      FinalizedStays(s, w, o, v, p.x.id);
    }
  }

  /** A worker that makes finalizeIfNecessary throw is at the window then. */
  lemma FailureBegins(s: State, w: nat, o: Outcome, y: nat)
    requires TaskInv(s, y) && WorkerInv(s, w) && !T(s, y).threw
    ensures FailureInv(NextWorker(s, w, o), y)
  {
    if Works(W(s, w), y) {
      ActiveWorker(s, w, y);
    }
  }

  lemma FailureGoesOn(s: State, w: nat, o: Outcome, y: nat)
    requires TaskInv(s, y) && FailureInv(s, y) && WorkerInv(s, w) && T(s, y).threw
    ensures FailureInv(NextWorker(s, w, o), y)
  {
    assert !Works(W(s, w), y) by {
      if Works(W(s, w), y) {
        ActiveWorker(s, w, y);
      }
    }
  }

  lemma FailureInvKept(s: State, w: nat, o: Outcome, y: nat)
    requires TaskInv(s, y) && FailureInv(s, y) && WorkerInv(s, w)
    ensures FailureInv(NextWorker(s, w, o), y)
  {
    if T(s, y).threw {
      FailureGoesOn(s, w, o, y);
    } else {
      FailureBegins(s, w, o, y);
    }
  }

  lemma CountersKept(s: State, a: Action)
    requires Counters(s) && Enabled(s, a)
    ensures Counters(Next(s, a))
  {
    var s' := Next(s, a);
    forall y: nat ensures TaskInv(s', y) {
      assert TaskInv(s, y);
      if a.WorkerStep? {
        assert WorkerInv(s, a.w);
        TaskInvKept(s, a.w, a.outcome, y);
      } else {
        assert T(s', y) == T(s, y) && Active(s', y) == Active(s, y);
      }
    }
    forall y: nat ensures FailureInv(s', y) {
      assert TaskInv(s, y) && FailureInv(s, y);
      if a.WorkerStep? {
        assert WorkerInv(s, a.w);
        FailureInvKept(s, a.w, a.outcome, y);
      } else {
        assert T(s', y) == T(s, y) && W(s', T(s, y).finalizer) == W(s, T(s, y).finalizer);
      }
    }
    forall v: nat ensures WorkerInv(s', v) {
      assert WorkerInv(s, v);
      if a.WorkerStep? {
        if v == a.w {
          WorkerInvSelf(s, v, a.outcome);
        } else {
          WorkerInvOther(s, a.w, a.outcome, v);
        }
      } else {
        assert forall y :: T(s', y) == T(s, y);
      }
    }
  }

  // ---------------------------------------------------------------------------------------------
  // Success is final
  // ---------------------------------------------------------------------------------------------

  /** Threads worked on the task, all of them finished, and finalizeIfNecessary was called once; an exception can only
      come from that call. */
  predicate Succeeded(t: TaskState) {
    t.reg > 0 && t.fin >= t.reg && t.calls == 1 && (t.exc ==> t.threw)
  }

  lemma SuccessIsFinal(s: State, a: Action, y: nat)
    requires Counters(s) && Enabled(s, a) && Succeeded(T(s, y))
    ensures Succeeded(T(Next(s, a), y))
  {
    CountersKept(s, a);
    assert TaskInv(s, y) && TaskInv(Next(s, a), y);
    if a.WorkerStep? {
      CallsGrow(s, a.w, a.outcome, y);
    }
  }

  lemma CallsGrow(s: State, w: nat, o: Outcome, y: nat)
    ensures T(NextWorker(s, w, o), y).calls >= T(s, y).calls
    ensures T(NextWorker(s, w, o), y).reg >= T(s, y).reg
  {
  }

  /** A task found completed and then found without exception has succeeded. */
  lemma CompletedWithoutException(s: State, y: nat)
    requires TaskInv(s, y) && T(s, y).reg > 0 && T(s, y).fin >= T(s, y).reg && !T(s, y).exc
    ensures Succeeded(T(s, y))
  {
  }

  predicate Finished(t: TaskState) {
    t.reg > 0 && t.fin >= t.reg
  }

  lemma FinishedIsFinal(s: State, a: Action, y: nat)
    requires Enabled(s, a) && Finished(T(s, y))
    ensures Finished(T(Next(s, a), y))
  {
  }

  // ---------------------------------------------------------------------------------------------
  // Clients
  // ---------------------------------------------------------------------------------------------

  predicate AtTask(p: Phase) {
    p == Waiting || p == Testing || p == Removing || p == Thrown
  }

  ghost predicate ClientShape(cl: Client) {
    && cl.done + Pending(cl.stack) == PostOrder(cl.root)
    && (forall i :: 0 <= i < |cl.stack| ==> cl.stack[i].next <= |cl.stack[i].task.children|)
    && (cl.phase == Returned <==> cl.stack == [])
    && (AtTask(cl.phase) ==> Top(cl).next == |Top(cl).task.children|)
  }

  ghost predicate ClientInv(s: State, c: nat)
    requires c in s.clients
  {
    var cl := s.clients[c];
    && ClientShape(cl)
    && (cl.phase == Testing ==> Finished(T(s, Top(cl).task.id)))
    && forall x :: x in cl.done ==> Succeeded(T(s, x.id))
  }

  /** The client has put task x into the queue. */
  ghost predicate ScheduledBy(cl: Client, x: Task) {
    x in cl.done || (AtTask(cl.phase) && cl.stack != [] && Top(cl).task == x)
  }

  ghost predicate IsScheduled(s: State, x: Task) {
    exists c :: c in s.clients && ScheduledBy(s.clients[c], x)
  }

  ghost predicate Clients(s: State) {
    forall c {:trigger ClientInv(s, c)} :: c in s.clients ==> ClientInv(s, c)
  }

  ghost predicate Queue(s: State) {
    && (forall i :: 0 <= i < |s.queue| ==> IsScheduled(s, s.queue[i].task))
    && (forall w: nat {:trigger W(s, w)} :: HasTask(W(s, w)) ==> IsScheduled(s, W(s, w).x))
  }

  predicate HasTask(p: Worker) {
    !p.Resting? && !p.Scanning? && !p.Checking?
  }

  ghost predicate Inv(s: State) {
    Counters(s) && Clients(s) && Queue(s)
  }

  lemma PushShape(cl: Client)
    requires ClientShape(cl) && cl.phase == Descending && Top(cl).next < |Top(cl).task.children|
    ensures ClientShape(cl.(stack := Push(cl.stack)))
  {
    PushPending(cl.stack);
    var stack := Push(cl.stack);
    forall i | 0 <= i < |stack| ensures stack[i].next <= |stack[i].task.children| {
      assert i < |cl.stack| - 1 ==> stack[i] == cl.stack[i];
    }
  }

  lemma PopShape(cl: Client)
    requires ClientShape(cl) && cl.phase == Testing
    ensures ClientShape(Popped(cl))
  {
    ReturnPending(cl.stack);
    var rest := cl.stack[..|cl.stack| - 1];
    assert cl.done + ([Top(cl).task] + Pending(rest)) == (cl.done + [Top(cl).task]) + Pending(rest);
  }

  lemma PhaseShape(cl: Client, p: Phase, sid: nat)
    requires ClientShape(cl) && cl.stack != [] && p != Returned
    requires AtTask(p) ==> Top(cl).next == |Top(cl).task.children|
    ensures ClientShape(cl.(phase := p, sid := sid))
  {
  }

  lemma ShapeKept(s: State, c: nat)
    requires Enabled(s, ClientStep(c)) && ClientShape(s.clients[c])
    ensures ClientShape(NextClient(s, c).clients[c])
  {
    var cl := s.clients[c];
    var next := NextClient(s, c).clients[c];
    if cl.phase == Descending && Top(cl).next < |Top(cl).task.children| {
      PushShape(cl);
    } else if cl.phase == Testing && !T(s, Top(cl).task.id).exc {
      PopShape(cl);
    } else {
      assert Top(cl) == cl.stack[|cl.stack| - 1];
      PhaseShape(cl, next.phase, next.sid);
      assert next == cl.(phase := next.phase, sid := next.sid);
    }
  }

  lemma DoneKept(s: State, a: Action, c: nat)
    requires Counters(s) && Enabled(s, a) && c in s.clients && ClientInv(s, c)
    ensures forall x :: x in s.clients[c].done ==> Succeeded(T(Next(s, a), x.id))
  {
    forall x | x in s.clients[c].done ensures Succeeded(T(Next(s, a), x.id)) {
      SuccessIsFinal(s, a, x.id);
    }
  }

  /** The test lets the client past a task that succeeded. */
  lemma PassedSucceeded(s: State, c: nat)
    requires Counters(s) && c in s.clients && ClientInv(s, c) && s.clients[c].phase == Testing
    ensures !T(s, Top(s.clients[c]).task.id).exc ==> Succeeded(T(s, Top(s.clients[c]).task.id))
  {
    var y := Top(s.clients[c]).task.id;
    assert TaskInv(s, y);
    if !T(s, y).exc {
      CompletedWithoutException(s, y);
    }
  }

  lemma ClientInvSelf(s: State, c: nat)
    requires Counters(s) && Enabled(s, ClientStep(c)) && ClientInv(s, c)
    ensures ClientInv(NextClient(s, c), c)
  {
    if s.clients[c].phase == Testing {
      PassedSucceeded(s, c);
    }
    ClientStepKeeps(s, c);
  }

  lemma ClientStepKeeps(s: State, c: nat)
    requires Enabled(s, ClientStep(c)) && ClientInv(s, c)
    requires var cl := s.clients[c];
             cl.phase == Testing && !T(s, Top(cl).task.id).exc ==> Succeeded(T(s, Top(cl).task.id))
    ensures ClientInv(NextClient(s, c), c)
  {
    var cl, s' := s.clients[c], NextClient(s, c);
    ShapeKept(s, c);
    assert s'.tasks == s.tasks;
    assert forall x :: x in s'.clients[c].done ==> x in cl.done || x == Top(cl).task;
  }

  lemma ClientInvKept(s: State, a: Action, c: nat)
    requires Counters(s) && Enabled(s, a) && c in s.clients && ClientInv(s, c)
    ensures ClientInv(Next(s, a), c)
  {
    if a == ClientStep(c) {
      ClientInvSelf(s, c);
    } else {
      var cl := s.clients[c];
      DoneKept(s, a, c);
      if cl.phase == Testing {
        FinishedIsFinal(s, a, Top(cl).task.id);
      }
      assert Next(s, a).clients[c] == cl;
    }
  }

  lemma ScheduledStays(s: State, a: Action, x: Task)
    requires Enabled(s, a) && IsScheduled(s, x)
    ensures IsScheduled(Next(s, a), x)
  {
    var c :| c in s.clients && ScheduledBy(s.clients[c], x);
    assert ScheduledBy(Next(s, a).clients[c], x);
  }

  lemma {:induction false} RemoveFirstMembers(q: seq<Scheduled>, sid: nat)
    ensures forall e :: e in RemoveFirst(q, sid) ==> e in q
  {
    if q != [] {
      RemoveFirstMembers(q[1..], sid);
    }
  }

  /** What is in the queue after a step was there before or has just been scheduled. */
  lemma QueueAfter(s: State, a: Action, e: Scheduled)
    requires Enabled(s, a) && e in Next(s, a).queue
    ensures e in s.queue || IsScheduled(Next(s, a), e.task)
  {
    if a.ClientStep? {
      var cl := s.clients[a.c];
      RemoveFirstMembers(s.queue, cl.sid);
      if e !in s.queue {
        assert ScheduledBy(Next(s, a).clients[a.c], e.task);
      }
    }
  }

  lemma QueuedKept(s: State, a: Action, e: Scheduled)
    requires Queue(s) && Enabled(s, a) && e in Next(s, a).queue
    ensures IsScheduled(Next(s, a), e.task)
  {
    QueueAfter(s, a, e);
    if e in s.queue {
      ScheduledStays(s, a, e.task);
    }
  }

  lemma WorkerTaskKept(s: State, a: Action, w: nat)
    requires Queue(s) && Enabled(s, a) && HasTask(W(Next(s, a), w))
    ensures IsScheduled(Next(s, a), W(Next(s, a), w).x)
  {
    var p := W(s, w);
    if HasTask(p) {
      assert W(Next(s, a), w).x == p.x;
      ScheduledStays(s, a, p.x);
    } else {
      assert a.WorkerStep? && a.w == w && p.Scanning? && p.i < |s.queue|;
      ScheduledStays(s, a, s.queue[p.i].task);
    }
  }

  lemma QueueKept(s: State, a: Action)
    requires Queue(s) && Enabled(s, a)
    ensures Queue(Next(s, a))
  {
    var s' := Next(s, a);
    forall i | 0 <= i < |s'.queue| ensures IsScheduled(s', s'.queue[i].task) {
      QueuedKept(s, a, s'.queue[i]);
    }
    forall w: nat | HasTask(W(s', w)) ensures IsScheduled(s', W(s', w).x) {
      WorkerTaskKept(s, a, w);
    }
  }

  lemma StepInv(s: State, a: Action)
    requires Inv(s) && Enabled(s, a)
    ensures Inv(Next(s, a))
  {
    var s' := Next(s, a);
    CountersKept(s, a);
    forall c | c in s'.clients ensures ClientInv(s', c) {
      assert ClientInv(s, c);
      ClientInvKept(s, a, c);
    }
    QueueKept(s, a);
  }

  lemma InitialInv(s: State)
    requires IsInitial(s)
    ensures Inv(s)
  {
    forall y: nat ensures TaskInv(s, y) {
      assert Active(s, y) == {};
    }
    forall c | c in s.clients ensures ClientInv(s, c) {
      var root := s.clients[c].root;
      assert root.children[0..] == root.children;
      assert Pending([]) == [];
      assert [Activation(root, 0)][..0] == [];
    }
  }

  // ---------------------------------------------------------------------------------------------
  // Whole runs
  // ---------------------------------------------------------------------------------------------

  ghost predicate IsRun(states: seq<State>, actions: seq<Action>) {
    && |states| == |actions| + 1 && IsInitial(states[0])
    && forall i :: 0 <= i < |actions| ==> Enabled(states[i], actions[i]) && states[i + 1] == Next(states[i], actions[i])
  }

  lemma {:induction false} RunInv(states: seq<State>, actions: seq<Action>, k: nat)
    requires IsRun(states, actions) && k < |states|
    ensures Inv(states[k])
    decreases k
  {
    if k == 0 {
      InitialInv(states[0]);
    } else {
      RunInv(states, actions, k - 1);
      StepInv(states[k - 1], actions[k - 1]);
    }
  }

  /** The dependencies of a scheduled task have all succeeded. */
  lemma ScheduledAfterDependencies(s: State, x: Task, d: Task)
    requires Inv(s) && IsScheduled(s, x) && Below(d, x)
    ensures Succeeded(T(s, d.id))
  {
    var c :| c in s.clients && ScheduledBy(s.clients[c], x);
    var cl := s.clients[c];
    assert ClientInv(s, c);
    var order := PostOrder(cl.root);
    PostOrderDependencies(cl.root);
    var i: nat;
    if x in cl.done {
      i :| 0 <= i < |cl.done| && cl.done[i] == x;
    } else {
      i := |cl.done|;
      ReturnPending(cl.stack);
    }
    assert order[i] == x;
    assert d in order[..i];
    assert order[..i] == cl.done[..i];
  }

  /** A thread works on a task only after every task below it has been worked on by all its threads without one of them
      throwing, and was finalized. */
  lemma RunsAfterDependencies(states: seq<State>, actions: seq<Action>, k: nat, w: nat, d: Task)
    requires IsRun(states, actions) && k < |states|
    requires HasTask(W(states[k], w)) && Below(d, W(states[k], w).x)
    ensures Succeeded(T(states[k], d.id))
  {
    RunInv(states, actions, k);
    ScheduledAfterDependencies(states[k], W(states[k], w).x, d);
  }

  /** finalizeIfNecessary runs at most once per task, and when it runs every registered thread has finished. */
  lemma FinalizeOnce(states: seq<State>, actions: seq<Action>, k: nat, y: nat)
    requires IsRun(states, actions) && k < |states|
    ensures T(states[k], y).calls <= 1
    ensures T(states[k], y).calls == 1 ==> Active(states[k], y) == {} && T(states[k], y).reg > 0
    ensures k > 0 && T(states[k], y).calls > T(states[k - 1], y).calls ==>
              T(states[k], y).fin == T(states[k], y).reg && !T(states[k], y).exc
  {
    RunInv(states, actions, k);
    assert TaskInv(states[k], y);
    if k > 0 {
      FinalizeWhen(states[k - 1], actions[k - 1], y);
    }
  }

  lemma FinalizeWhen(s: State, a: Action, y: nat)
    requires Enabled(s, a)
    ensures var t := T(Next(s, a), y);
            t.calls > T(s, y).calls ==> t.fin == t.reg && !t.exc
  {
  }

  /** A normal return of scheduleTaskAndWaitOrError: the task and everything below it was finalized exactly once. */
  lemma ReturnMeansFinalized(states: seq<State>, actions: seq<Action>, k: nat, c: nat, d: Task)
    requires IsRun(states, actions) && k < |states| && c in states[k].clients && states[k].clients[c].phase == Returned
    requires d == states[k].clients[c].root || Below(d, states[k].clients[c].root)
    ensures Succeeded(T(states[k], d.id))
  {
    RunInv(states, actions, k);
    var cl := states[k].clients[c];
    assert ClientInv(states[k], c);
    assert Pending([]) == [];
    assert cl.done == PostOrder(cl.root);
    assert d in PostOrder(cl.root);
  }

  // ---------------------------------------------------------------------------------------------
  // When finalizeIfNecessary throws
  // ---------------------------------------------------------------------------------------------

  ghost predicate FinalizeNeverThrows(actions: seq<Action>) {
    forall i :: 0 <= i < |actions| && actions[i].WorkerStep? ==> actions[i].outcome != FinalizeThrows
  }

  lemma {:induction false} NoFinalizeFailure(states: seq<State>, actions: seq<Action>, k: nat, y: nat)
    requires IsRun(states, actions) && k < |states| && FinalizeNeverThrows(actions)
    ensures !T(states[k], y).threw
    decreases k
  {
    if k > 0 {
      NoFinalizeFailure(states, actions, k - 1, y);
      NoFailureStep(states[k - 1], actions[k - 1], y);
    }
  }

  lemma NoFailureStep(s: State, a: Action, y: nat)
    requires Enabled(s, a) && !T(s, y).threw && (a.WorkerStep? ==> a.outcome != FinalizeThrows)
    ensures !T(Next(s, a), y).threw
  {
  }

  /** In every reachable state: an exception is missing although finalizeIfNecessary threw if and only if its worker is
      between the throw and setException. */
  lemma FailureExact(states: seq<State>, actions: seq<Action>, k: nat, y: nat)
    requires IsRun(states, actions) && k < |states|
    ensures T(states[k], y).threw && !T(states[k], y).exc <==> InWindow(states[k], y)
    ensures T(states[k], y).threw && !InWindow(states[k], y) && !ExceptionSet(states[k], y)
            <==> T(states[k], y).fin > T(states[k], y).reg
    ensures T(states[k], y).fin <= T(states[k], y).reg + 1
  {
    RunInv(states, actions, k);
    var s := states[k];
    assert TaskInv(s, y) && FailureInv(s, y) && WorkerInv(s, T(s, y).finalizer);
  }

  /** What a client tests for is success, save for a failed finalizeIfNecessary outside that window. */
  lemma SuccessExact(states: seq<State>, actions: seq<Action>, k: nat, y: nat)
    requires IsRun(states, actions) && k < |states|
    ensures Completed(T(states[k], y)) && !T(states[k], y).exc <==>
            Succeeded(T(states[k], y)) && (T(states[k], y).threw ==> InWindow(states[k], y))
  {
    RunInv(states, actions, k);
    FailureExact(states, actions, k, y);
    assert TaskInv(states[k], y);
  }

  /** If it never throws, success is completion without an exception, for good. */
  lemma SuccessWithoutFinalizeFailure(states: seq<State>, actions: seq<Action>, k: nat, y: nat)
    requires IsRun(states, actions) && k < |states| && FinalizeNeverThrows(actions)
    ensures Succeeded(T(states[k], y)) <==> Completed(T(states[k], y)) && !T(states[k], y).exc
  {
    SuccessExact(states, actions, k, y);
    NoFinalizeFailure(states, actions, k, y);
  }

  ghost predicate IsTesting(s: State, c: nat, x: Task) {
    c in s.clients && s.clients[c].phase == Testing && s.clients[c].stack != [] && Top(s.clients[c]).task == x
  }

  /** A client that tests a task returns normally if and only if the task succeeded and, if its finalizeIfNecessary
      threw, the test falls between the throw and setException. */
  lemma NormalReturnExact(states: seq<State>, actions: seq<Action>, k: nat, c: nat, x: Task)
    requires IsRun(states, actions) && k < |states| && IsTesting(states[k], c, x)
    ensures NextClient(states[k], c).clients[c] == Popped(states[k].clients[c]) <==>
            Succeeded(T(states[k], x.id)) && (T(states[k], x.id).threw ==> InWindow(states[k], x.id))
  {
    RunInv(states, actions, k);
    FailureExact(states, actions, k, x.id);
    var s := states[k];
    assert TaskInv(s, x.id) && ClientInv(s, c);
    if !T(s, x.id).exc {
      CompletedWithoutException(s, x.id);
    }
  }

  /** Whether finalizeIfNecessary threw is decided when the task has succeeded. */
  lemma ThrewIsFinal(s: State, a: Action, y: nat)
    requires Counters(s) && Enabled(s, a) && Succeeded(T(s, y))
    ensures T(Next(s, a), y).threw == T(s, y).threw
  {
    CountersKept(s, a);
    assert TaskInv(s, y) && TaskInv(Next(s, a), y);
  }

  /** A client that is past a task whose finalizeIfNecessary threw tested it in that window. */
  lemma {:induction false} PastFailure(states: seq<State>, actions: seq<Action>, k: nat, c: nat, x: Task)
    returns (i: nat)
    requires IsRun(states, actions) && k < |states| && c in states[k].clients && x in states[k].clients[c].done
    requires T(states[k], x.id).threw
    ensures i < k && actions[i] == ClientStep(c) && IsTesting(states[i], c, x) && InWindow(states[i], x.id)
    decreases k
  {
    NothingDone(states[0]);
    assert k > 0;
    i := k - 1;
    RunInv(states, actions, i);
    NewlyDone(states[i], actions[i], c, x);
    if x in states[i].clients[c].done {
      i := PastFailure(states, actions, k - 1, c, x);
    } else {
      NormalReturnExact(states, actions, i, c, x);
    }
  }

  lemma NothingDone(s: State)
    requires IsInitial(s)
    ensures forall c :: c in s.clients ==> s.clients[c].done == []
  {
  }

  /** A client goes past a task by a normal return; what is behind it stays as it is. */
  lemma NewlyDone(s: State, a: Action, c: nat, x: Task)
    requires Inv(s) && Enabled(s, a) && c in Next(s, a).clients && x in Next(s, a).clients[c].done
    ensures c in s.clients && T(Next(s, a), x.id).threw == T(s, x.id).threw
    ensures x !in s.clients[c].done ==>
              && a == ClientStep(c) && IsTesting(s, c, x)
              && NextClient(s, c).clients[c] == Popped(s.clients[c])
  {
    DoneBy(s, a, c, x);
    assert ClientInv(s, c);
    if x in s.clients[c].done {
      ThrewIsFinal(s, a, x.id);
    }
  }

  lemma DoneBy(s: State, a: Action, c: nat, x: Task)
    requires Enabled(s, a) && c in Next(s, a).clients && x in Next(s, a).clients[c].done
    ensures c in s.clients
    ensures x !in s.clients[c].done ==>
              && a == ClientStep(c) && IsTesting(s, c, x) && Next(s, a).tasks == s.tasks
              && NextClient(s, c).clients[c] == Popped(s.clients[c])
  {
  }

  /** The worker's second deregistration leaves one deregistration too many. */
  lemma SecondDeregistration(states: seq<State>, actions: seq<Action>, k: nat, w: nat)
    requires IsRun(states, actions) && k < |actions| && actions[k].WorkerStep? && actions[k].w == w
    requires W(states[k], w).FinalizeCaughtSet?
    ensures var t := T(states[k + 1], W(states[k], w).x.id); t.threw && t.fin == t.reg + 1
  {
    RunInv(states, actions, k);
    assert WorkerInv(states[k], w);
  }

  ghost predicate IsWaiting(s: State, c: nat, y: nat) {
    c in s.clients && s.clients[c].phase == Waiting && s.clients[c].stack != [] && Top(s.clients[c]).task.id == y
  }

  /** Once the worker whose finalizeIfNecessary threw is through with the task, the task never counts as completed
      again: a client that has not seen it yet waits forever. */
  lemma SecondDeregistrationHides(states: seq<State>, actions: seq<Action>, k: nat, m: nat, y: nat)
    requires IsRun(states, actions) && k <= m < |states| && T(states[k], y).threw
    requires !InWindow(states[k], y) && !ExceptionSet(states[k], y)
    ensures T(states[m], y).fin == T(states[m], y).reg + 1 && !Completed(T(states[m], y))
    ensures StillWaiting(states[k], states[m], y)
  {
    FailureExact(states, actions, k, y);
    forall i | 0 <= i < |states| - 1 ensures StaysHidden(states[i], states[i + 1], y) {
      HiddenStep(states[i], actions[i], y);
    }
    HiddenForever(states, k, m, y);
    FailureExact(states, actions, m, y);
  }

  ghost predicate StillWaiting(s: State, s': State, y: nat) {
    forall c :: IsWaiting(s, c, y) ==> IsWaiting(s', c, y)
  }

  ghost predicate StaysHidden(s: State, s': State, y: nat) {
    T(s, y).fin > T(s, y).reg ==> T(s', y).fin > T(s', y).reg && StillWaiting(s, s', y)
  }

  lemma {:induction false} HiddenForever(states: seq<State>, k: nat, m: nat, y: nat)
    requires k <= m < |states| && T(states[k], y).fin > T(states[k], y).reg
    requires forall i :: 0 <= i < |states| - 1 ==> StaysHidden(states[i], states[i + 1], y)
    ensures T(states[m], y).fin > T(states[m], y).reg && StillWaiting(states[k], states[m], y)
    decreases m
  {
    if k < m {
      HiddenForever(states, k, m - 1, y);
      assert StaysHidden(states[m - 1], states[m - 1 + 1], y);
      StillWaitingTwice(states[k], states[m - 1], states[m], y);
    }
  }

  lemma StillWaitingTwice(s: State, s': State, s'': State, y: nat)
    requires StillWaiting(s, s', y) && StillWaiting(s', s'', y)
    ensures StillWaiting(s, s'', y)
  {
  }

  lemma HiddenStep(s: State, a: Action, y: nat)
    requires Enabled(s, a)
    ensures StaysHidden(s, Next(s, a), y)
  {
    if T(s, y).fin > T(s, y).reg {
      forall c | IsWaiting(s, c, y) ensures IsWaiting(Next(s, a), c, y) {
        assert a != ClientStep(c);
      }
    }
  }

  lemma RunGoesOn(states: seq<State>, actions: seq<Action>, a: Action)
    requires IsRun(states, actions) && Enabled(states[|states| - 1], a)
    ensures IsRun(states + [Next(states[|states| - 1], a)], actions + [a])
  {
  }

  /** One worker runs a client's only task and its finalizeIfNecessary throws. */
  lemma FinalizeThrowsRun() returns (states: seq<State>, actions: seq<Action>, x: Task)
    ensures IsRun(states, actions) && x == Task(7, 1, [])
    ensures var s := states[|states| - 1];
            && T(s, 7) == TaskState(1, 1, false, 1, true, 1)
            && s.clients == map[0 := Client(x, [Activation(x, 0)], Waiting, 0, [])]
  {
    x := Task(7, 1, []);
    var s0 := State(map[], [], 0, None, map[], map[0 := Client(x, [Activation(x, 0)], Descending, 0, [])]);
    var go := WorkerStep(1, Fine);
    var s1 := Next(s0, ClientStep(0));
    assert s1.queue == [Scheduled(x, 0)];
    var s2 := Next(s1, go);
    var s3 := Next(s2, go);
    assert W(s3, 1) == Running(x);
    var s4 := Next(s3, WorkerStep(1, FinalizeThrows));
    states, actions := [s0, s1, s2, s3, s4], [ClientStep(0), go, go, WorkerStep(1, FinalizeThrows)];
  }

  /** Between the throw and setException the task looks completed without an exception: a client returns normally. */
  lemma ReturnsAlthoughFinalizeThrew() returns (states: seq<State>, actions: seq<Action>)
    ensures IsRun(states, actions)
    ensures var last := states[|states| - 1];
            0 in last.clients && last.clients[0].phase == Returned && T(last, last.clients[0].root.id).threw
  {
    var x;
    states, actions, x := FinalizeThrowsRun();
    RunGoesOn(states, actions, ClientStep(0));
    states, actions := states + [Next(states[|states| - 1], ClientStep(0))], actions + [ClientStep(0)];
    RunGoesOn(states, actions, ClientStep(0));
    states, actions := states + [Next(states[|states| - 1], ClientStep(0))], actions + [ClientStep(0)];
  }
}
