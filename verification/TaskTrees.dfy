/** Tasks with dependencies and the order in which scheduleTaskAndWaitOrError takes them
    (src/common/task_system/task_scheduler.cpp:59-77). */
module TaskTrees {

  /** `children` are the tasks to be executed first; `max` is maxNumThreads. */
  datatype Task = Task(id: nat, max: nat, children: seq<Task>)

  function PostOrder(t: Task): (r: seq<Task>)
    ensures |r| > 0 && r[|r| - 1] == t
    decreases t, 0
  {
    PostOrderAll(t.children) + [t]
  }

  function PostOrderAll(ts: seq<Task>): seq<Task>
    decreases ts
  {
    if ts == [] then [] else PostOrder(ts[0]) + PostOrderAll(ts[1..])
  }

  /** `d` is a task below `t`. */
  ghost predicate Below(d: Task, t: Task) {
    d in PostOrderAll(t.children)
  }

  /** Every task below a listed task is listed before it. */
  ghost predicate DependenciesFirst(order: seq<Task>) {
    forall i, d :: 0 <= i < |order| && Below(d, order[i]) ==> d in order[..i]
  }

  lemma ConcatDependencies(a: seq<Task>, b: seq<Task>)
    requires DependenciesFirst(a) && DependenciesFirst(b)
    ensures DependenciesFirst(a + b)
  {
    var c := a + b;
    forall i, d | 0 <= i < |c| && Below(d, c[i]) ensures d in c[..i] {
      if i < |a| {
        assert c[i] == a[i] && c[..i] == a[..i];
      } else {
        assert c[i] == b[i - |a|] && c[..i] == a + b[..i - |a|];
      }
    }
  }

  lemma {:induction false} PostOrderDependencies(t: Task)
    ensures DependenciesFirst(PostOrder(t))
    decreases t, 0
  {
    PostOrderAllDependencies(t.children);
    var kids := PostOrderAll(t.children);
    var order := kids + [t];
    forall i, d | 0 <= i < |order| && Below(d, order[i]) ensures d in order[..i] {
      if i < |kids| {
        assert order[i] == kids[i] && order[..i] == kids[..i];
      } else {
        assert order[..i] == kids;
      }
    }
  }

  lemma {:induction false} PostOrderAllDependencies(ts: seq<Task>)
    ensures DependenciesFirst(PostOrderAll(ts))
    decreases ts
  {
    if ts != [] {
      PostOrderDependencies(ts[0]);
      PostOrderAllDependencies(ts[1..]);
      ConcatDependencies(PostOrder(ts[0]), PostOrderAll(ts[1..]));
    }
  }

  // ---------------------------------------------------------------------------------------------
  // The call stack of the recursion
  // ---------------------------------------------------------------------------------------------

  /** One activation: the loop over the dependencies has reached `next`. */
  datatype Activation = Activation(task: Task, next: nat)

  /** The tasks still to be scheduled, in order; the last activation is the running one. */
  function Pending(stack: seq<Activation>): seq<Task> {
    if stack == [] then []
    else
      var top := stack[|stack| - 1];
      (if top.next <= |top.task.children| then PostOrderAll(top.task.children[top.next..]) else []) + [top.task]
      + Pending(stack[..|stack| - 1])
  }

  function Push(stack: seq<Activation>): seq<Activation>
    requires stack != [] && stack[|stack| - 1].next < |stack[|stack| - 1].task.children|
  {
    var top := stack[|stack| - 1];
    stack[..|stack| - 1] + [Activation(top.task, top.next + 1), Activation(top.task.children[top.next], 0)]
  }

  /** Calling into the next dependency schedules nothing and forgets nothing. */
  lemma PushPending(stack: seq<Activation>)
    requires stack != [] && stack[|stack| - 1].next < |stack[|stack| - 1].task.children|
    ensures Pending(Push(stack)) == Pending(stack)
  {
    var top, rest := stack[|stack| - 1], stack[..|stack| - 1];
    var kids := top.task.children[top.next..];
    var child := kids[0];
    var mid := rest + [Activation(top.task, top.next + 1)];
    assert kids[1..] == top.task.children[top.next + 1..];
    assert Push(stack)[..|stack|] == mid && mid[..|mid| - 1] == rest;
    assert child.children[0..] == child.children;
    calc {
      Pending(Push(stack));
      PostOrder(child) + Pending(mid);
      PostOrder(child) + (PostOrderAll(kids[1..]) + [top.task] + Pending(rest));
      PostOrderAll(kids) + [top.task] + Pending(rest);
      Pending(stack);
    }
  }

  /** With its dependencies through, the running task is the next to be scheduled. */
  lemma ReturnPending(stack: seq<Activation>)
    requires stack != [] && stack[|stack| - 1].next == |stack[|stack| - 1].task.children|
    ensures Pending(stack) == [stack[|stack| - 1].task] + Pending(stack[..|stack| - 1])
  {
    var top := stack[|stack| - 1];
    assert top.task.children[top.next..] == [];
  }
}
