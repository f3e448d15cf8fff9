/** The main results about sequential runs. */
module Theorems {
  import opened Base
  import opened Tasks
  import opened Events
  import opened Engine
  import opened EngineFacts

  // ---- Whole sessions ----

  /** The state before the first workflow: no process is running yet. */
  function Start(): State {
    State(0, 1, [], None, NewProc(0, Workflow(Node("", "", false, false, None), "", TasksNode([], "", "")), {}))
  }

  function Session(env: Env, d: Dispatch): Result
    requires EnvOk(env) && d.Run? && RequestOk(env.registry, d)
  {
    RunWorkflow(env, Start(), d)
  }

  /** Whatever the outside world does, the events of a session form one well-nested word, no
      process dispatches a request after it asked to exit, and every request comes from a
      process created in the session. */
  lemma SessionIsSafe(env: Env, d: Dispatch)
    requires EnvOk(env) && d.Run? && RequestOk(env.registry, d)
    ensures var r := Session(env, d).st;
      && Nested(r.trace) && ExitIsFinal(r.trace) && r.logging == None
      && Silent(r.trace, 0) && Owned(r.trace, 1, 1, r.next)
  {
    SessionIsGood(env, d);
    SessionIsSilent(env, d);
  }

  lemma SessionIsGood(env: Env, d: Dispatch)
    requires EnvOk(env) && d.Run? && RequestOk(env.registry, d)
    ensures Good(Start(), Session(env, d).st, Session(env, d).st.trace)
  {
    var w := GoodWorkflow(env, Start(), d);
    assert [] + w == w;
  }

  /** The run of the workflow dispatches nothing in the name of its caller. */
  lemma SessionIsSilent(env: Env, d: Dispatch)
    requires EnvOk(env) && d.Run? && RequestOk(env.registry, d)
    ensures var r := Session(env, d).st; Silent(r.trace, 0) && Owned(r.trace, 1, 1, r.next)
  {
    if d.name in env.registry {
      var wf := env.registry[d.name];
      var o, c := WorkflowStart(wf.node.name, wf.url), WorkflowEnd(wf.node.name);
      var begun := Emit(Start(), o);
      var inner := begun.(proc := NewProc(1, wf, {} + d.tagIDs), next := 2, logging := None);
      var v := GoodSelected(env, inner, wf, d);
      var last := RunSelected(env, inner, wf, d).st;
      assert RunNested(env, begun, wf, d).st.trace == last.trace && RunNested(env, begun, wf, d).st.next == last.next;
      assert Session(env, d).st.trace == [o] + v + [c];
      OwnedBracket(o, v, c, last.next);
    }
  }

  lemma OwnedBracket(o: Event, v: Word, c: Event, next: nat)
    requires !o.Request? && !c.Request? && Owned(v, 1, 2, next) && next >= 2
    ensures var w := [o] + v + [c]; Silent(w, 0) && Owned(w, 1, 1, next)
  {
    var w := [o] + v + [c];
    assert forall i :: 0 < i < |w| - 1 ==> w[i] == v[i - 1];
  }

  // ---- Exit ----

  /** A terminated process only marks the start and the end of a task: it asks the outside
      world nothing, and so dispatches nothing. */
  lemma TerminatedTaskIsQuiet(env: Env, st: State, t: Task)
    requires EnvOk(env) && StateOk(st) && TaskOk(t) && st.proc.terminated
    ensures var r := RunTask(env, st, t);
      && r.out == Ok && r.st.clock == st.clock && r.st.proc == SetTask(st.proc, t)
      && r.st.trace == st.trace + [TaskStart(t.node.name, TemplateTag(t)), TaskEnd(t.node.name)]
  {
    var o, c := TaskStart(t.node.name, TemplateTag(t)), TaskEnd(t.node.name);
    assert st.trace + [o] + [c] == st.trace + [o, c];
  }

  lemma {:induction false} TerminatedListIsQuiet(env: Env, st: State, n: TasksNode, tasks: seq<Task>)
    requires EnvOk(env) && StateOk(st) && NodeOk(n) && IsSuffix(tasks, n) && st.proc.terminated
    ensures RunList(env, st, n, tasks) == Result(st, Ok)
    decreases |tasks|
  {
    if tasks != [] && IsHandler(n, tasks[0]) {
      TerminatedListIsQuiet(env, st, n, tasks[1..]);
    }
  }

  /** A list without handlers and without a scheduled task. */
  lemma TerminatedSingleIsQuiet(env: Env, st: State, t: Task)
    requires EnvOk(env) && StateOk(st) && TaskOk(t) && st.proc.terminated && st.proc.scheduled.None?
    requires NodeOk(Single(t))
    ensures RunTasks(env, st, Single(t)) == Result(st, Ok)
  {
    TerminatedListIsQuiet(env, st, Single(t), Single(t).tasks);
    assert RunBody(env, st, Single(t)) == Result(st, Ok);
  }

  lemma TerminatedBodyIsQuiet(env: Env, st: State, n: TasksNode)
    requires EnvOk(env) && StateOk(st) && NodeOk(n) && st.proc.terminated
    ensures RunBody(env, st, n) == Result(st.(proc := st.proc.(scheduled := None)), Ok)
  {
    TerminatedListIsQuiet(env, st, n, n.tasks);
    if st.proc.scheduled.Some? {
      TerminatedSingleIsQuiet(env, st.(proc := st.proc.(scheduled := None)), st.proc.scheduled.value);
    }
  }

  /** So does a list of tasks: only its deferred task is marked, and a scheduled task is dropped. */
  lemma TerminatedTasksAreQuiet(env: Env, st: State, n: TasksNode)
    requires EnvOk(env) && StateOk(st) && NodeOk(n) && st.proc.terminated
    ensures var r := RunTasks(env, st, n);
      && r.out == Ok && r.st.clock == st.clock && r.st.proc.terminated && r.st.proc.scheduled.None?
      && (n.deferredTask == "" ==> r.st.trace == st.trace)
      && (n.deferredTask != "" ==>
            var t := Find(n, n.deferredTask).value;
            r.st.trace == st.trace + [TaskStart(t.node.name, TemplateTag(t)), TaskEnd(t.node.name)])
  {
    TerminatedBodyIsQuiet(env, st, n);
    if n.deferredTask != "" {
      FoundIsOk(n.tasks, Trim(n.deferredTask));
      TerminatedTaskIsQuiet(env, RunBody(env, st, n).st, Find(n, n.deferredTask).value);
    }
  }

  // ---- Goto ----

  /** When the body ends without an error, nothing is left scheduled. */
  lemma {:induction false} ErrorFreeBodyIsUnscheduled(env: Env, st: State, n: TasksNode)
    requires EnvOk(env) && StateOk(st) && NodeOk(n)
    requires RunBody(env, st, n).out == Ok
    ensures RunBody(env, st, n).st.proc.scheduled.None?
    decreases Measure(env, st)
  {
    var r := RunList(env, st, n, n.tasks);
    if r.st.proc.scheduled.Some? {
      ErrorFreeBodyIsUnscheduled(env, r.st.(proc := r.st.proc.(scheduled := None)),
                                 Single(r.st.proc.scheduled.value));
    }
  }

  /** After an error-free run a task is still scheduled only if the deferred task, which
      runs last, asked for it. */
  lemma ErrorFreeRunIsUnscheduled(env: Env, st: State, n: TasksNode) returns (last: Word)
    requires EnvOk(env) && StateOk(st) && StateFits(st) && NodeOk(n)
    requires RunTasks(env, st, n).out == Ok
    ensures RunTasks(env, st, n).st.trace == RunBody(env, st, n).st.trace + last
    ensures RunTasks(env, st, n).st.proc.scheduled.Some? ==>
      n.deferredTask != "" && Asked(last, st.proc.id, GotoKind)
    ensures RunBody(env, st, n).st.proc.scheduled.None?
  {
    ErrorFreeBodyIsUnscheduled(env, st, n);
    last := [];
    if n.deferredTask != "" {
      var b := RunBody(env, st, n);
      var w := GoodBody(env, st, n);
      FoundIsOk(n.tasks, Trim(n.deferredTask));
      last := GoodTask(env, b.st, Find(n, n.deferredTask).value);
    }
  }
}
