/** The engine as the program has it: processes, activity stacks and contexts are objects
    updated in place.  Each method is proved to do to the running process, the context and
    the published events what the corresponding function of Engine says, and to leave every
    other process of the stack untouched: they are not in its frame. */
module Service {
  import opened Base
  import opened Tasks
  import opened Events
  import E = Engine
  import F = EngineFacts
  import T = Theorems

  class Activities {
    var activities: seq<Activity>
    var activity: Option<Activity>

    constructor ()
      ensures activities == [] && activity == None
    {
      activities, activity := [], None;
    }

    method Push(a: Activity)
      modifies this
      ensures activities == old(activities) + [a] && activity == Some(a)
    {
      activities := activities + [a];
      activity := Some(a);
    }

    method Pop() returns (r: Option<Activity>)
      modifies this
      ensures old(activities) == [] ==> activities == [] && r == None && activity == old(activity)
      ensures old(activities) != [] ==>
        && r == Some(old(activities)[|old(activities)| - 1])
        && activities == old(activities)[..|old(activities)| - 1]
        && activity == (if activities == [] then old(activity) else Some(activities[|activities| - 1]))
    {
      r := None;
      if |activities| > 0 {
        r := Some(activities[|activities| - 1]);
        activities := activities[..|activities| - 1];
      }
      if |activities| > 0 {
        activity := Some(activities[|activities| - 1]);
      }
    }
  }

  class Process {
    const id: nat
    const workflow: E.Workflow
    const tagIDs: set<string>
    const stack: Activities
    var hasTagID: bool
    var task: Option<Task>
    var terminated: bool
    var scheduled: Option<Task>

    constructor (id: nat, workflow: E.Workflow, tagIDs: set<string>)
      ensures fresh(stack) && View() == E.NewProc(id, workflow, tagIDs)
    {
      this.id, this.workflow, this.tagIDs := id, workflow, tagIDs;
      hasTagID, task, terminated, scheduled := false, None, false, None;
      stack := new Activities();
    }

    ghost function View(): E.Proc
      reads this, stack
    {
      E.Proc(id, workflow, tagIDs, hasTagID, task, stack.activities, stack.activity, terminated, scheduled)
    }

    method Push(a: Activity)
      modifies stack
      ensures View() == E.Push(old(View()), a)
    {
      stack.Push(a);
    }

    method Pop()
      modifies stack
      ensures View() == E.Pop(old(View()))
    {
      var popped := stack.Pop();
    }

    method Terminate()
      modifies this`terminated
      ensures View() == old(View()).(terminated := true)
    {
      terminated := true;
    }

    /** The tag filter is on when the task has an action with one of the process's tags. */
    method SetTask(t: Task)
      modifies this`task, this`hasTagID
      ensures View() == E.SetTask(old(View()), t)
    {
      task := Some(t);
      hasTagID := false;
      for i := 0 to |t.actions|
        invariant task == Some(t)
        invariant hasTagID <==> exists k :: 0 <= k < i && t.actions[k].tag.tagID in tagIDs
      {
        if t.actions[i].tag.tagID in tagIDs {
          hasTagID := true;
        }
      }
    }

    predicate CanRun()
      reads this
    {
      !(terminated || scheduled.Some?)
    }
  }

  class Processes {
    var processes: seq<Process>

    constructor ()
      ensures processes == []
    {
      processes := [];
    }

    method Push(p: Process)
      modifies this
      ensures processes == old(processes) + [p]
    {
      processes := processes + [p];
    }

    method Pop() returns (p: Process?)
      modifies this
      ensures old(processes) == [] ==> p == null && processes == []
      ensures old(processes) != [] ==>
        && p == old(processes)[|old(processes)| - 1]
        && processes == old(processes)[..|old(processes)| - 1]
    {
      if |processes| == 0 {
        return null;
      }
      p := processes[|processes| - 1];
      processes := processes[..|processes| - 1];
    }

    function Last(): (p: Process?)
      reads this
      ensures p == null <==> processes == []
      ensures p != null ==> p == processes[|processes| - 1]
    {
      if processes == [] then null else processes[|processes| - 1]
    }
  }

  /** A clone has its own logging flag and shares the process stack. */
  class Context {
    const processes: Processes
    var logging: Option<bool>

    constructor (processes: Processes)
      ensures this.processes == processes && logging == None
    {
      this.processes := processes;
      logging := None;
    }

    method Clone() returns (c: Context)
      ensures fresh(c) && c.processes == processes && c.logging == None
    {
      c := new Context(processes);
    }
  }

  class Engine {
    const env: E.Env
    var clock: nat
    var next: nat
    var trace: Word

    constructor (env: E.Env)
      ensures this.env == env && clock == 0 && next == 1 && trace == []
    {
      this.env := env;
      clock, next, trace := 0, 1, [];
    }

    ghost function View(c: Context, p: Process): E.State
      reads this, c, p, p.stack
    {
      E.State(clock, next, trace, c.logging, p.View())
    }

    /** `p` is the running process: the last one on the stack. */
    ghost predicate Runs(c: Context, p: Process)
      reads c.processes
    {
      c.processes.Last() == p
    }

    method Publish(e: Event)
      modifies this`trace
      ensures trace == old(trace) + [e]
    {
      trace := trace + [e];
    }

    method Ask() returns (a: E.Answer)
      modifies this`clock
      ensures a == env.world(old(clock)) && clock == old(clock) + 1
    {
      a := env.world(clock);
      clock := clock + 1;
    }

    // ---- Criteria and variables ----

    method Evaluate(c: Context, p: Process, criterion: string, default: bool) returns (holds: bool, out: E.Outcome)
      requires E.StateOk(View(c, p))
      modifies this`clock
      ensures E.Verdict(View(c, p), holds, out) == E.Evaluate(env, old(View(c, p)), criterion, default)
    {
      holds, out := default, E.Ok;
      if criterion != "" {
        var a := Ask();
        if a.error {
          out := E.Fail(E.World(clock - 1));
        } else {
          holds := a.holds;
        }
      }
    }

    method Apply(c: Context, p: Process, variables: bool) returns (out: E.Outcome)
      requires E.StateOk(View(c, p))
      modifies this`clock
      ensures E.Result(View(c, p), out) == E.Apply(env, old(View(c, p)), variables)
    {
      out := E.Ok;
      if variables {
        var a := Ask();
        if a.error {
          out := E.Fail(E.World(clock - 1));
        }
      }
    }

    // ---- Nodes ----

    /** Up to the handler: `go` says whether the handler is to run. */
    method EnterNode(c: Context, p: Process, node: Node) returns (go: bool, out: E.Outcome)
      requires E.StateOk(View(c, p))
      modifies this`clock, c
      ensures var g := E.EnterNode(env, old(View(c, p)), node);
        && go == g.Enter? && View(c, p) == g.st && (g.Stop? ==> out == g.out)
    {
      go, out := false, E.Ok;
      if !p.CanRun() {
        return;
      }
      var original := c.logging;
      c.logging := node.logging;
      var holds;
      holds, out := Evaluate(c, p, node.when, true);
      if out == E.Ok && holds {
        out := Apply(c, p, node.init);
        go := out == E.Ok;
      }
      if !go {
        c.logging := original;
      }
    }

    method LeaveNode(c: Context, p: Process, node: Node, saved: Option<bool>, handled: E.Outcome) returns (out: E.Outcome)
      requires E.StateOk(View(c, p))
      modifies this`clock, c
      ensures E.Result(View(c, p), out) == E.LeaveNode(env, E.Result(old(View(c, p)), handled), node, saved)
    {
      out := handled;
      if out == E.Ok {
        out := Apply(c, p, node.post);
      }
      c.logging := saved;
    }

    // ---- Actions ----

    /** The index of the first action after `i` that has another tag. */
    method SkipGroup(actions: seq<Action>, i: nat) returns (j: nat)
      requires i < |actions|
      ensures i < j <= |actions|
      ensures actions[j..] == E.DropTag(actions[i + 1..], actions[i].tag.tagID)
    {
      j := i + 1;
      while j < |actions| && actions[j].tag.tagID == actions[i].tag.tagID
        invariant i + 1 <= j <= |actions|
        invariant E.DropTag(actions[j..], actions[i].tag.tagID) == E.DropTag(actions[i + 1..], actions[i].tag.tagID)
      {
        assert actions[j..][1..] == actions[j + 1..];
        j := j + 1;
      }
    }

    method RunActions(c: Context, p: Process, actions: seq<Action>) returns (out: E.Outcome)
      requires E.EnvOk(env) && E.StateOk(View(c, p)) && Runs(c, p)
      modifies this, c, c.processes, p, p.stack
      ensures c.processes.processes == old(c.processes.processes)
      ensures E.Result(View(c, p), out) == E.RunActions(env, old(View(c, p)), actions)
      decreases E.Measure(env, View(c, p)), 0, 3, |actions|
    {
      ghost var v0 := View(c, p);
      ghost var all := E.RunActions(env, v0, actions);
      var i := 0;
      while i < |actions|
        invariant 0 <= i <= |actions| && c.processes.processes == old(c.processes.processes)
        invariant E.Later(env, v0, View(c, p))
        invariant E.RunActions(env, View(c, p), actions[i..]) == all
      {
        var a := actions[i];
        assert actions[i..][1..] == actions[i + 1..];
        if a.async || (p.hasTagID && a.tag.tagID !in p.tagIDs) {
          i := i + 1;
          continue;
        }
        var skip;
        skip, out := Evaluate(c, p, a.skip, false);
        if out.Fail? {
          return;
        }
        if skip {
          i := SkipGroup(actions, i);
          continue;
        }
        out := Repeat(c, p, a);
        if out.Fail? {
          return;
        }
        i := i + 1;
      }
      out := E.Ok;
    }

    lemma RepeatStep(v: E.State, a: Action, n: int)
      requires E.EnvOk(env) && E.StateOk(v) && n > 0
      ensures var o := E.RunOnce(env, v, a);
        E.Repeat(env, v, a, n)
        == if o.out.Fail? || o.holds then E.Result(o.st, o.out) else E.Repeat(env, o.st, a, n - 1)
    {
    }

    method Repeat(c: Context, p: Process, a: Action) returns (out: E.Outcome)
      requires E.EnvOk(env) && E.StateOk(View(c, p)) && Runs(c, p)
      modifies this, c, c.processes, p, p.stack
      ensures c.processes.processes == old(c.processes.processes)
      ensures E.Result(View(c, p), out) == E.Repeat(env, old(View(c, p)), a, a.repeat)
      decreases E.Measure(env, View(c, p)), 0, 2, 0
    {
      ghost var v0 := View(c, p);
      ghost var all := E.Repeat(env, v0, a, a.repeat);
      ghost var left := a.repeat;
      var i := 0;
      while i < a.repeat
        invariant left == a.repeat - i && c.processes.processes == old(c.processes.processes)
        invariant E.Later(env, v0, View(c, p))
        invariant E.Repeat(env, View(c, p), a, left) == all
      {
        RepeatStep(View(c, p), a, left);
        var stop;
        stop, out := RunOnce(c, p, a);
        if out.Fail? || stop {
          return;
        }
        i, left := i + 1, left - 1;
      }
      out := E.Ok;
    }

    method RunOnce(c: Context, p: Process, a: Action) returns (stop: bool, out: E.Outcome)
      requires E.EnvOk(env) && E.StateOk(View(c, p)) && Runs(c, p)
      modifies this, c, c.processes, p, p.stack
      ensures c.processes.processes == old(c.processes.processes)
      ensures E.Verdict(View(c, p), stop, out) == E.RunOnce(env, old(View(c, p)), a)
      decreases E.Measure(env, View(c, p)), 0, 1, 1
    {
      stop := false;
      out := RunAction(c, p, a);
      if out.Fail? {
        return;
      }
      out := Apply(c, p, a.extract);
      if out.Fail? {
        return;
      }
      stop, out := Evaluate(c, p, a.exit, false);
    }

    method RunAction(c: Context, p: Process, a: Action) returns (out: E.Outcome)
      requires E.EnvOk(env) && E.StateOk(View(c, p)) && Runs(c, p)
      modifies this, c, c.processes, p, p.stack
      ensures c.processes.processes == old(c.processes.processes)
      ensures E.Result(View(c, p), out) == E.RunAction(env, old(View(c, p)), a)
      decreases E.Measure(env, View(c, p)), 0, 1, 0
    {
      ghost var v0 := View(c, p);
      var original := c.logging;
      var go;
      go, out := EnterNode(c, p, a.node);
      if !go {
        return;
      }
      var handled := RunActivity(c, p, a);
      out := LeaveNode(c, p, a.node, original, handled);
    }

    method RunActivity(c: Context, p: Process, a: Action) returns (out: E.Outcome)
      requires E.EnvOk(env) && E.StateOk(View(c, p)) && Runs(c, p)
      modifies this, c, c.processes, p, p.stack
      ensures c.processes.processes == old(c.processes.processes)
      ensures E.Result(View(c, p), out) == E.RunActivity(env, old(View(c, p)), a)
      decreases E.Measure(env, View(c, p)), 0, 0, 2
    {
      var activity := Activity(p.workflow.node.name, a.service, a.action, a.tag);
      p.Push(activity);
      Publish(ActivityStart(activity));
      out := Send(c, p);
      p.Pop();
      Publish(ActivityEnd(activity));
    }

    method Send(c: Context, p: Process) returns (out: E.Outcome)
      requires E.EnvOk(env) && E.StateOk(View(c, p)) && Runs(c, p)
      modifies this, c, c.processes, p, p.stack
      ensures c.processes.processes == old(c.processes.processes)
      ensures E.Result(View(c, p), out) == E.Send(env, old(View(c, p)))
      decreases E.Measure(env, View(c, p)), 0, 0, 1
    {
      ghost var v0 := View(c, p);
      var w := Ask();
      if w.dispatch.Reject? {
        return E.Fail(E.World(clock - 1));
      }
      var kind := E.KindOf(w.dispatch);
      Publish(Request(p.id, kind));
      out := Handle(c, p, w.dispatch, v0);
      Publish(Response(p.id, kind));
    }

    method Handle(c: Context, p: Process, d: E.Dispatch, ghost st: E.State) returns (out: E.Outcome)
      requires E.EnvOk(env) && E.StateOk(st) && Runs(c, p)
      requires d == env.world(st.clock).dispatch && !d.Reject?
      requires View(c, p).clock == st.clock + 1 && View(c, p).proc == st.proc
      modifies this, c, c.processes, p, p.stack
      ensures c.processes.processes == old(c.processes.processes)
      ensures E.Result(View(c, p), out) == E.Handle(env, st, d, old(View(c, p)))
      decreases E.Measure(env, st), 0, 0, 0
    {
      match d
      case Reply(ok) =>
        out := if ok then E.Ok else E.Fail(E.World(clock - 1));
      case Exit =>
        out := ExitWorkflow(c, p);
      case Goto(name) =>
        out := RunGoto(c, p, name);
      case SwitchTask(name) =>
        FoundIsOk(p.workflow.root.tasks, Trim(name));
        var t := Find(p.workflow.root, name);
        if t.None? {
          out := E.Fail(E.NoTask(name));
        } else {
          out := RunTask(c, p, t.value);
        }
      case SwitchAction(a) =>
        out := RunAction(c, p, a);
      case Run(_, _, _, _, _) =>
        out := RunWorkflow(c, p, d);
    }

    /** Exit acts on the process at the top of the stack. */
    method ExitWorkflow(c: Context, ghost p: Process) returns (out: E.Outcome)
      requires Runs(c, p)
      modifies p`terminated
      ensures out == E.Ok && View(c, p) == old(View(c, p)).(proc := old(p.View()).(terminated := true))
    {
      var last := c.processes.Last();
      if last != null {
        last.Terminate();
      }
      out := E.Ok;
    }

    method RunGoto(c: Context, ghost p: Process, name: string) returns (out: E.Outcome)
      requires Runs(c, p)
      modifies p`scheduled
      ensures match Find(p.workflow.root, name)
        case None => out == E.Fail(E.NoTask(name)) && View(c, p) == old(View(c, p))
        case Some(t) => out == E.Ok && View(c, p) == old(View(c, p)).(proc := old(p.View()).(scheduled := Some(t)))
    {
      var last := c.processes.Last();
      var t := Find(last.workflow.root, name);
      out := E.Ok;
      if t.Some? {
        last.scheduled := t;
      } else {
        out := E.Fail(E.NoTask(name));
      }
    }

    // ---- Tasks ----

    method RunTask(c: Context, p: Process, t: Task) returns (out: E.Outcome)
      requires E.EnvOk(env) && E.StateOk(View(c, p)) && Runs(c, p) && TaskOk(t)
      modifies this, c, c.processes, p, p.stack
      ensures c.processes.processes == old(c.processes.processes)
      ensures E.Result(View(c, p), out) == E.RunTask(env, old(View(c, p)), t)
      decreases E.Measure(env, View(c, p)), TaskSize(t), 1, 0
    {
      var original := c.logging;
      p.SetTask(t);
      Publish(TaskStart(t.node.name, E.TemplateTag(t)));
      ghost var begun := View(c, p);
      var go;
      go, out := EnterNode(c, p, t.node);
      if go {
        var handled := RunTaskBody(c, p, t);
        out := LeaveNode(c, p, t.node, original, handled);
      }
      Publish(TaskEnd(t.node.name));
    }

    method RunTaskBody(c: Context, p: Process, t: Task) returns (out: E.Outcome)
      requires E.EnvOk(env) && E.StateOk(View(c, p)) && Runs(c, p) && TaskOk(t)
      modifies this, c, c.processes, p, p.stack
      ensures c.processes.processes == old(c.processes.processes)
      ensures E.Result(View(c, p), out) == E.RunTaskBody(env, old(View(c, p)), t)
      decreases E.Measure(env, View(c, p)), TaskSize(t), 0, 0
    {
      if |t.sub.tasks| > 0 {
        out := RunTasks(c, p, t.sub);
        if out.Fail? || |t.actions| == 0 {
          return;
        }
      }
      out := RunActions(c, p, t.actions);
    }

    method RunTasks(c: Context, p: Process, n: TasksNode) returns (out: E.Outcome)
      requires E.EnvOk(env) && E.StateOk(View(c, p)) && Runs(c, p) && NodeOk(n)
      modifies this, c, c.processes, p, p.stack
      ensures c.processes.processes == old(c.processes.processes)
      ensures E.Result(View(c, p), out) == E.RunTasks(env, old(View(c, p)), n)
      decreases E.Measure(env, View(c, p)), NodeSize(n), 4, 0
    {
      out := RunBody(c, p, n);
      if n.deferredTask != "" {
        FoundIsOk(n.tasks, Trim(n.deferredTask));
        FoundIsSmaller(n.tasks, Trim(n.deferredTask));
        var t := Find(n, n.deferredTask);
        var e := RunTask(c, p, t.value);
        if out == E.Ok {
          out := e;
        }
      }
    }

    method RunBody(c: Context, p: Process, n: TasksNode) returns (out: E.Outcome)
      requires E.EnvOk(env) && E.StateOk(View(c, p)) && Runs(c, p) && NodeOk(n)
      modifies this, c, c.processes, p, p.stack
      ensures c.processes.processes == old(c.processes.processes)
      ensures E.Result(View(c, p), out) == E.RunBody(env, old(View(c, p)), n)
      decreases E.Measure(env, View(c, p)), NodeSize(n), 3, 0
    {
      out := RunList(c, p, n);
      if out == E.Ok && p.scheduled.Some? {
        var t := p.scheduled.value;
        p.scheduled := None;
        out := RunTasks(c, p, E.Single(t));
      }
    }

    method RunList(c: Context, p: Process, n: TasksNode) returns (out: E.Outcome)
      requires E.EnvOk(env) && E.StateOk(View(c, p)) && Runs(c, p) && NodeOk(n)
      modifies this, c, c.processes, p, p.stack
      ensures c.processes.processes == old(c.processes.processes)
      ensures E.Result(View(c, p), out) == E.RunList(env, old(View(c, p)), n, n.tasks)
      decreases E.Measure(env, View(c, p)), NodeSize(n), 2, 0
    {
      ghost var v0 := View(c, p);
      ghost var all := E.RunList(env, v0, n, n.tasks);
      for i := 0 to |n.tasks|
        invariant c.processes.processes == old(c.processes.processes)
        invariant E.Later(env, v0, View(c, p))
        invariant E.RunList(env, View(c, p), n, n.tasks[i..]) == all
      {
        assert n.tasks[i..][1..] == n.tasks[i + 1..];
        if E.IsHandler(n, n.tasks[i]) {
          continue;
        }
        if p.terminated {
          return E.Ok;
        }
        MemberIsOk(n.tasks, i);
        MemberIsSmaller(n.tasks, i);
        out := TryTask(c, p, n, n.tasks[i]);
        if out.Fail? {
          return;
        }
      }
      out := E.Ok;
    }

    method TryTask(c: Context, p: Process, n: TasksNode, t: Task) returns (out: E.Outcome)
      requires E.EnvOk(env) && E.StateOk(View(c, p)) && Runs(c, p)
      requires NodeOk(n) && TaskOk(t) && TaskSize(t) < NodeSize(n)
      modifies this, c, c.processes, p, p.stack
      ensures c.processes.processes == old(c.processes.processes)
      ensures E.Result(View(c, p), out) == E.TryTask(env, old(View(c, p)), n, t)
      decreases E.Measure(env, View(c, p)), NodeSize(n), 1, 0
    {
      out := RunTask(c, p, t);
      if out.Fail? {
        out := Catch(c, p, n, out);
      }
    }

    method Catch(c: Context, p: Process, n: TasksNode, failure: E.Outcome) returns (out: E.Outcome)
      requires E.EnvOk(env) && E.StateOk(View(c, p)) && Runs(c, p) && NodeOk(n)
      modifies this, c, c.processes, p, p.stack
      ensures c.processes.processes == old(c.processes.processes)
      ensures E.Result(View(c, p), out) == E.Catch(env, old(View(c, p)), n, failure)
      decreases E.Measure(env, View(c, p)), NodeSize(n), 0, 0
    {
      if n.onErrorTask == "" {
        return failure;
      }
      var t := Find(n, n.onErrorTask);
      if t.None? {
        return E.Fail(E.NoCatch(n.onErrorTask));
      }
      FoundIsOk(n.tasks, Trim(n.onErrorTask));
      FoundIsSmaller(n.tasks, Trim(n.onErrorTask));
      if !t.value.fail {
        Publish(ResetError);
      }
      out := RunTask(c, p, t.value);
    }

    // ---- Workflows ----

    /** A whole session, with no process running before it. */
    method Run(d: E.Dispatch) returns (out: E.Outcome)
      requires E.EnvOk(env) && d.Run? && E.RequestOk(env.registry, d) && clock == 0 && next == 1 && trace == []
      modifies this
      ensures var r := T.Session(env, d); out == r.out && trace == r.st.trace && clock == r.st.clock
      ensures Nested(trace) && F.ExitIsFinal(trace)
    {
      var start := T.Start();
      var processes := new Processes();
      var c := new Context(processes);
      var nobody := new Process(0, start.proc.workflow, {});
      out := RunWorkflow(c, nobody, d);
      T.SessionIsSafe(env, d);
    }

    /** The caller's process is not in the frame of the nested run: `p` is only read. */
    method RunWorkflow(upstream: Context, p: Process, d: E.Dispatch) returns (out: E.Outcome)
      requires E.EnvOk(env) && E.StateOk(View(upstream, p)) && d.Run? && E.RequestOk(env.registry, d)
      modifies this, upstream, upstream.processes
      ensures upstream.processes.processes == old(upstream.processes.processes)
      ensures E.Result(View(upstream, p), out) == E.RunWorkflow(env, old(View(upstream, p)), d)
      decreases E.Measure(env, View(upstream, p)) + 1, 0, 0, 4
    {
      if d.name !in env.registry {
        return E.Fail(E.NoWorkflow(d.name));
      }
      var w := env.registry[d.name];
      Publish(WorkflowStart(w.node.name, w.url));
      out := RunNested(upstream, p, w, d);
      Publish(WorkflowEnd(w.node.name));
    }

    method RunNested(upstream: Context, p: Process, w: E.Workflow, d: E.Dispatch) returns (out: E.Outcome)
      requires E.EnvOk(env) && E.StateOk(View(upstream, p)) && d.Run? && E.Callable(w, d)
      modifies this, upstream, upstream.processes
      ensures upstream.processes.processes == old(upstream.processes.processes)
      ensures E.Result(View(upstream, p), out) == E.RunNested(env, old(View(upstream, p)), w, d)
      decreases E.Measure(env, View(upstream, p)) + 1, 0, 0, 3
    {
      var q := new Process(next, w, p.tagIDs + d.tagIDs);
      next := next + 1;
      out := RunInContext(upstream, q, w, d);
    }

    /** The caller's context, when it is shared, or a clone of it. */
    method RunInContext(upstream: Context, q: Process, w: E.Workflow, d: E.Dispatch) returns (out: E.Outcome)
      requires E.EnvOk(env) && E.StateOk(View(upstream, q)) && d.Run? && E.Callable(w, d)
      modifies this, upstream, upstream.processes, q, q.stack
      ensures upstream.processes.processes == old(upstream.processes.processes)
      ensures var own := old(upstream.logging);
        var r := E.RunSelected(env, old(View(upstream, q)).(logging := if d.shared then own else None), w, d);
        out == r.out && View(upstream, q) == r.st.(logging := if d.shared then r.st.logging else own)
      decreases E.Measure(env, View(upstream, q)) + 1, 0, 0, 2
    {
      if d.shared {
        out := RunOnTop(upstream, q, w, d);
      } else {
        var c := upstream.Clone();
        out := RunOnTop(c, q, w, d);
      }
    }

    /** The new process is on the stack for exactly the time of its run. */
    method RunOnTop(c: Context, q: Process, w: E.Workflow, d: E.Dispatch) returns (out: E.Outcome)
      requires E.EnvOk(env) && E.StateOk(View(c, q)) && d.Run? && E.Callable(w, d)
      modifies this, c, c.processes, q, q.stack
      ensures c.processes.processes == old(c.processes.processes)
      ensures E.Result(View(c, q), out) == E.RunSelected(env, old(View(c, q)), w, d)
      decreases E.Measure(env, View(c, q)) + 1, 0, 0, 1
    {
      ghost var stack := c.processes.processes;
      c.processes.Push(q);
      out := RunSelected(c, q, w, d);
      var popped := c.processes.Pop();
      assert (stack + [q])[..|stack|] == stack;
    }

    method RunSelected(c: Context, p: Process, w: E.Workflow, d: E.Dispatch) returns (out: E.Outcome)
      requires E.EnvOk(env) && E.StateOk(View(c, p)) && Runs(c, p) && d.Run? && E.Callable(w, d)
      modifies this, c, c.processes, p, p.stack
      ensures c.processes.processes == old(c.processes.processes)
      ensures E.Result(View(c, p), out) == E.RunSelected(env, old(View(c, p)), w, d)
      decreases E.Measure(env, View(c, p)) + 1, 0, 0, 0
    {
      var n := E.Selection(w, d.selector, d.inherited);
      if n.None? {
        return E.Fail(E.NoSelection(d.name));
      }
      out := RunRoot(c, p, w, n.value);
    }

    method RunRoot(c: Context, p: Process, w: E.Workflow, n: TasksNode) returns (out: E.Outcome)
      requires E.EnvOk(env) && E.StateOk(View(c, p)) && Runs(c, p) && NodeOk(n)
      modifies this, c, c.processes, p, p.stack
      ensures c.processes.processes == old(c.processes.processes)
      ensures E.Result(View(c, p), out) == E.RunRoot(env, old(View(c, p)), w, n)
      decreases E.Measure(env, View(c, p)), NodeSize(n), 5, 0
    {
      var original := c.logging;
      var go;
      go, out := EnterNode(c, p, w.node);
      if go {
        var handled := RunTasks(c, p, n);
        out := LeaveNode(c, p, w.node, original, handled);
      }
    }
  }
}
