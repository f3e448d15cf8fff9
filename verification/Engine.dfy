/** The engine as a function of the state: what running a task, a list of tasks, an action
    or a workflow does, for every behaviour of the outside world.

    Every question put to the outside (does a criterion hold, can variables be applied,
    what does a service reply) is answered by `world(clock)`, and the clock advances.  */
module Engine {
  import opened Base
  import opened Tasks
  import opened Events

  /** `url` is where the workflow was loaded from. */
  datatype Workflow = Workflow(node: Node, url: string, root: TasksNode)

  /** What dispatching an action request leads to. */
  datatype Dispatch =
    | Reject                        // the request cannot be built
    | Reply(ok: bool)               // any service that does not drive the engine
    | Exit
    | Goto(task: string)
    | SwitchTask(task: string)
    | SwitchAction(action: Action)
    | Run(name: string, selector: Selector, tagIDs: set<string>, shared: bool, inherited: bool)

  datatype Answer = Answer(holds: bool, error: bool, dispatch: Dispatch)

  /** From `horizon` on, no request is a goto, a switch or a nested run. */
  datatype Env = Env(world: nat -> Answer, horizon: nat, registry: map<string, Workflow>)

  datatype Cause =
    | World(at: nat)
    | NoTask(name: string)
    | NoCatch(name: string)
    | NoWorkflow(name: string)
    | NoSelection(name: string)

  datatype Outcome = Ok | Fail(cause: Cause)

  datatype Proc = Proc(id: nat, workflow: Workflow, tagIDs: set<string>, hasTagID: bool, task: Option<Task>,
                       activities: seq<Activity>, activity: Option<Activity>,
                       terminated: bool, scheduled: Option<Task>)

  /** `next` is the identity that the next process will get; `proc` is the running process. */
  datatype State = State(clock: nat, next: nat, trace: Word, logging: Option<bool>, proc: Proc)

  datatype Result = Result(st: State, out: Outcome)

  // ---- Requirements on callers ----

  predicate Simple(d: Dispatch) {
    d.Reject? || d.Reply? || d.Exit?
  }

  /** The deferred tasks can be found: that of the tasks the request selects, and those of
      any task that a goto or a switch can reach. */
  predicate Callable(w: Workflow, d: Dispatch)
    requires d.Run?
  {
    && ListOk(w.root.tasks)
    && var n := Selection(w, d.selector, d.inherited);
       n.Some? ==> NodeOk(n.value)
  }

  predicate RequestOk(registry: map<string, Workflow>, d: Dispatch) {
    d.Run? && d.name in registry ==> Callable(registry[d.name], d)
  }

  ghost predicate EnvOk(env: Env) {
    && (forall t :: t >= env.horizon ==> Simple(env.world(t).dispatch))
    && (forall t :: RequestOk(env.registry, env.world(t).dispatch))
  }

  predicate StateOk(st: State) {
    && ListOk(st.proc.workflow.root.tasks)
    && (st.proc.scheduled.Some? ==> TaskOk(st.proc.scheduled.value))
  }

  // ---- Termination measure: the dispatches left, then a pending goto ----

  function Left(env: Env, clock: nat): nat {
    if clock < env.horizon then env.horizon - clock else 0
  }

  function Measure(env: Env, st: State): nat {
    2 * Left(env, st.clock) + (if st.proc.scheduled.Some? then 1 else 0)
  }

  /** `b` is reached from `a`: time went on and the measure did not grow. */
  predicate Later(env: Env, a: State, b: State) {
    a.clock <= b.clock && Measure(env, b) <= Measure(env, a) && StateOk(b)
  }

  // ---- State changes ----

  function Emit(st: State, e: Event): State {
    st.(trace := st.trace + [e])
  }

  function Tick(st: State): State {
    st.(clock := st.clock + 1)
  }

  predicate CanRun(p: Proc) {
    !p.terminated && p.scheduled.None?
  }

  function SetTask(p: Proc, t: Task): Proc {
    p.(task := Some(t), hasTagID := exists i :: 0 <= i < |t.actions| && t.actions[i].tag.tagID in p.tagIDs)
  }

  function Push(p: Proc, a: Activity): Proc {
    p.(activities := p.activities + [a], activity := Some(a))
  }

  /** Popping the last activity leaves the current activity as it was. */
  function Pop(p: Proc): Proc {
    if p.activities == [] then p
    else
      var rest := p.activities[..|p.activities| - 1];
      p.(activities := rest, activity := if rest == [] then p.activity else Some(rest[|rest| - 1]))
  }

  function NewProc(id: nat, w: Workflow, tagIDs: set<string>): Proc {
    Proc(id, w, tagIDs, false, None, [], None, false, None)
  }

  function NewActivity(p: Proc, a: Action): Activity {
    Activity(p.workflow.node.name, a.service, a.action, a.tag)
  }

  /** The tag of a task, or else that of its first action that is not async. */
  function TemplateTag(t: Task): Option<MetaTag> {
    if t.tag.Some? then t.tag else FirstTag(t.actions)
  }

  function FirstTag(actions: seq<Action>): Option<MetaTag> {
    if actions == [] then None
    else if actions[0].async then FirstTag(actions[1..])
    else Some(actions[0].tag)
  }

  /** Drops the leading actions of the given tag: what a skip jumps over. */
  function DropTag(actions: seq<Action>, tagID: string): seq<Action> {
    if actions != [] && actions[0].tag.tagID == tagID then DropTag(actions[1..], tagID) else actions
  }

  predicate IsHandler(n: TasksNode, t: Task) {
    t.node.name == n.onErrorTask || t.node.name == n.deferredTask
  }

  // ---- Criteria and variables ----

  datatype Verdict = Verdict(st: State, holds: bool, out: Outcome)

  /** An empty criterion has its default value; another one may hold, not hold or fail. */
  function Evaluate(env: Env, st: State, criterion: string, default: bool): (v: Verdict)
    requires StateOk(st)
    ensures Later(env, st, v.st)
  {
    if criterion == "" then Verdict(st, default, Ok)
    else
      var w := env.world(st.clock);
      if w.error then Verdict(Tick(st), default, Fail(World(st.clock))) else Verdict(Tick(st), w.holds, Ok)
  }

  /** Applying variables may fail; without variables nothing happens. */
  function Apply(env: Env, st: State, variables: bool): (r: Result)
    requires StateOk(st)
    ensures Later(env, st, r.st)
  {
    if !variables then Result(st, Ok)
    else if env.world(st.clock).error then Result(Tick(st), Fail(World(st.clock)))
    else Result(Tick(st), Ok)
  }

  // ---- Nodes: run criterion, init and post variables, logging ----

  datatype Gate = Enter(st: State) | Stop(st: State, out: Outcome)

  /** The part of running a node that comes before its handler. */
  function EnterNode(env: Env, st: State, node: Node): (g: Gate)
    requires StateOk(st)
    ensures Later(env, st, g.st)
  {
    if !CanRun(st.proc) then Stop(st, Ok)
    else
      var v := Evaluate(env, st.(logging := node.logging), node.when, true);
      if v.out.Fail? || !v.holds then Stop(v.st.(logging := st.logging), v.out)
      else
        var i := Apply(env, v.st, node.init);
        if i.out.Fail? then Stop(i.st.(logging := st.logging), i.out) else Enter(i.st)
  }

  /** The part that comes after it; `saved` is the logging flag to restore. */
  function LeaveNode(env: Env, r: Result, node: Node, saved: Option<bool>): (l: Result)
    requires StateOk(r.st)
    ensures Later(env, r.st, l.st)
  {
    var p := if r.out.Fail? then r else Apply(env, r.st, node.post);
    Result(p.st.(logging := saved), p.out)
  }

  // ---- Actions ----

  function RunActions(env: Env, st: State, actions: seq<Action>): (r: Result)
    requires EnvOk(env) && StateOk(st)
    ensures Later(env, st, r.st)
    decreases Measure(env, st), 0, 3, |actions|
  {
    if actions == [] then Result(st, Ok)
    else
      var a := actions[0];
      var rest := actions[1..];
      if PassedOver(st.proc, a) then RunActions(env, st, rest)
      else
        var v := Evaluate(env, st, a.skip, false);
        if v.out.Fail? then Result(v.st, v.out)
        else if v.holds then
          DropTagIsSuffix(rest, a.tag.tagID);
          RunActions(env, v.st, DropTag(rest, a.tag.tagID))
        else
          var r := Repeat(env, v.st, a, a.repeat);
          if r.out.Fail? then r else RunActions(env, r.st, rest)
  }

  /** Async actions run elsewhere; with the tag filter on, only the process's tags run. */
  predicate PassedOver(p: Proc, a: Action) {
    a.async || (p.hasTagID && a.tag.tagID !in p.tagIDs)
  }

  lemma {:induction false} DropTagIsSuffix(actions: seq<Action>, tagID: string)
    ensures var d := DropTag(actions, tagID);
            && |d| <= |actions| && d == actions[|actions| - |d|..]
            && (forall i :: 0 <= i < |actions| - |d| ==> actions[i].tag.tagID == tagID)
            && (d != [] ==> d[0].tag.tagID != tagID)
  {
    if actions != [] && actions[0].tag.tagID == tagID {
      var rest, d := actions[1..], DropTag(actions[1..], tagID);
      DropTagIsSuffix(rest, tagID);
      var k := |rest| - |d|;
      assert rest[k..] == actions[1 + k..];
      assert forall i :: 1 <= i < 1 + k ==> actions[i] == rest[i - 1];
    }
  }

  /** Up to `n` runs of an action; its exit criterion ends the repetition. */
  function Repeat(env: Env, st: State, a: Action, n: int): (r: Result)
    requires EnvOk(env) && StateOk(st)
    ensures Later(env, st, r.st)
    decreases Measure(env, st), 0, 2, if n < 0 then 0 else n
  {
    if n <= 0 then Result(st, Ok)
    else
      var v := RunOnce(env, st, a);
      if v.out.Fail? || v.holds then Result(v.st, v.out) else Repeat(env, v.st, a, n - 1)
  }

  /** One run of an action, and whether its exit criterion then holds. */
  function RunOnce(env: Env, st: State, a: Action): (v: Verdict)
    requires EnvOk(env) && StateOk(st)
    ensures Later(env, st, v.st)
    decreases Measure(env, st), 0, 1, 1
  {
    var r := RunAction(env, st, a);
    if r.out.Fail? then Verdict(r.st, false, r.out)
    else
      var x := Apply(env, r.st, a.extract);
      if x.out.Fail? then Verdict(x.st, false, x.out) else Evaluate(env, x.st, a.exit, false)
  }

  function RunAction(env: Env, st: State, a: Action): (r: Result)
    requires EnvOk(env) && StateOk(st)
    ensures Later(env, st, r.st)
    decreases Measure(env, st), 0, 1, 0
  {
    match EnterNode(env, st, a.node)
    case Stop(s, out) => Result(s, out)
    case Enter(s) => LeaveNode(env, RunActivity(env, s, a), a.node, st.logging)
  }

  /** The activity is on the process's stack while its request is served. */
  function RunActivity(env: Env, st: State, a: Action): (r: Result)
    requires EnvOk(env) && StateOk(st)
    ensures Later(env, st, r.st)
    decreases Measure(env, st), 0, 0, 2
  {
    var activity := NewActivity(st.proc, a);
    var begun := Emit(st.(proc := Push(st.proc, activity)), ActivityStart(activity));
    var r := Send(env, begun);
    Result(Emit(r.st.(proc := Pop(r.st.proc)), ActivityEnd(activity)), r.out)
  }

  function KindOf(d: Dispatch): Kind {
    match d
    case Exit => ExitKind
    case Goto(_) => GotoKind
    case SwitchTask(_) => SwitchKind
    case SwitchAction(_) => ActionKind
    case Run(_, _, _, _, _) => RunKind
    case _ => Plain
  }

  /** Builds the request and runs it; request and response are published around its handler. */
  function Send(env: Env, st: State): (r: Result)
    requires EnvOk(env) && StateOk(st)
    ensures Later(env, st, r.st)
    decreases Measure(env, st), 0, 0, 1
  {
    var d := env.world(st.clock).dispatch;
    var asked := Tick(st);
    if d.Reject? then Result(asked, Fail(World(st.clock)))
    else
      var r := Handle(env, st, d, Emit(asked, Request(st.proc.id, KindOf(d))));
      Result(Emit(r.st, Response(st.proc.id, KindOf(d))), r.out)
  }

  /** `asked` is the state after the question asked in state `st` was answered by `d`. */
  function Handle(env: Env, st: State, d: Dispatch, asked: State): (r: Result)
    requires EnvOk(env) && StateOk(st) && d == env.world(st.clock).dispatch
    requires asked.clock == st.clock + 1 && asked.proc == st.proc
    ensures Later(env, st, r.st)
    decreases Measure(env, st), 0, 0, 0
  {
    match d
    case Reject => Result(asked, Fail(World(st.clock)))
    case Reply(ok) => Result(asked, if ok then Ok else Fail(World(st.clock)))
    case Exit => Result(asked.(proc := asked.proc.(terminated := true)), Ok)
    case Goto(name) =>
      FoundIsOk(asked.proc.workflow.root.tasks, Trim(name));
      (match Find(asked.proc.workflow.root, name)
       case None => Result(asked, Fail(NoTask(name)))
       case Some(t) => Result(asked.(proc := asked.proc.(scheduled := Some(t))), Ok))
    case SwitchTask(name) =>
      FoundIsOk(asked.proc.workflow.root.tasks, Trim(name));
      (match Find(asked.proc.workflow.root, name)
       case None => Result(asked, Fail(NoTask(name)))
       case Some(t) => RunTask(env, asked, t))
    case SwitchAction(a) => RunAction(env, asked, a)
    case Run(_, _, _, _, _) => RunWorkflow(env, asked, d)
  }

  // ---- Tasks ----

  function RunTask(env: Env, st: State, t: Task): (r: Result)
    requires EnvOk(env) && StateOk(st) && TaskOk(t)
    ensures Later(env, st, r.st)
    decreases Measure(env, st), TaskSize(t), 1, 0
  {
    var begun := Emit(st.(proc := SetTask(st.proc, t)), TaskStart(t.node.name, TemplateTag(t)));
    var r := match EnterNode(env, begun, t.node)
             case Stop(s, out) => Result(s, out)
             case Enter(s) => LeaveNode(env, RunTaskBody(env, s, t), t.node, st.logging);
    Result(Emit(r.st, TaskEnd(t.node.name)), r.out)
  }

  /** First the subtasks, then the task's own actions. */
  function RunTaskBody(env: Env, st: State, t: Task): (r: Result)
    requires EnvOk(env) && StateOk(st) && TaskOk(t)
    ensures Later(env, st, r.st)
    decreases Measure(env, st), TaskSize(t), 0, 0
  {
    if t.sub.tasks == [] then RunActions(env, st, t.actions)
    else
      var r := RunTasks(env, st, t.sub);
      if r.out.Fail? || t.actions == [] then r else RunActions(env, r.st, t.actions)
  }

  /** The body, then the deferred task; the body's error takes precedence. */
  function RunTasks(env: Env, st: State, n: TasksNode): (r: Result)
    requires EnvOk(env) && StateOk(st) && NodeOk(n)
    ensures Later(env, st, r.st)
    decreases Measure(env, st), NodeSize(n), 4, 0
  {
    var b := RunBody(env, st, n);
    if n.deferredTask == "" then b
    else
      FoundIsOk(n.tasks, Trim(n.deferredTask));
      FoundIsSmaller(n.tasks, Trim(n.deferredTask));
      var d := RunTask(env, b.st, Find(n, n.deferredTask).value);
      Result(d.st, if b.out.Fail? then b.out else d.out)
  }

  /** The tasks in order, then the task scheduled by a goto, if any. */
  function RunBody(env: Env, st: State, n: TasksNode): (r: Result)
    requires EnvOk(env) && StateOk(st) && NodeOk(n)
    ensures Later(env, st, r.st)
    decreases Measure(env, st), NodeSize(n), 3, 0
  {
    var r := RunList(env, st, n, n.tasks);
    if r.out.Fail? || r.st.proc.scheduled.None? then r
    else
      RunTasks(env, r.st.(proc := r.st.proc.(scheduled := None)), Single(r.st.proc.scheduled.value))
  }

  function Single(t: Task): TasksNode {
    TasksNode([t], "", "")
  }

  predicate IsSuffix(tasks: seq<Task>, n: TasksNode) {
    |tasks| <= |n.tasks| && tasks == n.tasks[|n.tasks| - |tasks|..]
  }

  function RunList(env: Env, st: State, n: TasksNode, tasks: seq<Task>): (r: Result)
    requires EnvOk(env) && StateOk(st) && NodeOk(n) && IsSuffix(tasks, n)
    ensures Later(env, st, r.st)
    decreases Measure(env, st), NodeSize(n), 2, |tasks|
  {
    if tasks == [] then Result(st, Ok)
    else if IsHandler(n, tasks[0]) then RunList(env, st, n, tasks[1..])
    else if st.proc.terminated then Result(st, Ok)
    else
      MemberIsOk(n.tasks, |n.tasks| - |tasks|);
      MemberIsSmaller(n.tasks, |n.tasks| - |tasks|);
      var r := TryTask(env, st, n, tasks[0]);
      if r.out.Fail? then r else RunList(env, r.st, n, tasks[1..])
  }

  function TryTask(env: Env, st: State, n: TasksNode, t: Task): (r: Result)
    requires EnvOk(env) && StateOk(st) && NodeOk(n) && TaskOk(t) && TaskSize(t) < NodeSize(n)
    ensures Later(env, st, r.st)
    decreases Measure(env, st), NodeSize(n), 1, 0
  {
    var r := RunTask(env, st, t);
    if r.out.Fail? then Catch(env, r.st, n, r.out) else r
  }

  /** The catch task decides the outcome of a failed task. */
  function Catch(env: Env, st: State, n: TasksNode, failure: Outcome): (r: Result)
    requires EnvOk(env) && StateOk(st) && NodeOk(n)
    ensures Later(env, st, r.st)
    decreases Measure(env, st), NodeSize(n), 0, 0
  {
    if n.onErrorTask == "" then Result(st, failure)
    else
      FoundIsOk(n.tasks, Trim(n.onErrorTask));
      FoundIsSmaller(n.tasks, Trim(n.onErrorTask));
      match Find(n, n.onErrorTask)
      case None => Result(st, Fail(NoCatch(n.onErrorTask)))
      case Some(t) => RunTask(env, if t.fail then st else Emit(st, ResetError), t)
  }

  // ---- Workflows ----

  /** The tasks that a run request selects; None when it names an unknown task. */
  function Selection(w: Workflow, selector: Selector, inherited: bool): Option<TasksNode> {
    if selector.All? || forall i :: 0 <= i < |selector.names| ==> Has(w.root, selector.names[i]) then
      Some(Select(w.root, selector))
    else if inherited then Some(w.root)
    else None
  }

  function RunWorkflow(env: Env, st: State, d: Dispatch): (r: Result)
    requires EnvOk(env) && StateOk(st) && d.Run? && RequestOk(env.registry, d)
    ensures Later(env, st, r.st)
    decreases Measure(env, st) + 1, 0, 0, 2
  {
    if d.name !in env.registry then Result(st, Fail(NoWorkflow(d.name)))
    else
      var w := env.registry[d.name];
      var r := RunNested(env, Emit(st, WorkflowStart(w.node.name, w.url)), w, d);
      Result(Emit(r.st, WorkflowEnd(w.node.name)), r.out)
  }

  /** A nested run has a process of its own, and a logging flag of its own unless it shares
      the caller's context; the caller's process comes back unchanged. */
  function RunNested(env: Env, st: State, w: Workflow, d: Dispatch): (r: Result)
    requires EnvOk(env) && StateOk(st) && d.Run? && Callable(w, d)
    ensures Later(env, st, r.st)
    decreases Measure(env, st) + 1, 0, 0, 1
  {
    var inner := st.(proc := NewProc(st.next, w, st.proc.tagIDs + d.tagIDs), next := st.next + 1,
                     logging := if d.shared then st.logging else None);
    var r := RunSelected(env, inner, w, d);
    Result(r.st.(proc := st.proc, logging := if d.shared then r.st.logging else st.logging), r.out)
  }

  function RunSelected(env: Env, st: State, w: Workflow, d: Dispatch): (r: Result)
    requires EnvOk(env) && StateOk(st) && d.Run? && Callable(w, d)
    ensures Later(env, st, r.st)
    decreases Measure(env, st) + 1, 0, 0, 0
  {
    match Selection(w, d.selector, d.inherited)
    case None => Result(st, Fail(NoSelection(d.name)))
    case Some(n) => RunRoot(env, st, w, n)
  }

  /** The workflow's node around the selected tasks. */
  function RunRoot(env: Env, st: State, w: Workflow, n: TasksNode): (r: Result)
    requires EnvOk(env) && StateOk(st) && NodeOk(n)
    ensures Later(env, st, r.st)
    decreases Measure(env, st), NodeSize(n), 5, 0
  {
    match EnterNode(env, st, w.node)
    case Stop(s, out) => Result(s, out)
    case Enter(s) => LeaveNode(env, RunTasks(env, s, n), w.node, st.logging)
  }
}
