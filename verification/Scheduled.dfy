/** A goto made by a deferred task comes too late for its tasks node: the target is still
    scheduled in the process when the node has ended. */
module Scheduled {
  import opened Base
  import opened Tasks
  import opened Events
  import opened Engine
  import opened EngineFacts
  import T = Theorems

  /** Unless the process switches to another task, a task is scheduled at the end exactly when one was at the
      start or one was asked for meanwhile. */
  ghost predicate Pends(a: State, b: State, w: Word) {
    !Asked(w, a.proc.id, SwitchKind) ==>
      (b.proc.scheduled.Some? <==> a.proc.scheduled.Some? || Asked(w, a.proc.id, GotoKind))
  }

  lemma PendsCompose(a: State, b: State, c: State, v: Word, w: Word)
    requires b.proc.id == a.proc.id && Pends(a, b, v) && Pends(b, c, w)
    ensures Pends(a, c, v + w)
  {
    AskedConcat(v, w, a.proc.id, SwitchKind);
    AskedConcat(v, w, a.proc.id, GotoKind);
  }

  /** An event before and an event after a word, neither a request of that kind. */
  lemma AskedBracket(o: Event, w: Word, c: Event, p: nat, k: Kind)
    requires o != Request(p, k) && c != Request(p, k)
    ensures Asked([o] + w + [c], p, k) <==> Asked(w, p, k)
  {
    AskedConcat([o], w, p, k);
    AskedConcat([o] + w, [c], p, k);
  }

  /** `b` is reached from `a` by emitting `w`, and scheduling is as `Pends` says. */
  ghost predicate Keeps(a: State, b: State, w: Word) {
    b.trace == a.trace + w && b.proc.id == a.proc.id && Pends(a, b, w)
  }

  lemma KeepsCompose(a: State, b: State, c: State, v: Word, w: Word)
    requires Keeps(a, b, v) && Keeps(b, c, w)
    ensures Keeps(a, c, v + w)
  {
    PendsCompose(a, b, c, v, w);
    assert a.trace + (v + w) == a.trace + v + w;
  }

  /** A start and an end event that are not requests. */
  lemma KeepsBracket(a: State, b: State, w: Word, o: Event, c: Event)
    requires !o.Request? && !c.Request? && Keeps(Emit(a, o), b, w)
    ensures Keeps(a, Emit(b, c), [o] + w + [c])
  {
    AskedBracket(o, w, c, a.proc.id, SwitchKind);
    AskedBracket(o, w, c, a.proc.id, GotoKind);
    assert a.trace + ([o] + w + [c]) == a.trace + [o] + w + [c];
  }

  // ---- One action ----

  /** A nested run dispatches nothing in the name of its caller. */
  lemma NestedAsksNothing(env: Env, st: State, d: Dispatch) returns (w: Word)
    requires EnvOk(env) && StateOk(st) && StateFits(st) && d.Run? && RequestOk(env.registry, d)
    ensures RunWorkflow(env, st, d).st.trace == st.trace + w && RunWorkflow(env, st, d).st.proc == st.proc
    ensures Silent(w, st.proc.id)
  {
    w := [];
    if d.name in env.registry {
      var f := env.registry[d.name];
      var o, c := WorkflowStart(f.node.name, f.url), WorkflowEnd(f.node.name);
      var v := RunAsksNothing(env, Emit(st, o), f, d);
      w := [o] + v + [c];
      assert st.trace + w == st.trace + [o] + v + [c];
      assert forall i :: 0 < i < |w| - 1 ==> w[i] == v[i - 1];
    }
  }

  lemma RunAsksNothing(env: Env, st: State, f: Workflow, d: Dispatch) returns (w: Word)
    requires EnvOk(env) && StateOk(st) && StateFits(st) && d.Run? && Callable(f, d)
    ensures RunNested(env, st, f, d).st.trace == st.trace + w && RunNested(env, st, f, d).st.proc == st.proc
    ensures Silent(w, st.proc.id)
  {
    var inner := st.(proc := NewProc(st.next, f, st.proc.tagIDs + d.tagIDs), next := st.next + 1,
                     logging := if d.shared then st.logging else None);
    w := GoodSelected(env, inner, f, d);
  }

  lemma {:induction false} KeepsHandle(env: Env, st: State, d: Dispatch, asked: State) returns (v: Word)
    requires EnvOk(env) && StateOk(st) && d == env.world(st.clock).dispatch
    requires asked.clock == st.clock + 1 && asked.proc == st.proc && StateFits(asked)
    requires Handle(env, st, d, asked).out == Ok
    ensures var r := Handle(env, st, d, asked).st;
      r.trace == asked.trace + v && r.proc.id == st.proc.id && Answered(asked, r, v, KindOf(d))
    decreases Measure(env, st), 0, 0, 0
  {
    v := [];
    match d
    case SwitchTask(_) =>
      v := GoodHandle(env, st, d, asked);
    case SwitchAction(a) =>
      v := KeepsRun(env, asked, a);
    case Run(_, _, _, _, _) =>
      v := NestedAsksNothing(env, asked, d);
    case _ =>
  }

  /** What handling a request of kind `k` means for the scheduled task. */
  ghost predicate Answered(a: State, b: State, v: Word, k: Kind) {
    k != SwitchKind && !Asked(v, a.proc.id, SwitchKind) ==>
      (b.proc.scheduled.Some? <==> a.proc.scheduled.Some? || k == GotoKind || Asked(v, a.proc.id, GotoKind))
  }

  /** A request and its response around what its handler emits. */
  lemma KeepsRequest(a: State, b: State, v: Word, k: Kind)
    requires b.trace == Emit(a, Request(a.proc.id, k)).trace + v && b.proc.id == a.proc.id
    requires Answered(a, b, v, k)
    ensures Keeps(a, Emit(b, Response(a.proc.id, k)), [Request(a.proc.id, k)] + v + [Response(a.proc.id, k)])
  {
    var o, c := Request(a.proc.id, k), Response(a.proc.id, k);
    var w := [o] + v + [c];
    assert a.trace + w == a.trace + [o] + v + [c];
    assert w[0] == o;
    if k != SwitchKind {
      AskedBracket(o, v, c, a.proc.id, SwitchKind);
    }
    if k != GotoKind {
      AskedBracket(o, v, c, a.proc.id, GotoKind);
    }
  }

  lemma {:induction false} KeepsSend(env: Env, st: State) returns (w: Word)
    requires EnvOk(env) && StateOk(st) && StateFits(st)
    requires Send(env, st).out == Ok
    ensures Keeps(st, Send(env, st).st, w)
    decreases Measure(env, st), 0, 0, 1
  {
    var d := env.world(st.clock).dispatch;
    var k := KindOf(d);
    var asked := Emit(Tick(st), Request(st.proc.id, k));
    var v := KeepsHandle(env, st, d, asked);
    KeepsRequest(Tick(st), Handle(env, st, d, asked).st, v, k);
    w := [Request(st.proc.id, k)] + v + [Response(st.proc.id, k)];
  }

  lemma {:induction false} KeepsActivity(env: Env, st: State, a: Action) returns (w: Word)
    requires EnvOk(env) && StateOk(st) && StateFits(st)
    requires RunActivity(env, st, a).out == Ok
    ensures Keeps(st, RunActivity(env, st, a).st, w)
    decreases Measure(env, st), 0, 0, 2
  {
    var activity := NewActivity(st.proc, a);
    var pushed := st.(proc := Push(st.proc, activity));
    var o, c := ActivityStart(activity), ActivityEnd(activity);
    var v := KeepsSend(env, Emit(pushed, o));
    KeepsBracket(pushed, Send(env, Emit(pushed, o)).st, v, o, c);
    w := [o] + v + [c];
  }

  /** States that differ in neither process nor trace. */
  lemma KeepsIdle(a: State, b: State)
    requires b.trace == a.trace && b.proc == a.proc
    ensures Keeps(a, b, [])
  {
  }

  lemma {:induction false} KeepsRun(env: Env, st: State, a: Action) returns (w: Word)
    requires EnvOk(env) && StateOk(st) && StateFits(st)
    requires RunAction(env, st, a).out == Ok
    ensures Keeps(st, RunAction(env, st, a).st, w)
    decreases Measure(env, st), 0, 1, 0
  {
    match EnterNode(env, st, a.node)
    case Stop(s, out) =>
      KeepsIdle(st, s);
      w := [];
    case Enter(s) =>
      w := KeepsActivity(env, s, a);
  }

  lemma KeepsOnce(env: Env, st: State, a: Action) returns (w: Word)
    requires EnvOk(env) && StateOk(st) && StateFits(st)
    requires RunOnce(env, st, a).out == Ok
    ensures Keeps(st, RunOnce(env, st, a).st, w)
  {
    w := KeepsRun(env, st, a);
  }

  // ---- Repetitions and lists of actions ----

  lemma {:induction false} KeepsRepeat(env: Env, st: State, a: Action, n: int) returns (w: Word)
    requires EnvOk(env) && StateOk(st) && StateFits(st)
    requires Repeat(env, st, a, n).out == Ok
    ensures Keeps(st, Repeat(env, st, a, n).st, w)
    decreases if n < 0 then 0 else n
  {
    w := [];
    if n > 0 {
      var v := RunOnce(env, st, a);
      w := KeepsOnce(env, st, a);
      if !v.holds {
        var fits := GoodOnce(env, st, a);
        var more := KeepsRepeat(env, v.st, a, n - 1);
        KeepsCompose(st, v.st, Repeat(env, v.st, a, n - 1).st, w, more);
        w := w + more;
      }
    }
  }

  lemma {:induction false} KeepsActions(env: Env, st: State, actions: seq<Action>) returns (w: Word)
    requires EnvOk(env) && StateOk(st) && StateFits(st)
    requires RunActions(env, st, actions).out == Ok
    ensures Keeps(st, RunActions(env, st, actions).st, w)
    decreases |actions|, 1
  {
    w := [];
    if actions != [] {
      var a, rest := actions[0], actions[1..];
      if PassedOver(st.proc, a) {
        w := KeepsActions(env, st, rest);
      } else {
        var v := Evaluate(env, st, a.skip, false);
        if v.holds {
          DropTagIsSuffix(rest, a.tag.tagID);
          w := KeepsActions(env, v.st, DropTag(rest, a.tag.tagID));
        } else {
          w := KeepsHead(env, v.st, actions, Repeat(env, v.st, a, a.repeat));
        }
      }
    }
  }

  /** An action that is not skipped, with result `r`, and the actions after it. */
  lemma {:induction false} KeepsHead(env: Env, st: State, actions: seq<Action>, r: Result) returns (w: Word)
    requires EnvOk(env) && StateOk(st) && StateFits(st) && actions != []
    requires r == Repeat(env, st, actions[0], actions[0].repeat) && r.out == Ok
    requires RunActions(env, r.st, actions[1..]).out == Ok
    ensures Keeps(st, RunActions(env, r.st, actions[1..]).st, w)
    decreases |actions|, 0
  {
    var fits := GoodRepeat(env, st, actions[0], actions[0].repeat);
    var first := KeepsRepeat(env, st, actions[0], actions[0].repeat);
    var more := KeepsActions(env, r.st, actions[1..]);
    KeepsCompose(st, r.st, RunActions(env, r.st, actions[1..]).st, first, more);
    w := first + more;
  }

  // ---- The deferred task ----

  lemma KeepsTask(env: Env, st: State, t: Task) returns (w: Word)
    requires EnvOk(env) && StateOk(st) && StateFits(st) && TaskOk(t) && t.sub.tasks == []
    requires RunTask(env, st, t).out == Ok
    ensures Keeps(st, RunTask(env, st, t).st, w)
  {
    var o, c := TaskStart(t.node.name, TemplateTag(t)), TaskEnd(t.node.name);
    var entered := st.(proc := SetTask(st.proc, t));
    var v := KeepsTaskNode(env, Emit(entered, o), t, st.logging);
    KeepsBracket(entered, InsideTask(env, Emit(entered, o), t, st.logging).st, v, o, c);
    w := [o] + v + [c];
  }

  lemma KeepsTaskNode(env: Env, begun: State, t: Task, saved: Option<bool>) returns (v: Word)
    requires EnvOk(env) && StateOk(begun) && StateFits(begun) && TaskOk(t) && t.sub.tasks == []
    requires InsideTask(env, begun, t, saved).out == Ok
    ensures Keeps(begun, InsideTask(env, begun, t, saved).st, v)
  {
    match EnterNode(env, begun, t.node)
    case Stop(s, out) =>
      v := [];
      KeepsIdle(begun, s);
    case Enter(s) =>
      v := KeepsActions(env, s, t.actions);
  }

  // ---- Any deferred task ----

  /** From this state on nothing takes up a scheduled task: after the body of the node, or of
      the subtasks of its deferred task, and so on; when a deferred task has no subtasks,
      where its own actions begin. */
  function LastBody(env: Env, st: State, n: TasksNode): (b: State)
    requires EnvOk(env) && StateOk(st) && NodeOk(n)
    ensures StateOk(b)
    decreases NodeSize(n), 1
  {
    var b := RunBody(env, st, n).st;
    if n.deferredTask == "" then b
    else
      FoundIsOk(n.tasks, Trim(n.deferredTask));
      FoundIsSmaller(n.tasks, Trim(n.deferredTask));
      LastBodyOf(env, b, Find(n, n.deferredTask).value)
  }

  function LastBodyOf(env: Env, st: State, t: Task): (b: State)
    requires EnvOk(env) && StateOk(st) && TaskOk(t)
    ensures StateOk(b)
    decreases TaskSize(t), 0
  {
    var begun := Emit(st.(proc := SetTask(st.proc, t)), TaskStart(t.node.name, TemplateTag(t)));
    match EnterNode(env, begun, t.node)
    case Stop(s, _) => s
    case Enter(s) => if t.sub.tasks == [] then s else LastBody(env, s, t.sub)
  }

  /** Nothing is scheduled at `a`, and from there `b` is reached by emitting `w`. */
  ghost predicate Follows(a: State, b: State, w: Word) {
    a.proc.scheduled.None? && Keeps(a, b, w)
  }

  lemma FollowsMore(a: State, b: State, c: State, v: Word, w: Word)
    requires Follows(a, b, v) && Keeps(b, c, w)
    ensures Follows(a, c, v + w)
  {
    KeepsCompose(a, b, c, v, w);
  }

  /** An event that is not a request. */
  lemma FollowsEvent(a: State, b: State, w: Word, c: Event)
    requires !c.Request? && Follows(a, b, w)
    ensures Follows(a, Emit(b, c), w + [c])
  {
    AskedConcat(w, [c], a.proc.id, SwitchKind);
    AskedConcat(w, [c], a.proc.id, GotoKind);
    assert a.trace + (w + [c]) == a.trace + w + [c];
  }

  lemma {:induction false} NodeFollows(env: Env, st: State, n: TasksNode) returns (w: Word)
    requires EnvOk(env) && StateOk(st) && StateFits(st) && NodeOk(n)
    requires RunTasks(env, st, n).out == Ok
    ensures Follows(LastBody(env, st, n), RunTasks(env, st, n).st, w)
    decreases NodeSize(n), 1
  {
    var b := RunBody(env, st, n).st;
    var fits := GoodBody(env, st, n);
    GoodFits(st, b, fits);
    T.ErrorFreeBodyIsUnscheduled(env, st, n);
    if n.deferredTask == "" {
      w := [];
      KeepsIdle(b, b);
    } else {
      FoundIsOk(n.tasks, Trim(n.deferredTask));
      FoundIsSmaller(n.tasks, Trim(n.deferredTask));
      w := TaskFollows(env, b, Find(n, n.deferredTask).value);
    }
  }

  lemma {:induction false} TaskFollows(env: Env, st: State, t: Task) returns (w: Word)
    requires EnvOk(env) && StateOk(st) && StateFits(st) && TaskOk(t) && st.proc.scheduled.None?
    requires RunTask(env, st, t).out == Ok
    ensures Follows(LastBodyOf(env, st, t), RunTask(env, st, t).st, w)
    decreases TaskSize(t), 0
  {
    var begun := Emit(st.(proc := SetTask(st.proc, t)), TaskStart(t.node.name, TemplateTag(t)));
    var r := InsideTask(env, begun, t, st.logging);
    w := InsideFollows(env, st, t);
    FollowsEvent(LastBodyOf(env, st, t), r.st, w, TaskEnd(t.node.name));
    w := w + [TaskEnd(t.node.name)];
  }

  lemma {:induction false} InsideFollows(env: Env, st: State, t: Task) returns (w: Word)
    requires EnvOk(env) && StateOk(st) && StateFits(st) && TaskOk(t) && st.proc.scheduled.None?
    requires var begun := Emit(st.(proc := SetTask(st.proc, t)), TaskStart(t.node.name, TemplateTag(t)));
      InsideTask(env, begun, t, st.logging).out == Ok
    ensures var begun := Emit(st.(proc := SetTask(st.proc, t)), TaskStart(t.node.name, TemplateTag(t)));
      Follows(LastBodyOf(env, st, t), InsideTask(env, begun, t, st.logging).st, w)
    decreases TaskSize(t), 0, 0
  {
    var begun := Emit(st.(proc := SetTask(st.proc, t)), TaskStart(t.node.name, TemplateTag(t)));
    match EnterNode(env, begun, t.node)
    case Stop(s, out) =>
      w := [];
      KeepsIdle(s, s);
    case Enter(s) =>
      if t.sub.tasks == [] {
        w := KeepsActions(env, s, t.actions);
      } else {
        w := GroupFollows(env, s, t);
      }
  }

  lemma {:induction false} GroupFollows(env: Env, st: State, t: Task) returns (w: Word)
    requires EnvOk(env) && StateOk(st) && StateFits(st) && TaskOk(t) && t.sub.tasks != []
    requires RunTaskBody(env, st, t).out == Ok
    ensures Follows(LastBody(env, st, t.sub), RunTaskBody(env, st, t).st, w)
    decreases NodeSize(t.sub), 2
  {
    var r := RunTasks(env, st, t.sub);
    w := NodeFollows(env, st, t.sub);
    if t.actions != [] {
      var fits := GoodTasks(env, st, t.sub);
      GoodFits(st, r.st, fits);
      var v := KeepsActions(env, r.st, t.actions);
      FollowsMore(LastBody(env, st, t.sub), r.st, RunActions(env, r.st, t.actions).st, w, v);
      w := w + v;
    }
  }

  /** After an error-free run of a tasks node a task is still scheduled if and only if one was
      asked for after the last body, provided that the process did not switch to another task
      in that time. */
  lemma LateGotoStays(env: Env, st: State, n: TasksNode) returns (last: Word)
    requires EnvOk(env) && StateOk(st) && StateFits(st) && NodeOk(n)
    requires RunTasks(env, st, n).out == Ok
    ensures RunTasks(env, st, n).st.trace == LastBody(env, st, n).trace + last
    ensures LastBody(env, st, n).proc.id == st.proc.id
    ensures !Asked(last, st.proc.id, SwitchKind) ==>
      (RunTasks(env, st, n).st.proc.scheduled.Some? <==> Asked(last, st.proc.id, GotoKind))
  {
    last := NodeFollows(env, st, n);
    var fits := GoodTasks(env, st, n);
  }

  /** In particular, when the deferred task has no subtasks, one that it asked for itself. */
  lemma DeferredGotoStays(env: Env, st: State, n: TasksNode) returns (last: Word)
    requires EnvOk(env) && StateOk(st) && StateFits(st) && NodeOk(n)
    requires RunTasks(env, st, n).out == Ok
    requires n.deferredTask != "" && Find(n, n.deferredTask).value.sub.tasks == []
    ensures RunTasks(env, st, n).st.trace == RunBody(env, st, n).st.trace + last
    ensures !Asked(last, st.proc.id, SwitchKind) ==>
      (RunTasks(env, st, n).st.proc.scheduled.Some? <==> Asked(last, st.proc.id, GotoKind))
  {
    var w := GoodBody(env, st, n);
    T.ErrorFreeBodyIsUnscheduled(env, st, n);
    FoundIsOk(n.tasks, Trim(n.deferredTask));
    last := KeepsTask(env, RunBody(env, st, n).st, Find(n, n.deferredTask).value);
  }

  // ---- An input where it happens ----

  const PLAIN := MetaTag("", "", "", "")
  const JUMP := Action(Node("", "", false, false, None), "workflow", "goto", PLAIN, false, "", 1, false, "")
  const NONE := TasksNode([], "", "")
  const TARGET := Task(Node("x", "", false, false, None), None, [], NONE, false)
  const LAST := Task(Node("d", "", false, false, None), None, [JUMP], NONE, false)
  const ROOT := TasksNode([TARGET, LAST], "", "d")

  /** The first request is the goto to x; every other one is answered without an error. */
  function LateEnv(): Env {
    Env(t => Answer(true, false, if t == 0 then Goto("x") else Reply(true)), 1, map[])
  }

  /** A workflow of a task x, and a deferred task d whose only action is the goto. */
  function LateState(): State {
    State(0, 1, [], None, NewProc(0, Workflow(Node("w", "", false, false, None), "", ROOT), {}))
  }

  ghost predicate CanJump(env: Env, st: State) {
    && EnvOk(env) && StateOk(st) && CanRun(st.proc)
    && env.world(st.clock).dispatch == Goto("x") && Find(st.proc.workflow.root, "x") == Some(TARGET)
  }

  lemma JumpIsSent(env: Env, st: State)
    requires CanJump(env, st)
    ensures var r := Send(env, st); r.out == Ok && r.st.proc.scheduled == Some(TARGET)
  {
    FoundIsOk(st.proc.workflow.root.tasks, Trim("x"));
    var asked := Emit(Tick(st), Request(st.proc.id, GotoKind));
    assert Handle(env, st, Goto("x"), asked) == Result(asked.(proc := asked.proc.(scheduled := Some(TARGET))), Ok);
  }

  lemma JumpIsRun(env: Env, st: State)
    requires CanJump(env, st)
    ensures var r := RunAction(env, st, JUMP); r.out == Ok && r.st.proc.scheduled == Some(TARGET)
  {
    var s := st.(logging := None);
    assert EnterNode(env, st, JUMP.node) == Enter(s);
    var activity := NewActivity(s.proc, JUMP);
    JumpIsSent(env, Emit(s.(proc := Push(s.proc, activity)), ActivityStart(activity)));
  }

  /** One action that is a goto, run in a state where it can run. */
  lemma JumpSchedules(env: Env, st: State)
    requires CanJump(env, st) && !st.proc.hasTagID
    ensures var r := RunActions(env, st, [JUMP]); r.out == Ok && r.st.proc.scheduled == Some(TARGET)
  {
    var done := RunAction(env, st, JUMP);
    JumpIsRun(env, st);
    assert RunOnce(env, st, JUMP) == Verdict(done.st, false, Ok);
    assert Repeat(env, st, JUMP, 1) == Repeat(env, done.st, JUMP, 0) == Result(done.st, Ok);
    assert [JUMP][1..] == [];
    assert RunActions(env, st, [JUMP]) == RunActions(env, done.st, []);
  }

  lemma OneLetter(c: char)
    requires !IsSpace(c)
    ensures Trim([c]) == [c]
  {
  }

  lemma FoundSecond(t: Task, u: Task)
    requires t.node.name != u.node.name && t.sub.tasks == []
    ensures FindIn([t, u], t.node.name) == Some(t) && FindIn([t, u], u.node.name) == Some(u)
  {
    var tasks := [t, u];
    assert tasks[1..] == [u];
    assert FindIn(t.sub.tasks, u.node.name) == None;
    assert FindIn([u], u.node.name) == Some(u);
  }

  lemma PairIsOk(t: Task, u: Task)
    requires TaskOk(t) && TaskOk(u)
    ensures ListOk([t, u])
  {
    assert [t, u][1..] == [u] && [u][1..] == [];
  }

  /** A task followed by the handler of its node. */
  lemma PairRuns(env: Env, st: State, n: TasksNode, t: Task, u: Task)
    requires EnvOk(env) && StateOk(st) && NodeOk(n) && n.tasks == [t, u] && TaskOk(t)
    requires !IsHandler(n, t) && IsHandler(n, u) && !st.proc.terminated && RunTask(env, st, t).out == Ok
    ensures RunList(env, st, n, n.tasks) == RunTask(env, st, t)
  {
    var r := RunTask(env, st, t);
    assert [t, u][1..] == [u] && [u][1..] == [];
    MemberIsSmaller(n.tasks, 0);
    assert RunList(env, r.st, n, []) == Result(r.st, Ok);
    assert RunList(env, r.st, n, [u]) == Result(r.st, Ok);
    assert TryTask(env, st, n, t) == r;
  }

  lemma LateFits()
    ensures Find(ROOT, "x") == Some(TARGET) && Find(ROOT, "d") == Some(LAST)
    ensures NodeOk(ROOT) && !IsHandler(ROOT, TARGET) && IsHandler(ROOT, LAST)
    ensures EnvOk(LateEnv()) && StateOk(LateState()) && StateFits(LateState())
  {
    OneLetter('x');
    OneLetter('d');
    assert "x" == ['x'] && "d" == ['d'];
    assert TARGET.node.name == "x" && LAST.node.name == "d";
    FoundSecond(TARGET, LAST);
    PairIsOk(TARGET, LAST);
  }

  /** A task without subtasks that can run, run with its actions. */
  lemma LeafRuns(env: Env, st: State, t: Task)
    requires EnvOk(env) && StateOk(st) && TaskOk(t) && t.sub.tasks == [] && CanRun(st.proc)
    requires t.node.when == "" && !t.node.init && !t.node.post
    ensures
      var o := TaskStart(t.node.name, TemplateTag(t));
      var s := Emit(st.(proc := SetTask(st.proc, t), logging := t.node.logging), o);
      var a := RunActions(env, s, t.actions);
      var r := RunTask(env, st, t);
      r.out == a.out && r.st.proc == a.st.proc && r.st.clock == a.st.clock
  {
  }

  /** The run ends without an error, and x, which has already run, is scheduled again. */
  lemma DeferredGotoIsLost()
    ensures EnvOk(LateEnv()) && StateOk(LateState()) && StateFits(LateState()) && NodeOk(ROOT)
    ensures var r := RunTasks(LateEnv(), LateState(), ROOT);
      r.out == Ok && r.st.proc.scheduled == Some(TARGET)
  {
    var env, st := LateEnv(), LateState();
    LateFits();
    LeafRuns(env, st, TARGET);
    var r := RunTask(env, st, TARGET);
    assert r.out == Ok && CanRun(r.st.proc) && r.st.clock == 0;
    PairRuns(env, st, ROOT, TARGET, LAST);
    assert RunBody(env, st, ROOT) == Result(r.st, Ok);
    LeafRuns(env, r.st, LAST);
    var s := Emit(r.st.(proc := SetTask(r.st.proc, LAST), logging := None), TaskStart("d", TemplateTag(LAST)));
    JumpSchedules(env, s);
  }
}
