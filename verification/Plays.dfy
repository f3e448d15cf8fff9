/** The events of a run in which async actions are at work at any depth.

    An async action runs on a clone of the context whose listener collects its events, and
    replays them into the context it was launched from before it is done; the task that
    launched it waits for it.  What a task publishes is therefore an interleaving of the
    events of its own actions with the replays, each of which may itself contain such
    interleavings.  A play is the shape of a run; it produces every word that some order of
    events can give it. */
module Plays {
  import opened Base
  import opened Tasks
  import opened Events
  import opened Levels
  import A = Async
  import E = Engine
  import H = Hierarchy
  import L = Logger

  datatype Play =
    | Silence
    | Reset
    | Then(first: Play, second: Play)
    | Jump(target: Task, inner: Play)
    | TaskRun(task: Task, inner: Play)
    | Forked(main: Play, buffers: seq<Play>)
    | ActionRun(activity: Activity, inner: Play)
    | Served(pid: nat, kind: Kind, inner: Play)
    | WorkflowRun(workflow: E.Workflow, tasks: TasksNode, inner: Play)

  // ---- The words of a play ----

  ghost predicate Produces(p: Play, w: Word)
    decreases p, 2
  {
    match p
    case Silence => w == []
    case Reset => w == [ResetError]
    case Then(first, second) => exists k: nat :: Splits(w, k) && Produces(first, w[..k]) && Produces(second, w[k..])
    case Jump(_, inner) => Produces(inner, w)
    case TaskRun(t, inner) => Wraps(TaskStart(t.node.name, E.TemplateTag(t)), inner, TaskEnd(t.node.name), w)
    case Forked(_, _) => exists words: seq<Word> :: IsShuffle(words, w) && Parallel(p, words)
    case ActionRun(activity, inner) => Wraps(ActivityStart(activity), inner, ActivityEnd(activity), w)
    case Served(pid, kind, inner) => Wraps(Request(pid, kind), inner, Response(pid, kind), w)
    case WorkflowRun(f, _, inner) => Wraps(WorkflowStart(f.node.name, f.url), inner, WorkflowEnd(f.node.name), w)
  }

  /** The words of the main sequence and of the buffers, in this order. */
  ghost predicate Parallel(p: Play, words: seq<Word>)
    requires p.Forked?
    decreases p, 1
  {
    && |words| == 1 + |p.buffers|
    && Produces(p.main, words[0])
    && forall i :: 0 <= i < |p.buffers| ==> Produces(p.buffers[i], words[1 + i])
  }

  predicate Splits(w: Word, k: nat) {
    k <= |w|
  }

  ghost predicate Wraps(o: Event, p: Play, c: Event, w: Word)
    decreases p, 3
  {
    |w| >= 2 && w[0] == o && w[|w| - 1] == c && Produces(p, w[1..|w| - 1])
  }

  // ---- The plays of the engine's entities ----

  /** Where a goto, a switch or a nested run finds its target. */
  datatype Scope = Scope(registry: map<string, E.Workflow>, root: TasksNode)

  ghost predicate Known(root: TasksNode, t: Task) {
    exists name: string :: Find(root, name) == Some(t)
  }

  ghost predicate Registered(registry: map<string, E.Workflow>, f: E.Workflow) {
    exists name :: name in registry && registry[name] == f
  }

  /** The process stack is shared by concurrent runs, and a goto or a switch looks its target
      up in the workflow on top: it can belong to any workflow that is running. */
  ghost predicate Reachable(scope: Scope, t: Task) {
    || Known(scope.root, t)
    || exists f :: Registered(scope.registry, f) && Known(f.root, t)
  }

  ghost predicate Selectable(f: E.Workflow, n: TasksNode) {
    exists s: Selector, i: bool :: E.Selection(f, s, i) == Some(n)
  }

  /** A task whose criterion does not hold is silent inside. */
  ghost predicate TaskPlay(scope: Scope, t: Task, p: Play)
    decreases p, 0
  {
    p.TaskRun? && p.task == t && (p.inner.Silence? || TaskBodyPlay(scope, t, p.inner))
  }

  /** First the subtasks, then, when they succeeded, the task's own actions. */
  ghost predicate TaskBodyPlay(scope: Scope, t: Task, p: Play)
    decreases p, 8
  {
    if t.sub.tasks == [] then OwnPlay(scope, t, p)
    else
      && p.Then? && NodePlay(scope, t.sub, p.first)
      && (p.second.Silence? || OwnPlay(scope, t, p.second))
  }

  /** The actions in sequence, and beside them one buffer for every expanded async action. */
  ghost predicate OwnPlay(scope: Scope, t: Task, p: Play)
    decreases p, 7
  {
    && p.Forked?
    && ActionsPlay(scope, t.actions, p.main)
    && |p.buffers| == |A.Expansion(t.actions)|
    && forall i :: 0 <= i < |p.buffers| ==>
         var a := A.Expansion(t.actions)[i];
         RepeatPlay(scope, a, a.repeat, p.buffers[i])
  }

  /** The body, then the deferred task. */
  ghost predicate NodePlay(scope: Scope, n: TasksNode, p: Play)
    decreases p, 6
  {
    if n.deferredTask == "" then BodyPlay(scope, n, p)
    else
      && p.Then? && BodyPlay(scope, n, p.first)
      && var t := Find(n, n.deferredTask);
         t.Some? && TaskPlay(scope, t.value, p.second)
  }

  /** The tasks in order, then the task scheduled by a goto, if any. */
  ghost predicate BodyPlay(scope: Scope, n: TasksNode, p: Play)
    decreases p, 5
  {
    && p.Then? && ListPlay(scope, n, n.tasks, p.first)
    && (p.second.Silence?
        || (p.second.Jump? && Reachable(scope, p.second.target)
            && NodePlay(scope, E.Single(p.second.target), p.second.inner)))
  }

  ghost predicate ListPlay(scope: Scope, n: TasksNode, tasks: seq<Task>, p: Play)
    decreases p, 4, |tasks|
  {
    if tasks == [] then p.Silence?
    else if E.IsHandler(n, tasks[0]) then ListPlay(scope, n, tasks[1..], p)
    else
      || p.Silence?
      || (p.Then? && TryPlay(scope, n, tasks[0], p.first)
          && (p.second.Silence? || ListPlay(scope, n, tasks[1..], p.second)))
  }

  ghost predicate TryPlay(scope: Scope, n: TasksNode, t: Task, p: Play)
    decreases p, 3
  {
    p.Then? && TaskPlay(scope, t, p.first) && (p.second.Silence? || CatchPlay(scope, n, p.second))
  }

  /** The catch task, after a report that the error was reset unless it fails anyway. */
  ghost predicate CatchPlay(scope: Scope, n: TasksNode, p: Play)
    decreases p, 2
  {
    && p.Then? && n.onErrorTask != ""
    && var t := Find(n, n.onErrorTask);
       t.Some? && p.first == (if t.value.fail then Silence else Reset) && TaskPlay(scope, t.value, p.second)
  }

  /** Actions in order; async ones, and those that are skipped, take no part. */
  ghost predicate ActionsPlay(scope: Scope, actions: seq<Action>, p: Play)
    decreases p, 4, |actions|
  {
    || p.Silence?
    || (actions != [] && ActionsPlay(scope, actions[1..], p))
    || (actions != [] && !actions[0].async && p.Then? && RepeatPlay(scope, actions[0], actions[0].repeat, p.first)
        && ActionsPlay(scope, actions[1..], p.second))
  }

  ghost predicate RepeatPlay(scope: Scope, a: Action, n: int, p: Play)
    decreases p, 3
  {
    || p.Silence?
    || (n > 0 && p.Then? && ActionPlay(scope, a, p.first) && RepeatPlay(scope, a, n - 1, p.second))
  }

  ghost predicate ActionPlay(scope: Scope, a: Action, p: Play)
    decreases p, 1
  {
    || p.Silence?
    || (RunningPlay(scope, p) && p.activity.service == a.service && p.activity.action == a.action
        && p.activity.tag == a.tag)
  }

  ghost predicate RunningPlay(scope: Scope, p: Play)
    decreases p, 0
  {
    p.ActionRun? && SendPlay(scope, p.inner)
  }

  /** A request that cannot be built is not published. */
  ghost predicate SendPlay(scope: Scope, p: Play)
    decreases p, 0
  {
    p.Silence? || (p.Served? && (p.inner.Silence? || HandlePlay(scope, p.kind, p.inner)))
  }

  ghost predicate HandlePlay(scope: Scope, k: Kind, p: Play)
    decreases p, 2
  {
    || (k.ActionKind? && RunningPlay(scope, p))
    || (k.SwitchKind? && p.TaskRun? && Reachable(scope, p.task) && TaskPlay(scope, p.task, p))
    || (k.RunKind? && WorkflowPlay(scope.registry, p))
  }

  ghost predicate WorkflowPlay(registry: map<string, E.Workflow>, p: Play)
    decreases p, 0
  {
    && p.WorkflowRun? && Registered(registry, p.workflow)
    && (p.inner.Silence?
        || (Selectable(p.workflow, p.tasks) && NodePlay(Scope(registry, p.workflow.root), p.tasks, p.inner)))
  }

  // ---- Every word of every play is level ----

  lemma {:induction false} ProducedHeight(p: Play, w: Word, layer: Layer)
    requires Produces(p, w)
    ensures Height(0, w, layer) == Some(0)
    decreases p, 1
  {
    match p
    case Silence =>
    case Reset =>
      assert w[1..] == [];
    case Then(first, second) =>
      var k: nat :| Splits(w, k) && Produces(first, w[..k]) && Produces(second, w[k..]);
      ProducedHeight(first, w[..k], layer);
      ProducedHeight(second, w[k..], layer);
      HeightAppend(0, w[..k], w[k..], layer);
      assert w[..k] + w[k..] == w;
    case Jump(_, inner) => ProducedHeight(inner, w, layer);
    case TaskRun(t, inner) =>
      WrappedHeight(TaskStart(t.node.name, E.TemplateTag(t)), inner, TaskEnd(t.node.name), w, layer);
    case Forked(_, _) => ForkedHeight(p, w, layer);
    case ActionRun(activity, inner) => WrappedHeight(ActivityStart(activity), inner, ActivityEnd(activity), w, layer);
    case Served(pid, kind, inner) => WrappedHeight(Request(pid, kind), inner, Response(pid, kind), w, layer);
    case WorkflowRun(f, _, inner) =>
      WrappedHeight(WorkflowStart(f.node.name, f.url), inner, WorkflowEnd(f.node.name), w, layer);
  }

  lemma {:induction false} WrappedHeight(o: Event, p: Play, c: Event, w: Word, layer: Layer)
    requires Opens(o) && !Opens(c) && Closes(o, c) && Wraps(o, p, c, w)
    ensures Height(0, w, layer) == Some(0)
    decreases p, 2
  {
    var v := w[1..|w| - 1];
    ProducedHeight(p, v, layer);
    BracketHeight(o, v, c, layer);
    assert w == [o] + v + [c];
  }

  lemma {:induction false} ForkedHeight(p: Play, w: Word, layer: Layer)
    requires p.Forked? && Produces(p, w)
    ensures Height(0, w, layer) == Some(0)
    decreases p, 0
  {
    var words: seq<Word> :| IsShuffle(words, w) && Parallel(p, words);
    var hs: seq<nat> := seq(|words|, i => 0);
    forall i | 0 <= i < |words|
      ensures Height(hs[i], words[i], layer) == Some(0)
    {
      if i == 0 {
        ProducedHeight(p.main, words[0], layer);
      } else {
        ProducedHeight(p.buffers[i - 1], words[1 + (i - 1)], layer);
      }
    }
    SumZero(hs);
    ShuffleHeight(words, hs, w, layer);
  }

  lemma ProducedIsLevel(p: Play, w: Word)
    requires Produces(p, w)
    ensures Level(w)
  {
    ProducedHeight(p, w, WorkflowLayer);
    ProducedHeight(p, w, TaskLayer);
  }

  /** The async actions are silent, at every depth. */
  predicate Quiet(p: Play) {
    match p
    case Silence => true
    case Reset => true
    case Then(first, second) => Quiet(first) && Quiet(second)
    case Forked(main, buffers) => Quiet(main) && forall i :: 0 <= i < |buffers| ==> buffers[i] == Silence
    case Jump(_, inner) => Quiet(inner)
    case TaskRun(_, inner) => Quiet(inner)
    case ActionRun(_, inner) => Quiet(inner)
    case Served(_, _, inner) => Quiet(inner)
    case WorkflowRun(_, _, inner) => Quiet(inner)
  }

  // ---- What a task's own runs amount to ----

  /** The activities of a sequence of runs, not counting those below them. */
  function Launched(p: Play): nat {
    match p
    case Then(first, second) => Launched(first) + Launched(second)
    case ActionRun(_, _) => 1
    case _ => 0
  }

  function LaunchedByAll(ps: seq<Play>): nat {
    if ps == [] then 0 else Launched(ps[0]) + LaunchedByAll(ps[1..])
  }

  lemma {:induction false} RepeatIsBounded(scope: Scope, a: Action, n: int, p: Play)
    requires RepeatPlay(scope, a, n, p)
    ensures Launched(p) <= if n > 0 then n else 0
    decreases p
  {
    if p.Then? {
      assert p.first.Silence? || RunningPlay(scope, p.first);
      RepeatIsBounded(scope, a, n - 1, p.second);
    }
  }

  function OnlySequential(actions: seq<Action>): seq<Action> {
    if actions == [] then [] else (if actions[0].async then [] else [actions[0]]) + OnlySequential(actions[1..])
  }

  lemma {:induction false} ActionsAreBounded(scope: Scope, actions: seq<Action>, p: Play)
    requires ActionsPlay(scope, actions, p)
    ensures Launched(p) <= A.Runs(OnlySequential(actions))
    decreases p, |actions|
  {
    if actions != [] && !p.Silence? {
      var a := actions[0];
      var rest := OnlySequential(actions[1..]);
      A.RunsAppend(if a.async then [] else [a], rest);
      if ActionsPlay(scope, actions[1..], p) {
        ActionsAreBounded(scope, actions[1..], p);
      } else {
        RepeatIsBounded(scope, a, a.repeat, p.first);
        ActionsAreBounded(scope, actions[1..], p.second);
        assert A.Runs([a]) == if a.repeat > 0 then a.repeat else 0;
      }
    }
  }

  lemma {:induction false} BuffersAreBounded(scope: Scope, actions: seq<Action>, ps: seq<Play>)
    requires |ps| == |actions|
    requires forall i :: 0 <= i < |ps| ==> RepeatPlay(scope, actions[i], actions[i].repeat, ps[i])
    ensures LaunchedByAll(ps) <= A.Runs(actions)
  {
    if ps != [] {
      RepeatIsBounded(scope, actions[0], actions[0].repeat, ps[0]);
      BuffersAreBounded(scope, actions[1..], ps[1..]);
    }
  }

  /** Beside its sequential runs a task launches at most as many as its async actions ask
      for, repetitions included. */
  lemma OwnRunsAreBounded(scope: Scope, t: Task, p: Play)
    requires OwnPlay(scope, t, p)
    ensures Launched(p.main) <= A.Runs(OnlySequential(t.actions))
    ensures LaunchedByAll(p.buffers) <= A.Runs(A.OnlyAsync(t.actions))
  {
    ActionsAreBounded(scope, t.actions, p.main);
    BuffersAreBounded(scope, A.Expansion(t.actions), p.buffers);
    A.ExpansionConservesRuns(t.actions);
  }

  // ---- The logger while async actions are at work ----

  lemma {:induction false} MessagePrefix(ms: seq<L.Message>, j: nat) returns (k: nat)
    requires j <= |ms|
    ensures k <= |H.MessageStructure(ms)| && H.MessageStructure(ms[..j]) == H.MessageStructure(ms)[..k]
  {
    k := 0;
    if j > 0 {
      var first := if ms[0].value.Known? && H.Structural(ms[0].value.event) then [ms[0].value.event] else [];
      var i := MessagePrefix(ms[1..], j - 1);
      assert ms[..j][1..] == ms[1..][..j - 1];
      k := |first| + i;
      assert H.MessageStructure(ms) == first + H.MessageStructure(ms[1..]);
    }
  }

  lemma {:induction false} StructureHeight(h: nat, w: Word, layer: Layer)
    requires layer != EveryLayer
    ensures Height(h, H.Structure(w), layer) == Height(h, w, layer)
    decreases |w|
  {
    if w != [] {
      var e := w[0];
      var rest := H.Structure(w[1..]);
      if H.Structural(e) {
        assert H.Structure(w)[1..] == rest;
      } else {
        assert H.Structure(w) == rest;
      }
      if Starts(e, layer) {
        StructureHeight(h + 1, w[1..], layer);
      } else if !Ends(e, layer) {
        StructureHeight(h, w[1..], layer);
      } else if h > 0 {
        StructureHeight(h - 1, w[1..], layer);
      }
    }
  }

  /** A stretch of messages that is level, whatever else is published between them. */
  lemma MessagesAreSafe(s: L.State, ms: seq<L.Message>, w: Word)
    requires Level(w) && H.MessageStructure(ms) == H.Structure(w)
    ensures L.HandleAll(s, ms).stacks == s.stacks
    ensures forall j :: 0 <= j <= |ms| ==> Above(s.stacks, L.HandleAll(s, ms[..j]).stacks)
  {
    var v := H.MessageStructure(ms);
    StructureHeight(0, w, WorkflowLayer);
    StructureHeight(0, w, TaskLayer);
    LevelIsSafe(s.stacks, v);
    H.HandleStructure(s, ms);
    forall j | 0 <= j <= |ms|
      ensures Above(s.stacks, L.HandleAll(s, ms[..j]).stacks)
    {
      var k := MessagePrefix(ms, j);
      H.HandleStructure(s, ms[..j]);
    }
  }

  /** However the events of async actions, at any depth of a run, interleave with each other,
      with the events beside them and with unrelated messages: during the run the logger keeps
      the workflows and tasks that were open before it, and afterwards it has exactly those. */
  lemma AsyncRunIsSafe(p: Play, w: Word, s: L.State, ms: seq<L.Message>)
    requires Produces(p, w) && H.MessageStructure(ms) == H.Structure(w)
    ensures L.HandleAll(s, ms).stacks == s.stacks
    ensures forall j :: 0 <= j <= |ms| ==> Above(s.stacks, L.HandleAll(s, ms[..j]).stacks)
  {
    ProducedIsLevel(p, w);
    MessagesAreSafe(s, ms, w);
  }

  /** From its start event to its end event a task itself stays open as well. */
  lemma AsyncTaskStaysOpen(t: Task, inner: Play, w: Word, base: L.Stacks, k: nat)
    requires Produces(TaskRun(t, inner), w) && 1 <= k < |w|
    ensures w[0] == TaskStart(t.node.name, E.TemplateTag(t)) && w[|w| - 1] == TaskEnd(t.node.name)
    ensures Above(L.Move(base, w[0]), H.Feed(base, w[..k]))
  {
    var v := w[1..|w| - 1];
    assert Produces(inner, v);
    ProducedIsLevel(inner, v);
    LevelIsSafe(L.Move(base, w[0]), v);
    assert w[..k][1..] == v[..k - 1];
  }
}
