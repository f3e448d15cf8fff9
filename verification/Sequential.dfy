/** Every run of the engine is a play in which the async actions stay silent: the events it
    emits are among those that the plays of its task or workflow produce. */
module Sequential {
  import opened Base
  import opened Tasks
  import opened Events
  import opened Engine
  import opened Levels
  import opened Plays
  import A = Async
  import F = EngineFacts
  import T = Theorems

  function ScopeOf(env: Env, st: State): Scope {
    Scope(env.registry, st.proc.workflow.root)
  }

  ghost predicate Pending(st: State) {
    st.proc.scheduled.Some? ==> Known(st.proc.workflow.root, st.proc.scheduled.value)
  }

  /** `b` is reached from `a` by emitting a word of `p`, whose async buffers are silent. */
  ghost predicate Played(a: State, b: State, p: Play) {
    && a.trace <= b.trace && Produces(p, b.trace[|a.trace|..]) && Quiet(p)
    && b.proc.workflow == a.proc.workflow && Pending(b)
  }

  // ---- Composition ----

  lemma PlayedSilence(a: State, b: State)
    requires b.trace == a.trace && b.proc.workflow == a.proc.workflow && Pending(b)
    ensures Played(a, b, Silence)
  {
  }

  lemma PlayedThen(a: State, b: State, c: State, p: Play, q: Play)
    requires Played(a, b, p) && Played(b, c, q)
    ensures Played(a, c, Then(p, q))
  {
    var w, k := c.trace[|a.trace|..], |b.trace| - |a.trace|;
    assert w[..k] == b.trace[|a.trace|..] && w[k..] == c.trace[|b.trace|..];
    assert Splits(w, k);
  }

  lemma PlayedBracket(a: State, b: State, p: Play, o: Event, c: Event)
    requires Played(Emit(a, o), b, p)
    ensures a.trace <= Emit(b, c).trace && Wraps(o, p, c, Emit(b, c).trace[|a.trace|..])
  {
    var w := Emit(b, c).trace[|a.trace|..];
    var v := b.trace[|a.trace + [o]|..];
    assert b.trace == a.trace + [o] + v;
    assert w == [o] + v + [c];
    assert w[1..|w| - 1] == v;
  }

  function Silences(n: nat): (ps: seq<Play>)
    ensures |ps| == n && forall i :: 0 <= i < n ==> ps[i] == Silence
  {
    seq(n, i => Silence)
  }

  /** The other buffers stay silent. */
  lemma PlayedFork(a: State, b: State, p: Play, n: nat)
    requires Played(a, b, p)
    ensures Played(a, b, Forked(p, Silences(n)))
  {
    var w := b.trace[|a.trace|..];
    var words := [w] + seq(n, i => []);
    ShuffleAlone(words, w);
    assert Parallel(Forked(p, Silences(n)), words);
  }

  // ---- Actions ----

  lemma {:induction false} ActionsPlayLonger(scope: Scope, actions: seq<Action>, k: nat, p: Play)
    requires k <= |actions| && ActionsPlay(scope, actions[k..], p)
    ensures ActionsPlay(scope, actions, p)
    decreases k
  {
    if k > 0 {
      assert actions[1..][k - 1..] == actions[k..];
      ActionsPlayLonger(scope, actions[1..], k - 1, p);
    }
  }

  lemma {:induction false} ActionsPlayed(env: Env, st: State, actions: seq<Action>) returns (p: Play)
    requires EnvOk(env) && StateOk(st) && Pending(st)
    ensures ActionsPlay(ScopeOf(env, st), actions, p) && Played(st, RunActions(env, st, actions).st, p)
    decreases Measure(env, st), 0, 3, |actions|, 1
  {
    p := Silence;
    if actions != [] {
      if PassedOver(st.proc, actions[0]) {
        p := ActionsPlayed(env, st, actions[1..]);
      } else {
        p := HeadPlayed(env, st, actions);
      }
    }
  }

  /** The actions when the first is not passed over: its skip criterion comes first. */
  lemma {:induction false} HeadPlayed(env: Env, st: State, actions: seq<Action>) returns (p: Play)
    requires EnvOk(env) && StateOk(st) && Pending(st) && actions != [] && !PassedOver(st.proc, actions[0])
    ensures ActionsPlay(ScopeOf(env, st), actions, p) && Played(st, RunActions(env, st, actions).st, p)
    decreases Measure(env, st), 0, 3, |actions|, 0
  {
    var v := Evaluate(env, st, actions[0].skip, false);
    assert v.st.trace == st.trace && v.st.proc == st.proc;
    if v.out.Fail? {
      p := Silence;
      PlayedSilence(st, v.st);
    } else if v.holds {
      p := SkipPlayed(env, v.st, actions);
    } else {
      p := ActionPlayed(env, v.st, actions);
    }
  }

  /** The actions after those that a skip drops. */
  lemma {:induction false} SkipPlayed(env: Env, st: State, actions: seq<Action>) returns (p: Play)
    requires EnvOk(env) && StateOk(st) && Pending(st) && actions != []
    ensures ActionsPlay(ScopeOf(env, st), actions, p)
    ensures Played(st, RunActions(env, st, DropTag(actions[1..], actions[0].tag.tagID)).st, p)
    decreases Measure(env, st), 0, 3, |actions| - 1, 2
  {
    DropTagIsSuffix(actions[1..], actions[0].tag.tagID);
    var left := DropTag(actions[1..], actions[0].tag.tagID);
    p := ActionsPlayed(env, st, left);
    assert left == actions[|actions| - |left|..];
    ActionsPlayLonger(ScopeOf(env, st), actions, |actions| - |left|, p);
  }

  /** An action that is not skipped, and the actions after it. */
  lemma {:induction false} ActionPlayed(env: Env, st: State, actions: seq<Action>) returns (p: Play)
    requires EnvOk(env) && StateOk(st) && Pending(st) && actions != [] && !actions[0].async
    ensures ActionsPlay(ScopeOf(env, st), actions, p)
    ensures var r := Repeat(env, st, actions[0], actions[0].repeat);
      Played(st, if r.out.Fail? then r.st else RunActions(env, r.st, actions[1..]).st, p)
    decreases Measure(env, st), 0, 3, |actions| - 1, 2
  {
    var a := actions[0];
    var r := Repeat(env, st, a, a.repeat);
    var q := RepeatPlayed(env, st, a, a.repeat);
    if r.out.Fail? {
      PlayedSilence(r.st, r.st);
      PlayedThen(st, r.st, r.st, q, Silence);
      p := Then(q, Silence);
    } else {
      var x := ActionsPlayed(env, r.st, actions[1..]);
      PlayedThen(st, r.st, RunActions(env, r.st, actions[1..]).st, q, x);
      p := Then(q, x);
    }
  }

  lemma {:induction false} RepeatPlayed(env: Env, st: State, a: Action, n: int) returns (p: Play)
    requires EnvOk(env) && StateOk(st) && Pending(st)
    ensures RepeatPlay(ScopeOf(env, st), a, n, p) && Played(st, Repeat(env, st, a, n).st, p)
    decreases Measure(env, st), 0, 2, if n < 0 then 0 else n
  {
    p := Silence;
    if n > 0 {
      var v := RunOnce(env, st, a);
      var q := OncePlayed(env, st, a);
      if v.out.Fail? || v.holds {
        PlayedSilence(v.st, v.st);
        PlayedThen(st, v.st, v.st, q, Silence);
        p := Then(q, Silence);
      } else {
        var x := RepeatPlayed(env, v.st, a, n - 1);
        PlayedThen(st, v.st, Repeat(env, v.st, a, n - 1).st, q, x);
        p := Then(q, x);
      }
    }
  }

  lemma {:induction false} OncePlayed(env: Env, st: State, a: Action) returns (p: Play)
    requires EnvOk(env) && StateOk(st) && Pending(st)
    ensures ActionPlay(ScopeOf(env, st), a, p) && Played(st, RunOnce(env, st, a).st, p)
    decreases Measure(env, st), 0, 1, 1
  {
    var r := RunAction(env, st, a);
    p := RunPlayed(env, st, a);
    if r.out == Ok {
      AfterIsSilent(env, r.st, a);
    }
  }

  /** Extraction and the exit criterion emit nothing. */
  lemma AfterIsSilent(env: Env, st: State, a: Action)
    requires StateOk(st)
    ensures var x := Apply(env, st, a.extract);
      var y := if x.out.Fail? then x.st else Evaluate(env, x.st, a.exit, false).st;
      y.trace == st.trace && y.proc == st.proc
  {
  }

  lemma {:induction false} RunPlayed(env: Env, st: State, a: Action) returns (p: Play)
    requires EnvOk(env) && StateOk(st) && Pending(st)
    ensures ActionPlay(ScopeOf(env, st), a, p) && Played(st, RunAction(env, st, a).st, p)
    ensures p.Silence? || RunningPlay(ScopeOf(env, st), p)
    decreases Measure(env, st), 0, 1, 0
  {
    match EnterNode(env, st, a.node)
    case Stop(s, out) =>
      p := Silence;
      PlayedSilence(st, s);
    case Enter(s) =>
      p := ActivityPlayed(env, s, a);
      NodeIsSilent(env, st, a.node, s, RunActivity(env, s, a), p);
  }

  /** A node itself emits nothing. */
  lemma NodeIsSilent(env: Env, st: State, node: Node, s: State, r: Result, p: Play)
    requires StateOk(st) && EnterNode(env, st, node) == Enter(s)
    requires StateOk(r.st) && Played(s, r.st, p)
    ensures s.trace == st.trace && s.proc == st.proc
    ensures Played(st, LeaveNode(env, r, node, st.logging).st, p)
  {
    var l := LeaveNode(env, r, node, st.logging).st;
    assert s.proc == st.proc && s.trace == st.trace;
    assert l.proc == r.st.proc && l.trace == r.st.trace;
  }

  lemma {:induction false} ActivityPlayed(env: Env, st: State, a: Action) returns (p: Play)
    requires EnvOk(env) && StateOk(st) && Pending(st)
    ensures RunningPlay(ScopeOf(env, st), p) && ActionPlay(ScopeOf(env, st), a, p)
    ensures Played(st, RunActivity(env, st, a).st, p)
    decreases Measure(env, st), 0, 0, 2
  {
    var activity := NewActivity(st.proc, a);
    var pushed := st.(proc := Push(st.proc, activity));
    var begun := Emit(pushed, ActivityStart(activity));
    var r := Send(env, begun);
    var q := SendPlayed(env, begun);
    PlayedBracket(pushed, r.st, q, ActivityStart(activity), ActivityEnd(activity));
    p := ActionRun(activity, q);
  }

  lemma {:induction false} SendPlayed(env: Env, st: State) returns (p: Play)
    requires EnvOk(env) && StateOk(st) && Pending(st)
    ensures SendPlay(ScopeOf(env, st), p) && Played(st, Send(env, st).st, p)
    decreases Measure(env, st), 0, 0, 1
  {
    var d := env.world(st.clock).dispatch;
    var asked := Tick(st);
    var k, id := KindOf(d), st.proc.id;
    p := Silence;
    if d.Reject? {
      PlayedSilence(st, asked);
    } else {
      var served := Emit(asked, Request(id, k));
      var r := Handle(env, st, d, served);
      var q := HandlePlayed(env, st, d, served);
      PlayedBracket(asked, r.st, q, Request(id, k), Response(id, k));
      p := Served(id, k, q);
    }
  }

  lemma {:induction false} HandlePlayed(env: Env, st: State, d: Dispatch, asked: State) returns (p: Play)
    requires EnvOk(env) && StateOk(st) && Pending(st) && d == env.world(st.clock).dispatch
    requires asked.clock == st.clock + 1 && asked.proc == st.proc
    ensures p.Silence? || HandlePlay(ScopeOf(env, st), KindOf(d), p)
    ensures Played(asked, Handle(env, st, d, asked).st, p)
    decreases Measure(env, st), 0, 0, 0
  {
    var root := asked.proc.workflow.root;
    p := Silence;
    match d
    case Goto(name) =>
      assert Find(root, name).Some? ==> Known(root, Find(root, name).value);
    case SwitchTask(name) =>
      FoundIsOk(root.tasks, Trim(name));
      var t := Find(root, name);
      if t.Some? {
        assert Known(root, t.value);
        p := TaskPlayed(env, asked, t.value);
      }
    case SwitchAction(a) =>
      p := RunPlayed(env, asked, a);
    case Run(_, _, _, _, _) =>
      p := WorkflowPlayed(env, asked, d);
    case _ =>
  }

  // ---- Tasks ----

  lemma {:induction false} TaskPlayed(env: Env, st: State, t: Task) returns (p: Play)
    requires EnvOk(env) && StateOk(st) && Pending(st) && TaskOk(t)
    ensures TaskPlay(ScopeOf(env, st), t, p) && Played(st, RunTask(env, st, t).st, p)
    decreases Measure(env, st), TaskSize(t), 1, 0
  {
    var entered := st.(proc := SetTask(st.proc, t));
    var o, c := TaskStart(t.node.name, TemplateTag(t)), TaskEnd(t.node.name);
    var q := TaskNodePlayed(env, Emit(entered, o), t, st.logging);
    PlayedBracket(entered, F.InsideTask(env, Emit(entered, o), t, st.logging).st, q, o, c);
    p := TaskRun(t, q);
  }

  lemma {:induction false} TaskNodePlayed(env: Env, begun: State, t: Task, saved: Option<bool>) returns (q: Play)
    requires EnvOk(env) && StateOk(begun) && Pending(begun) && TaskOk(t) && saved == begun.logging
    ensures q.Silence? || TaskBodyPlay(ScopeOf(env, begun), t, q)
    ensures Played(begun, F.InsideTask(env, begun, t, saved).st, q)
    decreases Measure(env, begun), TaskSize(t), 0, 1
  {
    match EnterNode(env, begun, t.node)
    case Stop(s, out) =>
      q := Silence;
      PlayedSilence(begun, s);
    case Enter(s) =>
      q := TaskBodyPlayed(env, s, t);
      NodeIsSilent(env, begun, t.node, s, RunTaskBody(env, s, t), q);
  }

  lemma {:induction false} TaskBodyPlayed(env: Env, st: State, t: Task) returns (p: Play)
    requires EnvOk(env) && StateOk(st) && Pending(st) && TaskOk(t)
    ensures TaskBodyPlay(ScopeOf(env, st), t, p) && Played(st, RunTaskBody(env, st, t).st, p)
    decreases Measure(env, st), TaskSize(t), 0, 0
  {
    if t.sub.tasks == [] {
      p := OwnPlayed(env, st, t);
    } else {
      var r := RunTasks(env, st, t.sub);
      var q := NodePlayed(env, st, t.sub);
      if r.out.Fail? || t.actions == [] {
        PlayedSilence(r.st, r.st);
        PlayedThen(st, r.st, r.st, q, Silence);
        p := Then(q, Silence);
      } else {
        var x := OwnPlayed(env, r.st, t);
        PlayedThen(st, r.st, RunActions(env, r.st, t.actions).st, q, x);
        p := Then(q, x);
      }
    }
  }

  lemma {:induction false} OwnPlayed(env: Env, st: State, t: Task) returns (p: Play)
    requires EnvOk(env) && StateOk(st) && Pending(st)
    ensures OwnPlay(ScopeOf(env, st), t, p) && Played(st, RunActions(env, st, t.actions).st, p)
    decreases Measure(env, st), 0, 4, 0
  {
    var q := ActionsPlayed(env, st, t.actions);
    var n := |A.Expansion(t.actions)|;
    PlayedFork(st, RunActions(env, st, t.actions).st, q, n);
    p := Forked(q, Silences(n));
  }

  lemma {:induction false} NodePlayed(env: Env, st: State, n: TasksNode) returns (p: Play)
    requires EnvOk(env) && StateOk(st) && Pending(st) && NodeOk(n)
    ensures NodePlay(ScopeOf(env, st), n, p) && Played(st, RunTasks(env, st, n).st, p)
    decreases Measure(env, st), NodeSize(n), 4, 0
  {
    p := BodyPlayed(env, st, n);
    if n.deferredTask != "" {
      var b := RunBody(env, st, n);
      FoundIsOk(n.tasks, Trim(n.deferredTask));
      FoundIsSmaller(n.tasks, Trim(n.deferredTask));
      var t := Find(n, n.deferredTask).value;
      var q := TaskPlayed(env, b.st, t);
      PlayedThen(st, b.st, RunTask(env, b.st, t).st, p, q);
      p := Then(p, q);
    }
  }

  lemma {:induction false} BodyPlayed(env: Env, st: State, n: TasksNode) returns (p: Play)
    requires EnvOk(env) && StateOk(st) && Pending(st) && NodeOk(n)
    ensures BodyPlay(ScopeOf(env, st), n, p) && Played(st, RunBody(env, st, n).st, p)
    decreases Measure(env, st), NodeSize(n), 3, 0
  {
    var r := RunList(env, st, n, n.tasks);
    var q := ListPlayed(env, st, n, n.tasks);
    if r.out.Fail? || r.st.proc.scheduled.None? {
      PlayedSilence(r.st, r.st);
      PlayedThen(st, r.st, r.st, q, Silence);
      p := Then(q, Silence);
    } else {
      var t := r.st.proc.scheduled.value;
      var s := r.st.(proc := r.st.proc.(scheduled := None));
      var x := NodePlayed(env, s, Single(t));
      var last := RunTasks(env, s, Single(t)).st;
      assert Played(r.st, last, Jump(t, x));
      PlayedThen(st, r.st, last, q, Jump(t, x));
      p := Then(q, Jump(t, x));
    }
  }

  lemma {:induction false} ListPlayed(env: Env, st: State, n: TasksNode, tasks: seq<Task>) returns (p: Play)
    requires EnvOk(env) && StateOk(st) && Pending(st) && NodeOk(n) && IsSuffix(tasks, n)
    ensures ListPlay(ScopeOf(env, st), n, tasks, p) && Played(st, RunList(env, st, n, tasks).st, p)
    decreases Measure(env, st), NodeSize(n), 2, |tasks|
  {
    p := Silence;
    if tasks != [] {
      if IsHandler(n, tasks[0]) {
        p := ListPlayed(env, st, n, tasks[1..]);
      } else if st.proc.terminated {
        PlayedSilence(st, st);
      } else {
        MemberIsOk(n.tasks, |n.tasks| - |tasks|);
        MemberIsSmaller(n.tasks, |n.tasks| - |tasks|);
        var r := TryTask(env, st, n, tasks[0]);
        var q := TryPlayed(env, st, n, tasks[0]);
        if r.out.Fail? {
          PlayedSilence(r.st, r.st);
          PlayedThen(st, r.st, r.st, q, Silence);
          p := Then(q, Silence);
        } else {
          var x := ListPlayed(env, r.st, n, tasks[1..]);
          PlayedThen(st, r.st, RunList(env, r.st, n, tasks[1..]).st, q, x);
          p := Then(q, x);
        }
      }
    }
  }

  lemma {:induction false} TryPlayed(env: Env, st: State, n: TasksNode, t: Task) returns (p: Play)
    requires EnvOk(env) && StateOk(st) && Pending(st) && NodeOk(n) && TaskOk(t) && TaskSize(t) < NodeSize(n)
    ensures TryPlay(ScopeOf(env, st), n, t, p) && Played(st, TryTask(env, st, n, t).st, p)
    decreases Measure(env, st), NodeSize(n), 1, 0
  {
    var r := RunTask(env, st, t);
    var q := TaskPlayed(env, st, t);
    var x := Silence;
    if r.out.Fail? {
      x := CatchPlayed(env, r.st, n, r.out);
      PlayedThen(st, r.st, Catch(env, r.st, n, r.out).st, q, x);
    } else {
      PlayedSilence(r.st, r.st);
      PlayedThen(st, r.st, r.st, q, x);
    }
    p := Then(q, x);
  }

  lemma {:induction false} CatchPlayed(env: Env, st: State, n: TasksNode, failure: Outcome) returns (p: Play)
    requires EnvOk(env) && StateOk(st) && Pending(st) && NodeOk(n)
    ensures p.Silence? || CatchPlay(ScopeOf(env, st), n, p)
    ensures Played(st, Catch(env, st, n, failure).st, p)
    decreases Measure(env, st), NodeSize(n), 0, 0
  {
    p := Silence;
    if n.onErrorTask != "" && Find(n, n.onErrorTask).Some? {
      FoundIsOk(n.tasks, Trim(n.onErrorTask));
      FoundIsSmaller(n.tasks, Trim(n.onErrorTask));
      var t := Find(n, n.onErrorTask).value;
      var from := if t.fail then st else Emit(st, ResetError);
      var first := if t.fail then Silence else Reset;
      assert Played(st, from, first);
      var q := TaskPlayed(env, from, t);
      PlayedThen(st, from, RunTask(env, from, t).st, first, q);
      p := Then(first, q);
    } else {
      PlayedSilence(st, st);
    }
  }

  // ---- Workflows ----

  lemma {:induction false} RootPlayed(env: Env, st: State, f: Workflow, n: TasksNode) returns (p: Play)
    requires EnvOk(env) && StateOk(st) && Pending(st) && NodeOk(n)
    ensures p.Silence? || NodePlay(ScopeOf(env, st), n, p)
    ensures Played(st, RunRoot(env, st, f, n).st, p)
    decreases Measure(env, st), NodeSize(n), 5, 0
  {
    match EnterNode(env, st, f.node)
    case Stop(s, out) =>
      p := Silence;
      PlayedSilence(st, s);
    case Enter(s) =>
      p := NodePlayed(env, s, n);
      NodeIsSilent(env, st, f.node, s, RunTasks(env, s, n), p);
  }

  lemma {:induction false} SelectedPlayed(env: Env, st: State, f: Workflow, d: Dispatch) returns (p: Play, n: TasksNode)
    requires EnvOk(env) && StateOk(st) && Pending(st) && st.proc.workflow == f && d.Run? && Callable(f, d)
    ensures p.Silence? || (Selectable(f, n) && NodePlay(Scope(env.registry, f.root), n, p))
    ensures Played(st, RunSelected(env, st, f, d).st, p)
    decreases Measure(env, st) + 1, 0, 0, 0
  {
    p, n := Silence, f.root;
    match Selection(f, d.selector, d.inherited)
    case None => PlayedSilence(st, st);
    case Some(m) =>
      n := m;
      p := RootPlayed(env, st, f, n);
  }

  lemma {:induction false} NestedPlayed(env: Env, st: State, f: Workflow, d: Dispatch) returns (p: Play, n: TasksNode)
    requires EnvOk(env) && StateOk(st) && Pending(st) && d.Run? && Callable(f, d)
    ensures p.Silence? || (Selectable(f, n) && NodePlay(Scope(env.registry, f.root), n, p))
    ensures Played(st, RunNested(env, st, f, d).st, p)
    decreases Measure(env, st) + 1, 0, 0, 1
  {
    var inner := st.(proc := NewProc(st.next, f, st.proc.tagIDs + d.tagIDs), next := st.next + 1,
                     logging := if d.shared then st.logging else None);
    p, n := SelectedPlayed(env, inner, f, d);
  }

  lemma {:induction false} WorkflowPlayed(env: Env, st: State, d: Dispatch) returns (p: Play)
    requires EnvOk(env) && StateOk(st) && Pending(st) && d.Run? && RequestOk(env.registry, d)
    ensures if d.name in env.registry then WorkflowPlay(env.registry, p) else p == Silence
    ensures Played(st, RunWorkflow(env, st, d).st, p)
    decreases Measure(env, st) + 1, 0, 0, 2
  {
    p := Silence;
    if d.name in env.registry {
      var f := env.registry[d.name];
      var o, c := WorkflowStart(f.node.name, f.url), WorkflowEnd(f.node.name);
      var q, n := NestedPlayed(env, Emit(st, o), f, d);
      PlayedBracket(st, RunNested(env, Emit(st, o), f, d).st, q, o, c);
      p := WorkflowRun(f, n, q);
    }
  }

  /** The events of a session are those of a play of its workflow. */
  lemma SessionPlayed(env: Env, d: Dispatch) returns (p: Play)
    requires EnvOk(env) && d.Run? && RequestOk(env.registry, d)
    ensures Produces(p, T.Session(env, d).st.trace) && Quiet(p)
    ensures if d.name in env.registry then WorkflowPlay(env.registry, p) else p == Silence
  {
    p := WorkflowPlayed(env, T.Start(), d);
    var w := T.Session(env, d).st.trace;
    assert w[|T.Start().trace|..] == w;
  }
}
