/** What every run of the engine keeps, whatever the outside world does. */
module EngineFacts {
  import opened Base
  import opened Tasks
  import opened Events
  import opened Engine

  // ---- Properties of words ----

  /** Does `w` contain a request of process `p` of kind `k`? */
  ghost predicate Asked(w: Word, p: nat, k: Kind) {
    exists i :: 0 <= i < |w| && w[i] == Request(p, k)
  }

  /** Requests in `w` come from process `p` or from processes created in `lo..hi`. */
  ghost predicate Owned(w: Word, p: nat, lo: nat, hi: nat) {
    forall i :: 0 <= i < |w| && w[i].Request? ==> w[i].pid == p || lo <= w[i].pid < hi
  }

  ghost predicate Silent(w: Word, p: nat) {
    forall i :: 0 <= i < |w| && w[i].Request? ==> w[i].pid != p
  }

  /** After a process has asked to exit, it dispatches no request. */
  ghost predicate ExitIsFinal(w: Word) {
    forall i, j :: 0 <= i < j < |w| && w[i].Request? && w[i].kind == ExitKind && w[j].Request? ==>
      w[j].pid != w[i].pid
  }

  /** While there are activities, the last one is the current one. */
  predicate Current(p: Proc) {
    p.activities != [] ==> p.activity == Some(p.activities[|p.activities| - 1])
  }

  predicate StateFits(st: State) {
    st.proc.id < st.next && Current(st.proc)
  }

  /** `b` is reached from `a` by emitting `w`: the word is well nested, activities and
      logging are as before, the process ends terminated if and only if it was or it asked
      to exit, and a scheduled task that was not there before was asked for. */
  ghost predicate Balanced(a: State, b: State, w: Word) {
    && b.trace == a.trace + w
    && Nested(w)
    && b.proc.id == a.proc.id && b.proc.workflow == a.proc.workflow && b.proc.tagIDs == a.proc.tagIDs
    && b.proc.activities == a.proc.activities && Current(b.proc)
    && b.logging == a.logging
  }

  ghost predicate Accounted(a: State, b: State, w: Word) {
    && a.next <= b.next
    && Owned(w, a.proc.id, a.next, b.next)
    && (b.proc.terminated <==> a.proc.terminated || Asked(w, a.proc.id, ExitKind))
    && (a.proc.terminated ==> Silent(w, a.proc.id))
    && ExitIsFinal(w)
    && (a.proc.scheduled.None? && b.proc.scheduled.Some? ==> Asked(w, a.proc.id, GotoKind))
  }

  ghost predicate Good(a: State, b: State, w: Word) {
    Balanced(a, b, w) && Accounted(a, b, w)
  }

  // ---- Composition ----

  /** `b` differs from `a` at most in its clock, and in the task and tag filter of its process. */
  predicate Idle(a: State, b: State) {
    && b == a.(clock := b.clock, proc := b.proc)
    && b.proc == a.proc.(task := b.proc.task, hasTagID := b.proc.hasTagID)
  }

  lemma GoodIdle(a: State, b: State)
    requires StateFits(a) && Idle(a, b)
    ensures Good(a, b, [])
  {
  }

  lemma AccountedCompose(a: State, b: State, c: State, v: Word, w: Word)
    requires a.proc.id < a.next && b.proc.id == a.proc.id
    requires Accounted(a, b, v) && Accounted(b, c, w)
    ensures Accounted(a, c, v + w)
  {
    var vw := v + w;
    assert forall i :: 0 <= i < |v| ==> vw[i] == v[i];
    assert forall i :: 0 <= i < |w| ==> vw[|v| + i] == w[i];
    AskedConcat(v, w, a.proc.id, ExitKind);
    AskedConcat(v, w, a.proc.id, GotoKind);
    forall i, j | 0 <= i < j < |vw| && vw[i].Request? && vw[i].kind == ExitKind && vw[j].Request?
      ensures vw[j].pid != vw[i].pid
    {
      if i < |v| && j >= |v| {
        assert vw[j] == w[j - |v|];
        if v[i].pid == a.proc.id {
          assert v[i] == Request(a.proc.id, ExitKind);
          assert Asked(v, a.proc.id, ExitKind);
        }
      } else if i >= |v| {
        assert vw[i] == w[i - |v|] && vw[j] == w[j - |v|];
      }
    }
  }

  lemma AskedConcat(v: Word, w: Word, p: nat, k: Kind)
    ensures Asked(v + w, p, k) <==> Asked(v, p, k) || Asked(w, p, k)
  {
    var vw := v + w;
    if Asked(v, p, k) {
      var i :| 0 <= i < |v| && v[i] == Request(p, k);
      assert vw[i] == Request(p, k);
    }
    if Asked(w, p, k) {
      var i :| 0 <= i < |w| && w[i] == Request(p, k);
      assert vw[|v| + i] == Request(p, k);
    }
    if Asked(vw, p, k) {
      var i :| 0 <= i < |vw| && vw[i] == Request(p, k);
      if i < |v| { assert v[i] == vw[i]; } else { assert w[i - |v|] == vw[i]; }
    }
  }

  lemma GoodCompose(a: State, b: State, c: State, v: Word, w: Word)
    requires StateFits(a) && Good(a, b, v) && Good(b, c, w)
    ensures Good(a, c, v + w) && StateFits(c)
  {
    AccountedCompose(a, b, c, v, w);
    NestedConcat(v, w);
    assert a.trace + (v + w) == a.trace + v + w;
  }

  lemma GoodFits(a: State, b: State, w: Word)
    requires StateFits(a) && Good(a, b, w)
    ensures StateFits(b)
  {
  }

  /** A start and an end event that are not requests around a good word. */
  lemma GoodBracket(a: State, b: State, w: Word, o: Event, c: Event)
    requires Opens(o) && !Opens(c) && Closes(o, c) && !o.Request?
    requires Good(Emit(a, o), b, w)
    ensures Good(a, Emit(b, c), [o] + w + [c])
  {
    var v := [o] + w + [c];
    NestedBracket(o, w, c);
    assert a.trace + v == a.trace + [o] + w + [c];
    AskedConcat([o], w, a.proc.id, ExitKind);
    AskedConcat([o] + w, [c], a.proc.id, ExitKind);
    AskedConcat([o], w, a.proc.id, GotoKind);
    AskedConcat([o] + w, [c], a.proc.id, GotoKind);
    assert forall i :: 0 < i < |v| - 1 ==> v[i] == w[i - 1];
    assert v[0] == o && v[|v| - 1] == c;
  }

  /** A request, not an exit or a goto, and its response around a good word. */
  lemma GoodRequest(a: State, b: State, w: Word, k: Kind)
    requires !a.proc.terminated && k != ExitKind && k != GotoKind
    requires Good(Emit(a, Request(a.proc.id, k)), b, w) && a.proc.id < a.next
    ensures Good(a, Emit(b, Response(a.proc.id, k)), [Request(a.proc.id, k)] + w + [Response(a.proc.id, k)])
  {
    var o, c := Request(a.proc.id, k), Response(a.proc.id, k);
    var v := [o] + w + [c];
    NestedBracket(o, w, c);
    assert a.trace + v == a.trace + [o] + w + [c];
    AskedConcat([o], w, a.proc.id, ExitKind);
    AskedConcat([o] + w, [c], a.proc.id, ExitKind);
    AskedConcat([o], w, a.proc.id, GotoKind);
    AskedConcat([o] + w, [c], a.proc.id, GotoKind);
    assert forall i :: 0 < i < |v| - 1 ==> v[i] == w[i - 1];
    assert v[0] == o && v[|v| - 1] == c;
  }

  /** A request handled without further requests; exits and gotos are of this form. */
  lemma GoodSignal(a: State, b: State, k: Kind)
    requires StateFits(a) && !a.proc.terminated
    requires b == a.(clock := b.clock, trace := a.trace + [Request(a.proc.id, k)], proc := b.proc)
    requires b.proc == a.proc.(terminated := k == ExitKind, scheduled := b.proc.scheduled)
    requires b.proc.scheduled == a.proc.scheduled || k == GotoKind
    ensures Good(a, Emit(b, Response(a.proc.id, k)), [Request(a.proc.id, k), Response(a.proc.id, k)])
  {
    var o, c := Request(a.proc.id, k), Response(a.proc.id, k);
    NestedBracket(o, [], c);
    assert [o] + [] + [c] == [o, c];
    assert [o, c][0] == o;
    assert a.trace + [o, c] == a.trace + [o] + [c];
  }

  /** Entering and leaving a node around a good word. */
  lemma GoodNode(env: Env, st: State, node: Node, s: State, r: Result, w: Word)
    requires StateOk(st) && StateFits(st) && EnterNode(env, st, node) == Enter(s)
    requires StateOk(r.st) && Good(s, r.st, w)
    ensures Good(st, LeaveNode(env, r, node, st.logging).st, w)
  {
    var l := LeaveNode(env, r, node, st.logging).st;
    assert s.proc == st.proc && s.next == st.next && s.trace == st.trace;
    assert l.proc == r.st.proc && l.next == r.st.next && l.trace == r.st.trace && l.logging == st.logging;
    GoodElsewhere(st, s, r.st, l, w);
  }

  /** Clock and logging aside, states are good for the same words. */
  lemma GoodElsewhere(a: State, a': State, b: State, b': State, w: Word)
    requires a'.proc == a.proc && a'.next == a.next && a'.trace == a.trace
    requires b'.proc == b.proc && b'.next == b.next && b'.trace == b.trace
    requires b'.logging == a.logging && Good(a', b, w)
    ensures Good(a, b', w)
  {
  }

  lemma GoodStop(env: Env, st: State, node: Node)
    requires StateOk(st) && StateFits(st) && EnterNode(env, st, node).Stop?
    ensures Good(st, EnterNode(env, st, node).st, [])
  {
    GoodIdle(st, EnterNode(env, st, node).st);
  }

  // ---- Actions ----

  lemma {:induction false} GoodActions(env: Env, st: State, actions: seq<Action>) returns (w: Word)
    requires EnvOk(env) && StateOk(st) && StateFits(st)
    ensures Good(st, RunActions(env, st, actions).st, w)
    decreases Measure(env, st), 0, 3, |actions|
  {
    w := [];
    GoodIdle(st, st);
    if actions != [] {
      var a := actions[0];
      var rest := actions[1..];
      if PassedOver(st.proc, a) {
        w := GoodActions(env, st, rest);
      } else {
        var v := Evaluate(env, st, a.skip, false);
        GoodIdle(st, v.st);
        if v.out.Fail? {
        } else if v.holds {
          DropTagIsSuffix(rest, a.tag.tagID);
          var u := GoodActions(env, v.st, DropTag(rest, a.tag.tagID));
          GoodCompose(st, v.st, RunActions(env, st, actions).st, [], u);
          w := [] + u;
        } else {
          var r := Repeat(env, v.st, a, a.repeat);
          var u := GoodRepeat(env, v.st, a, a.repeat);
          GoodCompose(st, v.st, r.st, [], u);
          w := [] + u;
          if r.out == Ok {
            var x := GoodActions(env, r.st, rest);
            GoodCompose(st, r.st, RunActions(env, r.st, rest).st, w, x);
            w := w + x;
          }
        }
      }
    }
  }

  lemma {:induction false} GoodRepeat(env: Env, st: State, a: Action, n: int) returns (w: Word)
    requires EnvOk(env) && StateOk(st) && StateFits(st)
    ensures Good(st, Repeat(env, st, a, n).st, w)
    decreases Measure(env, st), 0, 2, if n < 0 then 0 else n
  {
    if n <= 0 {
      GoodIdle(st, st);
      w := [];
    } else {
      var v := RunOnce(env, st, a);
      w := GoodOnce(env, st, a);
      if v.out == Ok && !v.holds {
        GoodFits(st, v.st, w);
        var u := GoodRepeat(env, v.st, a, n - 1);
        GoodCompose(st, v.st, Repeat(env, v.st, a, n - 1).st, w, u);
        w := w + u;
      }
    }
  }

  lemma {:induction false} GoodOnce(env: Env, st: State, a: Action) returns (w: Word)
    requires EnvOk(env) && StateOk(st) && StateFits(st)
    ensures Good(st, RunOnce(env, st, a).st, w)
    decreases Measure(env, st), 0, 1, 1
  {
    var r := RunAction(env, st, a);
    w := GoodAction(env, st, a);
    if r.out == Ok {
      GoodFits(st, r.st, w);
      GoodAfter(env, r.st, a);
      GoodCompose(st, r.st, RunOnce(env, st, a).st, w, []);
      w := w + [];
    }
  }

  lemma GoodAfter(env: Env, st: State, a: Action)
    requires StateOk(st) && StateFits(st)
    ensures var x := Apply(env, st, a.extract);
            Good(st, if x.out.Fail? then x.st else Evaluate(env, x.st, a.exit, false).st, [])
  {
    var x := Apply(env, st, a.extract);
    GoodIdle(st, if x.out.Fail? then x.st else Evaluate(env, x.st, a.exit, false).st);
  }

  lemma {:induction false} GoodAction(env: Env, st: State, a: Action) returns (w: Word)
    requires EnvOk(env) && StateOk(st) && StateFits(st)
    ensures Good(st, RunAction(env, st, a).st, w)
    decreases Measure(env, st), 0, 1, 0
  {
    match EnterNode(env, st, a.node)
    case Stop(s, out) =>
      GoodStop(env, st, a.node);
      w := [];
    case Enter(s) =>
      w := GoodActivity(env, s, a);
      GoodNode(env, st, a.node, s, RunActivity(env, s, a), w);
  }

  lemma {:induction false} GoodActivity(env: Env, st: State, a: Action) returns (w: Word)
    requires EnvOk(env) && StateOk(st) && StateFits(st) && !st.proc.terminated
    ensures Good(st, RunActivity(env, st, a).st, w)
    decreases Measure(env, st), 0, 0, 2
  {
    var activity := NewActivity(st.proc, a);
    var pushed := st.(proc := Push(st.proc, activity));
    var begun := Emit(pushed, ActivityStart(activity));
    var r := Send(env, begun);
    var v := GoodSend(env, begun);
    GoodBracket(pushed, r.st, v, ActivityStart(activity), ActivityEnd(activity));
    w := [ActivityStart(activity)] + v + [ActivityEnd(activity)];
    assert Pop(r.st.proc).activities == st.proc.activities;
  }

  lemma {:induction false} GoodSend(env: Env, st: State) returns (w: Word)
    requires EnvOk(env) && StateOk(st) && StateFits(st) && !st.proc.terminated
    ensures Good(st, Send(env, st).st, w)
    decreases Measure(env, st), 0, 0, 1
  {
    var d := env.world(st.clock).dispatch;
    var asked := Tick(st);
    var k := KindOf(d);
    var id := st.proc.id;
    GoodIdle(st, asked);
    w := [];
    if !d.Reject? {
      var r := Handle(env, st, d, Emit(asked, Request(id, k)));
      if d.Reply? || d.Exit? || d.Goto? {
        GoodSignal(st, r.st, k);
        w := [Request(id, k), Response(id, k)];
      } else {
        var v := GoodHandle(env, st, d, Emit(asked, Request(id, k)));
        GoodRequest(asked, r.st, v, k);
        w := [Request(id, k)] + v + [Response(id, k)];
        GoodCompose(st, asked, Emit(r.st, Response(id, k)), [], w);
        assert [] + w == w;
      }
    }
  }

  lemma {:induction false} GoodHandle(env: Env, st: State, d: Dispatch, asked: State) returns (w: Word)
    requires EnvOk(env) && StateOk(st) && d == env.world(st.clock).dispatch
    requires asked.clock == st.clock + 1 && asked.proc == st.proc && StateFits(asked)
    requires d.SwitchTask? || d.SwitchAction? || d.Run?
    ensures Good(asked, Handle(env, st, d, asked).st, w)
    decreases Measure(env, st), 0, 0, 0
  {
    GoodIdle(asked, asked);
    w := [];
    match d
    case SwitchTask(name) =>
      FoundIsOk(asked.proc.workflow.root.tasks, Trim(name));
      var t := Find(asked.proc.workflow.root, name);
      if t.Some? {
        w := GoodTask(env, asked, t.value);
      }
    case SwitchAction(a) =>
      w := GoodAction(env, asked, a);
    case Run(_, _, _, _, _) =>
      w := GoodWorkflow(env, asked, d);
  }

  // ---- Tasks ----

  lemma {:induction false} GoodTask(env: Env, st: State, t: Task) returns (w: Word)
    requires EnvOk(env) && StateOk(st) && StateFits(st) && TaskOk(t)
    ensures Good(st, RunTask(env, st, t).st, w)
    decreases Measure(env, st), TaskSize(t), 1, 0
  {
    var entered := st.(proc := SetTask(st.proc, t));
    var o, c := TaskStart(t.node.name, TemplateTag(t)), TaskEnd(t.node.name);
    var v := GoodTaskNode(env, Emit(entered, o), t, st.logging);
    var last := InsideTask(env, Emit(entered, o), t, st.logging).st;
    GoodBracket(entered, last, v, o, c);
    GoodIdle(st, entered);
    w := [o] + v + [c];
    GoodCompose(st, entered, Emit(last, c), [], w);
    assert [] + w == w;
  }

  /** What a task does between its start event and its end event. */
  function InsideTask(env: Env, begun: State, t: Task, saved: Option<bool>): Result
    requires EnvOk(env) && StateOk(begun) && TaskOk(t)
  {
    match EnterNode(env, begun, t.node)
    case Stop(s, out) => Result(s, out)
    case Enter(s) => LeaveNode(env, RunTaskBody(env, s, t), t.node, saved)
  }

  lemma {:induction false} GoodTaskNode(env: Env, begun: State, t: Task, saved: Option<bool>) returns (v: Word)
    requires EnvOk(env) && StateOk(begun) && StateFits(begun) && TaskOk(t) && saved == begun.logging
    ensures Good(begun, InsideTask(env, begun, t, saved).st, v)
    decreases Measure(env, begun), TaskSize(t), 0, 1
  {
    match EnterNode(env, begun, t.node)
    case Stop(s, out) =>
      GoodStop(env, begun, t.node);
      v := [];
    case Enter(s) =>
      v := GoodTaskBody(env, s, t);
      GoodNode(env, begun, t.node, s, RunTaskBody(env, s, t), v);
  }

  lemma {:induction false} GoodTaskBody(env: Env, st: State, t: Task) returns (w: Word)
    requires EnvOk(env) && StateOk(st) && StateFits(st) && TaskOk(t)
    ensures Good(st, RunTaskBody(env, st, t).st, w)
    decreases Measure(env, st), TaskSize(t), 0, 0
  {
    if t.sub.tasks == [] {
      w := GoodActions(env, st, t.actions);
    } else {
      w := GoodTasks(env, st, t.sub);
      var r := RunTasks(env, st, t.sub);
      if r.out == Ok && t.actions != [] {
        GoodFits(st, r.st, w);
        var v := GoodActions(env, r.st, t.actions);
        GoodCompose(st, r.st, RunActions(env, r.st, t.actions).st, w, v);
        w := w + v;
      }
    }
  }

  lemma {:induction false} GoodTasks(env: Env, st: State, n: TasksNode) returns (w: Word)
    requires EnvOk(env) && StateOk(st) && StateFits(st) && NodeOk(n)
    ensures Good(st, RunTasks(env, st, n).st, w)
    decreases Measure(env, st), NodeSize(n), 4, 0
  {
    w := GoodBody(env, st, n);
    if n.deferredTask != "" {
      var b := RunBody(env, st, n);
      FoundIsOk(n.tasks, Trim(n.deferredTask));
      FoundIsSmaller(n.tasks, Trim(n.deferredTask));
      var t := Find(n, n.deferredTask).value;
      GoodFits(st, b.st, w);
      var v := GoodTask(env, b.st, t);
      GoodCompose(st, b.st, RunTask(env, b.st, t).st, w, v);
      w := w + v;
    }
  }

  lemma {:induction false} GoodBody(env: Env, st: State, n: TasksNode) returns (w: Word)
    requires EnvOk(env) && StateOk(st) && StateFits(st) && NodeOk(n)
    ensures Good(st, RunBody(env, st, n).st, w)
    decreases Measure(env, st), NodeSize(n), 3, 0
  {
    w := GoodList(env, st, n, n.tasks);
    var r := RunList(env, st, n, n.tasks);
    if r.out == Ok && r.st.proc.scheduled.Some? {
      GoodFits(st, r.st, w);
      var s := r.st.(proc := r.st.proc.(scheduled := None));
      var one := Single(r.st.proc.scheduled.value);
      assert Good(r.st, s, []);
      GoodCompose(st, r.st, s, w, []);
      var v := GoodTasks(env, s, one);
      GoodCompose(st, s, RunTasks(env, s, one).st, w + [], v);
      w := w + [] + v;
    }
  }

  lemma {:induction false} GoodList(env: Env, st: State, n: TasksNode, tasks: seq<Task>) returns (w: Word)
    requires EnvOk(env) && StateOk(st) && StateFits(st) && NodeOk(n) && IsSuffix(tasks, n)
    ensures Good(st, RunList(env, st, n, tasks).st, w)
    decreases Measure(env, st), NodeSize(n), 2, |tasks|
  {
    GoodIdle(st, st);
    w := [];
    if tasks != [] {
      if IsHandler(n, tasks[0]) {
        w := GoodList(env, st, n, tasks[1..]);
      } else if !st.proc.terminated {
        MemberIsOk(n.tasks, |n.tasks| - |tasks|);
        MemberIsSmaller(n.tasks, |n.tasks| - |tasks|);
        var r := TryTask(env, st, n, tasks[0]);
        w := GoodTry(env, st, n, tasks[0]);
        if r.out == Ok {
          GoodFits(st, r.st, w);
          var u := GoodList(env, r.st, n, tasks[1..]);
          GoodCompose(st, r.st, RunList(env, r.st, n, tasks[1..]).st, w, u);
          w := w + u;
        }
      }
    }
  }

  lemma {:induction false} GoodTry(env: Env, st: State, n: TasksNode, t: Task) returns (w: Word)
    requires EnvOk(env) && StateOk(st) && StateFits(st) && NodeOk(n) && TaskOk(t) && TaskSize(t) < NodeSize(n)
    ensures Good(st, TryTask(env, st, n, t).st, w)
    decreases Measure(env, st), NodeSize(n), 1, 0
  {
    var r := RunTask(env, st, t);
    w := GoodTask(env, st, t);
    if r.out.Fail? {
      GoodFits(st, r.st, w);
      var v := GoodCatch(env, r.st, n, r.out);
      GoodCompose(st, r.st, Catch(env, r.st, n, r.out).st, w, v);
      w := w + v;
    }
  }

  lemma {:induction false} GoodCatch(env: Env, st: State, n: TasksNode, failure: Outcome) returns (w: Word)
    requires EnvOk(env) && StateOk(st) && StateFits(st) && NodeOk(n)
    ensures Good(st, Catch(env, st, n, failure).st, w)
    decreases Measure(env, st), NodeSize(n), 0, 0
  {
    GoodIdle(st, st);
    w := [];
    if n.onErrorTask != "" && Find(n, n.onErrorTask).Some? {
      FoundIsOk(n.tasks, Trim(n.onErrorTask));
      FoundIsSmaller(n.tasks, Trim(n.onErrorTask));
      var t := Find(n, n.onErrorTask).value;
      if t.fail {
        w := GoodTask(env, st, t);
      } else {
        var reset := Emit(st, ResetError);
        assert Good(st, reset, [ResetError]) by {
          assert Scan([], [ResetError]) == Scan([], []);
        }
        GoodFits(st, reset, [ResetError]);
        var v := GoodTask(env, reset, t);
        GoodCompose(st, reset, RunTask(env, reset, t).st, [ResetError], v);
        w := [ResetError] + v;
      }
    }
  }

  // ---- Workflows ----

  lemma {:induction false} GoodRoot(env: Env, st: State, wf: Workflow, n: TasksNode) returns (w: Word)
    requires EnvOk(env) && StateOk(st) && StateFits(st) && NodeOk(n)
    ensures Good(st, RunRoot(env, st, wf, n).st, w)
    decreases Measure(env, st), NodeSize(n), 5, 0
  {
    match EnterNode(env, st, wf.node)
    case Stop(s, out) =>
      GoodStop(env, st, wf.node);
      w := [];
    case Enter(s) =>
      w := GoodTasks(env, s, n);
      GoodNode(env, st, wf.node, s, RunTasks(env, s, n), w);
  }

  /** What a new process did is good for its caller, whose own process is put back. */
  lemma GoodCall(a: State, inner: State, b: State, c: State, w: Word)
    requires StateFits(a) && inner.next == a.next + 1 && inner.proc.id == a.next && inner.trace == a.trace
    requires Good(inner, b, w)
    requires c == b.(proc := a.proc, logging := a.logging)
    ensures Good(a, c, w)
  {
  }

  lemma {:induction false} GoodSelected(env: Env, st: State, wf: Workflow, d: Dispatch) returns (w: Word)
    requires EnvOk(env) && StateOk(st) && StateFits(st) && d.Run? && Callable(wf, d)
    ensures Good(st, RunSelected(env, st, wf, d).st, w)
    decreases Measure(env, st) + 1, 0, 0, 0
  {
    match Selection(wf, d.selector, d.inherited)
    case None =>
      GoodIdle(st, st);
      w := [];
    case Some(n) =>
      w := GoodRoot(env, st, wf, n);
  }

  lemma {:induction false} GoodNested(env: Env, st: State, wf: Workflow, d: Dispatch) returns (w: Word)
    requires EnvOk(env) && StateOk(st) && StateFits(st) && d.Run? && Callable(wf, d)
    ensures Good(st, RunNested(env, st, wf, d).st, w)
    decreases Measure(env, st) + 1, 0, 0, 1
  {
    var inner := st.(proc := NewProc(st.next, wf, st.proc.tagIDs + d.tagIDs), next := st.next + 1,
                     logging := if d.shared then st.logging else None);
    w := GoodSelected(env, inner, wf, d);
    GoodCall(st, inner, RunSelected(env, inner, wf, d).st, RunNested(env, st, wf, d).st, w);
  }

  lemma {:induction false} GoodWorkflow(env: Env, st: State, d: Dispatch) returns (w: Word)
    requires EnvOk(env) && StateOk(st) && StateFits(st) && d.Run? && RequestOk(env.registry, d)
    ensures Good(st, RunWorkflow(env, st, d).st, w)
    decreases Measure(env, st) + 1, 0, 0, 2
  {
    GoodIdle(st, st);
    w := [];
    if d.name in env.registry {
      var wf := env.registry[d.name];
      var o, c := WorkflowStart(wf.node.name, wf.url), WorkflowEnd(wf.node.name);
      var begun := Emit(st, o);
      var v := GoodNested(env, begun, wf, d);
      GoodBracket(st, RunNested(env, begun, wf, d).st, v, o, c);
      w := [o] + v + [c];
    }
  }
}
