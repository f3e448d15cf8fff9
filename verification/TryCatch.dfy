/** Running a list of tasks is try, catch and finally: a law about the sequence of task
    runs it consists of, stated without reference to how the engine walks the list. */
module TryCatch {
  import opened Base
  import opened Tasks
  import opened Events
  import opened Engine

  /** One run of a task: `caught` tells a run as catch task from one in ordinary position. */
  datatype Call = Call(caught: bool, task: Task, pre: State, post: State, out: Outcome)

  ghost predicate Genuine(env: Env, c: Call) {
    && EnvOk(env) && StateOk(c.pre) && TaskOk(c.task)
    && Result(c.post, c.out) == RunTask(env, c.pre, c.task)
  }

  /** The tasks of a list that are not named as handlers. */
  function Ordinary(n: TasksNode, tasks: seq<Task>): seq<Task> {
    if tasks == [] then []
    else (if IsHandler(n, tasks[0]) then [] else [tasks[0]]) + Ordinary(n, tasks[1..])
  }

  /** The tasks run in ordinary position. */
  function Tried(calls: seq<Call>): seq<Task> {
    if calls == [] then []
    else (if calls[0].caught then [] else [calls[0].task]) + Tried(calls[1..])
  }

  predicate Catches(n: TasksNode) {
    n.onErrorTask != "" && Find(n, n.onErrorTask).Some?
  }

  /** Each run starts where the previous one ended; a catch run may first report a reset. */
  ghost predicate Chained(from: State, calls: seq<Call>, to: State)
    decreases |calls|
  {
    if calls == [] then from == to
    else
      && (calls[0].pre == from
          || (calls[0].caught && !calls[0].task.fail && calls[0].pre == Emit(from, ResetError)))
      && Chained(calls[0].post, calls[1..], to)
  }

  /** The k-th run is a catch run exactly when the run before it is an ordinary run that
      failed; it then runs the catch task.  An ordinary run starts in a live process. */
  ghost predicate Placed(n: TasksNode, calls: seq<Call>, k: nat)
    requires k < |calls|
  {
    if k > 0 && !calls[k - 1].caught && calls[k - 1].out.Fail? then
      calls[k].caught && Catches(n) && Some(calls[k].task) == Find(n, n.onErrorTask)
    else
      !calls[k].caught && !calls[k].pre.proc.terminated && (k > 0 ==> calls[k - 1].out == Ok)
  }

  /** The outcome of a list of runs: that of its last run, unless the catch task is missing. */
  function OutcomeOf(n: TasksNode, calls: seq<Call>): Outcome {
    if calls == [] then Ok
    else
      var c := calls[|calls| - 1];
      if c.out.Fail? && !c.caught && n.onErrorTask != "" then Fail(NoCatch(n.onErrorTask)) else c.out
  }

  /** Every run is a run of the engine. */
  ghost predicate AllGenuine(env: Env, calls: seq<Call>) {
    forall k :: 0 <= k < |calls| ==> Genuine(env, calls[k])
  }

  /** A lawful attempt at `tasks`, leading from one state to another. */
  ghost predicate Lawful(n: TasksNode, tasks: seq<Task>, from: State, calls: seq<Call>, to: State) {
    && (forall k: nat :: k < |calls| ==> Placed(n, calls, k))
    && Chained(from, calls, to)
    // handlers are never tried; the others are tried in order
    && Tried(calls) <= Ordinary(n, tasks)
    // a failed ordinary run is left uncaught only when there is no catch task
    && (calls != [] && calls[|calls| - 1].out.Fail? && !calls[|calls| - 1].caught ==> !Catches(n))
    // without an error, all are tried unless the process was told to exit
    && (OutcomeOf(n, calls) == Ok && Tried(calls) != Ordinary(n, tasks) ==> to.proc.terminated)
  }

  /** Trying one task: one run, or two when it fails and there is a catch task. */
  lemma TryOne(env: Env, st: State, n: TasksNode, t: Task) returns (calls: seq<Call>)
    requires EnvOk(env) && StateOk(st) && NodeOk(n) && TaskOk(t) && TaskSize(t) < NodeSize(n)
    requires !IsHandler(n, t) && !st.proc.terminated
    ensures AllGenuine(env, calls) && Lawful(n, [t], st, calls, TryTask(env, st, n, t).st)
    ensures TryTask(env, st, n, t).out == OutcomeOf(n, calls) && calls != [] && Tried(calls) == [t]
  {
    var r := RunTask(env, st, t);
    var c := Call(false, t, st, r.st, r.out);
    calls := [c];
    if r.out.Fail? && Catches(n) {
      var d := CatchOne(env, r.st, n, r.out);
      calls := [c, d];
      LawfulPair(n, st, c, d);
    } else {
      LawfulSingle(n, st, c);
    }
  }

  /** The run of the catch task. */
  lemma CatchOne(env: Env, st: State, n: TasksNode, failure: Outcome) returns (d: Call)
    requires EnvOk(env) && StateOk(st) && NodeOk(n) && Catches(n)
    ensures Genuine(env, d) && d.caught && Some(d.task) == Find(n, n.onErrorTask)
    ensures d.pre == if d.task.fail then st else Emit(st, ResetError)
    ensures Catch(env, st, n, failure) == Result(d.post, d.out)
  {
    FoundIsOk(n.tasks, Trim(n.onErrorTask));
    FoundIsSmaller(n.tasks, Trim(n.onErrorTask));
    var h := Find(n, n.onErrorTask).value;
    var pre := if h.fail then st else Emit(st, ResetError);
    var q := RunTask(env, pre, h);
    d := Call(true, h, pre, q.st, q.out);
  }

  lemma LawfulSingle(n: TasksNode, st: State, c: Call)
    requires !IsHandler(n, c.task) && !st.proc.terminated && !c.caught && c.pre == st
    requires c.out.Fail? ==> !Catches(n)
    ensures Lawful(n, [c.task], st, [c], c.post) && Tried([c]) == [c.task]
  {
    assert [c][1..] == [] && Tried([c]) == [c.task] + Tried([]);
    assert Ordinary(n, [c.task]) == [c.task] + Ordinary(n, []);
  }

  lemma LawfulPair(n: TasksNode, st: State, c: Call, d: Call)
    requires !IsHandler(n, c.task) && !st.proc.terminated && !c.caught && c.pre == st && c.out.Fail?
    requires d.caught && Catches(n) && Some(d.task) == Find(n, n.onErrorTask)
    requires d.pre == if d.task.fail then c.post else Emit(c.post, ResetError)
    ensures Lawful(n, [c.task], st, [c, d], d.post) && Tried([c, d]) == [c.task]
  {
    var calls := [c, d];
    assert calls[1..] == [d] && calls[1..][1..] == [];
    assert Tried(calls) == [c.task] + Tried([d]) && Tried([d]) == [] + Tried([]);
    assert Ordinary(n, [c.task]) == [c.task] + Ordinary(n, []);
  }

  lemma {:induction false} ChainedConcat(a: State, v: seq<Call>, b: State, w: seq<Call>, c: State)
    requires Chained(a, v, b) && Chained(b, w, c)
    ensures Chained(a, v + w, c)
    decreases |v|
  {
    if v == [] {
      assert v + w == w;
    } else {
      ChainedConcat(v[0].post, v[1..], b, w, c);
      assert (v + w)[0] == v[0] && (v + w)[1..] == v[1..] + w;
    }
  }

  lemma {:induction false} TriedConcat(v: seq<Call>, w: seq<Call>)
    ensures Tried(v + w) == Tried(v) + Tried(w)
    decreases |v|
  {
    if v == [] {
      assert v + w == w;
    } else {
      var vw := v + w;
      var head := if v[0].caught then [] else [v[0].task];
      assert vw[1..] == v[1..] + w;
      TriedConcat(v[1..], w);
      assert Tried(vw) == head + (Tried(v[1..]) + Tried(w));
      assert Tried(v) == head + Tried(v[1..]);
    }
  }

  /** A successful attempt at one task followed by an attempt at the others. */
  lemma LawfulConcat(n: TasksNode, tasks: seq<Task>, a: State, v: seq<Call>, b: State, w: seq<Call>, c: State)
    requires tasks != [] && !IsHandler(n, tasks[0]) && v != [] && Tried(v) == [tasks[0]]
    requires Lawful(n, [tasks[0]], a, v, b) && OutcomeOf(n, v) == Ok
    requires Lawful(n, tasks[1..], b, w, c)
    ensures Lawful(n, tasks, a, v + w, c) && OutcomeOf(n, v + w) == OutcomeOf(n, w)
  {
    var calls := v + w;
    ChainedConcat(a, v, b, w, c);
    TriedConcat(v, w);
    forall k: nat | k < |calls|
      ensures Placed(n, calls, k)
    {
      if k < |v| {
        assert Placed(n, v, k);
      } else {
        assert Placed(n, w, k - |v|);
        assert calls[k] == w[k - |v|];
        if k > |v| { assert calls[k - 1] == w[k - |v| - 1]; } else { assert calls[k - 1] == v[|v| - 1]; }
      }
    }
    assert w != [] ==> calls[|calls| - 1] == w[|w| - 1];
    assert w == [] ==> calls == v;
  }

  lemma LawfulFailed(n: TasksNode, tasks: seq<Task>, a: State, v: seq<Call>, b: State)
    requires tasks != [] && !IsHandler(n, tasks[0])
    requires Lawful(n, [tasks[0]], a, v, b) && OutcomeOf(n, v).Fail?
    ensures Lawful(n, tasks, a, v, b)
  {
    assert Ordinary(n, tasks) == [tasks[0]] + Ordinary(n, tasks[1..]);
    assert Ordinary(n, [tasks[0]]) == [tasks[0]] + Ordinary(n, []);
  }

  /** Nothing is tried when nothing is left or the process was told to exit. */
  lemma LawfulNone(n: TasksNode, tasks: seq<Task>, st: State)
    requires tasks == [] || st.proc.terminated
    ensures Lawful(n, tasks, st, [], st) && OutcomeOf(n, []) == Ok
  {
  }

  lemma LawfulHandler(n: TasksNode, tasks: seq<Task>, a: State, calls: seq<Call>, b: State)
    requires tasks != [] && IsHandler(n, tasks[0]) && Lawful(n, tasks[1..], a, calls, b)
    ensures Lawful(n, tasks, a, calls, b)
  {
    assert Ordinary(n, tasks) == Ordinary(n, tasks[1..]);
  }

  lemma {:induction false} TryList(env: Env, st: State, n: TasksNode, tasks: seq<Task>) returns (calls: seq<Call>)
    requires EnvOk(env) && StateOk(st) && NodeOk(n) && IsSuffix(tasks, n)
    ensures AllGenuine(env, calls) && Lawful(n, tasks, st, calls, RunList(env, st, n, tasks).st)
    ensures RunList(env, st, n, tasks).out == OutcomeOf(n, calls)
    decreases |tasks|, 1
  {
    if tasks != [] && IsHandler(n, tasks[0]) {
      calls := TryList(env, st, n, tasks[1..]);
      LawfulHandler(n, tasks, st, calls, RunList(env, st, n, tasks[1..]).st);
    } else if tasks != [] && !st.proc.terminated {
      calls := TryFirst(env, st, n, tasks);
    } else {
      calls := [];
      LawfulNone(n, tasks, st);
    }
  }

  lemma RunListStep(env: Env, st: State, n: TasksNode, tasks: seq<Task>)
    requires EnvOk(env) && StateOk(st) && NodeOk(n) && IsSuffix(tasks, n)
    requires tasks != [] && !IsHandler(n, tasks[0]) && !st.proc.terminated
    ensures TaskOk(tasks[0]) && TaskSize(tasks[0]) < NodeSize(n)
    ensures var r := TryTask(env, st, n, tasks[0]);
      RunList(env, st, n, tasks) == if r.out.Fail? then r else RunList(env, r.st, n, tasks[1..])
  {
    MemberIsOk(n.tasks, |n.tasks| - |tasks|);
    MemberIsSmaller(n.tasks, |n.tasks| - |tasks|);
  }

  lemma {:induction false} TryFirst(env: Env, st: State, n: TasksNode, tasks: seq<Task>) returns (calls: seq<Call>)
    requires EnvOk(env) && StateOk(st) && NodeOk(n) && IsSuffix(tasks, n)
    requires tasks != [] && !IsHandler(n, tasks[0]) && !st.proc.terminated
    ensures AllGenuine(env, calls) && Lawful(n, tasks, st, calls, RunList(env, st, n, tasks).st)
    ensures RunList(env, st, n, tasks).out == OutcomeOf(n, calls)
    decreases |tasks|, 0
  {
    RunListStep(env, st, n, tasks);
    var r := TryTask(env, st, n, tasks[0]);
    calls := TryOne(env, st, n, tasks[0]);
    if r.out == Ok {
      var last := RunList(env, r.st, n, tasks[1..]);
      var rest := TryList(env, r.st, n, tasks[1..]);
      LawfulConcat(n, tasks, st, calls, r.st, rest, last.st);
      calls := calls + rest;
    } else {
      LawfulFailed(n, tasks, st, calls, r.st);
    }
  }

  // ---- The law of a tasks node ----

  /** `body` is what was tried, `jump` the run of the task scheduled by a goto, `last` the
      run of the deferred task. */
  datatype Attempt = Attempt(body: seq<Call>, jump: Option<Call>, last: Option<Call>)

  /** The state and the outcome in which the deferred task starts. */
  function BodyOutcome(n: TasksNode, a: Attempt): Outcome {
    if a.jump.Some? then a.jump.value.out else OutcomeOf(n, a.body)
  }

  /** The jump is made exactly when the body ended without an error and with a scheduled task. */
  ghost predicate Jumps(env: Env, n: TasksNode, body: seq<Call>, m: State, jump: Option<Call>) {
    && (jump.Some? <==> OutcomeOf(n, body) == Ok && m.proc.scheduled.Some?)
    && (jump.Some? ==>
          var c := jump.value;
          && Some(c.task) == m.proc.scheduled && c.pre == m.(proc := m.proc.(scheduled := None))
          && EnvOk(env) && StateOk(c.pre) && NodeOk(Single(c.task))
          && Result(c.post, c.out) == RunTasks(env, c.pre, Single(c.task)))
  }

  lemma TryBody(env: Env, st: State, n: TasksNode) returns (body: seq<Call>, m: State, jump: Option<Call>)
    requires EnvOk(env) && StateOk(st) && NodeOk(n)
    ensures AllGenuine(env, body) && Lawful(n, n.tasks, st, body, m) && Jumps(env, n, body, m, jump)
    ensures RunBody(env, st, n)
         == if jump.Some? then Result(jump.value.post, jump.value.out) else Result(m, OutcomeOf(n, body))
  {
    body := TryList(env, st, n, n.tasks);
    m := RunList(env, st, n, n.tasks).st;
    jump := None;
    if OutcomeOf(n, body) == Ok && m.proc.scheduled.Some? {
      var pre := m.(proc := m.proc.(scheduled := None));
      var r := RunTasks(env, pre, Single(m.proc.scheduled.value));
      jump := Some(Call(false, m.proc.scheduled.value, pre, r.st, r.out));
    }
  }

  /** Try, catch, finally: the body is lawful; the jump is made exactly when the body ended
      without an error and with a scheduled task; the deferred task is run exactly once,
      last, whenever one is named; the body's error hides that of the deferred task. */
  lemma TryCatchFinally(env: Env, st: State, n: TasksNode) returns (a: Attempt, m: State)
    requires EnvOk(env) && StateOk(st) && NodeOk(n)
    ensures AllGenuine(env, a.body) && Lawful(n, n.tasks, st, a.body, m) && Jumps(env, n, a.body, m, a.jump)
    ensures a.last.Some? <==> n.deferredTask != ""
    ensures a.last.Some? ==>
      var c := a.last.value;
      && Genuine(env, c) && Some(c.task) == Find(n, n.deferredTask)
      && c.pre == (if a.jump.Some? then a.jump.value.post else m)
    ensures var r := RunTasks(env, st, n);
      && r.st == (if a.last.Some? then a.last.value.post else if a.jump.Some? then a.jump.value.post else m)
      && r.out == (if BodyOutcome(n, a).Fail? || a.last.None? then BodyOutcome(n, a) else a.last.value.out)
  {
    var body, jump;
    body, m, jump := TryBody(env, st, n);
    var b := RunBody(env, st, n);
    var last: Option<Call> := None;
    if n.deferredTask != "" {
      FoundIsOk(n.tasks, Trim(n.deferredTask));
      var t := Find(n, n.deferredTask).value;
      var d := RunTask(env, b.st, t);
      last := Some(Call(false, t, b.st, d.st, d.out));
    }
    a := Attempt(body, jump, last);
  }
}
