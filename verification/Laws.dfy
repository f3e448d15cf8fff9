/** What the answers of the outside world decide: whether a node is entered, how often an
    action runs and which actions of a list do, and with which error a run ends.  The laws
    speak of runs and of answers, not of the functions that combine them. */
module Laws {
  import opened Base
  import opened Tasks
  import opened Events
  import opened Engine
  import opened EngineFacts
  import C = TryCatch

  // ---- Single questions ----

  /** What a criterion is worth when it is asked at a time. */
  predicate Holds(env: Env, at: nat, criterion: string, default: bool) {
    if criterion == "" then default else env.world(at).holds && !env.world(at).error
  }

  predicate Fails(env: Env, at: nat, criterion: string) {
    criterion != "" && env.world(at).error
  }

  /** The time after a question that is asked only if there is something to ask. */
  function After(at: nat, asks: bool): nat {
    if asks then at + 1 else at
  }

  lemma CriterionExactly(env: Env, st: State, criterion: string, default: bool)
    requires StateOk(st)
    ensures var v := Evaluate(env, st, criterion, default);
      && v.st == st.(clock := After(st.clock, criterion != ""))
      && v.out == (if Fails(env, st.clock, criterion) then Fail(World(st.clock)) else Ok)
      && (v.out == Ok ==> v.holds == Holds(env, st.clock, criterion, default))
  {
  }

  lemma VariablesExactly(env: Env, st: State, variables: bool)
    requires StateOk(st)
    ensures var r := Apply(env, st, variables);
      && r.st == st.(clock := After(st.clock, variables))
      && r.out == if variables && env.world(st.clock).error then Fail(World(st.clock)) else Ok
  {
  }

  // ---- The gate of a node ----

  /** The process is live and not waiting for a goto, the run criterion holds, and the
      variables before the handler can be applied. */
  predicate Enters(env: Env, st: State, node: Node) {
    && !st.proc.terminated && st.proc.scheduled.None?
    && Holds(env, st.clock, node.when, true) && !Fails(env, st.clock, node.when)
    && !(node.init && env.world(After(st.clock, node.when != "")).error)
  }

  /** The outcome of a node that is not entered. */
  function Refusal(env: Env, st: State, node: Node): Outcome {
    if st.proc.terminated || st.proc.scheduled.Some? then Ok
    else if Fails(env, st.clock, node.when) then Fail(World(st.clock))
    else if !Holds(env, st.clock, node.when, true) then Ok
    else Fail(World(After(st.clock, node.when != "")))
  }

  lemma GateExactly(env: Env, st: State, node: Node)
    requires StateOk(st)
    ensures var g := EnterNode(env, st, node);
      && (g.Enter? <==> Enters(env, st, node))
      && (g.Stop? ==> g.out == Refusal(env, st, node))
      && (g.Enter? ==> g.st == st.(clock := After(After(st.clock, node.when != ""), node.init), logging := node.logging))
      && (g.Stop? ==> g.st == st.(clock := g.st.clock))
  {
  }

  /** The variables after the handler are applied when it succeeded. */
  lemma LeaveExactly(env: Env, r: Result, node: Node, saved: Option<bool>)
    requires StateOk(r.st)
    ensures var l := LeaveNode(env, r, node, saved);
      && l.out == (if r.out.Fail? then r.out
                   else if node.post && env.world(r.st.clock).error then Fail(World(r.st.clock)) else Ok)
      && l.st == r.st.(clock := After(r.st.clock, r.out == Ok && node.post), logging := saved)
  {
  }

  /** A task that is not entered only marks its start and its end. */
  lemma RefusedTaskIsQuiet(env: Env, st: State, t: Task)
    requires EnvOk(env) && StateOk(st) && TaskOk(t) && !Enters(env, st, t.node)
    ensures var r := RunTask(env, st, t);
      && r.st.trace == st.trace + [TaskStart(t.node.name, TemplateTag(t)), TaskEnd(t.node.name)]
      && r.out == Refusal(env, st, t.node) && r.st.proc == SetTask(st.proc, t) && r.st.logging == st.logging
  {
    var begun := Emit(st.(proc := SetTask(st.proc, t)), TaskStart(t.node.name, TemplateTag(t)));
    GateExactly(env, begun, t.node);
    assert Enters(env, begun, t.node) <==> Enters(env, st, t.node);
    assert st.trace + [TaskStart(t.node.name, TemplateTag(t))] + [TaskEnd(t.node.name)]
        == st.trace + [TaskStart(t.node.name, TemplateTag(t)), TaskEnd(t.node.name)];
  }

  /** An action has an activity if and only if its node is entered. */
  lemma ActivityExactly(env: Env, st: State, a: Action)
    requires EnvOk(env) && StateOk(st) && StateFits(st)
    ensures var r := RunAction(env, st, a);
      && (Enters(env, st, a.node) <==> r.st.trace != st.trace)
      && (Enters(env, st, a.node) ==>
            st.trace + [ActivityStart(Activity(st.proc.workflow.node.name, a.service, a.action, a.tag))] <= r.st.trace)
      && (!Enters(env, st, a.node) ==> r.out == Refusal(env, st, a.node) && r.st.proc == st.proc)
  {
    GateExactly(env, st, a.node);
    if Enters(env, st, a.node) {
      var s := EnterNode(env, st, a.node).st;
      var v := ActivityEmits(env, s, a);
      var r := RunActivity(env, s, a);
      assert LeaveNode(env, r, a.node, st.logging).st.trace == r.st.trace;
    }
  }

  /** The events of an activity, with its start as the first one. */
  lemma ActivityEmits(env: Env, st: State, a: Action) returns (v: seq<Event>)
    requires EnvOk(env) && StateOk(st) && StateFits(st) && !st.proc.terminated
    ensures var o := ActivityStart(Activity(st.proc.workflow.node.name, a.service, a.action, a.tag));
      RunActivity(env, st, a).st.trace == st.trace + [o] + v
  {
    var activity := NewActivity(st.proc, a);
    var begun := Emit(st.(proc := Push(st.proc, activity)), ActivityStart(activity));
    var sent := GoodSend(env, begun);
    v := sent + [ActivityEnd(activity)];
    assert Send(env, begun).st.trace == begun.trace + sent;
    assert st.trace + [ActivityStart(activity)] + sent + [ActivityEnd(activity)] == st.trace + [ActivityStart(activity)] + v;
  }

  /** While a task is scheduled no action has an activity. */
  lemma {:induction false} PendingActionsAreQuiet(env: Env, st: State, actions: seq<Action>)
    requires EnvOk(env) && StateOk(st) && (st.proc.terminated || st.proc.scheduled.Some?)
    ensures var r := RunActions(env, st, actions); r.st.trace == st.trace && r.st.proc == st.proc
    decreases |actions|
  {
    if actions != [] {
      var a, rest := actions[0], actions[1..];
      if PassedOver(st.proc, a) {
        PendingActionsAreQuiet(env, st, rest);
      } else {
        var v := Evaluate(env, st, a.skip, false);
        if v.out == Ok && v.holds {
          DropTagIsSuffix(rest, a.tag.tagID);
          PendingActionsAreQuiet(env, v.st, DropTag(rest, a.tag.tagID));
        } else if v.out == Ok {
          PendingRepeatIsQuiet(env, v.st, a, a.repeat);
          var r := Repeat(env, v.st, a, a.repeat);
          if r.out == Ok {
            PendingActionsAreQuiet(env, r.st, rest);
          }
        }
      }
    }
  }

  lemma {:induction false} PendingRepeatIsQuiet(env: Env, st: State, a: Action, n: int)
    requires EnvOk(env) && StateOk(st) && (st.proc.terminated || st.proc.scheduled.Some?)
    ensures var r := Repeat(env, st, a, n); r.st.trace == st.trace && r.st.proc == st.proc
    decreases if n < 0 then 0 else n
  {
    if n > 0 {
      var v := RunOnce(env, st, a);
      var r := RunAction(env, st, a);
      GateExactly(env, st, a.node);
      OnceExactly(env, st, a);
      assert r.st.trace == st.trace && r.st.proc == st.proc;
      if v.out == Ok && !v.holds {
        PendingRepeatIsQuiet(env, v.st, a, n - 1);
      }
    }
  }

  // ---- How often an action runs ----

  /** One run of an action. */
  datatype Shot = Shot(pre: State, post: State, out: Outcome)

  ghost predicate IsShot(env: Env, a: Action, s: Shot) {
    EnvOk(env) && StateOk(s.pre) && Result(s.post, s.out) == RunAction(env, s.pre, a)
  }

  /** After a run that succeeded the extraction is tried, and then the exit criterion. */
  predicate ExtractFails(env: Env, a: Action, s: Shot) {
    s.out == Ok && a.extract && env.world(s.post.clock).error
  }

  predicate ExitFails(env: Env, a: Action, s: Shot) {
    s.out == Ok && !ExtractFails(env, a, s) && Fails(env, After(s.post.clock, a.extract), a.exit)
  }

  predicate ExitHolds(env: Env, a: Action, s: Shot) {
    s.out == Ok && !ExtractFails(env, a, s) && Holds(env, After(s.post.clock, a.extract), a.exit, false)
  }

  /** No further run follows. */
  predicate IsLast(env: Env, a: Action, s: Shot) {
    s.out.Fail? || ExtractFails(env, a, s) || ExitFails(env, a, s) || ExitHolds(env, a, s)
  }

  function ShotOutcome(env: Env, a: Action, s: Shot): Outcome {
    if s.out.Fail? then s.out
    else if ExtractFails(env, a, s) then Fail(World(s.post.clock))
    else if ExitFails(env, a, s) then Fail(World(After(s.post.clock, a.extract)))
    else Ok
  }

  function ShotEnd(env: Env, a: Action, s: Shot): State {
    if s.out.Fail? then s.post
    else
      var extracted := After(s.post.clock, a.extract);
      s.post.(clock := if ExtractFails(env, a, s) then extracted else After(extracted, a.exit != ""))
  }

  /** Each run starts where the one before it ended, and only the last one may end the chain. */
  ghost predicate Chain(env: Env, a: Action, st: State, shots: seq<Shot>)
    decreases |shots|
  {
    shots != [] ==>
      && IsShot(env, a, shots[0]) && shots[0].pre == st
      && (|shots| > 1 ==> !IsLast(env, a, shots[0]))
      && Chain(env, a, ShotEnd(env, a, shots[0]), shots[1..])
  }

  /** The chain ends in a run after which none follows. */
  ghost predicate IsOver(env: Env, a: Action, shots: seq<Shot>) {
    shots != [] && IsLast(env, a, shots[|shots| - 1])
  }

  function ChainResult(env: Env, a: Action, st: State, shots: seq<Shot>): Result {
    if shots == [] then Result(st, Ok)
    else
      var s := shots[|shots| - 1];
      Result(ShotEnd(env, a, s), ShotOutcome(env, a, s))
  }

  lemma OnceExactly(env: Env, st: State, a: Action)
    requires EnvOk(env) && StateOk(st)
    ensures var r := RunAction(env, st, a);
      var s := Shot(st, r.st, r.out);
      var v := RunOnce(env, st, a);
      && v.st == ShotEnd(env, a, s) && v.out == ShotOutcome(env, a, s)
      && (v.out.Fail? || v.holds <==> IsLast(env, a, s))
  {
    var r := RunAction(env, st, a);
    if r.out == Ok {
      VariablesExactly(env, r.st, a.extract);
      var x := Apply(env, r.st, a.extract);
      CriterionExactly(env, x.st, a.exit, false);
    }
  }

  /** The runs of an action that is to run at most `n` times, and what they lead to: fewer than
      `n` runs are made only if the last one ends the chain. */
  ghost predicate Repeats(env: Env, a: Action, st: State, n: int, shots: seq<Shot>, r: Result) {
    && Chain(env, a, st, shots) && |shots| <= (if n < 0 then 0 else n)
    && (|shots| < n ==> IsOver(env, a, shots))
    && r == ChainResult(env, a, st, shots)
  }

  lemma LastShot(env: Env, a: Action, n: int, s: Shot)
    requires IsShot(env, a, s) && IsLast(env, a, s) && n > 0
    ensures Repeats(env, a, s.pre, n, [s], Result(ShotEnd(env, a, s), ShotOutcome(env, a, s)))
  {
    assert [s][1..] == [];
  }

  lemma NextShot(env: Env, a: Action, n: int, s: Shot, rest: seq<Shot>, r: Result)
    requires IsShot(env, a, s) && !IsLast(env, a, s) && n > 0
    requires Repeats(env, a, ShotEnd(env, a, s), n - 1, rest, r)
    ensures Repeats(env, a, s.pre, n, [s] + rest, r)
  {
    var shots := [s] + rest;
    assert shots[1..] == rest;
    assert ShotOutcome(env, a, s) == Ok;
  }

  /** An action is run until a run, its extraction or its exit criterion fails or the exit
      criterion holds, and as often as its repeat count says when that does not happen. */
  lemma {:induction false} RepeatIsChain(env: Env, st: State, a: Action, n: int) returns (shots: seq<Shot>)
    requires EnvOk(env) && StateOk(st)
    ensures Repeats(env, a, st, n, shots, Repeat(env, st, a, n))
    decreases if n < 0 then 0 else n
  {
    shots := [];
    if n > 0 {
      var s := FirstShot(env, st, a, n);
      if IsLast(env, a, s) {
        shots := [s];
        LastShot(env, a, n, s);
      } else {
        var rest := RepeatIsChain(env, ShotEnd(env, a, s), a, n - 1);
        shots := [s] + rest;
        NextShot(env, a, n, s, rest, Repeat(env, st, a, n));
      }
    }
  }

  lemma FirstShot(env: Env, st: State, a: Action, n: int) returns (s: Shot)
    requires EnvOk(env) && StateOk(st) && n > 0
    ensures IsShot(env, a, s) && s.pre == st && StateOk(ShotEnd(env, a, s))
    ensures Repeat(env, st, a, n)
         == if IsLast(env, a, s) then Result(ShotEnd(env, a, s), ShotOutcome(env, a, s))
            else Repeat(env, ShotEnd(env, a, s), a, n - 1)
  {
    var r := RunAction(env, st, a);
    s := Shot(st, r.st, r.out);
    RepeatUnfolds(env, st, a, n);
  }

  lemma RepeatUnfolds(env: Env, st: State, a: Action, n: int)
    requires EnvOk(env) && StateOk(st) && n > 0
    ensures var r := RunAction(env, st, a);
      var s := Shot(st, r.st, r.out);
      && StateOk(ShotEnd(env, a, s))
      && Repeat(env, st, a, n)
         == if IsLast(env, a, s) then Result(ShotEnd(env, a, s), ShotOutcome(env, a, s))
            else Repeat(env, ShotEnd(env, a, s), a, n - 1)
  {
    OnceExactly(env, st, a);
  }

  // ---- Which actions of a list run ----

  /** What becomes of an action: it has the tag that a skip is dropping, it runs elsewhere or
      its tag is filtered out, its skip criterion fails or holds, or it runs. */
  datatype Turn =
    | Dropped
    | Filtered
    | Broken
    | Skipping
    | Runs(shots: seq<Shot>)

  predicate IsFiltered(p: Proc, a: Action) {
    a.async || (p.hasTagID && a.tag.tagID !in p.tagIDs)
  }

  function SkipAsked(st: State, a: Action): State {
    st.(clock := After(st.clock, a.skip != ""))
  }

  /** The fate of an action that starts in state `st` while a skip is dropping a tag. */
  ghost predicate TurnOk(env: Env, a: Action, dropping: Option<string>, st: State, turn: Turn) {
    if dropping == Some(a.tag.tagID) then turn.Dropped?
    else if IsFiltered(st.proc, a) then turn.Filtered?
    else if Fails(env, st.clock, a.skip) then turn.Broken?
    else if Holds(env, st.clock, a.skip, false) then turn.Skipping?
    else
      && turn.Runs?
      && Repeats(env, a, SkipAsked(st, a), a.repeat, turn.shots, ChainResult(env, a, SkipAsked(st, a), turn.shots))
  }

  function TurnResult(env: Env, a: Action, st: State, turn: Turn): Result {
    match turn
    case Dropped => Result(st, Ok)
    case Filtered => Result(st, Ok)
    case Broken => Result(SkipAsked(st, a), Fail(World(st.clock)))
    case Skipping => Result(SkipAsked(st, a), Ok)
    case Runs(shots) => ChainResult(env, a, SkipAsked(st, a), shots)
  }

  /** The actions have their turns one after the other, until one fails. */
  ghost predicate Walk(env: Env, actions: seq<Action>, dropping: Option<string>, st: State, turns: seq<Turn>, r: Result)
    decreases |actions|
  {
    if actions == [] then turns == [] && r == Result(st, Ok)
    else
      && turns != [] && TurnOk(env, actions[0], dropping, st, turns[0])
      && var q := TurnResult(env, actions[0], st, turns[0]);
         if q.out.Fail? then turns[1..] == [] && r == q
         else Walk(env, actions[1..], DroppingAfter(actions[0], dropping, turns[0]), q.st, turns[1..], r)
  }

  /** A skip drops the actions that follow as long as they have its tag. */
  function DroppingAfter(a: Action, dropping: Option<string>, turn: Turn): Option<string> {
    if turn.Skipping? then Some(a.tag.tagID) else if turn.Dropped? then dropping else None
  }

  function Remaining(actions: seq<Action>, dropping: Option<string>): seq<Action> {
    if dropping.Some? then DropTag(actions, dropping.value) else actions
  }

  lemma {:induction false} ActionsWalk(env: Env, st: State, actions: seq<Action>, dropping: Option<string>)
      returns (turns: seq<Turn>)
    requires EnvOk(env) && StateOk(st)
    ensures Walk(env, actions, dropping, st, turns, RunActions(env, st, Remaining(actions, dropping)))
    decreases |actions|
  {
    turns := [];
    if actions != [] {
      var a, rest := actions[0], actions[1..];
      var turn := TurnOf(env, st, a, dropping);
      var q := TurnResult(env, a, st, turn);
      turns := [turn];
      WalkUnfolds(env, st, actions, dropping, turn);
      if q.out == Ok {
        var more := ActionsWalk(env, q.st, rest, DroppingAfter(a, dropping, turn));
        turns := [turn] + more;
        assert turns[1..] == more;
      }
    }
  }

  lemma TurnOf(env: Env, st: State, a: Action, dropping: Option<string>) returns (turn: Turn)
    requires EnvOk(env) && StateOk(st)
    ensures TurnOk(env, a, dropping, st, turn)
    ensures turn.Runs? ==> TurnResult(env, a, st, turn) == Repeat(env, SkipAsked(st, a), a, a.repeat)
  {
    if dropping == Some(a.tag.tagID) {
      turn := Dropped;
    } else if IsFiltered(st.proc, a) {
      turn := Filtered;
    } else if Fails(env, st.clock, a.skip) {
      turn := Broken;
    } else if Holds(env, st.clock, a.skip, false) {
      turn := Skipping;
    } else {
      var shots := RepeatIsChain(env, SkipAsked(st, a), a, a.repeat);
      turn := Runs(shots);
    }
  }

  lemma WalkUnfolds(env: Env, st: State, actions: seq<Action>, dropping: Option<string>, turn: Turn)
    requires EnvOk(env) && StateOk(st) && actions != [] && TurnOk(env, actions[0], dropping, st, turn)
    requires turn.Runs? ==>
      TurnResult(env, actions[0], st, turn) == Repeat(env, SkipAsked(st, actions[0]), actions[0], actions[0].repeat)
    ensures var q := TurnResult(env, actions[0], st, turn);
      && StateOk(q.st)
      && RunActions(env, st, Remaining(actions, dropping))
         == if q.out.Fail? then q
            else RunActions(env, q.st, Remaining(actions[1..], DroppingAfter(actions[0], dropping, turn)))
  {
    CriterionExactly(env, st, actions[0].skip, false);
  }

  // ---- What a request leads to ----

  /** The state in which a request that can be built is handled. */
  function Served(env: Env, st: State): State {
    Emit(st.(clock := st.clock + 1), Request(st.proc.id, KindOf(env.world(st.clock).dispatch)))
  }

  /** The outcome of a request, case by case on what the outside answered. */
  function RequestOutcome(env: Env, st: State): Outcome
    requires EnvOk(env) && StateOk(st)
  {
    var s := Served(env, st);
    var root := st.proc.workflow.root;
    match env.world(st.clock).dispatch
    case Reject => Fail(World(st.clock))
    case Reply(ok) => if ok then Ok else Fail(World(st.clock))
    case Exit => Ok
    case Goto(name) => if Has(root, name) then Ok else Fail(NoTask(name))
    case SwitchTask(name) =>
      FoundIsOk(root.tasks, Trim(name));
      if Has(root, name) then RunTask(env, s, Find(root, name).value).out else Fail(NoTask(name))
    case SwitchAction(a) => RunAction(env, s, a).out
    case Run(name, _, _, _, _) =>
      if name in env.registry then RunWorkflow(env, s, env.world(st.clock).dispatch).out else Fail(NoWorkflow(name))
  }

  /** An exit and a goto do what they say to the process; a reply does nothing to it. */
  lemma RequestExactly(env: Env, st: State)
    requires EnvOk(env) && StateOk(st)
    ensures var d, r := env.world(st.clock).dispatch, Send(env, st);
      && r.out == RequestOutcome(env, st)
      && (d.Reject? || d.Reply? ==> r.st.proc == st.proc)
      && (d.Exit? ==> r.st.proc == st.proc.(terminated := true))
      && (d.Goto? ==> r.st.proc == if Has(st.proc.workflow.root, d.task) then
                                     st.proc.(scheduled := Find(st.proc.workflow.root, d.task)) else st.proc)
      && (d.Reject? ==> r.st == st.(clock := st.clock + 1))
      && (d.Reply? || d.Exit? || d.Goto? ==>
            && r.st.clock == st.clock + 1
            && r.st.trace == st.trace + [Request(st.proc.id, KindOf(d)), Response(st.proc.id, KindOf(d))])
  {
    var d := env.world(st.clock).dispatch;
    var o, c := Request(st.proc.id, KindOf(d)), Response(st.proc.id, KindOf(d));
    assert st.trace + [o] + [c] == st.trace + [o, c];
    assert Served(env, st) == Emit(Tick(st), o);
    if !d.Reject? {
      HandleExactly(env, st);
    }
  }

  lemma HandleExactly(env: Env, st: State)
    requires EnvOk(env) && StateOk(st) && !env.world(st.clock).dispatch.Reject?
    ensures Handle(env, st, env.world(st.clock).dispatch, Served(env, st)).out == RequestOutcome(env, st)
  {
    match env.world(st.clock).dispatch
    case SwitchTask(name) =>
      FoundIsOk(st.proc.workflow.root.tasks, Trim(name));
    case _ =>
  }

  // ---- Which answer decides the outcome of a list of actions ----

  /** A question that a list of actions asks itself: whether a criterion holds, whether
      variables can be applied, and what a request leads to.  A request is over at `until`. */
  datatype Question =
    | Criterion(at: nat)
    | Variables(at: nat)
    | Asking(st: State, until: nat)

  function AskedAt(q: Question): nat {
    if q.Asking? then q.st.clock else q.at
  }

  function OverAt(q: Question): nat {
    if q.Asking? then q.until else q.at + 1
  }

  ghost predicate QuestionOk(env: Env, q: Question) {
    q.Asking? ==> EnvOk(env) && StateOk(q.st) && q.until == Send(env, q.st).st.clock
  }

  /** What the answer to a question means for the list. */
  function Meaning(env: Env, q: Question): Outcome
    requires QuestionOk(env, q)
  {
    if q.Asking? then RequestOutcome(env, q.st)
    else if env.world(q.at).error then Fail(World(q.at)) else Ok
  }

  /** The questions follow each other without a gap from one time to another; all but the
      last one are answered well, and the last one decides the outcome. */
  ghost predicate Decides(env: Env, from: nat, qs: seq<Question>, to: nat, out: Outcome)
    decreases |qs|
  {
    if qs == [] then from == to && out == Ok
    else
      && QuestionOk(env, qs[0]) && AskedAt(qs[0]) == from
      && if Meaning(env, qs[0]).Fail? then qs[1..] == [] && to == OverAt(qs[0]) && out == Meaning(env, qs[0])
         else Decides(env, OverAt(qs[0]), qs[1..], to, out)
  }

  lemma {:induction false} DecidesMore(env: Env, from: nat, v: seq<Question>, mid: nat, w: seq<Question>, to: nat, out: Outcome)
    requires Decides(env, from, v, mid, Ok) && Decides(env, mid, w, to, out)
    ensures Decides(env, from, v + w, to, out)
    decreases |v|
  {
    if v == [] {
      assert v + w == w;
    } else {
      assert (v + w)[1..] == v[1..] + w;
      DecidesMore(env, OverAt(v[0]), v[1..], mid, w, to, out);
    }
  }

  lemma AskCriterion(env: Env, at: nat, criterion: string) returns (qs: seq<Question>)
    ensures Decides(env, at, qs, After(at, criterion != ""), if Fails(env, at, criterion) then Fail(World(at)) else Ok)
  {
    qs := if criterion == "" then [] else [Criterion(at)];
    assert criterion != "" ==> qs[1..] == [];
  }

  lemma AskVariables(env: Env, at: nat, variables: bool) returns (qs: seq<Question>)
    ensures Decides(env, at, qs, After(at, variables), if variables && env.world(at).error then Fail(World(at)) else Ok)
  {
    qs := if variables then [Variables(at)] else [];
    assert variables ==> qs[1..] == [];
  }

  lemma AskRequest(env: Env, st: State) returns (qs: seq<Question>)
    requires EnvOk(env) && StateOk(st)
    ensures Decides(env, st.clock, qs, Send(env, st).st.clock, Send(env, st).out)
  {
    RequestExactly(env, st);
    qs := [Asking(st, Send(env, st).st.clock)];
    assert qs[1..] == [];
  }

  lemma AskAction(env: Env, st: State, a: Action) returns (qs: seq<Question>)
    requires EnvOk(env) && StateOk(st)
    ensures Decides(env, st.clock, qs, RunAction(env, st, a).st.clock, RunAction(env, st, a).out)
  {
    var g := EnterNode(env, st, a.node);
    GateExactly(env, st, a.node);
    qs := AskGate(env, st, a.node);
    if g.Enter? {
      var begun := Emit(g.st.(proc := Push(g.st.proc, NewActivity(g.st.proc, a))), ActivityStart(NewActivity(g.st.proc, a)));
      var asked := AskRequest(env, begun);
      var r := RunActivity(env, g.st, a);
      DecidesMore(env, st.clock, qs, g.st.clock, asked, r.st.clock, r.out);
      qs := qs + asked;
      LeaveExactly(env, r, a.node, st.logging);
      if r.out == Ok {
        var last := AskVariables(env, r.st.clock, a.node.post);
        var l := LeaveNode(env, r, a.node, st.logging);
        DecidesMore(env, st.clock, qs, r.st.clock, last, l.st.clock, l.out);
        qs := qs + last;
      }
    }
  }

  lemma AskGate(env: Env, st: State, node: Node) returns (qs: seq<Question>)
    requires StateOk(st)
    ensures var g := EnterNode(env, st, node);
      Decides(env, st.clock, qs, g.st.clock, if g.Stop? then g.out else Ok)
  {
    qs := [];
    if CanRun(st.proc) {
      qs := AskCriterion(env, st.clock, node.when);
      var v := Evaluate(env, st.(logging := node.logging), node.when, true);
      CriterionExactly(env, st.(logging := node.logging), node.when, true);
      if v.out == Ok && v.holds {
        var more := AskVariables(env, v.st.clock, node.init);
        var i := Apply(env, v.st, node.init);
        VariablesExactly(env, v.st, node.init);
        DecidesMore(env, st.clock, qs, v.st.clock, more, i.st.clock, i.out);
        qs := qs + more;
      }
    }
  }

  lemma AskOnce(env: Env, st: State, a: Action) returns (qs: seq<Question>)
    requires EnvOk(env) && StateOk(st)
    ensures Decides(env, st.clock, qs, RunOnce(env, st, a).st.clock, RunOnce(env, st, a).out)
  {
    var r := RunAction(env, st, a);
    qs := AskAction(env, st, a);
    if r.out == Ok {
      var x := Apply(env, r.st, a.extract);
      VariablesExactly(env, r.st, a.extract);
      var more := AskVariables(env, r.st.clock, a.extract);
      DecidesMore(env, st.clock, qs, r.st.clock, more, x.st.clock, x.out);
      qs := qs + more;
      if x.out == Ok {
        var v := Evaluate(env, x.st, a.exit, false);
        CriterionExactly(env, x.st, a.exit, false);
        var last := AskCriterion(env, x.st.clock, a.exit);
        DecidesMore(env, st.clock, qs, x.st.clock, last, v.st.clock, v.out);
        qs := qs + last;
      }
    }
  }

  lemma {:induction false} AskRepeat(env: Env, st: State, a: Action, n: int) returns (qs: seq<Question>)
    requires EnvOk(env) && StateOk(st)
    ensures Decides(env, st.clock, qs, Repeat(env, st, a, n).st.clock, Repeat(env, st, a, n).out)
    decreases if n < 0 then 0 else n
  {
    qs := [];
    if n > 0 {
      var v := RunOnce(env, st, a);
      qs := AskOnce(env, st, a);
      if v.out == Ok && !v.holds {
        var more := AskRepeat(env, v.st, a, n - 1);
        RepeatAsks(env, st, a, n, qs, more);
        qs := qs + more;
      }
    }
  }

  lemma RepeatAsks(env: Env, st: State, a: Action, n: int, once: seq<Question>, more: seq<Question>)
    requires EnvOk(env) && StateOk(st) && n > 0
    requires var v := RunOnce(env, st, a);
      var r := Repeat(env, v.st, a, n - 1);
      && v.out == Ok && !v.holds
      && Decides(env, st.clock, once, v.st.clock, Ok) && Decides(env, v.st.clock, more, r.st.clock, r.out)
    ensures var r := Repeat(env, st, a, n); Decides(env, st.clock, once + more, r.st.clock, r.out)
  {
    var v := RunOnce(env, st, a);
    var r := Repeat(env, v.st, a, n - 1);
    DecidesMore(env, st.clock, once, v.st.clock, more, r.st.clock, r.out);
  }

  /** The actions of a task without subtasks end without an error if and only if none of the
      questions they ask is answered by one; otherwise the first such answer is the outcome. */
  lemma {:induction false} ActionsAsk(env: Env, st: State, actions: seq<Action>) returns (qs: seq<Question>)
    requires EnvOk(env) && StateOk(st)
    ensures Decides(env, st.clock, qs, RunActions(env, st, actions).st.clock, RunActions(env, st, actions).out)
    decreases |actions|, 1
  {
    qs := [];
    if actions != [] {
      var a, rest := actions[0], actions[1..];
      if PassedOver(st.proc, a) {
        qs := ActionsAsk(env, st, rest);
      } else {
        var v := Evaluate(env, st, a.skip, false);
        CriterionExactly(env, st, a.skip, false);
        qs := AskCriterion(env, st.clock, a.skip);
        if v.out == Ok {
          var more := HeadAsks(env, v.st, actions, v.holds);
          var last := RunActions(env, st, actions);
          DecidesMore(env, st.clock, qs, v.st.clock, more, last.st.clock, last.out);
          qs := qs + more;
        }
      }
    }
  }

  /** What follows the answer to the skip criterion of the first action. */
  lemma {:induction false} HeadAsks(env: Env, st: State, actions: seq<Action>, skips: bool) returns (qs: seq<Question>)
    requires EnvOk(env) && StateOk(st) && actions != []
    ensures var a := actions[0];
      var r := Repeat(env, st, a, a.repeat);
      var last := if skips then RunActions(env, st, DropTag(actions[1..], a.tag.tagID))
                  else if r.out.Fail? then r else RunActions(env, r.st, actions[1..]);
      Decides(env, st.clock, qs, last.st.clock, last.out)
    decreases |actions|, 0
  {
    var a := actions[0];
    if skips {
      DropTagIsSuffix(actions[1..], a.tag.tagID);
      qs := ActionsAsk(env, st, DropTag(actions[1..], a.tag.tagID));
    } else {
      var r := Repeat(env, st, a, a.repeat);
      qs := AskRepeat(env, st, a, a.repeat);
      if r.out == Ok {
        var more := ActionsAsk(env, r.st, actions[1..]);
        var last := RunActions(env, r.st, actions[1..]);
        DecidesMore(env, st.clock, qs, r.st.clock, more, last.st.clock, last.out);
        qs := qs + more;
      }
    }
  }

  lemma {:induction false} DecidesOk(env: Env, from: nat, qs: seq<Question>, to: nat, out: Outcome)
    requires Decides(env, from, qs, to, out)
    ensures forall q :: q in qs ==> QuestionOk(env, q)
    ensures out == Ok <==> forall q :: q in qs && QuestionOk(env, q) ==> Meaning(env, q) == Ok
    decreases |qs|
  {
    if qs != [] {
      assert qs == [qs[0]] + qs[1..];
      if Meaning(env, qs[0]) == Ok {
        DecidesOk(env, OverAt(qs[0]), qs[1..], to, out);
      }
    }
  }

  // ---- Tasks ----

  /** A task that is entered: its node around its body. */
  lemma TaskExactly(env: Env, st: State, t: Task)
    requires EnvOk(env) && StateOk(st) && TaskOk(t) && Enters(env, st, t.node)
    ensures var s := Emit(st.(proc := SetTask(st.proc, t)), TaskStart(t.node.name, TemplateTag(t)))
                         .(clock := After(After(st.clock, t.node.when != ""), t.node.init), logging := t.node.logging);
      var b, r := RunTaskBody(env, s, t), RunTask(env, st, t);
      && r.st.trace == b.st.trace + [TaskEnd(t.node.name)] && r.st.proc == b.st.proc && r.st.logging == st.logging
      && r.st.clock == After(b.st.clock, b.out == Ok && t.node.post)
      && r.out == (if b.out.Fail? then b.out
                   else if t.node.post && env.world(b.st.clock).error then Fail(World(b.st.clock)) else Ok)
  {
    var begun := Emit(st.(proc := SetTask(st.proc, t)), TaskStart(t.node.name, TemplateTag(t)));
    assert Enters(env, begun, t.node) <==> Enters(env, st, t.node);
    GateExactly(env, begun, t.node);
    LeaveExactly(env, RunTaskBody(env, EnterNode(env, begun, t.node).st, t), t.node, st.logging);
  }

  /** A task runs its subtasks first; when they succeed, or when it has none, it continues
      with its own actions from the state they lead to. */
  lemma BodyExactly(env: Env, st: State, t: Task)
    requires EnvOk(env) && StateOk(st) && TaskOk(t)
    ensures t.sub.tasks == [] ==> RunTaskBody(env, st, t) == RunActions(env, st, t.actions)
    ensures t.sub.tasks != [] ==>
      var r := RunTasks(env, st, t.sub);
      RunTaskBody(env, st, t) == if r.out.Fail? then r else RunActions(env, r.st, t.actions)
  {
  }

  /** A task without subtasks ends without an error if and only if no question that it or its
      actions ask is answered by one. */
  lemma LeafTaskAsks(env: Env, st: State, t: Task) returns (qs: seq<Question>)
    requires EnvOk(env) && StateOk(st) && TaskOk(t) && t.sub.tasks == []
    ensures Decides(env, st.clock, qs, RunTask(env, st, t).st.clock, RunTask(env, st, t).out)
  {
    var begun := Emit(st.(proc := SetTask(st.proc, t)), TaskStart(t.node.name, TemplateTag(t)));
    var r := InsideTask(env, begun, t, st.logging);
    var g := EnterNode(env, begun, t.node);
    qs := AskGate(env, begun, t.node);
    if g.Enter? {
      var b := RunActions(env, g.st, t.actions);
      var more := ActionsAsk(env, g.st, t.actions);
      DecidesMore(env, st.clock, qs, g.st.clock, more, b.st.clock, b.out);
      qs := qs + more;
      LeaveExactly(env, b, t.node, st.logging);
      if b.out == Ok {
        var last := AskVariables(env, b.st.clock, t.node.post);
        DecidesMore(env, st.clock, qs, b.st.clock, last, r.st.clock, r.out);
        qs := qs + last;
      }
    }
  }

  /** The tag filter of a task is on when one of its actions has a tag of the process. */
  lemma FilterExactly(p: Proc, t: Task)
    ensures var q := SetTask(p, t);
      && q == p.(task := Some(t), hasTagID := q.hasTagID)
      && (q.hasTagID <==> exists a :: a in t.actions && a.tag.tagID in p.tagIDs)
  {
    if a :| a in t.actions && a.tag.tagID in p.tagIDs {
      var i :| 0 <= i < |t.actions| && t.actions[i] == a;
    }
  }

  /** A task reports its own tag, or else that of its first action that is not async. */
  lemma TagExactly(t: Task, i: nat)
    ensures t.tag.Some? ==> TemplateTag(t) == t.tag
    ensures t.tag.None? && i < |t.actions| && !t.actions[i].async && (forall k :: 0 <= k < i ==> t.actions[k].async) ==>
      TemplateTag(t) == Some(t.actions[i].tag)
    ensures t.tag.None? && (forall k :: 0 <= k < |t.actions| ==> t.actions[k].async) ==> TemplateTag(t) == None
  {
    FirstTagExactly(t.actions, i);
  }

  lemma {:induction false} FirstTagExactly(actions: seq<Action>, i: nat)
    ensures i < |actions| && !actions[i].async && (forall k :: 0 <= k < i ==> actions[k].async) ==>
      FirstTag(actions) == Some(actions[i].tag)
    ensures (forall k :: 0 <= k < |actions| ==> actions[k].async) ==> FirstTag(actions) == None
  {
    if actions != [] && actions[0].async {
      FirstTagExactly(actions[1..], if i > 0 then i - 1 else 0);
    }
  }

  /** Tasks in ordinary position are those named neither as catch task nor as deferred task. */
  lemma {:induction false} OrdinaryExactly(n: TasksNode, tasks: seq<Task>, t: Task)
    ensures t in C.Ordinary(n, tasks) <==> t in tasks && t.node.name !in {n.onErrorTask, n.deferredTask}
  {
    if tasks != [] {
      OrdinaryExactly(n, tasks[1..], t);
    }
  }

  // ---- Workflows ----

  /** A run request names unknown tasks only if it inherits the selection of an enclosing run,
      and then runs the whole workflow. */
  lemma SelectionExactly(w: Workflow, s: Selector, inherited: bool)
    ensures var known := s.All? || forall name :: name in s.names ==> FindIn(w.root.tasks, Trim(name)).Some?;
      Selection(w, s, inherited)
        == if known then Some(Select(w.root, s)) else if inherited then Some(w.root) else None
  {
  }

  /** The nested run of a registered workflow stands between its start and its end event; an
      unknown workflow is an error and nothing else. */
  lemma WorkflowExactly(env: Env, st: State, d: Dispatch)
    requires EnvOk(env) && StateOk(st) && d.Run? && RequestOk(env.registry, d)
    ensures var r := RunWorkflow(env, st, d);
      if d.name !in env.registry then r == Result(st, Fail(NoWorkflow(d.name)))
      else
        var w := env.registry[d.name];
        var q := RunNested(env, st.(trace := st.trace + [WorkflowStart(w.node.name, w.url)]), w, d);
        r.out == q.out && r.st == q.st.(trace := q.st.trace + [WorkflowEnd(w.node.name)])
  {
  }

  /** A nested run starts a process of its own: with a new identity, the tags of the caller and
      of the request, nothing scheduled and no activities.  The caller's process plays no other
      part in it and comes back as it was. */
  lemma NestedExactly(env: Env, st: State, w: Workflow, d: Dispatch)
    requires EnvOk(env) && StateOk(st) && d.Run? && Callable(w, d)
    ensures var p := Proc(st.next, w, st.proc.tagIDs + d.tagIDs, false, None, [], None, false, None);
      var s := State(st.clock, st.next + 1, st.trace, if d.shared then st.logging else None, p);
      var q, r := RunSelected(env, s, w, d), RunNested(env, st, w, d);
      && r.out == q.out && r.st.clock == q.st.clock && r.st.next == q.st.next && r.st.trace == q.st.trace
      && r.st.proc == st.proc && r.st.logging == if d.shared then q.st.logging else st.logging
  {
  }

  /** A workflow is a node around its selected tasks. */
  lemma RootExactly(env: Env, st: State, w: Workflow, n: TasksNode)
    requires EnvOk(env) && StateOk(st) && NodeOk(n)
    ensures !Enters(env, st, w.node) ==>
      var r := RunRoot(env, st, w, n);
      r.out == Refusal(env, st, w.node) && r.st.trace == st.trace && r.st.proc == st.proc
    ensures Enters(env, st, w.node) ==>
      var s := st.(clock := After(After(st.clock, w.node.when != ""), w.node.init), logging := w.node.logging);
      var b, r := RunTasks(env, s, n), RunRoot(env, st, w, n);
      && r.st == b.st.(clock := After(b.st.clock, b.out == Ok && w.node.post), logging := st.logging)
      && r.out == (if b.out.Fail? then b.out
                   else if w.node.post && env.world(b.st.clock).error then Fail(World(b.st.clock)) else Ok)
  {
    GateExactly(env, st, w.node);
    if Enters(env, st, w.node) {
      LeaveExactly(env, RunTasks(env, EnterNode(env, st, w.node).st, n), w.node, st.logging);
    }
  }
}
