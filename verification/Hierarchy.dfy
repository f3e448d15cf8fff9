/** The logger follows the engine: its stacks are the open workflows and tasks of a
    sequential run. */
module Hierarchy {
  import opened Base
  import opened Tasks
  import opened Events
  import L = Logger
  import X = Text
  import E = Engine
  import F = EngineFacts
  import T = Theorems

  // ---- Structure of words and of messages ----

  predicate Structural(e: Event) {
    e.WorkflowStart? || e.WorkflowEnd? || e.TaskStart? || e.TaskEnd?
  }

  function Structure(w: Word): Word {
    if w == [] then [] else (if Structural(w[0]) then [w[0]] else []) + Structure(w[1..])
  }

  function MessageStructure(ms: seq<L.Message>): Word {
    if ms == [] then []
    else
      var v := ms[0].value;
      (if v.Known? && Structural(v.event) then [v.event] else []) + MessageStructure(ms[1..])
  }

  /** The stacks after a word of events. */
  function Feed(s: L.Stacks, w: Word): L.Stacks
    decreases |w|
  {
    if w == [] then s else Feed(L.Move(s, w[0]), w[1..])
  }

  lemma {:induction false} FeedStructure(s: L.Stacks, w: Word)
    ensures Feed(s, w) == Feed(s, Structure(w))
    decreases |w|
  {
    if w != [] {
      FeedStructure(L.Move(s, w[0]), w[1..]);
      if Structural(w[0]) {
        assert Structure(w)[1..] == Structure(w[1..]);
      } else {
        assert Structure(w) == Structure(w[1..]);
      }
    }
  }

  function StackEffect(s: L.Stacks, m: L.Message): L.Stacks {
    if m.value.Known? then L.Move(s, m.value.event) else s
  }

  lemma ProcessMoves(s: L.State, m: L.Message)
    ensures L.Process(s, m).stacks == StackEffect(s.stacks, m)
  {
  }

  lemma WriteStays(s: L.State, m: L.Message)
    ensures L.Write(s, m).stacks == s.stacks
  {
  }

  lemma HandleMoves(s: L.State, m: L.Message)
    ensures L.Handle(s, m).stacks == StackEffect(s.stacks, m)
  {
    var p := L.Process(s, m);
    ProcessMoves(s, m);
    WriteStays(p, m);
    assert L.Handle(s, m) == p || L.Handle(s, m) == L.Write(p, m);
  }

  /** Only the structural events of the messages matter for the stacks. */
  lemma {:induction false} HandleStructure(s: L.State, ms: seq<L.Message>)
    ensures L.HandleAll(s, ms).stacks == Feed(s.stacks, MessageStructure(ms))
    decreases |ms|
  {
    if ms != [] {
      HandleMoves(s, ms[0]);
      var next := L.Handle(s, ms[0]);
      HandleStructure(next, ms[1..]);
      assert L.HandleAll(s, ms) == L.HandleAll(next, ms[1..]);
      var v := ms[0].value;
      if v.Known? && Structural(v.event) {
        assert MessageStructure(ms)[1..] == MessageStructure(ms[1..]);
      } else {
        assert MessageStructure(ms) == MessageStructure(ms[1..]);
      }
    }
  }

  // ---- Stacks and open brackets ----

  /** Open brackets on top of the given stacks. */
  function On(base: L.Stacks, open: Word): L.Stacks
    decreases |open|
  {
    if open == [] then base
    else
      var below := On(base, open[..|open| - 1]);
      var o := open[|open| - 1];
      if Opens(o) then L.Move(below, o) else below
  }

  lemma {:induction false} FeedScan(base: L.Stacks, open: Word, w: Word)
    requires Scan(open, w).Some?
    requires forall i :: 0 <= i < |open| ==> Opens(open[i])
    ensures Feed(On(base, open), w) == On(base, Scan(open, w).value)
    decreases |w|
  {
    if w != [] {
      var e := w[0];
      if Opens(e) {
        assert (open + [e])[..|open|] == open;
        FeedScan(base, open + [e], w[1..]);
      } else if e.ResetError? {
        FeedScan(base, open, w[1..]);
      } else {
        FeedScan(base, open[..|open| - 1], w[1..]);
      }
    }
  }

  lemma {:induction false} ScanPrefix(open: Word, w: Word, k: nat)
    requires Scan(open, w).Some? && k <= |w|
    requires forall i :: 0 <= i < |open| ==> Opens(open[i])
    ensures Scan(open, w[..k]).Some?
    decreases |w|
  {
    if k > 0 {
      var next := if Opens(w[0]) then open + [w[0]] else if w[0].ResetError? then open else open[..|open| - 1];
      assert w[..k][1..] == w[1..][..k - 1];
      ScanPrefix(next, w[1..], k - 1);
    }
  }

  /** While a well-nested word is read, the stacks are at any moment those before it with
      the workflows and tasks open at that moment on top; after it they are restored. */
  lemma StacksFollow(base: L.Stacks, w: Word, k: nat)
    requires Nested(w) && k <= |w|
    ensures Scan([], w[..k]).Some? && Feed(base, w[..k]) == On(base, Scan([], w[..k]).value)
    ensures Feed(base, w) == base
  {
    ScanPrefix([], w, k);
    FeedScan(base, [], w[..k]);
    FeedScan(base, [], w);
  }

  function OpenWorkflows(open: Word): seq<string> {
    if open == [] then []
    else
      var o := open[|open| - 1];
      OpenWorkflows(open[..|open| - 1]) + if o.WorkflowStart? then [L.Segment(o.name, o.url)] else []
  }

  function OpenTasks(open: Word): seq<string> {
    if open == [] then []
    else
      var o := open[|open| - 1];
      OpenTasks(open[..|open| - 1]) + if o.TaskStart? then [o.name] else []
  }

  function OpenTags(open: Word): seq<Option<MetaTag>> {
    if open == [] then []
    else
      var o := open[|open| - 1];
      OpenTags(open[..|open| - 1]) + if o.TaskStart? then [o.tag] else []
  }

  /** The stacks hold the segments of the open workflows, and the names and tags of the open
      tasks, in the order in which they were opened. */
  lemma {:induction false} StacksMirror(base: L.Stacks, open: Word)
    ensures On(base, open) == L.Stacks(base.workflows + OpenWorkflows(open), base.tasks + OpenTasks(open), base.tags + OpenTags(open))
  {
    if open == [] {
      assert base.workflows + [] == base.workflows && base.tasks + [] == base.tasks && base.tags + [] == base.tags;
    } else {
      var below, o := open[..|open| - 1], open[|open| - 1];
      StacksMirror(base, below);
      assert o.WorkflowStart? ==>
        base.workflows + OpenWorkflows(below) + [L.Segment(o.name, o.url)] == base.workflows + OpenWorkflows(open);
      assert o.TaskStart? ==> base.tasks + OpenTasks(below) + [o.name] == base.tasks + OpenTasks(open);
      assert o.TaskStart? ==> base.tags + OpenTags(below) + [o.tag] == base.tags + OpenTags(open);
      assert !o.WorkflowStart? ==> OpenWorkflows(open) == OpenWorkflows(below);
      assert !o.TaskStart? ==> OpenTasks(open) == OpenTasks(below) && OpenTags(open) == OpenTags(below);
    }
  }

  lemma {:induction false} HandleLast(s: L.State, ms: seq<L.Message>, m: L.Message)
    ensures L.HandleAll(s, ms + [m]) == L.Handle(L.HandleAll(s, ms), m)
    decreases |ms|
  {
    if ms == [] {
      assert ms + [m] == [m] && [m][1..] == [];
    } else {
      assert (ms + [m])[1..] == ms[1..] + [m];
      HandleLast(L.Handle(s, ms[0]), ms[1..], m);
      assert L.HandleAll(s, ms + [m]) == L.HandleAll(L.Handle(s, ms[0]), ms[1..] + [m]);
    }
  }

  /** The activity that started last, whether it has ended or not. */
  function LastStarted(ms: seq<L.Message>): Activity {
    if ms == [] then L.MAIN
    else
      var v := ms[|ms| - 1].value;
      if v.Known? && v.event.ActivityStart? then v.event.activity else LastStarted(ms[..|ms| - 1])
  }

  /** Without an activity so far the logger uses the main one. */
  function Current(s: L.State): Activity {
    if s.current.Some? then s.current.value else L.MAIN
  }

  function CurrentEffect(a: Activity, m: L.Message): Activity {
    if m.value.Known? && m.value.event.ActivityStart? then m.value.event.activity else a
  }

  lemma ProcessSetsCurrent(s: L.State, m: L.Message)
    ensures Current(L.Process(s, m)) == CurrentEffect(Current(s), m)
  {
  }

  lemma WriteKeepsCurrent(s: L.State, m: L.Message)
    ensures Current(L.Write(s, m)) == Current(s)
  {
  }

  lemma HandleSetsCurrent(s: L.State, m: L.Message)
    ensures Current(L.Handle(s, m)) == CurrentEffect(Current(s), m)
  {
    var p := L.Process(s, m);
    ProcessSetsCurrent(s, m);
    WriteKeepsCurrent(p, m);
    assert L.Handle(s, m) == p || L.Handle(s, m) == L.Write(p, m);
  }

  lemma {:induction false} CurrentIsLastStarted(ms: seq<L.Message>)
    ensures Current(L.HandleAll(L.Empty(), ms)) == LastStarted(ms)
    decreases |ms|
  {
    if ms != [] {
      var before, m := ms[..|ms| - 1], ms[|ms| - 1];
      assert before + [m] == ms;
      CurrentIsLastStarted(before);
      HandleLast(L.Empty(), before, m);
      HandleSetsCurrent(L.HandleAll(L.Empty(), before), m);
    }
  }

  /** Each event opens at most one file: task events none, the others one.  A file belongs to
      what is open when its event is handled, and is named after the activity that started
      last. */
  lemma FilesFollow(ms: seq<L.Message>, m: L.Message)
    requires Scan([], MessageStructure(ms + [m])).Some?
    ensures var before, after := L.HandleAll(L.Empty(), ms).written, L.HandleAll(L.Empty(), ms + [m]).written;
      var open := Scan([], MessageStructure(ms + [m])).value;
      if m.value.Nil? || (m.value.Known? && (m.value.event.TaskStart? || m.value.event.TaskEnd?)) then after == before
      else
        && |after| == |before| + 1 && after[..|before|] == before
        && var e := after[|before|];
           && e.stacks == L.Stacks(OpenWorkflows(open), OpenTasks(open), OpenTags(open))
           && e.name == X.Sprintf4(e.number) + "_" + L.NameTail(m, LastStarted(ms + [m]))
  {
    HandleLast(L.Empty(), ms, m);
    var s := L.HandleAll(L.Empty(), ms);
    var open := Scan([], MessageStructure(ms + [m])).value;
    HandleStructure(L.Empty(), ms + [m]);
    FeedScan(L.Empty().stacks, [], MessageStructure(ms + [m]));
    StacksMirror(L.Empty().stacks, open);
    L.ProcessKeepsLedger(s, m);
    WriteStays(L.Process(s, m), m);
    CurrentIsLastStarted(ms + [m]);
    assert [] + OpenWorkflows(open) == OpenWorkflows(open) && [] + OpenTasks(open) == OpenTasks(open)
      && [] + OpenTags(open) == OpenTags(open);
  }

  /** Running a task leaves the logger's stacks as they were, whatever other events the
      logger sees in between. */
  lemma TaskRestoresLogger(env: E.Env, st: E.State, t: Task, s: L.State, ms: seq<L.Message>) returns (w: Word)
    requires E.EnvOk(env) && E.StateOk(st) && F.StateFits(st) && TaskOk(t)
    ensures E.RunTask(env, st, t).st.trace == st.trace + w
    ensures MessageStructure(ms) == Structure(w) ==> L.HandleAll(s, ms).stacks == s.stacks
  {
    w := F.GoodTask(env, st, t);
    HandleStructure(s, ms);
    FeedStructure(s.stacks, w);
    StacksFollow(s.stacks, w, 0);
  }

  /** After a session the logger's stacks are empty again. */
  lemma SessionRestoresLogger(env: E.Env, d: E.Dispatch, ms: seq<L.Message>)
    requires E.EnvOk(env) && d.Run? && E.RequestOk(env.registry, d)
    requires MessageStructure(ms) == Structure(T.Session(env, d).st.trace)
    ensures L.HandleAll(L.Empty(), ms).stacks == L.Stacks([], [], [])
  {
    var w := T.Session(env, d).st.trace;
    T.SessionIsSafe(env, d);
    HandleStructure(L.Empty(), ms);
    FeedStructure(L.Empty().stacks, w);
    StacksFollow(L.Empty().stacks, w, 0);
  }

  /** Tasks and template tags are pushed and popped together. */
  lemma {:induction false} TagsMatchTasks(s: L.State, ms: seq<L.Message>)
    requires |s.stacks.tasks| == |s.stacks.tags|
    ensures |L.HandleAll(s, ms).stacks.tasks| == |L.HandleAll(s, ms).stacks.tags|
    decreases |ms|
  {
    if ms != [] {
      HandleMoves(s, ms[0]);
      var next := L.Handle(s, ms[0]);
      TagsMatchTasks(next, ms[1..]);
      assert L.HandleAll(s, ms) == L.HandleAll(next, ms[1..]);
    }
  }
}
