/** The events by which the engine reports its structure, and well-nested words of them. */
module Events {
  import opened Base
  import opened Tasks

  datatype Activity = Activity(caller: string, service: string, action: string, tag: MetaTag)

  datatype Kind = Plain | ExitKind | GotoKind | SwitchKind | ActionKind | RunKind

  /** A switch is to a task (`SwitchKind`) or to an action (`ActionKind`).
      `pid` identifies the process that dispatched a request; a request and its response
      are published around the service handler. */
  datatype Event =
    | WorkflowStart(name: string, url: string)
    | WorkflowEnd(name: string)
    | TaskStart(name: string, tag: Option<MetaTag>)
    | TaskEnd(name: string)
    | ActivityStart(activity: Activity)
    | ActivityEnd(activity: Activity)
    | Request(pid: nat, kind: Kind)
    | Response(pid: nat, kind: Kind)
    | ResetError

  type Word = seq<Event>

  predicate Opens(e: Event) {
    e.WorkflowStart? || e.TaskStart? || e.ActivityStart? || e.Request?
  }

  /** Does the end event `e` belong to the start event `o`? */
  predicate Closes(o: Event, e: Event) {
    match e
    case WorkflowEnd(n) => o.WorkflowStart? && o.name == n
    case TaskEnd(n) => o.TaskStart? && o.name == n
    case ActivityEnd(a) => o == ActivityStart(a)
    case Response(p, k) => o == Request(p, k)
    case _ => false
  }

  /** The brackets left open after reading `w` with `open` already open, innermost last;
      None when an end event does not match the innermost open start event. */
  function Scan(open: Word, w: Word): Option<Word>
    decreases |w|
  {
    if w == [] then Some(open)
    else if Opens(w[0]) then Scan(open + [w[0]], w[1..])
    else if w[0].ResetError? then Scan(open, w[1..])
    else if open != [] && Closes(open[|open| - 1], w[0]) then Scan(open[..|open| - 1], w[1..])
    else None
  }

  predicate Nested(w: Word) {
    Scan([], w) == Some([])
  }

  lemma {:induction false} ScanAppend(open: Word, v: Word, w: Word)
    requires Scan(open, v).Some?
    ensures Scan(open, v + w) == Scan(Scan(open, v).value, w)
    decreases |v|
  {
    if v == [] {
      assert v + w == w;
    } else {
      assert (v + w)[1..] == v[1..] + w;
      var next := if Opens(v[0]) then open + [v[0]] else if v[0].ResetError? then open else open[..|open| - 1];
      ScanAppend(next, v[1..], w);
    }
  }

  /** Brackets opened earlier are not touched. */
  lemma {:induction false} ScanFrame(base: Word, open: Word, w: Word)
    requires Scan(open, w).Some?
    ensures Scan(base + open, w) == Some(base + Scan(open, w).value)
    decreases |w|
  {
    if w != [] {
      if Opens(w[0]) {
        assert base + open + [w[0]] == base + (open + [w[0]]);
        ScanFrame(base, open + [w[0]], w[1..]);
      } else if w[0].ResetError? {
        ScanFrame(base, open, w[1..]);
      } else {
        var b := base + open;
        assert b[..|b| - 1] == base + open[..|open| - 1];
        ScanFrame(base, open[..|open| - 1], w[1..]);
      }
    }
  }

  lemma {:induction false} NestedAnywhere(open: Word, w: Word)
    requires Nested(w)
    ensures Scan(open, w) == Some(open)
  {
    ScanFrame(open, [], w);
    assert open + [] == open;
  }

  lemma {:induction false} NestedConcat(v: Word, w: Word)
    requires Nested(v) && Nested(w)
    ensures Nested(v + w)
  {
    ScanAppend([], v, w);
  }

  lemma {:induction false} NestedBracket(o: Event, w: Word, c: Event)
    requires Opens(o) && !Opens(c) && Closes(o, c) && Nested(w)
    ensures Nested([o] + w + [c])
  {
    ScanAppend([], [o], w);
    assert [] + [o] == [o] && [o][1..] == [];
    assert Scan([], [o]) == Scan([o], []);
    NestedAnywhere([o], w);
    ScanAppend([], [o] + w, [c]);
    assert [o][..0] == [] && [c][1..] == [];
    assert Scan([o], [c]) == Scan([], []);
  }
}
