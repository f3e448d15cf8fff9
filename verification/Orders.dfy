/** Which plays have only well-nested words. */
module Orders {
  import opened Base
  import opened Tasks
  import opened Events
  import opened Levels
  import opened Nesting
  import opened Plays
  import A = Async
  import E = Engine
  import H = Hierarchy

  // ---- The brackets of a play ----

  /** The start event of a play that is a bracket around another. */
  function StartOf(p: Play): (o: Event)
    requires p.TaskRun? || p.ActionRun? || p.Served? || p.WorkflowRun?
    ensures Opens(o)
  {
    match p
    case TaskRun(t, _) => TaskStart(t.node.name, E.TemplateTag(t))
    case ActionRun(activity, _) => ActivityStart(activity)
    case Served(pid, kind, _) => Request(pid, kind)
    case WorkflowRun(f, _, _) => WorkflowStart(f.node.name, f.url)
  }

  /** The start events that a play emits. */
  function Opened(p: Play): (starts: set<Event>)
    ensures forall o :: o in starts ==> Opens(o)
  {
    match p
    case Silence => {}
    case Reset => {}
    case Then(first, second) => Opened(first) + Opened(second)
    case Jump(_, inner) => Opened(inner)
    case Forked(main, buffers) => Opened(main) + set i, o | 0 <= i < |buffers| && o in Opened(buffers[i]) :: o
    case _ => {StartOf(p)} + Opened(p.inner)
  }

  function Closed(p: Play): set<Event> {
    set o | o in Opened(p) :: EndOf(o)
  }

  function Parts(p: Play): seq<Play>
    requires p.Forked?
  {
    [p.main] + p.buffers
  }

  /** Every start event of one part is closed by every end event of another. */
  ghost predicate Fits(parts: seq<Play>) {
    forall i, j :: 0 <= i < |parts| && 0 <= j < |parts| && i != j ==>
      forall o, e :: o in Opened(parts[i]) && e in Closed(parts[j]) ==> Closes(o, e)
  }

  /** Wherever async actions run beside something, their brackets are interchangeable. */
  ghost predicate Orderly(p: Play) {
    match p
    case Silence => true
    case Reset => true
    case Then(first, second) => Orderly(first) && Orderly(second)
    case Forked(main, buffers) =>
      Orderly(main) && (forall i :: 0 <= i < |buffers| ==> Orderly(buffers[i])) && Fits(Parts(p))
    case _ => Orderly(p.inner)
  }

  // ---- Every word of a play has exactly its start events ----

  ghost predicate HasStarts(w: Word, starts: set<Event>) {
    forall o :: Opens(o) ==> (o in w <==> o in starts)
  }

  lemma {:induction false} ProducedStarts(p: Play, w: Word)
    requires Produces(p, w)
    ensures HasStarts(w, Opened(p))
    decreases p, 1
  {
    match p
    case Silence =>
    case Reset =>
    case Then(first, second) =>
      var k: nat :| Splits(w, k) && Produces(first, w[..k]) && Produces(second, w[k..]);
      ProducedStarts(first, w[..k]);
      ProducedStarts(second, w[k..]);
      assert w == w[..k] + w[k..];
    case Jump(_, inner) => ProducedStarts(inner, w);
    case Forked(_, _) =>
      var words := WordsOf(p, w);
      ForkedStarts(p, w, words);
    case _ => WrappedStarts(p, w);
  }

  lemma {:induction false} WrappedStarts(p: Play, w: Word)
    requires p.TaskRun? || p.ActionRun? || p.Served? || p.WorkflowRun?
    requires Produces(p, w)
    ensures HasStarts(w, Opened(p))
    decreases p, 0
  {
    var v := Unwrap(p, w);
    ProducedStarts(p.inner, v);
    assert Opened(p) == {StartOf(p)} + Opened(p.inner);
  }

  /** A word of a fork is an interleaving of words of its parts. */
  lemma WordsOf(p: Play, w: Word) returns (words: seq<Word>)
    requires p.Forked? && Produces(p, w)
    ensures IsShuffle(words, w) && |words| == |Parts(p)|
    ensures forall i :: 0 <= i < |words| ==> Produces(Parts(p)[i], words[i])
  {
    words :| IsShuffle(words, w) && Parallel(p, words);
    forall i | 0 <= i < |words|
      ensures Produces(Parts(p)[i], words[i])
    {
      if i > 0 {
        assert Produces(p.buffers[i - 1], words[1 + (i - 1)]);
      }
    }
  }

  lemma ForkOf(p: Play, words: seq<Word>, w: Word)
    requires p.Forked? && IsShuffle(words, w) && |words| == |Parts(p)|
    requires forall i :: 0 <= i < |words| ==> Produces(Parts(p)[i], words[i])
    ensures Produces(p, w)
  {
    PartsAreParallel(p, words);
  }

  lemma PartsAreParallel(p: Play, words: seq<Word>)
    requires p.Forked? && |words| == |Parts(p)|
    requires forall i :: 0 <= i < |words| ==> Produces(Parts(p)[i], words[i])
    ensures Parallel(p, words)
  {
    assert Parts(p)[0] == p.main;
    forall i | 0 <= i < |p.buffers|
      ensures Produces(p.buffers[i], words[1 + i])
    {
      assert Parts(p)[1 + i] == p.buffers[i];
    }
  }

  lemma PartIsSmaller(p: Play, i: nat)
    requires p.Forked? && i < |Parts(p)|
    ensures i == 0 ==> Parts(p)[i] == p.main
    ensures i > 0 ==> Parts(p)[i] == p.buffers[i - 1]
  {
  }

  lemma {:induction false} ForkedStarts(p: Play, w: Word, words: seq<Word>)
    requires p.Forked? && IsShuffle(words, w) && |words| == |Parts(p)|
    requires forall i :: 0 <= i < |words| ==> Produces(Parts(p)[i], words[i])
    ensures HasStarts(w, Opened(p))
    decreases p, 0
  {
    forall o | Opens(o)
      ensures o in w <==> o in Opened(p)
    {
      ShuffleMembers(words, w, o);
      PartsOpen(p, o);
      forall i | 0 <= i < |words|
        ensures o in words[i] <==> o in Opened(Parts(p)[i])
      {
        if i == 0 {
          ProducedStarts(p.main, words[0]);
        } else {
          ProducedStarts(p.buffers[i - 1], words[i]);
        }
      }
    }
  }

  lemma PartsOpen(p: Play, o: Event)
    requires p.Forked?
    ensures o in Opened(p) <==> exists i :: 0 <= i < |Parts(p)| && o in Opened(Parts(p)[i])
  {
    if o in Opened(p) {
      if o in Opened(p.main) {
        assert o in Opened(Parts(p)[0]);
      } else {
        var i :| 0 <= i < |p.buffers| && o in Opened(p.buffers[i]);
        assert o in Opened(Parts(p)[1 + i]);
      }
    }
    if i :| 0 <= i < |Parts(p)| && o in Opened(Parts(p)[i]) {
      PartIsSmaller(p, i);
    }
  }

  // ---- Orderly plays ----

  lemma {:induction false} OrderlyIsNested(p: Play, w: Word)
    requires Produces(p, w) && Orderly(p)
    ensures Nested(w)
    decreases p, 1
  {
    match p
    case Silence =>
    case Reset =>
      assert Scan([], w) == Scan([], w[1..]) && w[1..] == [];
    case Then(first, second) =>
      var k: nat :| Splits(w, k) && Produces(first, w[..k]) && Produces(second, w[k..]);
      OrderlyIsNested(first, w[..k]);
      OrderlyIsNested(second, w[k..]);
      NestedConcat(w[..k], w[k..]);
      assert w[..k] + w[k..] == w;
    case Jump(_, inner) => OrderlyIsNested(inner, w);
    case Forked(_, _) => OrderlyForkIsNested(p, w);
    case _ =>
      var v := Unwrap(p, w);
      OrderlyIsNested(p.inner, v);
      NestedBracket(StartOf(p), v, EndOf(StartOf(p)));
  }

  /** What a word of a bracketed play has between its brackets. */
  lemma Unwrap(p: Play, w: Word) returns (v: Word)
    requires p.TaskRun? || p.ActionRun? || p.Served? || p.WorkflowRun?
    requires Produces(p, w)
    ensures Produces(p.inner, v) && w == [StartOf(p)] + v + [EndOf(StartOf(p))]
  {
    var o := StartOf(p);
    assert Wraps(o, p.inner, EndOf(o), w);
    v := w[1..|w| - 1];
  }

  lemma {:induction false} OrderlyForkIsNested(p: Play, w: Word)
    requires p.Forked? && Produces(p, w) && Orderly(p)
    ensures Nested(w)
    decreases p, 0
  {
    var words := WordsOf(p, w);
    forall i: nat | i < |words|
      ensures Nested(words[i])
    {
      OrderlyParts(p, i);
      PartIsSmaller(p, i);
      OrderlyIsNested(Parts(p)[i], words[i]);
    }
    FitsIsCompatible(Parts(p), words);
    OrderlyFits(p);
    CompatibleIsNested(words, w);
  }

  lemma OrderlyParts(p: Play, i: nat)
    requires p.Forked? && Orderly(p) && i < |Parts(p)|
    ensures Orderly(Parts(p)[i])
  {
    PartIsSmaller(p, i);
  }

  lemma OrderlyFits(p: Play)
    requires p.Forked? && Orderly(p)
    ensures Fits(Parts(p))
  {
  }

  /** For nested words of the parts, fitting and being compatible are the same. */
  lemma FitsIsCompatible(parts: seq<Play>, words: seq<Word>)
    requires |words| == |parts| && AllNested(words)
    requires forall i :: 0 <= i < |words| ==> Produces(parts[i], words[i])
    ensures Fits(parts) <==> Compatible(words)
  {
    forall i | 0 <= i < |words|
      ensures forall o :: Opens(o) ==> (o in words[i] <==> o in Opened(parts[i]))
      ensures forall e :: IsEnd(e) ==> (e in words[i] <==> e in Closed(parts[i]))
    {
      ProducedStarts(parts[i], words[i]);
      forall e | IsEnd(e)
        ensures e in words[i] <==> e in Closed(parts[i])
      {
        EndsOf(parts[i], words[i], e);
      }
    }
    forall i, j | 0 <= i < |words| && 0 <= j < |words|
      ensures Agree(words[i], words[j]) <==> forall o, e :: o in Opened(parts[i]) && e in Closed(parts[j]) ==> Closes(o, e)
    {
      AgreeOf(parts[i], parts[j], words[i], words[j]);
    }
  }

  lemma EndsOf(p: Play, w: Word, e: Event)
    requires Produces(p, w) && Nested(w) && IsEnd(e)
    ensures e in w <==> e in Closed(p)
  {
    ProducedStarts(p, w);
    if e in w {
      var o := EndHasStart([], w, e);
      assert EndOf(o) == e;
    }
    if e in Closed(p) {
      var o :| o in Opened(p) && EndOf(o) == e;
      StartHasEnd([], w, o);
    }
  }

  lemma AgreeOf(p: Play, q: Play, v: Word, w: Word)
    requires forall o :: Opens(o) ==> (o in v <==> o in Opened(p))
    requires forall e :: IsEnd(e) ==> (e in w <==> e in Closed(q))
    ensures Agree(v, w) <==> forall o, e :: o in Opened(p) && e in Closed(q) ==> Closes(o, e)
  {
  }

  // ---- Plays that are not orderly ----

  /** A mismatch stays one on top of other open brackets and before further events. */
  lemma {:induction false} NoneFrame(base: Word, open: Word, w: Word)
    requires Scan(open, w).None? && Height(|open|, w, EveryLayer).Some?
    ensures Scan(base + open, w).None?
    decreases |w|
  {
    if Opens(w[0]) {
      assert base + open + [w[0]] == base + (open + [w[0]]);
      NoneFrame(base, open + [w[0]], w[1..]);
    } else if w[0].ResetError? {
      NoneFrame(base, open, w[1..]);
    } else {
      var b := base + open;
      assert b[|b| - 1] == open[|open| - 1] && b[..|b| - 1] == base + open[..|open| - 1];
      if Closes(open[|open| - 1], w[0]) {
        NoneFrame(base, open[..|open| - 1], w[1..]);
      }
    }
  }

  lemma NoneAppend(open: Word, v: Word, w: Word)
    requires Scan(open, v).None? && forall i :: 0 <= i < |open| ==> Opens(open[i])
    ensures Scan(open, v + w).None?
  {
    assert (v + w)[..|v|] == v;
    if Scan(open, v + w).Some? {
      H.ScanPrefix(open, v + w, |v|);
    }
  }

  /** A word of a play that is not nested has a mismatch. */
  lemma BadIsNone(p: Play, w: Word)
    requires Produces(p, w) && !Nested(w)
    ensures Scan([], w).None? && Height(0, w, EveryLayer) == Some(0)
  {
    ProducedHeight(p, w, EveryLayer);
    if Scan([], w).Some? {
      ScanHeight([], w, EveryLayer);
      CountsAll(w, []);
    }
  }

  /** Brackets that are open are start events, so all of them count. */
  lemma {:induction false} CountsAll(w: Word, open: Word)
    requires Scan(open, w).Some? && forall i :: 0 <= i < |open| ==> Opens(open[i])
    ensures Count(Scan(open, w).value, EveryLayer) == 0 ==> Scan(open, w).value == []
    decreases |w|
  {
    if w != [] {
      CountsAll(w[1..], if Opens(w[0]) then open + [w[0]] else if w[0].ResetError? then open else open[..|open| - 1]);
    }
  }

  lemma ThenOf(first: Play, second: Play, v: Word, w: Word)
    requires Produces(first, v) && Produces(second, w)
    ensures Produces(Then(first, second), v + w)
  {
    var vw := v + w;
    assert Splits(vw, |v|) && vw[..|v|] == v && vw[|v|..] == w;
  }

  lemma WrapOf(p: Play, v: Word)
    requires p.TaskRun? || p.ActionRun? || p.Served? || p.WorkflowRun?
    requires Produces(p.inner, v)
    ensures Produces(p, [StartOf(p)] + v + [EndOf(StartOf(p))])
  {
    var o := StartOf(p);
    var w := [o] + v + [EndOf(o)];
    assert w[1..|w| - 1] == v;
    assert Wraps(o, p.inner, EndOf(o), w);
  }

  /** Every play has a word. */
  ghost predicate HasWord(p: Play) {
    exists w: Word :: Produces(p, w)
  }

  ghost function WordOf(p: Play): (w: Word)
    requires HasWord(p)
    ensures Produces(p, w)
  {
    var w: Word :| Produces(p, w);
    w
  }

  ghost function WordsFor(parts: seq<Play>): (words: seq<Word>)
    requires forall i :: 0 <= i < |parts| ==> HasWord(parts[i])
    ensures |words| == |parts| && forall i :: 0 <= i < |parts| ==> Produces(parts[i], words[i])
  {
    seq(|parts|, i requires 0 <= i < |parts| => WordOf(parts[i]))
  }

  lemma {:induction false} EveryPlayHasWord(p: Play)
    ensures HasWord(p)
  {
    match p
    case Silence => assert Produces(p, []);
    case Reset => assert Produces(p, [ResetError]);
    case Then(first, second) =>
      EveryPlayHasWord(first);
      EveryPlayHasWord(second);
      ThenOf(first, second, WordOf(first), WordOf(second));
    case Jump(_, inner) =>
      EveryPlayHasWord(inner);
      assert Produces(p, WordOf(inner));
    case Forked(main, buffers) =>
      forall i: nat | i < |Parts(p)|
        ensures HasWord(Parts(p)[i])
      {
        PartIsSmaller(p, i);
        EveryPlayHasWord(if i == 0 then main else buffers[i - 1]);
      }
      var words := WordsFor(Parts(p));
      var w := SomeShuffle(words, |words|);
      ForkOf(p, words, w);
    case _ =>
      EveryPlayHasWord(p.inner);
      WrapOf(p, WordOf(p.inner));
  }

  ghost predicate HasBadWord(p: Play) {
    exists w: Word :: Produces(p, w) && !Nested(w)
  }

  lemma {:induction false} DisorderIsBad(p: Play)
    requires !Orderly(p)
    ensures HasBadWord(p)
    decreases p, 1
  {
    match p
    case Silence =>
    case Reset =>
    case Then(first, second) =>
      EveryPlayHasWord(first);
      EveryPlayHasWord(second);
      if !Orderly(first) {
        DisorderIsBad(first);
        var v: Word :| Produces(first, v) && !Nested(v);
        BadIsNone(first, v);
        NoneAppend([], v, WordOf(second));
        ThenOf(first, second, v, WordOf(second));
      } else {
        DisorderIsBad(second);
        var v, w: Word := WordOf(first), WordOf(second);
        var u: Word :| Produces(second, u) && !Nested(u);
        OrderlyIsNested(first, v);
        ScanAppend([], v, u);
        ThenOf(first, second, v, u);
      }
    case Jump(_, inner) =>
      DisorderIsBad(inner);
      var v: Word :| Produces(inner, v) && !Nested(v);
      assert Produces(p, v);
    case Forked(_, _) => DisorderedFork(p);
    case _ =>
      DisorderIsBad(p.inner);
      var v: Word :| Produces(p.inner, v) && !Nested(v);
      WrapBad(p, v);
  }

  lemma WrapBad(p: Play, v: Word)
    requires p.TaskRun? || p.ActionRun? || p.Served? || p.WorkflowRun?
    requires Produces(p.inner, v) && !Nested(v)
    ensures HasBadWord(p)
  {
    var o := StartOf(p);
    var w := [o] + v + [EndOf(o)];
    WrapOf(p, v);
    BadIsNone(p.inner, v);
    NoneFrame([o], [], v);
    assert [o] + [] == [o];
    NoneAppend([o], v, [EndOf(o)]);
    assert w[1..] == v + [EndOf(o)] && [] + [o] == [o];
    assert Scan([], w) == Scan([o], w[1..]);
  }

  lemma {:induction false} DisorderedFork(p: Play)
    requires p.Forked? && !Orderly(p)
    ensures HasBadWord(p)
    decreases p, 0
  {
    forall i: nat | i < |Parts(p)|
      ensures HasWord(Parts(p)[i])
    {
      EveryPlayHasWord(Parts(p)[i]);
    }
    var words := WordsFor(Parts(p));
    if n: nat :| n < |Parts(p)| && !Orderly(Parts(p)[n]) {
      PartIsSmaller(p, n);
      DisorderIsBad(Parts(p)[n]);
      BadPart(p, n);
    } else {
      AllPartsOrderly(p);
      forall i: nat | i < |words|
        ensures Nested(words[i])
      {
        OrderlyIsNested(Parts(p)[i], words[i]);
      }
      FitsIsCompatible(Parts(p), words);
      ShufflesAreNested(words);
      var w :| IsShuffle(words, w) && !Nested(w);
      ForkOf(p, words, w);
    }
  }

  lemma AllPartsOrderly(p: Play)
    requires p.Forked? && !Orderly(p) && forall n: nat :: n < |Parts(p)| ==> Orderly(Parts(p)[n])
    ensures !Fits(Parts(p))
  {
    assert Orderly(Parts(p)[0]);
    forall i | 0 <= i < |p.buffers|
      ensures Orderly(p.buffers[i])
    {
      assert Orderly(Parts(p)[1 + i]);
    }
  }

  /** The bad word of a part is read first. */
  lemma BadPart(p: Play, n: nat)
    requires p.Forked? && n < |Parts(p)| && HasBadWord(Parts(p)[n])
    requires forall i: nat :: i < |Parts(p)| ==> HasWord(Parts(p)[i])
    ensures HasBadWord(p)
  {
    var v: Word :| Produces(Parts(p)[n], v) && !Nested(v);
    var words := WordsFor(Parts(p))[n := v];
    var z := ReadFirst(words, n);
    ForkOf(p, words, v + z);
    BadIsNone(Parts(p)[n], v);
    NoneAppend([], v, z);
  }

  lemma ReadFirst(words: seq<Word>, n: nat) returns (z: Word)
    requires n < |words|
    ensures IsShuffle(words, words[n] + z)
  {
    var rest := words[n := []];
    z := SomeShuffle(rest, |rest|);
    ShufflePrepend(rest, n, words[n], z);
    assert words[n] + rest[n] == words[n] && rest[n := words[n]] == words;
  }

  /** The words of a play are all well nested if and only if the play is orderly. */
  lemma NestedExactly(p: Play)
    ensures Orderly(p) <==> forall w :: Produces(p, w) ==> Nested(w)
  {
    if Orderly(p) {
      forall w | Produces(p, w)
        ensures Nested(w)
      {
        OrderlyIsNested(p, w);
      }
    } else {
      DisorderIsBad(p);
    }
  }

  // ---- Instances ----

  /** Where every async action is silent nothing can be out of order. */
  lemma {:induction false} QuietIsOrderly(p: Play)
    requires Quiet(p)
    ensures Orderly(p)
  {
    match p
    case Silence =>
    case Reset =>
    case Then(first, second) =>
      QuietIsOrderly(first);
      QuietIsOrderly(second);
    case Forked(main, buffers) =>
      QuietIsOrderly(main);
      OneSoundingPart(p, 0);
    case _ => QuietIsOrderly(p.inner);
  }

  lemma QuietIsNested(p: Play, w: Word)
    requires Produces(p, w) && Quiet(p)
    ensures Nested(w)
  {
    QuietIsOrderly(p);
    OrderlyIsNested(p, w);
  }

  /** One part that emits brackets beside parts that do not. */
  lemma OneSoundingPart(p: Play, n: nat)
    requires p.Forked? && n < |Parts(p)|
    requires forall i: nat :: i < |Parts(p)| && i != n ==> Opened(Parts(p)[i]) == {}
    ensures Fits(Parts(p))
  {
    forall i, j | 0 <= i < |Parts(p)| && 0 <= j < |Parts(p)| && i != j
      ensures forall o, e :: o in Opened(Parts(p)[i]) && e in Closed(Parts(p)[j]) ==> Closes(o, e)
    {
      if i == n {
        assert Opened(Parts(p)[j]) == {};
      } else {
        assert Opened(Parts(p)[i]) == {};
      }
    }
  }

  /** One run of an action that sends one plain request. */
  function OneRun(a: Action): Play {
    Then(ActionRun(Activity("", a.service, a.action, a.tag), Served(0, Plain, Silence)), Silence)
  }

  /** A run of a task in which of its async actions only two do something. */
  function TwoRuns(t: Task, i: nat, j: nat): (p: Play)
    ensures p.Forked? && |p.buffers| == |A.Expansion(t.actions)|
  {
    var actions := A.Expansion(t.actions);
    Forked(Silence, seq(|actions|, k requires 0 <= k < |actions| => if k == i || k == j then OneRun(actions[k]) else Silence))
  }

  lemma TwoRunsArePlay(scope: Scope, t: Task, i: nat, j: nat)
    requires i < |A.Expansion(t.actions)| && A.Expansion(t.actions)[i].repeat > 0
    requires j < |A.Expansion(t.actions)| && A.Expansion(t.actions)[j].repeat > 0
    ensures OwnPlay(scope, t, TwoRuns(t, i, j))
  {
    var actions, fork := A.Expansion(t.actions), TwoRuns(t, i, j);
    forall k | 0 <= k < |fork.buffers|
      ensures RepeatPlay(scope, actions[k], actions[k].repeat, fork.buffers[k])
    {
      if k == i || k == j {
        OneRunIsPlay(scope, actions[k]);
      }
    }
  }

  /** Any two async runs of one task can get in each other's way. */
  lemma AsyncTaskInterleaves(scope: Scope, t: Task, i: nat, j: nat) returns (p: Play, w: Word)
    requires t.sub.tasks == [] && i < j < |A.Expansion(t.actions)|
    requires A.Expansion(t.actions)[i].repeat > 0 && A.Expansion(t.actions)[j].repeat > 0
    ensures TaskPlay(scope, t, p) && Produces(p, w) && !Nested(w)
  {
    var actions, fork := A.Expansion(t.actions), TwoRuns(t, i, j);
    p := TaskRun(t, fork);
    TwoRunsArePlay(scope, t, i, j);
    assert Parts(fork)[1 + i] == OneRun(actions[i]) && Parts(fork)[1 + j] == OneRun(actions[j]);
    RunsDoNotFit(Parts(fork), 1 + i, 1 + j, actions[i], actions[j]);
    assert !Orderly(fork);
    DisorderIsBad(p);
    w :| Produces(p, w) && !Nested(w);
  }

  lemma RunsDoNotFit(parts: seq<Play>, i: nat, j: nat, a: Action, b: Action)
    requires i < j < |parts| && parts[i] == OneRun(a) && parts[j] == OneRun(b)
    ensures !Fits(parts)
  {
    OneRunOpens(a);
    OneRunOpens(b);
    var o, e := Request(0, Plain), EndOf(ActivityStart(Activity("", b.service, b.action, b.tag)));
    assert o in Opened(parts[i]) && e in Closed(parts[j]) && !Closes(o, e);
  }

  lemma OneRunIsPlay(scope: Scope, a: Action)
    requires a.repeat > 0
    ensures RepeatPlay(scope, a, a.repeat, OneRun(a))
  {
    var run := OneRun(a).first;
    assert SendPlay(scope, run.inner);
    assert RunningPlay(scope, run);
    assert ActionPlay(scope, a, run);
    assert RepeatPlay(scope, a, a.repeat - 1, Silence);
  }

  lemma OneRunOpens(a: Action)
    ensures Opened(OneRun(a)) == {ActivityStart(Activity("", a.service, a.action, a.tag)), Request(0, Plain)}
  {
    var request := Served(0, Plain, Silence);
    assert Opened(request) == {Request(0, Plain)};
  }
}
