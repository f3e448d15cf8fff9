/** Words in which workflows and tasks start and end in balance without closing in order:
    what becomes of well-nested words when concurrent runs interleave them. */
module Levels {
  import opened Base
  import opened Tasks
  import opened Events
  import L = Logger
  import H = Hierarchy

  /** What is counted: workflows, tasks, or brackets of every kind. */
  datatype Layer = WorkflowLayer | TaskLayer | EveryLayer

  predicate Starts(e: Event, layer: Layer) {
    match layer
    case WorkflowLayer => e.WorkflowStart?
    case TaskLayer => e.TaskStart?
    case EveryLayer => Opens(e)
  }

  predicate IsEnd(e: Event) {
    !Opens(e) && !e.ResetError?
  }

  predicate Ends(e: Event, layer: Layer) {
    match layer
    case WorkflowLayer => e.WorkflowEnd?
    case TaskLayer => e.TaskEnd?
    case EveryLayer => IsEnd(e)
  }

  /** How many of a layer are open after `w` when `h` were open before it; None when at some
      point more have ended than were open. */
  function Height(h: nat, w: Word, layer: Layer): Option<nat>
    decreases |w|
  {
    if w == [] then Some(h)
    else if Starts(w[0], layer) then Height(h + 1, w[1..], layer)
    else if !Ends(w[0], layer) then Height(h, w[1..], layer)
    else if h == 0 then None
    else Height(h - 1, w[1..], layer)
  }

  /** Nothing ends that did not start, and whatever started has ended. */
  predicate Level(w: Word) {
    Height(0, w, WorkflowLayer) == Some(0) && Height(0, w, TaskLayer) == Some(0)
  }

  // ---- Heights ----

  lemma {:induction false} HeightAppend(h: nat, v: Word, w: Word, layer: Layer)
    requires Height(h, v, layer).Some?
    ensures Height(h, v + w, layer) == Height(Height(h, v, layer).value, w, layer)
    decreases |v|
  {
    if v == [] {
      assert v + w == w;
    } else {
      assert (v + w)[1..] == v[1..] + w;
      var next := if Starts(v[0], layer) then h + 1 else if Ends(v[0], layer) then h - 1 else h;
      HeightAppend(next, v[1..], w, layer);
    }
  }

  /** What was open before is not touched. */
  lemma {:induction false} HeightShift(h: nat, d: nat, w: Word, layer: Layer)
    requires Height(h, w, layer).Some?
    ensures Height(h + d, w, layer) == Some(Height(h, w, layer).value + d)
    decreases |w|
  {
    if w != [] {
      var next := if Starts(w[0], layer) then h + 1 else if Ends(w[0], layer) then h - 1 else h;
      HeightShift(next, d, w[1..], layer);
    }
  }

  lemma LevelConcat(v: Word, w: Word)
    requires Level(v) && Level(w)
    ensures Level(v + w)
  {
    HeightAppend(0, v, w, WorkflowLayer);
    HeightAppend(0, v, w, TaskLayer);
  }

  /** A start event and its end event around a level word. */
  lemma LevelBracket(o: Event, w: Word, c: Event)
    requires Opens(o) && !Opens(c) && Closes(o, c) && Level(w)
    ensures Level([o] + w + [c])
  {
    BracketHeight(o, w, c, WorkflowLayer);
    BracketHeight(o, w, c, TaskLayer);
  }

  lemma BracketHeight(o: Event, w: Word, c: Event, layer: Layer)
    requires Opens(o) && !Opens(c) && Closes(o, c) && Height(0, w, layer) == Some(0)
    ensures Height(0, [o] + w + [c], layer) == Some(0)
  {
    var d := if Starts(o, layer) then 1 else 0;
    assert [o][1..] == [] && [c][1..] == [];
    assert Height(0, [o], layer) == Height(d, [], layer);
    assert Height(d, [c], layer) == Height(0, [], layer);
    HeightShift(0, d, w, layer);
    HeightAppend(0, [o], w, layer);
    HeightAppend(0, [o] + w, [c], layer);
  }

  // ---- Nested words are level ----

  function Count(open: Word, layer: Layer): nat {
    if open == [] then 0
    else (if Starts(open[|open| - 1], layer) then 1 else 0) + Count(open[..|open| - 1], layer)
  }

  lemma {:induction false} ScanHeight(open: Word, w: Word, layer: Layer)
    requires Scan(open, w).Some?
    ensures Height(Count(open, layer), w, layer) == Some(Count(Scan(open, w).value, layer))
    decreases |w|
  {
    if w != [] {
      var e := w[0];
      var next := if Opens(e) then open + [e] else if e.ResetError? then open else open[..|open| - 1];
      assert (open + [e])[..|open|] == open;
      ScanHeight(next, w[1..], layer);
    }
  }

  lemma NestedIsLevel(w: Word)
    requires Nested(w)
    ensures Level(w)
  {
    ScanHeight([], w, WorkflowLayer);
    ScanHeight([], w, TaskLayer);
  }

  // ---- Interleaving ----

  ghost predicate TakesFrom(words: seq<Word>, e: Event, i: nat) {
    i < |words| && words[i] != [] && words[i][0] == e
  }

  /** Is `w` an interleaving of the words, each read from front to back? */
  ghost predicate IsShuffle(words: seq<Word>, w: Word)
    decreases |w|
  {
    if w == [] then forall i :: 0 <= i < |words| ==> words[i] == []
    else exists i: nat :: TakesFrom(words, w[0], i) && IsShuffle(words[i := words[i][1..]], w[1..])
  }

  function Sum(hs: seq<nat>): nat {
    if hs == [] then 0 else hs[0] + Sum(hs[1..])
  }

  lemma {:induction false} SumUpdate(hs: seq<nat>, i: nat, h: nat)
    requires i < |hs|
    ensures Sum(hs[i := h]) + hs[i] == Sum(hs) + h
    ensures Sum(hs) >= hs[i]
  {
    if i == 0 {
      assert hs[0 := h][1..] == hs[1..];
    } else {
      assert hs[i := h][1..] == hs[1..][i - 1 := h];
      SumUpdate(hs[1..], i - 1, h);
    }
  }

  lemma {:induction false} SumZero(hs: seq<nat>)
    requires forall i :: 0 <= i < |hs| ==> hs[i] == 0
    ensures Sum(hs) == 0
  {
    if hs != [] {
      SumZero(hs[1..]);
    }
  }

  /** Each word has its own open workflows and tasks; an interleaving has them all. */
  lemma {:induction false} ShuffleHeight(words: seq<Word>, hs: seq<nat>, w: Word, layer: Layer)
    requires IsShuffle(words, w) && |hs| == |words|
    requires forall i :: 0 <= i < |words| ==> Height(hs[i], words[i], layer) == Some(0)
    ensures Height(Sum(hs), w, layer) == Some(0)
    decreases |w|
  {
    if w == [] {
      assert forall i :: 0 <= i < |words| ==> Height(hs[i], [], layer) == Some(0);
      SumZero(hs);
    } else {
      var e := w[0];
      var i: nat :| TakesFrom(words, e, i) && IsShuffle(words[i := words[i][1..]], w[1..]);
      var h := hs[i];
      var next: nat := if Starts(e, layer) then h + 1 else if Ends(e, layer) then h - 1 else h;
      SumUpdate(hs, i, next);
      assert Height(next, words[i][1..], layer) == Some(0);
      ShuffleHeight(words[i := words[i][1..]], hs[i := next], w[1..], layer);
    }
  }

  lemma ShuffleIsLevel(words: seq<Word>, w: Word)
    requires IsShuffle(words, w)
    requires forall i :: 0 <= i < |words| ==> Level(words[i])
    ensures Level(w)
  {
    var hs: seq<nat> := seq(|words|, i => 0);
    SumZero(hs);
    ShuffleHeight(words, hs, w, WorkflowLayer);
    ShuffleHeight(words, hs, w, TaskLayer);
  }

  /** One word and silence elsewhere have one interleaving. */
  lemma {:induction false} ShuffleAlone(words: seq<Word>, w: Word)
    requires words != [] && forall i :: 1 <= i < |words| ==> words[i] == []
    ensures IsShuffle(words, w) <==> words[0] == w
    decreases |w|
  {
    if w != [] {
      if words[0] != [] {
        var next := words[0 := words[0][1..]];
        ShuffleAlone(next, w[1..]);
        if words[0] == w {
          assert TakesFrom(words, w[0], 0);
        }
      }
      if IsShuffle(words, w) {
        var i: nat :| TakesFrom(words, w[0], i) && IsShuffle(words[i := words[i][1..]], w[1..]);
        assert i == 0;
        assert words[0] == [w[0]] + words[0][1..];
      }
    }
  }

  // ---- The logger's stacks over level words ----

  /** The stacks still have all of `base` at their bottom. */
  predicate Above(base: L.Stacks, s: L.Stacks) {
    base.workflows <= s.workflows && base.tasks <= s.tasks && base.tags <= s.tags
  }

  /** The stacks have `base` at their bottom and so much more on top. */
  predicate Holds(base: L.Stacks, s: L.Stacks, workflows: nat, tasks: nat) {
    && Above(base, s)
    && |s.workflows| == |base.workflows| + workflows
    && |s.tasks| == |base.tasks| + tasks && |s.tags| == |base.tags| + tasks
  }

  lemma {:induction false} FeedHolds(base: L.Stacks, s: L.Stacks, h: nat, g: nat, w: Word)
    requires Holds(base, s, h, g) && Height(h, w, WorkflowLayer).Some? && Height(g, w, TaskLayer).Some?
    ensures Holds(base, H.Feed(s, w), Height(h, w, WorkflowLayer).value, Height(g, w, TaskLayer).value)
    decreases |w|
  {
    if w != [] {
      var e := w[0];
      var h' := if Starts(e, WorkflowLayer) then h + 1 else if Ends(e, WorkflowLayer) then h - 1 else h;
      var g' := if Starts(e, TaskLayer) then g + 1 else if Ends(e, TaskLayer) then g - 1 else g;
      FeedHolds(base, L.Move(s, e), h', g', w[1..]);
    }
  }

  lemma {:induction false} HeightPrefix(h: nat, w: Word, k: nat, layer: Layer)
    requires Height(h, w, layer).Some? && k <= |w|
    ensures Height(h, w[..k], layer).Some?
    decreases |w|
  {
    if k > 0 {
      var next := if Starts(w[0], layer) then h + 1 else if Ends(w[0], layer) then h - 1 else h;
      assert w[..k][1..] == w[1..][..k - 1];
      HeightPrefix(next, w[1..], k - 1, layer);
    }
  }

  /** While a level word is read the stacks keep what they held, and after it they hold
      nothing else. */
  lemma LevelIsSafe(base: L.Stacks, w: Word)
    requires Level(w)
    ensures H.Feed(base, w) == base
    ensures forall k :: 0 <= k <= |w| ==> Above(base, H.Feed(base, w[..k]))
  {
    FeedHolds(base, base, 0, 0, w);
    forall k | 0 <= k <= |w|
      ensures Above(base, H.Feed(base, w[..k]))
    {
      HeightPrefix(0, w, k, WorkflowLayer);
      HeightPrefix(0, w, k, TaskLayer);
      FeedHolds(base, base, 0, 0, w[..k]);
    }
  }

  /** So it is for every interleaving of level words. */
  lemma InterleavingIsSafe(base: L.Stacks, words: seq<Word>, w: Word)
    requires IsShuffle(words, w)
    requires forall i :: 0 <= i < |words| ==> Level(words[i])
    ensures H.Feed(base, w) == base
    ensures forall k :: 0 <= k <= |w| ==> Above(base, H.Feed(base, w[..k]))
  {
    ShuffleIsLevel(words, w);
    LevelIsSafe(base, w);
  }
}
