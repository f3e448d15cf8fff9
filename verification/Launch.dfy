/** How a task launches its async actions and waits for them: the goroutines as a state
    machine, whose runs publish exactly the words of a fork.

    Each async action runs on a clone of the context whose listener keeps its events; when
    it returns, for whatever reason, it replays them into the context of the task and then
    leaves the wait group.  The task goes on with its own actions meanwhile, and ends when
    the group is empty. */
module Launch {
  import opened Base
  import opened Events
  import opened Levels
  import opened Nesting
  import opened Plays

  // ---- States and steps ----

  /** `left` is what an action still has to emit or to replay, `held` what its listener keeps. */
  datatype Phase =
    | Ready
    | Running(left: Word, held: Word)
    | Replaying(left: Word)
    | Done

  /** `launched` counts the goroutines started, `group` is the counter of the wait group, `main`
      what the task's own actions still have to emit. */
  datatype Shop = Shop(phases: seq<Phase>, launched: nat, group: int, main: Word, published: Word, ended: bool)

  /** The words that the actions emit when they run. */
  function Start(main: Word, words: seq<Word>): Shop {
    Shop(seq(|words|, i => Ready), 0, |words|, main, [], false)
  }

  ghost predicate Spawn(words: seq<Word>, s: Shop, t: Shop) {
    && s.launched < |s.phases| == |words| && !s.ended
    && t == s.(phases := s.phases[s.launched := Running(words[s.launched], [])], launched := s.launched + 1)
  }

  /** The task's own actions begin when all goroutines have been started. */
  ghost predicate Act(s: Shop, t: Shop) {
    && s.launched == |s.phases| && s.main != [] && !s.ended
    && t == s.(main := s.main[1..], published := s.published + [s.main[0]])
  }

  ghost predicate Keep(s: Shop, t: Shop, i: nat) {
    && i < |s.phases| && s.phases[i].Running? && s.phases[i].left != []
    && t == s.(phases := s.phases[i := Running(s.phases[i].left[1..], s.phases[i].held + [s.phases[i].left[0]])])
  }

  ghost predicate Return(s: Shop, t: Shop, i: nat) {
    && i < |s.phases| && s.phases[i].Running? && s.phases[i].left == []
    && t == s.(phases := s.phases[i := Replaying(s.phases[i].held)])
  }

  ghost predicate Replay(s: Shop, t: Shop, i: nat) {
    && i < |s.phases| && s.phases[i].Replaying? && s.phases[i].left != []
    && t == s.(phases := s.phases[i := Replaying(s.phases[i].left[1..])],
               published := s.published + [s.phases[i].left[0]])
  }

  ghost predicate Leave(s: Shop, t: Shop, i: nat) {
    && i < |s.phases| && s.phases[i].Replaying? && s.phases[i].left == []
    && t == s.(phases := s.phases[i := Done], group := s.group - 1)
  }

  /** The wait is over when the counter is zero. */
  ghost predicate End(s: Shop, t: Shop) {
    s.launched == |s.phases| && s.main == [] && s.group == 0 && !s.ended && t == s.(ended := true)
  }

  ghost predicate AsyncStep(s: Shop, t: Shop, i: nat) {
    Keep(s, t, i) || Return(s, t, i) || Replay(s, t, i) || Leave(s, t, i)
  }

  ghost predicate Step(words: seq<Word>, s: Shop, t: Shop) {
    Spawn(words, s, t) || Act(s, t) || End(s, t) || exists i: nat :: AsyncStep(s, t, i)
  }

  ghost predicate IsRun(words: seq<Word>, ss: seq<Shop>) {
    && |ss| > 0
    && (|ss| > 1 ==> IsRun(words, ss[..|ss| - 1]) && Step(words, ss[|ss| - 2], ss[|ss| - 1]))
  }

  ghost predicate CanStep(words: seq<Word>, s: Shop) {
    exists t :: Step(words, s, t)
  }

  // ---- The invariant ----

  /** What a goroutine has still to publish of the word it emits. */
  function Rest(word: Word, p: Phase): Word {
    match p
    case Ready => word
    case Running(left, held) => held + left
    case Replaying(left) => left
    case Done => []
  }

  /** What a sequence of the fork has still to publish: the main one is number 0. */
  function Remaining(words: seq<Word>, s: Shop, n: nat): Word
    requires n <= |words| == |s.phases|
  {
    if n == 0 then s.main else Rest(words[n - 1], s.phases[n - 1])
  }

  function Unfinished(phases: seq<Phase>): nat {
    if phases == [] then 0 else (if phases[0].Done? then 0 else 1) + Unfinished(phases[1..])
  }

  /** `parts` is what each sequence has published; nothing is lost, duplicated or reordered. */
  ghost predicate Inv(main: Word, words: seq<Word>, s: Shop, parts: seq<Word>) {
    && |s.phases| == |words| && |parts| == 1 + |words| && s.launched <= |words|
    && (forall i :: s.launched <= i < |words| ==> s.phases[i].Ready?)
    && (forall i :: 0 <= i < s.launched ==> !s.phases[i].Ready?)
    && IsShuffle(parts, s.published)
    && (forall n :: 0 <= n < |parts| ==> parts[n] + Remaining(words, s, n) == ([main] + words)[n])
    && s.group == Unfinished(s.phases)
    && (s.ended ==> s.main == [] && s.group == 0 && s.launched == |words|)
  }

  lemma {:induction false} UnfinishedUpdate(phases: seq<Phase>, i: nat, p: Phase)
    requires i < |phases|
    ensures Unfinished(phases[i := p]) + (if phases[i].Done? then 0 else 1)
         == Unfinished(phases) + (if p.Done? then 0 else 1)
  {
    if i == 0 {
      assert phases[0 := p][1..] == phases[1..];
    } else {
      assert phases[i := p][1..] == phases[1..][i - 1 := p];
      UnfinishedUpdate(phases[1..], i - 1, p);
    }
  }

  lemma {:induction false} AllDone(phases: seq<Phase>)
    ensures Unfinished(phases) == 0 <==> forall i :: 0 <= i < |phases| ==> phases[i].Done?
  {
    if phases != [] {
      AllDone(phases[1..]);
      assert phases == [phases[0]] + phases[1..];
    }
  }

  /** An event published at the end. */
  lemma {:induction false} ShuffleLast(words: seq<Word>, w: Word, i: nat, x: Event)
    requires IsShuffle(words, w) && i < |words|
    ensures IsShuffle(words[i := words[i] + [x]], w + [x])
    decreases |w|
  {
    var more, v := words[i := words[i] + [x]], w + [x];
    if w == [] {
      assert words[i] + [x] == [x] && v == [x];
      assert TakesFrom(more, v[0], i) && more[i := more[i][1..]] == words && v[1..] == [];
    } else {
      var k: nat :| TakesFrom(words, w[0], k) && IsShuffle(words[k := words[k][1..]], w[1..]);
      var rest := words[k := words[k][1..]];
      ShuffleLast(rest, w[1..], i, x);
      assert v[1..] == w[1..] + [x] && TakesFrom(more, v[0], k);
      assert (words[k] + [x])[1..] == words[k][1..] + [x];
      assert more[k := more[k][1..]] == rest[i := rest[i] + [x]];
    }
  }

  /** A step of a goroutine that publishes nothing and leaves what remains as it was. */
  lemma QuietKeepsInv(main: Word, words: seq<Word>, s: Shop, t: Shop, i: nat, p: Phase, parts: seq<Word>)
    requires Inv(main, words, s, parts) && i < |words|
    requires !s.phases[i].Done? && !s.phases[i].Ready? && !p.Ready? && Rest(words[i], p) == Rest(words[i], s.phases[i])
    requires t == s.(phases := s.phases[i := p], group := s.group - if p.Done? then 1 else 0)
    ensures Inv(main, words, t, parts)
  {
    UnfinishedUpdate(s.phases, i, p);
    AllDone(s.phases);
    assert forall n :: 0 <= n < |parts| ==> Remaining(words, t, n) == Remaining(words, s, n);
  }

  lemma QuietStepKeepsInv(main: Word, words: seq<Word>, s: Shop, t: Shop, i: nat, parts: seq<Word>)
    requires Inv(main, words, s, parts)
    requires Keep(s, t, i) || Return(s, t, i) || Leave(s, t, i)
    ensures Inv(main, words, t, parts)
  {
    var p := s.phases[i];
    if Keep(s, t, i) {
      assert p.held + [p.left[0]] + p.left[1..] == p.held + p.left;
    } else if Return(s, t, i) {
      assert p.held + [] == p.held;
    }
    QuietKeepsInv(main, words, s, t, i, t.phases[i], parts);
  }

  lemma SpawnKeepsInv(main: Word, words: seq<Word>, s: Shop, t: Shop, parts: seq<Word>)
    requires Inv(main, words, s, parts) && Spawn(words, s, t)
    ensures Inv(main, words, t, parts)
  {
    UnfinishedUpdate(s.phases, s.launched, t.phases[s.launched]);
    forall n | 0 <= n < |parts|
      ensures Remaining(words, t, n) == Remaining(words, s, n)
    {
      if n == 1 + s.launched {
        assert [] + words[n - 1] == words[n - 1];
      }
    }
  }

  lemma ActKeepsInv(main: Word, words: seq<Word>, s: Shop, t: Shop, parts: seq<Word>) returns (next: seq<Word>)
    requires Inv(main, words, s, parts) && Act(s, t)
    ensures Inv(main, words, t, next)
  {
    var x := s.main[0];
    next := parts[0 := parts[0] + [x]];
    ShuffleLast(parts, s.published, 0, x);
    assert parts[0] + [x] + s.main[1..] == parts[0] + s.main;
    forall n | 0 <= n < |next|
      ensures next[n] + Remaining(words, t, n) == ([main] + words)[n]
    {
      if n > 0 {
        assert Remaining(words, t, n) == Remaining(words, s, n);
      }
    }
  }

  lemma ReplayKeepsInv(main: Word, words: seq<Word>, s: Shop, t: Shop, i: nat, parts: seq<Word>)
      returns (next: seq<Word>)
    requires Inv(main, words, s, parts) && Replay(s, t, i)
    ensures Inv(main, words, t, next)
  {
    var left := s.phases[i].left;
    next := parts[1 + i := parts[1 + i] + [left[0]]];
    UnfinishedUpdate(s.phases, i, t.phases[i]);
    ShuffleLast(parts, s.published, 1 + i, left[0]);
    assert parts[1 + i] + [left[0]] + left[1..] == parts[1 + i] + left;
    forall n | 0 <= n < |next|
      ensures next[n] + Remaining(words, t, n) == ([main] + words)[n]
    {
      if n != 1 + i {
        assert Remaining(words, t, n) == Remaining(words, s, n);
      }
    }
  }

  lemma StepKeepsInv(main: Word, words: seq<Word>, s: Shop, t: Shop, parts: seq<Word>) returns (next: seq<Word>)
    requires Inv(main, words, s, parts) && Step(words, s, t)
    ensures Inv(main, words, t, next)
  {
    next := parts;
    if Spawn(words, s, t) {
      SpawnKeepsInv(main, words, s, t, parts);
    } else if Act(s, t) {
      next := ActKeepsInv(main, words, s, t, parts);
    } else if End(s, t) {
      assert forall n :: 0 <= n < |parts| ==> Remaining(words, t, n) == Remaining(words, s, n);
    } else {
      var i: nat :| AsyncStep(s, t, i);
      if Replay(s, t, i) {
        next := ReplayKeepsInv(main, words, s, t, i, parts);
      } else {
        QuietStepKeepsInv(main, words, s, t, i, parts);
      }
    }
  }

  function Silent(n: nat): (words: seq<Word>)
    ensures |words| == n && forall i :: 0 <= i < n ==> words[i] == []
  {
    seq(n, i => [])
  }

  lemma {:induction false} ReadyIsUnfinished(phases: seq<Phase>)
    requires forall i :: 0 <= i < |phases| ==> phases[i].Ready?
    ensures Unfinished(phases) == |phases|
  {
    if phases != [] {
      ReadyIsUnfinished(phases[1..]);
    }
  }

  lemma StartHasInv(main: Word, words: seq<Word>)
    ensures Inv(main, words, Start(main, words), Silent(1 + |words|))
  {
    var s, parts := Start(main, words), Silent(1 + |words|);
    ReadyIsUnfinished(s.phases);
    forall n | 0 <= n < |parts|
      ensures parts[n] + Remaining(words, s, n) == ([main] + words)[n]
    {
      assert [] + Remaining(words, s, n) == Remaining(words, s, n);
    }
  }

  lemma {:induction false} RunKeepsInv(main: Word, words: seq<Word>, ss: seq<Shop>) returns (parts: seq<Word>)
    requires IsRun(words, ss) && ss[0] == Start(main, words)
    ensures Inv(main, words, ss[|ss| - 1], parts)
    decreases |ss|
  {
    if |ss| == 1 {
      parts := Silent(1 + |words|);
      StartHasInv(main, words);
    } else {
      var mid := RunKeepsInv(main, words, ss[..|ss| - 1]);
      parts := StepKeepsInv(main, words, ss[|ss| - 2], ss[|ss| - 1], mid);
    }
  }

  /** When the task ends, every event of every action has been published, in an interleaving
      of its own actions and the async ones. */
  lemma EndedIsShuffle(main: Word, words: seq<Word>, ss: seq<Shop>)
    requires IsRun(words, ss) && ss[0] == Start(main, words) && ss[|ss| - 1].ended
    ensures IsShuffle([main] + words, ss[|ss| - 1].published)
  {
    var s := ss[|ss| - 1];
    var parts := RunKeepsInv(main, words, ss);
    AllDone(s.phases);
    forall n | 0 <= n < |parts|
      ensures parts[n] == ([main] + words)[n]
    {
      assert Remaining(words, s, n) == [] && parts[n] + [] == parts[n];
    }
    assert parts == [main] + words;
  }

  // ---- The wait is not in vain ----

  /** The steps left at most. */
  function Work(words: seq<Word>, phases: seq<Phase>): nat
    requires |words| == |phases|
  {
    if phases == [] then 0
    else
      (match phases[0]
       case Ready => 2 * |words[0]| + 3
       case Running(left, held) => 2 * |left| + |held| + 2
       case Replaying(left) => |left| + 1
       case Done => 0)
      + Work(words[1..], phases[1..])
  }

  function Measure(words: seq<Word>, s: Shop): nat
    requires |words| == |s.phases|
  {
    Work(words, s.phases) + |s.main| + if s.ended then 0 else 1
  }

  lemma {:induction false} WorkUpdate(words: seq<Word>, phases: seq<Phase>, i: nat, p: Phase)
    requires |words| == |phases| && i < |phases|
    ensures Work(words, phases[i := p]) + Work([words[i]], [phases[i]])
         == Work(words, phases) + Work([words[i]], [p])
  {
    assert [words[i]][1..] == [] && [phases[i]][1..] == [] && [p][1..] == [];
    if i == 0 {
      assert phases[0 := p][1..] == phases[1..];
    } else {
      assert phases[i := p][1..] == phases[1..][i - 1 := p];
      WorkUpdate(words[1..], phases[1..], i - 1, p);
    }
  }

  lemma StepDecreases(words: seq<Word>, s: Shop, t: Shop)
    requires |words| == |s.phases| && Step(words, s, t)
    requires s.launched < |s.phases| ==> s.phases[s.launched].Ready?
    ensures |t.phases| == |words| && Measure(words, t) < Measure(words, s)
  {
    if Spawn(words, s, t) {
      WorkUpdate(words, s.phases, s.launched, t.phases[s.launched]);
    } else if i: nat :| AsyncStep(s, t, i) {
      AsyncDecreases(words, s, t, i);
    }
  }

  lemma AsyncDecreases(words: seq<Word>, s: Shop, t: Shop, i: nat)
    requires |words| == |s.phases| && AsyncStep(s, t, i)
    ensures |t.phases| == |words| && Measure(words, t) < Measure(words, s)
  {
    WorkUpdate(words, s.phases, i, t.phases[i]);
  }

  /** Until the task has ended some step can be made: the wait never blocks for good. */
  lemma SomeStep(main: Word, words: seq<Word>, s: Shop, parts: seq<Word>) returns (t: Shop)
    requires Inv(main, words, s, parts) && !s.ended
    ensures Step(words, s, t)
  {
    if s.launched < |words| {
      t := s.(phases := s.phases[s.launched := Running(words[s.launched], [])], launched := s.launched + 1);
      assert Spawn(words, s, t);
    } else if s.main != [] {
      t := s.(main := s.main[1..], published := s.published + [s.main[0]]);
      assert Act(s, t);
    } else {
      AllDone(s.phases);
      if i: nat :| i < |s.phases| && !s.phases[i].Done? {
        t := NextOf(s, i);
        assert AsyncStep(s, t, i);
      } else {
        t := s.(ended := true);
        assert End(s, t);
      }
    }
  }

  /** The next step of a goroutine. */
  lemma NextOf(s: Shop, i: nat) returns (t: Shop)
    requires i < |s.phases| && (s.phases[i].Running? || s.phases[i].Replaying?)
    ensures AsyncStep(s, t, i)
  {
    var p := s.phases[i];
    if p.Running? && p.left != [] {
      t := s.(phases := s.phases[i := Running(p.left[1..], p.held + [p.left[0]])]);
    } else if p.Running? {
      t := s.(phases := s.phases[i := Replaying(p.held)]);
    } else if p.left != [] {
      t := s.(phases := s.phases[i := Replaying(p.left[1..])], published := s.published + [p.left[0]]);
    } else {
      t := s.(phases := s.phases[i := Done], group := s.group - 1);
    }
  }

  /** Every run is finite, and goes on until the task has ended. */
  lemma {:induction false} RunsEnd(main: Word, words: seq<Word>, ss: seq<Shop>)
    requires IsRun(words, ss) && ss[0] == Start(main, words)
    ensures |ss[|ss| - 1].phases| == |words|
    ensures |ss| + Measure(words, ss[|ss| - 1]) <= 1 + Measure(words, Start(main, words))
    ensures ss[|ss| - 1].ended <==> !CanStep(words, ss[|ss| - 1])
    decreases |ss|
  {
    var s := ss[|ss| - 1];
    var parts := RunKeepsInv(main, words, ss);
    if |ss| > 1 {
      RunsEnd(main, words, ss[..|ss| - 1]);
      var mid := RunKeepsInv(main, words, ss[..|ss| - 1]);
      StepDecreases(words, ss[|ss| - 2], s);
    }
    if !s.ended {
      var t := SomeStep(main, words, s, parts);
    } else {
      EndedIsFinal(main, words, s, parts);
    }
  }

  lemma EndedIsFinal(main: Word, words: seq<Word>, s: Shop, parts: seq<Word>)
    requires Inv(main, words, s, parts) && s.ended
    ensures !CanStep(words, s)
  {
    AllDone(s.phases);
  }

  // ---- Every word of the fork can be published ----

  function Last(ss: seq<Shop>): Shop
    requires |ss| > 0
  {
    ss[|ss| - 1]
  }

  lemma Extend(words: seq<Word>, ss: seq<Shop>, t: Shop)
    requires IsRun(words, ss) && Step(words, Last(ss), t)
    ensures IsRun(words, ss + [t]) && Last(ss + [t]) == t && (ss + [t])[0] == ss[0]
  {
    assert (ss + [t])[..|ss|] == ss;
  }

  /** A goroutine runs to its end. */
  lemma {:induction false} RunOne(words: seq<Word>, ss: seq<Shop>, i: nat, left: Word, held: Word) returns (tt: seq<Shop>)
    requires IsRun(words, ss) && i < |Last(ss).phases| && Last(ss).phases[i] == Running(left, held)
    ensures IsRun(words, tt) && tt[0] == ss[0]
    ensures Last(tt) == Last(ss).(phases := Last(ss).phases[i := Replaying(held + left)])
    decreases |left|
  {
    var s := Last(ss);
    if left == [] {
      var t := s.(phases := s.phases[i := Replaying(held)]);
      assert AsyncStep(s, t, i) && held + [] == held;
      Extend(words, ss, t);
      tt := ss + [t];
    } else {
      var t := s.(phases := s.phases[i := Running(left[1..], held + [left[0]])]);
      assert AsyncStep(s, t, i);
      Extend(words, ss, t);
      tt := RunOne(words, ss + [t], i, left[1..], held + [left[0]]);
      assert held + [left[0]] + left[1..] == held + left;
      assert t.phases[i := Replaying(held + left)] == s.phases[i := Replaying(held + left)];
    }
  }

  /** The first k goroutines have run, the others have not been started. */
  ghost predicate Filled(main: Word, words: seq<Word>, s: Shop, k: nat) {
    && |s.phases| == |words| && s.launched == k <= |words|
    && s.group == |words| && s.main == main && s.published == [] && !s.ended
    && (forall i :: 0 <= i < k ==> s.phases[i] == Replaying(words[i]))
    && (forall i :: k <= i < |words| ==> s.phases[i].Ready?)
  }

  lemma {:induction false} FillAll(main: Word, words: seq<Word>, k: nat) returns (ss: seq<Shop>)
    requires k <= |words|
    ensures IsRun(words, ss) && ss[0] == Start(main, words) && Filled(main, words, Last(ss), k)
  {
    if k == 0 {
      ss := [Start(main, words)];
    } else {
      ss := FillAll(main, words, k - 1);
      var s := Last(ss);
      var t := s.(phases := s.phases[k - 1 := Running(words[k - 1], [])], launched := k);
      assert Spawn(words, s, t);
      Extend(words, ss, t);
      assert [] + words[k - 1] == words[k - 1];
      ss := RunOne(words, ss + [t], k - 1, words[k - 1], []);
    }
  }

  /** Every goroutine holds what is left of its sequence, and so do the task's own actions. */
  ghost predicate Holding(s: Shop, rest: seq<Word>) {
    && |rest| == 1 + |s.phases| && s.launched == |s.phases| && !s.ended && s.main == rest[0]
    && forall i :: 0 <= i < |s.phases| ==> s.phases[i] == Replaying(rest[1 + i])
  }

  lemma {:induction false} Follow(words: seq<Word>, ss: seq<Shop>, rest: seq<Word>, w: Word) returns (tt: seq<Shop>)
    requires IsRun(words, ss) && Holding(Last(ss), rest) && IsShuffle(rest, w)
    ensures IsRun(words, tt) && tt[0] == ss[0]
    ensures Holding(Last(tt), Silent(|rest|)) && Last(tt).group == Last(ss).group
    ensures Last(tt).published == Last(ss).published + w && |Last(tt).phases| == |Last(ss).phases|
    decreases |w|
  {
    if w == [] {
      tt := ss;
    } else {
      var i: nat :| TakesFrom(rest, w[0], i) && IsShuffle(rest[i := rest[i][1..]], w[1..]);
      var s := Last(ss);
      var t := FollowOne(words, s, rest, i, w[0]);
      Extend(words, ss, t);
      tt := Follow(words, ss + [t], rest[i := rest[i][1..]], w[1..]);
      assert s.published + [w[0]] + w[1..] == s.published + w;
    }
  }

  lemma FollowOne(words: seq<Word>, s: Shop, rest: seq<Word>, i: nat, x: Event) returns (t: Shop)
    requires Holding(s, rest) && TakesFrom(rest, x, i)
    ensures Step(words, s, t) && Holding(t, rest[i := rest[i][1..]])
    ensures t.published == s.published + [x] && t.group == s.group && |t.phases| == |s.phases|
  {
    t := s.(published := s.published + [x]);
    if i == 0 {
      t := t.(main := s.main[1..]);
      assert Act(s, t);
    } else {
      t := t.(phases := s.phases[i - 1 := Replaying(rest[i][1..])]);
      assert AsyncStep(s, t, i - 1);
    }
  }

  /** The first k goroutines have left the group, the others have nothing left to replay. */
  ghost predicate Emptied(s: Shop, k: nat) {
    && k <= |s.phases| == s.launched && s.main == [] && !s.ended && s.group == |s.phases| - k
    && (forall i :: 0 <= i < k ==> s.phases[i].Done?)
    && (forall i :: k <= i < |s.phases| ==> s.phases[i] == Replaying([]))
  }

  lemma {:induction false} LeaveAll(words: seq<Word>, ss: seq<Shop>, k: nat) returns (tt: seq<Shop>)
    requires IsRun(words, ss) && Emptied(Last(ss), k)
    ensures IsRun(words, tt) && tt[0] == ss[0] && Last(tt).ended && Last(tt).published == Last(ss).published
    decreases |Last(ss).phases| - k
  {
    var s := Last(ss);
    if k == |s.phases| {
      var t := s.(ended := true);
      assert End(s, t);
      Extend(words, ss, t);
      tt := ss + [t];
    } else {
      var t := s.(phases := s.phases[k := Done], group := s.group - 1);
      assert Leave(s, t, k);
      assert AsyncStep(s, t, k);
      Extend(words, ss, t);
      tt := LeaveAll(words, ss + [t], k + 1);
    }
  }

  /** Every interleaving of the task's own events and the async ones is what some run publishes. */
  lemma EveryShuffleIsPublished(main: Word, words: seq<Word>, w: Word) returns (ss: seq<Shop>)
    requires IsShuffle([main] + words, w)
    ensures IsRun(words, ss) && ss[0] == Start(main, words) && Last(ss).ended && Last(ss).published == w
  {
    ss := FillAll(main, words, |words|);
    assert Holding(Last(ss), [main] + words);
    ss := Follow(words, ss, [main] + words, w);
    assert [] + w == w;
    assert Emptied(Last(ss), 0);
    ss := LeaveAll(words, ss, 0);
  }

  /** Some run to the end, of goroutines that emit words of the parts, publishes `w`. */
  ghost predicate Publishes(p: Play, w: Word)
    requires p.Forked?
  {
    exists main: Word, words: seq<Word>, ss: seq<Shop> ::
      Parallel(p, [main] + words) && IsRun(words, ss) && IsEnded(main, words, ss, w)
  }

  predicate IsEnded(main: Word, words: seq<Word>, ss: seq<Shop>, w: Word) {
    |ss| > 0 && ss[0] == Start(main, words) && Last(ss).ended && Last(ss).published == w
  }

  /** A fork has exactly the words that its goroutines can publish. */
  lemma ForkIsExact(p: Play, w: Word)
    requires p.Forked?
    ensures Produces(p, w) <==> Publishes(p, w)
  {
    if Produces(p, w) {
      var all: seq<Word> :| IsShuffle(all, w) && Parallel(p, all);
      assert [all[0]] + all[1..] == all;
      var ss := EveryShuffleIsPublished(all[0], all[1..], w);
      assert IsEnded(all[0], all[1..], ss, w);
    }
    if Publishes(p, w) {
      var main: Word, words: seq<Word>, ss: seq<Shop> :|
        Parallel(p, [main] + words) && IsRun(words, ss) && IsEnded(main, words, ss, w);
      EndedIsShuffle(main, words, ss);
    }
  }
}
