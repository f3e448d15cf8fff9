/** Which runs of async actions a task launches. */
module Async {
  import opened Tasks

  // ---- Expansion ----

  function Runs(actions: seq<Action>): nat {
    if actions == [] then 0
    else (if actions[0].repeat > 0 then actions[0].repeat else 0) + Runs(actions[1..])
  }

  function OnlyAsync(actions: seq<Action>): seq<Action> {
    if actions == [] then []
    else (if actions[0].async then [actions[0]] else []) + OnlyAsync(actions[1..])
  }

  function Copies(a: Action, n: nat): seq<Action> {
    seq(n, i => a)
  }

  function Expanded(a: Action): seq<Action> {
    if !a.async then [] else if a.repeat > 1 then Copies(a.(repeat := 1), a.repeat) else [a]
  }

  function Expansion(actions: seq<Action>): seq<Action> {
    if actions == [] then [] else Expanded(actions[0]) + Expansion(actions[1..])
  }

  lemma {:induction false} ExpansionAppend(v: seq<Action>, w: seq<Action>)
    ensures Expansion(v + w) == Expansion(v) + Expansion(w)
  {
    if v == [] {
      assert v + w == w;
    } else {
      assert (v + w)[1..] == v[1..] + w;
      ExpansionAppend(v[1..], w);
    }
  }

  lemma ExpansionStep(actions: seq<Action>, i: nat)
    requires i < |actions|
    ensures Expansion(actions[..i + 1]) == Expansion(actions[..i]) + Expanded(actions[i])
  {
    assert actions[..i + 1] == actions[..i] + [actions[i]];
    ExpansionAppend(actions[..i], [actions[i]]);
    assert [actions[i]][1..] == [];
  }

  method AsyncActions(actions: seq<Action>) returns (result: seq<Action>)
    ensures result == Expansion(actions)
  {
    result := [];
    for i := 0 to |actions|
      invariant result == Expansion(actions[..i])
    {
      var candidate := actions[i];
      ghost var before := result;
      if candidate.async {
        if candidate.repeat > 1 {
          var action := candidate.(repeat := 1);
          for j := 0 to candidate.repeat
            invariant result == before + Copies(action, j)
          {
            result := result + [action];
          }
        } else {
          result := result + [candidate];
        }
      }
      assert result == before + Expanded(candidate);
      ExpansionStep(actions, i);
    }
    assert actions[..|actions|] == actions;
  }

  lemma {:induction false} CopiesRun(a: Action, n: nat)
    requires a.repeat == 1
    ensures Runs(Copies(a, n)) == n
  {
    if n > 0 {
      assert Copies(a, n)[1..] == Copies(a, n - 1);
      CopiesRun(a, n - 1);
    }
  }

  lemma ExpandedRuns(a: Action)
    ensures Runs(Expanded(a)) == if a.async then Runs([a]) else 0
    ensures forall i :: 0 <= i < |Expanded(a)| ==> Expanded(a)[i].repeat <= 1
  {
    if a.async && a.repeat > 1 {
      CopiesRun(a.(repeat := 1), a.repeat);
    }
  }

  /** Expansion keeps the number of runs, and no expanded action repeats. */
  lemma {:induction false} ExpansionConservesRuns(actions: seq<Action>)
    ensures Runs(Expansion(actions)) == Runs(OnlyAsync(actions))
    ensures forall i :: 0 <= i < |Expansion(actions)| ==> Expansion(actions)[i].repeat <= 1
  {
    if actions != [] {
      var a := actions[0];
      ExpansionConservesRuns(actions[1..]);
      ExpandedRuns(a);
      RunsAppend(Expanded(a), Expansion(actions[1..]));
      RunsAppend(if a.async then [a] else [], OnlyAsync(actions[1..]));
    }
  }

  /** The expanded actions stand in the order of the list: those of the i-th action behind
      those of the actions before it, as many as it repeats but at least one, and each is that
      action without the repetition. */
  lemma ExpansionInOrder(actions: seq<Action>, i: nat, k: nat)
    requires i < |actions| && actions[i].async && (k == 0 || k < actions[i].repeat)
    ensures var a, at := actions[i], |Expansion(actions[..i])|;
      && at + k < |Expansion(actions)|
      && Expansion(actions)[at + k] == a.(repeat := if a.repeat > 1 then 1 else a.repeat)
    ensures |Expansion(actions[..i + 1])| == |Expansion(actions[..i])| + if actions[i].repeat > 1 then actions[i].repeat else 1
  {
    ExpansionStep(actions, i);
    assert actions == actions[..i + 1] + actions[i + 1..];
    ExpansionAppend(actions[..i + 1], actions[i + 1..]);
  }

  /** Actions that are not async are not among them. */
  lemma {:induction false} ExpansionIsAsync(actions: seq<Action>)
    ensures forall k :: 0 <= k < |Expansion(actions)| ==> Expansion(actions)[k].async
    ensures Expansion(actions) == Expansion(OnlyAsync(actions))
  {
    if actions != [] {
      ExpansionIsAsync(actions[1..]);
      ExpansionAppend(if actions[0].async then [actions[0]] else [], OnlyAsync(actions[1..]));
      assert [actions[0]][1..] == [];
    }
  }

  lemma {:induction false} RunsAppend(v: seq<Action>, w: seq<Action>)
    ensures Runs(v + w) == Runs(v) + Runs(w)
  {
    if v == [] {
      assert v + w == w;
    } else {
      assert (v + w)[1..] == v[1..] + w;
      RunsAppend(v[1..], w);
    }
  }
}
