/** Which tasks a selector picks out of a task tree, and in which order. */
module Selection {
  import opened Base
  import opened Tasks
  import C = TryCatch
  import E = Engine

  /** The way to a task: its index among its siblings at every level. */
  type Path = seq<nat>

  /** The task at the end of a path; the first index counts from `from`. */
  function At(tasks: seq<Task>, from: nat, path: Path): Option<Task>
    decreases |path|
  {
    if path == [] || path[0] < from || path[0] >= from + |tasks| then None
    else
      var t := tasks[path[0] - from];
      if |path| == 1 then Some(t) else At(t.sub.tasks, 0, path[1..])
  }

  /** An allowed leaf, or a direct child of an allowed group that is in no allowed group. */
  ghost predicate Picked(tasks: seq<Task>, names: set<string>, allowed: set<string>, from: nat, path: Path)
    decreases |path|
  {
    && path != [] && from <= path[0] < from + |tasks|
    && var t := tasks[path[0] - from];
       if !IsGroup(t) then |path| == 1 && t.node.name in allowed
       else if t.node.name in allowed then |path| == 2 && path[1] < |t.sub.tasks|
       else Picked(t.sub.tasks, names, Allowed(t.sub, names), 0, path[1..])
  }

  /** Preorder. */
  predicate Before(p: Path, q: Path)
    decreases |q|
  {
    q != [] && (p == [] || p[0] < q[0] || (p[0] == q[0] && Before(p[1..], q[1..])))
  }

  /** The handlers of a node may be selected without being named. */
  lemma AllowedExactly(n: TasksNode, names: seq<string>, x: string)
    ensures x in Allowed(n, Wanted(names)) <==>
      x in names || (x != "" && (x == n.deferredTask || x == n.onErrorTask))
  {
  }

  // ---- Lookup by name ----

  /** A task of that name at that path. */
  predicate Named(tasks: seq<Task>, from: nat, q: Path, name: string) {
    At(tasks, from, q).Some? && At(tasks, from, q).value.node.name == name
  }

  /** Where a path leads: to the first task, below it, or among the others. */
  lemma NamedSplits(tasks: seq<Task>, from: nat, q: Path, name: string)
    requires tasks != [] && Named(tasks, from, q, name)
    ensures
      || (q == [from] && tasks[0].node.name == name)
      || (|q| > 1 && q[0] == from && Named(tasks[0].sub.tasks, 0, q[1..], name))
      || (q[0] > from && Named(tasks[1..], from + 1, q, name))
  {
    if q[0] == from && |q| == 1 {
      assert q == [from];
    }
  }

  /** Lookup by name yields the first task of that name in preorder, and fails only when
      there is none. */
  lemma {:induction false} FoundIsFirst(tasks: seq<Task>, name: string, from: nat) returns (p: Path)
    ensures FindIn(tasks, name).Some? ==> At(tasks, from, p) == FindIn(tasks, name) && Named(tasks, from, p, name)
    ensures FindIn(tasks, name).Some? ==> forall q :: Named(tasks, from, q, name) ==> !Before(q, p)
    ensures FindIn(tasks, name).None? ==> forall q :: !Named(tasks, from, q, name)
    decreases tasks
  {
    p := [];
    if tasks != [] {
      var below := FoundIsFirst(tasks[0].sub.tasks, name, 0);
      var beside := FoundIsFirst(tasks[1..], name, from + 1);
      if tasks[0].node.name == name {
        p := [from];
      } else if FindIn(tasks[0].sub.tasks, name).Some? {
        p := [from] + below;
        assert p[1..] == below;
      } else {
        p := beside;
      }
      forall q | Named(tasks, from, q, name)
        ensures FindIn(tasks, name).Some? && !Before(q, p)
      {
        NamedSplits(tasks, from, q, name);
      }
    }
  }

  ghost predicate Increasing(ps: seq<Path>) {
    forall i, j :: 0 <= i < j < |ps| ==> Before(ps[i], ps[j])
  }

  function Below(i: nat, ps: seq<Path>): (r: seq<Path>) {
    seq(|ps|, k requires 0 <= k < |ps| => [i] + ps[k])
  }

  function Children(i: nat, n: nat): (r: seq<Path>) {
    seq(n, j requires 0 <= j < n => [i, j])
  }

  /** The paths of what the first task contributes. */
  function HeadPaths(t: Task, names: set<string>, allowed: set<string>, from: nat): seq<Path>
    decreases t, 0
  {
    if IsGroup(t) then
      if t.node.name in allowed then Children(from, |t.sub.tasks|)
      else Below(from, Paths(t.sub.tasks, names, Allowed(t.sub, names), 0))
    else if t.node.name in allowed then [[from]] else []
  }

  function Paths(tasks: seq<Task>, names: set<string>, allowed: set<string>, from: nat): seq<Path>
    decreases tasks, 1
  {
    if tasks == [] then []
    else HeadPaths(tasks[0], names, allowed, from) + Paths(tasks[1..], names, allowed, from + 1)
  }

  /** `ps` lists, in preorder, exactly the paths picked, and `selected` the tasks there. */
  ghost predicate Lists(tasks: seq<Task>, names: set<string>, allowed: set<string>, from: nat,
                        ps: seq<Path>, selected: seq<Task>) {
    && |ps| == |selected|
    && Increasing(ps)
    && (forall k :: 0 <= k < |ps| ==> Picked(tasks, names, allowed, from, ps[k]))
    && (forall k :: 0 <= k < |ps| ==> At(tasks, from, ps[k]) == Some(selected[k]))
    && (forall p :: Picked(tasks, names, allowed, from, p) ==> p in ps)
  }

  function HeadTasks(t: Task, names: set<string>, allowed: set<string>): seq<Task> {
    if IsGroup(t) then
      if t.node.name in allowed then t.sub.tasks
      else SelectList(t.sub.tasks, names, Allowed(t.sub, names))
    else if t.node.name in allowed then [t] else []
  }

  lemma AllowedGroupLists(t: Task, names: set<string>, allowed: set<string>, from: nat)
    requires IsGroup(t) && t.node.name in allowed
    ensures Lists([t], names, allowed, from, Children(from, |t.sub.tasks|), t.sub.tasks)
  {
    var ps := Children(from, |t.sub.tasks|);
    forall p | Picked([t], names, allowed, from, p)
      ensures p in ps
    {
      assert p == ps[p[1]];
    }
    forall k | 0 <= k < |ps|
      ensures At([t], from, ps[k]) == Some(t.sub.tasks[k])
    {
      assert ps[k][1..] == [k];
    }
    forall i, j | 0 <= i < j < |ps|
      ensures Before(ps[i], ps[j])
    {
      assert ps[i][1..] == [i] && ps[j][1..] == [j];
    }
  }

  lemma OtherGroupLists(t: Task, names: set<string>, allowed: set<string>, from: nat, qs: seq<Path>, us: seq<Task>)
    requires IsGroup(t) && t.node.name !in allowed
    requires Lists(t.sub.tasks, names, Allowed(t.sub, names), 0, qs, us)
    ensures Lists([t], names, allowed, from, Below(from, qs), us)
  {
    var ps := Below(from, qs);
    forall k | 0 <= k < |ps|
      ensures ps[k][1..] == qs[k] && ps[k][0] == from
    {
      assert ps[k] == [from] + qs[k];
    }
    forall k | 0 <= k < |ps|
      ensures Picked([t], names, allowed, from, ps[k]) && At([t], from, ps[k]) == Some(us[k])
    {
      assert ps[k][1..] == qs[k];
      assert Picked(t.sub.tasks, names, Allowed(t.sub, names), 0, qs[k]);
    }
    forall i, j | 0 <= i < j < |ps|
      ensures Before(ps[i], ps[j])
    {
      assert Before(qs[i], qs[j]);
    }
    forall p | Picked([t], names, allowed, from, p)
      ensures p in ps
    {
      assert p[1..] in qs;
      var k :| 0 <= k < |qs| && qs[k] == p[1..];
      assert p == ps[k];
    }
  }

  lemma {:induction false} HeadLists(t: Task, names: set<string>, allowed: set<string>, from: nat)
    ensures Lists([t], names, allowed, from, HeadPaths(t, names, allowed, from), HeadTasks(t, names, allowed))
    decreases t, 0
  {
    if IsGroup(t) && t.node.name in allowed {
      AllowedGroupLists(t, names, allowed, from);
    } else if IsGroup(t) {
      var inner := Allowed(t.sub, names);
      PathsList(t.sub.tasks, names, inner, 0);
      OtherGroupLists(t, names, allowed, from, Paths(t.sub.tasks, names, inner, 0), SelectList(t.sub.tasks, names, inner));
    } else {
      forall p | Picked([t], names, allowed, from, p)
        ensures p in HeadPaths(t, names, allowed, from)
      {
        assert p == [from];
      }
    }
  }

  lemma {:induction false} PathsList(tasks: seq<Task>, names: set<string>, allowed: set<string>, from: nat)
    ensures Lists(tasks, names, allowed, from, Paths(tasks, names, allowed, from), SelectList(tasks, names, allowed))
    decreases tasks, 1
  {
    if tasks != [] {
      HeadLists(tasks[0], names, allowed, from);
      PathsList(tasks[1..], names, allowed, from + 1);
      Prepend(tasks, names, allowed, from,
              HeadPaths(tasks[0], names, allowed, from), HeadTasks(tasks[0], names, allowed),
              Paths(tasks[1..], names, allowed, from + 1), SelectList(tasks[1..], names, allowed));
    }
  }

  lemma Prepend(tasks: seq<Task>, names: set<string>, allowed: set<string>, from: nat,
                ps: seq<Path>, ts: seq<Task>, qs: seq<Path>, us: seq<Task>)
    requires tasks != []
    requires Lists([tasks[0]], names, allowed, from, ps, ts)
    requires Lists(tasks[1..], names, allowed, from + 1, qs, us)
    ensures Lists(tasks, names, allowed, from, ps + qs, ts + us)
  {
    var rs := ps + qs;
    forall p: Path | p != []
      ensures p[0] == from ==> At(tasks, from, p) == At([tasks[0]], from, p)
      ensures p[0] > from ==> At(tasks, from, p) == At(tasks[1..], from + 1, p)
      ensures Picked(tasks, names, allowed, from, p)
         <==> Picked([tasks[0]], names, allowed, from, p) || Picked(tasks[1..], names, allowed, from + 1, p)
    {
    }
    forall k | 0 <= k < |rs|
      ensures Picked(tasks, names, allowed, from, rs[k]) && At(tasks, from, rs[k]) == Some((ts + us)[k])
    {
      if k < |ps| { assert rs[k] == ps[k]; } else { assert rs[k] == qs[k - |ps|]; }
    }
    forall i, j | 0 <= i < j < |rs|
      ensures Before(rs[i], rs[j])
    {
      if i < |ps| && j >= |ps| {
        assert rs[i] == ps[i] && rs[j] == qs[j - |ps|];
        assert ps[i][0] == from && qs[j - |ps|][0] > from;
      } else if i >= |ps| {
        assert rs[i] == qs[i - |ps|] && rs[j] == qs[j - |ps|];
      }
    }
  }

  /** Selection is sound, complete and keeps the order of the tree: the selected tasks are
      those at exactly the picked paths, in preorder. */
  lemma SelectIsPicked(n: TasksNode, names: seq<string>) returns (ps: seq<Path>)
    ensures var wanted := Wanted(names);
      Lists(n.tasks, wanted, Allowed(n, wanted), 0, ps, Select(n, Names(names)).tasks)
  {
    var wanted := Wanted(names);
    PathsList(n.tasks, wanted, Allowed(n, wanted), 0);
    ps := Paths(n.tasks, wanted, Allowed(n, wanted), 0);
  }

  /** Every leaf named by the selector is selected itself or lies below a selected task. */
  lemma {:induction false} NamedLeafIsCovered(tasks: seq<Task>, names: set<string>, allowed: set<string>, from: nat, q: Path)
      returns (p: Path)
    requires names <= allowed
    requires At(tasks, from, q).Some? && !IsGroup(At(tasks, from, q).value) && At(tasks, from, q).value.node.name in names
    ensures Picked(tasks, names, allowed, from, p) && p <= q
    decreases |q|
  {
    var t := tasks[q[0] - from];
    if !IsGroup(t) {
      p := [q[0]];
      assert |q| == 1;
    } else if t.node.name in allowed {
      p := q[..2];
    } else {
      var r := NamedLeafIsCovered(t.sub.tasks, names, Allowed(t.sub, names), 0, q[1..]);
      p := [q[0]] + r;
      assert p[1..] == r;
    }
  }

  // ---- Handlers of a group that is not selected as a whole ----

  /** The task at the end of the path is a leaf and a handler of the group directly above. */
  predicate IsHandlerAt(tasks: seq<Task>, from: nat, q: Path) {
    && |q| >= 2 && At(tasks, from, q).Some? && At(tasks, from, q[..|q| - 1]).Some?
    && var c := At(tasks, from, q).value;
       !IsGroup(c) && c.node.name != "" && E.IsHandler(At(tasks, from, q[..|q| - 1]).value.sub, c)
  }

  /** No group above the one that holds the task is allowed. */
  predicate Reached(tasks: seq<Task>, names: set<string>, allowed: set<string>, from: nat, q: Path)
    requires At(tasks, from, q).Some?
    decreases |q|
  {
    |q| <= 2
    || (var t := tasks[q[0] - from];
        t.node.name !in allowed && Reached(t.sub.tasks, names, Allowed(t.sub, names), 0, q[1..]))
  }

  /** A handler of a nested group is selected whatever is named, unless a group further up is
      selected as a whole. */
  lemma {:induction false} HandlerIsPicked(tasks: seq<Task>, names: set<string>, allowed: set<string>, from: nat, q: Path)
    requires IsHandlerAt(tasks, from, q)
    ensures Picked(tasks, names, allowed, from, q) <==> Reached(tasks, names, allowed, from, q)
    decreases |q|
  {
    var t := tasks[q[0] - from];
    if |q| == 2 {
      var inner, c := Allowed(t.sub, names), At(tasks, from, q).value;
      assert q[..1] == [q[0]] && q[1..] == [q[1]] && At(tasks, from, q[..1]) == Some(t);
      assert At(t.sub.tasks, 0, q[1..]) == Some(c) && IsGroup(t);
      assert c.node.name in inner;
      assert Picked(t.sub.tasks, names, inner, 0, q[1..]);
    } else {
      assert q[..|q| - 1][1..] == q[1..][..|q| - 2];
      HandlerIsPicked(t.sub.tasks, names, Allowed(t.sub, names), 0, q[1..]);
    }
  }

  lemma {:induction false} OrdinaryMembers(n: TasksNode, tasks: seq<Task>, c: Task)
    ensures c in C.Ordinary(n, tasks) <==> c in tasks && !E.IsHandler(n, c)
  {
    if tasks != [] {
      OrdinaryMembers(n, tasks[1..], c);
    }
  }

  /** A selected handler of a nested group stands among the tasks of the root, and is run in
      ordinary position if and only if the root has no handler of that name. */
  lemma LiftedHandlerIsTried(n: TasksNode, names: seq<string>, q: Path)
    requires IsHandlerAt(n.tasks, 0, q)
    ensures var c := At(n.tasks, 0, q).value;
      var wanted := Wanted(names);
      var m := Select(n, Names(names));
      Reached(n.tasks, wanted, Allowed(n, wanted), 0, q) ==>
        c in m.tasks && (c in C.Ordinary(m, m.tasks) <==> !E.IsHandler(n, c))
  {
    var wanted := Wanted(names);
    HandlerIsPicked(n.tasks, wanted, Allowed(n, wanted), 0, q);
    if Picked(n.tasks, wanted, Allowed(n, wanted), 0, q) {
      var ps := SelectIsPicked(n, names);
      var m := Select(n, Names(names));
      var k :| 0 <= k < |ps| && ps[k] == q;
      OrdinaryMembers(m, m.tasks, m.tasks[k]);
    }
  }

  /** The smallest such tree: a group of a task and its catch task, of which the task is named.
      In the group only the task is tried; in the selection both are. */
  lemma CatchIsTried(n: TasksNode, g: Task, x: Task, c: Task)
    requires n == TasksNode([g], "", "") && g.sub == TasksNode([x, c], c.node.name, "")
    requires !IsGroup(x) && !IsGroup(c) && g.node.name != x.node.name
    requires x.node.name != "" && c.node.name != "" && c.node.name != x.node.name
    ensures var m := Select(n, Names([x.node.name]));
      m.tasks == [x, c] && C.Ordinary(m, m.tasks) == [x, c] && C.Ordinary(g.sub, g.sub.tasks) == [x]
  {
    var names := Wanted([x.node.name]);
    var allowed := Allowed(g.sub, names);
    assert [x, c][1..] == [c] && [c][1..] == [] && [g][1..] == [];
    assert SelectList([c], names, allowed) == [c] + SelectList([], names, allowed) == [c];
    assert SelectList([x, c], names, allowed) == [x] + SelectList([c], names, allowed) == [x, c];
    assert SelectList([g], names, Allowed(n, names)) == [x, c] + SelectList([], names, Allowed(n, names)) == [x, c];
    var m := Select(n, Names([x.node.name]));
    assert C.Ordinary(m, [c]) == [c] + C.Ordinary(m, []) == [c];
    assert C.Ordinary(m, [x, c]) == [x] + C.Ordinary(m, [c]) == [x, c];
    assert C.Ordinary(g.sub, [c]) == C.Ordinary(g.sub, []) == [];
    assert C.Ordinary(g.sub, [x, c]) == [x] + C.Ordinary(g.sub, [c]) == [x];
  }

  // ---- Selected trees are well formed ----

  lemma {:induction false} ListOkConcat(v: seq<Task>, w: seq<Task>)
    requires ListOk(v) && ListOk(w)
    ensures ListOk(v + w)
    decreases |v|
  {
    if v == [] {
      assert v + w == w;
    } else {
      assert (v + w)[1..] == v[1..] + w;
      ListOkConcat(v[1..], w);
    }
  }

  lemma {:induction false} SelectListIsOk(tasks: seq<Task>, names: set<string>, allowed: set<string>)
    requires ListOk(tasks)
    ensures ListOk(SelectList(tasks, names, allowed))
    decreases tasks
  {
    if tasks != [] {
      var t := tasks[0];
      SelectListIsOk(t.sub.tasks, names, Allowed(t.sub, names));
      SelectListIsOk(tasks[1..], names, allowed);
      assert IsGroup(t) || ListOk([t]);
      ListOkConcat(HeadTasks(t, names, allowed), SelectList(tasks[1..], names, allowed));
    }
  }

  // ---- When is the deferred task found under every selector? ----

  lemma {:induction false} FoundInConcat(v: seq<Task>, w: seq<Task>, name: string)
    ensures FindIn(v + w, name).Some? <==> FindIn(v, name).Some? || FindIn(w, name).Some?
    decreases |v|
  {
    if v == [] {
      assert v + w == w;
    } else {
      assert (v + w)[1..] == v[1..] + w;
      FoundInConcat(v[1..], w, name);
    }
  }

  /** What occurs in a selection occurs in the tree. */
  lemma {:induction false} SelectedOccurs(tasks: seq<Task>, names: set<string>, allowed: set<string>, name: string)
    requires FindIn(SelectList(tasks, names, allowed), name).Some?
    ensures FindIn(tasks, name).Some?
    decreases tasks
  {
    if tasks != [] {
      var t, rest := tasks[0], SelectList(tasks[1..], names, allowed);
      FoundInConcat(HeadTasks(t, names, allowed), rest, name);
      if FindIn(rest, name).Some? {
        SelectedOccurs(tasks[1..], names, allowed, name);
      } else if IsGroup(t) && t.node.name !in allowed {
        SelectedOccurs(t.sub.tasks, names, Allowed(t.sub, names), name);
      } else {
        HeadOccurs(t, names, allowed, name);
      }
    }
  }

  lemma HeadOccurs(t: Task, names: set<string>, allowed: set<string>, name: string)
    requires !IsGroup(t) || t.node.name in allowed
    requires FindIn(HeadTasks(t, names, allowed), name).Some?
    ensures t.node.name == name || FindIn(t.sub.tasks, name).Some?
  {
    assert [t][1..] == [];
  }

  /** With more names a selection finds no less. */
  lemma {:induction false} MoreNamesFindMore(tasks: seq<Task>, few: set<string>, allowed: set<string>,
                                             many: set<string>, wide: set<string>, name: string)
    requires few <= many && allowed <= wide
    requires FindIn(SelectList(tasks, few, allowed), name).Some?
    ensures FindIn(SelectList(tasks, many, wide), name).Some?
    decreases tasks
  {
    if tasks != [] {
      var t := tasks[0];
      FoundInConcat(HeadTasks(t, few, allowed), SelectList(tasks[1..], few, allowed), name);
      FoundInConcat(HeadTasks(t, many, wide), SelectList(tasks[1..], many, wide), name);
      if FindIn(SelectList(tasks[1..], few, allowed), name).Some? {
        MoreNamesFindMore(tasks[1..], few, allowed, many, wide, name);
      } else if IsGroup(t) && t.node.name !in allowed {
        if t.node.name in wide {
          SelectedOccurs(t.sub.tasks, few, Allowed(t.sub, few), name);
        } else {
          MoreNamesFindMore(t.sub.tasks, few, Allowed(t.sub, few), many, Allowed(t.sub, many), name);
        }
      }
    }
  }

  /** The tasks that are selected whatever is named: the handlers. */
  function Handlers(n: TasksNode): TasksNode {
    Select(n, Names([]))
  }

  lemma {:induction false} MemberIsFound(tasks: seq<Task>, i: nat)
    requires i < |tasks|
    ensures FindIn(tasks, tasks[i].node.name).Some?
  {
    if i > 0 {
      MemberIsFound(tasks[1..], i - 1);
    }
  }

  lemma {:induction false} AllowedLeafStays(tasks: seq<Task>, names: set<string>, allowed: set<string>, i: nat)
    requires i < |tasks| && !IsGroup(tasks[i]) && tasks[i].node.name in allowed
    ensures tasks[i] in SelectList(tasks, names, allowed)
  {
    if i > 0 {
      AllowedLeafStays(tasks[1..], names, allowed, i - 1);
    }
  }

  predicate IsLeafNamed(tasks: seq<Task>, i: int, name: string) {
    0 <= i < |tasks| && !IsGroup(tasks[i]) && tasks[i].node.name == name == Trim(name)
  }

  /** Whatever tasks are selected, their deferred tasks can be found. */
  ghost predicate Runnable(w: E.Workflow) {
    NodeOk(w.root) && forall s: Selector :: NodeOk(Select(w.root, s))
  }

  /** A workflow can be run under every selector if and only if its deferred task is still
      found when nothing is named. */
  lemma RunnableExactly(w: E.Workflow)
    requires NodeOk(w.root)
    ensures Runnable(w) <==> Resolves(Handlers(w.root))
  {
    var n := w.root;
    if Resolves(Handlers(n)) {
      forall s: Selector
        ensures NodeOk(Select(n, s))
      {
        if s.Names? {
          SelectionResolves(n, s.names);
        }
      }
    } else {
      assert !NodeOk(Select(n, Names([])));
    }
  }

  lemma SelectionResolves(n: TasksNode, names: seq<string>)
    requires NodeOk(n) && Resolves(Handlers(n))
    ensures NodeOk(Select(n, Names(names)))
  {
    var few, many := Wanted([]), Wanted(names);
    SelectListIsOk(n.tasks, many, Allowed(n, many));
    if n.deferredTask != "" {
      MoreNamesFindMore(n.tasks, few, Allowed(n, few), many, Allowed(n, many), Trim(n.deferredTask));
    }
  }

  /** In particular when the deferred task is a child without subtasks. */
  lemma LeafHandlerIsRunnable(w: E.Workflow)
    requires NodeOk(w.root)
    requires w.root.deferredTask == "" || exists i :: IsLeafNamed(w.root.tasks, i, w.root.deferredTask)
    ensures Runnable(w)
  {
    var n := w.root;
    if n.deferredTask != "" {
      var i :| IsLeafNamed(n.tasks, i, n.deferredTask);
      var none := Wanted([]);
      var selected := SelectList(n.tasks, none, Allowed(n, none));
      AllowedLeafStays(n.tasks, none, Allowed(n, none), i);
      var k :| 0 <= k < |selected| && selected[k] == n.tasks[i];
      MemberIsFound(selected, k);
    }
    RunnableExactly(w);
  }

  /** Such a workflow meets the requirement of every run request. */
  lemma RunnableIsCallable(w: E.Workflow, d: E.Dispatch)
    requires d.Run? && Runnable(w)
    ensures E.Callable(w, d)
  {
    assert NodeOk(Select(w.root, d.selector));
  }

  /** A selection by name replaces a group by its tasks, and so can lose a deferred task that
      is one: here the same workflow can be run in full but not by the name of its first task. */
  lemma GroupHandlerIsLost(w: E.Workflow, t: Task, u: Task, all: E.Dispatch, one: E.Dispatch)
    requires w.root.tasks == [t, u] && w.root.deferredTask == u.node.name == Trim(u.node.name) != ""
    requires w.root.onErrorTask == "" && TaskOk(t) && TaskOk(u) && !IsGroup(t) && IsGroup(u)
    requires Trim(t.node.name) == t.node.name != u.node.name
    requires forall i :: 0 <= i < |u.sub.tasks| ==> !IsGroup(u.sub.tasks[i]) && u.sub.tasks[i].node.name != u.node.name
    requires all.Run? && all.selector == All && one.Run? && one.selector == Names([t.node.name])
    ensures E.Callable(w, all) && !E.Callable(w, one)
  {
    var n, wanted := w.root, Wanted([t.node.name]);
    var tasks := n.tasks;
    assert tasks[1..] == [u] && [u][1..] == [];
    assert FindIn(t.sub.tasks, u.node.name) == None;
    assert FindIn([u], u.node.name) == Some(u);
    assert FindIn(tasks, u.node.name) == Some(u);
    assert ListOk([u]) && ListOk(tasks);
    assert E.Callable(w, all);
    var allowed := Allowed(n, wanted);
    assert SelectList([u], wanted, allowed) == u.sub.tasks + SelectList([], wanted, allowed) == u.sub.tasks;
    assert SelectList(tasks, wanted, allowed) == [t] + u.sub.tasks;
    NotAmongLeaves([t] + u.sub.tasks, u.node.name);
    assert Has(n, t.node.name);
    assert E.Selection(w, one.selector, one.inherited) == Some(Select(n, one.selector));
  }

  lemma {:induction false} NotAmongLeaves(tasks: seq<Task>, name: string)
    requires forall i :: 0 <= i < |tasks| ==> !IsGroup(tasks[i]) && tasks[i].node.name != name
    ensures FindIn(tasks, name) == None
  {
    if tasks != [] {
      NotAmongLeaves(tasks[1..], name);
      assert FindIn(tasks[0].sub.tasks, name) == None;
    }
  }

  // ---- The selection as the program computes it ----

  method SelectTasks(n: TasksNode, selector: Selector) returns (result: TasksNode)
    ensures result == Select(n, selector)
    decreases ListSize(n.tasks), 1
  {
    if selector.All? {
      return n;
    }
    var wanted := Wanted(selector.names);
    var allowed := wanted;
    if n.deferredTask != "" {
      allowed := allowed + {n.deferredTask};
    }
    if n.onErrorTask != "" {
      allowed := allowed + {n.onErrorTask};
    }
    assert allowed == Allowed(n, wanted);
    var tasks := SelectEach(n.tasks, selector, allowed);
    result := n.(tasks := tasks);
  }

  method SelectEach(tasks: seq<Task>, selector: Selector, allowed: set<string>) returns (result: seq<Task>)
    requires selector.Names?
    ensures result == SelectList(tasks, Wanted(selector.names), allowed)
    decreases ListSize(tasks), 0
  {
    ghost var names := Wanted(selector.names);
    result := [];
    for i := 0 to |tasks|
      invariant result + SelectList(tasks[i..], names, allowed) == SelectList(tasks, names, allowed)
    {
      MemberIsSmaller(tasks, i);
      SelectStep(tasks, i, names, allowed);
      ghost var rest := SelectList(tasks[i + 1..], names, allowed);
      var part := SelectTask(tasks[i], selector, allowed);
      assert result + (part + rest) == result + part + rest;
      result := result + part;
    }
  }

  method SelectTask(t: Task, selector: Selector, allowed: set<string>) returns (part: seq<Task>)
    requires selector.Names?
    ensures part == HeadTasks(t, Wanted(selector.names), allowed)
    decreases ListSize(t.sub.tasks), 2
  {
    part := [];
    if |t.sub.tasks| > 0 {
      if t.node.name in allowed {
        part := t.sub.tasks;
      } else {
        var selected := SelectTasks(t.sub, selector);
        part := selected.tasks;
      }
    } else if t.node.name in allowed {
      part := [t];
    }
  }

  lemma SelectStep(tasks: seq<Task>, i: nat, names: set<string>, allowed: set<string>)
    requires i < |tasks|
    ensures SelectList(tasks[i..], names, allowed)
         == HeadTasks(tasks[i], names, allowed) + SelectList(tasks[i + 1..], names, allowed)
  {
    assert tasks[i..][1..] == tasks[i + 1..];
  }
}
