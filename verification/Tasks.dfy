/** Optional values. */
module Base {
  datatype Option<+T> = None | Some(value: T)
}

/** The static part of a workflow: actions, tasks and the task tree, with the
    lookup and the selection that the engine performs on it. */
module Tasks {
  import opened Base

  /** What workflows, tasks and actions have in common.  `when` is the run criterion
      (empty: always run); `init` and `post` say whether there are variables to apply. */
  datatype Node = Node(name: string, when: string, init: bool, post: bool, logging: Option<bool>)

  datatype MetaTag = MetaTag(tag: string, tagIndex: string, tagID: string, description: string)

  /** `extract` says whether the repeater extracts data from the response. */
  datatype Action = Action(node: Node, service: string, action: string, tag: MetaTag, async: bool,
                           skip: string, repeat: int, extract: bool, exit: string)

  datatype Task = Task(node: Node, tag: Option<MetaTag>, actions: seq<Action>, sub: TasksNode, fail: bool)

  datatype TasksNode = TasksNode(tasks: seq<Task>, onErrorTask: string, deferredTask: string)

  datatype Selector = All | Names(names: seq<string>)

  // ---- Lookup by name ----

  predicate IsSpace(c: char) {
    c in {' ', '\t', '\n', '\r', 11 as char, 12 as char}
  }

  function Trim(s: string): string
    decreases |s|
  {
    if s == "" then s
    else if IsSpace(s[0]) then Trim(s[1..])
    else if IsSpace(s[|s| - 1]) then Trim(s[..|s| - 1])
    else s
  }

  /** Trimming takes off space at both ends, and all of it. */
  lemma {:induction false} TrimExactly(s: string) returns (u: string, v: string)
    ensures s == u + Trim(s) + v && forall c :: c in u + v ==> IsSpace(c)
    ensures Trim(s) != "" ==> !IsSpace(Trim(s)[0]) && !IsSpace(Trim(s)[|Trim(s)| - 1])
    decreases |s|
  {
    u, v := "", "";
    if s != "" && IsSpace(s[0]) {
      u, v := TrimExactly(s[1..]);
      u := [s[0]] + u;
    } else if s != "" && IsSpace(s[|s| - 1]) {
      u, v := TrimExactly(s[..|s| - 1]);
      v := v + [s[|s| - 1]];
    }
  }

  /** The first task of that name in preorder. */
  function FindIn(tasks: seq<Task>, name: string): Option<Task>
    decreases tasks
  {
    if tasks == [] then None
    else if tasks[0].node.name == name then Some(tasks[0])
    else
      match FindIn(tasks[0].sub.tasks, name)
      case Some(t) => Some(t)
      case None => FindIn(tasks[1..], name)
  }

  function Find(node: TasksNode, name: string): Option<Task> {
    FindIn(node.tasks, Trim(name))
  }

  predicate Has(node: TasksNode, name: string) {
    Find(node, name).Some?
  }

  // ---- Selection by name ----

  predicate IsGroup(t: Task) {
    t.sub.tasks != []
  }

  function Wanted(names: seq<string>): set<string> {
    set x | x in names
  }

  /** The selected names and the handlers of the enclosing node. */
  function Allowed(n: TasksNode, names: set<string>): set<string> {
    names
    + (if n.deferredTask != "" then {n.deferredTask} else {})
    + (if n.onErrorTask != "" then {n.onErrorTask} else {})
  }

  /** An allowed group contributes its children, another group what is selected below it,
      an allowed leaf itself. */
  function SelectList(tasks: seq<Task>, names: set<string>, allowed: set<string>): seq<Task>
    decreases tasks
  {
    if tasks == [] then []
    else
      var t := tasks[0];
      (if IsGroup(t) then
         if t.node.name in allowed then t.sub.tasks
         else SelectList(t.sub.tasks, names, Allowed(t.sub, names))
       else if t.node.name in allowed then [t] else [])
      + SelectList(tasks[1..], names, allowed)
  }

  function Select(n: TasksNode, selector: Selector): TasksNode {
    match selector
    case All => n
    case Names(names) =>
      var wanted := Wanted(names);
      n.(tasks := SelectList(n.tasks, wanted, Allowed(n, wanted)))
  }

  // ---- Size: the measure under which the engine recurses ----

  function TaskSize(t: Task): nat
    decreases t, 0
  {
    2 + ListSize(t.sub.tasks)
  }

  function ListSize(tasks: seq<Task>): nat
    decreases tasks, 1
  {
    if tasks == [] then 0 else TaskSize(tasks[0]) + ListSize(tasks[1..])
  }

  function NodeSize(n: TasksNode): nat {
    1 + ListSize(n.tasks)
  }

  /** A task found by name has that name and is no larger than the list it was found in. */
  lemma {:induction false} FoundIsSmaller(tasks: seq<Task>, name: string)
    ensures var r := FindIn(tasks, name);
            r.Some? ==> r.value.node.name == name && TaskSize(r.value) <= ListSize(tasks)
    decreases tasks
  {
    if tasks != [] {
      FoundIsSmaller(tasks[0].sub.tasks, name);
      FoundIsSmaller(tasks[1..], name);
    }
  }

  lemma {:induction false} MemberIsSmaller(tasks: seq<Task>, i: nat)
    requires i < |tasks|
    ensures TaskSize(tasks[i]) <= ListSize(tasks)
  {
    if i > 0 {
      MemberIsSmaller(tasks[1..], i - 1);
    }
  }

  // ---- Well-formed trees: every deferred task can be found ----

  predicate Resolves(n: TasksNode) {
    n.deferredTask == "" || Find(n, n.deferredTask).Some?
  }

  predicate TaskOk(t: Task)
    decreases t, 0
  {
    Resolves(t.sub) && ListOk(t.sub.tasks)
  }

  predicate ListOk(tasks: seq<Task>)
    decreases tasks, 1
  {
    tasks == [] || (TaskOk(tasks[0]) && ListOk(tasks[1..]))
  }

  predicate NodeOk(n: TasksNode) {
    Resolves(n) && ListOk(n.tasks)
  }

  lemma {:induction false} FoundIsOk(tasks: seq<Task>, name: string)
    requires ListOk(tasks)
    ensures FindIn(tasks, name).Some? ==> TaskOk(FindIn(tasks, name).value)
    decreases tasks
  {
    if tasks != [] {
      FoundIsOk(tasks[0].sub.tasks, name);
      FoundIsOk(tasks[1..], name);
    }
  }

  lemma {:induction false} MemberIsOk(tasks: seq<Task>, i: nat)
    requires ListOk(tasks) && i < |tasks|
    ensures TaskOk(tasks[i])
  {
    if i > 0 {
      MemberIsOk(tasks[1..], i - 1);
    }
  }
}
