/** Expanding a template over a range of indexes and flattening the task trees built for them. */
module Template {
  import opened Base
  import opened Tasks

  class TagIterator {
    const min: int
    const max: int
    var index: int

    constructor (min: int, max: int)
      ensures this.min == min && this.max == max && index == min
    {
      this.min, this.max := min, max;
      index := min;
    }

    predicate Has()
      reads this
    {
      index <= max
    }

    method Next() returns (has: bool)
      modifies this
      ensures index == old(index) + 1 && has == Has()
    {
      index := index + 1;
      has := Has();
    }
  }

  /** How indexes are printed, what a tag is called for an index, which identity it has in a
      group, and its description: all derived from the template's text and the file system. */
  datatype Labels = Labels(index: int -> string, name: int -> string, id: (string, int) -> string, description: int -> string)

  class Tag {
    const labels: Labels
    const range: TagIterator
    var group: string

    constructor (labels: Labels, range: TagIterator)
      ensures this.labels == labels && this.range == range
    {
      this.labels, this.range := labels, range;
      group := "";
    }
  }

  // ---- Flattening ----

  /** An action of a group with the tag of an index; only the first one of a task gets the
      description. */
  function Tagged(l: Labels, group: string, i: int, a: Action, first: bool): Action {
    a.(tag := MetaTag(l.name(i), l.index(i), l.id(group, i), if first then l.description(i) else a.tag.description))
  }

  function TaggedAll(l: Labels, group: string, i: int, actions: seq<Action>): (r: seq<Action>)
    ensures |r| == |actions|
  {
    seq(|actions|, k requires 0 <= k < |actions| => Tagged(l, group, i, actions[k], k == 0))
  }

  /** The actions of a task, then those of its subtasks, which form a group under its name. */
  function Flat(l: Labels, group: string, i: int, t: Task): seq<Action>
    decreases t, 0
  {
    TaggedAll(l, group, i, t.actions) + FlatAll(l, t.node.name, i, t.sub.tasks)
  }

  function FlatAll(l: Labels, group: string, i: int, tasks: seq<Task>): seq<Action>
    decreases tasks, 1
  {
    if tasks == [] then [] else Flat(l, group, i, tasks[0]) + FlatAll(l, group, i, tasks[1..])
  }

  /** `parent` is None for the root, which keeps the group it was given. */
  method FlattenAction(parent: Option<Task>, task: Task, tag: Tag) returns (result: seq<Action>)
    modifies tag
    ensures result == Flat(tag.labels, if parent.Some? then parent.value.node.name else old(tag.group), tag.range.index, task)
    ensures tag.range.index == old(tag.range.index)
    decreases TaskSize(task)
  {
    if parent.Some? {
      tag.group := parent.value.node.name;
    }
    var i := tag.range.index;
    var group := tag.group;
    result := [];
    for k := 0 to |task.actions|
      invariant tag.group == group && result == TaggedAll(tag.labels, group, i, task.actions)[..k]
    {
      result := result + [Tagged(tag.labels, tag.group, i, task.actions[k], k == 0)];
    }
    ghost var own := result;
    assert own == TaggedAll(tag.labels, group, i, task.actions);
    for k := 0 to |task.sub.tasks|
      invariant tag.range.index == i
      invariant result + FlatAll(tag.labels, task.node.name, i, task.sub.tasks[k..])
             == own + FlatAll(tag.labels, task.node.name, i, task.sub.tasks)
    {
      MemberIsSmaller(task.sub.tasks, k);
      assert task.sub.tasks[k..][1..] == task.sub.tasks[k + 1..];
      ghost var rest := FlatAll(tag.labels, task.node.name, i, task.sub.tasks[k + 1..]);
      var actions := FlattenAction(Some(task), task.sub.tasks[k], tag);
      assert result + (actions + rest) == result + actions + rest;
      result := result + actions;
    }
    assert task.sub.tasks[|task.sub.tasks|..] == [];
    assert result + [] == result;
  }

  // ---- Expansion ----

  function Expanded(l: Labels, group: string, built: map<int, Task>, lo: int, hi: int): seq<Action>
    requires forall i :: lo <= i <= hi ==> i in built
    decreases hi - lo + 1
  {
    if lo > hi then [] else Flat(l, group, lo, built[lo]) + Expanded(l, group, built, lo + 1, hi)
  }

  lemma Regroup<T>(a: seq<T>, b: seq<T>, c: seq<T>)
    ensures a + (b + c) == a + b + c
  {
  }

  /** `built` holds the task tree built for each index that has an instance; every index of
      the range must have one, since the iterator does not move on without. */
  method Expand(task: Task, tag: Tag, built: map<int, Task>) returns (result: Task)
    requires tag.range.index == tag.range.min
    requires forall i :: tag.range.min <= i <= tag.range.max ==> i in built
    modifies tag, tag.range
    ensures result == task.(actions := task.actions
                              + Expanded(tag.labels, task.node.name, built, tag.range.min, tag.range.max))
  {
    var it := tag.range;
    ghost var all := Expanded(tag.labels, task.node.name, built, it.min, it.max);
    var actions := task.actions;
    while it.Has()
      invariant it.min <= it.index
      invariant actions + Expanded(tag.labels, task.node.name, built, it.index, it.max) == task.actions + all
      decreases it.max - it.index + 1
    {
      tag.group := task.node.name;
      ghost var rest := Expanded(tag.labels, task.node.name, built, it.index + 1, it.max);
      var flat := FlattenAction(None, built[it.index], tag);
      Regroup(actions, flat, rest);
      actions := actions + flat;
      var more := it.Next();
      if !more {
        break;
      }
    }
    result := task.(actions := actions);
  }

  // ---- Preorder, by an explicit stack ----

  /** A task to be visited, and the group its actions form. */
  datatype Visit = Visit(group: string, task: Task)

  /** An action met on the way, in which group, and whether it is the first one of its task. */
  datatype Slot = Slot(group: string, first: bool, action: Action)

  function Under(group: string, tasks: seq<Task>): (r: seq<Visit>)
    ensures |r| == |tasks|
  {
    seq(|tasks|, k requires 0 <= k < |tasks| => Visit(group, tasks[k]))
  }

  function Own(v: Visit): (r: seq<Slot>)
    ensures |r| == |v.task.actions|
  {
    seq(|v.task.actions|, k requires 0 <= k < |v.task.actions| => Slot(v.group, k == 0, v.task.actions[k]))
  }

  function StackSize(stack: seq<Visit>): nat {
    if stack == [] then 0 else TaskSize(stack[0].task) + StackSize(stack[1..])
  }

  lemma {:induction false} StackSizeConcat(v: seq<Visit>, w: seq<Visit>)
    ensures StackSize(v + w) == StackSize(v) + StackSize(w)
    decreases |v|
  {
    if v == [] {
      assert v + w == w;
    } else {
      assert (v + w)[1..] == v[1..] + w;
      StackSizeConcat(v[1..], w);
    }
  }

  lemma {:induction false} UnderSize(group: string, tasks: seq<Task>)
    ensures StackSize(Under(group, tasks)) == ListSize(tasks)
    decreases |tasks|
  {
    if tasks != [] {
      UnderSize(group, tasks[1..]);
      assert Under(group, tasks)[1..] == Under(group, tasks[1..]);
    }
  }

  /** The stack after its first task was visited: its subtasks, a group under its name, come
      before the others. */
  function Visited(stack: seq<Visit>): seq<Visit>
    requires stack != []
  {
    Under(stack[0].task.node.name, stack[0].task.sub.tasks) + stack[1..]
  }

  lemma VisitedIsSmaller(stack: seq<Visit>)
    requires stack != []
    ensures StackSize(Visited(stack)) < StackSize(stack)
  {
    StackSizeConcat(Under(stack[0].task.node.name, stack[0].task.sub.tasks), stack[1..]);
    UnderSize(stack[0].task.node.name, stack[0].task.sub.tasks);
  }

  /** All actions of the tasks on a stack and below them, in preorder. */
  function Walk(stack: seq<Visit>): seq<Slot>
    decreases StackSize(stack)
  {
    if stack == [] then []
    else
      VisitedIsSmaller(stack);
      Own(stack[0]) + Walk(Visited(stack))
  }

  lemma {:induction false} WalkConcat(v: seq<Visit>, w: seq<Visit>)
    ensures Walk(v + w) == Walk(v) + Walk(w)
    decreases StackSize(v)
  {
    if v == [] {
      assert v + w == w;
    } else {
      VisitedIsSmaller(v);
      WalkConcat(Visited(v), w);
      WalkStep(v, w);
      WalkHead(v);
      Regroup(Own(v[0]), Walk(Visited(v)), Walk(w));
    }
  }

  lemma WalkHead(v: seq<Visit>)
    requires v != []
    ensures Walk(v) == Own(v[0]) + Walk(Visited(v))
  {
  }

  lemma WalkStep(v: seq<Visit>, w: seq<Visit>)
    requires v != []
    ensures Walk(v + w) == Own(v[0]) + Walk(Visited(v) + w)
  {
    WalkHead(v + w);
    assert (v + w)[1..] == v[1..] + w;
    assert Visited(v + w) == Visited(v) + w;
  }

  /** An action is as it was but for its tag: that has the name and the index of `i`, the
      identity of its group at `i`, and the description of `i` if it is the first one of its
      task. */
  ghost predicate Retags(l: Labels, i: int, slots: seq<Slot>, tagged: seq<Action>) {
    && |slots| == |tagged|
    && forall k :: 0 <= k < |slots| ==> Retagged(l, i, slots[k], tagged[k])
  }

  predicate Retagged(l: Labels, i: int, s: Slot, a: Action) {
    && a == s.action.(tag := a.tag)
    && a.tag.tag == l.name(i) && a.tag.tagIndex == l.index(i) && a.tag.tagID == l.id(s.group, i)
    && a.tag.description == if s.first then l.description(i) else s.action.tag.description
  }

  lemma RetagsConcat(l: Labels, i: int, p: seq<Slot>, t: seq<Action>, q: seq<Slot>, u: seq<Action>)
    requires Retags(l, i, p, t) && Retags(l, i, q, u)
    ensures Retags(l, i, p + q, t + u)
  {
  }

  /** Flattening lists all actions of the tree in preorder, each once, with the tag of the
      index in its group. */
  lemma {:induction false} FlatIsPreorder(l: Labels, group: string, i: int, t: Task)
    ensures Retags(l, i, Walk([Visit(group, t)]), Flat(l, group, i, t))
    decreases t, 0
  {
    var v, sub := Visit(group, t), Under(t.node.name, t.sub.tasks);
    FlatAllIsPreorder(l, t.node.name, i, t.sub.tasks);
    assert Visited([v]) == sub;
    assert Walk([v]) == Own(v) + Walk(sub);
    assert Retags(l, i, Own(v), TaggedAll(l, group, i, t.actions));
    RetagsConcat(l, i, Own(v), TaggedAll(l, group, i, t.actions), Walk(sub), FlatAll(l, t.node.name, i, t.sub.tasks));
  }

  lemma {:induction false} FlatAllIsPreorder(l: Labels, group: string, i: int, tasks: seq<Task>)
    ensures Retags(l, i, Walk(Under(group, tasks)), FlatAll(l, group, i, tasks))
    decreases tasks, 1
  {
    if tasks != [] {
      FlatIsPreorder(l, group, i, tasks[0]);
      FlatAllIsPreorder(l, group, i, tasks[1..]);
      var head, rest := [Visit(group, tasks[0])], Under(group, tasks[1..]);
      assert Under(group, tasks) == head + rest;
      WalkConcat(head, rest);
      RetagsConcat(l, i, Walk(head), Flat(l, group, i, tasks[0]), Walk(rest), FlatAll(l, group, i, tasks[1..]));
    }
  }

  /** The number of actions expanded before index i. */
  function Offset(group: string, built: map<int, Task>, lo: int, i: int): nat
    requires forall j :: lo <= j < i ==> j in built
    decreases i - lo
  {
    if lo >= i then 0 else |Walk([Visit(group, built[lo])])| + Offset(group, built, lo + 1, i)
  }

  lemma {:induction false} ExpandedLength(l: Labels, group: string, built: map<int, Task>, lo: int, hi: int)
    requires lo <= hi + 1 && forall j :: lo <= j <= hi ==> j in built
    ensures |Expanded(l, group, built, lo, hi)| == Offset(group, built, lo, hi + 1)
    decreases hi - lo + 1
  {
    if lo <= hi {
      FlatIsPreorder(l, group, lo, built[lo]);
      ExpandedLength(l, group, built, lo + 1, hi);
    }
  }

  /** At position `at` of `all` stand the actions of `block` with their tags for index `i`. */
  ghost predicate BlockAt(l: Labels, i: int, all: seq<Action>, at: nat, block: seq<Slot>) {
    at + |block| <= |all| && Retags(l, i, block, all[at..at + |block|])
  }

  lemma BlockInFront(l: Labels, i: int, head: seq<Action>, rest: seq<Action>, block: seq<Slot>)
    requires Retags(l, i, block, head)
    ensures BlockAt(l, i, head + rest, 0, block)
  {
    assert (head + rest)[0..|head|] == head;
  }

  lemma BlockBehind(l: Labels, i: int, head: seq<Action>, rest: seq<Action>, at: nat, block: seq<Slot>)
    requires BlockAt(l, i, rest, at, block)
    ensures BlockAt(l, i, head + rest, |head| + at, block)
  {
    var k := |head| + at;
    assert (head + rest)[k..k + |block|] == rest[at..at + |block|];
  }

  /** Every index of the range contributes one block, in the order of the indexes and right
      after the block before it: the preorder of its tree with its tags.  There is nothing
      besides the blocks. */
  lemma {:induction false} ExpandedBlocks(l: Labels, group: string, built: map<int, Task>, lo: int, hi: int, i: int)
    requires lo <= i <= hi && forall j :: lo <= j <= hi ==> j in built
    ensures var all := Expanded(l, group, built, lo, hi);
      && |all| == Offset(group, built, lo, hi + 1)
      && BlockAt(l, i, all, Offset(group, built, lo, i), Walk([Visit(group, built[i])]))
    decreases hi - lo
  {
    var head, rest := Flat(l, group, lo, built[lo]), Expanded(l, group, built, lo + 1, hi);
    FlatIsPreorder(l, group, lo, built[lo]);
    ExpandedLength(l, group, built, lo, hi);
    var block := Walk([Visit(group, built[i])]);
    if i == lo {
      BlockInFront(l, i, head, rest, block);
    } else {
      ExpandedBlocks(l, group, built, lo + 1, hi, i);
      BlockBehind(l, i, head, rest, Offset(group, built, lo + 1, i), block);
    }
  }
}
