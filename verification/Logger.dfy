/** The event logger: it rebuilds the hierarchy of workflows and tasks from their start and
    end events, and writes every other event to a file of its own. */
module Logger {
  import opened Base
  import opened Tasks
  import opened Events
  import opened Text
  import S = Service

  /** An event as it is published: its value, its type name, and whether it closes another. */
  datatype Value = Nil | Known(event: Event) | Other
  datatype Message = Message(value: Value, typeName: string, hasInit: bool)

  datatype Stacks = Stacks(workflows: seq<string>, tasks: seq<string>, tags: seq<Option<MetaTag>>)

  /** A file the logger opens: under which open workflows and tasks, in which directory, and
      under which number and name. */
  datatype Entry = Entry(stacks: Stacks, dir: string, number: nat, name: string)

  datatype State = State(stacks: Stacks, activities: seq<Activity>, current: Option<Activity>, ended: bool,
                         groups: map<string, nat>, files: map<string, nat>, written: seq<Entry>)

  // ---- Workflow segments ----

  function WithoutScheme(url: string): string {
    var u := TrimSuffix(url, "/");
    var scheme := Index(u, "://");
    if scheme < 0 then u else u[scheme + 3..]
  }

  /** The folder that holds the file at `path`; a folder named cases yields its parent. */
  function FolderOf(path: string): string {
    var i := LastSlash(path);
    if i < 0 then ""
    else
      var parent := path[..i];
      var j := LastSlash(parent);
      if j < 0 then parent
      else
        var last := parent[j + 1..];
        if ToLower(last) != "cases" then last
        else
          var grand := parent[..j];
          var k := LastSlash(grand);
          if k >= 0 then grand[k + 1..] else if grand != "" then grand else last
  }

  function Segment(name: string, url: string): string {
    var n := Normalize(name);
    if n != "" && n != "run" then n
    else if url == "" then n
    else
      var folder := Normalize(FolderOf(WithoutScheme(url)));
      if folder != "" then folder else n
  }

  lemma {:induction false} LastSlashAt(a: string, b: string)
    requires Clean(b)
    ensures LastSlash(a + "/" + b) == |a|
  {
    var s := a + "/" + b;
    if b != "" {
      assert s[..|s| - 1] == a + "/" + b[..|b| - 1];
      LastSlashAt(a, b[..|b| - 1]);
    }
  }

  /** The folder of a file, or the one above when the folder holds the use cases. */
  lemma FolderExactly(above: string, parent: string, folder: string, file: string)
    requires Clean(parent) && Clean(folder) && Clean(file)
    ensures FolderOf(above + "/" + parent + "/" + folder + "/" + file)
         == if ToLower(folder) == "cases" then parent else folder
  {
    var path := above + "/" + parent;
    var inner := path + "/" + folder;
    LastSlashAt(inner, file);
    LastSlashAt(path, folder);
    LastSlashAt(above, parent);
    assert (inner + "/" + file)[..|inner|] == inner;
    assert inner[|path| + 1..] == folder && inner[..|path|] == path && path[|above| + 1..] == parent;
  }

  lemma NoSlashAtEnd(s: string)
    requires s != "" && s[|s| - 1] != '/'
    ensures TrimSuffix(s, "/") == s
  {
    assert s[|s| - 1..] == [s[|s| - 1]];
  }

  /** A path is what follows the scheme, if there is one. */
  lemma SchemeExactly(scheme: string, path: string, url: string)
    requires path != "" && path[|path| - 1] != '/' && url == scheme + path
    ensures Index(url, "://") < 0 ==> WithoutScheme(url) == url
    ensures Index(url, "://") >= 0 && Index(url, "://") + 3 == |scheme| ==> WithoutScheme(url) == path
  {
    var n := Index(url, "://");
    assert url[|url| - 1] == path[|path| - 1];
    NoSlashAtEnd(url);
    assert url[|scheme|..] == path;
  }

  /** A segment is the workflow's own name, unless there is none or it is that of a run; then
      it is the folder of the file. */
  lemma SegmentExactly(name: string, url: string, above: string, parent: string, folder: string, file: string)
    requires Clean(parent) && Clean(folder) && Clean(file) && folder != "" && parent != "" && url != ""
    requires WithoutScheme(url) == above + "/" + parent + "/" + folder + "/" + file
    ensures Segment(name, url)
         == if Normalize(name) !in {"", "run"} then Normalize(name)
            else Normalize(if ToLower(folder) == "cases" then parent else folder)
  {
    FolderExactly(above, parent, folder, file);
  }

  // ---- The stacks ----

  function Cut<T>(s: seq<T>): seq<T> {
    if s == [] then s else s[..|s| - 1]
  }

  function Move(s: Stacks, e: Event): Stacks {
    match e
    case WorkflowStart(name, url) => s.(workflows := s.workflows + [Segment(name, url)])
    case WorkflowEnd(_) => s.(workflows := Cut(s.workflows))
    case TaskStart(name, tag) => s.(tasks := s.tasks + [name], tags := s.tags + [tag])
    case TaskEnd(_) => s.(tasks := Cut(s.tasks), tags := Cut(s.tags))
    case _ => s
  }

  // ---- Names ----

  function Segments(workflows: seq<string>): (r: seq<string>)
    ensures forall i :: 0 <= i < |r| ==> Clean(r[i])
  {
    if workflows == [] then []
    else
      var n := Normalize(workflows[0]);
      (if n != "" then [n] else []) + Segments(workflows[1..])
  }

  function TaskSegments(tasks: seq<string>, tags: seq<Option<MetaTag>>): (r: seq<string>)
    ensures forall i :: 0 <= i < |r| ==> Clean(r[i])
  {
    if tasks == [] then []
    else
      var n := Normalize(tasks[0]);
      var tagged := if tags != [] && tags[0].Some? && tags[0].value.tag != "" then
                      n + "_" + Normalize(tags[0].value.tag) else n;
      (if n != "" then [tagged] else []) + TaskSegments(tasks[1..], if tags == [] then [] else tags[1..])
  }

  function GroupKey(s: Stacks): string {
    Join(s.workflows, "/") + "|" + Join(s.tasks, "/")
  }

  function GroupPath(s: Stacks): (r: string)
    ensures Clean(r)
  {
    var parts := Segments(s.workflows) + TaskSegments(s.tasks, s.tags);
    var named := if parts == [] then ["main"] else parts;
    JoinIsClean(named, "_");
    Join(named, "_")
  }

  predicate IsRequest(m: Message) {
    HasSuffix(ToLower(m.typeName), "request")
  }

  predicate IsResponse(m: Message) {
    HasSuffix(ToLower(m.typeName), "response") || m.hasInit
  }

  const MAIN := Activity("", "", "", MetaTag("main", "", "", ""))

  function BaseOf(m: Message): string {
    if IsRequest(m) && HasSuffix(m.typeName, "Request") then TrimSuffix(m.typeName, "Request")
    else TrimSuffix(m.typeName, "Response")
  }

  /** The two fragments of a base name; one without an underscore, or with nothing after its
      first one, has only the first. */
  function Fragments(base: string): string {
    var i := Index(base, "_");
    if i < 0 || i + 1 == |base| then Normalize(if i < 0 then base else base[..i])
    else Normalize(base[..i]) + "_" + Normalize(base[i + 1..])
  }

  /** What follows the number in a file name. */
  function NameTail(m: Message, last: Activity): string {
    if !IsRequest(m) && !IsResponse(m) then ToLower(m.typeName) + ".json"
    else
      var service, action := Normalize(last.service), Normalize(last.action);
      var named := if service != "" && action != "" then service + "_" + action else Fragments(BaseOf(m));
      named + (if IsResponse(m) then "_response" else "_request") + ".json"
  }

  predicate ShouldWrite(m: Message) {
    match m.value
    case Nil => false
    case Known(e) => !e.TaskStart? && !e.TaskEnd?
    case Other => true
  }

  lemma {:induction false} SegmentsGrow(workflows: seq<string>, name: string)
    ensures Segments(workflows + [name]) == Segments(workflows) + if name == "" then [] else [Normalize(name)]
  {
    if workflows != [] {
      assert (workflows + [name])[1..] == workflows[1..] + [name];
      SegmentsGrow(workflows[1..], name);
    }
  }

  /** A task's part of the name of a group. */
  function Label(name: string, tag: Option<MetaTag>): string {
    if tag.Some? && tag.value.tag != "" then Normalize(name) + "_" + Normalize(tag.value.tag) else Normalize(name)
  }

  lemma {:induction false} TaskSegmentsGrow(tasks: seq<string>, tags: seq<Option<MetaTag>>, name: string, tag: Option<MetaTag>)
    requires |tasks| == |tags|
    ensures TaskSegments(tasks + [name], tags + [tag])
         == TaskSegments(tasks, tags) + if name == "" then [] else [Label(name, tag)]
  {
    if tasks == [] {
      assert tasks + [name] == [name] && tags + [tag] == [tag];
      assert [name][1..] == [] && TaskSegments([], [tag][1..]) == [];
    } else {
      assert (tasks + [name])[1..] == tasks[1..] + [name] && (tags + [tag])[1..] == tags[1..] + [tag];
      TaskSegmentsGrow(tasks[1..], tags[1..], name, tag);
    }
  }

  /** A stack on which nothing has a name. */
  predicate Unnamed(stack: seq<string>) {
    forall i :: 0 <= i < |stack| ==> stack[i] == ""
  }

  lemma {:induction false} UnnamedWorkflows(workflows: seq<string>)
    ensures Segments(workflows) == [] <==> Unnamed(workflows)
  {
    if workflows != [] {
      var rest := workflows[1..];
      UnnamedWorkflows(rest);
      assert Unnamed(workflows) <==> workflows[0] == "" && Unnamed(rest) by {
        assert forall i :: 0 < i < |workflows| ==> workflows[i] == rest[i - 1];
      }
      assert Segments(workflows) == [] <==> workflows[0] == "" && Segments(rest) == [];
    }
  }

  lemma {:induction false} UnnamedTasks(tasks: seq<string>, tags: seq<Option<MetaTag>>)
    ensures TaskSegments(tasks, tags) == [] <==> Unnamed(tasks)
    decreases |tasks|
  {
    if tasks != [] {
      var rest, more := tasks[1..], if tags == [] then [] else tags[1..];
      UnnamedTasks(rest, more);
      assert Unnamed(tasks) <==> tasks[0] == "" && Unnamed(rest) by {
        assert forall i :: 0 < i < |tasks| ==> tasks[i] == rest[i - 1];
      }
      assert TaskSegments(tasks, tags) == [] <==> tasks[0] == "" && TaskSegments(rest, more) == [];
    }
  }

  lemma {:induction false} JoinGrows(parts: seq<string>, last: string, separator: string)
    ensures Join(parts + [last], separator) == if parts == [] then last else Join(parts, separator) + separator + last
  {
    if |parts| > 1 {
      assert (parts + [last])[1..] == parts[1..] + [last];
      JoinGrows(parts[1..], last, separator);
      assert parts[0] + separator + (Join(parts[1..], separator) + separator + last)
          == parts[0] + separator + Join(parts[1..], separator) + separator + last;
    } else if |parts| == 1 {
      assert (parts + [last])[1..] == [last];
    }
  }

  /** A task that starts adds its name and its tag to the name of the group; one without a
      name adds nothing, and where nothing has a name the group is the main one. */
  lemma TaskExtendsPath(s: Stacks, name: string, tag: Option<MetaTag>)
    requires |s.tasks| == |s.tags|
    ensures var t := Move(s, TaskStart(name, tag));
      && (name == "" ==> GroupPath(t) == GroupPath(s))
      && (name != "" ==> GroupPath(t) == (if Unnamed(s.workflows) && Unnamed(s.tasks) then "" else GroupPath(s) + "_") + Label(name, tag))
    ensures Unnamed(s.workflows) && Unnamed(s.tasks) ==> GroupPath(s) == "main"
  {
    UnnamedWorkflows(s.workflows);
    UnnamedTasks(s.tasks, s.tags);
    TaskSegmentsGrow(s.tasks, s.tags, name, tag);
    var parts := Segments(s.workflows) + TaskSegments(s.tasks, s.tags);
    var t := Move(s, TaskStart(name, tag));
    if name != "" {
      assert Segments(t.workflows) + TaskSegments(t.tasks, t.tags) == parts + [Label(name, tag)];
      JoinGrows(parts, Label(name, tag), "_");
    } else {
      assert TaskSegments(s.tasks, s.tags) + [] == TaskSegments(s.tasks, s.tags);
    }
  }

  /** So does a workflow that starts where no task is open, with its segment. */
  lemma WorkflowExtendsPath(s: Stacks, name: string, url: string)
    requires s.tasks == []
    ensures var t := Move(s, WorkflowStart(name, url));
      var segment := Segment(name, url);
      && (segment == "" ==> GroupPath(t) == GroupPath(s))
      && (segment != "" ==> GroupPath(t) == (if Unnamed(s.workflows) then "" else GroupPath(s) + "_") + segment)
  {
    var ws, segment := Segments(s.workflows), Segment(name, url);
    NormalizeIsFinal(name);
    NormalizeIsFinal(FolderOf(WithoutScheme(url)));
    assert Normalize(segment) == segment;
    UnnamedWorkflows(s.workflows);
    SegmentsGrow(s.workflows, segment);
    assert forall w: seq<string> :: w + TaskSegments([], s.tags) == w;
    JoinGrows(ws, segment, "_");
  }

  // ---- What a file is called ----

  lemma LowerConcat(a: string, b: string)
    ensures ToLower(a + b) == ToLower(a) + ToLower(b)
  {
  }

  lemma NormalizeConcat(a: string, b: string)
    ensures Normalize(a + "_" + b) == Normalize(a) + "_" + Normalize(b)
  {
  }

  lemma SuffixOf(a: string, b: string)
    ensures HasSuffix(a + b, b) && TrimSuffix(a + b, b) == a
  {
    assert (a + b)[|a + b| - |b|..] == b && (a + b)[..|a|] == a;
  }

  /** No type is both that of a request and, by its name, that of a response. */
  lemma OneKind(s: string)
    ensures !(HasSuffix(s, "request") && HasSuffix(s, "response"))
  {
    if |s| >= 8 {
      assert s[|s| - 7..][6] == s[|s| - 1] && s[|s| - 8..][7] == s[|s| - 1];
      assert "request"[6] == 't' && "response"[7] == 'e';
    }
  }

  /** A type whose name ends in Request is that of a request, whatever precedes. */
  lemma RequestType(m: Message, base: string)
    requires m.typeName == base + "Request"
    ensures IsRequest(m) && BaseOf(m) == base && (IsResponse(m) <==> m.hasInit)
  {
    LowerConcat(base, "Request");
    assert ToLower("Request") == "request";
    SuffixOf(base, "Request");
    SuffixOf(ToLower(base), "request");
    OneKind(ToLower(m.typeName));
  }

  lemma ResponseType(m: Message, base: string)
    requires m.typeName == base + "Response"
    ensures !IsRequest(m) && BaseOf(m) == base && IsResponse(m)
  {
    LowerConcat(base, "Response");
    assert ToLower("Response") == "response";
    SuffixOf(base, "Response");
    SuffixOf(ToLower(base), "response");
    OneKind(ToLower(m.typeName));
  }

  lemma CutAt(s: string, i: nat)
    requires i + 1 <= |s| && s[i..i + 1] == "_"
    ensures s == s[..i] + "_" + s[i + 1..]
  {
    assert s[i] == s[i..i + 1][0];
  }

  /** The fragments of a base name are the whole name, unless its first underscore ends it. */
  lemma FragmentsExactly(base: string)
    requires base == "" || Index(base, "_") != |base| - 1
    ensures Fragments(base) == Normalize(base)
  {
    var i := Index(base, "_");
    if i >= 0 {
      CutAt(base, i);
      NormalizeConcat(base[..i], base[i + 1..]);
    }
  }

  /** The file of a request or a response is named after the last activity, or after its type
      when that activity does not name both a service and an action. */
  lemma NamedExactly(m: Message, base: string, last: Activity)
    requires m.typeName == base + "Request" || m.typeName == base + "Response"
    requires base == "" || Index(base, "_") != |base| - 1
    ensures NameTail(m, last)
         == (if last.service != "" && last.action != "" then Normalize(last.service) + "_" + Normalize(last.action)
             else Normalize(base))
            + (if m.typeName == base + "Response" || m.hasInit then "_response" else "_request") + ".json"
  {
    if m.typeName == base + "Request" {
      RequestType(m, base);
    } else {
      ResponseType(m, base);
    }
    FragmentsExactly(base);
  }

  lemma EndsInKind(named: string, kind: string)
    ensures HasSuffix(named + kind + ".json", kind + ".json")
  {
    assert named + kind + ".json" == named + (kind + ".json");
    SuffixOf(named, kind + ".json");
  }

  /** A response is told by its type in any case of letters or by closing another event, a
      request by its type; any other file has the name of its type. */
  lemma KindExactly(m: Message, last: Activity)
    ensures var lower, tail := ToLower(m.typeName), NameTail(m, last);
      if HasSuffix(lower, "response") || m.hasInit then HasSuffix(tail, "_response" + ".json")
      else if HasSuffix(lower, "request") then HasSuffix(tail, "_request" + ".json")
      else tail == lower + ".json"
  {
    var service, action := Normalize(last.service), Normalize(last.action);
    var named := if service != "" && action != "" then service + "_" + action else Fragments(BaseOf(m));
    if IsRequest(m) || IsResponse(m) {
      EndsInKind(named, if IsResponse(m) then "_response" else "_request");
    }
  }

  // ---- One event ----

  function Process(s: State, m: Message): State {
    if !m.value.Known? then s
    else
      match m.value.event
      case ActivityStart(a) =>
        var popped := s.ended && s.activities != [];
        s.(activities := (if popped then Cut(s.activities) else s.activities) + [a], current := Some(a),
           ended := if popped then false else s.ended)
      case ActivityEnd(_) => s.(ended := true)
      case e => s.(stacks := Move(s.stacks, e))
  }

  /** A group gets the next free number when it is first written to. */
  function GroupNumber(groups: map<string, nat>, key: string): nat {
    if key in groups then groups[key] else |groups| + 1
  }

  function GroupDir(s: State): (r: string)
    ensures Clean(r)
  {
    Sprintf4(GroupNumber(s.groups, GroupKey(s.stacks))) + "_" + GroupPath(s.stacks)
  }

  function FileNumber(files: map<string, nat>, dir: string): nat {
    (if dir in files then files[dir] else 0) + 1
  }

  function Write(s: State, m: Message): State {
    var key := GroupKey(s.stacks);
    var dir := GroupDir(s);
    var number := FileNumber(s.files, dir);
    var asked := IsRequest(m) || IsResponse(m);
    var last := if s.current.Some? then s.current.value else MAIN;
    s.(current := if asked then Some(last) else s.current,
       groups := s.groups[key := GroupNumber(s.groups, key)],
       files := s.files[dir := number],
       written := s.written + [Entry(s.stacks, dir, number, Sprintf4(number) + "_" + NameTail(m, last))])
  }

  function Handle(s: State, m: Message): State {
    var p := Process(s, m);
    if ShouldWrite(m) then Write(p, m) else p
  }

  function HandleAll(s: State, ms: seq<Message>): State
    decreases |ms|
  {
    if ms == [] then s else HandleAll(Handle(s, ms[0]), ms[1..])
  }

  function Empty(): State {
    State(Stacks([], [], []), [], None, false, map[], map[], [])
  }

  // ---- File names do not collide ----

  type Groups = map<string, nat>

  type Files = map<string, nat>

  /** What is known about every file opened so far. */
  ghost predicate EntryOk(groups: Groups, files: Files, e: Entry) {
    && Clean(e.dir) && GroupKey(e.stacks) in groups && e.dir in files
    && e.dir == Sprintf4(groups[GroupKey(e.stacks)]) + "_" + GroupPath(e.stacks)
    && 1 <= e.number <= files[e.dir]
    && |e.name| >= 4 && e.name[..4] == Sprintf4(e.number)
  }

  ghost predicate GroupsOk(groups: Groups) {
    && (forall k :: k in groups ==> 1 <= groups[k] <= |groups|)
    && (forall k, l :: k in groups && l in groups && groups[k] == groups[l] ==> k == l)
  }

  ghost predicate LedgerOk(groups: Groups, files: Files, written: seq<Entry>) {
    && (forall i :: 0 <= i < |written| ==> EntryOk(groups, files, written[i]))
    && (forall i, j :: 0 <= i < j < |written| && written[i].dir == written[j].dir ==>
          written[i].number < written[j].number)
  }

  ghost predicate Inv(s: State) {
    GroupsOk(s.groups) && LedgerOk(s.groups, s.files, s.written)
  }

  lemma WriteKeepsInv(s: State, m: Message)
    requires Inv(s)
    ensures Inv(Write(s, m))
  {
    var t := Write(s, m);
    GroupsGrow(s.groups, GroupKey(s.stacks));
    var added := t.written[|s.written|];
    WrittenIsOk(s, m);
    LedgerGrows(s.groups, t.groups, s.files, s.written, added);
  }

  lemma WrittenIsOk(s: State, m: Message)
    ensures var t := Write(s, m); EntryOk(t.groups, t.files, t.written[|s.written|])
  {
    var t := Write(s, m);
    var added := t.written[|s.written|];
    assert added.name[..4] == Sprintf4(added.number);
  }

  lemma LedgerGrows(groups: Groups, more: Groups, files: Files, written: seq<Entry>, e: Entry)
    requires LedgerOk(groups, files, written) && forall k :: k in groups ==> k in more && more[k] == groups[k]
    requires e.number == FileNumber(files, e.dir) && EntryOk(more, files[e.dir := e.number], e)
    ensures LedgerOk(more, files[e.dir := e.number], written + [e])
  {
    var all, f := written + [e], files[e.dir := e.number];
    forall i | 0 <= i < |all|
      ensures EntryOk(more, f, all[i])
    {
      if i < |written| {
        assert EntryOk(groups, files, written[i]);
      }
    }
    forall i, j | 0 <= i < j < |all| && all[i].dir == all[j].dir
      ensures all[i].number < all[j].number
    {
      if j == |written| {
        assert EntryOk(groups, files, written[i]);
      }
    }
  }

  /** A new group gets a number of its own; the others keep theirs. */
  lemma GroupsGrow(groups: Groups, key: string)
    requires GroupsOk(groups)
    ensures var t := groups[key := GroupNumber(groups, key)];
      GroupsOk(t) && forall k :: k in groups ==> t[k] == groups[k]
  {
    var t := groups[key := GroupNumber(groups, key)];
    if key in groups {
      assert t == groups;
    } else {
      var n := |groups| + 1;
      NewKey(groups, key, n);
      forall k | k in t
        ensures 1 <= t[k] <= |t|
      {
        assert k == key || k in groups;
      }
      forall k, l | k in t && l in t && t[k] == t[l]
        ensures k == l
      {
        if k != key && l != key {
          assert groups[k] == groups[l];
        }
      }
    }
  }

  lemma NewKey(groups: Groups, key: string, n: nat)
    requires key !in groups
    ensures |groups[key := n]| == |groups| + 1
  {
    assert groups[key := n].Keys == groups.Keys + {key};
  }

  lemma ProcessKeepsInv(s: State, m: Message)
    requires Inv(s)
    ensures Inv(Process(s, m))
  {
    ProcessKeepsLedger(s, m);
  }

  lemma ProcessKeepsLedger(s: State, m: Message)
    ensures var p := Process(s, m);
      p.written == s.written && p.groups == s.groups && p.files == s.files
  {
  }

  lemma {:induction false} HandleAllKeepsInv(s: State, ms: seq<Message>)
    requires Inv(s)
    ensures Inv(HandleAll(s, ms))
    decreases |ms|
  {
    if ms != [] {
      ProcessKeepsInv(s, ms[0]);
      var p := Process(s, ms[0]);
      if ShouldWrite(ms[0]) {
        WriteKeepsInv(p, ms[0]);
      }
      var next := Handle(s, ms[0]);
      HandleAllKeepsInv(next, ms[1..]);
      assert HandleAll(s, ms) == HandleAll(next, ms[1..]);
    }
  }

  function PathOf(root: string, e: Entry): string {
    root + "/" + e.dir + "/" + e.name
  }

  /** Two files have the same path exactly when they are in the same directory, their numbers
      agree in the last four digits, and the rest of their names is the same. */
  lemma PathsCollideExactly(root: string, ms: seq<Message>, s: State, i: nat, j: nat)
    requires s == HandleAll(Empty(), ms) && i < |s.written| && j < |s.written|
    ensures var a, b := s.written[i], s.written[j];
      && |a.name| >= 4 && |b.name| >= 4
      && (PathOf(root, a) == PathOf(root, b)
          <==> a.dir == b.dir && a.number % 10000 == b.number % 10000 && a.name[4..] == b.name[4..])
  {
    HandleAllKeepsInv(Empty(), ms);
    EntriesCollide(root, s, s.written[i], s.written[j]);
  }

  lemma EntriesCollide(root: string, s: State, a: Entry, b: Entry)
    requires EntryOk(s.groups, s.files, a) && EntryOk(s.groups, s.files, b)
    ensures PathOf(root, a) == PathOf(root, b)
       <==> a.dir == b.dir && a.number % 10000 == b.number % 10000 && a.name[4..] == b.name[4..]
  {
    Sprintf4Injective(a.number, b.number);
    assert a.name == a.name[..4] + a.name[4..] && b.name == b.name[..4] + b.name[4..];
    if PathOf(root, a) == PathOf(root, b) {
      PathInjective(root, a.dir, a.name, b.dir, b.name);
    }
  }

  /** The number of files in a directory. */
  function Count(written: seq<Entry>, dir: string): nat {
    if written == [] then 0
    else
      var last := |written| - 1;
      Count(written[..last], dir) + if written[last].dir == dir then 1 else 0
  }

  /** The files of a directory are numbered from one on without a gap. */
  ghost predicate Counted(files: Files, written: seq<Entry>) {
    && (forall d :: (if d in files then files[d] else 0) == Count(written, d))
    && (forall i :: 0 <= i < |written| ==> written[i].number == Count(written[..i + 1], written[i].dir))
  }

  lemma CountGrows(files: Files, written: seq<Entry>, e: Entry)
    requires Counted(files, written) && e.number == FileNumber(files, e.dir)
    ensures Counted(files[e.dir := e.number], written + [e])
  {
    var all, f := written + [e], files[e.dir := e.number];
    assert all[..|written|] == written && all[..|all|] == all;
    forall d
      ensures (if d in f then f[d] else 0) == Count(all, d)
    {
      assert Count(all, d) == Count(written, d) + if e.dir == d then 1 else 0;
    }
    forall i | 0 <= i < |all|
      ensures all[i].number == Count(all[..i + 1], all[i].dir)
    {
      if i < |written| {
        assert all[..i + 1] == written[..i + 1];
      }
    }
  }

  lemma {:induction false} HandleAllCounts(s: State, ms: seq<Message>)
    requires Counted(s.files, s.written)
    ensures var t := HandleAll(s, ms); Counted(t.files, t.written)
    decreases |ms|
  {
    if ms != [] {
      ProcessKeepsLedger(s, ms[0]);
      var p, next := Process(s, ms[0]), Handle(s, ms[0]);
      if ShouldWrite(ms[0]) {
        CountGrows(p.files, p.written, next.written[|p.written|]);
      }
      HandleAllCounts(next, ms[1..]);
      assert HandleAll(s, ms) == HandleAll(next, ms[1..]);
    }
  }

  /** Over any sequence of events the files of a directory are numbered from one on, in the
      order in which they are opened. */
  lemma FilesAreCounted(ms: seq<Message>, i: nat)
    requires i < |HandleAll(Empty(), ms).written|
    ensures var w := HandleAll(Empty(), ms).written; w[i].number == Count(w[..i + 1], w[i].dir)
  {
    HandleAllCounts(Empty(), ms);
  }

  /** Over any sequence of events, two files have different paths as long as no directory
      holds more than 9999 files. */
  lemma PathsAreDistinct(root: string, ms: seq<Message>, s: State, i: nat, j: nat)
    requires s == HandleAll(Empty(), ms) && i < j < |s.written|
    requires forall d :: Count(s.written, d) <= 9999
    ensures PathOf(root, s.written[i]) != PathOf(root, s.written[j])
  {
    HandleAllKeepsInv(Empty(), ms);
    HandleAllCounts(Empty(), ms);
    assert Count(s.written, s.written[j].dir) <= 9999;
    EntriesDiffer(root, s, s.written[i], s.written[j]);
  }

  lemma EntriesDiffer(root: string, s: State, a: Entry, b: Entry)
    requires EntryOk(s.groups, s.files, a) && EntryOk(s.groups, s.files, b)
    requires s.files[b.dir] <= 9999 && (a.dir == b.dir ==> a.number < b.number)
    ensures PathOf(root, a) != PathOf(root, b)
  {
    EntriesCollide(root, s, a, b);
  }

  /** As long as there are at most 9999 groups, two files are in the same directory exactly
      when their groups and the normalized names of their groups are the same. */
  lemma DirectoriesAgreeExactly(ms: seq<Message>, s: State, i: nat, j: nat)
    requires s == HandleAll(Empty(), ms) && i < |s.written| && j < |s.written|
    requires |s.groups| <= 9999
    ensures var a, b := s.written[i], s.written[j];
      a.dir == b.dir <==> GroupKey(a.stacks) == GroupKey(b.stacks) && GroupPath(a.stacks) == GroupPath(b.stacks)
  {
    HandleAllKeepsInv(Empty(), ms);
    EntriesAgree(s, s.written[i], s.written[j]);
  }

  lemma EntriesAgree(s: State, a: Entry, b: Entry)
    requires GroupsOk(s.groups) && |s.groups| <= 9999
    requires EntryOk(s.groups, s.files, a) && EntryOk(s.groups, s.files, b)
    ensures a.dir == b.dir <==> GroupKey(a.stacks) == GroupKey(b.stacks) && GroupPath(a.stacks) == GroupPath(b.stacks)
  {
    var m, n := s.groups[GroupKey(a.stacks)], s.groups[GroupKey(b.stacks)];
    Sprintf4Injective(m, n);
    DirectoryInjective(Sprintf4(m), GroupPath(a.stacks), Sprintf4(n), GroupPath(b.stacks));
  }

  lemma DirectoryInjective(a: string, b: string, c: string, d: string)
    requires |a| == |c|
    ensures a + "_" + b == c + "_" + d <==> a == c && b == d
  {
    var s, t := a + "_" + b, c + "_" + d;
    assert s[..|a|] == a && t[..|c|] == c && s[|a| + 1..] == b && t[|c| + 1..] == d;
  }

  // ---- What a group is ----

  /** Names that the two separators of a group's key do not occur in. */
  predicate PlainNames(names: seq<string>) {
    forall i :: 0 <= i < |names| ==> '/' !in names[i] && '|' !in names[i]
  }

  predicate Plain(s: Stacks) {
    PlainNames(s.workflows) && PlainNames(s.tasks)
  }

  /** A stack that holds nothing but an empty name looks like an empty one. */
  function Names(stack: seq<string>): seq<string> {
    if stack == [""] then [] else stack
  }

  predicate SameNames(s: Stacks, t: Stacks) {
    Names(s.workflows) == Names(t.workflows) && Names(s.tasks) == Names(t.tasks)
  }

  /** Stacks whose names are plain are of the same group exactly when the same workflows and
      the same tasks are open. */
  lemma GroupsAgreeExactly(s: Stacks, t: Stacks)
    requires Plain(s) && Plain(t)
    ensures GroupKey(s) == GroupKey(t) <==> SameNames(s, t)
  {
    PlainJoin(s.workflows);
    PlainJoin(t.workflows);
    if GroupKey(s) == GroupKey(t) {
      SameAtBar(Join(s.workflows, "/"), Join(s.tasks, "/"), Join(t.workflows, "/"), Join(t.tasks, "/"), '|');
      JoinInjective(s.workflows, t.workflows);
      JoinInjective(s.tasks, t.tasks);
    }
  }

  lemma {:induction false} PlainJoin(names: seq<string>)
    requires PlainNames(names)
    ensures '|' !in Join(names, "/")
  {
    if |names| > 1 {
      PlainJoin(names[1..]);
    }
  }

  lemma {:induction false} IndexOfBar(a: string, bar: char, b: string)
    requires bar !in a
    ensures Index(a + [bar] + b, [bar]) == |a|
  {
    var s := a + [bar] + b;
    if a == [] {
      assert s[..1] == [bar];
    } else {
      assert s[..1] == [a[0]] && s[1..] == a[1..] + [bar] + b;
      IndexOfBar(a[1..], bar, b);
    }
  }

  /** Two texts that are equal are equal on both sides of their first bar. */
  lemma SameAtBar(a: string, b: string, c: string, d: string, bar: char)
    requires bar !in a && bar !in c && a + [bar] + b == c + [bar] + d
    ensures a == c && b == d
  {
    IndexOfBar(a, bar, b);
    IndexOfBar(c, bar, d);
    var s, t := a + [bar] + b, c + [bar] + d;
    assert s[..|a|] == a && t[..|c|] == c && s[|a| + 1..] == b && t[|c| + 1..] == d;
  }

  lemma {:induction false} JoinInjective(a: seq<string>, b: seq<string>)
    requires PlainNames(a) && PlainNames(b) && Join(a, "/") == Join(b, "/")
    ensures Names(a) == Names(b)
  {
    SlashJoins(a);
    SlashJoins(b);
    if |a| > 1 {
      SameAtBar(a[0], Join(a[1..], "/"), b[0], Join(b[1..], "/"), '/');
      JoinInjective(a[1..], b[1..]);
      assert a == [a[0]] + a[1..] && b == [b[0]] + b[1..];
    }
  }

  lemma SlashJoins(names: seq<string>)
    requires PlainNames(names)
    ensures |names| > 1 <==> '/' in Join(names, "/")
  {
    if |names| > 1 {
      assert Join(names, "/")[|names[0]|] == '/';
    }
  }

  function Split(text: string): (r: seq<string>)
    ensures r != [] && Join(r, "/") == text && forall i :: 0 <= i < |r| ==> '/' !in r[i]
  {
    if text == "" then [""]
    else
      var rest := Split(text[1..]);
      if text[0] == '/' then [""] + rest else
        var joined := [[text[0]] + rest[0]] + rest[1..];
        assert joined[1..] == rest[1..];
        joined
  }

  lemma {:induction false} JoinHolds(names: seq<string>, i: nat, c: char)
    requires i < |names| && c in names[i]
    ensures c in Join(names, "/")
  {
    if |names| > 1 && i > 0 {
      JoinHolds(names[1..], i - 1, c);
    }
  }

  /** A name that is not plain makes stacks with other names be of the same group: a slash
      splits a name in two, and a bar ends the workflows elsewhere. */
  lemma OddNamesMerge(s: Stacks) returns (t: Stacks)
    requires !Plain(s)
    ensures GroupKey(t) == GroupKey(s) && !SameNames(s, t)
  {
    var w, k := Join(s.workflows, "/"), Join(s.tasks, "/");
    if i :| 0 <= i < |s.workflows| && '/' in s.workflows[i] {
      t := s.(workflows := Split(w));
      assert Names(s.workflows)[i] == s.workflows[i];
    } else if i :| 0 <= i < |s.tasks| && '/' in s.tasks[i] {
      t := s.(tasks := Split(k));
      assert Names(s.tasks)[i] == s.tasks[i];
    } else if i :| 0 <= i < |s.workflows| && '|' in s.workflows[i] {
      JoinHolds(s.workflows, i, '|');
      var p :| 0 <= p < |w| && w[p] == '|';
      t := BarMoved(s, p);
    } else {
      var i :| 0 <= i < |s.tasks| && '|' in s.tasks[i];
      JoinHolds(s.tasks, i, '|');
      var p :| 0 <= p < |k| && k[p] == '|';
      t := BarMoved(s, |w| + 1 + p);
    }
  }

  /** Every bar in a key may be the one between the workflows and the tasks. */
  lemma BarMoved(s: Stacks, p: nat) returns (t: Stacks)
    requires p < |GroupKey(s)| && GroupKey(s)[p] == '|' && p != |Join(s.workflows, "/")|
    ensures GroupKey(t) == GroupKey(s) && !SameNames(s, t)
  {
    var key := GroupKey(s);
    t := Stacks([key[..p]], [key[p + 1..]], []);
    assert key == key[..p] + [key[p]] + key[p + 1..];
    assert Join(Names(t.workflows), "/") == key[..p];
    assert Join(Names(s.workflows), "/") == Join(s.workflows, "/");
  }

  /** Files written under different open workflows or tasks are in different directories, even
      when the normalized names are the same, as long as there are at most 9999 groups and the
      names are plain. */
  lemma GroupsAreSeparate(ms: seq<Message>, s: State, i: nat, j: nat)
    requires s == HandleAll(Empty(), ms) && i < |s.written| && j < |s.written|
    requires |s.groups| <= 9999 && Plain(s.written[i].stacks) && Plain(s.written[j].stacks)
    ensures var a, b := s.written[i], s.written[j];
      a.dir == b.dir <==> SameNames(a.stacks, b.stacks) && GroupPath(a.stacks) == GroupPath(b.stacks)
  {
    DirectoriesAgreeExactly(ms, s, i, j);
    GroupsAgreeExactly(s.written[i].stacks, s.written[j].stacks);
  }

  // ---- The logger object ----

  class Logger {
    const activities: S.Activities
    var workflowStack: seq<string>
    var taskStack: seq<string>
    var templateTagStack: seq<Option<MetaTag>>
    var groupSeq: map<string, nat>
    var groupSeqCounter: nat
    var fileSeq: map<string, nat>
    var activityEnded: bool
    ghost var written: seq<Entry>

    constructor ()
      ensures Valid() && fresh(activities) && View() == Empty()
    {
      activities := new S.Activities();
      workflowStack, taskStack, templateTagStack := [], [], [];
      groupSeq, groupSeqCounter, fileSeq, activityEnded := map[], 0, map[], false;
      written := [];
    }

    ghost predicate Valid()
      reads this
    {
      groupSeqCounter == |groupSeq|
    }

    function Open(): Stacks
      reads this
    {
      Stacks(workflowStack, taskStack, templateTagStack)
    }

    ghost function View(): State
      reads this, activities
    {
      State(Open(), activities.activities, activities.activity, activityEnded, groupSeq, fileSeq, written)
    }

    /** The activity that ended is taken off when the next one starts. */
    method StartActivity(a: Activity)
      requires Valid()
      modifies this`activityEnded, activities
      ensures var ended := old(activityEnded && |activities.activities| > 0);
        && activities.activities == (if ended then Cut(old(activities.activities)) else old(activities.activities)) + [a]
        && activities.activity == Some(a) && activityEnded == (old(activityEnded) && !ended)
    {
      if activityEnded && |activities.activities| > 0 {
        activityEnded := false;
        var popped := activities.Pop();
      }
      activities.Push(a);
    }

    method ProcessEvent(m: Message)
      requires Valid()
      modifies this`workflowStack, this`taskStack, this`templateTagStack, this`activityEnded, activities
      ensures Valid() && View() == Process(old(View()), m)
    {
      if !m.value.Known? {
        return;
      }
      match m.value.event
      case ActivityStart(a) =>
        StartActivity(a);
      case ActivityEnd(_) =>
        activityEnded := true;
      case WorkflowStart(name, url) =>
        workflowStack := workflowStack + [Segment(name, url)];
      case WorkflowEnd(_) =>
        if |workflowStack| > 0 {
          workflowStack := workflowStack[..|workflowStack| - 1];
        }
      case TaskStart(name, tag) =>
        taskStack := taskStack + [name];
        templateTagStack := templateTagStack + [tag];
      case TaskEnd(_) =>
        if |taskStack| > 0 {
          taskStack := taskStack[..|taskStack| - 1];
        }
        if |templateTagStack| > 0 {
          templateTagStack := templateTagStack[..|templateTagStack| - 1];
        }
      case _ =>
    }

    method NextGroupDir() returns (dir: string)
      requires Valid()
      modifies this`groupSeq, this`groupSeqCounter
      ensures Valid() && dir == GroupDir(old(View()))
      ensures var key := GroupKey(Open()); groupSeq == old(groupSeq)[key := GroupNumber(old(groupSeq), key)]
    {
      var key := GroupKey(Open());
      if key !in groupSeq {
        groupSeqCounter := groupSeqCounter + 1;
        groupSeq := groupSeq[key := groupSeqCounter];
        assert groupSeq.Keys == old(groupSeq).Keys + {key};
      }
      dir := Sprintf4(groupSeq[key]) + "_" + GroupPath(Open());
    }

    method NextFileSeq(dir: string) returns (n: nat)
      modifies this`fileSeq
      ensures n == FileNumber(old(fileSeq), dir) && fileSeq == old(fileSeq)[dir := n]
    {
      n := (if dir in fileSeq then fileSeq[dir] else 0) + 1;
      fileSeq := fileSeq[dir := n];
    }

    method LastActivity() returns (a: Activity)
      modifies activities
      ensures activities.activities == old(activities.activities) && activities.activity == Some(a)
      ensures a == if old(activities.activity).Some? then old(activities.activity).value else MAIN
    {
      if activities.activity.None? {
        activities.activity := Some(MAIN);
      }
      a := activities.activity.value;
    }

    /** Returns the directory and the name of the file the event goes to, if any. */
    method OnEvent(m: Message) returns (file: Option<(string, string)>)
      requires Valid()
      modifies this, activities
      ensures Valid() && View() == Handle(old(View()), m)
      ensures file.Some? <==> ShouldWrite(m)
      ensures file.Some? ==>
        var e := written[|written| - 1]; file.value == (e.dir, e.name)
    {
      ProcessEvent(m);
      file := None;
      if !ShouldWrite(m) {
        return;
      }
      file := WriteEvent(m);
    }

    /** The number and the name of the next file of a directory. */
    method LeafFileName(m: Message, dir: string) returns (n: nat, name: string)
      modifies this`fileSeq, activities
      ensures n == FileNumber(old(fileSeq), dir) && fileSeq == old(fileSeq)[dir := n]
      ensures var asked := IsRequest(m) || IsResponse(m);
        var last := if old(activities.activity).Some? then old(activities.activity).value else MAIN;
        && name == Sprintf4(n) + "_" + NameTail(m, last)
        && activities.activities == old(activities.activities)
        && activities.activity == if asked then Some(last) else old(activities.activity)
    {
      n := NextFileSeq(dir);
      if IsRequest(m) || IsResponse(m) {
        var last := LastActivity();
        name := Sprintf4(n) + "_" + NameTail(m, last);
      } else {
        name := Sprintf4(n) + "_" + ToLower(m.typeName) + ".json";
        assert name == Sprintf4(n) + "_" + (ToLower(m.typeName) + ".json");
      }
    }

    method WriteEvent(m: Message) returns (file: Option<(string, string)>)
      requires Valid()
      modifies this`groupSeq, this`groupSeqCounter, this`fileSeq, this`written, activities
      ensures Valid() && View() == Write(old(View()), m)
      ensures var e := written[|written| - 1]; file == Some((e.dir, e.name))
    {
      var dir := NextGroupDir();
      var n, name := LeafFileName(m, dir);
      written := written + [Entry(Open(), dir, n, name)];
      file := Some((dir, name));
    }
  }
}
