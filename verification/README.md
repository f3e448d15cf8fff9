# Workflow engine, event logger and criteria: a verified model

endly runs workflows: trees of tasks whose actions send requests to services. A task can
name a catch task and a deferred task, an action can jump to another task, exit the
workflow, switch to a task or an action, or run another workflow. Every run reports itself
by start and end events, from which a logger rebuilds the hierarchy and derives file names.
Conditions are written in a small criteria language that is parsed, rotated for precedence
and compiled to closures. This project models these parts in Dafny, with four smaller ones
(task selection, template expansion, the copy loop of the transformer example, and version
matching), and proves properties of them for every input and every run.

## How the model is built

- `Tasks`, `Events`: the static workflow tree with lookup and selection; events and
  well-nested words of events.
- `Engine`: the engine as functions of a state. Whatever lies outside (does a criterion
  hold, can variables be applied, what does a service reply, does a request turn out to be
  a goto, an exit, a switch or a nested run) is answered by an arbitrary function of time,
  so every result holds for every behaviour of the outside, under two restrictions. Gotos,
  switches and nested runs stop at some time; under it the engine terminates, by the measure
  (dispatches left and pending goto, size of the tree), which every function carries in its
  contract (`Later`). And in every run request that is made, the deferred tasks of what it
  selects, and of the tasks a goto can reach, can be found (`Callable`); nothing is asked of
  registered workflows that are not run.
- `Service`: the engine with the program's objects: processes, activity stacks, the shared
  process stack and contexts are classes updated in place. Each method is proved to do what
  the function of the same name in `Engine` says. A nested run does not have the caller's
  process in its frame, so it cannot change it. `runNode` takes its handler as a closure in
  the program; here it is split into the part before the handler and the part after it.
- `Laws`: what each answer of the outside decides: which nodes are entered, how often an
  action runs, which actions of a list run, and which question decides the outcome. These
  laws speak of runs and answers, not of the functions of `Engine` that combine them.
- `EngineFacts`, `TryCatch`, `Theorems`, `Scheduled`: what holds of every run.
- `Text`, `Logger`, `Hierarchy`: the logger as a function and as an object, and the results
  that connect it with the engine.
- `Async`, `Levels`, `Nesting`, `Plays`, `Sequential`, `Orders`, `Launch`: runs in which async
  actions are at work at any depth. A play is the shape of such a run: events in sequence and
  in brackets, and for every task an interleaving of its own actions with one replayed buffer
  for each of its expanded async actions, which may contain interleavings in turn. Every run
  of the engine is a play whose buffers are silent; the goroutines of a task, as a state
  machine that starts, buffers, replays and waits, publish exactly the words of its play.
- `Ast`, `Parser`, `Compiler`, `CriteriaParser`: the criteria language; the last one is the
  parser with a cursor and binary nodes that are filled and rotated in place.
- `Selection`, `Template`, `Copy`, `Version`: the smaller parts.

Facts about the code that the results make precise:

- A goto from a deferred task comes too late for its tasks node: the target is still
  scheduled when the node has ended, and at the root of a workflow nothing runs it
  (`Scheduled.DeferredGotoIsLost` is an input; `Scheduled.LateGotoStays` says exactly when,
  as long as the process does not switch to another task).
- The copy loop can finish with a record left in the channel, because it reads the channel
  length before the completion flag (`Copy.FinishedCanLoseARecord`); exactly when is
  `Copy.FinishedPersistsSeen`.
- A stated maximum version is compared like a minimum (`model/os.go:42-43`), although its
  name says otherwise: version 2 is within a maximum of 1 (`Version.MaximumIsExceeded`), and
  the name is right exactly for the maximum itself (`Version.MaximumAgrees`).
- An expression has the caller's default when all its variables are missing, unless the left
  side of some `||` is a negation or a test for containment that counts as true without them
  (`Compiler.DefaultWhenAllMissing`; `Compiler.NegationHidesMissing` is an input).
- `:/` and `:!/` are not each other's negation: only the first drops slashes at the end of its
  right side (`Compiler.SlashesUnpair`).
- Version numbers compare as versions do exactly while the fragments with a weight, other than
  the first, are between 0 and 99 (`Version.OrderIsExact`, `Version.WideFragmentsBreakOrder`).
- Two groups of the logger can have the same key when a name holds a slash or a bar, and only
  then (`Logger.OddNamesMerge`, `Logger.GroupsAgreeExactly`).
- A file is named after the activity that started last, even when that one has ended and an
  outer one goes on (`Hierarchy.FilesFollow`).
- The four-digit code wraps: numbers collide exactly modulo 10000
  (`Text.Sprintf4Injective`, `Logger.PathsCollideExactly`).
- A deferred task that is a group can be lost when tasks are selected by name
  (`Selection.GroupHandlerIsLost` is an input). It is found under every selector if and only
  if it is found when nothing is named (`Selection.RunnableExactly`).
- A handler of a nested group that is selected becomes a task of the root, and is run in
  ordinary position unless the root has a handler of that name
  (`Selection.LiftedHandlerIsTried`; `Selection.CatchIsTried` is an input).
- Any two async runs of a task can publish events that are not well nested
  (`Orders.AsyncTaskInterleaves`); when no order of events can is `Orders.NestedExactly`. The
  logger copes because it only counts starts and ends (`Levels.LevelIsSafe`).
- A negation sign between two operands is read as inequality (`Compiler.BangIsInequality`).

## Model

| member | source | states |
|---|---|---|
| Tasks.FoundIsSmaller | model/tasks.go:58-74 | a task found by name has that name and is no larger than the list it was found in |
| Selection.FoundIsFirst | model/tasks.go:58-74 | a task found by name is at some path of the tree, no path before it in preorder has a task of that name, and none is found only when no path has one |
| Tasks.TrimExactly | model/tasks.go:62 | a name that is looked up loses space at both ends, all of it and nothing else |
| Tasks.FoundIsOk | model/tasks.go:58-74 | a task found in a tree whose deferred tasks all resolve is itself such a tree |
| Events.ScanAppend | service/workflow/logger.go:47-73 | matching brackets over two words is matching over the first and then over the second |
| Events.NestedAnywhere | service/workflow/logger.go:47-73 | a well-nested word leaves whatever was open before it untouched |
| Events.NestedBracket | service/workflow/service.go:112-116 | a start event, a well-nested word and the matching end event are well nested |
| Laws.GateExactly | service/workflow/service.go:531-549 | a node is entered if and only if its process is neither terminated nor waiting for a goto, the run criterion is empty or answered to hold without an error, and applying the init variables at the time after it has no error; a node that is not entered ends with the first of these errors or without one, and changes nothing but the clock |
| Laws.LeaveExactly | service/workflow/service.go:550-564 | the post variables are applied exactly when the handler succeeded; the handler's error comes before theirs, and the logging flag is put back |
| Laws.RefusedTaskIsQuiet | service/workflow/service.go:531-549 | a task whose node is not entered emits its start and its end event and nothing else, and has the outcome of the gate |
| Laws.ActivityExactly | service/workflow/service.go:112-116 | an action emits events if and only if its node is entered, and the first one is the start of its activity with caller, service, action and tag |
| Laws.PendingActionsAreQuiet | service/workflow/service.go:531-534 | while the process is terminated or a task is scheduled, a list of actions emits nothing and leaves the process as it was |
| Laws.RepeatIsChain | model/repeater.go:84-121 | an action is a chain of runs, each from where the one before it led; the chain ends with the first run that fails, whose extraction fails, or after which the exit criterion is answered to hold or by an error, and has as many runs as the repeat count says when there is none; its outcome is that of the last run, of its extraction or of its exit criterion |
| Laws.ActionsWalk | service/workflow/service.go:194-231 | the actions of a list have their turns in order until one fails: an action is dropped while the tag of a skip lasts, passed over when it is async or its tag is filtered out, starts a skip when its skip criterion is answered to hold, fails when that is answered by an error, and is repeated otherwise |
| Laws.RequestExactly | service/workflow/service.go:118-138 | the outcome of a request, case by case on the answer: a request that cannot be built and a failing reply fail with the time of the question, an exit and a goto to a known task succeed and do that to the process, an unknown name fails by itself, and a switch or a nested run has the outcome of what it runs |
| Laws.ActionsAsk | service/workflow/service.go:194-231 | the questions of a list of actions follow each other in time without a gap, and the first one that is answered by an error ends the list with that error |
| Laws.DecidesOk | service/workflow/service.go:121-128 | so the list succeeds if and only if none of its questions is answered by an error |
| Laws.LeafTaskAsks | service/workflow/service.go:140-265 | the same for a task without subtasks, with the questions of its node |
| Laws.TaskExactly | service/workflow/service.go:140-265 | a task that is entered emits its start, what its body emits and its end; its outcome is the body's, or that of the post variables when the body succeeded |
| Laws.BodyExactly | service/workflow/service.go:183-194 | a task runs its subtasks first and, when they succeed or there are none, its own actions from the state they lead to |
| Laws.FilterExactly | model/process.go:33-39 | the tag filter is on if and only if an action of the task has a tag of the process; nothing else but the task is set |
| Laws.TagExactly | service/workflow/service.go:152-165 | a task reports its own tag, or else that of its first action that is not async, or none |
| Laws.OrdinaryExactly | service/workflow/service.go:614-617 | the tasks that are tried in order are those named neither as catch task nor as deferred task |
| Laws.SelectionExactly | service/workflow/service.go:504-517 | a run request that names an unknown task runs the whole workflow if the selection is inherited, and nothing otherwise |
| Laws.WorkflowExactly | service/workflow/service.go:406-451 | a registered workflow is a start event with its name and place, its nested run and an end event, with the outcome of the run; an unknown one is an error and no event |
| Laws.NestedExactly | service/workflow/service.go:453-479 | a nested run has a new process with the tags of the caller and of the request, the caller's logging flag only if the context is shared, and no other part of the caller's process |
| Laws.RootExactly | service/workflow/service.go:518-521 | a workflow is the gate of its node, its selected tasks, and its post variables when they succeed |
| Engine.DropTagIsSuffix | service/workflow/service.go:218-222 | a skip drops exactly the leading actions of the tag and nothing after the first action of another tag |
| Engine.RunActions | service/workflow/service.go:194-231 | the list of actions terminates, with the measure never raised |
| Engine.RunTask | service/workflow/service.go:140-265 | a task terminates for every outside world, by (dispatches left and pending goto, size of the task) |
| Engine.RunTasks | service/workflow/service.go:606-634 | a tasks node terminates under the same measure, gotos included |
| Engine.RunWorkflow | service/workflow/service.go:400-529 | a nested run terminates under the same measure |
| EngineFacts.AccountedCompose | model/process.go:28-49 | ownership of requests, finality of exit and accounting of terminations and gotos hold of two stretches of a run if they hold of each |
| EngineFacts.GoodCompose | service/workflow/service.go:606-634 | everything kept by two consecutive stretches is kept by both together |
| EngineFacts.GoodBracket | service/workflow/service.go:112-116 | publishing a start event before and its end event after a good stretch gives a good stretch |
| EngineFacts.GoodSignal | service/workflow/service.go:668-690 | an exit terminates the dispatching process and nothing else; a goto schedules and does nothing else |
| EngineFacts.GoodActions | service/workflow/service.go:194-231 | running actions emits a well-nested word, restores activities and logging, and terminates the process only by its own exit request, after which it dispatches nothing |
| EngineFacts.GoodRepeat | model/repeater.go:112-121 | the same for the repetition of one action |
| EngineFacts.GoodAction | service/workflow/service.go:80-138 | the same for one action, on success and on error |
| EngineFacts.GoodTask | service/workflow/service.go:140-265 | the same for a task, whatever its actions and subtasks do |
| EngineFacts.GoodTasks | service/workflow/service.go:606-634 | the same for a tasks node with its catch and deferred tasks |
| EngineFacts.GoodCatch | service/workflow/service.go:575-604 | the same for the catch task |
| EngineFacts.GoodCall | service/workflow/service.go:453-458 | what a nested process does is good for its caller, whose process and logging come back unchanged |
| EngineFacts.GoodWorkflow | service/workflow/service.go:400-529 | the same for a nested workflow run, on every path |
| TryCatch.TryOne | service/workflow/service.go:621-623 | trying a task is one run of it, followed by exactly one run of the catch task when it fails and there is one |
| TryCatch.TryList | service/workflow/service.go:614-627 | handlers are never run in ordinary position, the others are tried in order, a failed run is left uncaught only without a catch task, and without an error only an exit stops the list |
| TryCatch.TryCatchFinally | service/workflow/service.go:606-634 | a tasks node is a lawful body, then the scheduled task if the body succeeded and scheduled one, then exactly one run of the deferred task if named; the body's error hides the deferred task's |
| Theorems.SessionIsSafe | service/workflow/service.go:400-529 | in every session the events are one well-nested word, no process dispatches after its exit request, and every request belongs to a process created in the session |
| Theorems.TerminatedTaskIsQuiet | service/workflow/service.go:531-534 | a task of a terminated process only publishes its start and end and asks the outside nothing |
| Theorems.TerminatedListIsQuiet | service/workflow/service.go:614-620 | a list of tasks of a terminated process does nothing |
| Theorems.TerminatedTasksAreQuiet | service/workflow/service.go:606-634 | a tasks node of a terminated process only marks its deferred task and drops a scheduled task |
| Theorems.ErrorFreeBodyIsUnscheduled | service/workflow/service.go:628-633 | when the body of a tasks node ends without an error, no task is left scheduled |
| Theorems.ErrorFreeRunIsUnscheduled | service/workflow/service.go:606-634 | when a tasks node ends without an error, nothing is scheduled before its deferred task, and after it only if the deferred task asked for it |
| Scheduled.LateGotoStays | service/workflow/service.go:606-634 | after an error-free run of any tasks node a task is still scheduled if and only if one was asked for after the last body, unless the process switched to another task in that time |
| Scheduled.DeferredGotoStays | service/workflow/service.go:606-634 | in particular, for a deferred task without subtasks, if and only if it asked for one |
| Scheduled.DeferredGotoIsLost | service/workflow/service.go:676-690 | a tasks node whose run ends without an error and leaves a task scheduled that the deferred task asked for |
| Scheduled.KeepsActions | service/workflow/service.go:194-231 | when a list of actions ends without an error, with switches to actions but none to a task, a task is scheduled afterwards exactly when one was before or one was asked for |
| Scheduled.NestedAsksNothing | service/workflow/service.go:453-458 | a nested run dispatches nothing in the name of its caller and leaves its process as it was |
| Service.Activities.Push | model/activities.go:19-24 | appends the activity and makes it current |
| Service.Activities.Pop | model/activities.go:47-59 | removes the last activity; the one below becomes current, and nothing changes when there is none |
| Service.Process.SetTask | model/process.go:33-39 | sets the task and turns the tag filter on exactly when one of its actions has a tag of the process |
| Service.Processes.Pop | model/process.go:100-109 | removes and returns the last process, or returns null on an empty stack |
| Service.Processes.Last | model/process.go:112-119 | the process pushed last, null exactly when there is none |
| Service.Context.Clone | context.go:95-114 | a clone shares the process stack and has no logging flag |
| Service.Engine.Run | service/workflow/service.go:327-342 | a session started on fresh objects publishes exactly the trace of the function, well nested and with final exits |
| Service.Engine.EnterNode | service/workflow/service.go:531-549 | does to process, context and clock what Engine.EnterNode says, whose answer Laws.GateExactly determines |
| Service.Engine.LeaveNode | service/workflow/service.go:550-564 | does what Engine.LeaveNode says, which Laws.LeaveExactly determines, and restores the logging flag |
| Service.Engine.SkipGroup | service/workflow/service.go:218-222 | the index jump of a skip leads to the first action of another tag |
| Service.Engine.RunActions | service/workflow/service.go:194-231 | the index-jumping loop equals the recursive Engine.RunActions and leaves the process stack as it was |
| Service.Engine.Repeat | model/repeater.go:112-121 | the repetition loop equals Engine.Repeat, whose runs Laws.RepeatIsChain counts |
| Service.Engine.RunAction | service/workflow/service.go:80-138 | equals Engine.RunAction, whose outcome is that of the questions in Laws.LeafTaskAsks and Laws.RequestExactly; pushes and pops balance |
| Service.Engine.ExitWorkflow | service/workflow/service.go:668-674 | terminates the process at the top of the stack, which is the running one |
| Service.Engine.RunGoto | service/workflow/service.go:676-690 | schedules the task found by name in the running process, or fails and changes nothing |
| Service.Engine.RunTask | service/workflow/service.go:140-265 | equals Engine.RunTask and leaves the process stack as it was |
| Service.Engine.RunTasks | service/workflow/service.go:606-634 | equals Engine.RunTasks, deferred task included |
| Service.Engine.RunList | service/workflow/service.go:614-627 | the loop over tasks equals Engine.RunList |
| Service.Engine.Catch | service/workflow/service.go:575-604 | equals Engine.Catch |
| Service.Engine.RunWorkflow | service/workflow/service.go:400-529 | equals Engine.RunWorkflow without the caller's process in its frame, and restores the process stack |
| Service.Engine.RunOnTop | service/workflow/service.go:453-458 | the new process is on the stack for exactly the time of its run |
| Service.Engine.RunSelected | service/workflow/service.go:504-521 | runs the selected tasks, or fails on an unknown task name, as Engine.RunSelected says |
| Text.Sprintf4IsLastDigits | service/workflow/logger.go:132-135 | the code of a number is its last four decimal digits, zero padded |
| Text.Sprintf4Injective | service/workflow/logger.go:132-135 | two numbers have the same code exactly when they agree modulo 10000 |
| Text.PathInjective | service/workflow/logger.go:258-260 | directory and file name can be recovered from a path when directories have no slash |
| Text.NormalizeIsFinal | service/workflow/logger.go:76-84 | normalizing is idempotent: the result is lower case, has no slash, dash or blank, and keeps every character that already was of that kind |
| Logger.GroupsGrow | service/workflow/logger.go:119-128 | a new group gets a number of its own, the others keep theirs, and numbers stay between one and the number of groups |
| Logger.WriteKeepsInv | service/workflow/logger.go:119-186 | writing keeps group numbers unique and file numbers increasing in every directory |
| Logger.PathsCollideExactly | service/workflow/logger.go:119-186 | over any event sequence two files share a path exactly when directory, number modulo 10000 and rest of the name agree |
| Logger.FilesAreCounted | service/workflow/logger.go:137-143 | over any event sequence the files of a directory are numbered from one on without a gap, in the order in which they are opened |
| Logger.PathsAreDistinct | service/workflow/logger.go:119-186 | over any event sequence all file paths differ while no directory exceeds 9999 files |
| Logger.GroupsAgreeExactly | service/workflow/logger.go:86-90 | for names without a slash or a bar, two stacks have the same key if and only if the same workflows and the same tasks are open; a stack with one empty name counts as an empty stack |
| Logger.OddNamesMerge | service/workflow/logger.go:86-90 | for stacks with any other name there are stacks with other names and the same key |
| Logger.DirectoriesAgreeExactly | service/workflow/logger.go:119-130 | over any event sequence with at most 9999 groups, two files share a directory if and only if the keys and the normalized names of what was open agree |
| Logger.GroupsAreSeparate | service/workflow/logger.go:119-130 | so files written under different open workflows or tasks, with such names, are in different directories, even when the normalized names coincide, and files under the same ones with the same normalized names are in the same directory |
| Logger.SegmentExactly | service/workflow/logger.go:200-239 | a workflow's segment is its normalized name, or for a run and for no name the normalized folder of its file, and the one above a folder named cases |
| Logger.TaskExtendsPath | service/workflow/logger.go:92-117 | a task that starts adds its normalized name, and its tag if it has one, to the name of the group, and nothing when it has no name; where nothing has a name the group is the main one |
| Logger.WorkflowExtendsPath | service/workflow/logger.go:92-117 | so does a workflow where no task is open, with its segment |
| Logger.NamedExactly | service/workflow/logger.go:150-184 | the file of a request or a response is named after the service and the action of the last activity, or after its type when one of them is missing; an event that closes another is a response |
| Logger.KindExactly | service/workflow/logger.go:145-186 | the name of a file ends in response if its type does, in any case of letters, or its event closes another; else in request if its type does; any other file has the name of its type |
| Logger.Logger.ProcessEvent | service/workflow/logger.go:32-74 | changes the three stacks and the activities as Logger.Process says |
| Logger.Logger.NextGroupDir | service/workflow/logger.go:119-130 | returns the directory of the current group, as Logger.GroupsAgreeExactly tells groups apart, numbering a new group with the next number |
| Logger.Logger.NextFileSeq | service/workflow/logger.go:137-143 | returns the next number of the directory and records it |
| Logger.Logger.LeafFileName | service/workflow/logger.go:145-186 | takes the next number of the directory and names the file after it and the current activity, which becomes the main one when a request or a response has none |
| Logger.Logger.OnEvent | service/workflow/logger.go:248-259 | does what Logger.Handle says and names a file exactly for the events that are written |
| Hierarchy.FeedScan | service/workflow/logger.go:47-73 | while brackets match, the logger's stacks are those at the start with the open workflows and tasks on top |
| Hierarchy.StacksFollow | service/workflow/logger.go:47-73 | at every prefix of a well-nested word the stacks mirror what is open, and after it they are restored |
| Hierarchy.StacksMirror | service/workflow/logger.go:47-73 | the stacks hold the segments of the open workflows and the names and tags of the open tasks, in the order of their start events |
| Hierarchy.FilesFollow | service/workflow/logger.go:248-268 | after messages whose brackets match, an event of a task opens no file, and any other event opens one, which belongs to exactly the workflows and tasks open at that moment and is named after its number and the activity that started last |
| Hierarchy.TaskRestoresLogger | service/workflow/service.go:166-264 | running a task leaves the logger's stacks as they were, whatever other events without structure come in between |
| Hierarchy.SessionRestoresLogger | service/workflow/service.go:426-451 | after a session the logger's stacks are empty |
| Hierarchy.TagsMatchTasks | service/workflow/logger.go:56-73 | task stack and template tag stack always have equal length |
| Async.AsyncActions | model/task.go:88-107 | the nested loops compute the expansion of async actions with a repeat count |
| Async.ExpansionConservesRuns | model/task.go:88-107 | expansion conserves the total repeat count and leaves no action that repeats |
| Async.ExpansionInOrder | model/task.go:88-107 | the expanded actions of an action stand behind those of the actions before it, as many as it repeats but at least one, each that action without the repetition |
| Levels.LevelBracket | service/workflow/service.go:166-264 | a start event and its end event around a word in which starts and ends balance give such a word |
| Levels.NestedIsLevel | service/workflow/logger.go:47-73 | in a well-nested word starts and ends balance |
| Levels.ShuffleIsLevel | context.go:299-306 | starts and ends balance in every interleaving of words in which they do |
| Levels.ShuffleAlone | model/msg/events.go:12-18 | a word and silence elsewhere have exactly one interleaving |
| Nesting.ShufflesAreNested | service/workflow/service.go:267-295 | all interleavings of well-nested words are well nested if and only if every start event of one is closed by every end event of another |
| Levels.LevelIsSafe | service/workflow/logger.go:47-73 | while a balanced word is read the logger's stacks never drop below their content at the start, and after it they equal it |
| Levels.InterleavingIsSafe | service/workflow/service.go:267-295 | the same for every interleaving of any number of balanced words |
| Plays.ProducedIsLevel | service/workflow/service.go:140-313 | every word of every play is balanced, however deep interleavings lie in interleavings |
| Orders.NestedExactly | service/workflow/service.go:140-313 | all words of a play are well nested if and only if wherever runs go on beside each other the start events of each are closed by the end events of the others |
| Orders.QuietIsNested | service/workflow/service.go:140-313 | in particular when the async actions are silent |
| Orders.AsyncTaskInterleaves | service/workflow/service.go:267-295 | a task without subtasks and with any two async runs has a play with a word that is not well nested |
| Plays.OwnRunsAreBounded | model/task.go:88-107 | beside its sequential runs, a task launches no more than its async actions ask for, repetitions included |
| Plays.MessagesAreSafe | service/workflow/logger.go:248-259 | over messages whose structure is balanced, at every moment the logger keeps what was open before, and in the end it has exactly that, whatever else is published in between |
| Plays.AsyncTaskStaysOpen | service/workflow/service.go:166-264 | from its start event to its end event a task itself stays open, whatever its async actions publish |
| Plays.AsyncRunIsSafe | service/workflow/service.go:140-313 | for every play, of a task, a workflow or anything else, with async actions at any depth, and every word of it, the logger keeps what was open before it while it runs and has exactly that afterwards |
| Launch.StepKeepsInv | service/workflow/service.go:267-313 | every step of the task or of a goroutine keeps what each sequence has published and still has to publish equal to what it emits, in order, and the group counter equal to the goroutines not done |
| Launch.EndedIsShuffle | service/workflow/service.go:234-252 | when the wait is over, every event of the task and of every async action has been published, in an interleaving of their sequences |
| Launch.RunsEnd | service/workflow/service.go:267-313 | every run of the goroutines is finite, and some step can be made until the task has ended |
| Launch.EveryShuffleIsPublished | service/workflow/service.go:267-295 | every interleaving is what some run of the goroutines publishes |
| Launch.ForkIsExact | service/workflow/service.go:234-313 | the words of a fork are exactly those that its goroutines can publish |
| Sequential.ActionsPlayed | service/workflow/service.go:194-231 | what the engine emits when it runs a list of actions is a word of a play of these actions |
| Sequential.TaskPlayed | service/workflow/service.go:140-265 | the same for a task, in whose play every async buffer is silent |
| Sequential.NodePlayed | service/workflow/service.go:606-634 | the same for a tasks node with its handlers and the task scheduled by a goto |
| Sequential.WorkflowPlayed | service/workflow/service.go:400-529 | the same for a nested run, of a workflow of the registry and the tasks the request selects |
| Sequential.SessionPlayed | service/workflow/service.go:400-529 | the trace of a session is a word of a play of its workflow |
| Selection.SelectIsPicked | model/tasks.go:18-55 | selection returns, in preorder, exactly the allowed leaves and the children of allowed groups |
| Selection.AllowedExactly | model/tasks.go:22-37 | what may be selected from a node are the names given and the names of its catch task and its deferred task |
| Selection.NamedLeafIsCovered | model/tasks.go:18-55 | every leaf named by the selector is at or below a selected task |
| Selection.RunnableExactly | model/tasks.go:18-55 | the deferred task of a workflow can be found under every selector if and only if it can be found when nothing is named |
| Selection.MoreNamesFindMore | model/tasks.go:18-55 | a selection with more names finds every name that one with fewer names finds |
| Selection.LeafHandlerIsRunnable | model/tasks.go:26-37 | in particular when the deferred task is a child without subtasks |
| Selection.RunnableIsCallable | service/workflow/service.go:504-521 | such a workflow meets what every run request needs |
| Selection.GroupHandlerIsLost | model/tasks.go:18-55 | an input: a deferred task that is a group of leaves of other names can be found when the workflow is run in full and cannot when its one other task is selected by name |
| Selection.HandlerIsPicked | model/tasks.go:18-55 | a leaf that is a handler of a nested group is selected, whatever is named, if and only if no group above its own is selected as a whole |
| Selection.LiftedHandlerIsTried | service/workflow/service.go:504-521 | such a handler then stands among the tasks of the root and is run in ordinary position if and only if the root has no handler of that name |
| Selection.CatchIsTried | model/tasks.go:39-53 | an input: in a group of a task and its catch task only the task is tried, in the selection of that task both are |
| Selection.SelectTasks | model/tasks.go:18-55 | the loop and recursion compute the selection |
| Selection.SelectEach | model/tasks.go:39-53 | so does the loop over the children |
| Parser.NormalizeKeepsOrder | model/criteria/parser/criteria.go:86-102 | rotation keeps the in-order sequence of tokens |
| Parser.NormalizeIsOk | model/criteria/parser/criteria.go:86-102 | rotation below a parsed right side gives a canonical chain |
| Parser.OperandIsKept | model/criteria/parser/criteria.go:117-167 | a complete operand is parsed, its print is its tokens, and the cursor stands behind it |
| Parser.ChainIsKept | model/criteria/parser/criteria.go:26-84 | a complete sequence is parsed to a canonical chain that prints as the sequence |
| Parser.CriteriaAreKept | model/criteria/parser/criteria.go:10-24 | every complete token sequence is parsed, and printing the tree gives the tokens back |
| Parser.PrintedRoot | model/criteria/parser/criteria.go:10-24 | parsing the print of a canonical tree gives the tree back |
| Parser.PrintedChain | model/criteria/ast/binary.go:10-12 | the same for a chain of operators |
| Parser.PrintedOperand | model/criteria/ast/unary.go:8-10 | the same for an operand, with any tokens after it |
| CriteriaParser.NormalizeBinary | model/criteria/parser/criteria.go:86-102 | the in-place rotation terminates and turns the tree into its normalized form |
| CriteriaParser.ExpectOperand | model/criteria/parser/criteria.go:117-167 | moves the cursor and returns the operand as the functional parser does |
| CriteriaParser.ParseQualify | model/criteria/parser/criteria.go:26-84 | fills the node with the chain of the functional parser |
| CriteriaParser.ParseCriteria | model/criteria/parser/criteria.go:10-24 | returns the tree of the functional parser, or nothing when that fails |
| Compiler.DefinedOperandsMean | model/criteria/compiler/binary.go:65-276 | on defined operands "<", "<=", ">" and ">=" hold as the numbers of left and right side compare, equality holds when the right side converted to the type of the left is the left, and the logical operators and containment are those of the converted values |
| Compiler.MeaningIsExact | model/criteria/compiler/binary.go:65-276 | every tree with supported operators has the value that its meaning gives it, operators and missing operands included, and the flag of Compiler.FlagIsExact |
| Compiler.EvaluateMeans | model/criteria/evaluator.go:37-70 | a complete expression answers whether its tree is true, unless nothing in it is defined and there is no such or as in Compiler.FlagIsExact; then it answers the default |
| Compiler.ErrorsExactly | model/criteria/evaluator.go:37-70 | an expression is an error if and only if it cannot be parsed, its deciding operator is unsupported, or evaluation reaches such an operator; its answer is then the default |
| Compiler.ContainsExactly | model/criteria/compiler/binary.go:207-212 | containment holds if and only if the text occurs at some position |
| Compiler.TrimSlashesExactly | model/criteria/compiler/binary.go:209-211 | the right side of ":/" loses the slashes at its end, all of them and nothing else |
| Compiler.OperatorsArePaired | model/criteria/compiler/binary.go:65-276 | on defined operands comparisons turn around with their sides, and comparison, equality and containment by name have their negations; what each of them compares is in Compiler.DefinedOperandsMean |
| Compiler.SlashesUnpair | model/criteria/compiler/binary.go:190-232 | on defined operands ":/" and ":!/" are each other's negation exactly when dropping the slashes at the end of the right side makes no difference |
| Compiler.BothHold | model/criteria/compiler/binary.go:190-232 | "abc" and "c/" satisfy both |
| Compiler.CompileAgrees | model/criteria/compiler/compiler.go:21-49 | the compiled closure equals direct evaluation in every state; an unsupported operator at the root fails when the closure is made |
| Compiler.OperandAgrees | model/criteria/compiler/operand.go:18-65 | the same for operands, where a nested failure becomes an error only when evaluated |
| Compiler.Reaches | model/criteria/compiler/binary.go:256-276 | evaluation fails exactly when it reaches an unsupported operator, which an or with a true left side prevents |
| Compiler.RootIsCompilable | model/criteria/compiler/compiler.go:21-67 | every tree the parser builds can be compiled |
| Compiler.FlagIsExact | model/criteria/compiler/binary.go:65-276 | for every tree with supported operators the flag is set exactly when a leaf is defined or a tree that is true without anything defined is the left side of an or; without the flag the value is true exactly for such a tree |
| Compiler.NegationHidesMissing | model/criteria/compiler/unary.go:13-23 | a negated missing variable to the left of an or: nothing is defined, and the result is true with the flag set |
| Compiler.DefaultWhenAllMissing | model/criteria/evaluator.go:37-70 | for every complete expression with supported operators: it yields every default it is given if and only if no leaf is defined and there is no such or; else the default does not matter and there is no error |
| Compiler.FormulaFolds | model/criteria/compiler/binary.go:234-276 | direct evaluation of a chain is the right fold over its atoms |
| Compiler.ParsedFormulaFolds | model/criteria/parser/criteria.go:10-102 | relational atoms joined by logical operators, or a single one, parse to the right-associative chain; its closure can be made exactly when the deciding operator is supported, and computes the right fold with and and or of equal precedence, or the truth of a single operand |
| Compiler.BangIsInequality | model/criteria/parser/criteria.go:52-64 | a negation sign between two operands parses as an operator and is evaluated as inequality |
| Copy.StepKeepsInv | example/etl/transformer/service.go:75-120 | every step of producer or consumer keeps order and conservation of records and the channel's capacity |
| Copy.RunKeepsInv | example/etl/transformer/service.go:181-232 | so does every interleaving |
| Copy.DrainNeverBlocks | example/etl/transformer/service.go:75-84 | a draining consumer always finds the record it asks for |
| Copy.FinishedPersistsSeen | example/etl/transformer/service.go:102-108 | at the end exactly the records sent before the last look at the channel length are persisted; all of them if and only if none was sent after it |
| Copy.FinishedCanLoseARecord | example/etl/transformer/service.go:102-108 | a run that finishes with a record left in the channel |
| Version.NormalizeVersion | model/os.go:46-54 | the loop computes the weighted sum |
| Version.NormalIsValue | model/os.go:46-54 | the sum is the base-100 value of the truncated or padded version |
| Version.ValueOrder | model/os.go:46-54 | base-100 values are ordered as their digits are lexicographically, the leading digit being any number |
| Version.NormalOrder | model/os.go:46-54 | normalized versions are ordered as the padded fragments lexicographically when the fragments with a weight, other than the first, have at most two digits |
| Version.OrderIsExact | model/os.go:46-54 | a version compares rightly with all such versions if and only if it is one |
| Version.WideIsMisordered | model/os.go:46-54 | a version with a larger fragment has the same number as one that is lexicographically above it |
| Version.WideFragmentsBreakOrder | model/os.go:46-54 | 1.100 and 2.0 have the same number |
| Version.Matches | model/os.go:17-44 | the chain of conditions computes MatchesSpec |
| Version.MatchesExactly | model/os.go:17-44 | a system matches exactly when kind agrees, its version is lexicographically below neither bound, and, with a minimum and no maximum, it does not start with a negative fragment |
| Version.MatchingIsExact | model/os.go:17-44 | a system without negative fragments is matched in this way against all targets if and only if the fragments of its version after the first have at most two digits |
| Version.MaximumIsExceeded | model/os.go:42-43 | version 2 is within a maximum of 1, and version 1 is not within a maximum of 2 |
| Version.MaximumAgrees | model/os.go:42-43 | for a system of the right kind that meets the minimum, matching agrees with the name of the maximum exactly when the version is the maximum |
| Template.TagIterator.Next | model/tag_iterator.go:23-26 | moves to the next index and tells whether it is in the range |
| Template.FlattenAction | model/template.go:285-320 | the recursion over a task tree computes its flattening |
| Template.Expand | model/template.go:69-107 | the loop terminates and appends the expansion of the whole range to the task's actions |
| Template.FlatIsPreorder | model/template.go:285-320 | flattening is the preorder of all actions computed with an explicit stack, each once and otherwise as it was, with the name and the index of the tag, the identity of the group of its parent task, and the description on the first action of each task |
| Template.ExpandedBlocks | model/template.go:73-107 | every index contributes one block, in order, its tree's preorder with those tags, and there is nothing else |

## Left out

- Engine.RunTask: passes over the task's async actions: it is the task's own sequence of events and outcome. Their events are the subject of `Plays` and `Launch`; what is not modelled is their effect on the shared process, and the propagation of their errors, which the code samples right after launching (`service/workflow/service.go:309-311`).
- Service.Engine.RunTask: equals `Engine.RunTask`, so it does not launch async actions or wait for them either.
- EngineFacts.GoodTask: speaks of that same sequence; with the events of async actions a task's word need not be well nested (`Orders.AsyncTaskInterleaves`), and `Plays.AsyncRunIsSafe` takes its place.
- Hierarchy.TaskRestoresLogger: speaks of that same sequence; `Plays.AsyncRunIsSafe` and `Plays.AsyncTaskStaysOpen` are the results with async actions.
- Service.Engine.Run: does not model the asynchronous branch of a run request (`service/workflow/service.go:328-338`), which runs the workflow on another goroutine and publishes into the same context, nor the event that marks the end of a session.
- Template.FlattenAction: does not model the tag that is also put on a task without one (`model/template.go:291-299`); these tasks are temporary, and only their actions are kept.
- In `Plays` the process is not part of the state: a play is any run the trees allow, whether or not a process was told to exit meanwhile and whichever running workflow a concurrent goto or switch finds its target in, so there may be more plays than runs. A listener is called for one event at a time.
- Compiler.OperatorsArePaired: conversions give a real number, so it and `Compiler.DefinedOperandsMean` do not cover a value that converts to NaN, for which a comparison and its complement are both false.
- Scheduled.LateGotoStays: says nothing about the scheduled task when the process switches to another task after the last body, since that task may have bodies of its own that take it up.
- Events that carry no structure (criteria, state changes, sleeping, errors) are not in the engine's trace; `Hierarchy` allows any of them between the structural ones.
- Workflow state, its variables and sharing: applying variables succeeds or fails as the outside decides. So does the comparison of a requested selector with the inherited one (`service/workflow/service.go:509`).
- A deferred name that does not resolve makes the program run a nil task; what a run request selects is required to resolve its own (`Selection.LeafHandlerIsRunnable` gives a simple way to ensure it).
- The error record that a catch task can read (`service/workflow/service.go:579-591`), the wrapping of error messages, and the tag filter across nested tasks beyond what the code's flag does.
- Lexing: tokens are given, with a block as one token. Operators that end in a slash switch the lexer to another mode and are not part of this model; the round trips are about sequences in which every operator has both operands.
- Comparing objects that cannot be compared, which panics, and calls of user functions in selectors; looking up a selector is abstract, as are the conversions between values.
- Reading, writing and listing files, creating directories, time stamps, sleeping, environment variables; the logger's files are named but not written. Lower case is that of ASCII letters.
- Machine integers: version numbers and counters are unbounded, while the program's wrap at 64 bits, and the power of ten is exact.
- Building task trees from a template's text, tag names and descriptions: they are parameters of `Template`.
- Template.Expand: requires a task tree for every index of the range; the program's loop does not move on past an index without an instance (`model/template.go:78-80`).
- Restoring state keys (`context.go:225-238`) and the listener that buffers events under a lock (`model/msg/events.go:12-18`) are modelled by their effect only: a buffer is replayed in order.
- All services other than the workflow service, the command line, reports and the web planner.
