# Verified models of the executor, the injection registry and their neighbours

This project states and proves what the core of the repository is for, in Dafny 4.11.
`dafny verify dfyconfig.toml` checks all of it.

## What is modelled

**The resumable task executor and its versioned data** (ExecutorModel, TaskNames, BranchStore, TaskSemantics,
ExecutorSafety, ExecutorPlan, ExecutorPositions, ExecutorSteps, ExecutorCourse, ExecutorProgress, ExecutorBook, ExecutorContent,
ExecutorKeys, ExecutorRerun, ExecutorRecovery, ExecutorSkipping, ExecutorWalk, ExecutorLimits, Versioning,
TaskExecutor).
A session runs a program: stages that call tasks, steps that write, `with skip_executed_stages(...)` scopes,
handlers, exceptions, interrupts, and the death of the process at any of these points; a body may also be struck -
by an interrupt or by death - between the log insertion of its task and the finish callbacks, where a commit gets
lost. A to-be-continued top-level task is swallowed and the session goes on after it, as in the source.
`TaskSemantics` is the meaning of one session as a function over log, branches, working content, frame stack,
latest step, skipping flag and read/write access. The log and the branches know tasks by the texts of their
coordinates; what a lookup finds has been read back from its text, which may fail or give other coordinates. The commit
of a step reads back the text that names its branch, and opening a context reads back the steps that the last process
marked as invoked; both may fail. The classes
in `Versioning` and `TaskExecutor` have the fields and loops of the source and update them in place; each
method is proved to do what the corresponding function says, with the several versioned back ends seen
as one store of tuples. The theorems are about all programs, all histories of sessions and all
environments; `TaskExecutor.Resume` carries the recovery theorem back to the objects.

Programs differ from session to session only in where they are interrupted: `Plan` is the depth-first list
of a program's steps with their effects, and ignores interruptions and skipping scopes.

What the data of a rerun depends on, with the exact condition of each:

- *Keys.* A step with `@` in a key on its path is legal and runs, but its commit raises after its row is logged: the
  effect is lost with nothing to interrupt it, and no context is ever opened again over what is left
  (`ExecutorLimits.UnreadableKey`, `ExecutorRerun.StaysClosed`). A step with a key such as `01` runs and commits; its rerun
  fails (`ExecutorRerun.LeadingZero`). For all programs, `ExecutorRerun.FirstRun` says which names can be run,
  `ExecutorRerun.RerunNeedsGoodNames` which can be run twice, `ExecutorRerun.FinishesIfPassable` over which disks,
  and `ExecutorKeys.StableSessions` that with stable keys (`TaskNames.StableKey`) nothing of the kind happens.
- *Commits that get lost* between the log insertion and the commit (`ExecutorLimits.LostCommitWindow`).
  `ExecutorRecovery.LostCommitsDecide`: after sessions that end at their first unfinished task, the data is right if and
  only if there were none.
- *Sessions that go on* after an unfinished task, because a handler catches or because a to-be-continued task is swallowed
  (`ExecutorLimits.ContinuingLosesSteps`). `ExecutorRecovery.OnCourseDecides`: the data of the next uninterrupted session
  is right if and only if every step in the log was recorded when the step planned before it was the latest one and
  had its record, and no commit was lost. (That no step was recorded while an earlier one lacked its record is not
  enough: a session that passes over an already recorded step, and records the next one, loses the former's effect too,
  `ExecutorLimits.PassingOver`.) If that session skips stages, what their rows remember must lead through the plan, too:
  `ExecutorWalk.SkippingDecides`.
  `ExecutorRecovery.DataIsRight` says the same of any session that is not killed, whatever it catches, by the log it
  leaves. The direction from right data to the log is about steps that leave marks: for other effects, steps in the
  wrong order may happen to give the same data.

Hypotheses of the recovery theorems, all of them preconditions: the plan is the same in every session and tasks are
submitted with their planned coordinates (`ExecutorBook.Faithful`, which `ExecutorKeys.OrderlyIsFaithful`
establishes for programs whose handlers surround single tasks or blocks that cannot fail), keys are stable,
and, for `Recovery`, sessions end at their first unfinished task (`ExecutorPlan.StopsAtFailure`).

Assumptions of the model itself: a new process starts on `main`, read-only, with an empty root frame (as
test/executor_data/dolt/test_reruns.py:366 relies on); branch names are injective in the text of the
coordinates; the clock may return anything, in any order; all back ends hold the same branches, and there
is at least one; checkouts of existing branches do not fail, nor do commits whose message can be made; keys have nothing
that is special in the SQL text of a commit (quotes, backslashes, colons before a word: the message is pasted into it,
thinking_executor_data/dolt/sqlalchemy/versioning.py:25-28); bodies change data only through writes that ask for
permission first (the deletions in thinking_executor_data/dolt/sqlalchemy/storage.py:176-192 do not ask, so that
nothing is proved of a body that deletes outside of a step). The protocol's open
question (thinking_executor_data/common/versioning.py:66) is settled: the branch that is checked
out is never the one to be deleted.

**Printing and parsing of coordinates** (CoordinatesText). Characters and integers are spelled out, with
`int`'s tolerance for spaces, signs, leading zeros and underscores. Round trips are stated as equivalences.

**The dependency injection registry, its order and its lifecycles** (Registry, TypeOrder, Lifecycle). What
reflection reports (`issubclass`, `is_concrete`, declared dependencies, primary hints, names) is an arbitrary
`Reflection` over a finite universe. `SimpleRegistry` keeps its table incrementally, and is compared with a
recomputation from scratch. The topological sort takes the least-named ready type. Lifecycles are an
explicit stack that is entered and unwound, compared with nested `with` statements; any call on any
component may raise, and each event records what its call raised. The declaration of `deinitialize` announces any base exception; the code passes
on regular exceptions only and tells a component `None` when an interrupt is on its way, and the model
follows the code (`Lifecycle.Given`).

**K-means** (KMeans), over exact reals, for any dimension and any number of points and centroids. Of the
square root only strict monotonicity is used. The centroids pass through a table of lists of integers, which gives their
whole parts back (clustering/kmeans/model.py:1, thinking_programming/serialization.py:171-172), so that the objective may
rise (`KMeans.ReadingBackRaises`); `KMeans.ReloadedRound` says exactly when.

**Typed serialisation** (Serialization) of natives, dates, UUIDs, enumerations, lists, dictionaries, records and
polymorphic records. Dates and UUIDs are assumed to survive on their own.

**The calculator** (Rpn): the parser for any list of operators and any reading of numbers, and the evaluator.

## Model

| member | source | states |
|---|---|---|
| ExecutorSafety.FreshBranch | thinking_executor_data/common/versioning.py:96-103 | From any clean store whose checked-out branch is earlier than the step, the fresh branch is created and checked out without an error, starts at the current head, and changes no other branch. |
| ExecutorSafety.RunSafe | thinking_executor/executor.py:192-262 | Running any program from any safe state, whatever raises - commits included -, is swallowed or dies, ends in a safe state: no protocol error, nothing taken from log, submissions or invocations, recorded branches and `main` untouched, frames restored except for the count of subtasks. |
| ExecutorSafety.ExecuteSafe | thinking_executor/executor.py:192-262 | The same for one `execute` call, on run, skip, refusal, unreadable rows, a missing branch, a commit that raises, failure, interrupt and to-be-continued. |
| ExecutorSafety.RunTaskSafe | thinking_executor/executor.py:219-243 | A task that runs is counted exactly once in its parent on every outcome but the death of the process, and a step ends on its own branch. |
| ExecutorSafety.ConcludeSafe | thinking_executor/executor.py:226-243 | After a body of any outcome, an interrupt after the log insertion, and a commit that raises: the frame is gone, the parent counts one more, access is read-only, the store is clean. |
| ExecutorSafety.StepBody | thinking_executor/executor_model.py:20-24 | Whatever the body of a step does, it changes the working content only: nested tasks are refused before anything happens. |
| ExecutorSafety.SkipSafe | thinking_executor_data/common/consistency.py:46-50 | A skip counts the task and checks out the branch that its row, read back, leads to; it fails if and only if there is no such branch, and then nothing but the count has changed. |
| ExecutorSafety.SessionsAreSafe | thinking_executor/executor.py:192-262 | For every history of arbitrary programs with arbitrary keys, commits that raise and contexts that cannot be opened included, every further session has no protocol error (failing fresh branch, double log record, nested writing, unmanaged writes), only appends to the log rows that bear the time of their insertion, never changes `main` or a recorded branch, submits orders that strictly increase unless a row could not be read, and ends read-only with one clean root frame unless it is killed. |
| ExecutorSafety.FrameDepths | thinking_executor/executor.py:146-166 | In every reachable stack frame k has a path of length k and an order of length k+1 that extend its parent's; a step frame is the innermost. |
| ExecutorSafety.OwnCoordinates | thinking_executor/executor.py:156-166 | At every point of its body, after any calls whatsoever, a task reads its own coordinates as the current ones. |
| ExecutorSafety.WritableInSteps | thinking_executor_data/common/consistency.py:52-62 | At every point of a task's body, whatever calls were made and however they ended, writing is allowed if and only if the task is a step. |
| ExecutorSafety.NewestIsNewest | thinking_executor/executor.py:272-274 | Of several records the lookup takes the latest to finish, and among equally late ones the one inserted first. |
| ExecutorSafety.FoundIsInLog | thinking_executor/executor.py:268-275 | What is found is a row with the text of the coordinates - coordinates and latest step read back, its finish time as it is -, and no such row finished later. |
| ExecutorSafety.LastRowCounts | thinking_executor/executor.py:268-284 | With a clock that goes on, the row found for a task after any history - a stage has one for each time it was run to its end - is the one inserted last. |
| ExecutorSafety.RunTaskOutcome | thinking_executor/executor.py:172-187 | What a task that runs hands on: only a top-level to-be-continued one is swallowed, every other exception of its body goes on to the caller, also an interrupt after the log insertion, and a finished step raises exactly if its name cannot be read. |
| ExecutorSafety.Refused | thinking_executor/executor.py:192-202 | Calls inside steps, and top-level calls whose key is no string, are refused before they are submitted. |
| ExecutorSafety.UnmanagedWritesAreFound | thinking_executor_data/common/consistency.py:64-71 | Writes found at the end of a stage are rolled back and raised exactly if the warning about them is an error. |
| ExecutorModel.ExtensionBeforeBump | thinking_executor/executor.py:204-221 | Every subtask of a task comes, in list order, before the next sibling of the task. |
| TaskNames.SameText | thinking_executor/executor_model.py:123-124 | Two coordinates have one name in the model if and only if they print the same. |
| TaskNames.ReloadIsParse | thinking_executor/data/tiny_schema.py:75-76 | Reading a name back is parsing the printed text, failures included. |
| TaskNames.StableByKeys | thinking_executor/executor_model.py:126-140 | The name of a task reads back as itself if and only if no key on its path contains `@` or has a piece between slashes that is an integer in an unusual spelling. |
| ExecutorKeys.SearchIsByTask | thinking_executor/executor.py:268-275 | In a log of tasks whose coordinates survive printing, the search by text finds nothing if and only if the task is not there, and otherwise that task. |
| ExecutorKeys.FoundIsTheTask | thinking_executor/data/tiny_schema.py:75-76 | The record found has the coordinates looked for if and only if they survive printing. |
| ExecutorKeys.StableSessions | thinking_executor/executor.py:192-262 | With stable keys, no session of any history of arbitrary programs fails in a lookup or for a missing branch, submitted orders strictly increase, and a session that nothing interrupts finishes. |
| ExecutorKeys.SessionTextsDiffer | thinking_executor_data/common/versioning.py:34-37 | Two tasks submitted in one session share a text, and with it a log entry or a branch name, only if the row of the earlier could not be read; with stable keys, never. |
| ExecutorKeys.OrderlyIsFaithful | thinking_executor/executor.py:203-243 | Programs with stable keys and one plan, whose handlers surround single tasks or blocks that cannot fail, submit every task with its planned coordinates in every session, whatever happens. |
| ExecutorRerun.FinishesIfPassable | thinking_executor/executor.py:192-262 | Over any safe disk, an uninterrupted program finishes if and only if the marks of the last process can be read back, every row of its tasks can, those of its steps lead to a branch, and the names of its steps can be read; otherwise reading back is what fails. |
| ExecutorRerun.FirstRun | thinking_executor_data/dolt/sqlalchemy/versioning.py:65-70 | A first run finishes if and only if the name of every planned step can be read; then every task is recorded and there are branches for the planned steps only. |
| ExecutorRerun.RerunNeedsGoodNames | thinking_executor_data/common/consistency.py:46-50 | A program can be run twice if and only if the names of its steps read back as themselves and those of its stages can be read. |
| ExecutorRerun.StaysClosed | thinking_executor/session.py:33-41 | Once a process has marked a step whose name cannot be read, later sessions of any programs do nothing. |
| ExecutorRerun.LeadingZero | thinking_executor/executor_model.py:126-140 | The top-level key `01`: the step runs, and the rerun fails. |
| ExecutorPlan.StepsWithin | thinking_executor/executor.py:203-221 | The planned steps of any program have strictly increasing orders, all between the start of the program and its next sibling. |
| ExecutorPlan.FollowsOwnPlan | thinking_executor/executor.py:203-221 | Walking any program, skipping a whole task advances the position in its plan by exactly the steps of that task. |
| ExecutorPositions.PlanByPosition | thinking_executor/executor.py:203-221 | A plan has exactly the steps of the program, and the order vector of a step is its position: the numbers, from zero, of the tasks around it and of the step among their siblings. |
| ExecutorSteps.StepOutcome | thinking_executor_data/common/consistency.py:52-62 | A step that runs finishes exactly if its writes are committed on its own branch, which is left at its start otherwise; it is read-only and clean afterwards. Logged and not committed is possible only by an interrupt, by death, or for a name that cannot be read, and such a step is never committed; an uninterrupted one finishes if its name can be read and is logged and lost if not. |
| ExecutorProgress.RunProgress | thinking_executor/executor.py:192-262 | From a world in step with the plan, a program that stops at its first unfinished task keeps the recorded steps a growing prefix, each recorded right after the one before, with stage records that remember the right step; recorded steps are not invoked; a finished run stands after its last planned step. |
| ExecutorBook.RunBooked | thinking_executor_data/common/consistency.py:46-62 | With stable names, and as long as every task is submitted with its planned coordinates, whatever is caught, swallowed or skipped: every branch holds the effects of recorded steps only, that of a recorded step its own on top of what the branch of the latest step before it held - without its own if its commit was lost. |
| ExecutorContent.InOrderOnCourse | thinking_executor_data/common/consistency.py:46-62 | If the branch of the last step holds all steps in order, then every step was recorded right after the one planned before it, and no commit was lost. |
| ExecutorRecovery.StoppingKeepsCourse | thinking_executor/executor.py:192-262 | However sessions that stop at their first unfinished task ended, the recorded steps are the first of the plan, each recorded right after the one before, and stage records are right. |
| ExecutorRecovery.BranchHistory | thinking_executor_data/common/consistency.py:46-62 | After any sessions of one plan whose log is on course, the branch of the i-th recorded step holds exactly the effects of the steps up to it on `main`, less those whose commit was lost. |
| ExecutorRecovery.FinishedSession | thinking_executor/executor.py:192-262 | A session that finishes after sessions that stopped at their first unfinished task invokes exactly the steps that were not recorded, in order, has a record for each planned step and no other, and ends on the last step's branch with the effects that were not lost. |
| ExecutorRecovery.Recovery | thinking_executor/executor.py:192-262 | After any sessions interrupted anywhere outside of the window between log insertion and commit, an uninterrupted one ends with the same content, branch, latest step, step records and branch heads as one uninterrupted run from scratch, and the content is every effect once, in order. |
| ExecutorRecovery.LostCommitsDecide | thinking_executor/executor.py:229-234 | After sessions that stop at their first unfinished task, the data of a finished session of marking steps is right if and only if no session was struck between the log insertion of a step and its commit. |
| ExecutorRecovery.InOrderData | thinking_executor/executor.py:192-262 | For any effects and any sessions of one plan: steps recorded in order and not lost give the ideal data. |
| ExecutorRecovery.DataIsRight | thinking_executor/executor.py:192-262 | For marking steps and any sessions of one plan, whatever they catch: the data is the ideal one if and only if every step was recorded right after the one planned before it, the last is the latest, and no commit was lost. |
| ExecutorRecovery.OnCourseDecides | thinking_executor/executor.py:183-187 | Before a session that nothing interrupts: it ends with the ideal data if and only if the log it finds is on course and no commit was lost. |
| ExecutorSkipping.SkipEqualsRerun | thinking_executor/executor.py:251-260 | Skipping a recorded stage and rerunning it with everything in it skipped give the same store, latest step, stack and invocations, and logs that differ by stage rows only, if and only if its steps are all recorded and its record remembers the last of them. |
| ExecutorSkipping.AccountedStage | thinking_executor/executor.py:251-260 | They do after sessions that stop at their first unfinished task, for any skipping scopes inside; this is the assertion that is commented out in the source. |
| ExecutorWalk.SkippingDecides | thinking_executor/executor.py:251-260 | Before a session that nothing interrupts and that may skip stages: it ends with the ideal data if and only if the log it finds is on course, no commit was lost, and the walk along the plan by what the rows of the skipped stages remember never runs a step from the wrong place, passes over no unrecorded step and ends at the last one. |
| ExecutorWalk.RunWalk | thinking_executor/executor.py:245-260 | At every point of such a session, recorded steps and latest step are where the walk over the disk says; once the walk has gone wrong, the log is off course or lacks a step for good. |
| ExecutorLimits.UnreadableKey | thinking_executor_data/common/versioning.py:39-48 | A top-level step with `@` in its key, uninterrupted: the session raises, the row is there, the effect is lost, and whatever is run later does nothing. |
| ExecutorLimits.LostCommitWindow | thinking_executor/executor.py:229-239 | A step struck by an interrupt or by death after its log insertion: the rerun finishes without invoking it and without its effect. |
| ExecutorLimits.ContinuingLosesSteps | thinking_executor/executor.py:183-187 | A session that goes on after an unfinished stage - by a handler, or without one if the stage is to be continued: the rerun finishes with the data of all steps but that of the stage. |
| ExecutorLimits.PassingOver | thinking_executor/executor.py:183-187 | The same over any disk on which the stage and the later step have no row, whether or not the step of the stage was recorded before. |
| Versioning.WritabilityManager.AllowWriting | thinking_executor_data/common/writability.py:26-29 | Opens writing exactly if it was closed. |
| Versioning.DoltVersioning.RenewBranch | thinking_executor_data/common/versioning.py:100-103 | One back end: the old branch deleted if there is one, a new one made; refused only for the checked-out branch, with nothing changed. |
| Versioning.VersioningManager.EnsureEmpty | thinking_executor_data/common/versioning.py:96-103 | The loop over the back ends is one fresh branch on the joint store, all or nothing. |
| Versioning.VersioningManager.CheckOut | thinking_executor_data/common/versioning.py:105-108 | The loop is one checkout of the joint store, all or nothing. |
| Versioning.VersioningManager.CommitAll | thinking_executor_data/common/versioning.py:110-113 | The loop is one commit of the joint store, all or nothing; it fails exactly if the branch that is checked out has a name that cannot be read. |
| Versioning.VersioningManager.Reset | thinking_executor_data/common/versioning.py:115-118 | The loop is one rollback of the joint store. |
| Versioning.IsJoint | thinking_executor_data/common/versioning.py:92-118 | Back ends with the same branches and checked-out branch as a store of tuples, and its contents, are together that store. |
| Versioning.JointEnsureEmpty | thinking_executor_data/common/versioning.py:96-103 | Fresh branches on all back ends keep them in lockstep and are one fresh branch on the joint store. |
| TaskExecutor.ConsistentDataVersioningCallback.OnTaskInvoked | thinking_executor_data/common/consistency.py:52-55 | The calls on the manager and the access flag have the effect and outcome that the session function has for an invocation. |
| TaskExecutor.ConsistentDataVersioningCallback.OnTaskFinished | thinking_executor_data/common/consistency.py:57-71 | The same for finishing: commit or rollback and read-only for a step, a commit that raises with writing still allowed, the check for unmanaged writes for a stage. |
| TaskExecutor.ConsistentDataVersioningCallback.OnTaskSkipped | thinking_executor_data/common/consistency.py:46-50 | The same for skipping: the branch of the step, or of the stage's latest step, as read back from the row; missing ones included. |
| TaskExecutor.SimpleTaskExecutor.FindExecutionLog | thinking_executor/executor.py:268-275 | The search by text, the reading back of every row found, and the sort give the newest record, nothing, or an error, as the lookup function says. |
| TaskExecutor.SimpleTaskExecutor.ConcludeTask | thinking_executor/executor.py:226-243 | Log insertion, callbacks, handler and `finally`, in place, as the session function has them, also for an interrupt or death after the insertion and for a finish callback that raises. |
| TaskExecutor.SimpleTaskExecutor.Execute | thinking_executor/executor.py:192-262 | One `execute` call on the objects leaves the state and outcome of the session function. |
| TaskExecutor.RunSession | thinking_executor/executor.py:125-130 | A new executor over the log, branches and marks left behind, if the marks can be read back, runs a program, on after swallowed tasks, to the state and outcome of one session. |
| TaskExecutor.Resume | thinking_executor/executor.py:192-262 | Crash recovery of the objects: after any interrupted history, an uninterrupted run leaves in each back end what one run from scratch would have, read-only. |
| CoordinatesText.ParseText | thinking_executor/executor_model.py:126-140 | The loops that read orders and rewrite path entries compute the parse function, errors included. |
| CoordinatesText.ParseMeans | thinking_executor/executor_model.py:126-140 | Exactly texts of a kind, a path without `@` and an order of integers are parsed, and into what these parts say. |
| CoordinatesText.ParseIntMeans | thinking_executor/executor_model.py:131-137 | A string is read as an integer if and only if it is a sign and digits with single underscores between them, spaces around, and then as the number that is printed with these digits but for leading zeros. |
| CoordinatesText.RoundTrip | thinking_executor/executor_model.py:123-140 | Parsing what was printed gives the coordinates back if and only if path and order are non-empty and string keys contain no `/` or `@` and do not read as integers. |
| CoordinatesText.ShowInjective | thinking_executor/executor_model.py:123-124 | No two such coordinates print the same. |
| CoordinatesText.TextDeterminesOrder | thinking_executor/executor_model.py:123-124 | For any keys whatsoever, equal texts have equal orders and types. |
| CoordinatesText.ReloadedNameIsStable | thinking_executor_data/common/consistency.py:49-50 | Coordinates reloaded from the log name the same branch if and only if the order is non-empty, no key contains `@` and no piece of the path text is a non-canonical integer. |
| Registry.SimpleRegistry.Register | thinking_injection/registry/simple.py:293-320 | Terminates on cyclic dependencies, knows afterwards the least set closed under dependencies that are not optional, returns exactly the new types, leaves the table equal to a recomputation and nothing else of the old types changed. |
| Registry.SimpleRegistry.Remove | thinking_injection/registry/simple.py:322-333 | The loops remove the types and every mention of them; table and closure stay right. |
| Registry.SimpleRegistry.FigureOutPrimary | thinking_injection/registry/simple.py:342-364 | By subclasses and what is known: a hinted known implementation; without one the sole known implementation; otherwise a concrete type itself; else none. The assertion on the way never fails. |
| Registry.RegisteredIsLeastClosed | thinking_injection/registry/simple.py:293-309 | Without removals the known types are the least set that holds them, the given ones and whatever any member cannot do without. |
| Registry.BatchesAgree | thinking_injection/registry/simple.py:293-320 | Two registrations, in either order or at once, give the same registry. |
| Registry.WithoutIsValid | thinking_injection/registry/simple.py:322-333 | Removal keeps the implementations equal to a recomputation and every stored dependency that must be met known. |
| Registry.WithoutIsLargest | thinking_injection/registry/simple.py:322-333 | Removal takes away every mention of the types, and nothing more: any part of the registry without mentions of them is left. |
| Registry.ConcreteHasPrimary | thinking_injection/registry/simple.py:342-364 | Every known concrete type implements itself and has a primary implementation, known and concrete. |
| Registry.PrimaryByReflection | thinking_injection/registry/simple.py:342-364 | The primary implementation is the one that hint, sole known implementation or the type itself say; there is none if and only if the type is an interface with no known hinted implementation and not exactly one known implementation. |
| TypeOrder.RegistryIsWellLinked | thinking_injection/registry/simple.py:366-374 | The index of a valid registry has known, concrete prerequisites throughout if and only if simple dependencies of known concrete types have primaries and their forced primaries are known and concrete. |
| TypeOrder.ChosenByReflection | thinking_injection/common/dependencies.py:126-171 | For a dependency on a collection exactly the known concrete subclasses of its target are injected, for any other exactly the primary implementation; only a simple one fails, and only without a primary. |
| TypeOrder.RequiredByReflection | thinking_injection/registry/simple.py:98-121 | A type requires another if and only if it is known and concrete and one of its dependencies injects that other, by subclasses, hints and what is known. |
| TypeOrder.InjectedComesFirst | thinking_injection/registry/simple.py:140-164 | Whatever a dependency of a type injects, every known implementation for a collection, comes before the type in the order. |
| TypeOrder.WithoutAgrees | thinking_injection/registry/simple.py:126-135 | Taking types out of an index agrees with removing them from the registry in types, dependencies and implementations; it agrees in a primary if and only if that primary stays or nothing that stays could take its place. |
| TypeOrder.Prerequisites | thinking_injection/registry/simple.py:98-121 | The loop collects exactly the types to inject (RequiredByReflection says which), or fails where validation or the check for concrete types does. |
| TypeOrder.Order | thinking_injection/registry/simple.py:140-173 | Succeeds if and only if prerequisites are known and acyclic; emits every known concrete type once, after all it requires, and at each place the least name of those that could stand there; with distinct names the order is determined. |
| TypeOrder.StringLessMeans | thinking_injection/registry/simple.py:148-164 | Names are compared at the first character where they differ, a beginning before what it begins. |
| TypeOrder.StuckMeansCycle | thinking_injection/registry/simple.py:165-173 | If types are left and none is ready, requirements have a cycle. |
| TypeOrder.OrderedMeansAcyclic | thinking_injection/registry/simple.py:160-164 | If all types are in order, requirements have no cycle. |
| TypeOrder.InterfacesDoNotMatter | thinking_injection/registry/simple.py:148-164 | The order of the concrete types is the same whether interfaces take part in the sort or not. |
| Lifecycle.SimpleInstanceIndex.CompositeLifecycle | thinking_injection/lifecycle.py:64-69 | The exit stack does what nested `with` statements do: same events, same exception (LastExceptionLeaves says which). |
| Lifecycle.SimpleInstanceIndex.EnterComponent | thinking_injection/context/simple.py:57-65 | Injection of exactly the prerequisites, then initialisation, with the reset in the `finally` block on failure. |
| Lifecycle.SimpleInstanceIndex.ExitComponent | thinking_injection/lifecycle.py:42-52 | Deinitialisation is told a regular exception or nothing, may replace the exception under way, and is followed by the reset. |
| Lifecycle.SimpleInstanceIndex.Live | thinking_injection/context/simple.py:133-149 | One life of the index: refused exactly for unknown or cyclic prerequisites; ended by the first instance in the order that cannot be made; otherwise the nested lifecycles of all known concrete types in order, and their exception. No instances afterwards. |
| Lifecycle.AllEntered | thinking_injection/lifecycle.py:64-69 | When every component can be entered, the stack of all of them around the body is the nesting of all of them. |
| Lifecycle.StoppedInReverse | thinking_injection/lifecycle.py:42-69 | Whatever raises, the components that were initialised are deinitialised, each once, in reverse order. |
| Lifecycle.StartedOnce | thinking_injection/context/simple.py:133-149 | No component is initialised twice. |
| Lifecycle.StartedInOrder | thinking_injection/lifecycle.py:64-69 | Components start in the given order, up to the first whose injection or initialisation raises, or all. |
| Lifecycle.EarlierOutlivesLater | thinking_injection/lifecycle.py:64-69 | Every event of a component lies between the initialisation and a deinitialisation of each component before it. |
| Lifecycle.DependenciesOutlive | thinking_injection/context/simple.py:173-201 | Whatever a component is injected with is initialised before it is injected or initialised, and deinitialised only after it was deinitialised and reset, whatever raises. |
| Lifecycle.LivesInOrder | thinking_injection/context/simple.py:53-65 | Whatever raises: behind a component that fails to start each is never touched; one that fails is injected, initialised unless injection failed, and reset; every other one is injected, initialised, deinitialised and reset in this order, once each. |
| Lifecycle.LastExceptionLeaves | thinking_injection/lifecycle.py:42-69 | The exception that comes out of a life is the last one raised in the order of events, by the body, an injection, an initialisation, a deinitialisation or a reset; there is none if and only if nothing raised. |
| Lifecycle.ToldTheLast | thinking_injection/lifecycle.py:42-52 | Each deinitialisation is told the last exception raised before it, by whatever, if that is a regular one, and nothing otherwise. |
| Lifecycle.BodyRunsOnce | thinking_injection/lifecycle.py:64-69 | The body is run, once, if and only if no component fails to start. |
| Lifecycle.ReceivedByReflection | thinking_injection/context/simple.py:173-201 | A component is injected with exactly what its declared dependencies inject by subclasses, hints and what is known. |
| Lifecycle.SimpleInstanceIndex.GatherRequirements | thinking_injection/context/simple.py:189-201 | The loop over the declared dependencies collects exactly the types that a component requires (ReceivedByReflection says which), each resolved to an instance. |
| KMeans.BetweenOrders | clustering/kmeans/distance.py:9-18 | Comparing distances is comparing squared distances. |
| KMeans.Avg | clustering/kmeans/vectors.py:12-20 | The nested loops compute the mean, of no vectors the zero vector (MeanOfNone). |
| KMeans.Assign | clustering/kmeans/clusterizer.py:64-75 | Each point gets the least index among the centroids at minimum distance. |
| KMeans.Recalculate | clustering/kmeans/clusterizer.py:77-86 | Grouping and averaging give each centroid the mean of its points. |
| KMeans.RecalculationGain | clustering/kmeans/clusterizer.py:77-86 | Moving centroids to the means lowers the objective by exactly the squared distances moved, once a point; empty clusters cost nothing. |
| KMeans.MeansAreBest | clustering/kmeans/vectors.py:12-20 | No centroids do better for an assignment, and equality holds if and only if every centroid with points is already the mean. |
| KMeans.ClosestIsBest | clustering/kmeans/clusterizer.py:64-75 | No assignment does better for given centroids. |
| KMeans.Descent | clustering/kmeans/clusterizer.py:64-86 | A round with centroids that are handed on as they are lowers or keeps the objective in both of its halves. |
| KMeans.ReloadedRound | clustering/kmeans/clusterizer.py:18-23 | The table gives whole numbers back: from one iteration to the next the objective rises by at most what this moves the centroids, one a coordinate at most; it rises if and only if that is more than the new assignment and the new means gain. |
| KMeans.WholeMeansDescend | clustering/kmeans/clusterizer.py:18-23 | It does not rise if the means of the points are whole. |
| KMeans.ReadingBackRaises | clustering/kmeans/clusterizer.py:18-23 | Four points and two centroids with which it rises. |
| KMeans.Clusterizer.Run | clustering/kmeans/clusterizer.py:51-87 | Over a whole run from any centroids: each iteration assigns the points to the closest of the centroids before as they are read back from the table and stores the means; the objective rises by no more than reading back moves centroids; the last means are returned, as they are read back. |
| Serialization.SerializeDict | thinking_programming/serialization.py:43-48 | The filling loop computes the representation, with Python's merging of equal keys and the failing assertion. |
| Serialization.RoundTrip | thinking_programming/serialization.py:137-173 | For every type, nested in any way, and every value of it, reading the representation gives the value back; None is a value of every type. |
| Serialization.KeysApart | thinking_programming/serialization.py:43-48 | Different keys of one type never collide in the representation. |
| Serialization.PutIsUpdate | thinking_programming/serialization.py:43-48 | Filling a dictionary changes what is found for equal keys only; numbers of equal value are equal keys, the first of them stays as it is and where it is. |
| Serialization.PolymorphicSurvives | thinking_programming/serialization.py:110-134 | A polymorphic record whose attributes survive survives itself if and only if its type id still leads to its class and no attribute is called like the type id. |
| Serialization.SerializesToPlain | thinking_programming/serialization.py:137-143 | Whatever can be serialised becomes natives, lists and dictionaries with native keys. |
| Serialization.SerialisesExactly | thinking_programming/serialization.py:137-143 | Exactly natives, dates, UUIDs, enumeration members and lists, records and dictionaries of such, with natives, dates and UUIDs for keys, can be serialised; an assertion fails for all else. |
| Serialization.SerializesOnce | thinking_programming/serialization.py:137-143 | Serialising a representation changes nothing. |
| Serialization.UntypedSurvives | thinking_programming/serialization.py:146-167 | A collection annotated as bare `list` or `dict` survives if and only if it was its own representation. |
| Serialization.RepresentationIsInjective | thinking_programming/serialization.py:137-173 | Two values of a type with one representation are equal. |
| Serialization.Document.Deserialize | thinking_programming/serialization.py:99-107 | Reading in place gives what reading does (ReadingIsSound, RoundTrip), and takes the type id away once a class was chosen. |
| Serialization.ReadingIsSound | thinking_programming/serialization.py:146-173 | Whatever stands in the data, what is read as a type is None or of the type at every depth - items, keys and values, attributes, enumeration members -, if the conversions give values of the types asked for; a record is of the class asked for, or of one that a type id stands for. |
| Serialization.NativesRead | thinking_programming/serialization.py:146-173 | A native is read as a native type as it is if it is an instance, and otherwise as exactly what the conversion gives, failures included. |
| Serialization.MayNotBeAskedFor | thinking_programming/serialization.py:126-134 | What is read for a polymorphic class is an instance of it if and only if the class its type id stands for is a subclass. |
| Serialization.ReadsOnce | thinking_programming/serialization.py:131-134 | A second reading of a polymorphic document fails with a missing key. |
| Rpn.RPNParser.Parse | calculator/calc/model/parser.py:16-33 | The nested loops over symbols and operators compute the parse, or the error raised. |
| Rpn.ParsesPostfix | calculator/calc/model/parser.py:16-33 | The result is a tree if and only if the input is a postfix form of that tree. |
| Rpn.Unambiguous | calculator/calc/model/parser.py:16-33 | No input is the postfix form of two trees. |
| Rpn.RoundTrip | calculator/calc/model/parser.py:16-33 | Parsing the postfix form of a tree gives the tree back. |
| Rpn.AcceptsWellFormed | calculator/calc/model/parser.py:31-33 | Input is accepted if and only if every operator has two operands before it, everything else is a number, and one tree remains; otherwise, with all symbols readable, the assertion fails. |
| Rpn.FirstUnreadable | calculator/calc/model/parser.py:22-30 | The first symbol that cannot be read decides between the index error and the value error. |
| Rpn.EvaluatesAsMachine | calculator/calc/model/node.py:15-33 | Evaluating the parsed tree gives what running the symbols on a stack of numbers gives, errors included. |
| Rpn.EvaluatesArithmetic | calculator/calc/operators/impl.py:7-45 | The four operators compute ordinary arithmetic; subtraction by adding the product with minus one is subtraction, and division by zero is the only error. |

## Left out

- ExecutorRecovery.Recovery: claims nothing for sessions with different plans; for sessions that go on after an unfinished task and for lost commits, OnCourseDecides and LostCommitsDecide have the exact conditions.
- ExecutorRecovery.DataIsRight: says nothing of programs in which a handler goes on past tasks of its block that were not submitted, because the later ones are then submitted with other coordinates than planned; for effects without marks only one direction holds.
- ExecutorRecovery.OnCourseDecides: for a session that skips no stage; ExecutorWalk.SkippingDecides has the condition for all.
- ExecutorRerun.FinishesIfPassable: for programs without handlers around tasks, which would catch the failure, and without skipped stages.
- ExecutorSafety.SessionsAreSafe: no protocol error for any keys; that nothing fails in a lookup or for a missing branch needs stable keys (ExecutorKeys.StableSessions).
- Interrupts inside the callbacks, the exception handler or the `finally` block, and after the finish callbacks but before the latest step is set.
- Deletions, which do not ask for write permission.
- Lifecycle.DependenciesOutlive: says nothing of received instances without a lifecycle, which are never initialised.
- TypeOrder.Order: with equal names the order within them is not determined; the source falls back to insertion order.
- KMeans.Descent: exact reals, for centroids handed on as they are; a floating-point run can rise by rounding, and one through the table by ReloadedRound.
- Serialization.ReadingIsSound: records and enumeration members that already stand in the data - serialised data has none - are taken as they are if they are instances.
- Serialization.RoundTrip: enumerations and records that are also natives, unions, named tuples, arrays of numpy, constructors with defaults and non-native subclasses are not values of its types.
- Serialization.Document.Deserialize: only the outermost dictionary is changed in place; nested polymorphic documents lose their ids in the source as well.
- CoordinatesText.RoundTrip: `int` is modelled for ASCII digits and spaces; other scripts' digits are not.
- Storage itself: the Dolt daemon, SQL, TinyDB files, processes and Docker are an abstract branch store and an append-only log.
- Commits and checkouts that fail in the data base, quoting in SQL text, and back ends that fall out of step with each other.
- Base exceptions other than KeyboardInterrupt raised by bodies: no handler runs for them.
- Bodies that decide by the data they read which tasks to call: effects depend on the data, the calls of a program do not.
- `ancestor`, `sibling`, `parts` and `is_descendant_of` of coordinates: one-line slices that nothing modelled here calls.
- Return values and arguments of tasks, other callbacks, progress logging, start times, session identifiers, and several contexts in one process.
- The persisted sanitised flag (thinking_executor_data/common/consistency.py:32-44): every session starts from a clean `main` anyway.
- `Args.with_overrides` and `TaskCoordinates.is_sibling`: their bodies do not meet their documentation (thinking_executor/executor_model.py:38-40, thinking_executor/executor_model.py:120-121).
- Discovery, declarations and signature reading: their results are the `Reflection`.
- `SimpleRegistry.clone` and the customizers beyond forced primaries.
- The configurator phases (thinking_injection/context/configurable/impl.py) and the loopback index.
- `CyclicResolver`, `requirement_comparator` and `TypeIndexUnion.order`: not part of the current ordering.
- The cycles listed in the exception for cyclic graphs: only that it is raised.
- Random initial centroids: any centroids.
- The calculator's `__str__`, infinities and not-a-number.
