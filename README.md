# Jector task dispatch, modelled in Dafny

Jector binds the annotated methods of *workers* to *task executors* as
*worker tasks*. It then runs those tasks in executor cycles. This project
models that engine sequentially, in the source's own form:

- Task state, executors and registries are classes whose fields the
  operations update in place.
- The parameter checks, the reflective dispatch and the lookup helpers are
  functions.
- Each executor cycle and each `bind` is a method with a loop. Each is
  proved against a fold over the names or methods it visits.

Modules:

- `Values`: Java values, exceptions, outcomes, and the assignability of the
  classes passed to a routed method. `Key` is the executor key, a string.
- `Reflection`: a routed `Method` (name, parameter classes, accessibility,
  and a body given as effects plus a return). Also `Route` (an
  `@ExecuteOn` list, absent when the method carries no annotation),
  `Worker` (routes in declaration order) and `MethodArguments`.
- `Validator`: `validateParametersLength`, `validateParameterType` and
  `validateNumberOfArgs`.
- `Invocation`: `executeMethod` as a dispatch decision. This is the same
  code in `TaskExecutorsManager` and `TaskBinder`; the only difference is
  the registry class passed last. It also has `CallSpec`, one `call()` of a
  bound task on a view of the task states.
- `Cycles`: one cycle of `AppThread.executeTasks` (`ThreadCycle`) and of
  `MonkeyTaskExecutor.executeTasks` (`MonkeyCycle`) over any iteration
  order of the task map, with the lemmas about them.
- `Binding`: which method each name is bound to on each executor after
  walking the routes.
- `Jector`: `Task`, `WorkerTask`, `AppThread`, `MonkeyTaskExecutor`,
  `TaskExecutorsManager`, `TaskBinder`, `MonkeyTaskBinder` and
  `MonkeyTaskExecutorsManager`. The Monkey registries hold their base
  registry, since a subclass is written here as composition. `OfMonkey`
  builds the base part, whose tasks are `MonkeyWorkerTask`s.
- `Tasks`: `getTaskExecutorFromTaskBinder`, `getWorkerTask` and
  `getWorkerTaskResult`.
- `Scenarios`: the bundled example. `Pipeline` states its daemon/looper
  pipeline on values. `RunExample` runs the example's `main` on the heap
  classes: it creates three threads and a manager, registers, binds,
  enables and activates. It then runs one daemon cycle and one looper
  cycle through `AppThread.executeTasks`, and shows the message the
  daemon's task returned.

The calling thread, the Java `HashMap` iteration order and the thread name
seen by the Monkey guards are parameters. Ghost parameters carry the set
of tasks a cycle may touch (`world`) and the registries the bodies read
(`regs`).

Points where the code's behaviour is easy to misread:

- **Failures are swallowed inside `executeMethod`**
  (`TaskExecutorsManager.java:252-255`, `TaskBinder.java:236-239`). This
  covers an `IllegalAccessException` and a body's exception (an
  `InvocationTargetException`). The call then returns `null`. The cycle
  stores that `null` as the task's result, replacing the previous one, and
  marks the task executed (`AppThread.java:115-116`).
- **An `IllegalArgumentException` ends the cycle.** It comes from a
  `Validator` check, or from `Method.invoke` on a one-argument call. It is
  not caught inside `executeMethod`. It leaves `call()` and reaches the
  `try` around the whole loop of `executeTasks` (`AppThread.java:106-120`).
  The rest of the cycle is abandoned: the loop stops at the throwing
  task's name (`AppThread.ExecuteTasks`), whatever names would follow
  change nothing (`ThreadCycleAbandoned`), and the throwing task is left
  not executed (`ThreadCycleFacts`).
- **A non-float argument ends a Monkey cycle, but only at a task.** The
  cast `(float) arguments` is reached only when the loop comes to an
  active `MonkeyWorkerTask` (`MonkeyTaskExecutor.java:160-168`). The
  `ClassCastException` then abandons the cycle, with the same `try` around
  the loop (`MonkeyTaskExecutor.java:158-173`): the loop stops at that
  task's name (`MonkeyTaskExecutor.ExecuteTasks`), and whatever names
  would follow change nothing (`MonkeyCycleAbandoned`). A cycle that meets no
  active `MonkeyWorkerTask` finishes normally whatever its argument
  (`MonkeyStep`).
- **`executed` is never cleared.** `setExecuted` only sets the flag
  (`WorkerTask.java:112-114`), and nothing resets it. `setActive(true)`
  leaves it as it is. So a thread-backed task runs at most once in its
  lifetime (`AtMostOncePerLifetime`). A Monkey cycle does not look at the
  flag and calls an active task on every cycle.

## Model

| member | source | states |
|---|---|---|
| Validator.ValidateParametersLength | jector/src/main/java/com/avrsandbox/jector/util/Validator.java:58-62 | fails exactly when the method's parameter count differs from `length`, with IllegalArgumentException |
| Validator.ValidateParameterType | jector/src/main/java/com/avrsandbox/jector/util/Validator.java:73-83 | passes for a method without parameters; otherwise fails with IllegalArgumentException exactly when parameter `paramIndex` is not assignable from the class, and indexing past the parameters throws ArrayIndexOutOfBoundsException |
| Validator.ValidateNumberOfArgs | jector/src/main/java/com/avrsandbox/jector/util/Validator.java:92-97 | fails exactly when the two arrays differ in length, with IllegalArgumentException |
| Invocation.Invoke | jector/src/main/java/com/avrsandbox/jector/core/work/TaskExecutorsManager.java:248-250 | the body runs exactly when the method is accessible and accepts the argument classes; an inaccessible method is IllegalAccessException (caught); a shape mismatch is IllegalArgumentException (escapes) |
| Invocation.ExecuteMethod | jector/src/main/java/com/avrsandbox/jector/core/work/TaskExecutorsManager.java:242-256 | with non-null arguments and map, the body runs exactly when the method has two parameters assignable from the arguments' class and the registry's class; otherwise the method is invoked with the registry alone; only IllegalArgumentException escapes, and an access failure yields null |
| Invocation.RunStepsOnlyActivates | jector-examples/src/main/java/com/avrsandbox/jector/examples/TaskExecutorService.java:51-86 | a body's effects keep every task's `executed`, `result` and time per frame, and change no task outside its activation targets |
| Invocation.CallOnlyActivates | jector/src/main/java/com/avrsandbox/jector/core/work/TaskExecutorsManager.java:242-256 | one `call()` changes only `active` flags of the tasks its body activates; a call that throws changes nothing and comes from an escaping dispatch |
| Binding.InstalledIsLastRoute | jector/src/main/java/com/avrsandbox/jector/core/work/TaskExecutorsManager.java:194-205 | a name is bound on an executor key exactly when some route to that key declares a method of that name, and the method bound is that of the last such route |
| Binding.InstalledTwice | jector/src/main/java/com/avrsandbox/jector/core/work/TaskExecutorsManager.java:140-154 | walking the same routes twice binds no name that walking them once does not |
| Binding.InstalledOnStep | jector/src/main/java/com/avrsandbox/jector/core/work/TaskExecutorsManager.java:145-149 | walking one more declared method puts it under its name on each key its annotation lists, overwriting the method of that name there, keeps every other key's methods, and changes nothing for a method without annotation |
| Cycles.ThreadCycleFacts | jector/src/main/java/com/avrsandbox/jector/core/thread/AppThread.java:105-121 | over any order: no task is added or removed, tasks called are executed and hold their returned values, every other task keeps `executed` and `result`, no task is called twice or if executed before, and the task whose call threw is left not executed |
| Cycles.ThreadStepThrower | jector/src/main/java/com/avrsandbox/jector/core/thread/AppThread.java:115 | a step that abandons a cycle not yet abandoned names the task of the name visited as the one that threw |
| Cycles.ThreadStepCalled | jector/src/main/java/com/avrsandbox/jector/core/thread/AppThread.java:114-115 | visiting an active, unexecuted task calls it on the current states: a call that returns marks the task executed with the returned value as its result, after the call's own effects; a call that throws changes no state and abandons the cycle at that task |
| Cycles.ThreadCycleAbandoned | jector/src/main/java/com/avrsandbox/jector/core/thread/AppThread.java:106-120 | once a call has thrown, the names after it change nothing: no task state, no output, no call |
| Cycles.ThreadCycleExactlyEligible | jector/src/main/java/com/avrsandbox/jector/core/thread/AppThread.java:107-117 | a completed cycle over all names calls exactly the tasks that were active and not executed, both directions, when no body activates a task of the same executor |
| Cycles.AtMostOncePerLifetime | jector/src/main/java/com/avrsandbox/jector/core/thread/AppThread.java:108-110 | across any number of cycles, with any activations in between, a task is called at most once, never if it started executed, and the tasks called are exactly those that became executed |
| Cycles.MonkeyCycleFacts | jector-monkey/src/main/java/com/avrsandbox/jector/monkey/core/work/MonkeyTaskExecutor.java:157-174 | over any order: no `executed` flag changes; only active `MonkeyWorkerTask`s are called, each with the cycle argument as its time per frame; a task called holds the value its last call returned; a task neither called nor throwing keeps its result and time per frame |
| Cycles.MonkeyStepThrower | jector-monkey/src/main/java/com/avrsandbox/jector/monkey/core/work/MonkeyTaskExecutor.java:168-169 | a step that abandons a cycle not yet abandoned names the task of the name visited as the one whose cast or call threw |
| Cycles.MonkeyStepCalled | jector-monkey/src/main/java/com/avrsandbox/jector/monkey/core/work/MonkeyTaskExecutor.java:167-168 | visiting an active `MonkeyWorkerTask` with a float argument sets its time per frame to it and calls it: a call that returns stores the returned value as the result, after the call's own effects, and leaves `executed` alone; a call that throws keeps only the new time per frame and abandons the cycle at that task |
| Cycles.MonkeyCycleAbandoned | jector-monkey/src/main/java/com/avrsandbox/jector/monkey/core/work/MonkeyTaskExecutor.java:158-173 | once a cast or a call has thrown, the names after it change nothing: no task state, no output, no call |
| Cycles.LastResultsCall | jector-monkey/src/main/java/com/avrsandbox/jector/monkey/core/work/MonkeyTaskExecutor.java:169 | one more call that stores its returned value keeps every task called holding the value of its own last call |
| Cycles.LastIndex | jector-monkey/src/main/java/com/avrsandbox/jector/monkey/core/work/MonkeyTaskExecutor.java:159-169 | a task called at least once has a last call in the cycle |
| Cycles.MonkeyCycleExactlyActive | jector-monkey/src/main/java/com/avrsandbox/jector/monkey/core/work/MonkeyTaskExecutor.java:159-169 | a completed cycle over all names calls exactly the active `MonkeyWorkerTask`s, whether executed or not (both directions), leaves each holding the value one of its calls returned, and leaves them active, so the next cycle calls them again |
| Jector.Task.constructor | jector/src/main/java/com/avrsandbox/jector/core/work/Task.java:6-7 | a new task is not executed and holds a null result |
| Jector.Task.SetResult | jector/src/main/java/com/avrsandbox/jector/core/work/Task.java:9-11 | the result becomes the value given and `executed` is unchanged |
| Jector.Task.SetExecuted | jector/src/main/java/com/avrsandbox/jector/core/work/Task.java:21-23 | the task is executed and its result is unchanged; nothing else resets the flag |
| Jector.WorkerTask.constructor | jector/src/main/java/com/avrsandbox/jector/core/work/WorkerTask.java:48-59 | a new task is inactive, not executed, with a null result and a zero time per frame, wired to its method, arguments and registry |
| Jector.WorkerTask.SetResult | jector/src/main/java/com/avrsandbox/jector/core/work/WorkerTask.java:67-69 | only the result changes, to the value given |
| Jector.WorkerTask.SetActive | jector/src/main/java/com/avrsandbox/jector/core/work/WorkerTask.java:76-78 | only the `active` flag changes, to the value given |
| Jector.WorkerTask.SetExecuted | jector/src/main/java/com/avrsandbox/jector/core/work/WorkerTask.java:112-114 | only `executed` changes, to true |
| Jector.WorkerTask.SetTimePerFrame | jector-monkey/src/main/java/com/avrsandbox/jector/monkey/core/work/MonkeyWorkerTask.java:9-11 | only the time per frame changes, to the value given |
| Jector.WorkerTask.Call | jector/src/main/java/com/avrsandbox/jector/core/work/TaskExecutorsManager.java:215-229 | the task states, output and outcome after `call()` are those `CallSpec` gives for the task's plan and the states before |
| Jector.RunBody | jector-examples/src/main/java/com/avrsandbox/jector/examples/TaskExecutorService.java:51-86 | the effects of a body run in order up to the first lookup that finds nothing, as `RunSteps` gives |
| Jector.Turn | jector/src/main/java/com/avrsandbox/jector/core/thread/AppThread.java:107-116 | one turn of the thread-backed loop extends the cycle over the names visited so far by the next name, and a throw is that name's task's |
| Jector.ThreadPass | jector/src/main/java/com/avrsandbox/jector/core/thread/AppThread.java:105-121 | the loop over the task map visits distinct names, all of them unless a call throws, and then stops at the name whose task threw; states and output are those of `ThreadCycle` over that order |
| Jector.Visit | jector/src/main/java/com/avrsandbox/jector/core/thread/AppThread.java:108-116 | one name of the thread-backed loop changes the task states as `ThreadStep` says, and reports a throw exactly when the step abandons the cycle |
| Jector.MonkeyTurn | jector-monkey/src/main/java/com/avrsandbox/jector/monkey/core/work/MonkeyTaskExecutor.java:159-169 | one turn of the tick-driven loop extends the cycle over the names visited so far by the next name, and a throw is that name's task's |
| Jector.MonkeyPass | jector-monkey/src/main/java/com/avrsandbox/jector/monkey/core/work/MonkeyTaskExecutor.java:157-174 | the loop over the task map visits distinct names, all of them unless a cast or call throws, and then stops at the name whose task threw; states and output are those of `MonkeyCycle` over that order |
| Jector.MonkeyVisit | jector-monkey/src/main/java/com/avrsandbox/jector/monkey/core/work/MonkeyTaskExecutor.java:160-169 | one name of the tick-driven loop changes the task states as `MonkeyStep` says, and reports a throw exactly when the step abandons the cycle |
| Jector.AppThread.constructor | jector/src/main/java/com/avrsandbox/jector/core/thread/AppThread.java:57-76 | a new executor is inactive, not terminated and holds no tasks |
| Jector.AppThread.SetActive | jector/src/main/java/com/avrsandbox/jector/core/thread/AppThread.java:94-96 | only `active` changes |
| Jector.AppThread.AddTask | jector/src/main/java/com/avrsandbox/jector/core/thread/AppThread.java:100-102 | the task is stored under the method's name, replacing one of that name, and every other entry is kept |
| Jector.AppThread.Terminate | jector/src/main/java/com/avrsandbox/jector/core/thread/AppThread.java:129-131 | the executor is terminated; tasks and `active` are unchanged |
| Jector.AppThread.ExecuteTasks | jector/src/main/java/com/avrsandbox/jector/core/thread/AppThread.java:105-121 | visits distinct names of the task map, all of them unless a call throws, in which case the last name visited is the thrower's; the task states and the output are those of `ThreadCycle` over that order |
| Jector.AppThread.RunIteration | jector/src/main/java/com/avrsandbox/jector/core/thread/AppThread.java:79-86 | the loop goes on exactly while not terminated, does nothing when terminated or inactive, and otherwise runs one cycle of `executeTasks`, ending at the thrower's name when a call throws |
| Jector.MonkeyArguments | jector-monkey/src/main/java/com/avrsandbox/jector/monkey/core/command/MonkeyMethodArguments.java:8-16 | the arguments an executor binds with are non-null, of the Monkey class, and name the executor under `MONKEY_EXECUTOR` |
| Jector.MonkeyTaskExecutor.constructor | jector-monkey/src/main/java/com/avrsandbox/jector/monkey/core/work/MonkeyTaskExecutor.java:48-52 | a new executor is enabled, not terminated, holds no tasks, and owns a fresh Monkey binder over the worker with no executors registered |
| Jector.MonkeyTaskExecutor.RegisterTaskExecutor | jector-monkey/src/main/java/com/avrsandbox/jector/monkey/core/work/MonkeyTaskExecutor.java:60-62 | puts the executor under its key in the inner binder's map, which `getTaskExecutors` returns |
| Jector.MonkeyTaskExecutor.UnregisterTaskExecutor | jector-monkey/src/main/java/com/avrsandbox/jector/monkey/core/work/MonkeyTaskExecutor.java:86-88 | removes the executor's key from the inner binder's map and nothing else |
| Jector.MonkeyTaskExecutor.UnregisterTaskExecutorByKey | jector-monkey/src/main/java/com/avrsandbox/jector/monkey/core/work/MonkeyTaskExecutor.java:95-97 | removes the key from the inner binder's map and nothing else |
| Jector.MonkeyTaskExecutor.Initialize | jector-monkey/src/main/java/com/avrsandbox/jector/monkey/core/work/MonkeyTaskExecutor.java:115-117 | binds the inner binder's worker with the executor's own arguments, under the binder's thread guard |
| Jector.MonkeyTaskExecutor.Update | jector-monkey/src/main/java/com/avrsandbox/jector/monkey/core/work/MonkeyTaskExecutor.java:135-138 | behaves as `executeTasks` with the frame time as argument, ending at the thrower's name when a call throws |
| Jector.MonkeyTaskExecutor.SetActive | jector-monkey/src/main/java/com/avrsandbox/jector/monkey/core/work/MonkeyTaskExecutor.java:146-148 | only the enabled flag changes |
| Jector.MonkeyTaskExecutor.AddTask | jector-monkey/src/main/java/com/avrsandbox/jector/monkey/core/work/MonkeyTaskExecutor.java:152-154 | the task is stored under the method's name, replacing one of that name, and every other entry is kept |
| Jector.MonkeyTaskExecutor.Terminate | jector-monkey/src/main/java/com/avrsandbox/jector/monkey/core/work/MonkeyTaskExecutor.java:182-185 | the executor is terminated; tasks and the enabled flag are unchanged |
| Jector.MonkeyTaskExecutor.ExecuteTasks | jector-monkey/src/main/java/com/avrsandbox/jector/monkey/core/work/MonkeyTaskExecutor.java:157-174 | visits distinct names of the task map, all of them unless a cast or call throws, in which case the last name visited is the thrower's; the task states and the output are those of `MonkeyCycle` over that order |
| Jector.BindAgainSameCount | jector/src/main/java/com/avrsandbox/jector/core/work/TaskExecutorsManager.java:141-154 | a second `bind` of the same methods adds no name to any executor, so no executor's task count grows |
| Jector.TaskExecutorsManager.constructor | jector/src/main/java/com/avrsandbox/jector/core/work/TaskExecutorsManager.java:69-80 | a new manager holds the workers given and no executors |
| Jector.TaskExecutorsManager.OfMonkey | jector-monkey/src/main/java/com/avrsandbox/jector/monkey/core/work/MonkeyTaskExecutorsManager.java:67-70 | the base manager of a Monkey manager holds the workers given and no executors, and binds `MonkeyWorkerTask`s |
| Jector.TaskExecutorsManager.RegisterTaskExecutor | jector/src/main/java/com/avrsandbox/jector/core/work/TaskExecutorsManager.java:88-90 | the executor is put under its key, replacing one there before; the others and the workers are kept |
| Jector.TaskExecutorsManager.UnregisterTaskExecutor | jector/src/main/java/com/avrsandbox/jector/core/work/TaskExecutorsManager.java:114-116 | the executor's key is removed and every other entry kept |
| Jector.TaskExecutorsManager.UnregisterTaskExecutorByKey | jector/src/main/java/com/avrsandbox/jector/core/work/TaskExecutorsManager.java:123-125 | the key is removed and every other entry kept; an absent key changes nothing |
| Jector.TaskExecutorsManager.SetWorkers | jector/src/main/java/com/avrsandbox/jector/core/work/TaskExecutorsManager.java:174-176 | the workers become those given and the executors are kept |
| Jector.TaskExecutorsManager.BindDefault | jector/src/main/java/com/avrsandbox/jector/core/work/TaskExecutorsManager.java:130-132 | `bind()` is `bind(null)` |
| Jector.TaskExecutorsManager.Bind | jector/src/main/java/com/avrsandbox/jector/core/work/TaskExecutorsManager.java:140-154 | each registered executor keeps its other tasks and gains, under every name the workers route to it, a new inactive, unexecuted task wired to the last method of that name; the tasks installed are freshly allocated and pairwise distinct; unregistered keys and unannotated methods are passed over |
| Jector.BindWorkers | jector/src/main/java/com/avrsandbox/jector/core/work/TaskExecutorsManager.java:141-153 | the workers are bound one after the other: the new task maps are those the routes of all workers, in order, install on the registered keys, every other task is kept, and the tasks installed are fresh, initial and pairwise distinct |
| Jector.CreatedDistinctExtend | jector/src/main/java/com/avrsandbox/jector/core/work/TaskExecutorsManager.java:217 | storing a task not among those already installed keeps the installed tasks pairwise distinct, since each `addTask` gets its own new `WorkerTask` |
| Jector.BindRoute | jector/src/main/java/com/avrsandbox/jector/core/work/TaskExecutorsManager.java:145-149 | a method without annotation, or with an empty executor list, binds nothing |
| Jector.BindKeys | jector/src/main/java/com/avrsandbox/jector/core/work/TaskExecutorsManager.java:194-205 | the method is bound, key after key, on each listed key that has an executor |
| Jector.BindKey | jector/src/main/java/com/avrsandbox/jector/core/work/TaskExecutorsManager.java:196-202 | a key with no executor registered is passed over without error |
| Jector.BindTo | jector/src/main/java/com/avrsandbox/jector/core/work/TaskExecutorsManager.java:215-229 | a new, initial task wired to the method, the arguments and the registry is stored under the method's name on the executor |
| Jector.TaskBinder.constructor | jector/src/main/java/com/avrsandbox/jector/core/work/TaskBinder.java:71-73 | a new binder holds the worker given and no executors |
| Jector.TaskBinder.OfMonkey | jector-monkey/src/main/java/com/avrsandbox/jector/monkey/core/work/MonkeyTaskBinder.java:13-15 | the base binder of a Monkey binder holds the worker given and no executors, and binds `MonkeyWorkerTask`s |
| Jector.TaskBinder.RegisterTaskExecutor | jector/src/main/java/com/avrsandbox/jector/core/work/TaskBinder.java:81-83 | the executor is put under its key, replacing one there before |
| Jector.TaskBinder.UnregisterTaskExecutor | jector/src/main/java/com/avrsandbox/jector/core/work/TaskBinder.java:107-109 | the executor's key is removed and every other entry kept |
| Jector.TaskBinder.UnregisterTaskExecutorByKey | jector/src/main/java/com/avrsandbox/jector/core/work/TaskBinder.java:116-118 | only that key is removed |
| Jector.TaskBinder.SetWorker | jector/src/main/java/com/avrsandbox/jector/core/work/TaskBinder.java:166-168 | the worker becomes the one given, which `getWorker` then returns |
| Jector.TaskBinder.BindDefault | jector/src/main/java/com/avrsandbox/jector/core/work/TaskBinder.java:123-125 | `bind()` is `bind(null)` |
| Jector.TaskBinder.Bind | jector/src/main/java/com/avrsandbox/jector/core/work/TaskBinder.java:134-146 | each registered executor keeps its other tasks and gains, under every name the worker routes to it, a new initial task wired to the last method of that name; the tasks installed are freshly allocated and pairwise distinct |
| Jector.MonkeyTaskBinder.constructor | jector-monkey/src/main/java/com/avrsandbox/jector/monkey/core/work/MonkeyTaskBinder.java:13-15 | a new Monkey binder holds the worker and no executors |
| Jector.MonkeyTaskBinder.Bind | jector-monkey/src/main/java/com/avrsandbox/jector/monkey/core/work/MonkeyTaskBinder.java:18-23 | IllegalStateException, and no task map changed, unless the thread is exactly "jME3 Main"; otherwise the base binder's `bind`, installing fresh, pairwise distinct `MonkeyWorkerTask`s |
| Jector.MonkeyTaskBinder.BindDefault | jector/src/main/java/com/avrsandbox/jector/core/work/TaskBinder.java:123-125 | the inherited `bind()` is `bind(null)`, which goes through the thread guard of the override |
| Jector.MonkeyTaskExecutorsManager.constructor | jector-monkey/src/main/java/com/avrsandbox/jector/monkey/core/work/MonkeyTaskExecutorsManager.java:67-70 | a new manager holds the workers and the application given and no executors |
| Jector.MonkeyTaskExecutorsManager.OfWorker | jector-monkey/src/main/java/com/avrsandbox/jector/monkey/core/work/MonkeyTaskExecutorsManager.java:58-60 | the one-worker constructor holds that worker alone |
| Jector.MonkeyTaskExecutorsManager.Bind | jector-monkey/src/main/java/com/avrsandbox/jector/monkey/core/work/MonkeyTaskExecutorsManager.java:82-88 | IllegalStateException, and no task map changed, unless the thread is "jME3 Main" or "jME3 Headless Main"; otherwise the base manager's `bind`, installing fresh, pairwise distinct `MonkeyWorkerTask`s |
| Jector.MonkeyTaskExecutorsManager.BindDefault | jector/src/main/java/com/avrsandbox/jector/core/work/TaskExecutorsManager.java:130-132 | the inherited `bind()` is `bind(null)`, which goes through the thread guard of the override |
| Tasks.GetTaskExecutorFromTaskBinder | jector/src/main/java/com/avrsandbox/jector/util/Tasks.java:56-60 | the executor registered under the key, null exactly when none is |
| Tasks.GetWorkerTask | jector/src/main/java/com/avrsandbox/jector/util/Tasks.java:71-76 | a NullPointerException exactly when no executor is registered under the key; otherwise the task under the name, null exactly when there is none, and one held by a registered executor |
| Tasks.GetWorkerTaskResult | jector/src/main/java/com/avrsandbox/jector/util/Tasks.java:87-91 | that task's current result, and a NullPointerException exactly when the executor or the task is missing |
| Tasks.LookupIsGetWorkerTask | jector/src/main/java/com/avrsandbox/jector/util/Tasks.java:71-91 | the lookup a task body makes through its manager finds a task exactly when `getWorkerTask` returns one, and reads the result `getWorkerTaskResult` returns |
| Scenarios.ServiceRoutes | jector-examples/src/main/java/com/avrsandbox/jector/examples/TaskExecutorService.java:51-74 | binding the example worker puts `writeMessage` on the daemon key, `showMessage` on the looper key, and nothing on any other key |
| Scenarios.ServiceDispatch | jector-examples/src/main/java/com/avrsandbox/jector/examples/TaskExecutorService.java:51-74 | both example methods take the two-argument call with the example's message arguments and run their bodies |
| Scenarios.Pipeline | jector-examples/src/main/java/com/avrsandbox/jector/examples/TaskExecutorService.java:51-86 | on values: a daemon cycle runs `writeMessage`, which returns "Hello Jector!" and activates `showMessage`; a looper cycle then shows exactly that result; a further daemon cycle calls nothing |
| Scenarios.ExampleInstalled | jector-examples/src/main/java/com/avrsandbox/jector/examples/TestTaskExecutorManager.java:61-68 | with the three keys registered, binding the example worker installs `writeMessage` on the daemon key, `showMessage` on the looper key and nothing on the foreground key |
| Scenarios.ExampleBound | jector-examples/src/main/java/com/avrsandbox/jector/examples/TestTaskExecutorManager.java:66-68 | after that `bind`, the daemon and looper task maps each hold one task, wired to its method, the message arguments and the manager; the two are distinct whenever the installed tasks are pairwise distinct, as `Bind` ensures |
| Scenarios.RegisterExample | jector-examples/src/main/java/com/avrsandbox/jector/examples/TestTaskExecutorManager.java:54-63 | three new threads are registered under the daemon, looper and foreground keys of a new manager of the example worker, whose executors hold no tasks |
| Scenarios.BindExample | jector-examples/src/main/java/com/avrsandbox/jector/examples/TestTaskExecutorManager.java:65-68 | the daemon thread then holds one new task under `writeMessage` and the looper one under `showMessage`, distinct, initial and wired to their methods |
| Scenarios.EnableExample | jector-examples/src/main/java/com/avrsandbox/jector/examples/TestTaskExecutorManager.java:70-79 | both threads become active, and so does the task the manager finds under the daemon key and `writeMessage`; the tasks maps and `showMessage` are unchanged |
| Scenarios.WritePlanned | jector-examples/src/main/java/com/avrsandbox/jector/examples/TaskExecutorService.java:51-68 | the bound `writeMessage` takes the two-argument call, activates the task the manager finds under the looper key and `showMessage`, and returns "Hello Jector!" |
| Scenarios.ShowPlanned | jector-examples/src/main/java/com/avrsandbox/jector/examples/TaskExecutorService.java:73-86 | the bound `showMessage` takes the two-argument call and shows the result of the task the manager finds under the daemon key and `writeMessage` |
| Scenarios.StartExample | jector-examples/src/main/java/com/avrsandbox/jector/examples/TestTaskExecutorManager.java:54-80 | after `main`, each thread holds one new task, `writeMessage` is active and `showMessage` is not, and each task's body looks up the other |
| Scenarios.CycleOne | jector/src/main/java/com/avrsandbox/jector/core/thread/AppThread.java:105-121 | a cycle of a thread holding one task leaves the states and output of the value-level cycle over that one name |
| Scenarios.DaemonView | jector/src/main/java/com/avrsandbox/jector/core/thread/AppThread.java:105-121 | the daemon's first cycle leaves `writeMessage` executed with "Hello Jector!" as its result and `showMessage` active |
| Scenarios.LooperView | jector-examples/src/main/java/com/avrsandbox/jector/examples/TaskExecutorService.java:73-86 | the looper's next cycle shows "Hello Jector!" and leaves `writeMessage` as it was |
| Scenarios.DaemonStep | jector/src/main/java/com/avrsandbox/jector/core/thread/AppThread.java:105-121 | on the heap, one daemon cycle after `main` leaves `writeMessage` executed holding "Hello Jector!" and `showMessage` active |
| Scenarios.LooperStep | jector/src/main/java/com/avrsandbox/jector/core/thread/AppThread.java:105-121 | on the heap, the looper's next cycle shows "Hello Jector!" |
| Scenarios.RunExample | jector-examples/src/main/java/com/avrsandbox/jector/examples/TestTaskExecutorManager.java:54-80 | `main` on new threads, then one daemon cycle and one looper cycle: the result of `writeMessage` is "Hello Jector!" and the looper shows exactly that |
| Scenarios.BindTwiceSameNames | jector/src/main/java/com/avrsandbox/jector/core/work/TaskExecutorsManager.java:140-154 | a manager holding the same worker twice binds the same names on every key as with that worker once |

Getters: each reads its field and carries no contract of its own, so it
has no row. They are `Jector.Task.GetResult`/`IsExecuted`,
`Jector.WorkerTask.GetResult`/`IsActive`/`IsExecuted`,
`Jector.AppThread.IsActive`/`IsTerminated`/`GetTasks`,
`Jector.MonkeyTaskExecutor.IsActive` (`isEnabled()`)/`IsTerminated`/`GetTasks`/`GetTaskExecutors`/`GetMethodArguments`,
`Jector.TaskExecutorsManager.GetTaskExecutors`/`GetWorkers`,
`Jector.TaskBinder.GetTaskExecutors`/`GetWorker` and
`Jector.MonkeyTaskExecutorsManager.GetApplication`. So each setter's
contract is also what its getter returns next.

## Left out

- Threads and memory semantics: the model is sequential. It leaves out
  `volatile`, the `ConcurrentAppThread` locking variants, and a task map
  changed while another thread iterates over it.
- `AppThread.run` is a busy loop on its own thread. Only one iteration
  is modelled (`RunIteration`).
- Reflection is replaced by data in the worker's routes:
  - `getDeclaredMethods` and its order are a given route sequence;
  - annotations are a given route sequence;
  - `isAssignableFrom` is a fixed class hierarchy;
  - `Method.invoke` is the `Invoke` decision.
  Whatever a real body computes beyond the effects in `Reflection.Effect`
  is not modelled: it can activate a task found through its registry, show
  the result of a task found through its registry, or return a value.
- `HashMap` iteration order is unknown. The cycles are proved for every
  order of the names, not for Java's.
- `registerTaskExecutor(Class)` is left out, since creating an instance by
  reflection is outside the model.
- Executor keys are left out in part. Executors are keyed by `Key`, a
  string given at construction, which stands for the executor's class.
  Two executors of one class are two registrations under one key. The
  source is inconsistent here. `ExecuteOn.executors()` is a `String[]`
  (`ExecuteOn.java:61`). The registries take
  `Class<? extends TaskExecutor>[]` in `bind` and key their map by
  `getClass()` (`TaskExecutorsManager.java:62`, `89`, `194`). The example
  calls `registerTaskExecutor(String, AppThread)`
  (`TestTaskExecutorManager.java:61-63`, and the javadoc at
  `ExecuteOn.java:56`), which no registry of the core declares. So
  `RegisterExample` registering each thread under a string key is an
  adaptation that makes the example's three threads of one class
  distinct.
- The `BaseAppState` hooks are left out:
  - `cleanup`, `onEnable` and `onDisable` do nothing;
  - `getStateManager().detach` in `terminate` is outside the model;
  - the enabled flag starts true, as in `BaseAppState`.
- `printStackTrace` logging, and the examples' `System.out` and
  `System.exit`. The body's `Show` effect stands only for `showMessage`'s
  printing of the daemon task's result (`TaskExecutorService.java:77-81`).
  What `writeMessage` prints, the thread's name and the "message"
  argument (`TaskExecutorService.java:53-57`), has no counterpart. A body
  does not read its `MethodArguments`, so the content of the example's
  arguments reaches nothing the model observes.
- `MethodArguments` and `MonkeyMethodArguments` are values. The Monkey
  executor's own entry under `MONKEY_EXECUTOR` stands in as the
  executor's key, not as a reference to it.
- The `application` of `MonkeyTaskExecutorsManager` is an opaque object.
- `WorkerTask.Call`: the registry a task calls back into is the one it was
  bound with. `TaskBinder`'s task instead invokes on the binder's worker
  at call time, so a `setWorker` after `bind` changes which object runs the
  method. The model keeps the bound method, because worker objects have no
  state here. After `setWorker` to an object of another class,
  `Method.invoke` throws an `IllegalArgumentException`
  (`TaskBinder.java:232-234`). That exception escapes `call()` and abandons
  the executor's cycle, whereas the model runs the bound method.
- `WorkerTask.SetTimePerFrame`: the time per frame is a `real`, not a
  32-bit float. Neither rounding nor NaN is modelled.
- `Cycles.ThreadCycleExactlyEligible` and
  `Cycles.MonkeyCycleExactlyActive` are stated when no body activates a
  task of its own executor. Otherwise a task activated earlier in the same
  cycle may also run, in an order-dependent way; `ThreadCycleFacts` and
  `MonkeyCycleFacts` hold in every case.
- The `TaskExecutor` and `TaskReceiver` interfaces hold signatures only,
  and `MonkeyTasks` consists of casts over engine types.
