/** The two-executor pipeline of the bundled example: a task on the daemon
    executor returns a message and activates a task on the looper executor,
    which on the looper's next cycle shows the daemon task's result. It is
    stated on values (`Pipeline`) and then run on the heap classes, from
    the example's `main` through one cycle of each thread (`RunExample`). */
module Scenarios {
  import opened Values
  import opened Reflection
  import opened Invocation
  import opened Cycles
  import opened Binding
  import opened Jector

  const Daemon: Key := "DAEMON_THREAD"
  const Looper: Key := "LOOPER_THREAD"
  const Foreground: Key := "FOREGROUND_THREAD"

  /** `writeMessage(MethodArguments, TaskExecutorsManager)` on the daemon
      executor: it returns its message and, on the way out, activates the
      looper's `showMessage`. The lines it prints, the thread's name and
      the "message" argument, have no effect here: a body does not read
      its `MethodArguments`, so what `Message` holds reaches no output. */
  const WriteMessage: Method :=
    Method("writeMessage", [MethodArgumentsType, ManagerType], true,
           Body([Activate(Looper, "showMessage", true)], Returns(Str("Hello Jector!"))))

  /** `showMessage(MethodArguments, TaskExecutorsManager)` on the looper
      executor: it shows the result of the daemon's `writeMessage`. */
  const ShowMessage: Method :=
    Method("showMessage", [MethodArgumentsType, ManagerType], true,
           Body([Show(Daemon, "writeMessage")], Returns(Null)))

  /** The example's worker, in declaration order. */
  const Service: Worker :=
    Worker([Route(WriteMessage, Some([Daemon])), Route(ShowMessage, Some([Looper]))])

  /** The arguments the example binds with. */
  const Message: Option<MethodArguments> := Some(MethodArguments(false, Some(map["message" := Str("Hello World!")])))

  /** Binding the example's worker puts `writeMessage` on the daemon
      executor and `showMessage` on the looper executor, and nothing else. */
  lemma {:induction false} ServiceRoutes()
    ensures Installed(Service.routes, Daemon) == map["writeMessage" := WriteMessage]
    ensures Installed(Service.routes, Looper) == map["showMessage" := ShowMessage]
    ensures forall k | k != Daemon && k != Looper :: Installed(Service.routes, k) == map[]
  {
    var rs := Service.routes;
    assert rs[..1][..0] == [];
    assert rs[..|rs| - 1] == rs[..1];
    forall k ensures Installed(rs[..1], k) == (if k == Daemon then map["writeMessage" := WriteMessage] else map[]) {
      assert Installed(rs[..1][..0], k) == map[];
    }
  }

  /** Both methods take the two-argument call through a plain manager and
      run their bodies. */
  lemma ServiceDispatch()
    ensures ExecuteMethod(WriteMessage, Message, ManagerType) == Runs
    ensures ExecuteMethod(ShowMessage, Message, ManagerType) == Runs
  {
  }

  /** The plan of the bound `writeMessage` task, whose lookup of the
      looper's `showMessage` through the manager found `s`. */
  function WritePlan<T>(s: T): Plan<T>
  {
    Plan(false, ExecuteMethod(WriteMessage, Message, ManagerType), [ActivateStep(s, true)], WriteMessage.body.ret)
  }

  /** The plan of the bound `showMessage` task, whose lookup of the
      daemon's `writeMessage` through the manager found `w`. */
  function ShowPlan<T>(w: T): Plan<T>
  {
    Plan(false, ExecuteMethod(ShowMessage, Message, ManagerType), [ShowStep(w)], ShowMessage.body.ret)
  }

  /** A freshly bound task whose executor's `main` has just activated it. */
  const Started: TaskState := TaskState(true, false, Null, 0.0)

  /** A freshly bound task nobody has activated. */
  const Waiting: TaskState := TaskState(false, false, Null, 0.0)

  /** The daemon's first cycle runs `writeMessage`: it stores the message
      as that task's result, marks it executed and activates `showMessage`;
      the looper's next cycle then shows exactly that message and marks
      `showMessage` executed. A further daemon cycle calls nothing. The
      output `printed` holds only `Show` effects, that is, the result
      `showMessage` prints, so the daemon's is empty. */
  lemma {:induction false} Pipeline<T>(w: T, s: T)
    requires w != s
    ensures var v := map[w := Started, s := Waiting];
            var daemon := ThreadCycle(v, ["writeMessage"], map["writeMessage" := w], map[w := WritePlan(s)]);
            && daemon.thrower == None && daemon.ran == [w] && daemon.returned == [Str("Hello Jector!")]
            && daemon.view.Keys == {w, s}
            && daemon.view[w] == TaskState(true, true, Str("Hello Jector!"), 0.0)
            && daemon.view[s] == Started
            && daemon.printed == []
            && var looper := ThreadCycle(daemon.view, ["showMessage"], map["showMessage" := s], map[s := ShowPlan(w)]);
               && looper.thrower == None && looper.ran == [s]
               && looper.printed == [Str("Hello Jector!")]
               && looper.view.Keys == {w, s}
               && looper.view[w] == daemon.view[w]
               && looper.view[s] == TaskState(true, true, Null, 0.0)
               && ThreadCycle(looper.view, ["writeMessage"], map["writeMessage" := w], map[w := WritePlan(s)]).ran == []
  {
    ServiceDispatch();
    var v := map[w := Started, s := Waiting];
    var b := RunOne(v, ActivateStep(s, true));
    assert b.view == v[s := Started] && b.completed && b.printed == [];
    var r := CallSpec(v, WritePlan(s));
    assert r == CallResult(v[s := Started], [], Returned(Str("Hello Jector!")));
    var daemon := ThreadOne(v, "writeMessage", map["writeMessage" := w], map[w := WritePlan(s)]);
    assert daemon.view == v[s := Started][w := TaskState(true, true, Str("Hello Jector!"), 0.0)];
    var b2 := RunOne(daemon.view, ShowStep(w));
    assert b2.view == daemon.view && b2.printed == [Str("Hello Jector!")] && b2.completed;
    var looper := ThreadOne(daemon.view, "showMessage", map["showMessage" := s], map[s := ShowPlan(w)]);
    var again := ThreadOne(looper.view, "writeMessage", map["writeMessage" := w], map[w := WritePlan(s)]);
  }

  /** A body of one step. */
  lemma RunOne<T>(v: View<T>, step: Step<T>) returns (r: Ran<T>)
    ensures r == RunSteps(v, [step]) == RunStep(Ran(v, [], true), step)
  {
    assert [step][..0] == [];
    r := RunSteps(v, [step]);
  }

  /** A cycle over one name. */
  lemma ThreadOne<T>(v: View<T>, name: string, tasks: map<string, T>, plans: map<T, Plan<T>>) returns (c: Cycle<T>)
    ensures c == ThreadCycle(v, [name], tasks, plans) == ThreadStep(Cycle(v, [], [], [], None), name, tasks, plans)
  {
    assert [name][..0] == [];
    c := ThreadCycle(v, [name], tasks, plans);
  }

  /** Binding the same worker twice adds no task name to any executor. */
  lemma BindTwiceSameNames(w: Worker, k: Key)
    ensures Installed(AllRoutes([w, w]), k).Keys == Installed(AllRoutes([w]), k).Keys
  {
    assert AllRoutes([w]) == w.routes by {
      assert [w][..0] == [];
    }
    assert AllRoutes([w, w]) == w.routes + w.routes by {
      assert [w, w][..1] == [w];
    }
    InstalledTwice(w.routes, k);
  }

  /** The routes the example's manager installs on its three keys. */
  lemma ExampleInstalled()
    ensures InstalledOn(AllRoutes([Service]), {Daemon, Looper, Foreground}) ==
            map[Daemon := map["writeMessage" := WriteMessage], Looper := map["showMessage" := ShowMessage], Foreground := map[]]
  {
    ServiceRoutes();
    assert AllRoutes([Service]) == Service.routes by {
      assert [Service][..0] == [];
    }
  }

  /** What binding the example's worker with its message arguments leaves
      on the three registered executors, which held no task before: one
      task on the daemon key and one on the looper key, different from each
      other when binding keeps installed tasks apart, and none on the
      foreground key. */
  lemma ExampleBound(now: map<Key, map<string, WorkerTask>>, before: map<Key, map<string, WorkerTask>>,
                     inst: map<Key, map<string, Method>>, owner: Owner)
    requires before == map[Daemon := map[], Looper := map[], Foreground := map[]]
    requires inst == map[Daemon := map["writeMessage" := WriteMessage], Looper := map["showMessage" := ShowMessage], Foreground := map[]]
    requires BoundFrom(now, before, inst, Message, owner, false)
    ensures now.Keys == {Daemon, Looper, Foreground}
    ensures now[Daemon].Keys == {"writeMessage"} && Wired(now[Daemon]["writeMessage"], WriteMessage, Message, owner, false)
    ensures now[Looper].Keys == {"showMessage"} && Wired(now[Looper]["showMessage"], ShowMessage, Message, owner, false)
    ensures now[Foreground] == map[]
    ensures now[Daemon]["writeMessage"] in Created(now, inst) && now[Looper]["showMessage"] in Created(now, inst)
    ensures CreatedDistinct(now, inst) ==> now[Daemon]["writeMessage"] != now[Looper]["showMessage"]
  {
  }

  /** A repetition-free order of names that are all `n`, and that holds
      `n`, is `[n]`. */
  lemma SingleOrder(order: seq<string>, n: string)
    requires Distinct(order) && n in order
    requires forall i | 0 <= i < |order| :: order[i] == n
    ensures order == [n]
  {
    FirstTwo(order);
  }

  /** The first two names of a repetition-free order differ. */
  lemma FirstTwo(order: seq<string>)
    requires Distinct(order)
    ensures |order| >= 2 ==> order[0] != order[1]
  {
  }

  /** Steps 1 and 2 of the example's `main`: three threads, registered
      under their keys with a manager of the example's worker. */
  method RegisterExample() returns (manager: TaskExecutorsManager, daemon: AppThread, looper: AppThread, ghost regs: set<object>)
    ensures fresh(manager) && fresh(daemon) && fresh(looper)
    ensures manager.Valid() && !manager.monkey && manager.workers == [Service]
    ensures manager.taskExecutors.Keys == {Daemon, Looper, Foreground}
    ensures manager.taskExecutors[Daemon] == Thread(daemon) && manager.taskExecutors[Looper] == Thread(looper)
    ensures TaskMaps(manager.taskExecutors) == map[Daemon := map[], Looper := map[], Foreground := map[]]
    ensures fresh(regs) && regs == {manager} + ExecObjs(manager.taskExecutors)
    ensures forall o | o in regs :: !(o is WorkerTask)
  {
    daemon := new AppThread(Daemon);
    looper := new AppThread(Looper);
    var foreground := new AppThread(Foreground);
    manager := new TaskExecutorsManager([Service]);
    manager.RegisterTaskExecutor(Thread(daemon));
    manager.RegisterTaskExecutor(Thread(looper));
    manager.RegisterTaskExecutor(Thread(foreground));
    ghost var ex := manager.taskExecutors;
    assert ex == map[Daemon := Thread(daemon), Looper := Thread(looper), Foreground := Thread(foreground)];
    regs := {manager} + ExecObjs(ex);
    ExecObjsAreExecutors(ex);
  }

  /** Step 3 of the example's `main`: the worker bound with the message
      arguments, which leaves one new task on the daemon thread and one on
      the looper thread. */
  method BindExample(manager: TaskExecutorsManager, daemon: AppThread, looper: AppThread) returns (w: WorkerTask, ghost s: WorkerTask)
    requires manager.Valid() && !manager.monkey && manager.workers == [Service]
    requires manager.taskExecutors.Keys == {Daemon, Looper, Foreground}
    requires manager.taskExecutors[Daemon] == Thread(daemon) && manager.taskExecutors[Looper] == Thread(looper)
    requires TaskMaps(manager.taskExecutors) == map[Daemon := map[], Looper := map[], Foreground := map[]]
    modifies ExecObjs(manager.taskExecutors)
    ensures manager.taskExecutors == old(manager.taskExecutors)
    ensures daemon.tasks.Keys == {"writeMessage"} && daemon.tasks["writeMessage"] == w
    ensures looper.tasks.Keys == {"showMessage"} && looper.tasks["showMessage"] == s && w != s
    ensures Wired(w, WriteMessage, Message, OfManager(manager), false) && Wired(s, ShowMessage, Message, OfManager(manager), false)
    ensures w.State() == Initial && s.State() == Initial
    ensures fresh(w) && fresh(s)
  {
    ghost var ex := manager.taskExecutors;
    ghost var before := TaskMaps(ex);
    ghost var inst := InstalledOn(AllRoutes(manager.workers), ex.Keys);
    ExampleInstalled();
    ExecObjsAreExecutors(ex);
    manager.Bind(Message);
    ghost var now := TaskMaps(ex);
    assert manager.workers == [Service];
    ExampleBound(now, before, inst, OfManager(manager));
    w := manager.GetTaskExecutors()[Daemon].Tasks()["writeMessage"];
    s := looper.tasks["showMessage"];
    assert daemon.tasks == now[Daemon] && looper.tasks == now[Looper];
  }

  /** The lookup in the body of `writeMessage` finds the looper's task. */
  lemma WritePlanned(w: WorkerTask, s: WorkerTask, manager: TaskExecutorsManager, looper: AppThread)
    requires Wired(w, WriteMessage, Message, OfManager(manager), false) && !manager.monkey
    requires Looper in manager.taskExecutors && manager.taskExecutors[Looper] == Thread(looper)
    requires "showMessage" in looper.tasks && looper.tasks["showMessage"] == s
    ensures w.Planned() == WritePlan(s)
  {
    ServiceDispatch();
    assert ResolveSteps(w.owner, WriteMessage.body.effects) == [ActivateStep(s, true)];
  }

  /** The lookup in the body of `showMessage` finds the daemon's task. */
  lemma ShowPlanned(w: WorkerTask, s: WorkerTask, manager: TaskExecutorsManager, daemon: AppThread)
    requires Wired(s, ShowMessage, Message, OfManager(manager), false) && !manager.monkey
    requires Daemon in manager.taskExecutors && manager.taskExecutors[Daemon] == Thread(daemon)
    requires "writeMessage" in daemon.tasks && daemon.tasks["writeMessage"] == w
    ensures s.Planned() == ShowPlan(w)
  {
    ServiceDispatch();
    assert ResolveSteps(s.owner, ShowMessage.body.effects) == [ShowStep(w)];
  }

  /** A task map of one task reads what that task's registry reads, and
      plans as that task does. */
  lemma OneTask(tasks: map<string, WorkerTask>, n: string, t: WorkerTask)
    requires tasks.Keys == {n} && tasks[n] == t
    ensures tasks == map[n := t] && tasks.Values == {t}
    ensures PlanFrames(tasks) == t.owner.Frame()
    ensures PlansOf(tasks) == map[t := t.Planned()]
  {
    assert tasks[n] == t;
  }

  /** Steps 4 and 5 of the example's `main`: both threads enabled, and the
      daemon's `writeMessage` activated through the manager. */
  method EnableExample(manager: TaskExecutorsManager, daemon: AppThread, looper: AppThread, w: WorkerTask, ghost s: WorkerTask)
    requires Daemon in manager.taskExecutors && manager.taskExecutors[Daemon] == Thread(daemon)
    requires "writeMessage" in daemon.tasks && daemon.tasks["writeMessage"] == w && w != s
    modifies daemon, looper, w
    ensures daemon.active && looper.active
    ensures daemon.tasks == old(daemon.tasks) && looper.tasks == old(looper.tasks)
    ensures manager.taskExecutors == old(manager.taskExecutors)
    ensures w.State() == old(w.State()).(active := true) && s.State() == old(s.State())
  {
    looper.SetActive(true);
    daemon.SetActive(true);
    manager.GetTaskExecutors()[Daemon].Tasks()["writeMessage"].SetActive(true);
  }

  /** The example's `main`: steps 1 to 3, then both threads enabled and the
      daemon's `writeMessage` activated through the manager. What the two
      bound tasks then plan reads only `regs`. */
  method StartExample() returns (daemon: AppThread, looper: AppThread, w: WorkerTask, ghost s: WorkerTask, ghost regs: set<object>)
    ensures fresh(daemon) && fresh(looper) && fresh(w) && fresh(s)
    ensures Wiring(daemon, looper, w, s, regs)
    ensures w.State() == Started && s.State() == Waiting
  {
    var manager;
    manager, daemon, looper, regs := RegisterExample();
    ghost var ex := manager.taskExecutors;
    w, s := BindExample(manager, daemon, looper);
    EnableExample(manager, daemon, looper, w, s);
    assert manager.taskExecutors == ex;
    WritePlanned(w, s, manager, looper);
    ShowPlanned(w, s, manager, daemon);
    OneTask(daemon.tasks, "writeMessage", w);
    OneTask(looper.tasks, "showMessage", s);
    assert w.owner.Frame() == regs && s.owner.Frame() == regs;
    assert w !in regs && s !in regs;
  }

  /** One cycle of a running, enabled thread whose task map holds the one
      task `t` under the name `n`, as the value-level cycle over `[n]`. */
  method CycleOne(thread: AppThread, n: string, ghost t: WorkerTask, ghost p: Plan<WorkerTask>, ghost v: View<WorkerTask>,
                  ghost world: set<WorkerTask>, ghost regs: set<object>)
    returns (printed: seq<Value>)
    requires thread.tasks == map[n := t]
    requires t in world && regs !! world && forall u | u in world :: u.owner.Frame() <= regs
    requires t.Planned() == p && Targets(p.steps) <= world && States(world) == v
    modifies world
    ensures forall u | u in world :: u.owner.Frame() == old(u.owner.Frame()) && u.Planned() == old(u.Planned())
    ensures States(world) == ThreadCycle(v, [n], map[n := t], map[t := p]).view
    ensures printed == ThreadCycle(v, [n], map[n := t], map[t := p]).printed
  {
    OneTask(thread.tasks, n, t);
    ghost var order;
    printed, order := thread.ExecuteTasks(Bool(false), world, regs);
    assert n in order;
    SingleOrder(order, n);
  }

  /** The daemon's first cycle of the example, as a view. */
  lemma DaemonView<T>(w: T, s: T)
    requires w != s
    ensures ThreadCycle(map[w := Started, s := Waiting], ["writeMessage"], map["writeMessage" := w], map[w := WritePlan(s)]).view
            == map[w := Written, s := Started]
  {
    Pipeline(w, s);
  }

  /** The looper's next cycle, as a view and what it shows. */
  lemma LooperView<T>(w: T, s: T)
    requires w != s
    ensures var c := ThreadCycle(map[w := Written, s := Started], ["showMessage"], map["showMessage" := s], map[s := ShowPlan(w)]);
            c.printed == [Str("Hello Jector!")] && w in c.view && c.view[w] == Written
  {
    Pipeline(w, s);
    DaemonView(w, s);
  }

  /** After the example's `main`: each thread holds its one bound task,
      the two tasks plan each other's lookup, and what they plan reads only
      `regs`, which holds neither task. */
  ghost predicate Wiring(daemon: AppThread, looper: AppThread, w: WorkerTask, s: WorkerTask, regs: set<object>)
    reads regs
  {
    && daemon in regs && looper in regs && regs !! {w, s}
    && daemon.tasks == map["writeMessage" := w] && looper.tasks == map["showMessage" := s] && w != s
    && w.owner.Obj() in regs && w.owner.Frame() <= regs
    && s.owner.Obj() in regs && s.owner.Frame() <= regs
    && w.Planned() == WritePlan(s) && s.Planned() == ShowPlan(w)
  }

  /** The states of a world of two tasks. */
  lemma StatesPair(w: WorkerTask, s: WorkerTask)
    requires w != s
    ensures States({w, s}) == map[w := w.State(), s := s.State()]
    ensures w in States({w, s}) && States({w, s})[w] == w.State()
    ensures s in States({w, s}) && States({w, s})[s] == s.State()
  {
  }

  /** The message `writeMessage` stores. */
  const Written: TaskState := TaskState(true, true, Str("Hello Jector!"), 0.0)

  /** One cycle of the daemon thread after the example's `main`: it stores
      "Hello Jector!" as the result of `writeMessage` and activates
      `showMessage`. */
  method DaemonStep(daemon: AppThread, looper: AppThread, w: WorkerTask, ghost s: WorkerTask, ghost regs: set<object>)
    requires Wiring(daemon, looper, w, s, regs)
    requires w.State() == Started && s.State() == Waiting
    modifies w, s
    ensures Wiring(daemon, looper, w, s, regs)
    ensures w.State() == Written && s.State() == Started
  {
    ghost var world := {w, s};
    ghost var v := map[w := Started, s := Waiting];
    StatesPair(w, s);
    DaemonView(w, s);
    var out := CycleOne(daemon, "writeMessage", w, WritePlan(s), v, world, regs);
    StatesPair(w, s);
  }

  /** The looper's next cycle: it shows the message `writeMessage` stored
      and leaves that task as it was. */
  method LooperStep(daemon: AppThread, looper: AppThread, w: WorkerTask, ghost s: WorkerTask, ghost regs: set<object>)
    returns (shown: seq<Value>)
    requires Wiring(daemon, looper, w, s, regs)
    requires w.State() == Written && s.State() == Started
    modifies w, s
    ensures shown == [Str("Hello Jector!")]
    ensures w.State() == Written
  {
    ghost var world := {w, s};
    ghost var v := map[w := Written, s := Started];
    StatesPair(w, s);
    LooperView(w, s);
    shown := CycleOne(looper, "showMessage", s, ShowPlan(w), v, world, regs);
    StatesPair(w, s);
  }

  /** The example's `main` run on new threads, followed by one cycle of the
      daemon thread and then one of the looper thread: the looper shows
      exactly the message the daemon's `writeMessage` returned. */
  method RunExample() returns (written: Value, shown: seq<Value>)
    ensures written == Str("Hello Jector!")
    ensures shown == [Str("Hello Jector!")]
  {
    var daemon, looper, w, s, regs := StartExample();
    DaemonStep(daemon, looper, w, s, regs);
    shown := LooperStep(daemon, looper, w, s, regs);
    written := w.GetResult();
  }
}
