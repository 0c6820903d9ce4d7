/** The heap side of Jector: tasks, the two executor flavours and the
    registries, as classes whose fields the operations update in place. */
module Jector {
  import opened Values
  import opened Reflection
  import opened Invocation
  import opened Cycles
  import opened Binding

  /** A registered executor: a thread-backed `AppThread` or a tick-driven
      `MonkeyTaskExecutor`. */
  datatype ExecutorRef = Thread(thread: AppThread) | Tick(tick: MonkeyTaskExecutor)
  {
    function Obj(): object
    {
      match this
      case Thread(t) => t
      case Tick(m) => m
    }

    /** The executor's key: in the source, its class. */
    function Key(): Key
    {
      match this
      case Thread(t) => t.key
      case Tick(m) => m.key
    }

    /** `getTasks()`. */
    function Tasks(): map<string, WorkerTask>
      reads Obj()
    {
      match this
      case Thread(t) => t.tasks
      case Tick(m) => m.tasks
    }
  }

  /** The objects holding the task maps of the given executors. */
  ghost function ExecObjs(executors: map<Key, ExecutorRef>): set<object>
  {
    set k | k in executors :: executors[k].Obj()
  }

  /** The registry a bound task calls back into: a `TaskExecutorsManager`
      or a `TaskBinder` (or their Monkey subclasses). */
  datatype Owner = OfManager(manager: TaskExecutorsManager) | OfBinder(binder: TaskBinder)
  {
    function Obj(): object
    {
      match this
      case OfManager(m) => m
      case OfBinder(b) => b
    }

    /** The class of the registry, passed as the last argument. */
    function Type(): JType
    {
      match this
      case OfManager(m) => if m.monkey then MonkeyManagerType else ManagerType
      case OfBinder(b) => if b.monkey then MonkeyBinderType else BinderType
    }

    /** `getTaskExecutors()`. */
    function Executors(): map<Key, ExecutorRef>
      reads Obj()
    {
      match this
      case OfManager(m) => m.taskExecutors
      case OfBinder(b) => b.taskExecutors
    }

    /** Everything a body's lookups through this registry read. */
    ghost function Frame(): set<object>
      reads Obj()
    {
      {Obj()} + ExecObjs(Executors())
    }
  }

  /** The lookup chain of a task body,
      `registry.getTaskExecutors().get(key).getTasks().get(name)`;
      `None` where a link is null, so that using it throws a
      NullPointerException. */
  function Lookup(owner: Owner, key: Key, name: string): Option<WorkerTask>
    reads owner.Frame()
  {
    var executors := owner.Executors();
    if key in executors && name in executors[key].Tasks() then Some(executors[key].Tasks()[name]) else None
  }

  function ResolveStep(owner: Owner, e: Effect): Step<WorkerTask>
    reads owner.Frame()
  {
    match Lookup(owner, e.executor, e.task)
    case None => Unresolved
    case Some(t) => if e.Activate? then ActivateStep(t, e.flag) else ShowStep(t)
  }

  function ResolveSteps(owner: Owner, effects: seq<Effect>): (r: seq<Step<WorkerTask>>)
    reads owner.Frame()
    ensures |r| == |effects|
    ensures forall i | 0 <= i < |effects| :: r[i] == ResolveStep(owner, effects[i])
    decreases |effects|
  {
    if effects == [] then [] else ResolveSteps(owner, effects[..|effects| - 1]) + [ResolveStep(owner, effects[|effects| - 1])]
  }

  /** The states of the tasks in `world`. */
  ghost function States(world: set<WorkerTask>): View<WorkerTask>
    reads world
  {
    map t | t in world :: t.State()
  }

  /** The older task record `Task`: a one-way `executed` flag and a cached
      result. */
  class Task {
    var executed: bool
    var result: Value

    constructor ()
      ensures !executed && result == Null
    {
      executed := false;
      result := Null;
    }

    method SetResult(result: Value)
      modifies this
      ensures this.result == result && executed == old(executed)
    {
      this.result := result;
    }

    function GetResult(): Value
      reads this
    {
      result
    }

    function IsExecuted(): bool
      reads this
    {
      executed
    }

    method SetExecuted()
      modifies this
      ensures executed && result == old(result)
    {
      executed := true;
    }
  }

  /** A `WorkerTask` installed by a registry's `bind`: the routed method,
      the bound arguments and the registry it calls back into, and whether
      it was created as a `MonkeyWorkerTask`. */
  class WorkerTask {
    var executed: bool
    var active: bool
    var result: Value
    /** `MonkeyWorkerTask.timePerFrame`; a Java float field, zero at first. */
    var timePerFrame: real
    const monkey: bool
    const routed: Method
    const args: Option<MethodArguments>
    const owner: Owner

    constructor (routed: Method, args: Option<MethodArguments>, owner: Owner, monkey: bool)
      ensures !active && !executed && result == Null && timePerFrame == 0.0
      ensures this.routed == routed && this.args == args && this.owner == owner && this.monkey == monkey
    {
      this.routed := routed;
      this.args := args;
      this.owner := owner;
      this.monkey := monkey;
      executed := false;
      active := false;
      result := Null;
      timePerFrame := 0.0;
    }

    function State(): TaskState
      reads this
    {
      TaskState(active, executed, result, timePerFrame)
    }

    function GetResult(): Value
      reads this
    {
      result
    }

    function IsActive(): bool
      reads this
    {
      active
    }

    function IsExecuted(): bool
      reads this
    {
      executed
    }

    method SetResult(result: Value)
      modifies this
      ensures State() == old(State()).(result := result)
    {
      this.result := result;
    }

    method SetActive(active: bool)
      modifies this
      ensures State() == old(State()).(active := active)
    {
      this.active := active;
    }

    method SetExecuted()
      modifies this
      ensures State() == old(State()).(executed := true)
    {
      executed := true;
    }

    method SetTimePerFrame(timePerFrame: real)
      modifies this
      ensures State() == old(State()).(timePerFrame := timePerFrame)
    {
      this.timePerFrame := timePerFrame;
    }

    /** What `call()` does, given the registry's current maps. */
    ghost function Planned(): Plan<WorkerTask>
      reads owner.Frame()
    {
      Plan(monkey, ExecuteMethod(routed, args, owner.Type()), ResolveSteps(owner, routed.body.effects), routed.body.ret)
    }

    /** `call()`: `executeMethod(method, args, registry)`, which runs the
        shape check and then the body. The body's effects reach other
        tasks through the registry; `world` is a set of tasks holding every
        task they reach. */
    method Call(ghost world: set<WorkerTask>) returns (outcome: CallOutcome, printed: seq<Value>)
      requires Targets(Planned().steps) <= world
      modifies world
      ensures CallResult(States(world), printed, outcome) == CallSpec(old(States(world)), old(Planned()))
    {
      var d := ExecuteMethod(routed, args, owner.Type());
      if d.Escapes? {
        return Threw(d.error), [];
      }
      if d.Swallowed? {
        return Returned(Null), [];
      }
      // The lookups read only the registry, which a body cannot change,
      // so each can be made before the effects run.
      var steps := ResolveSteps(owner, routed.body.effects);
      var completed;
      completed, printed := RunBody(steps, world);
      outcome := Returned(if completed && routed.body.ret.Returns? then routed.body.ret.value else Null);
    }
  }

  /** Runs the effects of a body in order, up to the first one whose lookup
      found nothing. */
  method RunBody(steps: seq<Step<WorkerTask>>, ghost world: set<WorkerTask>) returns (completed: bool, printed: seq<Value>)
    requires Targets(steps) <= world
    modifies world
    ensures RunSteps(old(States(world)), steps) == Ran(States(world), printed, completed)
  {
    ghost var v0 := States(world);
    var i := 0;
    printed := [];
    while i < |steps|
      invariant 0 <= i <= |steps|
      invariant RunSteps(v0, steps[..i]) == Ran(States(world), printed, true)
    {
      assert steps[..i + 1][..i] == steps[..i];
      if steps[i].Unresolved? {
        assert steps[..|steps|] == steps;
        RunStepsStopped(v0, steps, i + 1);
        return false, printed;
      }
      assert steps[i].target in Targets(steps);
      var shown := Perform(steps[i], world, printed);
      printed := printed + shown;
      i := i + 1;
    }
    assert steps[..i] == steps;
    completed := true;
  }

  /** One effect of a body on the tasks it reaches. */
  method Perform(step: Step<WorkerTask>, ghost world: set<WorkerTask>, ghost printed: seq<Value>) returns (shown: seq<Value>)
    requires !step.Unresolved? && step.target in world
    modifies world
    ensures Ran(States(world), printed + shown, true) == RunStep(Ran(old(States(world)), printed, true), step)
  {
    ghost var before := States(world);
    match step {
      case ActivateStep(t, flag) =>
        t.SetActive(flag);
        assert States(world) == before[t := before[t].(active := flag)];
        shown := [];
      case ShowStep(t) =>
        shown := [t.result];
    }
  }

  /** A registry and its executors are never tasks. */
  lemma FrameHoldsNoTask(owner: Owner, world: set<WorkerTask>)
    ensures owner.Frame() !! world
    ensures forall o | o in owner.Frame() :: allocated(o)
  {
    forall o | o in owner.Frame() ensures o !in world {
      if o in ExecObjs(owner.Executors()) {
        var k :| k in owner.Executors() && owner.Executors()[k].Obj() == o;
      }
    }
  }

  /** Once the body has stopped, later steps change nothing. */
  lemma {:induction false} RunStepsStopped<T>(v: View<T>, steps: seq<Step<T>>, i: nat)
    requires i <= |steps| && !RunSteps(v, steps[..i]).completed
    ensures RunSteps(v, steps) == RunSteps(v, steps[..i])
    decreases |steps| - i
  {
    if i < |steps| {
      assert steps[..i + 1][..i] == steps[..i];
      RunStepsStopped(v, steps, i + 1);
    } else {
      assert steps[..i] == steps;
    }
  }

  /** Everything the plans of the given tasks read. */
  ghost function PlanFrames(tasks: map<string, WorkerTask>): set<object>
    reads set t | t in tasks.Values :: t.owner.Obj()
  {
    set t, o | t in tasks.Values && o in t.owner.Frame() :: o
  }

  /** The plan of every task of an executor's task map. */
  ghost function PlansOf(tasks: map<string, WorkerTask>): (r: map<WorkerTask, Plan<WorkerTask>>)
    reads (set t | t in tasks.Values :: t.owner.Obj()), PlanFrames(tasks)
    ensures r.Keys == tasks.Values
  {
    map t | t in tasks.Values :: t.Planned()
  }

  /** `world` holds the tasks of the map and every task their bodies
      reach; `regs` holds the registries and executors their lookups read,
      and no task. */
  ghost predicate Covers(world: set<WorkerTask>, regs: set<object>, tasks: map<string, WorkerTask>)
    reads (set t | t in tasks.Values :: t.owner.Obj()), PlanFrames(tasks)
  {
    && tasks.Values <= world
    && regs !! world
    && PlanFrames(tasks) <= regs
    && forall t | t in tasks.Values :: Targets(t.Planned().steps) <= world
  }

  /** One turn of the loop of `AppThread.executeTasks`: the visit of `name` extends
      the cycle over `order` by one step, and a call that throws is
      recorded as that task's. */
  method Turn(t: WorkerTask, ghost world: set<WorkerTask>, ghost regs: set<object>, ghost v0: View<WorkerTask>, ghost c: Cycle<WorkerTask>,
              ghost order: seq<string>, ghost name: string, ghost tasks: map<string, WorkerTask>, ghost plans: map<WorkerTask, Plan<WorkerTask>>)
    returns (printed: seq<Value>, threw: bool, ghost d: Cycle<WorkerTask>)
    requires name in tasks && tasks[name] == t && plans == PlansOf(tasks)
    requires t in world && Targets(plans[t].steps) <= world
    requires regs !! world && PlanFrames(tasks) <= regs
    requires c == ThreadCycle(v0, order, tasks, plans) && c.thrower.None? && c.view == States(world)
    modifies world
    ensures PlanFrames(tasks) <= regs && plans == PlansOf(tasks)
    ensures d == ThreadCycle(v0, order + [name], tasks, plans)
    ensures d.view == States(world) && d.printed == c.printed + printed
    ensures threw <==> d.thrower.Some?
    ensures threw ==> d.thrower == Some(t)
  {
    ThreadCycleSnoc(v0, order, name, tasks, plans);
    printed, threw := Visit(t, world, regs, c, name, tasks, plans);
    d := ThreadStep(c, name, tasks, plans);
    if threw {
      ThreadStepThrower(c, name, tasks, plans);
    }
  }

  /** The loop of `AppThread.executeTasks` over the executor's task map `tasks`. */
  method ThreadPass(tasks: map<string, WorkerTask>, arguments: Value, ghost world: set<WorkerTask>, ghost regs: set<object>)
    returns (printed: seq<Value>, ghost order: seq<string>)
    requires Covers(world, regs, tasks)
    modifies world
    ensures Distinct(order) && forall i | 0 <= i < |order| :: order[i] in tasks
    ensures var c := ThreadCycle(old(States(world)), order, tasks, old(PlansOf(tasks)));
            && States(world) == c.view
            && printed == c.printed
            && (c.thrower.None? ==> forall n | n in tasks :: n in order)
            && (c.thrower.Some? ==> order != [] && tasks[order[|order| - 1]] == c.thrower.value)
  {
    ghost var v0 := States(world);
    ghost var plans := PlansOf(tasks);
    assert forall u | u in plans :: Targets(plans[u].steps) <= world;
    ghost var c := Cycle(v0, [], [], [], None);
    var rest := tasks.Keys;
    order, printed := [], [];
    var threw := false;
    // a call that throws ends the loop: the exception leaves it for the `catch` around it
    while rest != {} && !threw
      invariant rest <= tasks.Keys && Distinct(order)
      invariant forall n :: n in order <==> n in tasks && n !in rest
      invariant PlanFrames(tasks) <= regs && plans == PlansOf(tasks)
      invariant forall u | u in plans :: Targets(plans[u].steps) <= world
      invariant c == ThreadCycle(v0, order, tasks, plans)
      invariant c.view == States(world) && c.printed == printed && (threw <==> c.thrower.Some?)
      invariant threw ==> order != [] && tasks[order[|order| - 1]] == c.thrower.value
      decreases rest
    {
      var n :| n in rest;
      DistinctSnoc(order, n);
      var out;
      out, threw, c := Turn(tasks[n], world, regs, v0, c, order, n, tasks, plans);
      printed := printed + out;
      rest := rest - {n};
      order := order + [n];
    }
  }

  /** The body of the loop of `AppThread.executeTasks` for the name `name`:
      an executed or inactive task is passed over; otherwise it is called,
      and when the call returns its result is stored and it is marked
      executed. */
  method Visit(t: WorkerTask, ghost world: set<WorkerTask>, ghost regs: set<object>, ghost c: Cycle<WorkerTask>, ghost name: string,
               ghost tasks: map<string, WorkerTask>, ghost plans: map<WorkerTask, Plan<WorkerTask>>)
    returns (printed: seq<Value>, threw: bool)
    requires name in tasks && tasks[name] == t && plans == PlansOf(tasks)
    requires t in world && Targets(plans[t].steps) <= world
    requires regs !! world && PlanFrames(tasks) <= regs
    requires c.thrower.None? && c.view == States(world)
    modifies world
    ensures PlanFrames(tasks) <= regs && plans == PlansOf(tasks)
    ensures var d := ThreadStep(c, name, tasks, plans);
            d.view == States(world) && d.printed == c.printed + printed && (threw <==> d.thrower.Some?)
  {
    forall u | u in tasks.Values ensures u.owner.Obj() in regs {
      assert u.owner.Obj() in u.owner.Frame();
    }
    printed, threw := VisitTask(t, world, c, name, tasks, plans);
    assert unchanged(regs);
    assert PlanFrames(tasks) == old(PlanFrames(tasks));
  }

  /** The visit itself, for a task whose plan is `plans[t]`. */
  method VisitTask(t: WorkerTask, ghost world: set<WorkerTask>, ghost c: Cycle<WorkerTask>, ghost name: string,
                   ghost tasks: map<string, WorkerTask>, ghost plans: map<WorkerTask, Plan<WorkerTask>>)
    returns (printed: seq<Value>, threw: bool)
    requires name in tasks && tasks[name] == t && t in plans && plans[t] == t.Planned()
    requires t in world && Targets(plans[t].steps) <= world
    requires c.thrower.None? && c.view == States(world)
    modifies world
    ensures var d := ThreadStep(c, name, tasks, plans);
            d.view == States(world) && d.printed == c.printed + printed && (threw <==> d.thrower.Some?)
  {
    printed, threw := [], false;
    if t.IsExecuted() {
    } else if !t.IsActive() {
    } else {
      var outcome;
      outcome, printed := t.Call(world);
      match outcome {
        case Threw(_) =>
          threw := true;
        case Returned(x) =>
          Record(t, x, world);
      }
    }
  }

  /** `setResult(x)` then `setExecuted()`. */
  method Record(t: WorkerTask, x: Value, ghost world: set<WorkerTask>)
    requires t in world
    modifies t
    ensures States(world) == old(States(world))[t := old(t.State()).(result := x, executed := true)]
  {
    t.SetResult(x);
    t.SetExecuted();
  }

  /** A thread-backed executor (`AppThread`). */
  class AppThread {
    const key: Key
    var tasks: map<string, WorkerTask>
    var terminate: bool
    var active: bool

    constructor (key: Key)
      ensures this.key == key && tasks == map[] && !terminate && !active
    {
      this.key := key;
      tasks := map[];
      terminate := false;
      active := false;
    }

    function IsActive(): bool
      reads this
    {
      active
    }

    method SetActive(active: bool)
      modifies this
      ensures this.active == active && tasks == old(tasks) && terminate == old(terminate)
    {
      this.active := active;
    }

    /** `addTask`: the task is stored under the method's name, replacing
        any task of that name. */
    method AddTask(m: Method, task: WorkerTask)
      modifies this
      ensures tasks == old(tasks)[m.name := task]
      ensures active == old(active) && terminate == old(terminate)
    {
      tasks := tasks[m.name := task];
    }

    function GetTasks(): map<string, WorkerTask>
      reads this
    {
      tasks
    }

    method Terminate()
      modifies this
      ensures terminate && tasks == old(tasks) && active == old(active)
    {
      terminate := true;
    }

    function IsTerminated(): bool
      reads this
    {
      terminate
    }

    /** `executeTasks`: one pass over the names of the task map, in the
        map's iteration order `order`. The argument is ignored. */
    method ExecuteTasks(arguments: Value, ghost world: set<WorkerTask>, ghost regs: set<object>)
      returns (printed: seq<Value>, ghost order: seq<string>)
      requires Covers(world, regs, tasks)
      modifies world
      ensures Distinct(order) && forall i | 0 <= i < |order| :: order[i] in tasks
      ensures var c := ThreadCycle(old(States(world)), order, tasks, old(PlansOf(tasks)));
              && States(world) == c.view
              && printed == c.printed
              && (c.thrower.None? ==> forall n | n in tasks :: n in order)
              && (c.thrower.Some? ==> order != [] && tasks[order[|order| - 1]] == c.thrower.value)
    {
      printed, order := ThreadPass(tasks, arguments, world, regs);
    }

    /** One iteration of the polling loop of `run()`: the loop stops once
        the thread is terminated, passes while it is inactive, and runs one
        cycle of `executeTasks` otherwise. */
    method RunIteration(ghost world: set<WorkerTask>, ghost regs: set<object>)
      returns (running: bool, printed: seq<Value>, ghost order: seq<string>)
      requires Covers(world, regs, tasks)
      modifies world
      ensures running == !terminate && tasks == old(tasks) && active == old(active)
      ensures !(running && active) ==> order == []
      ensures Distinct(order) && forall i | 0 <= i < |order| :: order[i] in tasks
      ensures var c := ThreadCycle(old(States(world)), order, tasks, old(PlansOf(tasks)));
              && States(world) == c.view
              && printed == c.printed
              && (running && active && c.thrower.None? ==> forall n | n in tasks :: n in order)
              && (c.thrower.Some? ==> order != [] && tasks[order[|order| - 1]] == c.thrower.value)
    {
      running := !IsTerminated();
      printed, order := [], [];
      if running && IsActive() {
        printed, order := ExecuteTasks(Bool(IsTerminated()), world, regs);
      }
    }
  }

  /** One turn of the loop of `MonkeyTaskExecutor.executeTasks(arg)`: the visit of `name` extends
      the cycle over `order` by one step, and a call that throws is
      recorded as that task's. */
  method MonkeyTurn(t: WorkerTask, arg: Value, ghost world: set<WorkerTask>, ghost regs: set<object>, ghost v0: View<WorkerTask>, ghost c: Cycle<WorkerTask>,
                    ghost order: seq<string>, ghost name: string, ghost tasks: map<string, WorkerTask>, ghost plans: map<WorkerTask, Plan<WorkerTask>>)
    returns (printed: seq<Value>, threw: bool, ghost d: Cycle<WorkerTask>)
    requires name in tasks && tasks[name] == t && plans == PlansOf(tasks)
    requires t in world && Targets(plans[t].steps) <= world
    requires regs !! world && PlanFrames(tasks) <= regs
    requires c == MonkeyCycle(v0, order, tasks, plans, arg) && c.thrower.None? && c.view == States(world)
    modifies world
    ensures PlanFrames(tasks) <= regs && plans == PlansOf(tasks)
    ensures d == MonkeyCycle(v0, order + [name], tasks, plans, arg)
    ensures d.view == States(world) && d.printed == c.printed + printed
    ensures threw <==> d.thrower.Some?
    ensures threw ==> d.thrower == Some(t)
    ensures threw ==> order + [name] != [] && tasks[(order + [name])[|order + [name]| - 1]] == d.thrower.value
  {
    MonkeyCycleSnoc(v0, order, name, tasks, plans, arg);
    printed, threw := MonkeyVisit(t, arg, world, regs, c, name, tasks, plans);
    d := MonkeyStep(c, name, tasks, plans, arg);
    if threw {
      MonkeyStepThrower(c, name, tasks, plans, arg);
    }
  }

  /** The loop of `MonkeyTaskExecutor.executeTasks` over the executor's task map `tasks`. */
  method MonkeyPass(tasks: map<string, WorkerTask>, arguments: Value, ghost world: set<WorkerTask>, ghost regs: set<object>)
    returns (printed: seq<Value>, ghost order: seq<string>)
    requires Covers(world, regs, tasks)
    modifies world
    ensures Distinct(order) && forall i | 0 <= i < |order| :: order[i] in tasks
    ensures var c := MonkeyCycle(old(States(world)), order, tasks, old(PlansOf(tasks)), arguments);
            && States(world) == c.view
            && printed == c.printed
            && (c.thrower.None? ==> forall n | n in tasks :: n in order)
            && (c.thrower.Some? ==> order != [] && tasks[order[|order| - 1]] == c.thrower.value)
  {
    ghost var v0 := States(world);
    ghost var plans := PlansOf(tasks);
    assert forall u | u in plans :: Targets(plans[u].steps) <= world;
    ghost var c := Cycle(v0, [], [], [], None);
    var rest := tasks.Keys;
    order, printed := [], [];
    var threw := false;
    // a call that throws ends the loop: the exception leaves it for the `catch` around it
    while rest != {} && !threw
      invariant rest <= tasks.Keys && Distinct(order)
      invariant forall n :: n in order <==> n in tasks && n !in rest
      invariant PlanFrames(tasks) <= regs && plans == PlansOf(tasks)
      invariant forall u | u in plans :: Targets(plans[u].steps) <= world
      invariant c == MonkeyCycle(v0, order, tasks, plans, arguments)
      invariant c.view == States(world) && c.printed == printed && (threw <==> c.thrower.Some?)
      invariant threw ==> order != [] && tasks[order[|order| - 1]] == c.thrower.value
      decreases rest
    {
      var n :| n in rest;
      DistinctSnoc(order, n);
      var out;
      out, threw, c := MonkeyTurn(tasks[n], arguments, world, regs, v0, c, order, n, tasks, plans);
      printed := printed + out;
      rest := rest - {n};
      order := order + [n];
    }
  }

  /** The body of the loop of `MonkeyTaskExecutor.executeTasks(arg)` for
      the name `name`: an inactive task, or one that is not a
      `MonkeyWorkerTask`, is passed over; otherwise the cast of the argument
      to a float throws unless it is one, the task's time per frame is set
      to it, the task is called, and when the call returns its result is
      stored. */
  method MonkeyVisit(t: WorkerTask, arg: Value, ghost world: set<WorkerTask>, ghost regs: set<object>, ghost c: Cycle<WorkerTask>, ghost name: string,
                     ghost tasks: map<string, WorkerTask>, ghost plans: map<WorkerTask, Plan<WorkerTask>>)
    returns (printed: seq<Value>, threw: bool)
    requires name in tasks && tasks[name] == t && plans == PlansOf(tasks)
    requires t in world && Targets(plans[t].steps) <= world
    requires regs !! world && PlanFrames(tasks) <= regs
    requires c.thrower.None? && c.view == States(world)
    modifies world
    ensures PlanFrames(tasks) <= regs && plans == PlansOf(tasks)
    ensures var d := MonkeyStep(c, name, tasks, plans, arg);
            d.view == States(world) && d.printed == c.printed + printed && (threw <==> d.thrower.Some?)
  {
    forall u | u in tasks.Values ensures u.owner.Obj() in regs {
      assert u.owner.Obj() in u.owner.Frame();
    }
    printed, threw := MonkeyVisitTask(t, arg, world, c, name, tasks, plans);
    assert unchanged(regs);
    assert PlanFrames(tasks) == old(PlanFrames(tasks));
  }

  /** The visit itself, for a task whose plan is `plans[t]`. */
  method MonkeyVisitTask(t: WorkerTask, arg: Value, ghost world: set<WorkerTask>, ghost c: Cycle<WorkerTask>, ghost name: string,
                         ghost tasks: map<string, WorkerTask>, ghost plans: map<WorkerTask, Plan<WorkerTask>>)
    returns (printed: seq<Value>, threw: bool)
    requires name in tasks && tasks[name] == t && t in plans && plans[t] == t.Planned()
    requires t in world && Targets(plans[t].steps) <= world
    requires c.thrower.None? && c.view == States(world)
    modifies world
    ensures var d := MonkeyStep(c, name, tasks, plans, arg);
            d.view == States(world) && d.printed == c.printed + printed && (threw <==> d.thrower.Some?)
  {
    printed, threw := [], false;
    if !t.IsActive() {
    } else if !t.monkey {
    } else if !arg.Real? {
      threw := true;
    } else {
      Stamp(t, arg.r, world);
      var outcome;
      outcome, printed := t.Call(world);
      match outcome {
        case Threw(_) =>
          threw := true;
        case Returned(x) =>
          Store(t, x, world);
      }
    }
  }

  /** `monkeyTask.setTimePerFrame(tpf)`, which leaves the task's plan as it
      was. */
  method Stamp(t: WorkerTask, tpf: real, ghost world: set<WorkerTask>)
    requires t in world
    modifies t
    ensures States(world) == old(States(world))[t := old(t.State()).(timePerFrame := tpf)]
    ensures t.Planned() == old(t.Planned())
  {
    FrameHoldsNoTask(t.owner, {t});
    t.SetTimePerFrame(tpf);
  }

  /** `monkeyTask.setResult(x)`. */
  method Store(t: WorkerTask, x: Value, ghost world: set<WorkerTask>)
    requires t in world
    modifies t
    ensures States(world) == old(States(world))[t := old(t.State()).(result := x)]
  {
    t.SetResult(x);
  }

  /** The argument map of the `MonkeyMethodArguments` an executor binds its
      tasks with: `MONKEY_EXECUTOR` names the executor, here by its key. */
  function MonkeyArguments(key: Key): (r: MethodArguments)
    ensures r.monkey && r.args.Some? && "MONKEY_EXECUTOR" in r.args.value
  {
    MethodArguments(true, Some(map["MONKEY_EXECUTOR" := Str(key)]))
  }

  /** A tick-driven executor (`MonkeyTaskExecutor`), a jMonkeyEngine app
      state that runs its tasks on each `update`. Its executors registry is
      its own `MonkeyTaskBinder`. */
  class MonkeyTaskExecutor {
    const key: Key
    /** The app state's id, given to `BaseAppState`. */
    const id: string
    var tasks: map<string, WorkerTask>
    const taskBinder: MonkeyTaskBinder
    var terminate: bool
    /** `BaseAppState`'s enabled flag, which `isActive`/`setActive` read and
        write; a new app state is enabled. */
    var enabled: bool
    const methodArguments: MethodArguments

    constructor (key: Key, id: string, worker: Worker)
      ensures this.key == key && this.id == id && tasks == map[] && !terminate && enabled
      ensures fresh(taskBinder) && fresh(taskBinder.binder) && taskBinder.binder.monkey && taskBinder.binder.worker == worker
      ensures taskBinder.binder.taskExecutors == map[] && taskBinder.binder.Valid()
      ensures methodArguments == MonkeyArguments(key)
    {
      this.key := key;
      this.id := id;
      tasks := map[];
      taskBinder := new MonkeyTaskBinder(worker);
      terminate := false;
      enabled := true;
      methodArguments := MonkeyArguments(key);
    }

    /** `registerTaskExecutor(executor)`: into the inner binder's map. */
    method RegisterTaskExecutor(e: ExecutorRef)
      requires taskBinder.binder.Valid()
      modifies taskBinder.binder
      ensures taskBinder.binder.Valid() && GetTaskExecutors() == old(GetTaskExecutors())[e.Key() := e]
      ensures taskBinder.binder.worker == old(taskBinder.binder.worker)
    {
      taskBinder.binder.RegisterTaskExecutor(e);
    }

    /** `unregisterTaskExecutor(executor)`: by the executor's key. */
    method UnregisterTaskExecutor(e: ExecutorRef)
      requires taskBinder.binder.Valid()
      modifies taskBinder.binder
      ensures taskBinder.binder.Valid() && GetTaskExecutors() == old(GetTaskExecutors()) - {e.Key()}
      ensures taskBinder.binder.worker == old(taskBinder.binder.worker)
    {
      taskBinder.binder.UnregisterTaskExecutorByKey(e.Key());
    }

    /** `unregisterTaskExecutor(clazz)`. */
    method UnregisterTaskExecutorByKey(key: Key)
      requires taskBinder.binder.Valid()
      modifies taskBinder.binder
      ensures taskBinder.binder.Valid() && GetTaskExecutors() == old(GetTaskExecutors()) - {key}
      ensures taskBinder.binder.worker == old(taskBinder.binder.worker)
    {
      taskBinder.binder.UnregisterTaskExecutorByKey(key);
    }

    /** `getTaskExecutors()`: the inner binder's map. */
    function GetTaskExecutors(): map<Key, ExecutorRef>
      reads taskBinder.binder
    {
      taskBinder.binder.taskExecutors
    }

    function GetMethodArguments(): MethodArguments
    {
      methodArguments
    }

    /** `initialize(app)`: `taskBinder.bind(methodArguments)`, refused off
        the "jME3 Main" thread. */
    method Initialize(currentThread: string) returns (outcome: Outcome)
      requires taskBinder.binder.Valid()
      modifies ExecObjs(taskBinder.binder.taskExecutors)
      ensures outcome == Pass <==> currentThread == "jME3 Main"
      ensures outcome.Fail? ==> outcome.error == IllegalState && unchanged(ExecObjs(taskBinder.binder.taskExecutors))
      ensures taskBinder.binder.taskExecutors == old(taskBinder.binder.taskExecutors)
      ensures outcome.Pass? ==>
                && BoundFrom(TaskMaps(GetTaskExecutors()), old(TaskMaps(GetTaskExecutors())),
                             InstalledOn(taskBinder.binder.worker.routes, GetTaskExecutors().Keys),
                             Some(methodArguments), OfBinder(taskBinder.binder), taskBinder.binder.monkey)
                && AllInitial(Created(TaskMaps(GetTaskExecutors()),
                                      InstalledOn(taskBinder.binder.worker.routes, GetTaskExecutors().Keys)))
                && CreatedDistinct(TaskMaps(GetTaskExecutors()), InstalledOn(taskBinder.binder.worker.routes, GetTaskExecutors().Keys))
                && (forall u | u in Created(TaskMaps(GetTaskExecutors()), InstalledOn(taskBinder.binder.worker.routes, GetTaskExecutors().Keys)) ::
                      fresh(u))
    {
      outcome := taskBinder.Bind(Some(methodArguments), currentThread);
    }

    /** `update(tpf)`: `executeTasks(tpf)`. */
    method Update(tpf: real, ghost world: set<WorkerTask>, ghost regs: set<object>)
      returns (printed: seq<Value>, ghost order: seq<string>)
      requires Covers(world, regs, tasks)
      modifies world
      ensures Distinct(order) && forall i | 0 <= i < |order| :: order[i] in tasks
      ensures var c := MonkeyCycle(old(States(world)), order, tasks, old(PlansOf(tasks)), Real(tpf));
              && States(world) == c.view
              && printed == c.printed
              && (c.thrower.None? ==> forall n | n in tasks :: n in order)
              && (c.thrower.Some? ==> order != [] && tasks[order[|order| - 1]] == c.thrower.value)
    {
      printed, order := ExecuteTasks(Real(tpf), world, regs);
    }

    function IsActive(): bool
      reads this
    {
      enabled
    }

    method SetActive(active: bool)
      modifies this
      ensures enabled == active && tasks == old(tasks) && terminate == old(terminate)
    {
      enabled := active;
    }

    /** `addTask`: the task is stored under the method's name, replacing
        any task of that name. */
    method AddTask(m: Method, task: WorkerTask)
      modifies this
      ensures tasks == old(tasks)[m.name := task]
      ensures enabled == old(enabled) && terminate == old(terminate)
    {
      tasks := tasks[m.name := task];
    }

    function GetTasks(): map<string, WorkerTask>
      reads this
    {
      tasks
    }

    /** `terminate()`; detaching the app state from the engine is not part
        of this model. */
    method Terminate()
      modifies this
      ensures terminate && tasks == old(tasks) && enabled == old(enabled)
    {
      terminate := true;
    }

    function IsTerminated(): bool
      reads this
    {
      terminate
    }

    /** `executeTasks(arguments)`: one pass over the names of the task map,
        in the map's iteration order `order`, calling every active
        `MonkeyWorkerTask` whether or not it ran before. */
    method ExecuteTasks(arguments: Value, ghost world: set<WorkerTask>, ghost regs: set<object>)
      returns (printed: seq<Value>, ghost order: seq<string>)
      requires Covers(world, regs, tasks)
      modifies world
      ensures Distinct(order) && forall i | 0 <= i < |order| :: order[i] in tasks
      ensures var c := MonkeyCycle(old(States(world)), order, tasks, old(PlansOf(tasks)), arguments);
              && States(world) == c.view
              && printed == c.printed
              && (c.thrower.None? ==> forall n | n in tasks :: n in order)
              && (c.thrower.Some? ==> order != [] && tasks[order[|order| - 1]] == c.thrower.value)
    {
      printed, order := MonkeyPass(tasks, arguments, world, regs);
    }
  }

  /** `addTask` on either kind of executor. */
  method AddTaskTo(e: ExecutorRef, m: Method, task: WorkerTask)
    modifies e.Obj()
    ensures e.Tasks() == old(e.Tasks())[m.name := task]
  {
    match e {
      case Thread(t) => t.AddTask(m, task);
      case Tick(x) => x.AddTask(m, task);
    }
  }

  /** Each executor is registered under its own key, so distinct keys hold
      distinct executors. */
  ghost predicate KeyedByClass(executors: map<Key, ExecutorRef>)
  {
    forall k | k in executors :: executors[k].Key() == k
  }

  /** Executors are neither registries nor tasks. */
  lemma ExecObjsAreExecutors(executors: map<Key, ExecutorRef>)
    ensures forall o | o in ExecObjs(executors) :: o is AppThread || o is MonkeyTaskExecutor
  {
    forall o | o in ExecObjs(executors) ensures o is AppThread || o is MonkeyTaskExecutor {
      var k :| k in executors && executors[k].Obj() == o;
    }
  }

  lemma KeyedDistinct(executors: map<Key, ExecutorRef>)
    requires KeyedByClass(executors)
    ensures forall k, k' | k in executors && k' in executors && k != k' :: executors[k].Obj() != executors[k'].Obj()
  {
  }

  /** The task maps of the registered executors. */
  ghost function TaskMaps(executors: map<Key, ExecutorRef>): (r: map<Key, map<string, WorkerTask>>)
    reads ExecObjs(executors)
    ensures r.Keys == executors.Keys
  {
    map k | k in executors :: executors[k].Tasks()
  }

  /** A task as `bind` wires it: the method, the arguments, the registry it
      calls back into and whether it is a `MonkeyWorkerTask`. */
  predicate Wired(t: WorkerTask, m: Method, args: Option<MethodArguments>, owner: Owner, monkey: bool)
  {
    t.routed == m && t.args == args && t.owner == owner && t.monkey == monkey
  }

  /** The state of a task that has not been touched since it was created. */
  const Initial := TaskState(false, false, Null, 0.0)

  ghost predicate AllInitial(tasks: set<WorkerTask>)
    reads tasks
  {
    forall t | t in tasks :: t.State() == Initial
  }

  lemma AllInitialGrow(made: set<WorkerTask>, t: WorkerTask, s: set<WorkerTask>)
    requires AllInitial(made) && t.State() == Initial && s <= made + {t}
    ensures AllInitial(s)
  {
  }

  /** The task maps `now` are the maps `before` with, on each executor `k`,
      one task wired for each method `inst[k]` installs, and every other
      task as it was. */
  ghost predicate BoundFrom(now: map<Key, map<string, WorkerTask>>, before: map<Key, map<string, WorkerTask>>,
                            inst: map<Key, map<string, Method>>, args: Option<MethodArguments>, owner: Owner, monkey: bool)
  {
    && now.Keys == before.Keys && now.Keys <= inst.Keys
    && forall k | k in now :: KeyBound(now[k], before[k], inst[k], args, owner, monkey)
  }

  /** `BoundFrom` for one executor: its task map `now`, the one it had
      before, and the methods `inst` installs on it. */
  ghost predicate KeyBound(now: map<string, WorkerTask>, before: map<string, WorkerTask>,
                           inst: map<string, Method>, args: Option<MethodArguments>, owner: Owner, monkey: bool)
  {
    && now.Keys == before.Keys + inst.Keys
    && forall n | n in now ::
         if n in inst then Wired(now[n], inst[n], args, owner, monkey) else now[n] == before[n]
  }

  /** The tasks held under the names `inst` installs. */
  ghost function Created(now: map<Key, map<string, WorkerTask>>, inst: map<Key, map<string, Method>>): set<WorkerTask>
  {
    set k, n | k in now && n in now[k] && k in inst && n in inst[k] :: now[k][n]
  }

  /** Different names installed, on one executor or on two, hold different
      tasks. */
  ghost predicate CreatedDistinct(now: map<Key, map<string, WorkerTask>>, inst: map<Key, map<string, Method>>)
  {
    forall k, n, k', n' | k in now && n in now[k] && k in inst && n in inst[k] &&
                          k' in now && n' in now[k'] && k' in inst && n' in inst[k'] && (k != k' || n != n') ::
      now[k][n] != now[k'][n']
  }

  /** The installed methods after binding `m` on the executor key `x`. */
  function InstallAt(inst: map<Key, map<string, Method>>, m: Method, x: Key): (r: map<Key, map<string, Method>>)
    ensures r.Keys == inst.Keys
    ensures forall k | k in r :: r[k] == if k == x then inst[k][m.name := m] else inst[k]
  {
    if x in inst then inst[x := inst[x][m.name := m]] else inst
  }

  /** Before `bind` walks any method, nothing is installed. */
  lemma BoundFromStart(now: map<Key, map<string, WorkerTask>>, ks: set<Key>,
                       args: Option<MethodArguments>, owner: Owner, monkey: bool)
    requires now.Keys == ks
    ensures BoundFrom(now, now, InstalledOn([], ks), args, owner, monkey)
    ensures Created(now, InstalledOn([], ks)) == {}
    ensures CreatedDistinct(now, InstalledOn([], ks))
  {
    var cur := InstalledOn([], ks);
    forall k | k in now ensures cur[k] == map[] {
    }
  }

  /** One more task added by `bind` on `x` keeps the task maps as
      `BoundFrom` says. */
  lemma BoundExtend(now: map<Key, map<string, WorkerTask>>, before: map<Key, map<string, WorkerTask>>,
                    inst: map<Key, map<string, Method>>, m: Method, x: Key, t: WorkerTask,
                    args: Option<MethodArguments>, owner: Owner, monkey: bool)
    requires x in now && Wired(t, m, args, owner, monkey)
    requires BoundFrom(now, before, inst, args, owner, monkey)
    ensures BoundFrom(now[x := now[x][m.name := t]], before, InstallAt(inst, m, x), args, owner, monkey)
  {
    var now' := now[x := now[x][m.name := t]];
    var I' := InstallAt(inst, m, x);
    forall k | k in now' ensures KeyBound(now'[k], before[k], I'[k], args, owner, monkey) {
      if k == x {
        KeyBoundExtend(now[k], before[k], inst[k], m, t, args, owner, monkey);
      }
    }
  }

  /** The same, for the one executor the task is added to. */
  lemma KeyBoundExtend(now: map<string, WorkerTask>, before: map<string, WorkerTask>, inst: map<string, Method>,
                       m: Method, t: WorkerTask, args: Option<MethodArguments>, owner: Owner, monkey: bool)
    requires Wired(t, m, args, owner, monkey) && KeyBound(now, before, inst, args, owner, monkey)
    ensures KeyBound(now[m.name := t], before, inst[m.name := m], args, owner, monkey)
  {
  }

  /** The tasks named after binding on `x` are those named before and the
      new one. */
  lemma CreatedExtend(now: map<Key, map<string, WorkerTask>>, inst: map<Key, map<string, Method>>,
                      m: Method, x: Key, t: WorkerTask)
    requires x in now
    ensures Created(now[x := now[x][m.name := t]], InstallAt(inst, m, x)) <= Created(now, inst) + {t}
  {
  }

  /** A task that no installed name held before, put under a new or
      an installed name, keeps installed names holding different tasks. */
  lemma CreatedDistinctExtend(now: map<Key, map<string, WorkerTask>>, inst: map<Key, map<string, Method>>,
                              m: Method, x: Key, t: WorkerTask)
    requires x in now && CreatedDistinct(now, inst) && t !in Created(now, inst)
    ensures CreatedDistinct(now[x := now[x][m.name := t]], InstallAt(inst, m, x))
  {
    var now' := now[x := now[x][m.name := t]];
    var I' := InstallAt(inst, m, x);
    forall k, n, k', n' | k in now' && n in now'[k] && k in I' && n in I'[k] &&
                          k' in now' && n' in now'[k'] && k' in I' && n' in I'[k'] && (k != k' || n != n')
      ensures now'[k][n] != now'[k'][n']
    {
      if k == x && n == m.name {
        assert now'[k'][n'] == now[k'][n'] && now[k'][n'] in Created(now, inst);
      } else if k' == x && n' == m.name {
        assert now'[k][n] == now[k][n] && now[k][n] in Created(now, inst);
      } else {
        assert now'[k][n] == now[k][n] && now'[k'][n'] == now[k'][n'];
      }
    }
  }

  /** What adding the task `t` for `m` on the executor `x` does to the task
      maps: they stay as `BoundFrom` says, the tasks under installed names
      are those before and `t`, and they stay pairwise different. */
  lemma InstallFacts(now: map<Key, map<string, WorkerTask>>, before: map<Key, map<string, WorkerTask>>,
                     inst: map<Key, map<string, Method>>, m: Method, x: Key, t: WorkerTask,
                     args: Option<MethodArguments>, owner: Owner, monkey: bool)
    requires x in now && Wired(t, m, args, owner, monkey) && t !in Created(now, inst)
    requires BoundFrom(now, before, inst, args, owner, monkey) && CreatedDistinct(now, inst)
    ensures BoundFrom(now[x := now[x][m.name := t]], before, InstallAt(inst, m, x), args, owner, monkey)
    ensures CreatedDistinct(now[x := now[x][m.name := t]], InstallAt(inst, m, x))
    ensures forall u | u in Created(now[x := now[x][m.name := t]], InstallAt(inst, m, x)) :: u in Created(now, inst) || u == t
  {
    BoundExtend(now, before, inst, m, x, t, args, owner, monkey);
    CreatedExtend(now, inst, m, x, t);
    CreatedDistinctExtend(now, inst, m, x, t);
  }

  /** A key with no executor registered changes nothing. */
  lemma BoundSkip(now: map<Key, map<string, WorkerTask>>, before: map<Key, map<string, WorkerTask>>,
                  inst: map<Key, map<string, Method>>, m: Method, x: Key,
                  args: Option<MethodArguments>, owner: Owner, monkey: bool)
    requires x !in now
    requires BoundFrom(now, before, inst, args, owner, monkey)
    ensures BoundFrom(now, before, InstallAt(inst, m, x), args, owner, monkey)
    ensures Created(now, InstallAt(inst, m, x)) == Created(now, inst)
    ensures CreatedDistinct(now, InstallAt(inst, m, x)) == CreatedDistinct(now, inst)
  {
    var I' := InstallAt(inst, m, x);
    forall k | k in now ensures I'[k] == inst[k] {
    }
  }

  /** A second `bind` of the same methods onto the task maps the first one
      left adds no name to any executor, so no executor's number of tasks
      grows; the tasks under those names are replaced by new ones. */
  lemma BindAgainSameCount(now: map<Key, map<string, WorkerTask>>, mid: map<Key, map<string, WorkerTask>>,
                           before: map<Key, map<string, WorkerTask>>, inst: map<Key, map<string, Method>>,
                           args: Option<MethodArguments>, args': Option<MethodArguments>, owner: Owner, monkey: bool)
    requires BoundFrom(mid, before, inst, args, owner, monkey)
    requires BoundFrom(now, mid, inst, args', owner, monkey)
    ensures now.Keys == mid.Keys
    ensures forall k | k in now :: now[k].Keys == mid[k].Keys && |now[k]| == |mid[k]|
  {
  }

  /** Binding key after key walks the route as `AddRoute` says. */
  lemma InstallAtStep(inst: map<Key, map<string, Method>>, m: Method, keys: seq<Key>, l: nat)
    requires l < |keys|
    ensures AddRoute(inst, m, keys[..l + 1]) == InstallAt(AddRoute(inst, m, keys[..l]), m, keys[l])
  {
    AddRouteStep(inst, m, keys, l);
  }

  class TaskExecutorsManager {
    const monkey: bool
    var workers: seq<Worker>
    var taskExecutors: map<Key, ExecutorRef>

    ghost predicate Valid()
      reads this
    {
      KeyedByClass(taskExecutors)
    }

    /** `TaskExecutorsManager(workers)`; `TaskExecutorsManager(worker)` is the
        case of one worker. */
    constructor (workers: seq<Worker>)
      ensures Valid() && !monkey && this.workers == workers && taskExecutors == map[]
    {
      monkey := false;
      this.workers := workers;
      taskExecutors := map[];
    }

    /** The part of `MonkeyTaskExecutorsManager(workers, application)` that is
        its superclass: tasks it binds are `MonkeyWorkerTask`s and see it as
        a `MonkeyTaskExecutorsManager`. */
    constructor OfMonkey(workers: seq<Worker>)
      ensures Valid() && monkey && this.workers == workers && taskExecutors == map[]
    {
      monkey := true;
      this.workers := workers;
      taskExecutors := map[];
    }

    /** `registerTaskExecutor(executor)`: put under the executor's key,
        replacing an executor registered there before. */
    method RegisterTaskExecutor(e: ExecutorRef)
      requires Valid()
      modifies this
      ensures Valid() && taskExecutors == old(taskExecutors)[e.Key() := e] && workers == old(workers)
    {
      taskExecutors := taskExecutors[e.Key() := e];
    }

    /** `unregisterTaskExecutor(executor)`: by the executor's key. */
    method UnregisterTaskExecutor(e: ExecutorRef)
      requires Valid()
      modifies this
      ensures Valid() && taskExecutors == old(taskExecutors) - {e.Key()} && workers == old(workers)
    {
      UnregisterTaskExecutorByKey(e.Key());
    }

    /** `unregisterTaskExecutor(clazz)`; nothing happens when no executor is
        registered under the key. */
    method UnregisterTaskExecutorByKey(key: Key)
      requires Valid()
      modifies this
      ensures Valid() && taskExecutors == old(taskExecutors) - {key} && workers == old(workers)
    {
      taskExecutors := taskExecutors - {key};
    }

    function GetTaskExecutors(): map<Key, ExecutorRef>
      reads this
    {
      taskExecutors
    }

    method SetWorkers(workers: seq<Worker>)
      modifies this
      ensures this.workers == workers && taskExecutors == old(taskExecutors)
    {
      this.workers := workers;
    }

    function GetWorkers(): seq<Worker>
      reads this
    {
      workers
    }

    /** `bind()`: `bind(null)`. */
    method BindDefault()
      requires Valid()
      modifies ExecObjs(taskExecutors)
      ensures taskExecutors == old(taskExecutors)
      ensures BoundFrom(TaskMaps(taskExecutors), old(TaskMaps(taskExecutors)), InstalledOn(AllRoutes(workers), taskExecutors.Keys),
                        None, OfManager(this), monkey)
      ensures AllInitial(Created(TaskMaps(taskExecutors), InstalledOn(AllRoutes(workers), taskExecutors.Keys)))
      ensures CreatedDistinct(TaskMaps(taskExecutors), InstalledOn(AllRoutes(workers), taskExecutors.Keys))
      ensures forall u | u in Created(TaskMaps(taskExecutors), InstalledOn(AllRoutes(workers), taskExecutors.Keys)) :: fresh(u)
    {
      Bind(None);
    }

    /** `bind(methodArguments)`: every annotated method of every worker, in
        order, is bound on the registered executors it lists. Afterwards each
        executor holds, under each name the workers route to it, a new task
        wired to the last method of that name, and every other task it held
        before. */
    method Bind(args: Option<MethodArguments>)
      requires Valid()
      modifies ExecObjs(taskExecutors)
      ensures taskExecutors == old(taskExecutors)
      ensures BoundFrom(TaskMaps(taskExecutors), old(TaskMaps(taskExecutors)), InstalledOn(AllRoutes(workers), taskExecutors.Keys),
                        args, OfManager(this), monkey)
      ensures AllInitial(Created(TaskMaps(taskExecutors), InstalledOn(AllRoutes(workers), taskExecutors.Keys)))
      ensures CreatedDistinct(TaskMaps(taskExecutors), InstalledOn(AllRoutes(workers), taskExecutors.Keys))
      ensures forall u | u in Created(TaskMaps(taskExecutors), InstalledOn(AllRoutes(workers), taskExecutors.Keys)) :: fresh(u)
    {
      ExecObjsAreExecutors(taskExecutors);
      ghost var cur := BindWorkers(taskExecutors, OfManager(this), monkey, workers, args);
    }
  }

  /** The loop of a registry's `bind(methodArguments)` over its workers, in
      order, on the registered executors `ex` of `owner`. */
  method BindWorkers(ex: map<Key, ExecutorRef>, owner: Owner, monkey: bool, workers: seq<Worker>, args: Option<MethodArguments>)
    returns (ghost cur: map<Key, map<string, Method>>)
    requires KeyedByClass(ex)
    modifies ExecObjs(ex)
    ensures cur == InstalledOn(AllRoutes(workers), ex.Keys)
    ensures BoundFrom(TaskMaps(ex), old(TaskMaps(ex)), cur, args, owner, monkey)
    ensures AllInitial(Created(TaskMaps(ex), cur)) && CreatedDistinct(TaskMaps(ex), cur)
    ensures forall u | u in Created(TaskMaps(ex), cur) :: fresh(u)
  {
    ghost var before := TaskMaps(ex);
    cur := InstalledOn([], ex.Keys);
    BoundFromStart(before, ex.Keys, args, owner, monkey);
    for i := 0 to |workers|
      invariant cur == InstalledOn(AllRoutes(workers[..i]), ex.Keys)
      invariant BoundFrom(TaskMaps(ex), before, cur, args, owner, monkey)
      invariant AllInitial(Created(TaskMaps(ex), cur)) && CreatedDistinct(TaskMaps(ex), cur)
      invariant forall u | u in Created(TaskMaps(ex), cur) :: fresh(u)
    {
      AllRoutesStep(workers, i);
      ghost var made := Created(TaskMaps(ex), cur);
      assert forall u | u in made :: fresh(u);
      cur := BindRoutes(ex, owner, monkey, workers[i].routes, args, before, AllRoutes(workers[..i]), cur);
      assert forall u | u in Created(TaskMaps(ex), cur) :: u in made || fresh(u);
    }
    assert workers[..|workers|] == workers;
  }

  /** The loop of a registry's `bind(methodArguments)` over one worker's
      declared methods, in order, on the registered executors `ex` of
      `owner`. */
  method BindRoutes(ex: map<Key, ExecutorRef>, owner: Owner, monkey: bool, routes: seq<Route>, args: Option<MethodArguments>,
                    ghost before: map<Key, map<string, WorkerTask>>, ghost done: seq<Route>, ghost cur: map<Key, map<string, Method>>)
    returns (ghost next: map<Key, map<string, Method>>)
    requires KeyedByClass(ex) && cur == InstalledOn(done, ex.Keys)
    requires BoundFrom(TaskMaps(ex), before, cur, args, owner, monkey)
    requires AllInitial(Created(TaskMaps(ex), cur)) && CreatedDistinct(TaskMaps(ex), cur)
    modifies ExecObjs(ex)
    ensures next == InstalledOn(done + routes, ex.Keys)
    ensures BoundFrom(TaskMaps(ex), before, next, args, owner, monkey)
    ensures AllInitial(Created(TaskMaps(ex), next)) && CreatedDistinct(TaskMaps(ex), next)
    ensures forall u | u in Created(TaskMaps(ex), next) :: u in old(Created(TaskMaps(ex), cur)) || fresh(u)
  {
    ghost var made := Created(TaskMaps(ex), cur);
    next := cur;
    assert done + routes[..0] == done;
    for j := 0 to |routes|
      invariant next == InstalledOn(done + routes[..j], ex.Keys)
      invariant BoundFrom(TaskMaps(ex), before, next, args, owner, monkey)
      invariant AllInitial(Created(TaskMaps(ex), next)) && CreatedDistinct(TaskMaps(ex), next)
      invariant forall u | u in Created(TaskMaps(ex), next) :: u in made || fresh(u)
    {
      assert done + routes[..j + 1] == (done + routes[..j]) + [routes[j]];
      InstalledOnStep(done + routes[..j], routes[j], ex.Keys);
      BindRoute(ex, owner, monkey, routes[j], args, before, next);
      next := Routed(next, routes[j]);
    }
    assert routes[..|routes|] == routes;
  }

  /** One declared method: passed over when it carries no `@ExecuteOn`
      (and, for `TaskExecutorsManager`, when it lists no executor, which
      binds nothing either way). */
  method BindRoute(ex: map<Key, ExecutorRef>, owner: Owner, monkey: bool, r: Route, args: Option<MethodArguments>,
                   ghost before: map<Key, map<string, WorkerTask>>, ghost cur: map<Key, map<string, Method>>)
    requires KeyedByClass(ex)
    requires BoundFrom(TaskMaps(ex), before, cur, args, owner, monkey)
    requires AllInitial(Created(TaskMaps(ex), cur)) && CreatedDistinct(TaskMaps(ex), cur)
    modifies ExecObjs(ex)
    ensures BoundFrom(TaskMaps(ex), before, Routed(cur, r), args, owner, monkey)
    ensures AllInitial(Created(TaskMaps(ex), Routed(cur, r))) && CreatedDistinct(TaskMaps(ex), Routed(cur, r))
    ensures forall u | u in Created(TaskMaps(ex), Routed(cur, r)) :: u in old(Created(TaskMaps(ex), cur)) || fresh(u)
  {
    if r.executors.None? || |r.executors.value| < 1 {
      assert Routed(cur, r) == cur;
    } else {
      BindKeys(ex, owner, monkey, r.executors.value, r.routed, args, before, cur);
    }
  }

  /** `bind(clazzes, [worker,] method, args)`: the method is bound on each
      listed key that has an executor registered, in order; other keys are
      passed over. */
  method BindKeys(ex: map<Key, ExecutorRef>, owner: Owner, monkey: bool, keys: seq<Key>, m: Method, args: Option<MethodArguments>,
                  ghost before: map<Key, map<string, WorkerTask>>, ghost inst: map<Key, map<string, Method>>)
    requires KeyedByClass(ex) && BoundFrom(TaskMaps(ex), before, inst, args, owner, monkey)
    requires AllInitial(Created(TaskMaps(ex), inst)) && CreatedDistinct(TaskMaps(ex), inst)
    modifies ExecObjs(ex)
    ensures BoundFrom(TaskMaps(ex), before, AddRoute(inst, m, keys), args, owner, monkey)
    ensures AllInitial(Created(TaskMaps(ex), AddRoute(inst, m, keys))) && CreatedDistinct(TaskMaps(ex), AddRoute(inst, m, keys))
    ensures forall u | u in Created(TaskMaps(ex), AddRoute(inst, m, keys)) :: u in old(Created(TaskMaps(ex), inst)) || fresh(u)
  {
    assert AddRoute(inst, m, keys[..0]) == inst;
    ghost var made := Created(TaskMaps(ex), inst);
    ghost var cur := inst;
    for l := 0 to |keys|
      invariant cur == AddRoute(inst, m, keys[..l])
      invariant BoundFrom(TaskMaps(ex), before, cur, args, owner, monkey)
      invariant AllInitial(Created(TaskMaps(ex), cur)) && CreatedDistinct(TaskMaps(ex), cur)
      invariant forall u | u in Created(TaskMaps(ex), cur) :: u in made || fresh(u)
    {
      BindKey(ex, owner, monkey, keys[l], m, args, before, cur);
      InstallAtStep(inst, m, keys, l);
      cur := InstallAt(cur, m, keys[l]);
    }
    assert keys[..|keys|] == keys;
  }

  /** The step of `bind(clazzes, ...)` for the key `x`: bound when an
      executor is registered under it, passed over when not. */
  method BindKey(ex: map<Key, ExecutorRef>, owner: Owner, monkey: bool, x: Key, m: Method, args: Option<MethodArguments>,
                 ghost before: map<Key, map<string, WorkerTask>>, ghost inst: map<Key, map<string, Method>>)
    requires KeyedByClass(ex)
    requires BoundFrom(TaskMaps(ex), before, inst, args, owner, monkey)
    requires AllInitial(Created(TaskMaps(ex), inst)) && CreatedDistinct(TaskMaps(ex), inst)
    modifies ExecObjs(ex)
    ensures BoundFrom(TaskMaps(ex), before, InstallAt(inst, m, x), args, owner, monkey)
    ensures AllInitial(Created(TaskMaps(ex), InstallAt(inst, m, x))) && CreatedDistinct(TaskMaps(ex), InstallAt(inst, m, x))
    ensures forall u | u in Created(TaskMaps(ex), InstallAt(inst, m, x)) :: u in old(Created(TaskMaps(ex), inst)) || fresh(u)
  {
    ghost var now := TaskMaps(ex);
    if x in ex {
      ghost var made := Created(now, inst);
      ghost var t := BindAt(ex, owner, monkey, x, m, args, made);
      ghost var now' := now[x := now[x][m.name := t]];
      ghost var made' := Created(now', InstallAt(inst, m, x));
      assert TaskMaps(ex) == now';
      InstallFacts(now, before, inst, m, x, t, args, owner, monkey);
      AllInitialGrow(made, t, made');
    } else {
      BoundSkip(now, before, inst, m, x, args, owner, monkey);
    }
  }

  /** The registered key `x`: a task added to its executor, which changes
      no other executor's task map and no task. */
  method BindAt(ex: map<Key, ExecutorRef>, owner: Owner, monkey: bool, x: Key, m: Method, args: Option<MethodArguments>,
                ghost others: set<WorkerTask>) returns (ghost task: WorkerTask)
    requires KeyedByClass(ex) && x in ex
    modifies ex[x].Obj()
    ensures fresh(task) && Wired(task, m, args, owner, monkey) && task.State() == Initial
    ensures task !in others && unchanged(others)
    ensures TaskMaps(ex) == old(TaskMaps(ex))[x := old(TaskMaps(ex))[x][m.name := task]]
  {
    KeyedDistinct(ex);
    assert ex[x].Obj() is AppThread || ex[x].Obj() is MonkeyTaskExecutor;
    task := BindTo(ex[x], owner, monkey, m, args);
  }

  /** `taskExecutor.addTask(method, new WorkerTask() {...})`: a new task
      for the method, calling back into `owner`, under the method's name;
      a `MonkeyWorkerTask` when `owner` is a Monkey registry. */
  method BindTo(e: ExecutorRef, owner: Owner, monkey: bool, m: Method, args: Option<MethodArguments>) returns (ghost task: WorkerTask)
    modifies e.Obj()
    ensures fresh(task) && Wired(task, m, args, owner, monkey) && task.State() == Initial
    ensures e.Tasks() == old(e.Tasks())[m.name := task]
  {
    var t := new WorkerTask(m, args, owner, monkey);
    AddTaskTo(e, m, t);
    task := t;
  }

  /** `TaskBinder`: a registry of executors and one worker whose annotated
      methods it binds onto them. */
  class TaskBinder {
    const monkey: bool
    var worker: Worker
    var taskExecutors: map<Key, ExecutorRef>

    ghost predicate Valid()
      reads this
    {
      KeyedByClass(taskExecutors)
    }

    constructor (worker: Worker)
      ensures Valid() && !monkey && this.worker == worker && taskExecutors == map[]
    {
      monkey := false;
      this.worker := worker;
      taskExecutors := map[];
    }

    /** The part of `MonkeyTaskBinder(worker)` that is its superclass: tasks
        it binds are `MonkeyWorkerTask`s and see it as a `MonkeyTaskBinder`. */
    constructor OfMonkey(worker: Worker)
      ensures Valid() && monkey && this.worker == worker && taskExecutors == map[]
    {
      monkey := true;
      this.worker := worker;
      taskExecutors := map[];
    }

    /** `registerTaskExecutor(executor)`: put under the executor's key,
        replacing an executor registered there before. */
    method RegisterTaskExecutor(e: ExecutorRef)
      requires Valid()
      modifies this
      ensures Valid() && taskExecutors == old(taskExecutors)[e.Key() := e] && worker == old(worker)
    {
      taskExecutors := taskExecutors[e.Key() := e];
    }

    /** `unregisterTaskExecutor(executor)`: by the executor's key. */
    method UnregisterTaskExecutor(e: ExecutorRef)
      requires Valid()
      modifies this
      ensures Valid() && taskExecutors == old(taskExecutors) - {e.Key()} && worker == old(worker)
    {
      UnregisterTaskExecutorByKey(e.Key());
    }

    /** `unregisterTaskExecutor(clazz)`; nothing happens when no executor is
        registered under the key. */
    method UnregisterTaskExecutorByKey(key: Key)
      requires Valid()
      modifies this
      ensures Valid() && taskExecutors == old(taskExecutors) - {key} && worker == old(worker)
    {
      taskExecutors := taskExecutors - {key};
    }

    function GetTaskExecutors(): map<Key, ExecutorRef>
      reads this
    {
      taskExecutors
    }

    method SetWorker(worker: Worker)
      modifies this
      ensures this.worker == worker && taskExecutors == old(taskExecutors)
    {
      this.worker := worker;
    }

    function GetWorker(): Worker
      reads this
    {
      worker
    }

    /** `bind()`: `bind(null)`. */
    method BindDefault()
      requires Valid()
      modifies ExecObjs(taskExecutors)
      ensures taskExecutors == old(taskExecutors)
      ensures BoundFrom(TaskMaps(taskExecutors), old(TaskMaps(taskExecutors)), InstalledOn(worker.routes, taskExecutors.Keys),
                        None, OfBinder(this), monkey)
      ensures AllInitial(Created(TaskMaps(taskExecutors), InstalledOn(worker.routes, taskExecutors.Keys)))
      ensures CreatedDistinct(TaskMaps(taskExecutors), InstalledOn(worker.routes, taskExecutors.Keys))
      ensures forall u | u in Created(TaskMaps(taskExecutors), InstalledOn(worker.routes, taskExecutors.Keys)) :: fresh(u)
    {
      Bind(None);
    }

    /** `bind(methodArguments)`: every annotated method of the worker, in
        order, is bound on the registered executors it lists. */
    method Bind(args: Option<MethodArguments>)
      requires Valid()
      modifies ExecObjs(taskExecutors)
      ensures taskExecutors == old(taskExecutors)
      ensures BoundFrom(TaskMaps(taskExecutors), old(TaskMaps(taskExecutors)), InstalledOn(worker.routes, taskExecutors.Keys),
                        args, OfBinder(this), monkey)
      ensures AllInitial(Created(TaskMaps(taskExecutors), InstalledOn(worker.routes, taskExecutors.Keys)))
      ensures CreatedDistinct(TaskMaps(taskExecutors), InstalledOn(worker.routes, taskExecutors.Keys))
      ensures forall u | u in Created(TaskMaps(taskExecutors), InstalledOn(worker.routes, taskExecutors.Keys)) :: fresh(u)
    {
      ExecObjsAreExecutors(taskExecutors);
      ghost var before := TaskMaps(taskExecutors);
      BoundFromStart(before, taskExecutors.Keys, args, OfBinder(this), monkey);
      ghost var next := BindRoutes(taskExecutors, OfBinder(this), monkey, worker.routes, args, before, [],
                                   InstalledOn([], taskExecutors.Keys));
      assert [] + worker.routes == worker.routes;
    }
  }

  /** `MonkeyTaskBinder`: a `TaskBinder` whose tasks are
      `MonkeyWorkerTask`s and whose `bind` runs only on the engine's main
      thread. */
  class MonkeyTaskBinder {
    /** The `TaskBinder` this binder is. */
    const binder: TaskBinder

    constructor (worker: Worker)
      ensures fresh(binder) && binder.monkey && binder.worker == worker && binder.taskExecutors == map[] && binder.Valid()
    {
      binder := new TaskBinder.OfMonkey(worker);
    }

    /** `bind()` called on the thread named `currentThread`: the inherited
        `bind(null)`, which dispatches to the guarded `bind` below. */
    method BindDefault(currentThread: string) returns (outcome: Outcome)
      requires binder.Valid()
      modifies ExecObjs(binder.taskExecutors)
      ensures outcome == Pass <==> currentThread == "jME3 Main"
      ensures outcome.Fail? ==> outcome.error == IllegalState && unchanged(ExecObjs(binder.taskExecutors))
      ensures binder.taskExecutors == old(binder.taskExecutors)
      ensures outcome.Pass? ==>
                && BoundFrom(TaskMaps(binder.taskExecutors), old(TaskMaps(binder.taskExecutors)),
                             InstalledOn(binder.worker.routes, binder.taskExecutors.Keys), None, OfBinder(binder), binder.monkey)
                && AllInitial(Created(TaskMaps(binder.taskExecutors), InstalledOn(binder.worker.routes, binder.taskExecutors.Keys)))
                && CreatedDistinct(TaskMaps(binder.taskExecutors), InstalledOn(binder.worker.routes, binder.taskExecutors.Keys))
                && (forall u | u in Created(TaskMaps(binder.taskExecutors), InstalledOn(binder.worker.routes, binder.taskExecutors.Keys)) ::
                      fresh(u))
    {
      outcome := Bind(None, currentThread);
    }

    /** `bind(methodArguments)` called on the thread named `currentThread`:
        an IllegalStateException, and nothing bound, unless it is
        "jME3 Main"; otherwise the base binder's `bind`. */
    method Bind(args: Option<MethodArguments>, currentThread: string) returns (outcome: Outcome)
      requires binder.Valid()
      modifies ExecObjs(binder.taskExecutors)
      ensures outcome == Pass <==> currentThread == "jME3 Main"
      ensures outcome.Fail? ==> outcome.error == IllegalState && unchanged(ExecObjs(binder.taskExecutors))
      ensures binder.taskExecutors == old(binder.taskExecutors)
      ensures outcome.Pass? ==>
                && BoundFrom(TaskMaps(binder.taskExecutors), old(TaskMaps(binder.taskExecutors)),
                             InstalledOn(binder.worker.routes, binder.taskExecutors.Keys), args, OfBinder(binder), binder.monkey)
                && AllInitial(Created(TaskMaps(binder.taskExecutors), InstalledOn(binder.worker.routes, binder.taskExecutors.Keys)))
                && CreatedDistinct(TaskMaps(binder.taskExecutors), InstalledOn(binder.worker.routes, binder.taskExecutors.Keys))
                && (forall u | u in Created(TaskMaps(binder.taskExecutors), InstalledOn(binder.worker.routes, binder.taskExecutors.Keys)) ::
                      fresh(u))
    {
      ExecObjsAreExecutors(binder.taskExecutors);
      if currentThread != "jME3 Main" {
        return Fail(IllegalState);
      }
      binder.Bind(args);
      outcome := Pass;
    }
  }

  /** `MonkeyTaskExecutorsManager`: a `TaskExecutorsManager` whose tasks are
      `MonkeyWorkerTask`s, whose `bind` runs only on the engine's main
      threads, and which keeps the application it serves. */
  class MonkeyTaskExecutorsManager {
    /** The `TaskExecutorsManager` this manager is. */
    const manager: TaskExecutorsManager
    /** The jMonkeyEngine application, a foreign object. */
    const application: object

    constructor (workers: seq<Worker>, application: object)
      ensures fresh(manager) && manager.monkey && manager.workers == workers && manager.taskExecutors == map[] && manager.Valid()
      ensures this.application == application
    {
      manager := new TaskExecutorsManager.OfMonkey(workers);
      this.application := application;
    }

    /** `MonkeyTaskExecutorsManager(worker, application)`. */
    constructor OfWorker(worker: Worker, application: object)
      ensures fresh(manager) && manager.monkey && manager.workers == [worker] && manager.taskExecutors == map[] && manager.Valid()
      ensures this.application == application
    {
      manager := new TaskExecutorsManager.OfMonkey([worker]);
      this.application := application;
    }

    function GetApplication(): object
    {
      application
    }

    /** `bind()` called on the thread named `currentThread`: the inherited
        `bind(null)`, which dispatches to the guarded `bind` below. */
    method BindDefault(currentThread: string) returns (outcome: Outcome)
      requires manager.Valid()
      modifies ExecObjs(manager.taskExecutors)
      ensures outcome == Pass <==> currentThread == "jME3 Main" || currentThread == "jME3 Headless Main"
      ensures outcome.Fail? ==> outcome.error == IllegalState && unchanged(ExecObjs(manager.taskExecutors))
      ensures manager.taskExecutors == old(manager.taskExecutors)
      ensures outcome.Pass? ==>
                && BoundFrom(TaskMaps(manager.taskExecutors), old(TaskMaps(manager.taskExecutors)),
                             InstalledOn(AllRoutes(manager.workers), manager.taskExecutors.Keys), None, OfManager(manager), manager.monkey)
                && AllInitial(Created(TaskMaps(manager.taskExecutors), InstalledOn(AllRoutes(manager.workers), manager.taskExecutors.Keys)))
                && CreatedDistinct(TaskMaps(manager.taskExecutors), InstalledOn(AllRoutes(manager.workers), manager.taskExecutors.Keys))
                && (forall u | u in Created(TaskMaps(manager.taskExecutors), InstalledOn(AllRoutes(manager.workers), manager.taskExecutors.Keys)) ::
                      fresh(u))
    {
      outcome := Bind(None, currentThread);
    }

    /** `bind(methodArguments)` called on the thread named `currentThread`:
        an IllegalStateException, and nothing bound, unless it is
        "jME3 Main" or "jME3 Headless Main"; otherwise the base manager's
        `bind`. */
    method Bind(args: Option<MethodArguments>, currentThread: string) returns (outcome: Outcome)
      requires manager.Valid()
      modifies ExecObjs(manager.taskExecutors)
      ensures outcome == Pass <==> currentThread == "jME3 Main" || currentThread == "jME3 Headless Main"
      ensures outcome.Fail? ==> outcome.error == IllegalState && unchanged(ExecObjs(manager.taskExecutors))
      ensures manager.taskExecutors == old(manager.taskExecutors)
      ensures outcome.Pass? ==>
                && BoundFrom(TaskMaps(manager.taskExecutors), old(TaskMaps(manager.taskExecutors)),
                             InstalledOn(AllRoutes(manager.workers), manager.taskExecutors.Keys), args, OfManager(manager), manager.monkey)
                && AllInitial(Created(TaskMaps(manager.taskExecutors), InstalledOn(AllRoutes(manager.workers), manager.taskExecutors.Keys)))
                && CreatedDistinct(TaskMaps(manager.taskExecutors), InstalledOn(AllRoutes(manager.workers), manager.taskExecutors.Keys))
                && (forall u | u in Created(TaskMaps(manager.taskExecutors), InstalledOn(AllRoutes(manager.workers), manager.taskExecutors.Keys)) ::
                      fresh(u))
    {
      ExecObjsAreExecutors(manager.taskExecutors);
      if !(currentThread == "jME3 Main" || currentThread == "jME3 Headless Main") {
        return Fail(IllegalState);
      }
      manager.Bind(args);
      outcome := Pass;
    }
  }
}
