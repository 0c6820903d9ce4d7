/** What one call of a bound task does, stated on values.

    `ExecuteMethod` is the shape check of `executeMethod`: it decides from
    the method, the bound arguments and the class of the registry whether
    the reflective call runs the body, yields null, or throws out of
    `call()`. A `Plan` gathers what a call needs to know about the heap at
    the time it runs (the tasks its effects reach), and `CallSpec` gives the
    effect of the call on a view of the task states. */
module Invocation {
  import opened Values
  import opened Reflection
  import opened Validator

  /** How a reflective call ends before the body runs:
      `Escapes(e)` - `e` leaves `call()` (only IllegalAccessException and
      InvocationTargetException are caught there);
      `Swallowed(e)` - `e` is caught, logged and the call yields null;
      `Runs` - the body runs. */
  datatype Dispatch = Escapes(error: Exception) | Swallowed(error: Exception) | Runs

  /** The arguments whose classes are `argTypes` can be passed to `params`. */
  predicate Accepts(params: seq<JType>, argTypes: seq<JType>)
  {
    |params| == |argTypes| && forall i :: 0 <= i < |params| ==> IsAssignableFrom(params[i], argTypes[i])
  }

  /** `Method.invoke`: access is checked first, then the number and the
      classes of the arguments. */
  function Invoke(m: Method, argTypes: seq<JType>): (d: Dispatch)
    ensures d == Runs <==> m.accessible && Accepts(m.params, argTypes)
    ensures !m.accessible ==> d == Swallowed(IllegalAccess)
    ensures m.accessible && !Accepts(m.params, argTypes) ==> d == Escapes(IllegalArgument)
  {
    if !m.accessible then Swallowed(IllegalAccess)
    else if !Accepts(m.params, argTypes) then Escapes(IllegalArgument)
    else Runs
  }

  /** The two-argument call is taken exactly when the arguments object and
      its map are both non-null. */
  predicate TwoArgumentCall(args: Option<MethodArguments>)
  {
    args.Some? && args.value.args.Some?
  }

  /** `executeMethod(method, args, registry)`, where `ownerType` is the class
      of the registry passed as the last argument. */
  function ExecuteMethod(m: Method, args: Option<MethodArguments>, ownerType: JType): (d: Dispatch)
    // The two-argument path validates the shape before anything is invoked.
    ensures TwoArgumentCall(args) ==>
              (d == Runs <==> m.accessible && |m.params| == 2
                              && IsAssignableFrom(m.params[0], args.value.Type())
                              && IsAssignableFrom(m.params[1], ownerType))
    ensures TwoArgumentCall(args) && !Accepts(m.params, [args.value.Type(), ownerType]) ==>
              d == Escapes(IllegalArgument)
    // Otherwise the method is invoked with the registry alone.
    ensures !TwoArgumentCall(args) ==>
              (d == Runs <==> m.accessible && |m.params| == 1 && IsAssignableFrom(m.params[0], ownerType))
    // Whatever escapes is an IllegalArgumentException; only access failures are swallowed.
    ensures d.Escapes? ==> d.error == IllegalArgument
    ensures d.Swallowed? <==> !m.accessible && (TwoArgumentCall(args) ==> Accepts(m.params, [args.value.Type(), ownerType]))
  {
    if TwoArgumentCall(args) then
      var argType := args.value.Type();
      match ValidateParametersLength(m, 2)
      case Fail(e) => Escapes(e)
      case Pass =>
        match ValidateParameterType(m, 0, argType)
        case Fail(e) => Escapes(e)
        case Pass =>
          match ValidateParameterType(m, 1, ownerType)
          case Fail(e) => Escapes(e)
          case Pass => Invoke(m, [argType, ownerType])
    else
      Invoke(m, [ownerType])
  }

  /** The observable state of a task: `WorkerTask`'s three fields and the
      time-per-frame of a `MonkeyWorkerTask`. */
  datatype TaskState = TaskState(active: bool, executed: bool, result: Value, timePerFrame: real)

  /** The states of a set of tasks, indexed by task identity `T`. */
  type View<T> = map<T, TaskState>

  /** One effect of a body, with the task it reaches already looked up;
      `Unresolved` means a lookup met null (a NullPointerException). */
  datatype Step<T> = ActivateStep(target: T, flag: bool) | ShowStep(target: T) | Unresolved

  /** What a bound task is and how its call behaves: whether it is a
      `MonkeyWorkerTask`, how `executeMethod` dispatches, the resolved
      effects of the body and how the body ends. */
  datatype Plan<T> = Plan(monkey: bool, dispatch: Dispatch, steps: seq<Step<T>>, ret: Ret)

  /** The tasks whose `active` flag a sequence of steps may set. */
  function ActivateTargets<T>(steps: seq<Step<T>>): set<T>
  {
    set i | 0 <= i < |steps| && steps[i].ActivateStep? :: steps[i].target
  }

  /** The tasks a sequence of steps may touch. */
  function Targets<T>(steps: seq<Step<T>>): set<T>
  {
    set i | 0 <= i < |steps| && !steps[i].Unresolved? :: steps[i].target
  }

  datatype Ran<T> = Ran(view: View<T>, printed: seq<Value>, completed: bool)

  /** One effect, after the body has run so far as `r`. */
  function RunStep<T>(r: Ran<T>, step: Step<T>): Ran<T>
  {
    if !r.completed then r
    else
      match step
      case Unresolved => Ran(r.view, r.printed, false)
      case ActivateStep(t, flag) =>
        if t in r.view then Ran(r.view[t := r.view[t].(active := flag)], r.printed, true) else r
      case ShowStep(t) =>
        Ran(r.view, r.printed + [if t in r.view then r.view[t].result else Null], true)
  }

  /** Runs the body's effects in order; an unresolved lookup stops the body. */
  function RunSteps<T>(v: View<T>, steps: seq<Step<T>>): (r: Ran<T>)
    decreases |steps|
  {
    if steps == [] then Ran(v, [], true)
    else RunStep(RunSteps(v, steps[..|steps| - 1]), steps[|steps| - 1])
  }

  /** How a call ends, as seen by the executor that made it. */
  datatype CallOutcome = Threw(error: Exception) | Returned(value: Value)

  datatype CallResult<T> = CallResult(view: View<T>, printed: seq<Value>, outcome: CallOutcome)

  /** One `call()` of a task whose plan is `p`, starting from the states `v`. */
  function CallSpec<T>(v: View<T>, p: Plan<T>): (r: CallResult<T>)
  {
    match p.dispatch
    case Escapes(e) => CallResult(v, [], Threw(e))
    case Swallowed(_) => CallResult(v, [], Returned(Null))
    case Runs =>
      var b := RunSteps(v, p.steps);
      CallResult(b.view, b.printed, Returned(if b.completed && p.ret.Returns? then p.ret.value else Null))
  }

  /** A body's effects only ever set `active` flags, and only of the tasks
      its activations reach. */
  lemma {:induction false} RunStepsOnlyActivates<T>(v: View<T>, steps: seq<Step<T>>)
    ensures RunSteps(v, steps).view.Keys == v.Keys
    ensures forall t | t in v ::
              && RunSteps(v, steps).view[t].executed == v[t].executed
              && RunSteps(v, steps).view[t].result == v[t].result
              && RunSteps(v, steps).view[t].timePerFrame == v[t].timePerFrame
    ensures forall t | t in v && t !in ActivateTargets(steps) :: RunSteps(v, steps).view[t] == v[t]
    decreases |steps|
  {
    if steps != [] {
      var init := steps[..|steps| - 1];
      RunStepsOnlyActivates(v, init);
      assert ActivateTargets(init) <= ActivateTargets(steps) by {
        forall t | t in ActivateTargets(init) ensures t in ActivateTargets(steps) {
          var i :| 0 <= i < |init| && init[i].ActivateStep? && init[i].target == t;
          assert steps[i] == init[i];
        }
      }
    }
  }

  /** A call leaves every task's `executed`, `result` and time-per-frame as
      they were, changes no task outside its activation targets, and
      changes nothing at all when it throws. */
  lemma CallOnlyActivates<T>(v: View<T>, p: Plan<T>)
    ensures CallSpec(v, p).view.Keys == v.Keys
    ensures forall t | t in v ::
              && CallSpec(v, p).view[t].executed == v[t].executed
              && CallSpec(v, p).view[t].result == v[t].result
              && CallSpec(v, p).view[t].timePerFrame == v[t].timePerFrame
    ensures forall t | t in v && t !in ActivateTargets(p.steps) :: CallSpec(v, p).view[t] == v[t]
    ensures CallSpec(v, p).outcome.Threw? ==> CallSpec(v, p).view == v && p.dispatch.Escapes?
  {
    RunStepsOnlyActivates(v, p.steps);
  }
}
