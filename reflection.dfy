/** What the engine needs to know about a routed Java method, in place of
    reflection. A method has a name, its declared parameter types, whether
    reflective access to it is allowed, and a body. The body is a short
    list of effects a task body may have on other tasks, reaching them
    through the registry it is given, followed by how it ends. */
module Reflection {
  import opened Values

  /** What a task body can do to the tasks of the registry it is handed:
      `Activate` is `getTaskExecutors().get(executor).getTasks().get(task).setActive(flag)`,
      `Show` prints `...get(task).getResult()`. Other printing, of thread
      names or of the arguments, is not an effect. */
  datatype Effect =
    | Activate(executor: Key, task: string, flag: bool)
    | Show(executor: Key, task: string)

  /** How the body ends once its effects are done: it returns a value or
      throws (which reflection wraps into an InvocationTargetException). */
  datatype Ret = Returns(value: Value) | Raises

  datatype Body = Body(effects: seq<Effect>, ret: Ret)

  datatype Method = Method(name: string, params: seq<JType>, accessible: bool, body: Body)

  /** A declared method with its `@ExecuteOn` annotation: `None` when the
      method carries no annotation, otherwise the listed executor keys. */
  datatype Route = Route(routed: Method, executors: Option<seq<Key>>)

  /** A worker object, reduced to its declared methods in declaration order. */
  datatype Worker = Worker(routes: seq<Route>)

  /** A `MethodArguments` (or `MonkeyMethodArguments`) object: its class and
      its argument map, which may itself be null. */
  datatype MethodArguments = MethodArguments(monkey: bool, args: Option<map<string, Value>>)
  {
    function Type(): JType
    {
      if monkey then MonkeyMethodArgumentsType else MethodArgumentsType
    }
  }
}
