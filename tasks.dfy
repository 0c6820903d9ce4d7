/** The lookup helpers of `Tasks`, which a task body uses to reach a task
    of another executor through a manager. A null link along the chain is
    a NullPointerException when the chain goes on to use it. */
module Tasks {
  import opened Values
  import opened Reflection
  import opened Jector

  /** The tasks held by the executors a manager has registered. */
  ghost function HeldTasks(m: TaskExecutorsManager): set<object>
    reads m, ExecObjs(m.taskExecutors)
  {
    set k, n | k in m.taskExecutors && n in m.taskExecutors[k].Tasks() :: m.taskExecutors[k].Tasks()[n]
  }

  /** `getTaskExecutorFromTaskBinder(manager, clazz)`: the executor
      registered under the key, or null. */
  function GetTaskExecutorFromTaskBinder(m: TaskExecutorsManager, key: Key): (r: Option<ExecutorRef>)
    reads m
    ensures r.Some? <==> key in m.GetTaskExecutors()
    ensures r.Some? ==> r.value == m.GetTaskExecutors()[key]
    ensures m.Valid() && r.Some? ==> r.value.Key() == key
  {
    if key in m.taskExecutors then Some(m.taskExecutors[key]) else None
  }

  /** `getWorkerTask(manager, clazz, name)`: the task under the name on that
      executor, or null; a NullPointerException when no executor is
      registered under the key. */
  function GetWorkerTask(m: TaskExecutorsManager, key: Key, name: string): (r: Result<Option<WorkerTask>>)
    reads m, ExecObjs(m.taskExecutors)
    ensures r == Err(NullPointer) <==> key !in m.taskExecutors
    ensures r.Ok? ==> (r.value.Some? <==> name in m.taskExecutors[key].Tasks())
    ensures r.Ok? && r.value.Some? ==> r.value.value in HeldTasks(m)
  {
    match GetTaskExecutorFromTaskBinder(m, key)
    case None => Err(NullPointer)
    case Some(e) => Ok(if name in e.Tasks() then Some(e.Tasks()[name]) else None)
  }

  /** `getWorkerTaskResult(manager, clazz, name)`: that task's current
      result; a NullPointerException when the executor or the task is
      missing. */
  function GetWorkerTaskResult(m: TaskExecutorsManager, key: Key, name: string): (r: Result<Value>)
    reads m, ExecObjs(m.taskExecutors), HeldTasks(m)
    ensures r.Ok? <==> key in m.taskExecutors && name in m.taskExecutors[key].Tasks()
    ensures r.Ok? ==> r.value == m.taskExecutors[key].Tasks()[name].GetResult()
    ensures r.Err? ==> r.error == NullPointer
  {
    match GetWorkerTask(m, key, name)
    case Err(e) => Err(e)
    case Ok(None) => Err(NullPointer)
    case Ok(Some(t)) => Ok(t.result)
  }

  /** The lookups agree with the chain a task body follows through its
      manager: the body finds a task exactly when `getWorkerTask` returns
      one, and reads the result `getWorkerTaskResult` returns. */
  lemma LookupIsGetWorkerTask(m: TaskExecutorsManager, key: Key, name: string)
    ensures Lookup(OfManager(m), key, name).Some? <==> GetWorkerTask(m, key, name).Ok? && GetWorkerTask(m, key, name).value.Some?
    ensures Lookup(OfManager(m), key, name).Some? ==> GetWorkerTask(m, key, name) == Ok(Lookup(OfManager(m), key, name))
    ensures Lookup(OfManager(m), key, name).Some? <==> GetWorkerTaskResult(m, key, name).Ok?
    ensures Lookup(OfManager(m), key, name).Some? ==> GetWorkerTaskResult(m, key, name).value == Lookup(OfManager(m), key, name).value.result
  {
  }
}
