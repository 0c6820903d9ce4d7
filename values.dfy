/** Values that flow through Jector: task results, executor keys, the Java
    exceptions the dispatch engine can raise, and the parameter types the
    shape check compares. */
module Values {

  /** An executor key. The Java code keys executors by their class object in
      one place and by a chosen name in another; here it is a plain name. */
  type Key = string

  datatype Option<+T> = None | Some(value: T)

  /** An opaque Java object as seen by the engine; `Null` is Java's null.
      `Real` stands for a boxed `Float`, the one type the Monkey executor's
      `(float)` cast accepts; a boxed `Double` has no value here. */
  datatype Value = Null | Bool(b: bool) | Num(n: int) | Real(r: real) | Str(s: string)

  /** The Java exceptions that matter to the engine. */
  datatype Exception =
    | IllegalArgument
    | IllegalState
    | IllegalAccess
    | InvocationTarget
    | NullPointer
    | ArrayIndexOutOfBounds
    | ClassCast

  /** A value or the exception thrown instead. */
  datatype Result<+T> = Ok(value: T) | Err(error: Exception)

  /** A check that either passes or throws. */
  datatype Outcome = Pass | Fail(error: Exception)

  /** The Java classes that can appear as parameter types of a routed method
      or as the class of an argument passed to it. */
  datatype JType =
    | ObjectType
    | MethodArgumentsType
    | MonkeyMethodArgumentsType
    | ManagerType
    | MonkeyManagerType
    | BinderType
    | MonkeyBinderType
    | OtherType(name: string)

  /** `target.isAssignableFrom(source)` over the class hierarchy above:
      every class is assignable to itself and to Object, and each Monkey
      class is a subclass of its base class. */
  predicate IsAssignableFrom(target: JType, source: JType)
  {
    || target == source
    || target == ObjectType
    || (target == MethodArgumentsType && source == MonkeyMethodArgumentsType)
    || (target == ManagerType && source == MonkeyManagerType)
    || (target == BinderType && source == MonkeyBinderType)
  }
}
