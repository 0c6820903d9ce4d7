/** The parameter checks run before a routed method is invoked. Each check
    either passes or throws, and has no other effect. */
module Validator {
  import opened Values
  import opened Reflection

  /** Throws IllegalArgumentException unless the method declares exactly
      `length` parameters. */
  function ValidateParametersLength(m: Method, length: int): (r: Outcome)
    ensures r.Fail? <==> |m.params| != length
    ensures r.Fail? ==> r.error == IllegalArgument
  {
    if |m.params| != length then Fail(IllegalArgument) else Pass
  }

  /** Passes for a method without parameters; otherwise throws
      IllegalArgumentException unless parameter `paramIndex` is assignable
      from `validator`. Indexing past the parameters throws
      ArrayIndexOutOfBoundsException. */
  function ValidateParameterType(m: Method, paramIndex: int, validator: JType): (r: Outcome)
    ensures |m.params| == 0 ==> r == Pass
    ensures 0 <= paramIndex < |m.params| ==>
              (r.Fail? <==> !IsAssignableFrom(m.params[paramIndex], validator))
    ensures r.Fail? && 0 <= paramIndex < |m.params| ==> r.error == IllegalArgument
    ensures 0 < |m.params| && !(0 <= paramIndex < |m.params|) ==> r == Fail(ArrayIndexOutOfBounds)
  {
    if |m.params| < 1 then Pass
    else if !(0 <= paramIndex < |m.params|) then Fail(ArrayIndexOutOfBounds)
    else if !IsAssignableFrom(m.params[paramIndex], validator) then Fail(IllegalArgument)
    else Pass
  }

  /** Throws IllegalArgumentException unless the two arrays have the same length. */
  function ValidateNumberOfArgs<A>(methodParams: seq<JType>, inputParams: seq<A>): (r: Outcome)
    ensures r.Fail? <==> |methodParams| != |inputParams|
    ensures r.Fail? ==> r.error == IllegalArgument
  {
    if |methodParams| != |inputParams| then Fail(IllegalArgument) else Pass
  }
}
