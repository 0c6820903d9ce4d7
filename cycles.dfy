/** One executor cycle, stated on values, in the two flavours of the source.

    A cycle visits the names of the executor's task map in some order. The
    thread-backed flavour (`AppThread.executeTasks`) calls a task when it is
    active and not yet executed, stores the returned value and marks it
    executed. The tick-driven flavour (`MonkeyTaskExecutor.executeTasks`)
    calls every active `MonkeyWorkerTask`, whatever its `executed` flag,
    after setting its time-per-frame to the cycle argument. In both, an
    exception escaping a call abandons the rest of the cycle. */
module Cycles {
  import opened Values
  import opened Invocation

  /** The state after visiting a prefix of the names: the task states, what
      the bodies printed, the tasks called whose call returned (with the
      values returned, in the same order) and, if the cycle was abandoned,
      the task whose call threw. */
  datatype Cycle<T> = Cycle(view: View<T>, printed: seq<Value>, ran: seq<T>, returned: seq<Value>, thrower: Option<T>)

  /** The task is eligible for the thread-backed cycle. */
  predicate Eligible(s: TaskState)
  {
    s.active && !s.executed
  }

  /** Visiting one name in `AppThread.executeTasks`. */
  function ThreadStep<T>(c: Cycle<T>, name: string, tasks: map<string, T>, plans: map<T, Plan<T>>): Cycle<T>
  {
    if c.thrower.Some? || name !in tasks then c
    else
      var t := tasks[name];
      if t !in c.view || t !in plans || !Eligible(c.view[t]) then c
      else
        var r := CallSpec(c.view, plans[t]);
        CallOnlyActivates(c.view, plans[t]);
        match r.outcome
        case Threw(_) => Cycle(r.view, c.printed + r.printed, c.ran, c.returned, Some(t))
        case Returned(x) =>
          Cycle(r.view[t := r.view[t].(result := x, executed := true)],
                c.printed + r.printed, c.ran + [t], c.returned + [x], None)
  }

  /** `AppThread.executeTasks` over the names `order`, from the states `v`. */
  function ThreadCycle<T>(v: View<T>, order: seq<string>, tasks: map<string, T>, plans: map<T, Plan<T>>): Cycle<T>
    decreases |order|
  {
    if order == [] then Cycle(v, [], [], [], None)
    else ThreadStep(ThreadCycle(v, order[..|order| - 1], tasks, plans), order[|order| - 1], tasks, plans)
  }

  /** Visiting one name in `MonkeyTaskExecutor.executeTasks(arg)`. The cast
      `(float) arg` throws unless the argument is a float. */
  function MonkeyStep<T>(c: Cycle<T>, name: string, tasks: map<string, T>, plans: map<T, Plan<T>>, arg: Value): Cycle<T>
  {
    if c.thrower.Some? || name !in tasks then c
    else
      var t := tasks[name];
      if t !in c.view || t !in plans || !c.view[t].active || !plans[t].monkey then c
      else if !arg.Real? then Cycle(c.view, c.printed, c.ran, c.returned, Some(t))
      else
        var v1 := c.view[t := c.view[t].(timePerFrame := arg.r)];
        var r := CallSpec(v1, plans[t]);
        CallOnlyActivates(v1, plans[t]);
        match r.outcome
        case Threw(_) => Cycle(r.view, c.printed + r.printed, c.ran, c.returned, Some(t))
        case Returned(x) =>
          Cycle(r.view[t := r.view[t].(result := x)], c.printed + r.printed, c.ran + [t], c.returned + [x], None)
  }

  /** `MonkeyTaskExecutor.executeTasks(arg)` over the names `order`. */
  function MonkeyCycle<T>(v: View<T>, order: seq<string>, tasks: map<string, T>, plans: map<T, Plan<T>>, arg: Value): Cycle<T>
    decreases |order|
  {
    if order == [] then Cycle(v, [], [], [], None)
    else MonkeyStep(MonkeyCycle(v, order[..|order| - 1], tasks, plans, arg), order[|order| - 1], tasks, plans, arg)
  }

  /** No task body bound on this executor activates or deactivates a task of
      this same executor. */
  ghost predicate NoSelfActivation<T>(tasks: map<string, T>, plans: map<T, Plan<T>>)
  {
    forall n, u | n in tasks && tasks[n] in plans && u in ActivateTargets(plans[tasks[n]].steps) ::
      u !in tasks.Values
  }

  /** The task of each name is known to the view and has a plan. */
  ghost predicate Covered<T>(v: View<T>, tasks: map<string, T>, plans: map<T, Plan<T>>)
  {
    forall n | n in tasks :: tasks[n] in v && tasks[n] in plans
  }

  ghost predicate Distinct<T>(s: seq<T>)
  {
    forall i, j | 0 <= i < j < |s| :: s[i] != s[j]
  }

  /** Appending an element not yet present keeps a sequence duplicate-free. */
  lemma DistinctSnoc<T>(s: seq<T>, x: T)
    requires Distinct(s) && x !in s
    ensures Distinct(s + [x])
  {
  }

  /** What a thread-backed cycle has done so far, relative to the states
      `v` it started from: the task map's tasks that were called are
      executed with their returned value as result; every other task keeps
      its `executed` flag and its result; a task is called at most once,
      and only if it was not executed before; the task whose call threw is
      left not executed; no time-per-frame changes. */
  ghost predicate ThreadFacts<T>(v: View<T>, c: Cycle<T>, tasks: map<string, T>)
  {
    && c.view.Keys == v.Keys
    && |c.ran| == |c.returned|
    && Distinct(c.ran)
    && (forall t | t in v :: c.view[t].timePerFrame == v[t].timePerFrame)
    && (forall t | t in v :: c.view[t].executed <==> v[t].executed || t in c.ran)
    && (forall t | t in v && t !in c.ran :: c.view[t].result == v[t].result)
    && (forall i | 0 <= i < |c.ran| :: c.ran[i] in v && !v[c.ran[i]].executed && c.ran[i] in tasks.Values)
    && (forall i | 0 <= i < |c.ran| :: c.view[c.ran[i]].result == c.returned[i])
    && (c.thrower.Some? ==>
          c.thrower.value in v && c.thrower.value !in c.ran && !c.view[c.thrower.value].executed)
  }

  lemma ThreadStepFacts<T>(v: View<T>, c: Cycle<T>, name: string, tasks: map<string, T>, plans: map<T, Plan<T>>)
    requires ThreadFacts(v, c, tasks)
    ensures ThreadFacts(v, ThreadStep(c, name, tasks, plans), tasks)
  {
    if c.thrower.None? && name in tasks {
      var t := tasks[name];
      if t in c.view && t in plans && Eligible(c.view[t]) {
        ThreadCallFacts(v, c, name, tasks, plans);
      }
    }
  }

  lemma ThreadCallFacts<T>(v: View<T>, c: Cycle<T>, name: string, tasks: map<string, T>, plans: map<T, Plan<T>>)
    requires ThreadFacts(v, c, tasks)
    requires c.thrower.None? && name in tasks && tasks[name] in c.view && tasks[name] in plans && Eligible(c.view[tasks[name]])
    ensures ThreadFacts(v, ThreadStep(c, name, tasks, plans), tasks)
  {
    var t := tasks[name];
    assert t in tasks.Values;
    var r := CallSpec(c.view, plans[t]);
    CallOnlyActivates(c.view, plans[t]);
    ThreadStepCalled(c, name, tasks, plans);
    var d := ThreadStep(c, name, tasks, plans);
    if r.outcome.Returned? {
      ThreadReturnedFacts(v, c, d, tasks, t, r.view, r.outcome.value, c.printed + r.printed);
    }
  }

  /** The step of an eligible task: a call that returns is recorded with
      its value and marks the task executed, and one that throws leaves
      every task state as it was. */
  lemma ThreadStepCalled<T>(c: Cycle<T>, name: string, tasks: map<string, T>, plans: map<T, Plan<T>>)
    requires c.thrower.None? && name in tasks && tasks[name] in c.view && tasks[name] in plans && Eligible(c.view[tasks[name]])
    ensures var t := tasks[name];
            var r := CallSpec(c.view, plans[t]);
            && t in r.view
            && (r.outcome.Returned? ==>
                  ThreadStep(c, name, tasks, plans)
                  == Cycle(r.view[t := r.view[t].(result := r.outcome.value, executed := true)],
                           c.printed + r.printed, c.ran + [t], c.returned + [r.outcome.value], None))
            && (r.outcome.Threw? ==> ThreadStep(c, name, tasks, plans) == Cycle(c.view, c.printed, c.ran, c.returned, Some(t)))
  {
    var t := tasks[name];
    CallOnlyActivates(c.view, plans[t]);
  }

  /** A call of the eligible task `t` that returned `x`, and changed no
      `executed`, result or time-per-frame, keeps `ThreadFacts` once `t`
      is marked executed with result `x`. */
  lemma ThreadReturnedFacts<T>(v: View<T>, c: Cycle<T>, d: Cycle<T>, tasks: map<string, T>, t: T, rv: View<T>, x: Value, p: seq<Value>)
    requires ThreadFacts(v, c, tasks) && c.thrower.None?
    requires t in tasks.Values && t in c.view && !c.view[t].executed
    requires rv.Keys == c.view.Keys
    requires forall u | u in c.view ::
               && rv[u].executed == c.view[u].executed && rv[u].result == c.view[u].result
               && rv[u].timePerFrame == c.view[u].timePerFrame
    requires d == Cycle(rv[t := rv[t].(result := x, executed := true)], p, c.ran + [t], c.returned + [x], None)
    ensures ThreadFacts(v, d, tasks)
  {
    assert t !in c.ran;
    forall i | 0 <= i < |d.ran| ensures d.view[d.ran[i]].result == d.returned[i] {
      if i < |c.ran| {
        assert d.ran[i] == c.ran[i] && d.returned[i] == c.returned[i];
      }
    }
    forall i | 0 <= i < |d.ran| ensures d.ran[i] in v && !v[d.ran[i]].executed && d.ran[i] in tasks.Values {
      if i < |c.ran| {
        assert d.ran[i] == c.ran[i];
      }
    }
  }

  /** A thread-backed cycle over one more name is one more step. */
  lemma ThreadCycleSnoc<T>(v: View<T>, order: seq<string>, name: string, tasks: map<string, T>, plans: map<T, Plan<T>>)
    ensures ThreadCycle(v, order + [name], tasks, plans) == ThreadStep(ThreadCycle(v, order, tasks, plans), name, tasks, plans)
  {
    assert (order + [name])[..|order|] == order;
  }

  /** A step that throws from a cycle that had not thrown was a call of
      the task under the name visited. */
  lemma ThreadStepThrower<T>(c: Cycle<T>, name: string, tasks: map<string, T>, plans: map<T, Plan<T>>)
    requires c.thrower.None?
    ensures ThreadStep(c, name, tasks, plans).thrower.Some? ==>
              name in tasks && ThreadStep(c, name, tasks, plans).thrower.value == tasks[name]
  {
  }

  /** Once a thread-backed cycle has thrown, the names after the thrower
      change nothing: the rest of the cycle is abandoned. */
  lemma {:induction false} ThreadCycleAbandoned<T>(v: View<T>, o1: seq<string>, o2: seq<string>, tasks: map<string, T>,
                                                   plans: map<T, Plan<T>>)
    requires ThreadCycle(v, o1, tasks, plans).thrower.Some?
    ensures ThreadCycle(v, o1 + o2, tasks, plans) == ThreadCycle(v, o1, tasks, plans)
    decreases |o2|
  {
    if o2 == [] {
      assert o1 + o2 == o1;
    } else {
      ThreadCycleAbandoned(v, o1, o2[..|o2| - 1], tasks, plans);
      assert (o1 + o2)[..|o1 + o2| - 1] == o1 + o2[..|o2| - 1];
    }
  }

  /** Every thread-backed cycle keeps `ThreadFacts` from its first state. */
  lemma {:induction false} ThreadCycleFacts<T>(v: View<T>, order: seq<string>, tasks: map<string, T>, plans: map<T, Plan<T>>)
    ensures ThreadFacts(v, ThreadCycle(v, order, tasks, plans), tasks)
    decreases |order|
  {
    if order != [] {
      ThreadCycleFacts(v, order[..|order| - 1], tasks, plans);
      ThreadStepFacts(v, ThreadCycle(v, order[..|order| - 1], tasks, plans), order[|order| - 1], tasks, plans);
    }
  }

  /** What a thread-backed cycle over the names `order` has called so far,
      when no body activates a task of this executor: the executor's tasks
      keep their `active` flags, every task called was eligible at the
      start, and, unless the cycle was abandoned, every visited task that
      was eligible at the start has been called. */
  ghost predicate ThreadCalls<T>(v: View<T>, c: Cycle<T>, order: seq<string>, tasks: map<string, T>)
    requires c.view.Keys == v.Keys
    requires forall n | n in tasks :: tasks[n] in v
  {
    && (forall n | n in tasks :: c.view[tasks[n]].active == v[tasks[n]].active)
    && (forall t | t in c.ran :: t in v && Eligible(v[t]))
    && (c.thrower.None? ==>
          forall i | 0 <= i < |order| && order[i] in tasks && Eligible(v[tasks[order[i]]]) :: tasks[order[i]] in c.ran)
  }

  lemma ThreadStepCalls<T>(v: View<T>, c: Cycle<T>, init: seq<string>, name: string, tasks: map<string, T>, plans: map<T, Plan<T>>)
    requires Covered(v, tasks, plans) && NoSelfActivation(tasks, plans)
    requires ThreadFacts(v, c, tasks) && ThreadCalls(v, c, init, tasks)
    ensures ThreadStep(c, name, tasks, plans).view.Keys == v.Keys
    ensures ThreadCalls(v, ThreadStep(c, name, tasks, plans), init + [name], tasks)
  {
    ThreadStepFacts(v, c, name, tasks, plans);
    var d := ThreadStep(c, name, tasks, plans);
    var order := init + [name];
    if c.thrower.Some? || name !in tasks {
      assert d == c;
      forall i | 0 <= i < |order| && order[i] in tasks && Eligible(v[tasks[order[i]]]) && d.thrower.None?
        ensures tasks[order[i]] in d.ran
      {
        if i < |init| {
          assert order[i] == init[i];
        }
      }
    } else {
      var t := tasks[name];
      if !Eligible(c.view[t]) {
        assert d == c;
        assert t in c.ran || !Eligible(v[t]);
        forall i | 0 <= i < |order| && order[i] in tasks && Eligible(v[tasks[order[i]]]) && d.thrower.None?
          ensures tasks[order[i]] in d.ran
        {
          if i < |init| {
            assert order[i] == init[i];
          }
        }
      } else {
        ThreadCallStepCalls(v, c, init, name, tasks, plans);
      }
    }
  }

  lemma ThreadCallStepCalls<T>(v: View<T>, c: Cycle<T>, init: seq<string>, name: string, tasks: map<string, T>, plans: map<T, Plan<T>>)
    requires Covered(v, tasks, plans) && NoSelfActivation(tasks, plans)
    requires ThreadFacts(v, c, tasks) && ThreadCalls(v, c, init, tasks)
    requires c.thrower.None? && name in tasks && Eligible(c.view[tasks[name]])
    ensures ThreadStep(c, name, tasks, plans).view.Keys == v.Keys
    ensures ThreadCalls(v, ThreadStep(c, name, tasks, plans), init + [name], tasks)
  {
    var t := tasks[name];
    var r := CallSpec(c.view, plans[t]);
    CallOnlyActivates(c.view, plans[t]);
    forall n | n in tasks ensures r.view[tasks[n]].active == v[tasks[n]].active {
      assert tasks[n] in tasks.Values;
    }
    assert Eligible(v[t]);
    var d := ThreadStep(c, name, tasks, plans);
    if r.outcome.Returned? {
      var order := init + [name];
      assert d.ran == c.ran + [t];
      forall i | 0 <= i < |order| && order[i] in tasks && Eligible(v[tasks[order[i]]])
        ensures tasks[order[i]] in d.ran
      {
        if i < |init| {
          assert order[i] == init[i];
        }
      }
    }
  }

  lemma {:induction false} ThreadCycleCallsEligible<T>(v: View<T>, order: seq<string>, tasks: map<string, T>, plans: map<T, Plan<T>>)
    requires Covered(v, tasks, plans) && NoSelfActivation(tasks, plans)
    ensures ThreadFacts(v, ThreadCycle(v, order, tasks, plans), tasks)
    ensures ThreadCalls(v, ThreadCycle(v, order, tasks, plans), order, tasks)
    decreases |order|
  {
    if order != [] {
      var init := order[..|order| - 1];
      ThreadCycleCallsEligible(v, init, tasks, plans);
      var c := ThreadCycle(v, init, tasks, plans);
      ThreadStepFacts(v, c, order[|order| - 1], tasks, plans);
      ThreadStepCalls(v, c, init, order[|order| - 1], tasks, plans);
      assert init + [order[|order| - 1]] == order;
      assert ThreadCycle(v, order, tasks, plans) == ThreadStep(c, order[|order| - 1], tasks, plans);
    }
  }

  /** The cycle over all names of the task map, when it completes, calls
      exactly the active, not yet executed tasks (both directions). */
  lemma ThreadCycleExactlyEligible<T>(v: View<T>, order: seq<string>, tasks: map<string, T>, plans: map<T, Plan<T>>)
    requires Covered(v, tasks, plans) && NoSelfActivation(tasks, plans)
    requires forall n :: n in tasks <==> n in order
    requires ThreadCycle(v, order, tasks, plans).thrower.None?
    ensures forall t :: t in ThreadCycle(v, order, tasks, plans).ran <==> t in tasks.Values && Eligible(v[t])
  {
    ThreadCycleCallsEligible(v, order, tasks, plans);
    var c := ThreadCycle(v, order, tasks, plans);
    forall t | t in tasks.Values && Eligible(v[t]) ensures t in c.ran {
      var n :| n in tasks && tasks[n] == t;
      var i :| 0 <= i < |order| && order[i] == n;
    }
    ThreadCycleFacts(v, order, tasks, plans);
    forall t | t in c.ran ensures t in tasks.Values {
      var i :| 0 <= i < |c.ran| && c.ran[i] == t;
    }
  }

  /** What the host may do between two cycles: set the `active` flag of
      some tasks. */
  function Activate<T>(v: View<T>, flags: map<T, bool>): (r: View<T>)
    ensures r.Keys == v.Keys
    ensures forall t | t in v :: r[t].executed == v[t].executed && r[t].result == v[t].result
  {
    map t | t in v :: if t in flags then v[t].(active := flags[t]) else v[t]
  }

  /** A run of a thread-backed executor: rounds of host activations, each
      followed by one cycle over the given names. */
  datatype Round<T> = Round(flags: map<T, bool>, order: seq<string>)

  datatype Run<T> = Run(view: View<T>, ran: seq<T>)

  function ThreadRounds<T>(v: View<T>, rounds: seq<Round<T>>, tasks: map<string, T>, plans: map<T, Plan<T>>): Run<T>
    decreases |rounds|
  {
    if rounds == [] then Run(v, [])
    else
      var r := ThreadRounds(v, rounds[..|rounds| - 1], tasks, plans);
      var last := rounds[|rounds| - 1];
      var c := ThreadCycle(Activate(r.view, last.flags), last.order, tasks, plans);
      Run(c.view, r.ran + c.ran)
  }

  /** However many cycles run and however the host toggles `active` in
      between, a task is called at most once in its lifetime, never if it
      was executed to begin with, and the tasks called are exactly those
      that end executed without having started so. */
  lemma {:induction false} AtMostOncePerLifetime<T>(v: View<T>, rounds: seq<Round<T>>, tasks: map<string, T>, plans: map<T, Plan<T>>)
    ensures var r := ThreadRounds(v, rounds, tasks, plans);
      && r.view.Keys == v.Keys
      && Distinct(r.ran)
      && (forall t | t in v :: r.view[t].executed <==> v[t].executed || t in r.ran)
      && (forall t | t in r.ran :: t in v && !v[t].executed)
    decreases |rounds|
  {
    if rounds != [] {
      var init := rounds[..|rounds| - 1];
      var last := rounds[|rounds| - 1];
      AtMostOncePerLifetime(v, init, tasks, plans);
      var r := ThreadRounds(v, init, tasks, plans);
      var a := Activate(r.view, last.flags);
      ThreadCycleFacts(a, last.order, tasks, plans);
      var c := ThreadCycle(a, last.order, tasks, plans);
      forall i, j | 0 <= i < j < |r.ran + c.ran| ensures (r.ran + c.ran)[i] != (r.ran + c.ran)[j] {
        if j >= |r.ran| && i < |r.ran| {
          assert (r.ran + c.ran)[j] == c.ran[j - |r.ran|];
          assert a[r.ran[i]].executed;
        }
      }
    }
  }

  /** What a tick-driven cycle has done so far, relative to the states `v`
      it started from: no `executed` flag changes; only active
      `MonkeyWorkerTask`s of the task map are called; a task neither called
      nor the one that threw keeps its result and its time-per-frame; a
      task called has the cycle argument as its time-per-frame and holds
      the value its last call returned. */
  ghost predicate MonkeyFacts<T>(v: View<T>, c: Cycle<T>, tasks: map<string, T>, plans: map<T, Plan<T>>, arg: Value)
  {
    && c.view.Keys == v.Keys
    && |c.ran| == |c.returned|
    && (forall t | t in v :: c.view[t].executed == v[t].executed)
    && (forall t | t in v && t !in c.ran && Some(t) != c.thrower ::
          c.view[t].result == v[t].result && c.view[t].timePerFrame == v[t].timePerFrame)
    && (forall t | t in c.ran :: t in tasks.Values && t in plans && plans[t].monkey)
    && (forall t | t in c.ran :: t in v && arg.Real? && c.view[t].timePerFrame == arg.r)
    && (c.thrower.Some? ==> c.thrower.value in tasks.Values && c.thrower.value in plans && plans[c.thrower.value].monkey)
    && LastResults(c)
  }

  /** Each task called holds the value its last call returned. */
  ghost predicate LastResults<T>(c: Cycle<T>)
  {
    forall i | 0 <= i < |c.ran| && i < |c.returned| && IsLast(c.ran, i) ::
      c.ran[i] in c.view && c.view[c.ran[i]].result == c.returned[i]
  }

  /** No later element of `s` equals `s[i]`. */
  ghost predicate IsLast<T>(s: seq<T>, i: int)
    requires 0 <= i < |s|
  {
    s[i] !in s[i + 1..]
  }

  /** One more call of `t` returning `x`, which `t` then holds, keeps
      `LastResults` when no other task's result changes. */
  lemma LastResultsCall<T>(c: Cycle<T>, d: Cycle<T>, t: T, x: Value)
    requires |c.ran| == |c.returned| && LastResults(c)
    requires d.ran == c.ran + [t] && d.returned == c.returned + [x]
    requires t in d.view && d.view[t].result == x
    requires forall u | u in c.view && u != t :: u in d.view && d.view[u].result == c.view[u].result
    ensures LastResults(d)
  {
    forall i | 0 <= i < |d.ran| && i < |d.returned| && IsLast(d.ran, i)
      ensures d.ran[i] in d.view && d.view[d.ran[i]].result == d.returned[i]
    {
      if i < |c.ran| {
        IsLastInit(c.ran, t, i);
      }
    }
  }

  /** An element last in `s + [t]` is last in `s`, and is not `t`. */
  lemma IsLastInit<T>(s: seq<T>, t: T, i: int)
    requires 0 <= i < |s| && IsLast(s + [t], i)
    ensures IsLast(s, i) && s[i] != t
  {
    assert (s + [t])[i + 1..] == s[i + 1..] + [t];
  }

  /** The last index at which an element occurs. */
  lemma {:induction false} LastIndex<T>(s: seq<T>, x: T) returns (i: nat)
    requires x in s
    ensures i < |s| && s[i] == x && IsLast(s, i)
    decreases |s|
  {
    if s[|s| - 1] == x {
      i := |s| - 1;
    } else {
      var init := s[..|s| - 1];
      assert x in init by {
        var j :| 0 <= j < |s| && s[j] == x;
        assert init[j] == x;
      }
      i := LastIndex(init, x);
      assert s[i + 1..] == init[i + 1..] + [s[|s| - 1]];
    }
  }

  lemma MonkeyStepFacts<T>(v: View<T>, c: Cycle<T>, name: string, tasks: map<string, T>, plans: map<T, Plan<T>>, arg: Value)
    requires MonkeyFacts(v, c, tasks, plans, arg)
    ensures MonkeyFacts(v, MonkeyStep(c, name, tasks, plans, arg), tasks, plans, arg)
  {
    if c.thrower.None? && name in tasks {
      var t := tasks[name];
      if t in c.view && t in plans && c.view[t].active && plans[t].monkey {
        assert t in tasks.Values;
        if arg.Real? {
          MonkeyCallFacts(v, c, name, tasks, plans, arg);
        }
      }
    }
  }

  lemma MonkeyCallFacts<T>(v: View<T>, c: Cycle<T>, name: string, tasks: map<string, T>, plans: map<T, Plan<T>>, arg: Value)
    requires MonkeyFacts(v, c, tasks, plans, arg)
    requires c.thrower.None? && name in tasks && tasks[name] in c.view && tasks[name] in plans
    requires c.view[tasks[name]].active && plans[tasks[name]].monkey && arg.Real?
    ensures MonkeyFacts(v, MonkeyStep(c, name, tasks, plans, arg), tasks, plans, arg)
  {
    var t := tasks[name];
    assert t in tasks.Values;
    var v1 := c.view[t := c.view[t].(timePerFrame := arg.r)];
    var r := CallSpec(v1, plans[t]);
    CallOnlyActivates(v1, plans[t]);
    MonkeyStepCalled(c, name, tasks, plans, arg);
    var d := MonkeyStep(c, name, tasks, plans, arg);
    if r.outcome.Returned? {
      MonkeyReturnedFacts(v, c, d, tasks, plans, arg, t, r.view, r.outcome.value);
    } else {
      MonkeyThrewFacts(v, c, d, tasks, plans, arg, t);
    }
  }

  /** The step of an active `MonkeyWorkerTask` with a float argument: it
      sets the time per frame and calls the task; a call that returns is
      recorded with its value, and one that throws leaves every task state
      as it was after the time per frame was set. */
  lemma MonkeyStepCalled<T>(c: Cycle<T>, name: string, tasks: map<string, T>, plans: map<T, Plan<T>>, arg: Value)
    requires c.thrower.None? && name in tasks && tasks[name] in c.view && tasks[name] in plans
    requires c.view[tasks[name]].active && plans[tasks[name]].monkey && arg.Real?
    ensures var t := tasks[name];
            var v1 := c.view[t := c.view[t].(timePerFrame := arg.r)];
            var r := CallSpec(v1, plans[t]);
            && t in r.view
            && (r.outcome.Returned? ==>
                  MonkeyStep(c, name, tasks, plans, arg)
                  == Cycle(r.view[t := r.view[t].(result := r.outcome.value)], c.printed + r.printed, c.ran + [t], c.returned + [r.outcome.value], None))
            && (r.outcome.Threw? ==> MonkeyStep(c, name, tasks, plans, arg) == Cycle(v1, c.printed, c.ran, c.returned, Some(t)))
  {
    var t := tasks[name];
    CallOnlyActivates(c.view[t := c.view[t].(timePerFrame := arg.r)], plans[t]);
  }

  /** A call of `t` that threw after its time-per-frame was set to the
      cycle argument, and changed nothing else, keeps `MonkeyFacts`. */
  lemma MonkeyThrewFacts<T>(v: View<T>, c: Cycle<T>, d: Cycle<T>, tasks: map<string, T>, plans: map<T, Plan<T>>, arg: Value, t: T)
    requires MonkeyFacts(v, c, tasks, plans, arg) && c.thrower.None?
    requires arg.Real? && t in tasks.Values && t in plans && plans[t].monkey && t in c.view
    requires d == Cycle(c.view[t := c.view[t].(timePerFrame := arg.r)], c.printed, c.ran, c.returned, Some(t))
    ensures MonkeyFacts(v, d, tasks, plans, arg)
  {
  }

  /** A call of `t` that returned `x` after its time-per-frame was set to
      the cycle argument, and changed no `executed`, result or other
      time-per-frame, keeps `MonkeyFacts`. */
  lemma MonkeyReturnedFacts<T>(v: View<T>, c: Cycle<T>, d: Cycle<T>, tasks: map<string, T>, plans: map<T, Plan<T>>, arg: Value,
                               t: T, rv: View<T>, x: Value)
    requires MonkeyFacts(v, c, tasks, plans, arg) && c.thrower.None?
    requires arg.Real? && t in tasks.Values && t in plans && plans[t].monkey && t in c.view
    requires rv.Keys == c.view.Keys
    requires forall u | u in c.view ::
               && rv[u].executed == c.view[u].executed && rv[u].result == c.view[u].result
               && rv[u].timePerFrame == (if u == t then arg.r else c.view[u].timePerFrame)
    requires d.view == rv[t := rv[t].(result := x)] && d.ran == c.ran + [t] && d.returned == c.returned + [x] && d.thrower.None?
    ensures MonkeyFacts(v, d, tasks, plans, arg)
  {
    forall u | u in d.ran ensures u in v && arg.Real? && d.view[u].timePerFrame == arg.r {
      if u != t {
        assert u in c.ran;
      }
    }
    LastResultsCall(c, d, t, x);
  }

  /** A step that throws from a cycle that had not thrown was a visit of
      the task under the name visited. */
  lemma MonkeyStepThrower<T>(c: Cycle<T>, name: string, tasks: map<string, T>, plans: map<T, Plan<T>>, arg: Value)
    requires c.thrower.None?
    ensures MonkeyStep(c, name, tasks, plans, arg).thrower.Some? ==>
              name in tasks && MonkeyStep(c, name, tasks, plans, arg).thrower.value == tasks[name]
  {
  }

  /** Once a tick-driven cycle has thrown, the names after the thrower
      change nothing: the rest of the cycle is abandoned. */
  lemma {:induction false} MonkeyCycleAbandoned<T>(v: View<T>, o1: seq<string>, o2: seq<string>, tasks: map<string, T>,
                                                   plans: map<T, Plan<T>>, arg: Value)
    requires MonkeyCycle(v, o1, tasks, plans, arg).thrower.Some?
    ensures MonkeyCycle(v, o1 + o2, tasks, plans, arg) == MonkeyCycle(v, o1, tasks, plans, arg)
    decreases |o2|
  {
    if o2 == [] {
      assert o1 + o2 == o1;
    } else {
      MonkeyCycleAbandoned(v, o1, o2[..|o2| - 1], tasks, plans, arg);
      assert (o1 + o2)[..|o1 + o2| - 1] == o1 + o2[..|o2| - 1];
    }
  }

  /** A tick-driven cycle over one more name is one more step. */
  lemma MonkeyCycleSnoc<T>(v: View<T>, order: seq<string>, name: string, tasks: map<string, T>, plans: map<T, Plan<T>>, arg: Value)
    ensures MonkeyCycle(v, order + [name], tasks, plans, arg) == MonkeyStep(MonkeyCycle(v, order, tasks, plans, arg), name, tasks, plans, arg)
  {
    assert (order + [name])[..|order|] == order;
  }

  /** Every tick-driven cycle keeps `MonkeyFacts` from its first state. */
  lemma {:induction false} MonkeyCycleFacts<T>(v: View<T>, order: seq<string>, tasks: map<string, T>, plans: map<T, Plan<T>>, arg: Value)
    ensures MonkeyFacts(v, MonkeyCycle(v, order, tasks, plans, arg), tasks, plans, arg)
    decreases |order|
  {
    if order != [] {
      MonkeyCycleFacts(v, order[..|order| - 1], tasks, plans, arg);
      MonkeyStepFacts(v, MonkeyCycle(v, order[..|order| - 1], tasks, plans, arg), order[|order| - 1], tasks, plans, arg);
    }
  }

  /** What a tick-driven cycle over the names `order` has called so far,
      when no body activates a task of this executor: the executor's tasks
      keep their `active` flags, every task called was an active
      `MonkeyWorkerTask`, and, unless the cycle was abandoned, every visited
      active `MonkeyWorkerTask` has been called, executed or not. */
  ghost predicate MonkeyCalls<T>(v: View<T>, c: Cycle<T>, order: seq<string>, tasks: map<string, T>, plans: map<T, Plan<T>>)
    requires c.view.Keys == v.Keys
    requires Covered(v, tasks, plans)
  {
    && (forall n | n in tasks :: c.view[tasks[n]].active == v[tasks[n]].active)
    && (forall t | t in c.ran :: t in v && t in plans && v[t].active && plans[t].monkey)
    && (c.thrower.None? ==>
          forall i | 0 <= i < |order| && order[i] in tasks && v[tasks[order[i]]].active && plans[tasks[order[i]]].monkey ::
            tasks[order[i]] in c.ran)
  }

  lemma MonkeyStepCalls<T>(v: View<T>, c: Cycle<T>, init: seq<string>, name: string, tasks: map<string, T>, plans: map<T, Plan<T>>, arg: Value)
    requires Covered(v, tasks, plans) && NoSelfActivation(tasks, plans)
    requires MonkeyFacts(v, c, tasks, plans, arg) && MonkeyCalls(v, c, init, tasks, plans)
    ensures MonkeyStep(c, name, tasks, plans, arg).view.Keys == v.Keys
    ensures MonkeyCalls(v, MonkeyStep(c, name, tasks, plans, arg), init + [name], tasks, plans)
  {
    var d := MonkeyStep(c, name, tasks, plans, arg);
    var order := init + [name];
    if c.thrower.None? && name in tasks && c.view[tasks[name]].active && plans[tasks[name]].monkey && arg.Real? {
      MonkeyCallStepCalls(v, c, init, name, tasks, plans, arg);
    } else if d.thrower.None? {
      assert d == c;
      forall i | 0 <= i < |order| && order[i] in tasks && v[tasks[order[i]]].active && plans[tasks[order[i]]].monkey
        ensures tasks[order[i]] in d.ran
      {
        if i < |init| {
          assert order[i] == init[i];
        }
      }
    }
  }

  lemma MonkeyCallStepCalls<T>(v: View<T>, c: Cycle<T>, init: seq<string>, name: string, tasks: map<string, T>, plans: map<T, Plan<T>>, arg: Value)
    requires Covered(v, tasks, plans) && NoSelfActivation(tasks, plans)
    requires c.view.Keys == v.Keys && MonkeyCalls(v, c, init, tasks, plans)
    requires c.thrower.None? && name in tasks && c.view[tasks[name]].active && plans[tasks[name]].monkey && arg.Real?
    ensures MonkeyStep(c, name, tasks, plans, arg).view.Keys == v.Keys
    ensures MonkeyCalls(v, MonkeyStep(c, name, tasks, plans, arg), init + [name], tasks, plans)
  {
    var t := tasks[name];
    var v1 := c.view[t := c.view[t].(timePerFrame := arg.r)];
    var r := CallSpec(v1, plans[t]);
    CallOnlyActivates(v1, plans[t]);
    forall n | n in tasks ensures r.view[tasks[n]].active == v[tasks[n]].active {
      assert tasks[n] in tasks.Values;
    }
    assert c.view[t].active == v[t].active;
    var d := MonkeyStep(c, name, tasks, plans, arg);
    if r.outcome.Returned? {
      var order := init + [name];
      assert d.ran == c.ran + [t];
      forall u | u in d.ran ensures u in v && u in plans && v[u].active && plans[u].monkey {
        if u != t {
          assert u in c.ran;
        }
      }
      forall i | 0 <= i < |order| && order[i] in tasks && v[tasks[order[i]]].active && plans[tasks[order[i]]].monkey
        ensures tasks[order[i]] in d.ran
      {
        if i < |init| {
          assert order[i] == init[i];
        }
      }
    }
  }

  lemma {:induction false} MonkeyCycleCallsActive<T>(v: View<T>, order: seq<string>, tasks: map<string, T>, plans: map<T, Plan<T>>, arg: Value)
    requires Covered(v, tasks, plans) && NoSelfActivation(tasks, plans)
    ensures MonkeyFacts(v, MonkeyCycle(v, order, tasks, plans, arg), tasks, plans, arg)
    ensures MonkeyCalls(v, MonkeyCycle(v, order, tasks, plans, arg), order, tasks, plans)
    decreases |order|
  {
    if order != [] {
      var init := order[..|order| - 1];
      MonkeyCycleCallsActive(v, init, tasks, plans, arg);
      MonkeyStepFacts(v, MonkeyCycle(v, init, tasks, plans, arg), order[|order| - 1], tasks, plans, arg);
      MonkeyStepCalls(v, MonkeyCycle(v, init, tasks, plans, arg), init, order[|order| - 1], tasks, plans, arg);
      assert init + [order[|order| - 1]] == order;
    }
  }

  /** The tick-driven cycle over all names, when it completes, calls exactly
      the active `MonkeyWorkerTask`s, whatever their `executed` flag (both
      directions), leaves them active, so that the next cycle calls them
      again unless something deactivates them, and leaves each holding the
      value one of its calls returned, its last. */
  lemma MonkeyCycleExactlyActive<T>(v: View<T>, order: seq<string>, tasks: map<string, T>, plans: map<T, Plan<T>>, arg: Value)
    requires Covered(v, tasks, plans) && NoSelfActivation(tasks, plans)
    requires forall n :: n in tasks <==> n in order
    requires MonkeyCycle(v, order, tasks, plans, arg).thrower.None?
    ensures forall t :: t in MonkeyCycle(v, order, tasks, plans, arg).ran <==>
                          t in tasks.Values && v[t].active && plans[t].monkey
    ensures forall n | n in tasks :: tasks[n] in MonkeyCycle(v, order, tasks, plans, arg).view &&
                                     MonkeyCycle(v, order, tasks, plans, arg).view[tasks[n]].active == v[tasks[n]].active
    ensures |MonkeyCycle(v, order, tasks, plans, arg).ran| == |MonkeyCycle(v, order, tasks, plans, arg).returned|
    ensures forall t | t in tasks.Values && v[t].active && plans[t].monkey ::
              exists i | 0 <= i < |MonkeyCycle(v, order, tasks, plans, arg).ran| ::
                && MonkeyCycle(v, order, tasks, plans, arg).ran[i] == t
                && MonkeyCycle(v, order, tasks, plans, arg).view[t].result == MonkeyCycle(v, order, tasks, plans, arg).returned[i]
  {
    MonkeyCycleCallsActive(v, order, tasks, plans, arg);
    MonkeyCycleFacts(v, order, tasks, plans, arg);
    var c := MonkeyCycle(v, order, tasks, plans, arg);
    forall t | t in tasks.Values && v[t].active && plans[t].monkey ensures t in c.ran {
      var n :| n in tasks && tasks[n] == t;
      var i :| 0 <= i < |order| && order[i] == n;
    }
    forall t | t in tasks.Values && v[t].active && plans[t].monkey
      ensures exists i | 0 <= i < |c.ran| :: c.ran[i] == t && c.view[t].result == c.returned[i]
    {
      var i := LastIndex(c.ran, t);
      assert c.ran[i] in c.view && c.view[c.ran[i]].result == c.returned[i];
    }
  }
}
