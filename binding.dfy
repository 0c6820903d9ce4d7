/** Which methods a registry's `bind` installs on an executor, stated on
    values. The registries walk their workers' declared methods in order
    and, for each method annotated `@ExecuteOn`, add a task for it to each
    listed executor that is registered; a later method of the same name
    replaces the task of an earlier one. */
module Binding {
  import opened Values
  import opened Reflection

  /** The route lists the executor key `k`. A method without annotation
      (`None`) or with an empty list routes nowhere. */
  predicate RoutesTo(r: Route, k: Key)
  {
    r.executors.Some? && k in r.executors.value
  }

  /** The routes of the workers, worker after worker: every route of every
      worker, and nothing else. That the routes of one more worker follow
      those before it is `AllRoutesStep`. */
  function AllRoutes(workers: seq<Worker>): (r: seq<Route>)
    ensures forall i, j | 0 <= i < |workers| && 0 <= j < |workers[i].routes| :: workers[i].routes[j] in r
    ensures forall x | x in r :: exists i | 0 <= i < |workers| :: x in workers[i].routes
    decreases |workers|
  {
    if workers == [] then []
    else
      var init := AllRoutes(workers[..|workers| - 1]);
      assert forall i | 0 <= i < |workers| - 1 :: workers[..|workers| - 1][i] == workers[i];
      init + workers[|workers| - 1].routes
  }

  /** The method bound under each name on the executor `k` after walking
      `routes`. */
  function Installed(routes: seq<Route>, k: Key): map<string, Method>
    decreases |routes|
  {
    if routes == [] then map[]
    else
      var inst := Installed(routes[..|routes| - 1], k);
      var r := routes[|routes| - 1];
      if RoutesTo(r, k) then inst[r.routed.name := r.routed] else inst
  }

  /** A name is installed on `k` exactly when some route to `k` declares a
      method of that name, and the method installed is that of the last
      such route. */
  lemma {:induction false} InstalledIsLastRoute(routes: seq<Route>, k: Key, n: string)
    ensures n in Installed(routes, k) <==> exists i | 0 <= i < |routes| :: RoutesTo(routes[i], k) && routes[i].routed.name == n
    ensures n in Installed(routes, k) ==>
              exists i | 0 <= i < |routes| ::
                && RoutesTo(routes[i], k) && Installed(routes, k)[n] == routes[i].routed
                && forall j | i < j < |routes| :: !(RoutesTo(routes[j], k) && routes[j].routed.name == n)
    decreases |routes|
  {
    if routes != [] {
      var init := routes[..|routes| - 1];
      var r := routes[|routes| - 1];
      InstalledIsLastRoute(init, k, n);
      if RoutesTo(r, k) && r.routed.name == n {
        assert RoutesTo(routes[|routes| - 1], k) && routes[|routes| - 1].routed.name == n;
      } else {
        if n in Installed(init, k) {
          var i :| 0 <= i < |init| && RoutesTo(init[i], k) && Installed(init, k)[n] == init[i].routed
                   && forall j | i < j < |init| :: !(RoutesTo(init[j], k) && init[j].routed.name == n);
          assert routes[i] == init[i];
          forall j | i < j < |routes| ensures !(RoutesTo(routes[j], k) && routes[j].routed.name == n) {
            if j < |init| {
              assert routes[j] == init[j];
            }
          }
        }
        if exists i | 0 <= i < |routes| :: RoutesTo(routes[i], k) && routes[i].routed.name == n {
          var i :| 0 <= i < |routes| && RoutesTo(routes[i], k) && routes[i].routed.name == n;
          assert i < |init| && init[i] == routes[i];
        }
      }
    }
  }

  /** Routes that reach `k` only under names already installed on it add no
      new name: binding the same workers again installs no name twice. */
  lemma {:induction false} InstalledTwice(routes: seq<Route>, k: Key)
    ensures Installed(routes + routes, k).Keys == Installed(routes, k).Keys
  {
    forall n ensures n in Installed(routes + routes, k) <==> n in Installed(routes, k) {
      InstalledIsLastRoute(routes + routes, k, n);
      InstalledIsLastRoute(routes, k, n);
      if n in Installed(routes + routes, k) {
        var i :| 0 <= i < |routes + routes| && RoutesTo((routes + routes)[i], k) && (routes + routes)[i].routed.name == n;
        var i' := if i < |routes| then i else i - |routes|;
        assert (routes + routes)[i] == routes[i'];
      }
      if n in Installed(routes, k) {
        var i :| 0 <= i < |routes| && RoutesTo(routes[i], k) && routes[i].routed.name == n;
        assert (routes + routes)[i] == routes[i];
      }
    }
  }

  /** The methods installed on each of the executor keys `ks`. */
  ghost function InstalledOn(routes: seq<Route>, ks: set<Key>): map<Key, map<string, Method>>
  {
    map k | k in ks :: Installed(routes, k)
  }

  /** The installed methods after one more route of `m` to `keys`: each
      listed key gets `m` under its name, the others keep theirs. */
  function AddRoute(inst: map<Key, map<string, Method>>, m: Method, keys: seq<Key>): map<Key, map<string, Method>>
  {
    map k | k in inst :: if k in keys then inst[k][m.name := m] else inst[k]
  }

  /** Routing to one more key, `keys[l]`, changes only that key's methods. */
  lemma AddRouteStep(inst: map<Key, map<string, Method>>, m: Method, keys: seq<Key>, l: nat)
    requires l < |keys|
    ensures AddRoute(inst, m, keys[..l + 1])
         == if keys[l] in inst then AddRoute(inst, m, keys[..l])[keys[l] := AddRoute(inst, m, keys[..l])[keys[l]][m.name := m]]
            else AddRoute(inst, m, keys[..l])
  {
    var a := AddRoute(inst, m, keys[..l + 1]);
    var b := AddRoute(inst, m, keys[..l]);
    assert keys[..l + 1] == keys[..l] + [keys[l]];
    forall k | k in inst ensures a[k] == if k == keys[l] then b[k][m.name := m] else b[k] {
      assert k in keys[..l + 1] <==> k in keys[..l] || k == keys[l];
    }
  }

  /** The installed methods after one more declared method: a method without
      annotation, or with an empty key list, changes nothing. */
  function Routed(inst: map<Key, map<string, Method>>, r: Route): map<Key, map<string, Method>>
  {
    if r.executors.None? then inst else AddRoute(inst, r.routed, r.executors.value)
  }

  /** Walking one more route changes the installed methods as `Routed` says. */
  lemma InstalledOnStep(routes: seq<Route>, r: Route, ks: set<Key>)
    ensures InstalledOn(routes + [r], ks) == Routed(InstalledOn(routes, ks), r)
  {
    assert (routes + [r])[..|routes|] == routes;
  }

  /** The routes of one more worker follow those of the workers before it. */
  lemma AllRoutesStep(workers: seq<Worker>, i: nat)
    requires i < |workers|
    ensures AllRoutes(workers[..i + 1]) == AllRoutes(workers[..i]) + workers[i].routes
  {
    assert workers[..i + 1][..i] == workers[..i];
  }
}
