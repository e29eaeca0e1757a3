/** Which module-level helpers become async: those from which calls lead to a request helper. */
module AsyncClosure {
  /** A module-level helper and the names it calls. */
  datatype Helper = Helper(name: string, calls: set<string>)

  predicate CallsName(helpers: seq<Helper>, caller: string, callee: string) {
    exists h :: h in helpers && h.name == caller && callee in h.calls
  }

  /** A chain of calls, helper by helper, that ends at a request helper. */
  predicate IsCallPath(helpers: seq<Helper>, requestHelpers: set<string>, name: string, path: seq<string>) {
    && path != [] && path[0] == name && path[|path| - 1] in requestHelpers
    && forall i :: 0 <= i < |path| - 1 ==> CallsName(helpers, path[i], path[i + 1])
  }

  ghost predicate ReachesARequest(helpers: seq<Helper>, requestHelpers: set<string>, name: string) {
    exists path :: IsCallPath(helpers, requestHelpers, name, path)
  }

  predicate Closed(helpers: seq<Helper>, names: set<string>) {
    forall h :: h in helpers && h.calls * names != {} ==> h.name in names
  }

  function Names(helpers: seq<Helper>): set<string> {
    set h | h in helpers :: h.name
  }

  lemma {:induction false} NamesAreFew(helpers: seq<Helper>)
    ensures |Names(helpers)| <= |helpers|
  {
    if helpers != [] {
      NamesAreFew(helpers[1..]);
      assert Names(helpers) == {helpers[0].name} + Names(helpers[1..]);
    }
  }

  lemma CallersReach(helpers: seq<Helper>, requestHelpers: set<string>, caller: string, callee: string)
    requires ReachesARequest(helpers, requestHelpers, callee) && CallsName(helpers, caller, callee)
    ensures ReachesARequest(helpers, requestHelpers, caller)
  {
    var path :| IsCallPath(helpers, requestHelpers, callee, path);
    assert IsCallPath(helpers, requestHelpers, caller, [caller] + path);
  }

  /** Every set that holds the request helpers and is closed under calling holds every call path. */
  lemma {:induction false} ClosedSetsHoldPaths(helpers: seq<Helper>, requestHelpers: set<string>, name: string,
                                               path: seq<string>, names: set<string>)
    requires IsCallPath(helpers, requestHelpers, name, path)
    requires requestHelpers <= names && Closed(helpers, names)
    ensures name in names
    decreases |path|
  {
    if |path| > 1 {
      ClosedSetsHoldPaths(helpers, requestHelpers, path[1], path[1..], names);
      assert CallsName(helpers, path[0], path[1]);
      var h :| h in helpers && h.name == path[0] && path[1] in h.calls;
      assert path[1] in h.calls * names;
    }
  }

  /** The names with a call path are the least closed set around the request helpers. */
  lemma ReachingIsLeast(helpers: seq<Helper>, requestHelpers: set<string>, names: set<string>, asyncHelpers: set<string>)
    requires forall name :: name in asyncHelpers <==> ReachesARequest(helpers, requestHelpers, name)
    requires requestHelpers <= names && Closed(helpers, names)
    ensures asyncHelpers <= names
  {
    ClosedHoldsReaching(helpers, requestHelpers, names);
  }

  lemma OneFewer(all: set<string>, names: set<string>, name: string)
    requires name in all && name !in names
    ensures |all - (names + {name})| == |all - names| - 1
  {
    assert all - (names + {name}) == (all - names) - {name};
  }

  lemma RestIsSmall(helpers: seq<Helper>, names: set<string>)
    ensures |Names(helpers) - names| <= |helpers|
  {
    NamesAreFew(helpers);
    var all := Names(helpers);
    assert all == (all - names) + (all * names);
  }

  ghost predicate AllReach(helpers: seq<Helper>, requestHelpers: set<string>, names: set<string>) {
    forall name :: name in names ==> ReachesARequest(helpers, requestHelpers, name)
  }

  lemma CallerJoins(helpers: seq<Helper>, requestHelpers: set<string>, names: set<string>, fn: Helper)
    requires AllReach(helpers, requestHelpers, names)
    requires fn in helpers && fn.calls * names != {}
    ensures AllReach(helpers, requestHelpers, names + {fn.name})
  {
    var callee :| callee in fn.calls * names;
    assert CallsName(helpers, fn.name, callee);
    CallersReach(helpers, requestHelpers, fn.name, callee);
  }

  lemma RequestsReach(helpers: seq<Helper>, requestHelpers: set<string>)
    ensures AllReach(helpers, requestHelpers, requestHelpers)
  {
    forall name | name in requestHelpers ensures ReachesARequest(helpers, requestHelpers, name) {
      assert IsCallPath(helpers, requestHelpers, name, [name]);
    }
  }

  lemma ClosedHoldsReaching(helpers: seq<Helper>, requestHelpers: set<string>, names: set<string>)
    requires requestHelpers <= names && Closed(helpers, names)
    ensures forall name :: ReachesARequest(helpers, requestHelpers, name) ==> name in names
  {
    forall name | ReachesARequest(helpers, requestHelpers, name) ensures name in names {
      var path :| IsCallPath(helpers, requestHelpers, name, path);
      ClosedSetsHoldPaths(helpers, requestHelpers, name, path, names);
    }
  }

  function Left(helpers: seq<Helper>, names: set<string>): nat {
    |Names(helpers) - names|
  }

  predicate Answered(h: Helper, names: set<string>) {
    h.name in names || h.calls * names == {}
  }

  /** One round over the helpers: each joins if it calls a name that has joined. */
  method Round(helpers: seq<Helper>, requestHelpers: set<string>, before: set<string>)
    returns (names: set<string>, grown: bool)
    requires AllReach(helpers, requestHelpers, before)
    ensures before <= names && AllReach(helpers, requestHelpers, names)
    ensures grown ==> Left(helpers, names) < Left(helpers, before)
    ensures !grown ==> names == before && Closed(helpers, names)
  {
    names, grown := before, false;
    for i := 0 to |helpers|
      invariant before <= names && AllReach(helpers, requestHelpers, names)
      invariant if grown then Left(helpers, names) < Left(helpers, before) else names == before
      invariant !grown ==> forall j :: 0 <= j < i ==> Answered(helpers[j], names)
    {
      var fn := helpers[i];
      if fn.name in names { continue; }
      if fn.calls * names != {} {
        CallerJoins(helpers, requestHelpers, names, fn);
        OneFewer(Names(helpers), names, fn.name);
        names, grown := names + {fn.name}, true;
      }
    }
    if !grown {
      forall h | h in helpers ensures Answered(h, names) {
        var j :| 0 <= j < |helpers| && helpers[j] == h;
      }
    }
  }

  /** The loop ends with exactly the names that have a call path to a request helper, within one round
      per other helper and one more to see that nothing grows. */
  method Spread(helpers: seq<Helper>, requestHelpers: set<string>) returns (asyncHelpers: set<string>, rounds: nat)
    ensures forall name :: name in asyncHelpers <==> ReachesARequest(helpers, requestHelpers, name)
    ensures rounds <= |Names(helpers) - requestHelpers| + 1 <= |helpers| + 1
  {
    asyncHelpers, rounds := requestHelpers, 0;
    var grown := true;
    RequestsReach(helpers, requestHelpers);
    while grown
      invariant requestHelpers <= asyncHelpers && AllReach(helpers, requestHelpers, asyncHelpers)
      invariant !grown ==> Closed(helpers, asyncHelpers)
      invariant rounds + Left(helpers, asyncHelpers) <= Left(helpers, requestHelpers) + (if grown then 0 else 1)
      decreases Left(helpers, asyncHelpers), grown
    {
      asyncHelpers, grown := Round(helpers, requestHelpers, asyncHelpers);
      rounds := rounds + 1;
    }
    ClosedHoldsReaching(helpers, requestHelpers, asyncHelpers);
    RestIsSmall(helpers, requestHelpers);
  }
}
