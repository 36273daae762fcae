/** The route table object (runtime/router.go): handle, ServeHTTP and ownerRoute over
its sorted routes and its exact-path index. */
module RouteTables {
  import opened Options
  import opened Routes
  import opened Router

  datatype Outcome = Dispatch(route: Route, captures: seq<Capture>) | GlobalOptions | NotAllowed | NotFound

  datatype Found = Found(route: Route, captures: seq<Capture>)

  predicate MatchedBy(routes: seq<Route>, request: seq<string>) {
    exists r :: r in routes && Suits(r, request, None)
  }

  predicate AllowedBy(routes: seq<Route>, request: seq<string>, verb: string) {
    exists r :: r in routes && Suits(r, request, Some(verb))
  }

  /** What ServeHTTP must do with a request, given the registrations. */
  ghost predicate Served(history: seq<Route>, global: bool, path: string, verb: string, outcome: Outcome) {
    var request := SplitPath(path);
    if !MatchedBy(history, request) then outcome == NotFound
    else if global && verb == "OPTIONS" then outcome == GlobalOptions
    else if !AllowedBy(history, request, verb) then outcome == NotAllowed
    else
      && outcome.Dispatch? && Best(history, request, Some(verb), outcome.route)
      && MatchPattern(outcome.route.pattern, request) == Some(outcome.captures)
  }

  /** What ownerRoute must answer: the best route that allows the verb, else the best
      that matches. */
  ghost predicate Owned(history: seq<Route>, path: string, verb: string, owner: Option<Route>) {
    var request := SplitPath(path);
    if !MatchedBy(history, request) then owner.None?
    else owner.Some? && Best(history, request, if AllowedBy(history, request, verb) then Some(verb) else None, owner.value)
  }

  /** What suits a request with a verb suits it without. */
  lemma SuitsAnyVerb(request: seq<string>, verb: string)
    ensures forall route :: Suits(route, request, Some(verb)) ==> Suits(route, request, None)
  {
  }

  /** The route ServeHTTP dispatches to is the owner; there is one such outcome. */
  lemma ServedIsOwned(history: seq<Route>, global: bool, path: string, verb: string, outcome: Outcome, owner: Option<Route>)
    requires Registered(history) && Served(history, global, path, verb, outcome) && Owned(history, path, verb, owner)
    ensures outcome.Dispatch? ==> owner == Some(outcome.route)
    ensures outcome.NotFound? <==> owner.None?
  {
    if outcome.Dispatch? {
      BestUnique(history, SplitPath(path), Some(verb), outcome.route, owner.value);
    }
  }

  /** A request has one answer. */
  lemma ServedOnce(history: seq<Route>, global: bool, path: string, verb: string, a: Outcome, b: Outcome)
    requires Registered(history) && Served(history, global, path, verb, a) && Served(history, global, path, verb, b)
    ensures a == b
  {
    if a.Dispatch? {
      BestUnique(history, SplitPath(path), Some(verb), a.route, b.route);
    }
  }

  /** matchingRoutes, as a list. */
  function Matching(routes: seq<Route>, request: seq<string>): seq<Found> {
    if routes == [] then []
    else
      var before, last := Matching(routes[..|routes| - 1], request), routes[|routes| - 1];
      match MatchPattern(last.pattern, request)
      case None => before
      case Some(captures) => before + [Found(last, captures)]
  }

  function FirstOf(found: seq<Found>, verb: Option<string>): Option<Found> {
    if found == [] then None
    else if verb.None? || Allows(found[0].route, verb.value) then Some(found[0])
    else FirstOf(found[1..], verb)
  }

  lemma {:induction false} MatchingCons(routes: seq<Route>, request: seq<string>)
    requires routes != []
    ensures Matching(routes, request) ==
            (match MatchPattern(routes[0].pattern, request) case None => [] case Some(captures) => [Found(routes[0], captures)]) +
            Matching(routes[1..], request)
  {
    var last := |routes| - 1;
    if last > 0 {
      MatchingCons(routes[..last], request);
      assert routes[..last][1..] == routes[1..][..last - 1];
    } else {
      assert routes[..0] == [] && routes[1..] == [];
    }
  }

  /** The first match that allows a verb is what the scan chooses. */
  lemma {:induction false} FirstOfIsScan(routes: seq<Route>, request: seq<string>, verb: Option<string>)
    ensures FirstOf(Matching(routes, request), verb).None? <==> Scan(routes, request, verb).None?
    ensures FirstOf(Matching(routes, request), verb).Some? ==>
              var found := FirstOf(Matching(routes, request), verb).value;
              Scan(routes, request, verb) == Some(found.route) && MatchPattern(found.route.pattern, request) == Some(found.captures)
  {
    if routes != [] {
      MatchingCons(routes, request);
      FirstOfIsScan(routes[1..], request, verb);
      var found := Matching(routes, request);
      if MatchPattern(routes[0].pattern, request).Some? {
        assert found[1..] == Matching(routes[1..], request);
      } else {
        assert found == Matching(routes[1..], request);
      }
    }
  }

  lemma SameRoutes(routes: seq<Route>, history: seq<Route>, request: seq<string>, verb: Option<string>)
    requires Sorted(routes) && multiset(routes) == multiset(history) && Registered(history)
    ensures match Scan(routes, request, verb)
            case None => forall r :: r in history ==> !Suits(r, request, verb)
            case Some(chosen) => Best(history, request, verb, chosen)
  {
    assert forall r :: r in routes <==> r in multiset(routes);
    assert forall r :: r in history <==> r in multiset(history);
    ScanIsBest(routes, request, verb);
  }

  // ----- the table -----

  function Indexed(exact: map<string, seq<Route>>, path: string): seq<Route> {
    if path in exact then exact[path] else []
  }

  function Index(exact: map<string, seq<Route>>, item: Route): map<string, seq<Route>> {
    if item.pattern.hasParam || item.pattern.hasWildcard then exact
    else exact[item.pattern.raw := Indexed(exact, item.pattern.raw) + [item]]
  }

  /** Registered routes carry their registration's number. */
  ghost predicate Numbered(history: seq<Route>) {
    forall i :: 0 <= i < |history| ==> history[i].id == i
  }

  /** Every registered path is rooted, and a wildcard only ends it. */
  ghost predicate AllWf(history: seq<Route>) {
    forall i :: 0 <= i < |history| ==> Wf(history[i].pattern)
  }

  ghost predicate IndexOf(exact: map<string, seq<Route>>, history: seq<Route>) {
    forall path :: Indexed(exact, path) == ExactOf(history, path)
  }

  ghost predicate TableOf(routes: seq<Route>, history: seq<Route>) {
    multiset(routes) == multiset(history) && (AllWf(history) ==> Sorted(routes))
  }

  lemma NumberedRegistered(history: seq<Route>)
    requires Numbered(history) && AllWf(history)
    ensures Registered(history)
  {
  }

  lemma NumberedKept(history: seq<Route>, item: Route)
    requires Numbered(history) && item.id == |history|
    ensures Numbered(history + [item])
  {
  }

  lemma IndexKept(exact: map<string, seq<Route>>, history: seq<Route>, item: Route)
    requires IndexOf(exact, history)
    ensures IndexOf(Index(exact, item), history + [item])
  {
    assert (history + [item])[..|history|] == history;
  }

  lemma TableKept(routes: seq<Route>, history: seq<Route>, item: Route)
    requires TableOf(routes, history) && Numbered(history) && Numbered(history + [item])
    ensures TableOf(StableSort(routes + [item]), history + [item])
  {
    var grown := history + [item];
    assert grown[|history|] == item;
    SortMembers(routes + [item]);
    if AllWf(grown) {
      assert forall i :: 0 <= i < |history| ==> history[i] == grown[i];
      forall r | r in routes
        ensures Wf(r.pattern) && r.id < item.id
      {
        assert r in multiset(history);
        var k :| 0 <= k < |history| && history[k] == r;
      }
      RegisterSorted(routes, item);
    }
  }

  class RouteTable {
    var routes: seq<Route>
    var exact: map<string, seq<Route>>
    var count: nat
    var globalOptions: bool
    /** Every registration, in order. */
    ghost var history: seq<Route>

    ghost predicate Valid()
      reads this
    {
      count == |history| && Numbered(history) && TableOf(routes, history) && IndexOf(exact, history)
    }

    constructor (globalOptions: bool)
      ensures Valid() && history == [] && this.globalOptions == globalOptions
    {
      routes, exact, count, history := [], map[], 0, [];
      this.globalOptions := globalOptions;
    }

    /** handle: append the route, index a literal one by its raw path, sort again. */
    method Handle(methods: seq<string>, path: string, pathTail: bool)
      requires Valid()
      modifies this
      ensures Valid() && globalOptions == old(globalOptions)
      ensures history == old(history) + [Route(|old(history)|, methods, ParsePattern(path, pathTail))]
    {
      hide Wf, ParsePattern, Numbered, TableOf, IndexOf, StableSort;
      var pattern := BuildPattern(path, pathTail);
      var item := Route(count, methods, pattern);
      ghost var grown := history + [item];
      NumberedKept(history, item);
      IndexKept(exact, history, item);
      TableKept(routes, history, item);
      routes := routes + [item];
      if !pattern.hasParam && !pattern.hasWildcard {
        exact := exact[pattern.raw := Indexed(exact, pattern.raw) + [item]];
      }
      routes := StableSort(routes);
      count := count + 1;
      history := grown;
    }

    /** The first route an exact path gives that allows the verb. */
    method Shortcut(path: string, verb: string) returns (chosen: Option<Route>)
      ensures chosen == FirstAllowing(Indexed(exact, path), verb)
    {
      var list := Indexed(exact, path);
      assert list[0..] == list;
      for i := 0 to |list|
        invariant FirstAllowing(list, verb) == FirstAllowing(list[i..], verb)
      {
        if Allows(list[i], verb) {
          return Some(list[i]);
        }
        assert list[i..][1..] == list[i + 1..];
      }
      return None;
    }

    method MatchingRoutes(path: string) returns (found: seq<Found>)
      ensures found == Matching(routes, SplitPath(path))
    {
      var request := SplitPath(path);
      found := [];
      for i := 0 to |routes|
        invariant found == Matching(routes[..i], request)
      {
        var captures := MatchSegments(routes[i].pattern, request);
        assert routes[..i + 1][..i] == routes[..i];
        if captures.Some? {
          found := found + [Found(routes[i], captures.value)];
        }
      }
      assert routes[..|routes|] == routes;
    }

    method FirstAllowed(found: seq<Found>, verb: string) returns (first: Option<Found>)
      ensures first == FirstOf(found, Some(verb))
    {
      assert found[0..] == found;
      for i := 0 to |found|
        invariant FirstOf(found, Some(verb)) == FirstOf(found[i..], Some(verb))
      {
        if Allows(found[i].route, verb) {
          return Some(found[i]);
        }
        assert found[i..][1..] == found[i + 1..];
      }
      return None;
    }

    /** What the scan and the exact-path index choose, where all paths are well-formed. */
    lemma Choices(path: string, verb: string)
      requires Valid() && AllWf(history)
      ensures Registered(history)
      ensures FirstAllowing(Indexed(exact, path), verb).Some? ==>
                var chosen := FirstAllowing(Indexed(exact, path), verb).value;
                && Best(history, SplitPath(path), Some(verb), chosen) && Suits(chosen, SplitPath(path), None)
                && MatchPattern(chosen.pattern, SplitPath(path)) == Some([])
      ensures var found := FirstOf(Matching(routes, SplitPath(path)), None);
              if found.None? then forall r :: r in history ==> !Suits(r, SplitPath(path), None)
              else Best(history, SplitPath(path), None, found.value.route)
      ensures var found := FirstOf(Matching(routes, SplitPath(path)), Some(verb));
              if found.None? then forall r :: r in history ==> !Suits(r, SplitPath(path), Some(verb))
              else Best(history, SplitPath(path), Some(verb), found.value.route) && Suits(found.value.route, SplitPath(path), None) &&
                   MatchPattern(found.value.route.pattern, SplitPath(path)) == Some(found.value.captures)
    {
      hide Suits, SplitPath, MatchPattern, Matching, Scan;
      var request := SplitPath(path);
      NumberedRegistered(history);
      SuitsAnyVerb(request, verb);
      if FirstAllowing(Indexed(exact, path), verb).Some? {
        assert Indexed(exact, path) == ExactOf(history, path);
        ExactIsBest(history, path, verb);
      }
      FirstOfIsScan(routes, request, None);
      SameRoutes(routes, history, request, None);
      FirstOfIsScan(routes, request, Some(verb));
      SameRoutes(routes, history, request, Some(verb));
    }

    /** ServeHTTP: the exact-path shortcut, then the sorted scan. */
    method Serve(path: string, verb: string) returns (outcome: Outcome)
      requires Valid()
      ensures AllWf(history) ==> Served(history, globalOptions, path, verb, outcome)
    {
      hide Suits, SplitPath, MatchPattern, Matching;
      if AllWf(history) {
        Choices(path, verb);
      }
      if verb != "OPTIONS" {
        var chosen := Shortcut(path, verb);
        if chosen.Some? {
          return Dispatch(chosen.value, []);
        }
      }
      var found := MatchingRoutes(path);
      if |found| == 0 {
        return NotFound;
      }
      assert FirstOf(found, None).Some?;
      if verb == "OPTIONS" && globalOptions {
        return GlobalOptions;
      }
      var first := FirstAllowed(found, verb);
      if first.Some? {
        return Dispatch(first.value.route, first.value.captures);
      }
      return NotAllowed;
    }

    /** ownerRoute. */
    method OwnerRoute(path: string, verb: string) returns (owner: Option<Route>)
      requires Valid()
      ensures AllWf(history) ==> Owned(history, path, verb, owner)
    {
      hide Suits, SplitPath, MatchPattern, Matching;
      if AllWf(history) {
        Choices(path, verb);
      }
      var chosen := Shortcut(path, verb);
      if chosen.Some? {
        return chosen;
      }
      var found := MatchingRoutes(path);
      var first := FirstAllowed(found, verb);
      if first.Some? {
        return Some(first.value.route);
      }
      if |found| > 0 {
        assert FirstOf(found, None) == Some(found[0]);
        return Some(found[0].route);
      }
      return None;
    }
  }
}
