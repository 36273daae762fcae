/** The route table (runtime/router.go): registration keeps the routes sorted, and the
exact-path shortcut, the sorted scan and ownerRoute all choose the one best route. */
module Router {
  import opened Options
  import opened Routes

  /** A registered route; `id` counts registrations and stands for the handler. */
  datatype Route = Route(id: nat, methods: seq<string>, pattern: Pattern)

  /** routeAllowsMethod: GET answers HEAD. */
  predicate Allows(route: Route, verb: string) {
    verb in route.methods || (verb == "HEAD" && "GET" in route.methods)
  }

  // ----- registration -----

  /** Comes before in the table: by compareRoutes, then by registration. */
  predicate Precedes(a: Route, b: Route) {
    Compare(a.pattern, b.pattern) < 0 || (Compare(a.pattern, b.pattern) == 0 && a.id < b.id)
  }

  ghost predicate Sorted(routes: seq<Route>) {
    forall i, j :: 0 <= i < j < |routes| ==> Precedes(routes[i], routes[j])
  }

  /** Registrations so far: well-formed, numbered in order. */
  ghost predicate Registered(routes: seq<Route>) {
    && (forall i :: 0 <= i < |routes| ==> Wf(routes[i].pattern))
    && (forall i, j :: 0 <= i < j < |routes| ==> routes[i].id < routes[j].id)
  }

  /** The place a stable sort gives a route: after all that do not compare greater. */
  function Place(route: Route, routes: seq<Route>): seq<Route> {
    if routes == [] then [route]
    else if Compare(routes[|routes| - 1].pattern, route.pattern) > 0 then Place(route, routes[..|routes| - 1]) + [routes[|routes| - 1]]
    else routes + [route]
  }

  /** slices.SortStableFunc(routes, compareRoutes). */
  function StableSort(routes: seq<Route>): seq<Route> {
    if routes == [] then [] else Place(routes[|routes| - 1], StableSort(routes[..|routes| - 1]))
  }

  lemma {:induction false} PlaceMembers(route: Route, routes: seq<Route>)
    ensures multiset(Place(route, routes)) == multiset(routes) + multiset{route}
  {
    if routes != [] && Compare(routes[|routes| - 1].pattern, route.pattern) > 0 {
      PlaceMembers(route, routes[..|routes| - 1]);
      assert routes == routes[..|routes| - 1] + [routes[|routes| - 1]];
    }
  }

  lemma {:induction false} SortMembers(routes: seq<Route>)
    ensures multiset(StableSort(routes)) == multiset(routes)
  {
    hide Place;
    if routes != [] {
      var init, last := routes[..|routes| - 1], routes[|routes| - 1];
      assert routes == init + [last];
      SortMembers(init);
      PlaceMembers(last, StableSort(init));
    }
  }

  lemma {:induction false} PlaceMember(route: Route, routes: seq<Route>, r: Route)
    ensures r in Place(route, routes) <==> r == route || r in routes
  {
    PlaceMembers(route, routes);
    assert r in Place(route, routes) <==> r in multiset(Place(route, routes));
    assert r in routes <==> r in multiset(routes);
  }

  lemma AppendSorted(routes: seq<Route>, route: Route)
    requires Sorted(routes) && forall r :: r in routes ==> Precedes(r, route)
    ensures Sorted(routes + [route])
  {
  }

  lemma {:induction false} PlaceSorted(route: Route, routes: seq<Route>)
    requires Sorted(routes) && Wf(route.pattern)
    requires forall r :: r in routes ==> Wf(r.pattern) && r.id < route.id
    ensures Sorted(Place(route, routes))
  {
    if routes != [] {
      var init, last := routes[..|routes| - 1], routes[|routes| - 1];
      assert last in routes;
      forall r | r in init
        ensures r in routes && Precedes(r, last)
      {
        var k :| 0 <= k < |init| && init[k] == r;
        assert Precedes(routes[k], routes[|routes| - 1]);
      }
      if Compare(last.pattern, route.pattern) > 0 {
        PlaceSorted(route, init);
        CompareIsTotalPreorder(last.pattern, route.pattern, last.pattern);
        forall r | r in Place(route, init)
          ensures Precedes(r, last)
        {
          PlaceMember(route, init, r);
        }
        AppendSorted(Place(route, init), last);
      } else {
        forall r | r in routes
          ensures Precedes(r, route)
        {
          if r != last {
            assert r in init;
            CompareIsTotalPreorder(r.pattern, last.pattern, route.pattern);
          }
        }
        AppendSorted(routes, route);
      }
    }
  }

  lemma {:induction false} SortOfSorted(routes: seq<Route>)
    requires Sorted(routes) && forall r :: r in routes ==> Wf(r.pattern)
    ensures StableSort(routes) == routes
  {
    if routes != [] {
      var init, last := routes[..|routes| - 1], routes[|routes| - 1];
      SortOfSorted(init);
      if init != [] {
        var end := init[|init| - 1];
        assert end in routes && last in routes && Precedes(routes[|init| - 1], routes[|init|]);
      }
    }
  }

  /** Adding a route and sorting again keeps the table sorted, with the same routes. */
  lemma RegisterSorted(routes: seq<Route>, route: Route)
    requires Sorted(routes) && Wf(route.pattern) && forall r :: r in routes ==> Wf(r.pattern) && r.id < route.id
    ensures Sorted(StableSort(routes + [route]))
    ensures multiset(StableSort(routes + [route])) == multiset(routes) + multiset{route}
  {
    assert (routes + [route])[..|routes|] == routes;
    SortOfSorted(routes);
    PlaceSorted(route, routes);
    PlaceMembers(route, routes);
  }

  // ----- choosing -----

  /** Matches the request, and allows its verb if one is asked for. */
  predicate Candidate(route: Route, request: seq<string>, verb: Option<string>) {
    MatchPattern(route.pattern, request).Some? && (verb.None? || Allows(route, verb.value))
  }

  /** What a route must be for a request: its pattern fits, a path tail has no empty
      segment, and the verb, if one is asked for, is listed; HEAD goes with GET. */
  predicate Suits(route: Route, request: seq<string>, verb: Option<string>) {
    && Fits(route.pattern.segments, request) && !(route.pattern.pathTail && "" in request)
    && (verb.None? || verb.value in route.methods || (verb.value == "HEAD" && "GET" in route.methods))
  }

  lemma CandidatesSuit(request: seq<string>, verb: Option<string>)
    ensures forall route :: Candidate(route, request, verb) <==> Suits(route, request, verb)
  {
    forall route
      ensures Candidate(route, request, verb) <==> Suits(route, request, verb)
    {
      MatchesIffFits(route.pattern.segments, request);
    }
  }

  /** The first route of a list that matches and allows. */
  function Scan(routes: seq<Route>, request: seq<string>, verb: Option<string>): Option<Route> {
    if routes == [] then None
    else if Candidate(routes[0], request, verb) then Some(routes[0])
    else Scan(routes[1..], request, verb)
  }

  function FirstAllowing(routes: seq<Route>, verb: string): Option<Route> {
    if routes == [] then None else if Allows(routes[0], verb) then Some(routes[0]) else FirstAllowing(routes[1..], verb)
  }

  /** The literal routes of one raw path, in registration order. */
  function ExactOf(routes: seq<Route>, path: string): seq<Route> {
    if routes == [] then []
    else
      var last := routes[|routes| - 1];
      var before := ExactOf(routes[..|routes| - 1], path);
      if !last.pattern.hasParam && !last.pattern.hasWildcard && last.pattern.raw == path then before + [last] else before
  }

  /** `a` beats `b` by the declared precedence, then by registration. */
  predicate Beats(a: Route, b: Route) {
    Prefers(a.pattern.segments, b.pattern.segments) || (SameKinds(a.pattern.segments, b.pattern.segments) && a.id < b.id)
  }

  /** The route the declared precedence gives a request. */
  ghost predicate Best(routes: seq<Route>, request: seq<string>, verb: Option<string>, route: Route) {
    && route in routes && Suits(route, request, verb)
    && (forall r :: r in routes && Suits(r, request, verb) ==> r == route || Beats(route, r))
  }

  lemma MatchFits(pattern: Pattern, request: seq<string>)
    requires MatchPattern(pattern, request).Some?
    ensures Fits(pattern.segments, request)
  {
    MatchesIffFits(pattern.segments, request);
  }

  lemma PrecedesBeats(a: Route, b: Route, request: seq<string>)
    requires Wf(a.pattern) && Wf(b.pattern)
    requires MatchPattern(a.pattern, request).Some? && MatchPattern(b.pattern, request).Some?
    ensures Precedes(a, b) <==> Beats(a, b)
  {
    MatchFits(a.pattern, request);
    MatchFits(b.pattern, request);
    CompareIsRanked(a.pattern, b.pattern);
    RankedIsPrecedence(a.pattern.segments, b.pattern.segments, request);
  }

  lemma {:induction false} ScanFirst(routes: seq<Route>, request: seq<string>, verb: Option<string>)
    requires Sorted(routes)
    ensures Scan(routes, request, verb).None? <==> forall r :: r in routes ==> !Candidate(r, request, verb)
    ensures Scan(routes, request, verb).Some? ==>
              var chosen := Scan(routes, request, verb).value;
              chosen in routes && Candidate(chosen, request, verb) && forall r :: r in routes && Candidate(r, request, verb) ==> r == chosen || Precedes(chosen, r)
  {
    if routes != [] {
      var tail := routes[1..];
      assert routes == [routes[0]] + tail;
      ScanFirst(tail, request, verb);
      if Candidate(routes[0], request, verb) {
        forall r | r in tail
          ensures Precedes(routes[0], r)
        {
          var k :| 0 <= k < |tail| && tail[k] == r;
          assert r == routes[k + 1];
        }
      }
    }
  }

  /** The sorted scan finds the best route, when any matches and allows. */
  lemma ScanIsBest(routes: seq<Route>, request: seq<string>, verb: Option<string>)
    requires Sorted(routes) && forall r :: r in routes ==> Wf(r.pattern)
    ensures match Scan(routes, request, verb)
            case None => forall r :: r in routes ==> !Suits(r, request, verb)
            case Some(chosen) => Best(routes, request, verb, chosen)
  {
    ScanFirst(routes, request, verb);
    CandidatesSuit(request, verb);
    if Scan(routes, request, verb).Some? {
      var chosen := Scan(routes, request, verb).value;
      forall r | r in routes && Suits(r, request, verb)
        ensures r == chosen || Beats(chosen, r)
      {
        if r != chosen {
          PrecedesBeats(chosen, r, request);
        }
      }
    }
  }

  /** There is one best route. */
  lemma BestUnique(routes: seq<Route>, request: seq<string>, verb: Option<string>, a: Route, b: Route)
    requires forall r :: r in routes ==> Wf(r.pattern)
    requires Best(routes, request, verb, a) && Best(routes, request, verb, b)
    ensures a == b
  {
    CandidatesSuit(request, verb);
    if a != b {
      PrecedesBeats(a, b, request);
      PrecedesBeats(b, a, request);
      CompareIsTotalPreorder(a.pattern, b.pattern, a.pattern);
    }
  }

  // ----- the exact-path shortcut -----

  predicate IsExact(route: Route, path: string) {
    !route.pattern.hasParam && !route.pattern.hasWildcard && route.pattern.raw == path
  }

  lemma {:induction false} ExactMembers(routes: seq<Route>, path: string, r: Route)
    ensures r in ExactOf(routes, path) <==> r in routes && IsExact(r, path)
  {
    if routes != [] {
      ExactMembers(routes[..|routes| - 1], path, r);
      assert routes == routes[..|routes| - 1] + [routes[|routes| - 1]];
    }
  }

  ghost predicate Rising(routes: seq<Route>) {
    forall i, j :: 0 <= i < j < |routes| ==> routes[i].id < routes[j].id
  }

  lemma {:induction false} ExactRising(routes: seq<Route>, path: string)
    requires Rising(routes)
    ensures Rising(ExactOf(routes, path))
  {
    if routes != [] {
      var init, last := routes[..|routes| - 1], routes[|routes| - 1];
      ExactRising(init, path);
      forall r | r in ExactOf(init, path)
        ensures r.id < last.id
      {
        ExactMembers(init, path, r);
        var k :| 0 <= k < |init| && init[k] == r;
        assert routes[k].id < routes[|routes| - 1].id;
      }
    }
  }

  lemma {:induction false} FirstAllowingFirst(routes: seq<Route>, verb: string)
    requires Rising(routes)
    ensures FirstAllowing(routes, verb).None? <==> forall r :: r in routes ==> !Allows(r, verb)
    ensures FirstAllowing(routes, verb).Some? ==>
              var chosen := FirstAllowing(routes, verb).value;
              chosen in routes && Allows(chosen, verb) && forall r :: r in routes && Allows(r, verb) ==> r == chosen || chosen.id < r.id
  {
    if routes != [] {
      var tail := routes[1..];
      assert routes == [routes[0]] + tail;
      assert forall k :: 0 <= k < |tail| ==> tail[k] == routes[k + 1];
      FirstAllowingFirst(tail, verb);
    }
  }

  /** The literal segments a pattern starts with. */
  function LiteralRun(segments: seq<Segment>): (n: nat)
    ensures n <= |segments|
    ensures forall i :: 0 <= i < n ==> segments[i].kind == Literal
    ensures n < |segments| ==> segments[n].kind != Literal
  {
    if segments == [] || segments[0].kind != Literal then 0 else 1 + LiteralRun(segments[1..])
  }

  predicate AllLiteral(segments: seq<Segment>) {
    forall i :: 0 <= i < |segments| ==> segments[i].kind == Literal
  }

  lemma ExactIsLiteral(pattern: Pattern)
    requires Wf(pattern)
    ensures AllLiteral(pattern.segments) <==> !pattern.hasParam && !pattern.hasWildcard
  {
    if !pattern.hasParam && !pattern.hasWildcard {
      forall i | 0 <= i < |pattern.segments|
        ensures pattern.segments[i].kind == Literal
      {
        assert !Has(pattern.segments, Param) && !Has(pattern.segments, Wildcard);
      }
    }
  }

  lemma LiteralFits(pattern: Pattern, request: seq<string>)
    requires Wf(pattern) && AllLiteral(pattern.segments)
    ensures Fits(pattern.segments, request) <==> SplitPath(pattern.raw) == request
  {
    var texts := SplitPath(pattern.raw);
    assert Fixed(pattern.segments) == |pattern.segments| == |texts|;
    assert forall i :: 0 <= i < |texts| ==> pattern.segments[i].value == texts[i];
    if Fits(pattern.segments, request) {
      forall i | 0 <= i < |texts|
        ensures texts[i] == request[i]
      {
        assert Takes(pattern.segments[i], request[i]);
      }
    }
  }

  /** A literal route that matches comes before every route that is not literal. */
  lemma LiteralPreferred(a: seq<Segment>, b: seq<Segment>, request: seq<string>)
    requires Fits(a, request) && Fits(b, request) && AllLiteral(a) && !AllLiteral(b)
    ensures Prefers(a, b)
  {
    var i := LiteralRun(b);
    assert i < |b|;
    assert Fixed(a) == |a| == |request|;
    assert i <= Fixed(b);
    assert PrefersAt(a, b, i);
  }

  /** The exact-path shortcut finds the best route, when it finds one. */
  lemma ExactIsBest(history: seq<Route>, path: string, verb: string)
    requires Registered(history) && FirstAllowing(ExactOf(history, path), verb).Some?
    ensures Best(history, SplitPath(path), Some(verb), FirstAllowing(ExactOf(history, path), verb).value)
    ensures MatchPattern(FirstAllowing(ExactOf(history, path), verb).value.pattern, SplitPath(path)) == Some([])
  {
    var request, list := SplitPath(path), ExactOf(history, path);
    var chosen := FirstAllowing(list, verb).value;
    ExactRising(history, path);
    FirstAllowingFirst(list, verb);
    ExactMembers(history, path, chosen);
    ExactMatches(chosen.pattern);
    CandidatesSuit(request, Some(verb));
    forall r | r in history && Suits(r, request, Some(verb))
      ensures r == chosen || Beats(chosen, r)
    {
      ExactBeats(history, path, verb, chosen, r);
    }
  }

  lemma ExactMatches(pattern: Pattern)
    requires Wf(pattern) && !pattern.hasParam && !pattern.hasWildcard
    ensures MatchPattern(pattern, SplitPath(pattern.raw)) == Some([])
  {
    ExactIsLiteral(pattern);
    LiteralFits(pattern, SplitPath(pattern.raw));
    MatchesIffFits(pattern.segments, SplitPath(pattern.raw));
    LiteralCaptures(pattern.segments, SplitPath(pattern.raw));
  }

  lemma {:induction false} LiteralCaptures(segments: seq<Segment>, request: seq<string>)
    requires AllLiteral(segments) && MatchFrom(segments, request).Some?
    ensures MatchFrom(segments, request) == Some([])
  {
    if segments != [] {
      LiteralCaptures(segments[1..], request[1..]);
    }
  }

  lemma ExactBeats(history: seq<Route>, path: string, verb: string, chosen: Route, r: Route)
    requires Registered(history) && chosen in history && IsExact(chosen, path)
    requires forall q :: q in ExactOf(history, path) && Allows(q, verb) ==> q == chosen || chosen.id < q.id
    requires r in history && Candidate(r, SplitPath(path), Some(verb))
    ensures r == chosen || Beats(chosen, r)
  {
    ExactIsLiteral(chosen.pattern);
    ExactIsLiteral(r.pattern);
    LiteralFits(chosen.pattern, SplitPath(path));
    MatchFits(r.pattern, SplitPath(path));
    if AllLiteral(r.pattern.segments) {
      LiteralFits(r.pattern, SplitPath(path));
      SplitPathInjective(r.pattern.raw, path);
      ExactMembers(history, path, r);
    } else {
      LiteralPreferred(chosen.pattern.segments, r.pattern.segments, SplitPath(path));
    }
  }
}
