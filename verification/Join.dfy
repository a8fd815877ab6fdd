/** `join` of `map_ui_endpoints.py`: routes and calls marked in place by a double loop. */
module Join {
  import opened UrlShape

  class Call {
    const method_: string
    const url: string
    var norm: string
    var matched: bool

    constructor (m: string, u: string)
      ensures method_ == m && url == u
    {
      method_, url, norm, matched := m, u, [], false;
    }
  }

  class Route {
    const method_: string
    const path: string
    var norm: string
    var callers: seq<Call>
    var documentedExternal: bool

    constructor (m: string, p: string)
      ensures method_ == m && path == p
    {
      method_, path, norm, callers, documentedExternal := m, p, [], [], false;
    }
  }

  /** How urls are compared. The join works for any comparison; `URLS` is the script's. */
  datatype Comparison = Comparison(norm: string -> string, fits: (string, string) -> bool)

  const URLS := Comparison(Norm, Match)

  /** The call hits the route. */
  predicate Hits(cmp: Comparison, r: Route, c: Call) {
    c.method_ == r.method_ && cmp.fits(cmp.norm(r.path), cmp.norm(c.url))
  }

  /** The calls that hit `r`, in call order. */
  function Callers(cmp: Comparison, r: Route, calls: seq<Call>): seq<Call> {
    if calls == [] then [] else
    var front, last := calls[..|calls| - 1], calls[|calls| - 1];
    Callers(cmp, r, front) + (if Hits(cmp, r, last) then [last] else [])
  }

  lemma {:induction false} CallersComplete(cmp: Comparison, r: Route, calls: seq<Call>, c: Call)
    ensures c in Callers(cmp, r, calls) <==> c in calls && Hits(cmp, r, c)
  {
    if calls != [] {
      CallersComplete(cmp, r, calls[..|calls| - 1], c);
      assert calls == calls[..|calls| - 1] + [calls[|calls| - 1]];
    }
  }

  lemma {:induction false} CallersInOrder(cmp: Comparison, r: Route, a: seq<Call>, b: seq<Call>)
    ensures Callers(cmp, r, a + b) == Callers(cmp, r, a) + Callers(cmp, r, b)
  {
    if b == [] {
      assert a + b == a;
    } else {
      assert (a + b)[..|a + b| - 1] == a + b[..|b| - 1];
      CallersInOrder(cmp, r, a, b[..|b| - 1]);
    }
  }

  /** Routes that no call hits, in route order. */
  function Uncalled(cmp: Comparison, routes: seq<Route>, calls: seq<Call>): seq<Route> {
    if routes == [] then [] else
    var front, last := routes[..|routes| - 1], routes[|routes| - 1];
    Uncalled(cmp, front, calls) + (if Callers(cmp, last, calls) == [] then [last] else [])
  }

  predicate HitsAny(cmp: Comparison, routes: seq<Route>, c: Call) {
    exists r :: r in routes && Hits(cmp, r, c)
  }

  /** Calls that hit no route, in call order. */
  function Unmatched(cmp: Comparison, routes: seq<Route>, calls: seq<Call>): seq<Call> {
    if calls == [] then [] else
    var front, last := calls[..|calls| - 1], calls[|calls| - 1];
    Unmatched(cmp, routes, front) + (if HitsAny(cmp, routes, last) then [] else [last])
  }

  /** A route is reported uncalled exactly when no call hits it. */
  lemma {:induction false} UncalledComplete(cmp: Comparison, routes: seq<Route>, calls: seq<Call>, r: Route)
    ensures r in Uncalled(cmp, routes, calls) <==> r in routes && forall c :: c in calls ==> !Hits(cmp, r, c)
  {
    forall c {
      CallersComplete(cmp, r, calls, c);
    }
    assert Callers(cmp, r, calls) == [] <==> forall c :: c in calls ==> !Hits(cmp, r, c) by {
      if Callers(cmp, r, calls) != [] {
        assert Callers(cmp, r, calls)[0] in Callers(cmp, r, calls);
      }
    }
    if routes != [] {
      UncalledComplete(cmp, routes[..|routes| - 1], calls, r);
      assert routes == routes[..|routes| - 1] + [routes[|routes| - 1]];
    }
  }

  /** A call is reported unmatched exactly when it hits no route. */
  lemma {:induction false} UnmatchedComplete(cmp: Comparison, routes: seq<Route>, calls: seq<Call>, c: Call)
    ensures c in Unmatched(cmp, routes, calls) <==> c in calls && !HitsAny(cmp, routes, c)
  {
    if calls != [] {
      UnmatchedComplete(cmp, routes, calls[..|calls| - 1], c);
      assert calls == calls[..|calls| - 1] + [calls[|calls| - 1]];
    }
  }

  /** The routes normalised and without callers, the calls normalised and unmarked. */
  ghost predicate Ready(cmp: Comparison, routes: seq<Route>, calls: seq<Call>)
    reads routes, calls
  {
    && (forall r :: r in routes ==> r.norm == cmp.norm(r.path))
    && (forall c :: c in calls ==> c.norm == cmp.norm(c.url))
  }

  method Prepare(cmp: Comparison, routes: seq<Route>, calls: seq<Call>)
    modifies routes, calls
    ensures Ready(cmp, routes, calls)
    ensures forall r :: r in routes ==> r.callers == []
    ensures forall c :: c in calls ==> !c.matched
  {
    for i := 0 to |routes|
      invariant forall k :: 0 <= k < i ==> routes[k].norm == cmp.norm(routes[k].path) && routes[k].callers == []
    {
      routes[i].norm, routes[i].callers := cmp.norm(routes[i].path), [];
    }
    for i := 0 to |calls|
      invariant forall r :: r in routes ==> r.norm == cmp.norm(r.path) && r.callers == []
      invariant forall k :: 0 <= k < i ==> calls[k].norm == cmp.norm(calls[k].url) && !calls[k].matched
    {
      calls[i].norm, calls[i].matched := cmp.norm(calls[i].url), false;
    }
  }

  lemma OneMoreRoute(cmp: Comparison, routes: seq<Route>, i: nat, c: Call)
    requires i < |routes|
    ensures HitsAny(cmp, routes[..i + 1], c) <==> HitsAny(cmp, routes[..i], c) || Hits(cmp, routes[i], c)
  {
    assert routes[..i + 1] == routes[..i] + [routes[i]];
  }

  /** The inner loop: the calls that hit one route. */
  method Collect(cmp: Comparison, ghost routes: seq<Route>, ghost i: nat, r: Route, calls: seq<Call>)
    requires i < |routes| && r == routes[i] && Ready(cmp, routes, calls) && r.callers == []
    requires forall c :: c in calls ==> (c.matched <==> HitsAny(cmp, routes[..i], c))
    modifies r`callers, calls`matched
    ensures Ready(cmp, routes, calls)
    ensures r.callers == Callers(cmp, r, calls)
    ensures forall c :: c in calls ==> (c.matched <==> HitsAny(cmp, routes[..i + 1], c))
  {
    hide HitsAny;
    forall c {
      OneMoreRoute(cmp, routes, i, c);
    }
    for k := 0 to |calls|
      invariant Ready(cmp, routes, calls) && r.callers == Callers(cmp, r, calls[..k])
      invariant forall c :: c in calls ==>
        (c.matched <==> HitsAny(cmp, routes[..i], c) || (c in calls[..k] && Hits(cmp, r, c)))
    {
      var c := calls[k];
      assert calls[..k + 1][..k] == calls[..k] && calls[..k + 1] == calls[..k] + [c];
      if c.method_ == r.method_ && cmp.fits(r.norm, c.norm) {
        r.callers := r.callers + [c];
        c.matched := true;
      }
    }
    assert calls[..|calls|] == calls;
  }

  /** `docs` are the normalised paths that the documentation mentions. */
  method JoinAll(cmp: Comparison, routes: seq<Route>, calls: seq<Call>, docs: set<string>)
    returns (uncalled: seq<Route>, unmatched: seq<Call>)
    requires forall i, j :: 0 <= i < j < |routes| ==> routes[i] != routes[j]
    modifies routes, calls
    ensures forall r :: r in routes ==> r.callers == Callers(cmp, r, calls)
    ensures forall c :: c in calls ==> (c.matched <==> HitsAny(cmp, routes, c))
    ensures uncalled == Uncalled(cmp, routes, calls) && unmatched == Unmatched(cmp, routes, calls)
    ensures forall r :: r in uncalled ==> (r.documentedExternal <==> exists d :: d in docs && cmp.fits(cmp.norm(r.path), d))
  {
    Prepare(cmp, routes, calls);
    for i := 0 to |routes|
      invariant Ready(cmp, routes, calls)
      invariant forall k :: 0 <= k < i ==> routes[k].callers == Callers(cmp, routes[k], calls)
      invariant forall k :: i <= k < |routes| ==> routes[k].callers == []
      invariant forall c :: c in calls ==> (c.matched <==> HitsAny(cmp, routes[..i], c))
    {
      Collect(cmp, routes, i, routes[i], calls);
    }
    assert routes[..|routes|] == routes;
    unmatched := PickUnmatched(cmp, routes, calls);
    uncalled := MarkUncalled(cmp, routes, calls, docs);
  }

  method PickUnmatched(cmp: Comparison, routes: seq<Route>, calls: seq<Call>) returns (unmatched: seq<Call>)
    requires forall c :: c in calls ==> (c.matched <==> HitsAny(cmp, routes, c))
    ensures unmatched == Unmatched(cmp, routes, calls)
  {
    unmatched := [];
    for k := 0 to |calls|
      invariant unmatched == Unmatched(cmp, routes, calls[..k])
    {
      assert calls[..k + 1][..k] == calls[..k];
      if !calls[k].matched {
        unmatched := unmatched + [calls[k]];
      }
    }
    assert calls[..|calls|] == calls;
  }

  method MarkUncalled(cmp: Comparison, routes: seq<Route>, calls: seq<Call>, docs: set<string>) returns (uncalled: seq<Route>)
    requires Ready(cmp, routes, calls) && forall r :: r in routes ==> r.callers == Callers(cmp, r, calls)
    modifies routes`documentedExternal
    ensures uncalled == Uncalled(cmp, routes, calls)
    ensures forall r :: r in uncalled ==> (r.documentedExternal <==> exists d :: d in docs && cmp.fits(cmp.norm(r.path), d))
  {
    hide Callers, Hits;
    uncalled := [];
    for k := 0 to |routes|
      invariant forall r :: r in routes ==> r.norm == cmp.norm(r.path) && r.callers == Callers(cmp, r, calls)
      invariant uncalled == Uncalled(cmp, routes[..k], calls) && forall r :: r in uncalled ==> r in routes
      invariant forall r :: r in uncalled ==> (r.documentedExternal <==> exists d :: d in docs && cmp.fits(cmp.norm(r.path), d))
    {
      var r := routes[k];
      assert routes[..k + 1][..k] == routes[..k];
      if r.callers == [] {
        r.documentedExternal := exists d :: d in docs && cmp.fits(r.norm, d);
        uncalled := uncalled + [r];
      }
    }
    assert routes[..|routes|] == routes;
  }
}
