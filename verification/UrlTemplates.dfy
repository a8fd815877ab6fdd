/**
 Why the join works: a route path and the url literal of a call are printed from lists of
 segments, and two of them are joined exactly when the segments of one fit the other's.
 */
module UrlTemplates {
  import opened Texts
  import opened UrlShape
  import opened Scanner
  import Join

  datatype Segment = Fixed(name: string) | Param(name: string)

  predicate GoodName(s: string) {
    && s != [] && Without(s, '/') && Without(s, '?') && Without(s, '{') && Without(s, '}')
    && Without(s, '$') && Without(s, '*')
  }

  predicate GoodSegments(segs: seq<Segment>) {
    forall i :: 0 <= i < |segs| ==> GoodName(segs[i].name)
  }

  /** How a parameter is written: by a route, by a call (as the scanner flattens it), and in
      a normalised url. */
  datatype Style = OfRoute | OfCall | OfShape

  function Text(style: Style, seg: Segment): string {
    match seg
    case Fixed(name) => name
    case Param(name) =>
      (match style
       case OfRoute => ['{'] + (name + ['}'])
       case OfCall => PLACEHOLDER
       case OfShape => ['*'])
  }

  function Path(style: Style, segs: seq<Segment>): string {
    if segs == [] then [] else ['/'] + (Text(style, segs[0]) + Path(style, segs[1..]))
  }

  /** Query-string builders glued to a url. */
  function Builders(n: nat): string {
    if n == 0 then [] else PLACEHOLDER + Builders(n - 1)
  }

  // ---------------------------------------------------------------------------
  // Characters of a path
  // ---------------------------------------------------------------------------

  /** Which of the marked characters a style uses. */
  predicate Uses(style: Style, c: char) {
    match style
    case OfRoute => c == '{' || c == '}'
    case OfCall => c == '{' || c == '}' || c == '$' || c == '.'
    case OfShape => c == '*'
  }

  predicate Mark(c: char) {
    c == '?' || c == '{' || c == '}' || c == '$' || c == '*'
  }

  lemma TextWithout(style: Style, seg: Segment, c: char)
    requires GoodName(seg.name) && Mark(c) && !Uses(style, c)
    ensures Without(Text(style, seg), c)
  {
  }

  lemma {:induction false} PathWithout(style: Style, segs: seq<Segment>, c: char)
    requires GoodSegments(segs) && Mark(c) && !Uses(style, c)
    ensures Without(Path(style, segs), c)
  {
    if segs != [] {
      TextWithout(style, segs[0], c);
      PathWithout(style, segs[1..], c);
      WithoutSum(Text(style, segs[0]), Path(style, segs[1..]), c);
    }
  }

  lemma {:induction false} PathEndsInside(style: Style, segs: seq<Segment>)
    requires GoodSegments(segs) && segs != []
    ensures EndsInside(Path(style, segs))
  {
    if |segs| > 1 {
      PathEndsInside(style, segs[1..]);
    }
  }

  // ---------------------------------------------------------------------------
  // Normalising a route
  // ---------------------------------------------------------------------------

  lemma {:induction false} BracesPast(a: string, b: string)
    requires Without(a, '{')
    ensures StarBraces(a + b) == a + StarBraces(b)
  {
    if a == [] {
      assert a + b == b;
    } else {
      assert (a + b)[1..] == a[1..] + b;
      BracesPast(a[1..], b);
    }
  }

  lemma BracesHere(name: string, b: string)
    requires Without(name, '}')
    ensures StarBraces(['{'] + (name + ['}']) + b) == ['*'] + StarBraces(b)
  {
    var u := ['{'] + (name + ['}']) + b;
    assert u[|name| + 1] == '}';
    assert forall m :: 1 <= m < |name| + 1 ==> u[m] == name[m - 1];
    assert CloseOf(u, 1) == |name| + 1;
    assert u[|name| + 2..] == b;
  }

  lemma {:induction false} RouteStarred(segs: seq<Segment>)
    requires GoodSegments(segs)
    ensures StarBraces(Path(OfRoute, segs)) == Path(OfShape, segs)
  {
    if segs != [] {
      var text, rest := Text(OfRoute, segs[0]), Path(OfRoute, segs[1..]);
      RouteStarred(segs[1..]);
      BracesPast(['/'], text + rest);
      if segs[0].Fixed? {
        BracesPast(text, rest);
      } else {
        BracesHere(segs[0].name, rest);
      }
    }
  }

  lemma {:induction false} NoDollarNoGroups(u: string)
    requires Without(u, '$')
    ensures StarGroups(u) == u
  {
    if u != [] {
      NoDollarNoGroups(u[1..]);
      assert u == [u[0]] + u[1..];
    }
  }

  lemma {:induction false} NoBraceNoStars(u: string)
    requires Without(u, '{')
    ensures StarBraces(u) == u
  {
    if u != [] {
      NoBraceNoStars(u[1..]);
      assert u == [u[0]] + u[1..];
    }
  }

  function Slash(slash: bool): string {
    if slash then ['/'] else []
  }

  lemma SlashStripped(u: string, slash: bool)
    requires EndsInside(u)
    ensures OrSlash(StripSlashes(u + Slash(slash))) == u
  {
  }

  /** A route path, with or without a closing slash, is reduced to the shape of its segments. */
  lemma RouteNormalized(segs: seq<Segment>, slash: bool)
    requires GoodSegments(segs) && segs != []
    ensures Norm(Path(OfRoute, segs) + Slash(slash)) == Path(OfShape, segs)
  {
    var path := Path(OfRoute, segs);
    var u := path + Slash(slash);
    PathWithout(OfRoute, segs, '?');
    PathWithout(OfRoute, segs, '$');
    WithoutSum(path, Slash(slash), '?');
    WithoutSum(path, Slash(slash), '$');
    QueryGone(u);
    assert DropGlued(u) == u;
    PathEndsInside(OfRoute, segs);
    SlashStripped(path, slash);
    NoDollarNoGroups(path);
    RouteStarred(segs);
  }

  // ---------------------------------------------------------------------------
  // Normalising the url of a call
  // ---------------------------------------------------------------------------

  lemma {:induction false} GroupsPast(a: string, b: string)
    requires Without(a, '$')
    ensures StarGroups(a + b) == a + StarGroups(b)
  {
    if a == [] {
      assert a + b == b;
    } else {
      assert (a + b)[1..] == a[1..] + b;
      GroupsPast(a[1..], b);
    }
  }

  lemma PlaceholderGroup(u: string, i: nat)
    requires i + |PLACEHOLDER| <= |u| && u[i..i + |PLACEHOLDER|] == PLACEHOLDER
    ensures GroupAt(u, i) && CloseOf(u, i + 2) == i + 5
  {
    var w := u[i..i + |PLACEHOLDER|];
    assert w[0] == u[i] && w[1] == u[i + 1] && w[2] == u[i + 2] && w[3] == u[i + 3] && w[4] == u[i + 4] && w[5] == u[i + 5];
  }

  lemma GroupHere(b: string)
    ensures StarGroups(PLACEHOLDER + b) == ['*'] + StarGroups(b)
  {
    var u := PLACEHOLDER + b;
    assert u[0..6] == PLACEHOLDER;
    PlaceholderGroup(u, 0);
    assert u[6..] == b;
  }

  lemma {:induction false} CallStarred(segs: seq<Segment>)
    requires GoodSegments(segs)
    ensures StarGroups(Path(OfCall, segs)) == Path(OfShape, segs)
  {
    if segs != [] {
      var text, rest := Text(OfCall, segs[0]), Path(OfCall, segs[1..]);
      CallStarred(segs[1..]);
      GroupsPast(['/'], text + rest);
      if segs[0].Fixed? {
        GroupsPast(text, rest);
      } else {
        GroupHere(rest);
      }
    }
  }

  /** Every `$` comes right after a slash. */
  predicate AfterSlashes(u: string) {
    forall i :: 0 <= i < |u| && u[i] == '$' ==> i > 0 && u[i - 1] == '/'
  }

  lemma AfterOneSlash(text: string, rest: string)
    requires forall i :: 0 < i < |text| ==> text[i] != '$'
    requires AfterSlashes(rest)
    ensures AfterSlashes(['/'] + (text + rest))
  {
  }

  lemma {:induction false} CallAfterSlashes(segs: seq<Segment>)
    requires GoodSegments(segs)
    ensures AfterSlashes(Path(OfCall, segs))
  {
    if segs != [] {
      CallAfterSlashes(segs[1..]);
      AfterOneSlash(Text(OfCall, segs[0]), Path(OfCall, segs[1..]));
    }
  }

  lemma {:induction false} BuildersEnd(u: string, i: nat, n: nat)
    requires i <= |u| && u[i..] == Builders(n)
    ensures GroupsEnd(u, i) == |u|
    ensures n > 0 ==> GroupAt(u, i)
    decreases n
  {
    if n > 0 {
      assert u[i..i + 6] == u[i..][..6] == PLACEHOLDER;
      PlaceholderGroup(u, i);
      assert u[i + 6..] == u[i..][6..] == Builders(n - 1);
      BuildersEnd(u, i + 6, n - 1);
    }
  }

  lemma NotGluedBefore(path: string, b: string, m: nat)
    requires AfterSlashes(path) && m < |path|
    ensures !GluedAt(path + b, m)
  {
  }

  lemma FirstGluedIs(u: string, k: nat)
    requires k <= |u| && (k < |u| ==> GluedAt(u, k)) && forall m :: 0 <= m < k ==> !GluedAt(u, m)
    ensures FirstGlued(u, 0) == k
  {
  }

  lemma GluedHere(path: string, n: nat)
    requires EndsInside(path) && n > 0
    ensures GluedAt(path + Builders(n), |path|) && GroupsEnd(path + Builders(n), |path|) == |path + Builders(n)|
  {
    var u := path + Builders(n);
    assert u[|path|..] == Builders(n);
    BuildersEnd(u, |path|, n);
    assert u[|path| - 1] == path[|path| - 1];
  }

  /** Builders glued to the last segment are dropped, and nothing else is. */
  lemma GluedDropped(path: string, n: nat)
    requires EndsInside(path) && AfterSlashes(path)
    ensures DropGlued(path + Builders(n)) == path
  {
    var u := path + Builders(n);
    forall m | 0 <= m < |path| {
      NotGluedBefore(path, Builders(n), m);
    }
    if n == 0 {
      assert u == path;
    } else {
      GluedHere(path, n);
    }
    FirstGluedIs(u, |path|);
    assert u[..|path|] + u[|u|..] == path;
  }

  lemma SlashNotGlued(path: string)
    requires AfterSlashes(path)
    ensures DropGlued(path + ['/']) == path + ['/']
  {
  }

  lemma {:induction false} QueryCut(a: string, b: string)
    requires Without(a, '?')
    ensures BeforeQuery(a + (['?'] + b)) == a
  {
    if a == [] {
      assert a + (['?'] + b) == ['?'] + b;
    } else {
      assert (a + (['?'] + b))[1..] == a[1..] + (['?'] + b);
      QueryCut(a[1..], b);
    }
  }

  lemma {:induction false} BuildersWithout(n: nat)
    ensures Without(Builders(n), '?')
  {
    if n > 0 {
      BuildersWithout(n - 1);
    }
  }

  /** What may follow the path of a call: a slash, or builders glued to it; then a query. */
  datatype Tail = Tail(slash: bool, builders: nat, query: bool, rest: string)

  function TailText(t: Tail): string {
    Slash(t.slash) + Builders(if t.slash then 0 else t.builders)
  }

  function CallUrl(segs: seq<Segment>, t: Tail): string {
    var u := Path(OfCall, segs) + TailText(t);
    if t.query then u + (['?'] + t.rest) else u
  }

  lemma TailDropped(path: string, t: Tail)
    requires EndsInside(path) && AfterSlashes(path)
    ensures OrSlash(StripSlashes(DropGlued(path + TailText(t)))) == path
  {
    if t.slash {
      assert TailText(t) == ['/'];
      SlashNotGlued(path);
      SlashStripped(path, true);
    } else {
      assert TailText(t) == Builders(t.builders);
      GluedDropped(path, t.builders);
      assert path + Slash(false) == path;
      SlashStripped(path, false);
    }
  }

  /** The url of a call is reduced to the shape of its segments, whatever query string it
      carries or builds. */
  lemma CallNormalized(segs: seq<Segment>, t: Tail)
    requires GoodSegments(segs) && segs != []
    ensures Norm(CallUrl(segs, t)) == Path(OfShape, segs)
  {
    var path := Path(OfCall, segs);
    var u := path + TailText(t);
    PathWithout(OfCall, segs, '?');
    BuildersWithout(if t.slash then 0 else t.builders);
    WithoutSum(Slash(t.slash), Builders(if t.slash then 0 else t.builders), '?');
    WithoutSum(path, TailText(t), '?');
    QueryGone(u);
    QueryCut(u, t.rest);
    PathEndsInside(OfCall, segs);
    CallAfterSlashes(segs);
    TailDropped(path, t);
    CallStarred(segs);
    PathWithout(OfShape, segs, '{');
    NoBraceNoStars(Path(OfShape, segs));
  }

  // ---------------------------------------------------------------------------
  // Matching shapes
  // ---------------------------------------------------------------------------

  function ShapeTexts(segs: seq<Segment>): seq<string> {
    seq(|segs|, i requires 0 <= i < |segs| => Text(OfShape, segs[i]))
  }

  lemma {:induction false} ShapeSegments(segs: seq<Segment>)
    requires GoodSegments(segs)
    ensures Segments(Path(OfShape, segs)) == [[]] + ShapeTexts(segs)
  {
    if segs == [] {
      assert ShapeTexts(segs) == [];
    } else {
      var text, rest := Text(OfShape, segs[0]), Path(OfShape, segs[1..]);
      ShapeSegments(segs[1..]);
      SplitPast('/', text, rest);
      assert (['/'] + (text + rest))[1..] == text + rest;
      assert text + [] == text;
      assert ShapeTexts(segs) == [text] + ShapeTexts(segs[1..]);
    }
  }

  /** Segments `p` describe segments `s`: what `p` fixes, `s` fixes alike. */
  predicate Fits(p: seq<Segment>, s: seq<Segment>) {
    |p| == |s| && forall i :: 0 <= i < |p| ==> p[i].Param? || (s[i].Fixed? && s[i].name == p[i].name)
  }

  lemma {:induction false} PlainMatch(p: string, s: string)
    requires Without(p, '*')
    ensures WildMatch(p, s) <==> p == s
  {
    if p != [] && s != [] {
      PlainMatch(p[1..], s[1..]);
      assert p == [p[0]] + p[1..] && s == [s[0]] + s[1..];
    }
  }

  lemma {:induction false} StarMatch(s: string)
    ensures WildMatch(['*'], s) <==> s != [] && Without(s, '/')
  {
    if s != [] {
      StarMatch(s[1..]);
      assert Without(s, '/') <==> s[0] != '/' && Without(s[1..], '/') by {
        assert s == [s[0]] + s[1..];
        WithoutSum([s[0]], s[1..], '/');
      }
    }
  }

  lemma TextMatch(p: Segment, s: Segment)
    requires GoodName(p.name) && GoodName(s.name)
    ensures WildMatch(Text(OfShape, p), Text(OfShape, s)) <==> p.Param? || (s.Fixed? && s.name == p.name)
  {
    if p.Fixed? {
      PlainMatch(p.name, Text(OfShape, s));
    } else {
      StarMatch(Text(OfShape, s));
    }
  }

  lemma ShapeMatch(p: seq<Segment>, s: seq<Segment>)
    requires GoodSegments(p) && GoodSegments(s)
    ensures WildMatch(Path(OfShape, p), Path(OfShape, s)) <==> Fits(p, s)
  {
    MatchesBySegments(Path(OfShape, p), Path(OfShape, s));
    ShapeSegments(p);
    ShapeSegments(s);
    ConsMatch([], ShapeTexts(p), [], ShapeTexts(s));
    forall i | 0 <= i < |p| && |p| == |s| {
      TextMatch(p[i], s[i]);
    }
    assert SegmentsMatch(ShapeTexts(p), ShapeTexts(s)) <==> Fits(p, s) by {
      assert |p| == |s| ==> forall i :: 0 <= i < |p| ==>
        (WildMatch(ShapeTexts(p)[i], ShapeTexts(s)[i]) <==> p[i].Param? || (s[i].Fixed? && s[i].name == p[i].name));
    }
  }

  /** A call is joined to a route exactly when the segments of one fit the other's: a fixed
      segment faces the same one, or a parameter of the describing side. A pair in which each
      side has a parameter where the other is fixed is not joined. */
  lemma JoinedIffFits(route: seq<Segment>, slash: bool, call: seq<Segment>, t: Tail)
    requires GoodSegments(route) && route != [] && GoodSegments(call) && call != []
    ensures Match(Norm(Path(OfRoute, route) + Slash(slash)), Norm(CallUrl(call, t)))
       <==> Fits(route, call) || Fits(call, route)
  {
    RouteNormalized(route, slash);
    CallNormalized(call, t);
    ShapeMatch(route, call);
    ShapeMatch(call, route);
    MatchesItself(Path(OfShape, route));
  }

  /** A witness of a pair that is not joined, though "/a/b" is an instance of both: "/a/{p}" and
      "/${p}/b" have a parameter each where the other side is fixed. */
  lemma CrossedParameters(route: seq<Segment>, call: seq<Segment>, t: Tail)
    requires route == [Fixed("a"), Param("p")] && call == [Param("p"), Fixed("b")]
    ensures Fits(route, [Fixed("a"), Fixed("b")]) && Fits(call, [Fixed("a"), Fixed("b")])
    ensures !Match(Norm(Path(OfRoute, route) + Slash(false)), Norm(CallUrl(call, t)))
  {
    hide Match, Norm;
    assert route[0].Fixed? && call[0].Param? && route[1].Param? && call[1].Fixed?;
    JoinedIffFits(route, false, call, t);
  }

  /** The same, for the join: `Join.JoinAll` with `Join.URLS` lists the call among the
      route's callers exactly when the methods agree and the segments fit. */
  lemma CallerIffFits(r: Join.Route, route: seq<Segment>, slash: bool, c: Join.Call, call: seq<Segment>, t: Tail,
                      calls: seq<Join.Call>)
    requires GoodSegments(route) && route != [] && GoodSegments(call) && call != []
    requires r.path == Path(OfRoute, route) + Slash(slash) && c.url == CallUrl(call, t) && c in calls
    ensures c in Join.Callers(Join.URLS, r, calls)
       <==> c.method_ == r.method_ && (Fits(route, call) || Fits(call, route))
  {
    JoinedIffFits(route, slash, call, t);
    Join.CallersComplete(Join.URLS, r, calls, c);
  }

  lemma {:induction false} MatchesItself(u: string)
    ensures WildMatch(u, u)
  {
    if u != [] {
      MatchesItself(u[1..]);
    }
  }
}
