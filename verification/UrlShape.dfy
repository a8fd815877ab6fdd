/** `norm` and `_match` of `map_ui_endpoints.py`: urls reduced to a shape, and shapes compared. */
module UrlShape {
  import opened Texts

  // ---------------------------------------------------------------------------
  // norm
  // ---------------------------------------------------------------------------

  function BeforeQuery(u: string): string {
    if u == [] || u[0] == '?' then [] else [u[0]] + BeforeQuery(u[1..])
  }

  /** The first `}` at or after `i`, or the length. */
  function CloseOf(u: string, i: nat): (k: nat)
    requires i <= |u|
    ensures i <= k <= |u| && (k < |u| ==> u[k] == '}') && forall m :: i <= m < k ==> u[m] != '}'
    decreases |u| - i
  {
    if i == |u| || u[i] == '}' then i else CloseOf(u, i + 1)
  }

  /** `${...}` starts at `i`. */
  predicate GroupAt(u: string, i: nat) {
    i + 1 < |u| && u[i] == '$' && u[i + 1] == '{' && CloseOf(u, i + 2) < |u|
  }

  /** `{...}` starts at `i`. */
  predicate BraceAt(u: string, i: nat) {
    i < |u| && u[i] == '{' && CloseOf(u, i + 1) < |u|
  }

  /** The end of the run of groups that starts at `i`. */
  function GroupsEnd(u: string, i: nat): (e: nat)
    requires i <= |u|
    ensures i <= e <= |u|
    decreases |u| - i
  {
    if GroupAt(u, i) then GroupsEnd(u, CloseOf(u, i + 2) + 1) else i
  }

  /** Where a regular expression's `$` matches. */
  predicate AtEnd(u: string, i: nat) {
    i == |u| || (i + 1 == |u| && u[i] == '\n')
  }

  /** A run of groups that starts at `i`, not after a slash, and reaches the end. */
  predicate GluedAt(u: string, i: nat) {
    0 < i <= |u| && u[i - 1] != '/' && GroupAt(u, i) && AtEnd(u, GroupsEnd(u, i))
  }

  function FirstGlued(u: string, i: nat): (k: nat)
    requires i <= |u|
    ensures i <= k <= |u| && (k < |u| ==> GluedAt(u, k)) && forall m :: i <= m < k ==> !GluedAt(u, m)
    decreases |u| - i
  {
    if i == |u| || GluedAt(u, i) then i else FirstGlued(u, i + 1)
  }

  function DropGlued(u: string): string {
    var p := FirstGlued(u, 0);
    if p < |u| then u[..p] + u[GroupsEnd(u, p)..] else u
  }

  function StripSlashes(u: string): string {
    if u != [] && u[|u| - 1] == '/' then StripSlashes(u[..|u| - 1]) else u
  }

  function OrSlash(u: string): string {
    if u == [] then ['/'] else u
  }

  function StarGroups(u: string): string {
    if u == [] then [] else
    if GroupAt(u, 0) then ['*'] + StarGroups(u[CloseOf(u, 2) + 1..]) else [u[0]] + StarGroups(u[1..])
  }

  function StarBraces(u: string): string {
    if u == [] then [] else
    if BraceAt(u, 0) then ['*'] + StarBraces(u[CloseOf(u, 1) + 1..]) else [u[0]] + StarBraces(u[1..])
  }

  function Norm(url: string): string {
    StarBraces(StarGroups(OrSlash(StripSlashes(DropGlued(BeforeQuery(url))))))
  }

  // --- a line break at the end ---------------------------------------------------

  lemma {:induction false} CloseBeforeBreak(u: string, i: nat)
    requires i <= |u|
    ensures var k := CloseOf(u + ['\n'], i); if k <= |u| then k == CloseOf(u, i) < |u| else CloseOf(u, i) == |u|
    decreases |u| - i
  {
    if i < |u| && u[i] != '}' {
      CloseBeforeBreak(u, i + 1);
    }
  }

  lemma GroupBeforeBreak(u: string, i: nat)
    requires i <= |u|
    ensures GroupAt(u + ['\n'], i) <==> GroupAt(u, i)
    ensures GroupAt(u, i) ==> CloseOf(u + ['\n'], i + 2) == CloseOf(u, i + 2)
  {
    if i + 1 < |u| {
      CloseBeforeBreak(u, i + 2);
    }
  }

  lemma {:induction false} EndBeforeBreak(u: string, i: nat)
    requires i <= |u|
    ensures GroupsEnd(u + ['\n'], i) == GroupsEnd(u, i)
    decreases |u| - i
  {
    GroupBeforeBreak(u, i);
    if GroupAt(u, i) {
      EndBeforeBreak(u, CloseOf(u, i + 2) + 1);
    }
  }

  lemma GluedBeforeBreak(u: string, i: nat)
    requires Without(u, '\n') && i <= |u|
    ensures GluedAt(u + ['\n'], i) <==> GluedAt(u, i)
  {
    GroupBeforeBreak(u, i);
    EndBeforeBreak(u, i);
  }

  lemma {:induction false} FirstBeforeBreak(u: string, i: nat)
    requires Without(u, '\n') && i <= |u|
    ensures var k := FirstGlued(u + ['\n'], i); if k <= |u| then k == FirstGlued(u, i) < |u| else FirstGlued(u, i) == |u|
    decreases |u| - i
  {
    hide GluedAt;
    GluedBeforeBreak(u, i);
    if i == |u| {
      NothingGluedLast(u);
    } else if !GluedAt(u, i) {
      FirstBeforeBreak(u, i + 1);
    }
  }

  lemma NothingGluedLast(u: string)
    ensures !GluedAt(u, |u|) && FirstGlued(u + ['\n'], |u| + 1) == |u| + 1
  {
  }

  /** What is glued to the last segment goes in front of a line break too. */
  lemma BreakKept(u: string)
    requires Without(u, '\n')
    ensures DropGlued(u + ['\n']) == DropGlued(u) + ['\n']
  {
    FirstBeforeBreak(u, 0);
    var p := FirstGlued(u, 0);
    if p < |u| {
      EndBeforeBreak(u, p);
      var e := GroupsEnd(u, p);
      assert (u + ['\n'])[..p] == u[..p] && (u + ['\n'])[e..] == u[e..] + ['\n'];
    }
  }

  // --- norm is idempotent ------------------------------------------------------

  /** No `{` comes before a `}`. */
  predicate NoPair(u: string) {
    forall i, j :: 0 <= i < j < |u| ==> !(u[i] == '{' && u[j] == '}')
  }

  predicate Trimmed(u: string) {
    u != [] && (u == ['/'] || u[|u| - 1] != '/')
  }

  lemma {:induction false} QueryGone(u: string)
    ensures Without(BeforeQuery(u), '?')
    ensures Without(u, '?') ==> BeforeQuery(u) == u
  {
    if u != [] && u[0] != '?' {
      QueryGone(u[1..]);
      assert u == [u[0]] + u[1..];
      assert Without(u, '?') ==> Without(u[1..], '?') by {
        assert forall i :: 0 <= i < |u| - 1 ==> u[1..][i] == u[i + 1];
      }
    }
  }

  lemma WithoutGlued(u: string, c: char)
    requires Without(u, c)
    ensures Without(DropGlued(u), c)
  {
  }

  lemma {:induction false} WithoutSlashes(u: string, c: char)
    requires Without(u, c) && c != '/'
    ensures Without(OrSlash(StripSlashes(u)), c)
  {
    if u != [] && u[|u| - 1] == '/' {
      WithoutSlashes(u[..|u| - 1], c);
    }
  }

  lemma {:induction false} WithoutGroups(u: string, c: char)
    requires Without(u, c) && c != '*'
    ensures Without(StarGroups(u), c)
    decreases |u|
  {
    if u != [] {
      WithoutGroups(if GroupAt(u, 0) then u[CloseOf(u, 2) + 1..] else u[1..], c);
    }
  }

  lemma {:induction false} WithoutBraces(u: string, c: char)
    requires Without(u, c) && c != '*'
    ensures Without(StarBraces(u), c)
    decreases |u|
  {
    if u != [] {
      WithoutBraces(if BraceAt(u, 0) then u[CloseOf(u, 1) + 1..] else u[1..], c);
    }
  }

  lemma {:induction false} StripTrims(u: string)
    ensures Trimmed(OrSlash(StripSlashes(u)))
    ensures Trimmed(u) ==> OrSlash(StripSlashes(u)) == u
  {
    if u != [] && u[|u| - 1] == '/' {
      StripTrims(u[..|u| - 1]);
      if |u| == 1 {
        assert u[..0] == [];
        assert u == ['/'];
      }
    }
  }

  predicate EndsInside(u: string) {
    u != [] && u[|u| - 1] != '/'
  }

  lemma {:induction false} GroupsTrim(u: string)
    ensures EndsInside(u) ==> EndsInside(StarGroups(u))
    decreases |u|
  {
    if u != [] {
      var k := if GroupAt(u, 0) then CloseOf(u, 2) + 1 else 1;
      GroupsTrim(u[k..]);
      assert k < |u| ==> u[k..][|u| - k - 1] == u[|u| - 1];
    }
  }

  lemma {:induction false} BracesTrim(u: string)
    ensures EndsInside(u) ==> EndsInside(StarBraces(u))
    decreases |u|
  {
    if u != [] {
      var k := if BraceAt(u, 0) then CloseOf(u, 1) + 1 else 1;
      BracesTrim(u[k..]);
      assert k < |u| ==> u[k..][|u| - k - 1] == u[|u| - 1];
    }
  }

  lemma {:induction false} BracesGone(u: string)
    ensures NoPair(StarBraces(u))
    decreases |u|
  {
    if u != [] {
      if BraceAt(u, 0) {
        BracesGone(u[CloseOf(u, 1) + 1..]);
      } else {
        BracesGone(u[1..]);
        if u[0] == '{' {
          assert Without(u[1..], '}');
          WithoutBraces(u[1..], '}');
        }
      }
    }
  }

  lemma {:induction false} NothingToStar(u: string)
    requires NoPair(u)
    ensures StarGroups(u) == u && StarBraces(u) == u
  {
    if u != [] {
      NothingToStar(u[1..]);
      assert u == [u[0]] + u[1..];
    }
  }

  lemma NothingGlued(u: string)
    requires NoPair(u)
    ensures DropGlued(u) == u
  {
  }

  /** What every normalised url looks like. */
  lemma NormShape(url: string)
    ensures Without(Norm(url), '?') && NoPair(Norm(url)) && Trimmed(Norm(url))
  {
    var cut := BeforeQuery(url);
    var kept := DropGlued(cut);
    var trimmed := OrSlash(StripSlashes(kept));
    var starred := StarGroups(trimmed);
    QueryGone(url);
    WithoutGlued(cut, '?');
    WithoutSlashes(kept, '?');
    WithoutGroups(trimmed, '?');
    WithoutBraces(starred, '?');
    BracesGone(starred);
    StripTrims(kept);
    if trimmed == ['/'] {
      NothingToStar(trimmed);
    } else {
      GroupsTrim(trimmed);
      BracesTrim(starred);
    }
  }

  /** Normalising twice is normalising once. */
  lemma NormIdempotent(url: string)
    ensures Norm(Norm(url)) == Norm(url)
  {
    var u := Norm(url);
    NormShape(url);
    QueryGone(u);
    NothingGlued(u);
    StripTrims(u);
    NothingToStar(u);
  }

  // ---------------------------------------------------------------------------
  // _match
  // ---------------------------------------------------------------------------

  /** `re.fullmatch` of a pattern in which `*` stands for one or more non-slash characters. */
  predicate WildMatch(p: string, s: string)
    decreases |p| + |s|
  {
    if p == [] then s == []
    else if s == [] then false
    else if p[0] == '*' then s[0] != '/' && (WildMatch(p[1..], s[1..]) || WildMatch(p, s[1..]))
    else s[0] == p[0] && WildMatch(p[1..], s[1..])
  }

  predicate Match(a: string, b: string) {
    a == b || WildMatch(a, b) || WildMatch(b, a)
  }

  /** `p` with a star before it matches exactly what `p` matches after one or more
      non-slash characters. */
  lemma {:induction false} StarMeaning(p: string, s: string)
    ensures WildMatch(['*'] + p, s) <==>
      exists k :: 0 < k <= |s| && Without(s[..k], '/') && WildMatch(p, s[k..])
    decreases |s|
  {
    assert (['*'] + p)[1..] == p;
    if s != [] {
      StarMeaning(p, s[1..]);
      if s[0] != '/' {
        assert Without(s[..1], '/');
        if k :| 0 < k <= |s| - 1 && Without(s[1..][..k], '/') && WildMatch(p, s[1..][k..]) {
          assert s[..k + 1] == [s[0]] + s[1..][..k] && s[k + 1..] == s[1..][k..];
          assert Without(s[..k + 1], '/');
        }
        if k :| 0 < k <= |s| && Without(s[..k], '/') && WildMatch(p, s[k..]) {
          assert k > 1 ==> s[1..][..k - 1] == s[..k][1..] && s[1..][k - 1..] == s[k..];
          assert k > 1 ==> Without(s[1..][..k - 1], '/');
        }
      } else if k :| 0 < k <= |s| && Without(s[..k], '/') && WildMatch(p, s[k..]) {
        assert s[..k][0] == '/';
      }
    }
  }

  /** The pieces of a url between slashes. */
  function Segments(s: string): (r: seq<string>)
    ensures |r| > 0
  {
    SplitOn('/', s)
  }

  predicate SegmentsMatch(p: seq<string>, s: seq<string>) {
    |p| == |s| && forall i :: 0 <= i < |p| ==> WildMatch(p[i], s[i])
  }

  lemma ConsMatch(a: string, p: seq<string>, b: string, s: seq<string>)
    ensures SegmentsMatch([a] + p, [b] + s) <==> WildMatch(a, b) && SegmentsMatch(p, s)
  {
    if SegmentsMatch([a] + p, [b] + s) {
      assert ([a] + p)[0] == a && ([b] + s)[0] == b;
      assert forall i :: 0 <= i < |p| ==> p[i] == ([a] + p)[i + 1] && s[i] == ([b] + s)[i + 1];
    }
  }

  /** Matching whole urls is matching them segment by segment. */
  lemma {:induction false} MatchesBySegments(p: string, s: string)
    ensures WildMatch(p, s) <==> SegmentsMatch(Segments(p), Segments(s))
    decreases |p| + |s|
  {
    var ps, ss := Segments(p), Segments(s);
    HeadAndTail('/', p);
    HeadAndTail('/', s);
    ConsMatch(ps[0], ps[1..], ss[0], ss[1..]);
    if p != [] && s != [] {
      var ps', ss' := Segments(p[1..]), Segments(s[1..]);
      HeadAndTail('/', p[1..]);
      HeadAndTail('/', s[1..]);
      MatchesBySegments(p[1..], s[1..]);
      ConsMatch(ps'[0], ps'[1..], ss'[0], ss'[1..]);
      if p[0] == '*' {
        MatchesBySegments(p, s[1..]);
        ConsMatch(ps[0], ps[1..], ss'[0], ss'[1..]);
      }
    }
  }
}
