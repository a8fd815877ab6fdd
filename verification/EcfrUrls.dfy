/**
 eCFR urls in `fetch_ecfr_text.py`: what the two url parsers find, and the walk that lists
 the parts of a chapter and rebuilds their urls.
 */
module EcfrUrls {
  import opened Wrappers
  import opened Texts

  // ---------------------------------------------------------------------------
  // Searching a url
  // ---------------------------------------------------------------------------

  predicate StartsWith(u: string, p: string) {
    |p| <= |u| && u[..|p|] == p
  }

  predicate Contains(u: string, p: string) {
    StartsWith(u, p) || (u != [] && Contains(u[1..], p))
  }

  /** The characters a pattern accepts after its key. */
  datatype Class = Digits | Letters | Alphanumerics

  predicate IsLetter(c: char) {
    'a' <= c <= 'z' || 'A' <= c <= 'Z'
  }

  predicate In(cls: Class, c: char) {
    match cls
    case Digits => IsDigit(c)
    case Letters => IsLetter(c)
    case Alphanumerics => IsDigit(c) || IsLetter(c)
  }

  lemma ClassesAre(c: char)
    ensures In(Digits, c) <==> '0' <= c <= '9'
    ensures In(Letters, c) <==> 'A' <= c <= 'Z' || 'a' <= c <= 'z'
    ensures In(Alphanumerics, c) <==> In(Digits, c) || In(Letters, c)
  {
  }

  predicate All(cls: Class, s: string) {
    forall i :: 0 <= i < |s| ==> In(cls, s[i])
  }

  /** The longest run of the class at the start. */
  function RunOf(cls: Class, s: string): (r: string)
    ensures StartsWith(s, r) && All(cls, r)
    ensures |r| < |s| ==> !In(cls, s[|r|])
  {
    if s == [] || !In(cls, s[0]) then [] else [s[0]] + RunOf(cls, s[1..])
  }

  /** Where `(?:/|$)` matches. */
  predicate Ends(s: string) {
    s == [] || s[0] == '/' || s == ['\n']
  }

  /** `/key` and a run of the class match at the start of `u`. */
  predicate MatchHere(u: string, key: string, cls: Class) {
    && u != [] && u[0] == '/' && StartsWith(u[1..], key)
    && RunOf(cls, u[1 + |key|..]) != []
    && Ends(u[1 + |key| + |RunOf(cls, u[1 + |key|..])|..])
  }

  /** `re.search` of `/key(class+)(?:/|$)`: the group of the first match. */
  function Search(u: string, key: string, cls: Class): Option<string> {
    if u == [] then None
    else if MatchHere(u, key, cls) then Some(RunOf(cls, u[1 + |key|..]))
    else Search(u[1..], key, cls)
  }

  /** A path segment that is the key and then characters of the class. */
  predicate Keyed(seg: string, key: string, cls: Class) {
    |key| < |seg| && StartsWith(seg, key) && All(cls, seg[|key|..])
  }

  function FirstKeyed(segs: seq<string>, key: string, cls: Class): Option<string> {
    if segs == [] then None
    else if Keyed(segs[0], key, cls) then Some(segs[0][|key|..])
    else FirstKeyed(segs[1..], key, cls)
  }

  /** The text up to the first slash. */
  function Head(v: string): string {
    SplitOn('/', v)[0]
  }

  lemma {:induction false} HeadIs(v: string)
    ensures StartsWith(v, Head(v)) && Without(Head(v), '/')
    ensures |Head(v)| < |v| ==> v[|Head(v)|] == '/'
  {
    if v != [] && v[0] != '/' {
      HeadIs(v[1..]);
    }
  }

  lemma {:induction false} RunIs(cls: Class, r: string, rest: string)
    requires All(cls, r) && (rest != [] ==> !In(cls, rest[0]))
    ensures RunOf(cls, r + rest) == r
  {
    if r == [] {
      assert r + rest == rest;
    } else {
      assert (r + rest)[1..] == r[1..] + rest;
      RunIs(cls, r[1..], rest);
    }
  }

  lemma {:induction false} HeadOf(x: string, rest: string)
    requires Without(x, '/') && (rest != [] ==> rest[0] == '/')
    ensures Head(x + rest) == x
  {
    SplitPast('/', x, rest);
    assert x + [] == x;
  }

  /** The url without the line break at its end, if it ends in one. */
  function Chomped(u: string): string {
    if u != [] && u[|u| - 1] == '\n' then u[..|u| - 1] else u
  }

  lemma ChompedPast(a: string, rest: string)
    requires Without(a, '\n')
    ensures Chomped(a + rest) == a + Chomped(rest)
  {
    var u := a + rest;
    if rest == [] {
      assert u == a;
    } else {
      assert u[|u| - 1] == rest[|rest| - 1] && u[..|u| - 1] == a + rest[..|rest| - 1];
    }
  }

  lemma SpelledMatches(key: string, r: string, rest: string, cls: Class)
    requires All(cls, r) && r != [] && Ends(rest)
    ensures MatchHere(['/'] + (key + (r + rest)), key, cls)
  {
    var u := ['/'] + (key + (r + rest));
    RunIs(cls, r, rest);
    assert u[1..] == key + (r + rest);
    assert u[1 + |key|..] == r + rest && u[1 + |key| + |r|..] == rest;
  }

  lemma MatchSpelled(u: string, key: string, cls: Class) returns (r: string, rest: string)
    requires MatchHere(u, key, cls)
    ensures u == ['/'] + (key + (r + rest)) && All(cls, r) && r != [] && Ends(rest)
    ensures r == RunOf(cls, u[1 + |key|..])
  {
    r := RunOf(cls, u[1 + |key|..]);
    rest := u[1 + |key| + |r|..];
    assert u[1 + |key|..] == r + rest;
    assert u[1..] == key + u[1 + |key|..];
  }

  lemma MatchIsSegment(u: string, key: string, cls: Class)
    requires Without(key, '/') && Without(key, '\n') && MatchHere(u, key, cls)
    ensures Chomped(u) != [] && Chomped(u)[0] == '/'
    ensures Head(Chomped(u)[1..]) == key + RunOf(cls, u[1 + |key|..])
    ensures Keyed(Head(Chomped(u)[1..]), key, cls)
  {
    hide RunOf, Head, Chomped;
    var r, rest := MatchSpelled(u, key, cls);
    var seg := key + r;
    assert Without(r, '/') && Without(r, '\n');
    WithoutSum(key, r, '/');
    WithoutSum(key, r, '\n');
    WithoutSum(['/'], seg, '\n');
    assert u == (['/'] + seg) + rest;
    ChompedPast(['/'] + seg, rest);
    assert ((['/'] + seg) + Chomped(rest))[1..] == seg + Chomped(rest);
    RestChomped(rest);
    HeadOf(seg, Chomped(rest));
    assert seg[|key|..] == r && seg[..|key|] == key;
  }

  lemma RestChomped(rest: string)
    requires Ends(rest)
    ensures Chomped(rest) != [] ==> Chomped(rest)[0] == '/'
  {
  }

  lemma SegmentIsMatch(u: string, key: string, cls: Class)
    requires u != [] && u[0] == '/' && Keyed(Head(Chomped(u)[1..]), key, cls)
    ensures MatchHere(u, key, cls)
  {
    hide MatchHere, Head;
    var w := Chomped(u);
    var end, v, h := u[|w|..], w[1..], Head(w[1..]);
    HeadIs(v);
    var r, rest := h[|key|..], v[|h|..];
    assert h == key + r && v == h + rest;
    assert end == [] || end == ['\n'];
    EndsBefore(rest, end);
    SpelledMatches(key, r, rest + end, cls);
    assert w == ['/'] + v && u == w + end;
    Reassociated(['/'], key, r, rest, end);
  }

  lemma EndsBefore(rest: string, end: string)
    requires (rest == [] || rest[0] == '/') && (end == [] || end == ['\n'])
    ensures Ends(rest + end)
  {
  }

  lemma Reassociated(slash: string, key: string, r: string, rest: string, end: string)
    ensures (slash + ((key + r) + rest)) + end == slash + (key + (r + (rest + end)))
  {
  }

  lemma MatchesSegment(u: string, key: string, cls: Class)
    requires Without(key, '/') && Without(key, '\n') && u != [] && u[0] == '/'
    ensures MatchHere(u, key, cls) <==> Keyed(Head(Chomped(u)[1..]), key, cls)
    ensures MatchHere(u, key, cls) ==> RunOf(cls, u[1 + |key|..]) == Head(Chomped(u)[1..])[|key|..]
  {
    if MatchHere(u, key, cls) {
      MatchIsSegment(u, key, cls);
    } else if Keyed(Head(Chomped(u)[1..]), key, cls) {
      SegmentIsMatch(u, key, cls);
    }
  }

  lemma AtSlashOnly(u: string, key: string, cls: Class)
    ensures MatchHere(u, key, cls) ==> u[0] == '/'
  {
  }

  /** Searching a url is looking through its segments, all but the first; a line break that ends the
      url is no part of them. */
  lemma {:induction false} SearchIsBySegment(u: string, key: string, cls: Class)
    requires Without(key, '/') && Without(key, '\n')
    ensures Search(u, key, cls) == FirstKeyed(SplitOn('/', Chomped(u))[1..], key, cls)
  {
    hide MatchHere, RunOf, Keyed;
    var w := Chomped(u);
    if u != [] {
      SearchIsBySegment(u[1..], key, cls);
      AtSlashOnly(u, key, cls);
      if w != [] {
        assert Chomped(u[1..]) == w[1..];
        if u[0] == '/' {
          MatchesSegment(u, key, cls);
          assert SplitOn('/', w)[1..] == SplitOn('/', w[1..]);
        } else {
          assert SplitOn('/', w)[1..] == SplitOn('/', w[1..])[1..];
        }
      }
    }
  }

  // ---------------------------------------------------------------------------
  // The parsers
  // ---------------------------------------------------------------------------

  datatype PartUrl = PartUrl(title: nat, part: nat, subpart: Option<string>)

  datatype ChapterUrl = ChapterUrl(title: nat, chapter: string)

  function UpperChar(c: char): char {
    if 'a' <= c <= 'z' then (c as int - 32) as char else c
  }

  function Upper(s: string): string {
    seq(|s|, i requires 0 <= i < |s| => UpperChar(s[i]))
  }

  lemma {:induction false} SearchInClass(u: string, key: string, cls: Class)
    ensures Search(u, key, cls).Some? ==> All(cls, Search(u, key, cls).value)
  {
    if u != [] && !MatchHere(u, key, cls) {
      SearchInClass(u[1..], key, cls);
    }
  }

  /** The number a digits pattern captures. */
  function SearchNumber(u: string, key: string): Option<nat> {
    SearchInClass(u, key, Digits);
    match Search(u, key, Digits)
    case Some(digits) => Some(NatOf(digits))
    case None => None
  }

  /** `parse_ecfr_url`. */
  function ParsePart(url: string): Option<PartUrl> {
    if !Contains(url, "ecfr.gov") then None else
    match (SearchNumber(url, "title-"), SearchNumber(url, "part-"))
    case (Some(title), Some(part)) =>
      Some(PartUrl(title, part, match Search(url, "subpart-", Letters)
                                  case Some(letters) => Some(Upper(letters))
                                  case None => None))
    case _ => None
  }

  /** `parse_ecfr_chapter_url`. */
  function ParseChapter(url: string): Option<ChapterUrl> {
    if !Contains(url, "ecfr.gov") || Search(url, "part-", Digits).Some? then None else
    match (SearchNumber(url, "title-"), Search(url, "chapter-", Alphanumerics))
    case (Some(title), Some(chapter)) => Some(ChapterUrl(title, Upper(chapter)))
    case _ => None
  }

  // --- what they find ---

  ghost predicate Occurs(u: string, p: string) {
    exists i :: 0 <= i <= |u| && OccursAt(u, p, i)
  }

  predicate OccursAt(u: string, p: string, i: nat) {
    i + |p| <= |u| && u[i..i + |p|] == p
  }

  lemma OneFurther(u: string, p: string, i: nat)
    requires u != []
    ensures OccursAt(u[1..], p, i) <==> OccursAt(u, p, i + 1)
  {
    if i + 1 + |p| <= |u| {
      assert u[1..][i..i + |p|] == u[i + 1..i + 1 + |p|];
    }
  }

  lemma {:induction false} ContainsIs(u: string, p: string)
    ensures Contains(u, p) <==> Occurs(u, p)
  {
    assert StartsWith(u, p) <==> OccursAt(u, p, 0);
    if u != [] {
      ContainsIs(u[1..], p);
      forall i: nat {
        OneFurther(u, p, i);
      }
      if i :| 0 <= i <= |u[1..]| && OccursAt(u[1..], p, i) {
        assert OccursAt(u, p, i + 1);
      }
      if i :| 0 < i <= |u| && OccursAt(u, p, i) {
        assert OccursAt(u[1..], p, i - 1);
      }
    }
  }

  /** Segment `k` is the first that is the key and then characters of the class, or there is none
      and `k` is past the end. */
  predicate FirstAt(segs: seq<string>, key: string, cls: Class, k: nat) {
    k <= |segs| && (forall j :: 0 <= j < k ==> !Keyed(segs[j], key, cls)) && (k < |segs| ==> Keyed(segs[k], key, cls))
  }

  lemma {:induction false} FirstKeyedAt(segs: seq<string>, key: string, cls: Class, k: nat)
    requires FirstAt(segs, key, cls, k)
    ensures FirstKeyed(segs, key, cls) == if k < |segs| then Some(segs[k][|key|..]) else None
  {
    if k > 0 {
      FirstKeyedAt(segs[1..], key, cls, k - 1);
    }
  }

  lemma SearchedAt(url: string, key: string, cls: Class, k: nat)
    requires Without(key, '/') && Without(key, '\n') && FirstAt(SplitOn('/', Chomped(url))[1..], key, cls, k)
    ensures var segs := SplitOn('/', Chomped(url))[1..];
      Search(url, key, cls) == if k < |segs| then Some(segs[k][|key|..]) else None
  {
    SearchIsBySegment(url, key, cls);
    FirstKeyedAt(SplitOn('/', Chomped(url))[1..], key, cls, k);
  }

  lemma NumberAt(url: string, key: string, k: nat)
    requires Without(key, '/') && Without(key, '\n') && FirstAt(SplitOn('/', Chomped(url))[1..], key, Digits, k)
    ensures var segs := SplitOn('/', Chomped(url))[1..];
      SearchNumber(url, key) == if k < |segs| then Some(NatOf(segs[k][|key|..])) else None
  {
    SearchedAt(url, key, Digits, k);
  }

  /** A url names a chapter exactly if it is one of ecfr.gov with segments for a title and a chapter, and
      none for a part; the first ones count. */
  lemma ChapterRead(url: string, p: nat, t: nat, c: nat)
    requires var segs := SplitOn('/', Chomped(url))[1..];
      FirstAt(segs, "part-", Digits, p) && FirstAt(segs, "title-", Digits, t) && FirstAt(segs, "chapter-", Alphanumerics, c)
    ensures var segs := SplitOn('/', Chomped(url))[1..];
      ParseChapter(url) ==
        if Occurs(url, "ecfr.gov") && p == |segs| && t < |segs| && c < |segs|
        then Some(ChapterUrl(NatOf(segs[t][|"title-"|..]), Upper(segs[c][|"chapter-"|..]))) else None
  {
    hide Search, SearchNumber, Contains, Occurs;
    ContainsIs(url, "ecfr.gov");
    SearchedAt(url, "part-", Digits, p);
    NumberAt(url, "title-", t);
    SearchedAt(url, "chapter-", Alphanumerics, c);
  }

  /** A url names a part exactly if it is one of ecfr.gov with segments for a title and a part; the first
      ones count, and so does the first one for a subpart, if there is any. */
  lemma PartRead(url: string, p: nat, t: nat, b: nat)
    requires var segs := SplitOn('/', Chomped(url))[1..];
      FirstAt(segs, "part-", Digits, p) && FirstAt(segs, "title-", Digits, t) && FirstAt(segs, "subpart-", Letters, b)
    ensures var segs := SplitOn('/', Chomped(url))[1..];
      ParsePart(url) ==
        if Occurs(url, "ecfr.gov") && p < |segs| && t < |segs|
        then Some(PartUrl(NatOf(segs[t][|"title-"|..]), NatOf(segs[p][|"part-"|..]),
                          if b < |segs| then Some(Upper(segs[b][|"subpart-"|..])) else None)) else None
  {
    hide Search, SearchNumber, Contains, Occurs;
    ContainsIs(url, "ecfr.gov");
    NumberAt(url, "part-", p);
    NumberAt(url, "title-", t);
    SearchedAt(url, "subpart-", Letters, b);
  }

  /** `u` is `c` as a capital, at the same place in the alphabet. */
  predicate IsUpper(c: char, u: char) {
    if 'a' <= c <= 'z' then 'A' <= u <= 'Z' && u as int - 'A' as int == c as int - 'a' as int else u == c
  }

  /** Upper case, letter by letter. */
  lemma UpperLetters(s: string, t: string)
    ensures Upper(s) == t <==> |t| == |s| && forall k :: 0 <= k < |s| ==> IsUpper(s[k], t[k])
  {
    if |t| == |s| {
      forall k | 0 <= k < |s|
        ensures Upper(s)[k] == t[k] <==> IsUpper(s[k], t[k])
      {
        assert Upper(s)[k] == UpperChar(s[k]);
      }
    }
  }

  // ---------------------------------------------------------------------------
  // The structure of a title
  // ---------------------------------------------------------------------------

  datatype NodeType = Title | Subtitle | Chapter | Subchapter | PartNode | OtherNode

  datatype Node = Node(kind: NodeType, ident: string, caption: string, reserved: bool, children: seq<Node>)

  predicate OnPath(t: NodeType) {
    !t.PartNode? && !t.OtherNode?
  }

  function Prefix(t: NodeType): string {
    match t
    case Title => "title-"
    case Subtitle => "subtitle-"
    case Chapter => "chapter-"
    case Subchapter => "subchapter-"
    case PartNode => "part-"
    case OtherNode => ""
  }

  const BASE := "https://www.ecfr.gov/current/"

  datatype Entry = Entry(part: nat, url: string)

  function EntryOf(n: Node, path: seq<string>): Entry
    requires AllDigits(n.ident)
  {
    Entry(NatOf(n.ident), BASE + JoinWith(['/'], path + [Prefix(PartNode) + n.ident]))
  }

  predicate IsChapter(n: Node, chapter: string) {
    n.kind.Chapter? && Upper(n.ident) == chapter
  }

  /** The chapter is found by its identifier, whatever the case of its letters there. */
  lemma ChapterFound(n: Node, chapter: string)
    ensures IsChapter(n, chapter) <==>
      n.kind.Chapter? && |chapter| == |n.ident| && forall k :: 0 <= k < |chapter| ==> IsUpper(n.ident[k], chapter[k])
  {
    hide IsUpper;
    UpperLetters(n.ident, chapter);
  }

  function Below(path: seq<string>, n: Node): seq<string> {
    if OnPath(n.kind) then path + [Prefix(n.kind) + n.ident] else path
  }

  /** The parts that the walk lists at and below a node. */
  function Walk(n: Node, path: seq<string>, inside: bool, chapter: string): seq<Entry>
    decreases n
  {
    var here := inside || IsChapter(n, chapter);
    if n.kind.PartNode? && here then
      if !n.reserved && AllDigits(n.ident) then [EntryOf(n, path)] else []
    else WalkAll(n.children, Below(path, n), here, chapter)
  }

  function WalkAll(ns: seq<Node>, path: seq<string>, inside: bool, chapter: string): seq<Entry>
    decreases ns
  {
    if ns == [] then [] else
    WalkAll(ns[..|ns| - 1], path, inside, chapter) + Walk(ns[|ns| - 1], path, inside, chapter)
  }

  // ---------------------------------------------------------------------------
  // The same, from the outside: which nodes of the tree are listed
  // ---------------------------------------------------------------------------

  /** A node and the nodes above it, the root first. */
  datatype Visit = Visit(node: Node, above: seq<Node>)

  function Preorder(n: Node, above: seq<Node>): seq<Visit>
    decreases n
  {
    [Visit(n, above)] + PreorderAll(n.children, above + [n])
  }

  function PreorderAll(ns: seq<Node>, above: seq<Node>): seq<Visit>
    decreases ns
  {
    if ns == [] then [] else PreorderAll(ns[..|ns| - 1], above) + Preorder(ns[|ns| - 1], above)
  }

  predicate Inside(above: seq<Node>, chapter: string) {
    exists k :: 0 <= k < |above| && IsChapter(above[k], chapter)
  }

  /** Below a part that is itself inside the chapter. */
  predicate Shielded(above: seq<Node>, chapter: string) {
    exists k :: 0 <= k < |above| && above[k].kind.PartNode? && Inside(above[..k], chapter)
  }

  /** A non-reserved part with a numeric identifier inside the chapter. */
  predicate IsListed(v: Visit, chapter: string) {
    && v.node.kind.PartNode? && !v.node.reserved && AllDigits(v.node.ident)
    && Inside(v.above, chapter) && !Shielded(v.above, chapter)
  }

  function PathOf(above: seq<Node>): seq<string> {
    if above == [] then [] else Below(PathOf(above[..|above| - 1]), above[|above| - 1])
  }

  function Listed(vs: seq<Visit>, chapter: string): seq<Entry> {
    if vs == [] then [] else
    var v := vs[|vs| - 1];
    Listed(vs[..|vs| - 1], chapter) + (if IsListed(v, chapter) then [EntryOf(v.node, PathOf(v.above))] else [])
  }

  lemma {:induction false} ListedSum(a: seq<Visit>, b: seq<Visit>, chapter: string)
    ensures Listed(a + b, chapter) == Listed(a, chapter) + Listed(b, chapter)
  {
    if b == [] {
      assert a + b == a;
    } else {
      assert (a + b)[..|a + b| - 1] == a + b[..|b| - 1];
      ListedSum(a, b[..|b| - 1], chapter);
    }
  }

  lemma OneBelow(above: seq<Node>, n: Node, chapter: string)
    ensures Inside(above + [n], chapter) <==> Inside(above, chapter) || IsChapter(n, chapter)
    ensures Shielded(above + [n], chapter) <==>
      Shielded(above, chapter) || (n.kind.PartNode? && Inside(above, chapter))
    ensures PathOf(above + [n]) == Below(PathOf(above), n)
  {
    var a := above + [n];
    assert a[..|above|] == above && a[|above|] == n;
    assert forall k :: 0 <= k < |above| ==> a[k] == above[k] && a[..k] == above[..k];
  }

  lemma {:induction false} ShieldedLists(n: Node, above: seq<Node>, chapter: string)
    requires Shielded(above, chapter)
    ensures Listed(Preorder(n, above), chapter) == []
    decreases n
  {
    OneBelow(above, n, chapter);
    ShieldedListsAll(n.children, above + [n], chapter);
    ListedSum([Visit(n, above)], PreorderAll(n.children, above + [n]), chapter);
  }

  lemma {:induction false} ShieldedListsAll(ns: seq<Node>, above: seq<Node>, chapter: string)
    requires Shielded(above, chapter)
    ensures Listed(PreorderAll(ns, above), chapter) == []
    decreases ns
  {
    if ns != [] {
      ShieldedListsAll(ns[..|ns| - 1], above, chapter);
      ShieldedLists(ns[|ns| - 1], above, chapter);
      ListedSum(PreorderAll(ns[..|ns| - 1], above), Preorder(ns[|ns| - 1], above), chapter);
    }
  }

  /** The walk lists, in document order, exactly the non-reserved numeric parts that are
      reached inside the chapter, each with the url of its path. */
  lemma {:induction false} WalkLists(n: Node, above: seq<Node>, chapter: string)
    requires !Shielded(above, chapter)
    ensures Walk(n, PathOf(above), Inside(above, chapter), chapter) == Listed(Preorder(n, above), chapter)
    decreases n
  {
    OneBelow(above, n, chapter);
    ListedSum([Visit(n, above)], PreorderAll(n.children, above + [n]), chapter);
    assert [Visit(n, above)][..0] == [];
    if n.kind.PartNode? && Inside(above, chapter) {
      ShieldedListsAll(n.children, above + [n], chapter);
    } else {
      WalkListsAll(n.children, above + [n], chapter);
    }
  }

  lemma {:induction false} WalkListsAll(ns: seq<Node>, above: seq<Node>, chapter: string)
    requires !Shielded(above, chapter)
    ensures WalkAll(ns, PathOf(above), Inside(above, chapter), chapter) == Listed(PreorderAll(ns, above), chapter)
    decreases ns
  {
    if ns != [] {
      WalkListsAll(ns[..|ns| - 1], above, chapter);
      WalkLists(ns[|ns| - 1], above, chapter);
      ListedSum(PreorderAll(ns[..|ns| - 1], above), Preorder(ns[|ns| - 1], above), chapter);
    }
  }
}
