/**
 `list_chapter_parts`: the walk that appends to its lists, the urls it rebuilds read back by
 the parsers, and what this means for the repair.
 */
module ChapterWalk {
  import opened Wrappers
  import opened Texts
  import opened EcfrUrls
  import ChapterRepair
  import ChapterFacts

  // ---------------------------------------------------------------------------
  // The walk
  // ---------------------------------------------------------------------------

  /** The label of the last chapter node the walk enters, or the one it starts with. */
  function Caption(n: Node, before: string, inside: bool, chapter: string): string
    decreases n
  {
    var here := inside || IsChapter(n, chapter);
    var caption := if IsChapter(n, chapter) then Strip(if n.caption != [] then n.caption else before) else before;
    if n.kind.PartNode? && here then caption else CaptionAll(n.children, caption, here, chapter)
  }

  function CaptionAll(ns: seq<Node>, before: string, inside: bool, chapter: string): string
    decreases ns
  {
    if ns == [] then before
    else Caption(ns[|ns| - 1], CaptionAll(ns[..|ns| - 1], before, inside, chapter), inside, chapter)
  }

  /** A node of the chapter that the walk enters. */
  predicate Entered(v: Visit, chapter: string) {
    IsChapter(v.node, chapter) && !Shielded(v.above, chapter)
  }

  function Label(vs: seq<Visit>, before: string, chapter: string): string {
    if vs == [] then before else
    var earlier, v := Label(vs[..|vs| - 1], before, chapter), vs[|vs| - 1];
    if Entered(v, chapter) then Strip(if v.node.caption != [] then v.node.caption else earlier) else earlier
  }

  lemma {:induction false} LabelSum(a: seq<Visit>, b: seq<Visit>, before: string, chapter: string)
    ensures Label(a + b, before, chapter) == Label(b, Label(a, before, chapter), chapter)
  {
    if b == [] {
      assert a + b == a;
    } else {
      assert (a + b)[..|a + b| - 1] == a + b[..|b| - 1];
      LabelSum(a, b[..|b| - 1], before, chapter);
    }
  }

  lemma {:induction false} ShieldedLabel(n: Node, above: seq<Node>, before: string, chapter: string)
    requires Shielded(above, chapter)
    ensures Label(Preorder(n, above), before, chapter) == before
    decreases n
  {
    OneBelow(above, n, chapter);
    ShieldedLabelAll(n.children, above + [n], before, chapter);
    LabelSum([Visit(n, above)], PreorderAll(n.children, above + [n]), before, chapter);
    assert [Visit(n, above)][..0] == [];
  }

  lemma {:induction false} ShieldedLabelAll(ns: seq<Node>, above: seq<Node>, before: string, chapter: string)
    requires Shielded(above, chapter)
    ensures Label(PreorderAll(ns, above), before, chapter) == before
    decreases ns
  {
    if ns != [] {
      ShieldedLabelAll(ns[..|ns| - 1], above, before, chapter);
      ShieldedLabel(ns[|ns| - 1], above, before, chapter);
      LabelSum(PreorderAll(ns[..|ns| - 1], above), Preorder(ns[|ns| - 1], above), before, chapter);
    }
  }

  lemma {:induction false} CaptionLabels(n: Node, above: seq<Node>, before: string, chapter: string)
    requires !Shielded(above, chapter)
    ensures Caption(n, before, Inside(above, chapter), chapter) == Label(Preorder(n, above), before, chapter)
    decreases n
  {
    OneBelow(above, n, chapter);
    var caption := Label([Visit(n, above)], before, chapter);
    assert [Visit(n, above)][..0] == [];
    LabelSum([Visit(n, above)], PreorderAll(n.children, above + [n]), before, chapter);
    if n.kind.PartNode? && Inside(above, chapter) {
      ShieldedLabelAll(n.children, above + [n], caption, chapter);
    } else {
      CaptionLabelsAll(n.children, above + [n], caption, chapter);
    }
  }

  lemma {:induction false} CaptionLabelsAll(ns: seq<Node>, above: seq<Node>, before: string, chapter: string)
    requires !Shielded(above, chapter)
    ensures CaptionAll(ns, before, Inside(above, chapter), chapter) == Label(PreorderAll(ns, above), before, chapter)
    decreases ns
  {
    if ns != [] {
      CaptionLabelsAll(ns[..|ns| - 1], above, before, chapter);
      CaptionLabels(ns[|ns| - 1], above, CaptionAll(ns[..|ns| - 1], before, Inside(above, chapter), chapter), chapter);
      LabelSum(PreorderAll(ns[..|ns| - 1], above), Preorder(ns[|ns| - 1], above), before, chapter);
    }
  }

  /** Visit `k` is the last to the chapter with a label of its own. */
  ghost predicate LastNamed(vs: seq<Visit>, chapter: string, k: nat) {
    && k < |vs| && Entered(vs[k], chapter) && vs[k].node.caption != ""
    && forall j :: k < j < |vs| && Entered(vs[j], chapter) ==> vs[j].node.caption == ""
  }

  ghost predicate SomeEntered(vs: seq<Visit>, chapter: string) {
    exists k :: 0 <= k < |vs| && Entered(vs[k], chapter)
  }

  /** It is the last label of the chapter, stripped; where it has none, the one given, which is
      stripped too if the chapter is there at all. */
  ghost predicate IsLabel(vs: seq<Visit>, before: string, chapter: string, text: string) {
    && (forall k: nat :: LastNamed(vs, chapter, k) ==> text == Strip(vs[k].node.caption))
    && ((forall k: nat :: !LastNamed(vs, chapter, k)) ==> text == if SomeEntered(vs, chapter) then Strip(before) else before)
  }

  lemma {:induction false} LabelMeans(vs: seq<Visit>, before: string, chapter: string)
    ensures IsLabel(vs, before, chapter, Label(vs, before, chapter))
  {
    hide IsChapter, Shielded, Strip;
    if vs != [] {
      var front, v := vs[..|vs| - 1], vs[|vs| - 1];
      LabelMeans(front, before, chapter);
      if Entered(v, chapter) {
        StripTwice(before);
        forall k: nat | LastNamed(front, chapter, k) {
          StripTwice(front[k].node.caption);
        }
        assert SomeEntered(vs, chapter);
      }
      if Entered(v, chapter) && v.node.caption != "" {
        assert LastNamed(vs, chapter, |front|);
      } else {
        LastNamedStays(front, v, chapter);
        assert vs == front + [v];
      }
    }
  }

  lemma LastNamedStays(front: seq<Visit>, v: Visit, chapter: string)
    requires !Entered(v, chapter) || v.node.caption == ""
    ensures forall k: nat :: LastNamed(front + [v], chapter, k) <==> LastNamed(front, chapter, k)
    ensures forall k: nat :: LastNamed(front, chapter, k) ==> (front + [v])[k] == front[k]
    ensures SomeEntered(front + [v], chapter) <==> SomeEntered(front, chapter) || Entered(v, chapter)
  {
    hide Entered;
    var vs := front + [v];
    assert vs[|front|] == v && forall k :: 0 <= k < |front| ==> vs[k] == front[k];
    if SomeEntered(front, chapter) {
      var k :| 0 <= k < |front| && Entered(front[k], chapter);
      assert Entered(vs[k], chapter);
    }
  }

  class Walker {
    const chapter: string
    var caption: string
    var parts: seq<Entry>

    constructor (chapter: string, caption: string)
      ensures this.chapter == chapter && this.caption == caption && parts == []
    {
      this.chapter, this.caption, parts := chapter, caption, [];
    }

    method Visit(n: Node, path: seq<string>, inside0: bool)
      modifies this
      ensures parts == old(parts) + Walk(n, path, inside0, chapter)
      ensures caption == Caption(n, old(caption), inside0, chapter)
      decreases n
    {
      hide EntryOf, Below, Strip, IsChapter;
      var inside := inside0;
      if IsChapter(n, chapter) {
        inside := true;
        caption := Strip(if n.caption != [] then n.caption else caption);
      }
      if n.kind.PartNode? && inside {
        if !n.reserved && AllDigits(n.ident) {
          parts := parts + [EntryOf(n, path)];
        }
        return;
      }
      ghost var before, start := parts, caption;
      for k := 0 to |n.children|
        invariant parts == before + WalkAll(n.children[..k], Below(path, n), inside, chapter)
        invariant caption == CaptionAll(n.children[..k], start, inside, chapter)
      {
        assert n.children[..k + 1][..k] == n.children[..k];
        Visit(n.children[k], Below(path, n), inside);
      }
      assert n.children[..|n.children|] == n.children;
    }
  }

  /** None stands for the error that is raised when there is nothing to list. */
  method ListChapterParts(root: Node, chapter: string, caption: string) returns (r: Option<(string, seq<Entry>)>)
    ensures var parts := Listed(Preorder(root, []), chapter);
      r == if parts == [] then None else Some((Caption(root, caption, false, chapter), parts))
    ensures r.Some? ==> IsLabel(Preorder(root, []), caption, chapter, r.value.0)
  {
    hide IsLabel;
    var w := new Walker(chapter, caption);
    w.Visit(root, [], false);
    assert PathOf([]) == [] && !Inside([], chapter);
    WalkLists(root, [], chapter);
    assert w.parts == [] + Walk(root, [], false, chapter);
    assert w.parts == Listed(Preorder(root, []), chapter);
    assert w.caption == Caption(root, caption, false, chapter);
    CaptionLabels(root, [], caption, chapter);
    LabelMeans(Preorder(root, []), caption, chapter);
    r := if w.parts == [] then None else Some((w.caption, w.parts));
  }

  // ---------------------------------------------------------------------------
  // The urls read back
  // ---------------------------------------------------------------------------

  predicate PlainIdent(s: string) {
    Without(s, '/') && Without(s, '\n')
  }

  predicate PlainNodes(ns: seq<Node>) {
    forall i :: 0 <= i < |ns| ==> PlainIdent(ns[i].ident)
  }

  /** A path segment: a type's prefix and an identifier. */
  predicate IsStep(seg: string, t: NodeType) {
    OnPath(t) && StartsWith(seg, Prefix(t)) && PlainIdent(seg)
  }

  ghost predicate IsSomeStep(seg: string) {
    exists t :: IsStep(seg, t)
  }

  lemma StepIs(n: Node)
    requires OnPath(n.kind) && PlainIdent(n.ident)
    ensures IsStep(Prefix(n.kind) + n.ident, n.kind)
  {
  }

  lemma {:induction false} StepsOnly(above: seq<Node>)
    requires PlainNodes(above)
    ensures forall i :: 0 <= i < |PathOf(above)| ==> IsSomeStep(PathOf(above)[i])
    ensures above != [] && OnPath(above[0].kind) ==>
      PathOf(above) != [] && PathOf(above)[0] == Prefix(above[0].kind) + above[0].ident
  {
    if above != [] {
      var front, n := above[..|above| - 1], above[|above| - 1];
      StepsOnly(front);
      if OnPath(n.kind) {
        StepIs(n);
        assert IsSomeStep(Prefix(n.kind) + n.ident);
      }
      if |above| == 1 {
        assert front == [];
      }
    }
  }

  lemma OtherStart(u: string, p: string, q: string, k: nat)
    requires StartsWith(u, p) && k < |p| && k < |q| && p[k] != q[k]
    ensures !StartsWith(u, q)
  {
  }

  lemma NotAPart(seg: string)
    requires IsSomeStep(seg)
    ensures !Keyed(seg, Prefix(PartNode), Digits) && !Keyed(seg, SUBPART, Letters)
  {
    var t :| IsStep(seg, t);
    OtherStart(seg, Prefix(t), Prefix(PartNode), 0);
    if t.Title? || t.Chapter? {
      OtherStart(seg, Prefix(t), SUBPART, 0);
    } else {
      OtherStart(seg, Prefix(t), SUBPART, 3);
    }
  }

  const ROOT: seq<string> := ["https:", "", "www.ecfr.gov", "current"]

  lemma TwoJoined(sep: char, a: string, b: string, parts: seq<string>)
    requires parts != []
    ensures JoinWith([sep], [a, b] + parts) == ((a + [sep]) + (b + [sep])) + JoinWith([sep], parts)
  {
  }

  lemma Regrouped(a: string, b: string, rest: string)
    ensures a + (b + rest) == (a + b) + rest
  {
  }

  lemma FourJoined(sep: char, a: string, b: string, c: string, d: string, parts: seq<string>)
    requires parts != []
    ensures JoinWith([sep], [a, b, c, d] + parts)
         == (((a + [sep]) + (b + [sep])) + ((c + [sep]) + (d + [sep]))) + JoinWith([sep], parts)
  {
    TwoJoined(sep, c, d, parts);
    TwoJoined(sep, a, b, [c, d] + parts);
    assert [a, b, c, d] + parts == [a, b] + ([c, d] + parts);
    Regrouped((a + [sep]) + (b + [sep]), (c + [sep]) + (d + [sep]), JoinWith([sep], parts));
  }

  lemma BaseIs()
    ensures BASE == (("https:" + ['/']) + ("" + ['/'])) + (("www.ecfr.gov" + ['/']) + ("current" + ['/']))
  {
  }

  lemma JoinedRoot(parts: seq<string>)
    requires parts != []
    ensures BASE + JoinWith(['/'], parts) == JoinWith(['/'], ROOT + parts)
  {
    BaseIs();
    FourJoined('/', "https:", "", "www.ecfr.gov", "current", parts);
  }

  lemma {:induction false} JoinedWithout(parts: seq<string>, sep: char, c: char)
    requires c != sep && forall i :: 0 <= i < |parts| ==> Without(parts[i], c)
    ensures Without(JoinWith([sep], parts), c)
  {
    if |parts| > 1 {
      JoinedWithout(parts[1..], sep, c);
    }
  }

  lemma {:induction false} ContainsAt(u: string, p: string, i: nat)
    requires i + |p| <= |u| && u[i..i + |p|] == p
    ensures Contains(u, p)
  {
    if i > 0 {
      assert u[1..][i - 1..i - 1 + |p|] == u[i..i + |p|];
      ContainsAt(u[1..], p, i - 1);
    }
  }

  lemma OnEcfr(rest: string)
    ensures Contains(BASE + rest, "ecfr.gov")
  {
    var u := BASE + rest;
    assert BASE[12..20] == "ecfr.gov";
    assert u[12..20] == BASE[12..20];
    ContainsAt(u, "ecfr.gov", 12);
  }

  /** A segment that no search key starts. */
  predicate Unkeyed(seg: string) {
    !StartsWith(seg, Prefix(Title)) && !StartsWith(seg, Prefix(PartNode)) && !StartsWith(seg, SUBPART)
  }

  lemma RootUnkeyed(k: nat)
    requires k < |ROOT|
    ensures PlainIdent(ROOT[k]) && Unkeyed(ROOT[k])
  {
    var seg := ROOT[k];
    if seg != "" {
      assert seg[..|seg|] == seg;
      OtherStart(seg, seg, Prefix(Title), 0);
      OtherStart(seg, seg, Prefix(PartNode), 0);
      OtherStart(seg, seg, SUBPART, 0);
    }
  }

  const SUBPART := "subpart-"

  lemma PrefixKeyed(key: string, digits: string)
    requires AllDigits(digits)
    ensures Keyed(key + digits, key, Digits) && (key + digits)[|key|..] == digits
  {
  }

  /** The last segment of a rebuilt url. */
  lemma LastStep(part: string)
    requires AllDigits(part)
    ensures var last := Prefix(PartNode) + part;
      PlainIdent(last) && Keyed(last, Prefix(PartNode), Digits) && !Keyed(last, SUBPART, Letters)
      && last[|Prefix(PartNode)|..] == part
  {
    var p := Prefix(PartNode);
    PrefixKeyed(p, part);
    WithoutSum(p, part, '/');
    WithoutSum(p, part, '\n');
    assert StartsWith(p + part, p);
    OtherStart(p + part, p, SUBPART, 0);
  }

  /** The segments of a rebuilt url, all but the first. */
  ghost predicate Rebuilt(segs: seq<string>, root: nat, path: seq<string>, last: string) {
    && |segs| == root + |path| + 1 && segs[|segs| - 1] == last
    && (forall i :: 0 <= i < root ==> Unkeyed(segs[i]))
    && (forall i :: 0 <= i < |path| ==> segs[root + i] == path[i] && IsSomeStep(path[i]))
  }

  lemma PartAndSubpart(segs: seq<string>, root: nat, path: seq<string>, part: string)
    requires AllDigits(part) && Rebuilt(segs, root, path, Prefix(PartNode) + part)
    ensures FirstKeyed(segs, Prefix(PartNode), Digits) == Some(part)
    ensures FirstKeyed(segs, SUBPART, Letters).None?
  {
    LastStep(part);
    forall i | 0 <= i < |segs| - 1
      ensures !Keyed(segs[i], Prefix(PartNode), Digits) && !Keyed(segs[i], SUBPART, Letters)
    {
      if i >= root {
        assert segs[i] == path[i - root];
        NotAPart(path[i - root]);
      }
    }
    FirstKeyedAt(segs, Prefix(PartNode), Digits, |segs| - 1);
    FirstKeyedAt(segs, SUBPART, Letters, |segs|);
  }

  lemma TitleFirst(segs: seq<string>, root: nat, path: seq<string>, last: string, title: string)
    requires AllDigits(title) && Rebuilt(segs, root, path, last) && path != [] && path[0] == Prefix(Title) + title
    ensures FirstKeyed(segs, Prefix(Title), Digits) == Some(title)
  {
    PrefixKeyed(Prefix(Title), title);
    assert segs[root + 0] == path[0];
    FirstKeyedAt(segs, Prefix(Title), Digits, root);
  }

  /** What the rebuilt url splits into. */
  lemma UrlSegments(path: seq<string>, last: string) returns (segs: seq<string>)
    requires (forall i :: 0 <= i < |path| ==> IsSomeStep(path[i])) && PlainIdent(last)
    ensures var u := BASE + JoinWith(['/'], path + [last]);
      SplitOn('/', u)[1..] == segs && Without(u, '\n') && Rebuilt(segs, |ROOT| - 1, path, last)
  {
    var tail := path + [last];
    var all := ROOT + tail;
    JoinedRoot(tail);
    forall i | 0 <= i < |all|
      ensures PlainIdent(all[i])
    {
      if i < |ROOT| {
        RootUnkeyed(i);
      } else if i < |all| - 1 {
        assert all[i] == path[i - |ROOT|];
      }
    }
    SplitJoined('/', all);
    JoinedWithout(all, '/', '\n');
    segs := all[1..];
    forall i | 0 <= i < |ROOT| - 1
      ensures Unkeyed(segs[i])
    {
      RootUnkeyed(i + 1);
      assert segs[i] == ROOT[i + 1];
    }
    assert forall i :: 0 <= i < |path| ==> segs[|ROOT| - 1 + i] == path[i];
  }

  /** What the searches find in a rebuilt url. */
  lemma UrlSearched(path: seq<string>, title: string, part: string)
    requires AllDigits(title) && AllDigits(part) && path != [] && path[0] == Prefix(Title) + title
    requires forall i :: 0 <= i < |path| ==> IsSomeStep(path[i])
    ensures var u := BASE + JoinWith(['/'], path + [Prefix(PartNode) + part]);
      && Search(u, Prefix(Title), Digits) == Some(title)
      && Search(u, Prefix(PartNode), Digits) == Some(part)
      && Search(u, SUBPART, Letters).None?
  {
    LastStep(part);
    var last := Prefix(PartNode) + part;
    var u := BASE + JoinWith(['/'], path + [last]);
    var segs := UrlSegments(path, last);
    PartAndSubpart(segs, |ROOT| - 1, path, part);
    TitleFirst(segs, |ROOT| - 1, path, last, title);
    KeysSearched(u, segs);
  }

  lemma KeysSearched(u: string, segs: seq<string>)
    requires SplitOn('/', u)[1..] == segs && Without(u, '\n')
    ensures Search(u, Prefix(Title), Digits) == FirstKeyed(segs, Prefix(Title), Digits)
    ensures Search(u, Prefix(PartNode), Digits) == FirstKeyed(segs, Prefix(PartNode), Digits)
    ensures Search(u, SUBPART, Letters) == FirstKeyed(segs, SUBPART, Letters)
  {
    SearchIsBySegment(u, Prefix(Title), Digits);
    SearchIsBySegment(u, Prefix(PartNode), Digits);
    SearchIsBySegment(u, SUBPART, Letters);
  }

  /** The segments for the nodes on the way: one each for titles, subtitles, chapters and
      subchapters. */
  function StepTexts(above: seq<Node>): seq<string> {
    if above == [] then [] else
    var n := above[|above| - 1];
    StepTexts(above[..|above| - 1]) +
      match n.kind
      case Title => ["title-" + n.ident]
      case Subtitle => ["subtitle-" + n.ident]
      case Chapter => ["chapter-" + n.ident]
      case Subchapter => ["subchapter-" + n.ident]
      case PartNode => []
      case OtherNode => []
  }

  lemma {:induction false} PathTexts(above: seq<Node>)
    ensures PathOf(above) == StepTexts(above)
  {
    if above != [] {
      PathTexts(above[..|above| - 1]);
    }
  }

  /** The url of a part is the way to it, segment by segment. */
  lemma UrlSpelled(v: Visit, chapter: string)
    requires IsListed(v, chapter) && PlainNodes(v.above)
    ensures SplitOn('/', EntryOf(v.node, PathOf(v.above)).url) ==
      ["https:", "", "www.ecfr.gov", "current"] + StepTexts(v.above) + ["part-" + v.node.ident]
  {
    hide Inside, Shielded;
    var path, last := PathOf(v.above), Prefix(PartNode) + v.node.ident;
    PathTexts(v.above);
    StepsOnly(v.above);
    LastStep(v.node.ident);
    JoinedRoot(path + [last]);
    var all := ROOT + (path + [last]);
    forall i | 0 <= i < |all|
      ensures Without(all[i], '/')
    {
      if i < |ROOT| {
        RootUnkeyed(i);
      } else if i < |all| - 1 {
        assert all[i] == path[i - |ROOT|];
      }
    }
    SplitJoined('/', all);
    assert all == ["https:", "", "www.ecfr.gov", "current"] + StepTexts(v.above) + ["part-" + v.node.ident];
  }

  /** The rebuilt url of a listed part names its title and its part, and is no chapter url. */
  lemma UrlReadBack(v: Visit, chapter: string)
    requires IsListed(v, chapter) && PlainNodes(v.above)
    requires v.above[0].kind.Title? && AllDigits(v.above[0].ident)
    ensures var e := EntryOf(v.node, PathOf(v.above));
      && ParsePart(e.url) == Some(PartUrl(NatOf(v.above[0].ident), e.part, None))
      && ParseChapter(e.url).None?
  {
    var path := PathOf(v.above);
    StepsOnly(v.above);
    UrlSearched(path, v.above[0].ident, v.node.ident);
    OnEcfr(JoinWith(['/'], path + ["part-" + v.node.ident]));
  }

  // ---------------------------------------------------------------------------
  // For the repair
  // ---------------------------------------------------------------------------

  predicate PlainTree(n: Node) {
    PlainIdent(n.ident) && forall i :: 0 <= i < |n.children| ==> PlainTree(n.children[i])
  }

  lemma {:induction false} PlainAbove(n: Node, above: seq<Node>, v: Visit)
    requires PlainTree(n) && PlainNodes(above) && v in Preorder(n, above)
    ensures PlainNodes(v.above) && above <= v.above && (v.above == above ==> v.node == n)
    decreases n
  {
    if v in PreorderAll(n.children, above + [n]) {
      PlainAboveAll(n.children, above + [n], v);
    }
  }

  lemma {:induction false} PlainAboveAll(ns: seq<Node>, above: seq<Node>, v: Visit)
    requires (forall i :: 0 <= i < |ns| ==> PlainTree(ns[i])) && PlainNodes(above) && v in PreorderAll(ns, above)
    ensures PlainNodes(v.above) && above <= v.above
    decreases ns
  {
    if v in PreorderAll(ns[..|ns| - 1], above) {
      PlainAboveAll(ns[..|ns| - 1], above, v);
    } else {
      PlainAbove(ns[|ns| - 1], above, v);
    }
  }

  lemma {:induction false} ListedFrom(vs: seq<Visit>, chapter: string, e: Entry) returns (v: Visit)
    requires e in Listed(vs, chapter)
    ensures v in vs && IsListed(v, chapter) && e == EntryOf(v.node, PathOf(v.above))
  {
    if e in Listed(vs[..|vs| - 1], chapter) {
      v := ListedFrom(vs[..|vs| - 1], chapter, e);
    } else {
      v := vs[|vs| - 1];
    }
  }

  /** Every url that is listed for a title reads back as a part of that title, and never as a
      chapter. */
  lemma ListedReadBack(root: Node, chapter: string, e: Entry)
    requires root.kind.Title? && AllDigits(root.ident) && PlainTree(root)
    requires e in Listed(Preorder(root, []), chapter)
    ensures ParsePart(e.url) == Some(PartUrl(NatOf(root.ident), e.part, None))
    ensures ParseChapter(e.url).None?
  {
    var v := ListedFrom(Preorder(root, []), chapter, e);
    PlainAbove(root, [], v);
    RootIsFirst(root, v);
    UrlReadBack(v, chapter);
  }

  lemma RootIsFirst(root: Node, v: Visit)
    requires v in Preorder(root, []) && v.above != [] && PlainTree(root)
    ensures v.above[0] == root
  {
    assert [] + [root] == [root];
    assert v in PreorderAll(root.children, [root]);
    PlainAboveAll(root.children, [root], v);
  }

  /** The repair with the two parsers for its tests, and parts that come from the walk: a
      run never splits what a split has made. */
  lemma WalkedPartsAreParts(cfg: ChapterRepair.Config, a: ChapterRepair.Answers, root: Node, chapter: string)
    requires root.kind.Title? && AllDigits(root.ident) && PlainTree(root)
    requires forall url :: cfg.isChapter(url) <==> ParseChapter(url).Some?
    requires a.fetch.Parts? ==> forall p :: p in a.fetch.parts ==>
      exists e :: e in Listed(Preorder(root, []), chapter) && e.url == p.url
    ensures ChapterFacts.PartsAreParts(cfg, a)
  {
    if a.fetch.Parts? {
      forall p | p in a.fetch.parts
        ensures !cfg.isChapter(p.url)
      {
        var e :| e in Listed(Preorder(root, []), chapter) && e.url == p.url;
        ListedReadBack(root, chapter, e);
      }
    }
  }
}
