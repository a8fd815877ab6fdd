/** `extract_text`: a part as its subparts and its appendices. */
module EcfrExtracts {
  import opened Wrappers
  import opened Texts
  import opened EcfrText
  import opened EcfrLines

  /** `el.iter(tag)`, for one or more tags: the element itself and all below it, in document
      order. */
  function Iter(x: Xml, tags: set<Tag>): seq<Xml>
    decreases x
  {
    if x.Txt? then []
    else (if x.tag in tags then [x] else []) + IterAll(x.content, tags)
  }

  function IterAll(xs: seq<Xml>, tags: set<Tag>): seq<Xml>
    decreases xs
  {
    if xs == [] then [] else IterAll(xs[..|xs| - 1], tags) + Iter(xs[|xs| - 1], tags)
  }

  function FirstHead(xs: seq<Xml>): string {
    if xs == [] then [] else if xs[0].El? && xs[0].tag.Head? then ElText(xs[0]) else FirstHead(xs[1..])
  }

  /** `division_heading`. */
  function HeadingOf(x: Xml): string
    requires x.El?
  {
    FirstHead(x.content)
  }

  /** The heading is the text of the first child that is a head, and empty where there is none. */
  lemma {:induction false} FirstHeadIs(xs: seq<Xml>, k: nat)
    requires k <= |xs| && forall i :: 0 <= i < k ==> xs[i].Txt? || !xs[i].tag.Head?
    requires k < |xs| ==> xs[k].El? && xs[k].tag.Head?
    ensures FirstHead(xs) == if k < |xs| then Plain(xs[k]) else []
  {
    if k > 0 {
      FirstHeadIs(xs[1..], k - 1);
    } else if xs != [] {
      ElTextIs(xs[0]);
    }
  }

  function XmlTexts(divs: seq<Xml>): seq<string> {
    seq(|divs|, i requires 0 <= i < |divs| => XmlText(divs[i]))
  }

  function NonEmpty(texts: seq<string>): seq<string> {
    if texts == [] then [] else
    var last := texts[|texts| - 1];
    NonEmpty(texts[..|texts| - 1]) + (if last == [] then [] else [last])
  }

  function WithLetter(divs: seq<Xml>, letter: string): Option<Xml> {
    if divs == [] then None
    else if divs[0].El? && divs[0].n == letter then Some(divs[0])
    else WithLetter(divs[1..], letter)
  }

  datatype Selection = WholePart | Appendices | Subpart(letter: string)

  const GAP := "\n\n\n"

  /** `extract_text`; None stands for its errors. */
  function Extract(root: Xml, select: Selection): Option<string>
    requires root.El?
  {
    match select
    case WholePart => Some(XmlText(root))
    case Appendices =>
      var parts := NonEmpty(XmlTexts(Iter(root, {Div9})));
      if parts == [] then None else Some(JoinWith(GAP, LineOf(HeadingOf(root)) + parts))
    case Subpart(letter) =>
      match WithLetter(Iter(root, {Div6}), letter)
      case Some(div) => Some(XmlText(div))
      case None => None
  }

  // ---------------------------------------------------------------------------
  // Blocks and lines of a list of divisions
  // ---------------------------------------------------------------------------

  function Flatten(xss: seq<seq<string>>): seq<string> {
    if xss == [] then [] else Flatten(xss[..|xss| - 1]) + xss[|xss| - 1]
  }

  lemma FlattenBack(xss: seq<seq<string>>, x: seq<string>)
    ensures Flatten(xss + [x]) == Flatten(xss) + x
  {
  }

  lemma {:induction false} FlattenSum(a: seq<seq<string>>, b: seq<seq<string>>)
    ensures Flatten(a + b) == Flatten(a) + Flatten(b)
  {
    if b == [] {
      assert a + b == a;
    } else {
      assert (a + b)[..|a + b| - 1] == a + b[..|b| - 1];
      FlattenSum(a, b[..|b| - 1]);
    }
  }

  function BlocksEach(divs: seq<Xml>): seq<seq<string>> {
    seq(|divs|, i requires 0 <= i < |divs| => Blocks(divs[i]))
  }

  /** The blocks of a list of divisions, one after the other. */
  function BlocksOf(divs: seq<Xml>): seq<string> {
    Flatten(BlocksEach(divs))
  }

  lemma BlocksOfSum(a: seq<Xml>, b: seq<Xml>)
    ensures BlocksOf(a + b) == BlocksOf(a) + BlocksOf(b)
  {
    assert BlocksEach(a + b) == BlocksEach(a) + BlocksEach(b);
    FlattenSum(BlocksEach(a), BlocksEach(b));
  }

  lemma BlocksOfOne(x: Xml)
    ensures BlocksOf([x]) == Blocks(x)
  {
    assert BlocksEach([x]) == [] + [Blocks(x)];
    FlattenBack([], Blocks(x));
  }

  function LinesEach(texts: seq<string>): seq<seq<string>> {
    seq(|texts|, i requires 0 <= i < |texts| => NonBlank(Lines(texts[i])))
  }

  /** The non-blank lines of a list of texts, one after the other. */
  function LinesOf(texts: seq<string>): seq<string> {
    Flatten(LinesEach(texts))
  }

  lemma LinesOfSum(a: seq<string>, b: seq<string>)
    ensures LinesOf(a + b) == LinesOf(a) + LinesOf(b)
  {
    assert LinesEach(a + b) == LinesEach(a) + LinesEach(b);
    FlattenSum(LinesEach(a), LinesEach(b));
  }

  lemma LinesOfOne(text: string)
    ensures LinesOf([text]) == NonBlank(Lines(text))
  {
  }

  lemma {:induction false} NonEmptyLines(texts: seq<string>, blocks: seq<seq<string>>)
    requires LinesEach(texts) == blocks && forall i :: 0 <= i < |texts| ==> (texts[i] == [] <==> blocks[i] == [])
    ensures LinesOf(NonEmpty(texts)) == Flatten(blocks)
    ensures NonEmpty(texts) == [] <==> Flatten(blocks) == []
  {
    if texts != [] {
      var front, last := texts[..|texts| - 1], texts[|texts| - 1];
      assert LinesEach(front) == blocks[..|blocks| - 1];
      NonEmptyLines(front, blocks[..|blocks| - 1]);
      assert blocks[|texts| - 1] == NonBlank(Lines(last));
      if last == [] {
        assert NonEmpty(texts) == NonEmpty(front) + [] == NonEmpty(front);
        assert Flatten(blocks) == Flatten(blocks[..|blocks| - 1]) + [] == Flatten(blocks[..|blocks| - 1]);
      } else {
        LinesOfSum(NonEmpty(front), [last]);
        LinesOfOne(last);
      }
    }
  }

  lemma LinesOfTexts(divs: seq<Xml>)
    ensures LinesOf(NonEmpty(XmlTexts(divs))) == BlocksOf(divs)
    ensures NonEmpty(XmlTexts(divs)) == [] <==> BlocksOf(divs) == []
  {
    var texts, blocks := XmlTexts(divs), BlocksEach(divs);
    forall i | 0 <= i < |divs|
      ensures NonBlank(Lines(texts[i])) == blocks[i] && (texts[i] == [] <==> blocks[i] == [])
    {
      TextKeepsBlocks(divs[i]);
    }
    assert LinesEach(texts) == blocks;
    NonEmptyLines(texts, blocks);
  }

  lemma BlankFirst(b: string)
    ensures SplitOn('\n', ['\n'] + b) == [[]] + SplitOn('\n', b)
  {
  }

  lemma SplitGap(a: string, b: string)
    ensures SplitOn('\n', a + (GAP + b)) == SplitOn('\n', a) + ([[]] + ([[]] + SplitOn('\n', b)))
  {
    var one := ['\n'] + b;
    var two := ['\n'] + one;
    assert GAP + b == ['\n'] + two;
    SplitAtSep('\n', a, two);
    BlankFirst(one);
    BlankFirst(b);
  }

  lemma BlankPair(x: seq<string>, y: seq<string>)
    ensures NonBlank(x + ([[]] + ([[]] + y))) == NonBlank(x) + NonBlank(y)
  {
    NonBlankSum(x, [[]] + ([[]] + y));
    NonBlankSum([[]], [[]] + y);
    NonBlankSum([[]], y);
    NonBlankOne([]);
  }

  lemma GapLines(a: string, b: string)
    ensures NonBlank(Lines(a + (GAP + b))) == NonBlank(Lines(a)) + NonBlank(Lines(b))
  {
    SplitGap(a, b);
    BlankPair(SplitOn('\n', a), SplitOn('\n', b));
  }

  lemma {:induction false} JoinedLines(texts: seq<string>)
    requires texts != []
    ensures NonBlank(Lines(JoinWith(GAP, texts))) == LinesOf(texts)
  {
    assert texts == [texts[0]] + texts[1..];
    LinesOfOne(texts[0]);
    if |texts| > 1 {
      LinesOfSum([texts[0]], texts[1..]);
      JoinedLines(texts[1..]);
      GapLines(texts[0], JoinWith(GAP, texts[1..]));
    }
  }

  lemma {:induction false} FirstHeadClean(xs: seq<Xml>)
    ensures Clean(FirstHead(xs))
  {
    if xs != [] {
      ElTextClean(xs[0]);
      FirstHeadClean(xs[1..]);
    }
  }

  lemma OneLine(text: string)
    requires Clean(text)
    ensures NonBlank(Lines(text)) == LineOf(text)
  {
    SplitPast('\n', text, []);
    assert text + [] == text;
    NonBlankOne(text);
  }

  /** The appendices extract: the part's heading, then the blocks of every appendix in order;
      it fails exactly when there are none. */
  lemma AppendicesExtracted(root: Xml)
    requires root.El?
    ensures var r := Extract(root, Appendices);
      var blocks := BlocksOf(Iter(root, {Div9}));
      if blocks == [] then r.None? else r.Some? && NonBlank(Lines(r.value)) == LineOf(HeadingOf(root)) + blocks
  {
    var texts := NonEmpty(XmlTexts(Iter(root, {Div9})));
    var heading := HeadingOf(root);
    LinesOfTexts(Iter(root, {Div9}));
    FirstHeadClean(root.content);
    OneLine(heading);
    if texts != [] {
      JoinedLines(LineOf(heading) + texts);
      LinesOfSum(LineOf(heading), texts);
      if heading == [] {
        assert LinesEach([]) == [];
      } else {
        LinesOfOne(heading);
      }
    }
  }

  /** No two subparts have one letter. */
  ghost predicate OneEach(divs: seq<Xml>) {
    forall j, k :: 0 <= j < k < |divs| && divs[j].El? && divs[k].El? ==> divs[j].n != divs[k].n
  }

  lemma {:induction false} LetterFound(divs: seq<Xml>, k: nat)
    requires k < |divs| && divs[k].El? && OneEach(divs)
    ensures WithLetter(divs, divs[k].n) == Some(divs[k])
  {
    if k > 0 {
      LetterFound(divs[1..], k - 1);
    }
  }

  /** The extract of a subpart is that subpart: its blocks and nothing else. */
  lemma SubpartExtracted(root: Xml, k: nat)
    requires root.El? && OneEach(Iter(root, {Div6})) && k < |Iter(root, {Div6})|
    ensures var div := Iter(root, {Div6})[k];
      div.El? && var r := Extract(root, Subpart(div.n));
      r.Some? && NonBlank(Lines(r.value)) == Blocks(div)
  {
    IterElements(root, {Div6});
    LetterFound(Iter(root, {Div6}), k);
    TextKeepsBlocks(Iter(root, {Div6})[k]);
  }

  lemma {:induction false} IterElements(x: Xml, tags: set<Tag>)
    ensures forall k :: 0 <= k < |Iter(x, tags)| ==> Iter(x, tags)[k].El?
    decreases x
  {
    if x.El? {
      IterAllElements(x.content, tags);
    }
  }

  lemma {:induction false} IterAllElements(xs: seq<Xml>, tags: set<Tag>)
    ensures forall k :: 0 <= k < |IterAll(xs, tags)| ==> IterAll(xs, tags)[k].El?
    decreases xs
  {
    if xs != [] {
      IterAllElements(xs[..|xs| - 1], tags);
      IterElements(xs[|xs| - 1], tags);
    }
  }

  // ---------------------------------------------------------------------------
  // Extracts against the part
  // ---------------------------------------------------------------------------

  const DIVISIONS: set<Tag> := {Div6, Div9}

  /** The blocks of an element that are inside a subpart or an appendix, in document order. */
  function Inside(x: Xml): seq<string>
    decreases x
  {
    if x.Txt? then []
    else if x.tag in DIVISIONS then Blocks(x)
    else if Passes(x) then InsideAll(x.content)
    else []
  }

  function InsideAll(xs: seq<Xml>): seq<string>
    decreases xs
  {
    if xs == [] then [] else InsideAll(xs[..|xs| - 1]) + Inside(xs[|xs| - 1])
  }

  /** Divisions are not nested, and not inside a text block. */
  predicate Flat(x: Xml)
    decreases x
  {
    x.Txt? ||
    if x.tag in DIVISIONS || !Passes(x) then IterAll(x.content, DIVISIONS) == []
    else forall k :: 0 <= k < |x.content| ==> Flat(x.content[k])
  }

  /** What is inside the divisions is the blocks of each division, once, in order. */
  lemma {:induction false} InsideIsDivisions(x: Xml)
    requires Flat(x)
    ensures Inside(x) == BlocksOf(Iter(x, DIVISIONS))
    decreases x
  {
    if x.El? {
      if x.tag in DIVISIONS {
        assert Iter(x, DIVISIONS) == [x] + [] == [x];
        BlocksOfOne(x);
      } else if Passes(x) {
        InsideAllIsDivisions(x.content);
        assert Iter(x, DIVISIONS) == [] + IterAll(x.content, DIVISIONS) == IterAll(x.content, DIVISIONS);
      } else {
        assert Iter(x, DIVISIONS) == [];
      }
    }
  }

  lemma {:induction false} InsideAllIsDivisions(xs: seq<Xml>)
    requires forall k :: 0 <= k < |xs| ==> Flat(xs[k])
    ensures InsideAll(xs) == BlocksOf(IterAll(xs, DIVISIONS))
    decreases xs
  {
    if xs != [] {
      InsideAllIsDivisions(xs[..|xs| - 1]);
      InsideIsDivisions(xs[|xs| - 1]);
      BlocksOfSum(IterAll(xs[..|xs| - 1], DIVISIONS), Iter(xs[|xs| - 1], DIVISIONS));
    }
  }

  lemma SelfAndBelow(x: Xml, tags: set<Tag>)
    requires x.El?
    ensures BlocksOf(Iter(x, tags)) == (if x.tag in tags then Blocks(x) else []) + BlocksOf(IterAll(x.content, tags))
  {
    if x.tag in tags {
      BlocksOfSum([x], IterAll(x.content, tags));
      BlocksOfOne(x);
    } else {
      assert Iter(x, tags) == [] + IterAll(x.content, tags) == IterAll(x.content, tags);
    }
  }

  /** All divisions are the subparts and the appendices. */
  lemma {:induction false} SubpartsAndAppendices(x: Xml)
    ensures multiset(BlocksOf(Iter(x, DIVISIONS)))
         == multiset(BlocksOf(Iter(x, {Div6}))) + multiset(BlocksOf(Iter(x, {Div9})))
    decreases x
  {
    if x.El? {
      AllSubpartsAndAppendices(x.content);
      SelfAndBelow(x, DIVISIONS);
      SelfAndBelow(x, {Div6});
      SelfAndBelow(x, {Div9});
    }
  }

  lemma {:induction false} AllSubpartsAndAppendices(xs: seq<Xml>)
    ensures multiset(BlocksOf(IterAll(xs, DIVISIONS)))
         == multiset(BlocksOf(IterAll(xs, {Div6}))) + multiset(BlocksOf(IterAll(xs, {Div9})))
    decreases xs
  {
    if xs != [] {
      var front, last := xs[..|xs| - 1], xs[|xs| - 1];
      AllSubpartsAndAppendices(front);
      SubpartsAndAppendices(last);
      BlocksOfSum(IterAll(front, DIVISIONS), Iter(last, DIVISIONS));
      BlocksOfSum(IterAll(front, {Div6}), Iter(last, {Div6}));
      BlocksOfSum(IterAll(front, {Div9}), Iter(last, {Div9}));
    }
  }

  /** The blocks of an element that are in no subpart or appendix, in document order. */
  function Outside(x: Xml): seq<string>
    decreases x
  {
    if x.Txt? || x.tag in DIVISIONS then []
    else if Passes(x) then OutsideAll(x.content)
    else Blocks(x)
  }

  function OutsideAll(xs: seq<Xml>): seq<string>
    decreases xs
  {
    if xs == [] then [] else OutsideAll(xs[..|xs| - 1]) + Outside(xs[|xs| - 1])
  }

  lemma {:induction false} InsideAndOutside(x: Xml)
    ensures multiset(Blocks(x)) == multiset(Inside(x)) + multiset(Outside(x))
    decreases x
  {
    if Passes(x) && x.tag !in DIVISIONS {
      AllInsideAndOutside(x.content);
    }
  }

  lemma {:induction false} AllInsideAndOutside(xs: seq<Xml>)
    ensures multiset(BlocksAll(xs)) == multiset(InsideAll(xs)) + multiset(OutsideAll(xs))
    decreases xs
  {
    if xs != [] {
      AllInsideAndOutside(xs[..|xs| - 1]);
      InsideAndOutside(xs[|xs| - 1]);
    }
  }

  /** The non-blank lines of an extract, none when it fails. */
  function ExtractLines(root: Xml, select: Selection): seq<string>
    requires root.El?
  {
    var r := Extract(root, select);
    if r.Some? then NonBlank(Lines(r.value)) else []
  }

  function SubpartExtracts(root: Xml, divs: seq<Xml>): seq<seq<string>>
    requires root.El? && forall k :: 0 <= k < |divs| ==> divs[k].El?
  {
    seq(|divs|, k requires 0 <= k < |divs| => ExtractLines(root, Subpart(divs[k].n)))
  }

  /** The extracts of some subparts, by their letters, one after the other. */
  function SubpartLines(root: Xml, divs: seq<Xml>): seq<string>
    requires root.El? && forall k :: 0 <= k < |divs| ==> divs[k].El?
  {
    Flatten(SubpartExtracts(root, divs))
  }

  lemma SubpartsExtracted(root: Xml, divs: seq<Xml>)
    requires root.El? && divs == Iter(root, {Div6}) && OneEach(divs)
    ensures forall k :: 0 <= k < |divs| ==> divs[k].El?
    ensures SubpartLines(root, divs) == BlocksOf(divs)
  {
    IterElements(root, {Div6});
    forall k | 0 <= k < |divs|
      ensures ExtractLines(root, Subpart(divs[k].n)) == Blocks(divs[k])
    {
      SubpartExtracted(root, k);
    }
    assert SubpartExtracts(root, divs) == BlocksEach(divs);
  }

  lemma DivisionsExtracted(root: Xml)
    requires root.El? && Flat(root)
    ensures multiset(Inside(root))
         == multiset(BlocksOf(Iter(root, {Div6}))) + multiset(BlocksOf(Iter(root, {Div9})))
  {
    InsideIsDivisions(root);
    SubpartsAndAppendices(root);
  }

  /** The extracts together are the part: its lines are those of the subpart extracts, one for
      each letter, those of the appendices extract less the heading that it adds, and those in
      no division, each as often as it is there. */
  lemma ExtractsCoverThePart(root: Xml, divs: seq<Xml>)
    requires root.El? && Flat(root) && divs == Iter(root, {Div6}) && OneEach(divs)
    ensures forall k :: 0 <= k < |divs| ==> divs[k].El?
    ensures var added := if Extract(root, Appendices).Some? then LineOf(HeadingOf(root)) else [];
      multiset(ExtractLines(root, WholePart)) + multiset(added)
        == multiset(SubpartLines(root, divs)) + multiset(ExtractLines(root, Appendices)) + multiset(Outside(root))
  {
    TextKeepsBlocks(root);
    InsideAndOutside(root);
    DivisionsExtracted(root);
    SubpartsExtracted(root, divs);
    AppendicesExtracted(root);
  }
}
