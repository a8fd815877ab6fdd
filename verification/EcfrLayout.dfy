/**
 The layout of `xml_to_text`: one line a block, and a blank line exactly where a heading stands next
 to another block.
 */
module EcfrLayout {
  import opened Texts
  import opened EcfrText
  import opened EcfrLines

  datatype Mark = Mark(text: string, heading: bool)

  function MarkOf(text: string, heading: bool): seq<Mark> {
    if text != [] then [Mark(text, heading)] else []
  }

  /** The blocks in document order, each with whether it is a heading. */
  function Marks(x: Xml): seq<Mark>
    decreases x
  {
    if x.Txt? then []
    else if x.tag.Row? then MarkOf(JoinWith(" | ", PlainCells(x.content)), false)
    else if x.tag.Head? || x.tag.Heading? then MarkOf(Plain(x), true)
    else if x.tag.Block? then MarkOf(Plain(x), false)
    else MarksAll(x.content)
  }

  function MarksAll(xs: seq<Xml>): seq<Mark>
    decreases xs
  {
    if xs == [] then [] else MarksAll(xs[..|xs| - 1]) + Marks(xs[|xs| - 1])
  }

  /** The lines of the blocks, with a blank one between two of which one is a heading. */
  function Layout(ms: seq<Mark>): seq<string> {
    if ms == [] then [] else
    var front, last := ms[..|ms| - 1], ms[|ms| - 1];
    var gap := if front != [] && (front[|front| - 1].heading || last.heading) then [[]] else [];
    Layout(front) + gap + [last.text]
  }

  // ---------------------------------------------------------------------------
  // The lines before blank ones are collapsed
  // ---------------------------------------------------------------------------

  function Drawn(m: Mark): seq<string> {
    if m.heading then [[], m.text, []] else [m.text]
  }

  function DrawnAll(ms: seq<Mark>): seq<string> {
    if ms == [] then [] else DrawnAll(ms[..|ms| - 1]) + Drawn(ms[|ms| - 1])
  }

  lemma {:induction false} DrawnSum(a: seq<Mark>, b: seq<Mark>)
    ensures DrawnAll(a + b) == DrawnAll(a) + DrawnAll(b)
  {
    if b == [] {
      assert a + b == a;
    } else {
      assert (a + b)[..|a + b| - 1] == a + b[..|b| - 1];
      DrawnSum(a, b[..|b| - 1]);
    }
  }

  lemma OneDrawn(text: string, heading: bool)
    ensures DrawnAll(MarkOf(text, heading)) == if heading then EcfrText.Titled(text) else LineOf(text)
  {
    if text != [] {
      var m := Mark(text, heading);
      assert [m][..0] == [];
      assert DrawnAll([m]) == DrawnAll([]) + Drawn(m);
    }
  }

  lemma {:induction false} RenderDrawn(x: Xml)
    ensures Render(x) == DrawnAll(Marks(x))
    decreases x
  {
    if x.El? {
      if x.tag.Row? {
        CellsArePlain(x.content);
        OneDrawn(RowText(x.content), false);
      } else if Passes(x) {
        RenderAllDrawn(x.content);
      } else {
        ElTextIs(x);
        OneDrawn(Plain(x), !x.tag.Block?);
      }
    }
  }

  lemma {:induction false} RenderAllDrawn(xs: seq<Xml>)
    ensures RenderAll(xs) == DrawnAll(MarksAll(xs))
    decreases xs
  {
    if xs != [] {
      RenderAllDrawn(xs[..|xs| - 1]);
      RenderDrawn(xs[|xs| - 1]);
      DrawnSum(MarksAll(xs[..|xs| - 1]), Marks(xs[|xs| - 1]));
    }
  }

  // ---------------------------------------------------------------------------
  // And after
  // ---------------------------------------------------------------------------

  predicate Inked(ms: seq<Mark>) {
    forall k :: 0 <= k < |ms| ==> !EcfrText.IsBlank(ms[k].text)
  }

  function Lead(ms: seq<Mark>): seq<string> {
    if ms != [] && ms[0].heading then [[]] else []
  }

  function Trail(ms: seq<Mark>): seq<string> {
    if ms != [] && ms[|ms| - 1].heading then [[]] else []
  }

  lemma OneMoreLine(lines: seq<string>, line: string)
    ensures Collapsed(lines + [line]) ==
      if EcfrText.IsBlank(line) && lines != [] && EcfrText.IsBlank(lines[|lines| - 1]) then Collapsed(lines)
      else Collapsed(lines) + [line]
  {
    assert (lines + [line])[..|lines|] == lines;
  }

  lemma ThreeMore<T>(s: seq<T>, a: T, b: T, c: T)
    ensures s + [a, b, c] == s + [a] + [b] + [c]
  {
  }

  lemma EmptyIsBlank()
    ensures EcfrText.IsBlank([])
  {
  }

  lemma HeadingCollapsed(lines: seq<string>, text: string)
    requires !EcfrText.IsBlank(text)
    ensures var c := if lines != [] && EcfrText.IsBlank(lines[|lines| - 1]) then Collapsed(lines) else Collapsed(lines) + [[]];
      Collapsed(lines + [[], text, []]) == c + [text] + [[]]
  {
    hide EcfrText.IsBlank, Collapsed;
    EmptyIsBlank();
    var a := lines + [[]];
    var b := a + [text];
    OneMoreLine(lines, []);
    OneMoreLine(a, text);
    OneMoreLine(b, []);
    ThreeMore(lines, [], text, []);
  }

  lemma {:induction false} DrawnEnd(ms: seq<Mark>)
    requires Inked(ms) && ms != []
    ensures DrawnAll(ms) != [] && (EcfrText.IsBlank(DrawnAll(ms)[|DrawnAll(ms)| - 1]) <==> ms[|ms| - 1].heading)
  {
  }

  lemma HeadingNext(front: seq<Mark>, last: Mark, c: seq<string>)
    requires front != [] && last.heading
    requires c == if front[|front| - 1].heading then Lead(front) + Layout(front) + Trail(front)
                  else Lead(front) + Layout(front) + Trail(front) + [[]]
    ensures var ms := front + [last];
      c + [last.text] + [[]] == Lead(ms) + Layout(ms) + Trail(ms)
  {
    hide Layout, Lead;
    LaidOut(front, last);
    Fenced(Lead(front), Layout(front), [], last.text);
  }

  lemma Fenced<T>(a: seq<T>, b: seq<T>, blank: T, text: T)
    ensures a + b + [blank] + [text] + [blank] == a + (b + [blank] + [text]) + [blank]
    ensures a + b + [] == a + b
  {
  }

  lemma BlockNext(front: seq<Mark>, last: Mark)
    requires front != [] && !last.heading
    ensures var ms := front + [last];
      Lead(front) + Layout(front) + Trail(front) + [last.text] == Lead(ms) + Layout(ms) + Trail(ms)
  {
    hide Layout, Lead;
    LaidOut(front, last);
  }

  lemma {:induction false} CollapsedDrawn(ms: seq<Mark>)
    requires Inked(ms)
    ensures Collapsed(DrawnAll(ms)) == Lead(ms) + Layout(ms) + Trail(ms)
  {
    hide EcfrText.IsBlank, Collapsed, Layout, Lead, Trail;
    if ms == [] {
      NothingLaidOut();
    } else {
      var front, last := ms[..|ms| - 1], ms[|ms| - 1];
      var lines := DrawnAll(front);
      CollapsedDrawn(front);
      assert ms == front + [last];
      if last.heading {
        HeadingCollapsed(lines, last.text);
      } else {
        OneMoreLine(lines, last.text);
      }
      if front == [] {
        NothingLaidOut();
        OneLaidOut(last);
        assert ms == [last];
      } else {
        DrawnEnd(front);
        if last.heading {
          HeadingNext(front, last, if front[|front| - 1].heading then Collapsed(lines) else Collapsed(lines) + [[]]);
        } else {
          BlockNext(front, last);
        }
      }
    }
  }

  lemma NothingLaidOut()
    ensures Collapsed([]) == [] && Lead([]) == [] && Layout([]) == [] && Trail([]) == []
  {
  }

  lemma OneLaidOut(m: Mark)
    ensures Lead([m]) + Layout([m]) + Trail([m]) == if m.heading then [[]] + [m.text] + [[]] else [m.text]
  {
    assert [m][..0] == [] && Layout([m]) == [m.text];
  }

  lemma LayoutNext(front: seq<Mark>, last: Mark)
    requires front != []
    ensures Layout(front + [last]) ==
      Layout(front) + (if front[|front| - 1].heading || last.heading then [[]] else []) + [last.text]
  {
    assert (front + [last])[..|front|] == front;
  }

  lemma LaidOut(front: seq<Mark>, last: Mark)
    requires front != []
    ensures var ms := front + [last];
      && Layout(ms) == Layout(front) + (if front[|front| - 1].heading || last.heading then [[]] else []) + [last.text]
      && Lead(ms) == Lead(front) && Trail(ms) == if last.heading then [[]] else []
  {
    hide Layout;
    LayoutNext(front, last);
  }

  lemma {:induction false} LayoutEnds(ms: seq<Mark>)
    requires ms != []
    ensures Layout(ms) != [] && Layout(ms)[0] == ms[0].text && Layout(ms)[|Layout(ms)| - 1] == ms[|ms| - 1].text
  {
    if |ms| > 1 {
      LayoutEnds(ms[..|ms| - 1]);
    }
  }

  lemma FrontCut(blank: bool, lines: seq<string>)
    requires lines != [] && lines[0] != []
    ensures FrontTrimmed((if blank then [[]] else []) + lines) == lines
  {
  }

  lemma BackCut(lines: seq<string>, blank: bool)
    requires lines != [] && lines[|lines| - 1] != []
    ensures BackTrimmed(lines + (if blank then [[]] else [])) == lines
  {
  }

  lemma TrimmedLayout(ms: seq<Mark>)
    requires forall k :: 0 <= k < |ms| ==> ms[k].text != []
    ensures Trimmed(Lead(ms) + Layout(ms) + Trail(ms)) == Layout(ms)
  {
    hide Layout, FrontTrimmed, BackTrimmed;
    if ms == [] {
      NothingTrimmed();
    } else {
      LayoutEnds(ms);
      var more := Layout(ms) + Trail(ms);
      assert more[0] == Layout(ms)[0];
      FrontCut(ms[0].heading, more);
      Associated(Lead(ms), Layout(ms), Trail(ms));
      BackCut(Layout(ms), ms[|ms| - 1].heading);
    }
  }

  lemma Associated<T>(a: seq<T>, b: seq<T>, c: seq<T>)
    ensures a + b + c == a + (b + c)
  {
  }

  lemma NothingTrimmed()
    ensures Trimmed(Lead([]) + Layout([]) + Trail([])) == Layout([])
  {
  }

  // ---------------------------------------------------------------------------
  // The text
  // ---------------------------------------------------------------------------

  lemma {:induction false} MarksAreBlocks(x: Xml)
    ensures |Marks(x)| == |Blocks(x)| && forall k :: 0 <= k < |Blocks(x)| ==> Marks(x)[k].text == Blocks(x)[k]
    decreases x
  {
    if Passes(x) {
      MarksAllAreBlocks(x.content);
    }
  }

  lemma {:induction false} MarksAllAreBlocks(xs: seq<Xml>)
    ensures |MarksAll(xs)| == |BlocksAll(xs)|
    ensures forall k :: 0 <= k < |BlocksAll(xs)| ==> MarksAll(xs)[k].text == BlocksAll(xs)[k]
    decreases xs
  {
    if xs != [] {
      MarksAllAreBlocks(xs[..|xs| - 1]);
      MarksAreBlocks(xs[|xs| - 1]);
    }
  }

  lemma {:induction false} NonBlankClean(lines: seq<string>)
    requires AllClean(lines)
    ensures forall k :: 0 <= k < |NonBlank(lines)| ==> NonBlank(lines)[k] != [] && Clean(NonBlank(lines)[k])
  {
    if lines != [] {
      NonBlankClean(lines[..|lines| - 1]);
    }
  }

  /** The text of an element is its blocks, one a line, with one blank line between two of them exactly
      where one is a heading. */
  lemma TextIsLayout(x: Xml)
    ensures XmlText(x) == JoinWith("\n", Layout(Marks(x)))
  {
    hide Render, Marks, Blocks, XmlText, Layout;
    var ms := Marks(x);
    TextLines(x);
    RenderDrawn(x);
    MarksAreBlocks(x);
    RenderedBlocks(x);
    NonBlankClean(Render(x));
    forall k | 0 <= k < |ms|
      ensures ms[k].text != [] && !EcfrText.IsBlank(ms[k].text)
    {
      assert ms[k].text == Blocks(x)[k];
      CleanBlank(Blocks(x)[k]);
    }
    CollapsedDrawn(ms);
    TrimmedLayout(ms);
  }
}
