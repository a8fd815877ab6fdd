/** What the rendering keeps: lines, blocks, and the extracts of a part. */
module EcfrLines {
  import opened Texts
  import opened EcfrText

  function NonBlank(lines: seq<string>): seq<string> {
    if lines == [] then [] else
    var last := lines[|lines| - 1];
    NonBlank(lines[..|lines| - 1]) + (if last == [] then [] else [last])
  }

  lemma {:induction false} NonBlankSum(a: seq<string>, b: seq<string>)
    ensures NonBlank(a + b) == NonBlank(a) + NonBlank(b)
  {
    if b == [] {
      assert a + b == a;
    } else {
      assert (a + b)[..|a + b| - 1] == a + b[..|b| - 1];
      NonBlankSum(a, b[..|b| - 1]);
    }
  }

  lemma NonBlankOne(line: string)
    ensures NonBlank([line]) == if line == [] then [] else [line]
  {
  }

  predicate AllClean(lines: seq<string>) {
    forall k :: 0 <= k < |lines| ==> Clean(lines[k])
  }

  lemma CleanBlank(line: string)
    requires Clean(line)
    ensures IsBlank(line) <==> line == []
  {
  }

  // ---------------------------------------------------------------------------
  // Rendering and blocks
  // ---------------------------------------------------------------------------

  lemma {:induction false} CellsClean(xs: seq<Xml>)
    ensures forall k :: 0 <= k < |Cells(xs)| ==> Cells(xs)[k] != [] && Clean(Cells(xs)[k])
  {
    if xs != [] {
      CellsClean(xs[..|xs| - 1]);
      ElTextClean(xs[|xs| - 1]);
    }
  }

  lemma RowClean(xs: seq<Xml>)
    ensures Clean(RowText(xs))
  {
    CellsClean(xs);
    JoinedClean(BAR, Cells(xs));
  }

  lemma TitledBlocks(text: string)
    ensures NonBlank(Titled(text)) == LineOf(text)
  {
    if text != [] {
      NonBlankSum([[]], [text]);
      NonBlankSum([[], text], [[]]);
      NonBlankOne([]);
      NonBlankOne(text);
      assert [[], text] + [[]] == [[], text, []] && [[]] + [text] == [[], text];
    }
  }

  lemma LineBlocks(text: string)
    ensures NonBlank(LineOf(text)) == LineOf(text)
  {
  }

  lemma TextRendered(x: Xml)
    requires x.El? && (x.tag.Head? || x.tag.Heading? || x.tag.Block?)
    ensures NonBlank(Render(x)) == Blocks(x) && AllClean(Render(x))
  {
    var text := ElText(x);
    ElTextIs(x);
    ElTextClean(x);
    TitledBlocks(text);
    LineBlocks(text);
  }

  lemma {:induction false} CellsArePlain(xs: seq<Xml>)
    ensures Cells(xs) == PlainCells(xs)
  {
    if xs != [] {
      CellsArePlain(xs[..|xs| - 1]);
      ElTextIs(xs[|xs| - 1]);
    }
  }

  lemma RowRendered(x: Xml)
    requires x.El? && x.tag.Row?
    ensures NonBlank(Render(x)) == Blocks(x) && AllClean(Render(x))
  {
    RowClean(x.content);
    CellsArePlain(x.content);
    LineBlocks(RowText(x.content));
  }

  predicate Passes(x: Xml) {
    x.El? && !x.tag.Row? && !x.tag.Head? && !x.tag.Heading? && !x.tag.Block?
  }

  /** The non-blank lines of a rendering are the blocks, in document order, and every line is
      clean. */
  lemma {:induction false} RenderedBlocks(x: Xml)
    ensures NonBlank(Render(x)) == Blocks(x) && AllClean(Render(x))
    decreases x
  {
    if Passes(x) {
      RenderedBlocksAll(x.content);
    } else if x.El? {
      if x.tag.Row? {
        RowRendered(x);
      } else {
        TextRendered(x);
      }
    }
  }

  lemma {:induction false} RenderedBlocksAll(xs: seq<Xml>)
    ensures NonBlank(RenderAll(xs)) == BlocksAll(xs) && AllClean(RenderAll(xs))
    decreases xs
  {
    if xs != [] {
      RenderedBlocksAll(xs[..|xs| - 1]);
      RenderedBlocks(xs[|xs| - 1]);
      NonBlankSum(RenderAll(xs[..|xs| - 1]), Render(xs[|xs| - 1]));
    }
  }

  // ---------------------------------------------------------------------------
  // Collapsing
  // ---------------------------------------------------------------------------

  /** No two blank lines in a row. */
  predicate Spaced(lines: seq<string>) {
    forall k :: 0 <= k < |lines| - 1 ==> lines[k] != [] || lines[k + 1] != []
  }

  lemma SpacedBy(c: seq<string>, last: string)
    requires AllClean(c) && Spaced(c) && Clean(last) && (c != [] && c[|c| - 1] == [] ==> last != [])
    ensures AllClean(c + [last]) && Spaced(c + [last])
  {
  }

  lemma NonBlankBy(c: seq<string>, last: string)
    ensures NonBlank(c + [last]) == NonBlank(c) + (if last == [] then [] else [last])
  {
  }

  lemma {:induction false} CollapsedIs(lines: seq<string>)
    requires AllClean(lines)
    ensures var c := Collapsed(lines);
      && AllClean(c) && Spaced(c) && NonBlank(c) == NonBlank(lines)
      && (lines != [] ==> c != [] && (c[|c| - 1] == [] <==> lines[|lines| - 1] == []))
  {
    if lines != [] {
      var front, last := lines[..|lines| - 1], lines[|lines| - 1];
      CollapsedIs(front);
      CleanBlank(last);
      if front != [] {
        CleanBlank(front[|front| - 1]);
      }
      if !(IsBlank(last) && front != [] && IsBlank(front[|front| - 1])) {
        SpacedBy(Collapsed(front), last);
        NonBlankBy(Collapsed(front), last);
      }
    }
  }

  // ---------------------------------------------------------------------------
  // Stripping the joined text
  // ---------------------------------------------------------------------------

  function FrontTrimmed(lines: seq<string>): seq<string> {
    if lines != [] && lines[0] == [] then lines[1..] else lines
  }

  function BackTrimmed(lines: seq<string>): seq<string> {
    if lines != [] && lines[|lines| - 1] == [] then lines[..|lines| - 1] else lines
  }

  /** Lines without a blank first or last one. */
  function Trimmed(lines: seq<string>): seq<string> {
    BackTrimmed(FrontTrimmed(lines))
  }

  /** No blank line at either end. */
  predicate Bounded(lines: seq<string>) {
    lines != [] ==> lines[0] != [] && lines[|lines| - 1] != []
  }

  lemma FrontTrimmedIs(lines: seq<string>)
    requires AllClean(lines) && Spaced(lines)
    ensures var a := FrontTrimmed(lines);
      AllClean(a) && Spaced(a) && (a != [] ==> a[0] != []) && NonBlank(a) == NonBlank(lines)
  {
    if lines != [] && lines[0] == [] {
      assert lines == [[]] + lines[1..];
      NonBlankSum([[]], lines[1..]);
      NonBlankOne([]);
    }
  }

  lemma BackTrimmedIs(a: seq<string>)
    requires AllClean(a) && Spaced(a) && (a != [] ==> a[0] != [])
    ensures var t := BackTrimmed(a);
      AllClean(t) && Spaced(t) && Bounded(t) && NonBlank(t) == NonBlank(a)
  {
  }

  lemma TrimmedIs(lines: seq<string>)
    requires AllClean(lines) && Spaced(lines)
    ensures var t := Trimmed(lines);
      AllClean(t) && Spaced(t) && Bounded(t) && NonBlank(t) == NonBlank(lines)
  {
    FrontTrimmedIs(lines);
    BackTrimmedIs(FrontTrimmed(lines));
  }

  lemma {:induction false} JoinedBounds(lines: seq<string>)
    requires AllClean(lines) && Bounded(lines)
    ensures Tight(JoinWith(['\n'], lines))
    ensures lines != [] ==> JoinWith(['\n'], lines) != []
  {
    if |lines| > 1 {
      var front, last := lines[..|lines| - 1], lines[|lines| - 1];
      assert lines == front + [last];
      JoinedAfter('\n', front, last);
      var s := JoinWith(['\n'], lines);
      assert s[|s| - 1] == last[|last| - 1];
      assert s == lines[0] + (['\n'] + JoinWith(['\n'], lines[1..]));
      assert s[0] == lines[0][0];
    }
  }

  lemma StripFront(s: string)
    ensures Strip(['\n'] + s) == Strip(s)
  {
  }

  lemma {:induction false} StripBack(s: string)
    requires Tight(s)
    ensures Strip(s + ['\n']) == s
  {
    var t := s + ['\n'];
    assert t[..|s|] == s;
    if s == [] {
      assert t == ['\n'] && t[1..] == [];
      assert StripLeft(t) == StripLeft(t[1..]) == [];
    } else {
      assert t[0] == s[0];
      assert StripLeft(t) == t && t[..|t| - 1] == s && t[|t| - 1] == '\n';
      assert StripRight(t) == StripRight(s) == s;
    }
  }

  lemma StripBackJoined(a: seq<string>)
    requires AllClean(a) && Bounded(BackTrimmed(a))
    ensures Strip(JoinWith(['\n'], a)) == JoinWith(['\n'], BackTrimmed(a))
  {
    var b := BackTrimmed(a);
    if a != [] && a[|a| - 1] == [] {
      assert a == b + [[]];
      BackStripped(b);
    } else {
      JoinedBounds(b);
      NothingToStrip(JoinWith(['\n'], a));
    }
  }

  /** Stripping the joined lines is joining the trimmed ones. */
  lemma StripJoined(lines: seq<string>)
    requires AllClean(lines) && Spaced(lines)
    ensures Strip(JoinWith(['\n'], lines)) == JoinWith(['\n'], Trimmed(lines))
  {
    TrimmedIs(lines);
    FrontTrimmedIs(lines);
    StripBackJoined(FrontTrimmed(lines));
    if lines != [] && lines[0] == [] {
      FrontStripped(lines);
    }
  }

  lemma BackStripped(b: seq<string>)
    requires AllClean(b) && Bounded(b)
    ensures Strip(JoinWith(['\n'], b + [[]])) == JoinWith(['\n'], b)
  {
    JoinedBounds(b);
    if b != [] {
      JoinedAfter('\n', b, []);
      assert ['\n'] + [] == ['\n'];
      StripBack(JoinWith(['\n'], b));
    }
  }

  lemma FrontStripped(lines: seq<string>)
    requires lines != [] && lines[0] == []
    ensures Strip(JoinWith(['\n'], lines)) == Strip(JoinWith(['\n'], lines[1..]))
  {
    if |lines| > 1 {
      var rest := JoinWith(['\n'], lines[1..]);
      assert JoinWith(['\n'], lines) == [] + (['\n'] + rest) == ['\n'] + rest;
      StripFront(rest);
    }
  }

  // ---------------------------------------------------------------------------
  // xml_to_text
  // ---------------------------------------------------------------------------

  function Lines(text: string): seq<string> {
    SplitOn('\n', text)
  }

  lemma TextLines(x: Xml)
    ensures var t := Trimmed(Collapsed(Render(x)));
      && XmlText(x) == JoinWith(['\n'], t)
      && Lines(XmlText(x)) == (if t == [] then [[]] else t)
      && AllClean(t) && Spaced(t) && Bounded(t) && NonBlank(t) == Blocks(x)
  {
    var c := Collapsed(Render(x));
    RenderedBlocks(x);
    CollapsedIs(Render(x));
    TrimmedIs(c);
    StripJoined(c);
    if Trimmed(c) != [] {
      SplitJoined('\n', Trimmed(c));
    }
  }

  lemma JoinedLinesAre(t: seq<string>, text: string, lines: seq<string>)
    requires text == JoinWith(['\n'], t) && lines == (if t == [] then [[]] else t) && AllClean(t) && Bounded(t)
    ensures NonBlank(lines) == NonBlank(t) && (text == [] <==> NonBlank(t) == []) && (NonBlank(t) != [] ==> lines == t)
  {
  }

  /** The text of an element has no two blank lines in a row and none at its ends, and its
      other lines are the element's blocks in document order. */
  lemma TextKeepsBlocks(x: Xml)
    ensures var lines := Lines(XmlText(x));
      && NonBlank(lines) == Blocks(x)
      && (Blocks(x) != [] ==> Spaced(lines) && Bounded(lines))
    ensures XmlText(x) == [] <==> Blocks(x) == []
  {
    TextLines(x);
    JoinedLinesAre(Trimmed(Collapsed(Render(x))), XmlText(x), Lines(XmlText(x)));
  }

  // ---------------------------------------------------------------------------
  // Visible characters
  // ---------------------------------------------------------------------------

  lemma {:induction false} InkSum(a: string, b: string)
    ensures Ink(a + b) == Ink(a) + Ink(b)
  {
    if a == [] {
      assert a + b == b;
    } else {
      assert (a + b)[1..] == a[1..] + b;
      InkSum(a[1..], b);
    }
  }

  lemma {:induction false} NoInk(s: string)
    ensures Ink(s) == [] <==> EcfrText.Blank(s)
  {
    if s != [] {
      NoInk(s[1..]);
      assert s == [s[0]] + s[1..];
    }
  }

  function InkAll(lines: seq<string>): string {
    if lines == [] then [] else InkAll(lines[..|lines| - 1]) + Ink(lines[|lines| - 1])
  }

  lemma {:induction false} InkAllSum(a: seq<string>, b: seq<string>)
    ensures InkAll(a + b) == InkAll(a) + InkAll(b)
  {
    if b == [] {
      assert a + b == a;
    } else {
      assert (a + b)[..|a + b| - 1] == a + b[..|b| - 1];
      InkAllSum(a, b[..|b| - 1]);
    }
  }

  lemma InkOne(line: string)
    ensures InkAll([line]) == Ink(line)
  {
    assert [line][..0] == [];
    assert InkAll([]) == [];
  }

  lemma {:induction false} JoinedInk(lines: seq<string>)
    ensures Ink(JoinWith(['\n'], lines)) == InkAll(lines)
  {
    if |lines| == 1 {
      InkOne(lines[0]);
      assert lines == [lines[0]];
    } else if lines != [] {
      var rest := JoinWith(['\n'], lines[1..]);
      JoinedInk(lines[1..]);
      BehindBreak(lines[0], rest);
      InkOne(lines[0]);
      InkAllSum([lines[0]], lines[1..]);
      assert lines == [lines[0]] + lines[1..];
    }
  }

  lemma BehindBreak(line: string, rest: string)
    ensures Ink(line + (['\n'] + rest)) == Ink(line) + Ink(rest)
  {
    InkSum(line, ['\n'] + rest);
    assert (['\n'] + rest)[1..] == rest;
  }

  lemma {:induction false} NonBlankInk(lines: seq<string>)
    ensures InkAll(NonBlank(lines)) == InkAll(lines)
  {
    if lines != [] {
      var front, last := lines[..|lines| - 1], lines[|lines| - 1];
      NonBlankInk(front);
      if last != [] {
        InkAllSum(NonBlank(front), [last]);
        InkOne(last);
      } else {
        assert NonBlank(front) + [] == NonBlank(front) && Ink(last) == [];
      }
    }
  }

  /** The visible characters of the cells of a row that have any. */
  function CellInks(xs: seq<Xml>): seq<string> {
    if xs == [] then [] else
    var last := xs[|xs| - 1];
    var ink := if last.El? && last.tag.Cell? then Ink(JoinWith([], Leaves(last))) else [];
    CellInks(xs[..|xs| - 1]) + (if ink == [] then [] else [ink])
  }

  /** The visible characters of an element: those of the pieces of text in its blocks, in document
      order, with a bar between the cells of a row. */
  function Visible(x: Xml): string
    decreases x
  {
    if x.Txt? then []
    else if x.tag.Row? then JoinWith("|", CellInks(x.content))
    else if x.tag.Head? || x.tag.Heading? || x.tag.Block? then Ink(JoinWith([], Leaves(x)))
    else VisibleAll(x.content)
  }

  function VisibleAll(xs: seq<Xml>): string
    decreases xs
  {
    if xs == [] then [] else VisibleAll(xs[..|xs| - 1]) + Visible(xs[|xs| - 1])
  }

  lemma PlainInk(x: Xml)
    ensures Ink(Plain(x)) == Ink(JoinWith([], Leaves(x))) && (Plain(x) == [] <==> Ink(Plain(x)) == [])
  {
    SqueezedInk(JoinWith([], Leaves(x)));
    NoInk(Plain(x));
    StartsVisible(JoinWith([], Leaves(x)));
  }

  lemma {:induction false} StartsVisible(s: string)
    ensures Squeezed(s) != [] ==> !IsSpace(Squeezed(s)[0])
  {
    if s != [] && IsSpace(s[0]) {
      StartsVisible(s[1..]);
    }
  }

  function Inks(texts: seq<string>): seq<string> {
    seq(|texts|, i requires 0 <= i < |texts| => Ink(texts[i]))
  }

  lemma {:induction false} CellsInk(xs: seq<Xml>)
    ensures CellInks(xs) == Inks(PlainCells(xs))
  {
    if xs != [] {
      CellsInk(xs[..|xs| - 1]);
      PlainInk(xs[|xs| - 1]);
    }
  }

  lemma {:induction false} BarsInk(cells: seq<string>)
    ensures Ink(JoinWith(" | ", cells)) == JoinWith("|", Inks(cells))
  {
    if |cells| == 1 {
      assert Inks(cells) == [Ink(cells[0])];
    } else if cells != [] {
      BarsInk(cells[1..]);
      var rest := JoinWith(" | ", cells[1..]);
      InkSum(cells[0], " | " + rest);
      InkSum(" | ", rest);
      BarInk();
      assert Inks(cells)[1..] == Inks(cells[1..]);
    }
  }

  lemma BarInk()
    ensures Ink(" | ") == "|"
  {
    assert " | "[1..] == "| " && "| "[1..] == " " && " "[1..] == "";
  }

  lemma {:induction false} BlocksInk(x: Xml)
    ensures InkAll(Blocks(x)) == Visible(x)
    decreases x
  {
    if x.El? {
      if x.tag.Row? {
        CellsInk(x.content);
        BarsInk(PlainCells(x.content));
        OneLineInk(JoinWith(" | ", PlainCells(x.content)));
      } else if Passes(x) {
        BlocksAllInk(x.content);
      } else {
        PlainInk(x);
        OneLineInk(Plain(x));
      }
    }
  }

  lemma OneLineInk(text: string)
    ensures InkAll(LineOf(text)) == Ink(text)
  {
    if text != [] {
      InkOne(text);
    }
  }

  lemma {:induction false} BlocksAllInk(xs: seq<Xml>)
    ensures InkAll(BlocksAll(xs)) == VisibleAll(xs)
    decreases xs
  {
    if xs != [] {
      BlocksAllInk(xs[..|xs| - 1]);
      BlocksInk(xs[|xs| - 1]);
      InkAllSum(BlocksAll(xs[..|xs| - 1]), Blocks(xs[|xs| - 1]));
    }
  }

  /** The text of an element has exactly the visible characters of its blocks, in document order. */
  lemma TextKeepsInk(x: Xml)
    ensures Ink(XmlText(x)) == Visible(x)
  {
    var t := Trimmed(Collapsed(Render(x)));
    TextLines(x);
    JoinedInk(t);
    NonBlankInk(t);
    BlocksInk(x);
  }
}
