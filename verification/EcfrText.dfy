/** `fetch_ecfr_text.py`: eCFR XML turned into plain text. */
module EcfrText {
  import opened Texts

  // ---------------------------------------------------------------------------
  // XML and what is read off it
  // ---------------------------------------------------------------------------

  /** TR; TD and TH; HEAD; HED and HD1, HD2, ...; the other block tags (P, FP, CITA, ...);
      DIV6 (subpart) and DIV9 (appendix); any other tag. */
  datatype Tag = Row | Cell | Head | Heading | Block | Div6 | Div9 | Other

  /** Text, or an element with its N attribute in upper case. */
  datatype Xml = Txt(s: string) | El(tag: Tag, n: string, content: seq<Xml>)

  /** `"".join(el.itertext())`. */
  function AllText(x: Xml): string
    decreases x
  {
    match x
    case Txt(s) => s
    case El(_, _, content) => AllTexts(content)
  }

  function AllTexts(xs: seq<Xml>): string
    decreases xs
  {
    if xs == [] then [] else AllTexts(xs[..|xs| - 1]) + AllText(xs[|xs| - 1])
  }

  function WordOf(s: string): (w: string)
    ensures |w| <= |s| && (s != [] && !IsSpace(s[0]) ==> w != [])
    ensures forall i :: 0 <= i < |w| ==> !IsSpace(w[i])
  {
    if s == [] || IsSpace(s[0]) then [] else [s[0]] + WordOf(s[1..])
  }

  /** `s.split()`. */
  function Words(s: string): (ws: seq<string>)
    ensures forall k :: 0 <= k < |ws| ==> ws[k] != [] && forall i :: 0 <= i < |ws[k]| ==> !IsSpace(ws[k][i])
    decreases |s|
  {
    if s == [] then []
    else if IsSpace(s[0]) then Words(s[1..])
    else [WordOf(s)] + Words(s[|WordOf(s)|..])
  }

  /** `_el_text`. */
  function ElText(x: Xml): string {
    JoinWith([' '], Words(AllText(x)))
  }

  // ---------------------------------------------------------------------------
  // What the text of an element is
  // ---------------------------------------------------------------------------

  /** The pieces of text in an element, in document order. */
  function Leaves(x: Xml): seq<string>
    decreases x
  {
    match x
    case Txt(s) => [s]
    case El(_, _, content) => LeavesAll(content)
  }

  function LeavesAll(xs: seq<Xml>): seq<string>
    decreases xs
  {
    if xs == [] then [] else Leaves(xs[0]) + LeavesAll(xs[1..])
  }

  /** Each visible character, and a space behind it if white space and then another one follows. */
  function Squeezed(s: string): string {
    if s == [] then []
    else if IsSpace(s[0]) then Squeezed(s[1..])
    else if |s| > 1 && IsSpace(s[1]) && Squeezed(s[1..]) != [] then [s[0], ' '] + Squeezed(s[1..])
    else [s[0]] + Squeezed(s[1..])
  }

  /** The text of an element on one line. */
  function Plain(x: Xml): string {
    Squeezed(JoinWith([], Leaves(x)))
  }

  lemma {:induction false} JoinPieces(a: seq<string>, b: seq<string>)
    ensures JoinWith([], a + b) == JoinWith([], a) + JoinWith([], b)
  {
    if a == [] {
      assert a + b == b;
    } else {
      assert (a + b)[1..] == a[1..] + b;
      JoinPieces(a[1..], b);
      FirstPiece(a);
      FirstPiece(a + b);
    }
  }

  lemma FirstPiece(a: seq<string>)
    requires a != []
    ensures JoinWith([], a) == a[0] + JoinWith([], a[1..])
  {
  }

  lemma {:induction false} AllTextIs(x: Xml)
    ensures AllText(x) == JoinWith([], Leaves(x))
    decreases x
  {
    if x.El? {
      AllTextsAre(x.content);
    }
  }

  lemma {:induction false} AllTextsAre(xs: seq<Xml>)
    ensures AllTexts(xs) == JoinWith([], LeavesAll(xs))
    decreases xs
  {
    if xs != [] {
      var front, last := xs[..|xs| - 1], xs[|xs| - 1];
      AllTextsAre(front);
      AllTextIs(last);
      LeavesBack(front, last);
      assert xs == front + [last];
      JoinPieces(LeavesAll(front), Leaves(last));
    }
  }

  lemma {:induction false} LeavesBack(front: seq<Xml>, last: Xml)
    ensures LeavesAll(front + [last]) == LeavesAll(front) + Leaves(last)
  {
    if front == [] {
      assert LeavesAll([last]) == Leaves(last) + LeavesAll([]);
    } else {
      assert (front + [last])[1..] == front[1..] + [last];
      LeavesBack(front[1..], last);
    }
  }

  lemma {:induction false} WordEnds(s: string)
    ensures var w := WordOf(s); s == w + s[|w|..] && (|w| < |s| ==> IsSpace(s[|w|]))
  {
    if s != [] && !IsSpace(s[0]) {
      WordEnds(s[1..]);
      var w := WordOf(s[1..]);
      assert s[1..] == w + s[1..][|w|..];
      assert s == [s[0]] + s[1..] && s[1..][|w|..] == s[|w| + 1..];
    }
  }

  lemma {:induction false} WordSqueezed(w: string, rest: string)
    requires w != [] && forall i :: 0 <= i < |w| ==> !IsSpace(w[i])
    requires rest != [] ==> IsSpace(rest[0])
    ensures Squeezed(w + rest) == w + (if Squeezed(rest) == [] then [] else [' '] + Squeezed(rest))
  {
    var s := w + rest;
    assert s[1..] == w[1..] + rest;
    if |w| == 1 {
      assert s[1..] == rest && w == [s[0]];
    } else {
      WordSqueezed(w[1..], rest);
      assert s[1] == w[1] && w == [w[0]] + w[1..];
    }
  }

  lemma {:induction false} WordsJoined(s: string)
    ensures JoinWith([' '], Words(s)) == Squeezed(s)
    ensures Squeezed(s) == [] <==> Words(s) == []
    decreases |s|
  {
    if s != [] && IsSpace(s[0]) {
      WordsJoined(s[1..]);
    } else if s != [] {
      var w := WordOf(s);
      var rest := s[|w|..];
      WordEnds(s);
      WordsJoined(rest);
      WordSqueezed(w, rest);
      assert Words(s) == [w] + Words(rest) && Words(s)[1..] == Words(rest);
    }
  }

  /** The text of an element is that of its pieces, with white space squeezed. */
  lemma ElTextIs(x: Xml)
    ensures ElText(x) == Plain(x)
  {
    AllTextIs(x);
    WordsJoined(AllText(x));
  }

  // --- what squeezing does ---

  predicate Blank(s: string) {
    forall i :: 0 <= i < |s| ==> IsSpace(s[i])
  }

  /** The visible characters of a text. */
  function Ink(s: string): string {
    if s == [] then [] else (if IsSpace(s[0]) then [] else [s[0]]) + Ink(s[1..])
  }

  lemma InkBehind(c: char, s: string)
    ensures Ink([c] + s) == (if IsSpace(c) then [] else [c]) + Ink(s)
  {
    assert ([c] + s)[1..] == s;
  }

  /** Squeezing loses no visible character and moves none. */
  lemma {:induction false} SqueezedInk(s: string)
    ensures Ink(Squeezed(s)) == Ink(s)
  {
    if s != [] {
      hide Ink;
      SqueezedInk(s[1..]);
      var rest := Squeezed(s[1..]);
      InkBehind(s[0], s[1..]);
      assert s == [s[0]] + s[1..];
      InkBehind(s[0], rest);
      InkBehind(' ', rest);
      InkBehind(s[0], [' '] + rest);
      assert [s[0], ' '] + rest == [s[0]] + ([' '] + rest);
    }
  }

  /** White space at the start is dropped. */
  lemma {:induction false} BlankStart(w: string, s: string)
    requires Blank(w)
    ensures Squeezed(w + s) == Squeezed(s)
  {
    if w == [] {
      assert w + s == s;
    } else {
      assert (w + s)[1..] == w[1..] + s;
      BlankStart(w[1..], s);
    }
  }

  lemma VisibleLeft(b: char, s: string)
    requires !IsSpace(b)
    ensures Squeezed([b] + s) != []
  {
    assert ([b] + s)[1..] == s;
  }

  /** White space between two visible characters becomes one space, and where there is none there is
      none. */
  lemma BlankBetween(a: char, w: string, b: char, s: string)
    requires !IsSpace(a) && !IsSpace(b) && Blank(w)
    ensures Squeezed([a] + (w + ([b] + s))) == [a] + ((if w == [] then [] else [' ']) + Squeezed([b] + s))
  {
    var rest := w + ([b] + s);
    assert ([a] + rest)[1..] == rest;
    BlankStart(w, [b] + s);
    VisibleLeft(b, s);
    if w == [] {
      assert rest == [b] + s;
    } else {
      assert rest[0] == w[0];
      assert [a, ' '] + Squeezed(rest) == [a] + ([' '] + Squeezed(rest));
    }
  }

  /** White space at the end is dropped. */
  lemma BlankEnd(a: char, w: string)
    requires !IsSpace(a) && Blank(w)
    ensures Squeezed([a] + w) == [a]
  {
    assert ([a] + w)[1..] == w && w + [] == w;
    BlankStart(w, []);
  }

  /** One line of text: no line break, no white space at the ends. */
  predicate Clean(line: string) {
    Tight(line) && Without(line, '\n')
  }

  lemma {:induction false} JoinedClean(sep: string, parts: seq<string>)
    requires forall k :: 0 <= k < |parts| ==> parts[k] != [] && Clean(parts[k])
    requires Without(sep, '\n')
    ensures Clean(JoinWith(sep, parts)) && (parts != [] ==> JoinWith(sep, parts) != [])
  {
    if |parts| > 1 {
      var rest := JoinWith(sep, parts[1..]);
      JoinedClean(sep, parts[1..]);
      var s := parts[0] + (sep + rest);
      assert s[0] == parts[0][0] && s[|s| - 1] == rest[|rest| - 1];
      WithoutSum(sep, rest, '\n');
      WithoutSum(parts[0], sep + rest, '\n');
    }
  }

  lemma ElTextClean(x: Xml)
    ensures Clean(ElText(x))
  {
    var ws := Words(AllText(x));
    forall k | 0 <= k < |ws|
      ensures Clean(ws[k])
    {
      assert forall i :: 0 <= i < |ws[k]| ==> ws[k][i] != '\n';
    }
    JoinedClean([' '], ws);
  }

  /** The non-empty texts of the cells of a row. */
  function Cells(xs: seq<Xml>): seq<string> {
    if xs == [] then [] else
    var last := xs[|xs| - 1];
    Cells(xs[..|xs| - 1]) + (if last.El? && last.tag.Cell? && ElText(last) != [] then [ElText(last)] else [])
  }

  const BAR := " | "

  function RowText(xs: seq<Xml>): string {
    JoinWith(BAR, Cells(xs))
  }

  // ---------------------------------------------------------------------------
  // Rendering
  // ---------------------------------------------------------------------------

  function LineOf(text: string): seq<string> {
    if text != [] then [text] else []
  }

  function Titled(text: string): seq<string> {
    if text != [] then [[], text, []] else []
  }

  /** `_render`: the lines of an element. */
  function Render(x: Xml): seq<string>
    decreases x
  {
    if x.Txt? then [] else
    match x.tag
    case Row => LineOf(RowText(x.content))
    case Head => Titled(ElText(x))
    case Heading => Titled(ElText(x))
    case Block => LineOf(ElText(x))
    case _ => RenderAll(x.content)
  }

  function RenderAll(xs: seq<Xml>): seq<string>
    decreases xs
  {
    if xs == [] then [] else RenderAll(xs[..|xs| - 1]) + Render(xs[|xs| - 1])
  }

  /** The texts of the cells that have one. */
  function PlainCells(xs: seq<Xml>): seq<string> {
    if xs == [] then [] else
    var last := xs[|xs| - 1];
    PlainCells(xs[..|xs| - 1]) + (if last.El? && last.tag.Cell? && Plain(last) != [] then [Plain(last)] else [])
  }

  /** The blocks of an element, in document order: its headings, paragraphs and table rows
      that have a text. */
  function Blocks(x: Xml): seq<string>
    decreases x
  {
    if x.Txt? then []
    else if x.tag.Row? then LineOf(JoinWith(" | ", PlainCells(x.content)))
    else if x.tag.Head? || x.tag.Heading? || x.tag.Block? then LineOf(Plain(x))
    else BlocksAll(x.content)
  }

  function BlocksAll(xs: seq<Xml>): seq<string>
    decreases xs
  {
    if xs == [] then [] else BlocksAll(xs[..|xs| - 1]) + Blocks(xs[|xs| - 1])
  }

  predicate IsBlank(line: string) {
    Strip(line) == []
  }

  /** Lines without those that follow a blank one and are blank. */
  function Collapsed(lines: seq<string>): seq<string> {
    if lines == [] then [] else
    var front, last := lines[..|lines| - 1], lines[|lines| - 1];
    if IsBlank(last) && front != [] && IsBlank(front[|front| - 1]) then Collapsed(front)
    else Collapsed(front) + [last]
  }

  /** `xml_to_text`. */
  function XmlText(x: Xml): string {
    Strip(JoinWith(['\n'], Collapsed(Render(x))))
  }

  method RenderInto(x: Xml, out0: seq<string>) returns (out: seq<string>)
    ensures out == out0 + Render(x)
    decreases x
  {
    out := out0;
    if x.Txt? {
      return;
    }
    if x.tag.Row? {
      var cells: seq<string> := [];
      for k := 0 to |x.content|
        invariant cells == Cells(x.content[..k])
      {
        assert x.content[..k + 1][..k] == x.content[..k];
        var c := x.content[k];
        if c.El? && c.tag.Cell? && ElText(c) != [] {
          cells := cells + [ElText(c)];
        }
      }
      assert x.content[..|x.content|] == x.content;
      var row := JoinWith(BAR, cells);
      if row != [] {
        out := out + [row];
      }
    } else if x.tag.Head? || x.tag.Heading? {
      var text := ElText(x);
      if text != [] {
        out := out + [[], text, []];
      }
    } else if x.tag.Block? {
      var text := ElText(x);
      if text != [] {
        out := out + [text];
      }
    } else {
      for k := 0 to |x.content|
        invariant out == out0 + RenderAll(x.content[..k])
      {
        assert x.content[..k + 1][..k] == x.content[..k];
        out := RenderInto(x.content[k], out);
      }
      assert x.content[..|x.content|] == x.content;
    }
  }

  method XmlToText(x: Xml) returns (text: string)
    ensures text == XmlText(x)
  {
    var out := RenderInto(x, []);
    assert out == Render(x);
    var lines: seq<string> := [];
    var prevBlank := false;
    for k := 0 to |out|
      invariant lines == Collapsed(out[..k])
      invariant prevBlank <==> k > 0 && IsBlank(out[k - 1])
    {
      assert out[..k + 1][..k] == out[..k];
      var blank := Strip(out[k]) == [];
      if !(blank && prevBlank) {
        lines := lines + [out[k]];
        prevBlank := blank;
      }
    }
    assert out[..|out|] == out;
    text := Strip(JoinWith(['\n'], lines));
  }
}
