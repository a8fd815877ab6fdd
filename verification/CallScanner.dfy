/** The loops of the call scanner, and what they find in a printed call. */
module CallScanner {
  import opened Scanner
  import opened HangingScans

  lemma BehindTwice(a: string, b: string, o: Outcome)
    ensures Behind(a, Behind(b, o)) == Behind(a + b, o)
  {
  }

  /** `_read_string`: `Unterminated` is its `(None, i)`. */
  method ReadString(text: string, i: nat) returns (o: Outcome)
    requires i < |text| && IsQuote(text[i])
    ensures o == Read(text, i)
    decreases |text| - i
  {
    var quote, j, out := text[i], i + 1, [];
    while j < |text|
      invariant i < j && Read(text, i) == Behind(out, ReadParts(text, quote, j))
      decreases |text| - j
    {
      var ch := text[j];
      if ch == '\\' {
        j := j + 2;
      } else if HoleAt(text, quote, j) {
        var end := SkipInterpolation(text, j);
        if end.Hangs? {
          return Stuck;
        }
        BehindTwice(out, PLACEHOLDER, ReadParts(text, quote, if end.At? then end.i + 1 else |text| + 1));
        out := out + PLACEHOLDER;
        j := if end.At? then end.i + 1 else |text| + 1;
      } else if ch == quote {
        return Value(out, j + 1);
      } else {
        BehindTwice(out, [ch], ReadParts(text, quote, j + 1));
        out := out + [ch];
        j := j + 1;
      }
    }
    o := Unterminated;
  }

  /** The inner loop of `_read_string`, for an interpolation whose `$` is `text[j]`. */
  method SkipInterpolation(text: string, j: nat) returns (end: End)
    requires j + 1 < |text| && text[j + 1] == '{'
    ensures end == SkipCode(text, j + 2, 1)
    decreases |text| - j, 0
  {
    var depth, k := 1, j + 2;
    while k < |text|
      invariant j + 2 <= k && depth > 0 && SkipCode(text, j + 2, 1) == SkipCode(text, k, depth)
      decreases |text| - k
    {
      if text[k] == '{' {
        depth := depth + 1;
      } else if text[k] == '}' {
        depth := depth - 1;
        if depth == 0 {
          return At(k);
        }
      } else if text[k] == '`' {
        var nested := ReadString(text, k);
        if !nested.Value? {
          return Hangs;
        }
        k := nested.end - 1;
      }
      k := k + 1;
    }
    end := RanOff;
  }

  /** `_call_span`, from just past the open paren. */
  method CallSpan(text: string, i0: nat) returns (end: End)
    ensures end == Span(text, i0, 1)
  {
    var depth, i := 1, i0;
    while i < |text|
      invariant depth > 0 && i0 <= i && Span(text, i0, 1) == Span(text, i, depth)
      decreases |text| - i
    {
      var ch := text[i];
      if IsQuote(ch) {
        var literal := ReadString(text, i);
        if !literal.Value? {
          return Hangs;
        }
        i := literal.end;
      } else {
        if ch == '(' {
          depth := depth + 1;
        } else if ch == ')' {
          depth := depth - 1;
          if depth == 0 {
            return At(i);
          }
        }
        i := i + 1;
      }
    }
    end := RanOff;
  }

  // ---------------------------------------------------------------------------
  // Generic arguments and blanks
  // ---------------------------------------------------------------------------

  /** Open angle brackets less closed ones in `t[i..m]`. */
  function Balance(t: string, i: nat, m: nat): int
    requires i <= m <= |t|
  {
    if m == i then 0
    else Balance(t, i, m - 1) + (if t[m - 1] == '<' then 1 else if t[m - 1] == '>' then -1 else 0)
  }

  /** `t[i..e]` is one balanced group of angle brackets. */
  ghost predicate AngleSpan(t: string, i: nat, e: nat) {
    && i < e <= |t| && t[i] == '<' && Balance(t, i, e) == 0
    && forall m :: i < m < e ==> Balance(t, i, m) > 0
  }

  lemma OneAngleSpan(t: string, i: nat, e: nat, e': nat)
    requires AngleSpan(t, i, e) && AngleSpan(t, i, e')
    ensures e == e'
  {
  }

  /** `_skip_generic`: past the balanced group that starts at `i`, or `i` if none does. */
  method SkipGeneric(text: string, i: nat) returns (e: nat)
    ensures AngleSpan(text, i, e) || (e == i && forall m :: !AngleSpan(text, i, m))
  {
    if i >= |text| || text[i] != '<' {
      return i;
    }
    var depth, j := 0, i;
    while j < |text|
      invariant i <= j <= |text| && depth == Balance(text, i, j)
      invariant forall m :: i < m <= j ==> Balance(text, i, m) > 0
    {
      if text[j] == '<' {
        depth := depth + 1;
      } else if text[j] == '>' {
        depth := depth - 1;
        if depth == 0 {
          return j + 1;
        }
      }
      j := j + 1;
      assert j == i + 1 ==> Balance(text, i, i) == 0;
    }
    e := i;
  }

  predicate IsBlank(c: char) {
    c == ' ' || c == '\t' || c == '\r' || c == '\n'
  }

  function SkipBlanks(t: string, i: nat): (e: nat)
    ensures i <= e && (i <= |t| ==> e <= |t|) && (e < |t| ==> !IsBlank(t[e]))
    ensures forall m :: i <= m < e && m < |t| ==> IsBlank(t[m])
    decreases |t| - i
  {
    if i < |t| && IsBlank(t[i]) then SkipBlanks(t, i + 1) else i
  }

  // ---------------------------------------------------------------------------
  // One call
  // ---------------------------------------------------------------------------

  /** What the scanner makes of the text after a wrapper's name. The options of a call are
      looked for between `end`, or `first` where the url is built at run time, and `close`. */
  datatype Call =
    | NotACall
    | RuntimeUrl(first: nat, close: End)
    | LiteralUrl(url: string, end: nat, close: End)
    | Lost

  /** The same, from just past the generic arguments on. */
  function CallFrom(t: string, i: nat): Call {
    var paren := SkipBlanks(t, i);
    if !CharAt(t, paren, '(') then NotACall else
    var first := SkipBlanks(t, paren + 1);
    if first >= |t| || !IsQuote(t[first]) then RuntimeUrl(first, Span(t, first, 1)) else
    match Read(t, first)
    case Value(url, end) => LiteralUrl(url, end, Span(t, paren + 1, 1))
    case Unterminated => NotACall
    case Stuck => Lost
  }

  /** The body of the loop of `_calls_in`, from the end of the wrapper's name. */
  method CallAt(text: string, afterName: nat) returns (start: nat, call: Call)
    ensures AngleSpan(text, afterName, start) || (start == afterName && forall m :: !AngleSpan(text, afterName, m))
    ensures call == CallFrom(text, start)
  {
    var i := SkipGeneric(text, afterName);
    start := i;
    while i < |text| && IsBlank(text[i])
      invariant SkipBlanks(text, start) == SkipBlanks(text, i)
      decreases |text| - i
    {
      i := i + 1;
    }
    if i >= |text| || text[i] != '(' {
      return start, NotACall;
    }
    i := i + 1;
    var open := i;
    while i < |text| && IsBlank(text[i])
      invariant SkipBlanks(text, open) == SkipBlanks(text, i)
      decreases |text| - i
    {
      i := i + 1;
    }
    if i >= |text| || !IsQuote(text[i]) {
      var close := CallSpan(text, i);
      return start, RuntimeUrl(i, close);
    }
    var literal := ReadString(text, i);
    match literal {
      case Value(url, end) =>
        var close := CallSpan(text, open);
        return start, LiteralUrl(url, end, close);
      case Unterminated => return start, NotACall;
      case Stuck => return start, Lost;
    }
  }

  predicate Blank(s: string) {
    forall k :: 0 <= k < |s| ==> s[k] in " \t\r\n"
  }

  lemma {:induction false} BlanksSkipped(t: string, i: nat, s: string)
    requires Blank(s) && Stands(t, i, s) && (i + |s| < |t| ==> !IsBlank(t[i + |s|]))
    ensures SkipBlanks(t, i) == i + |s|
    decreases |s|
  {
    if s != [] {
      assert s == [s[0]] + s[1..];
      StandsChar(t, i, s[0], s[1..]);
      BlanksSkipped(t, i + 1, s[1..]);
    }
  }

  lemma {:induction false} SpanPastBlanks(t: string, i: nat)
    ensures Span(t, i, 1) == Span(t, SkipBlanks(t, i), 1)
    decreases |t| - i
  {
    if i < |t| && IsBlank(t[i]) {
      SpanPastBlanks(t, i + 1);
    }
  }

  /** A call as it is written after the generic arguments: its url literal, then whatever
      else it passes. */
  function PrintCall(before: string, after: string, q: char, url: Parts, options: Args): string {
    before + (['('] + (after + (PrintLiteral(q, url) + PrintArgs(options))))
  }

  lemma ParenFound(t: string, i: nat, before: string, s: string)
    requires Blank(before) && Stands(t, i, before + (['('] + s))
    ensures SkipBlanks(t, i) == i + |before| && CharAt(t, i + |before|, '(') && Stands(t, i + |before| + 1, s)
  {
    StandsSplit(t, i, before, ['('] + s);
    StandsChar(t, i + |before|, '(', s);
    BlanksSkipped(t, i, before);
  }

  lemma UrlFound(t: string, i: nat, after: string, q: char, url: Parts, s: string)
    requires Blank(after) && IsQuote(q) && Stands(t, i, after + (PrintLiteral(q, url) + s))
    ensures SkipBlanks(t, i) == i + |after|
    ensures Stands(t, i + |after|, PrintLiteral(q, url)) && Stands(t, i + |after| + |PrintLiteral(q, url)|, s)
  {
    var first := i + |after|;
    StandsSplit(t, i, after, PrintLiteral(q, url) + s);
    StandsSplit(t, first, PrintLiteral(q, url), s);
    StandsChar(t, first, q, PrintParts(q, url));
    BlanksSkipped(t, i, after);
  }

  lemma SpanPastUrl(t: string, open: nat)
    requires var first := SkipBlanks(t, open); first < |t| && IsQuote(t[first]) && Read(t, first).Value?
    ensures Span(t, open, 1) == Span(t, Read(t, SkipBlanks(t, open)).end, 1)
  {
    SpanPastBlanks(t, open);
    SpanQuoted(t, SkipBlanks(t, open), 1);
  }

  lemma CallRead(t: string, i: nat, paren: nat, first: nat, url: string, end: nat, close: nat)
    requires SkipBlanks(t, i) == paren && CharAt(t, paren, '(') && SkipBlanks(t, paren + 1) == first
    requires first < |t| && IsQuote(t[first]) && Read(t, first) == Value(url, end) && Span(t, end, 1) == At(close)
    ensures CallFrom(t, i) == LiteralUrl(url, end, At(close))
  {
    SpanPastUrl(t, paren + 1);
  }

  /** A call printed anywhere in a text is found, with its url flattened, and the window in
      which its options are looked for is exactly the rest of its own arguments. */
  lemma CallReadBack(t: string, i: nat, before: string, after: string, q: char, url: Parts, options: Args)
    returns (end: nat, close: nat)
    requires Blank(before) && Blank(after) && IsQuote(q) && GoodParts(q, url) && GoodArgs(options)
    requires Stands(t, i, PrintCall(before, after, q, url, options))
    ensures CallFrom(t, i) == LiteralUrl(Flat(url), end, At(close))
    ensures end <= close < |t| && t[end..close + 1] == PrintArgs(options)
  {
    var paren := i + |before|;
    ParenFound(t, i, before, after + (PrintLiteral(q, url) + PrintArgs(options)));
    var first := paren + 1 + |after|;
    UrlFound(t, paren + 1, after, q, url, PrintArgs(options));
    LiteralReadBack(t, first, q, url);
    end := first + |PrintLiteral(q, url)|;
    close := WindowOf(t, end, options);
    CallRead(t, i, paren, first, Flat(url), end, close);
  }

  lemma WindowOf(t: string, end: nat, options: Args) returns (close: nat)
    requires GoodArgs(options) && Stands(t, end, PrintArgs(options))
    ensures Span(t, end, 1) == At(close) && end <= close < |t| && t[end..close + 1] == PrintArgs(options)
  {
    ArgsReadBack(t, end, options);
    ArgsStand(t, end, options);
    close := end + |PrintArgs(options)| - 1;
  }

  /** A call whose url is built at run time is found too, and its window is all of its arguments. */
  lemma RuntimeCallReadBack(t: string, i: nat, before: string, after: string, args: Args) returns (first: nat, close: nat)
    requires Blank(before) && Blank(after) && GoodArgs(args)
    requires PrintArgs(args)[0] !in " \t\r\n'\"`"
    requires Stands(t, i, before + (['('] + (after + PrintArgs(args))))
    ensures CallFrom(t, i) == RuntimeUrl(first, At(close))
    ensures first <= close < |t| && t[first..close + 1] == PrintArgs(args)
  {
    ParenFound(t, i, before, after + PrintArgs(args));
    var open := i + |before| + 1;
    first := open + |after|;
    StandsSplit(t, open, after, PrintArgs(args));
    assert CharAt(t, first, PrintArgs(args)[0]) by {
      assert PrintArgs(args) == [PrintArgs(args)[0]] + PrintArgs(args)[1..];
      StandsChar(t, first, PrintArgs(args)[0], PrintArgs(args)[1..]);
    }
    BlanksSkipped(t, open, after);
    close := WindowOf(t, first, args);
  }

  // ---------------------------------------------------------------------------
  // Which of the answers is given
  // ---------------------------------------------------------------------------

  /** Place `p` is the first from `i` on that holds no blank. */
  ghost predicate FirstFrom(t: string, i: nat, p: nat) {
    i <= p && (forall m :: i <= m < p ==> m < |t| && t[m] in " \t\r\n") && (p < |t| ==> t[p] !in " \t\r\n")
  }

  /** An open paren follows the blanks at `i`, and `f` is the first place behind it and more blanks. */
  ghost predicate Opens(t: string, i: nat, p: nat, f: nat) {
    FirstFrom(t, i, p) && p < |t| && t[p] == '(' && FirstFrom(t, p + 1, f)
  }

  lemma OneFirst(t: string, i: nat, p: nat, e: nat)
    requires FirstFrom(t, i, p) && FirstFrom(t, i, e)
    ensures p == e
  {
  }

  lemma SkippedIs(t: string, i: nat, p: nat)
    requires i <= |t|
    ensures SkipBlanks(t, i) == p <==> FirstFrom(t, i, p)
  {
    SkippedBlanks(t, i);
    if FirstFrom(t, i, p) {
      OneFirst(t, i, p, SkipBlanks(t, i));
    }
  }

  lemma {:induction false} SkippedBlanks(t: string, i: nat)
    requires i <= |t|
    ensures FirstFrom(t, i, SkipBlanks(t, i))
    decreases |t| - i
  {
    if i < |t| && IsBlank(t[i]) {
      SkippedBlanks(t, i + 1);
    }
  }

  /** No literal stands at the quote, and the scan does not hang there either: it runs off the text. */
  ghost predicate NeverEnds(t: string, f: nat) {
    && f < |t| && IsQuote(t[f])
    && (forall p :: !LiteralAt(t, f, t[f], p)) && (forall front :: !LeavesOff(t, f, front))
  }

  lemma NeverEndsIs(t: string, f: nat)
    requires f < |t| && IsQuote(t[f])
    ensures Read(t, f).Unterminated? <==> NeverEnds(t, f)
  {
    ReadStuckIff(t, f);
    ReadsLiteralsOnly(t, f);
  }

  lemma OpensIs(t: string, i: nat, p: nat, f: nat)
    requires i <= |t|
    ensures Opens(t, i, p, f) <==> p == SkipBlanks(t, i) && CharAt(t, p, '(') && f == SkipBlanks(t, p + 1)
  {
    SkippedIs(t, i, p);
    if p < |t| {
      SkippedIs(t, p + 1, f);
    }
  }

  /** There is no call exactly if no paren follows the blanks, or a literal that never ends comes first
      behind it. */
  lemma NotACallIff(t: string, i: nat)
    requires i <= |t|
    ensures CallFrom(t, i) == NotACall <==>
      (forall p: nat, f: nat :: !Opens(t, i, p, f)) || exists p: nat, f: nat :: Opens(t, i, p, f) && NeverEnds(t, f)
  {
    hide NeverEnds, Read;
    var paren := SkipBlanks(t, i);
    var first := SkipBlanks(t, paren + 1);
    forall p: nat, f: nat
      ensures Opens(t, i, p, f) <==> p == paren && CharAt(t, p, '(') && f == first
    {
      OpensIs(t, i, p, f);
    }
    NeverEndsMeans(t, first);
    if first < |t| && IsQuote(t[first]) {
      NeverEndsIs(t, first);
    }
    if !CharAt(t, paren, '(') {
      assert forall p: nat, f: nat :: !Opens(t, i, p, f);
    } else if NeverEnds(t, first) {
      assert Opens(t, i, paren, first);
    } else {
      assert Opens(t, i, paren, first) && CallFrom(t, i) != NotACall;
    }
  }

  lemma NeverEndsMeans(t: string, f: nat)
    ensures NeverEnds(t, f) ==> f < |t| && IsQuote(t[f])
  {
  }
}
