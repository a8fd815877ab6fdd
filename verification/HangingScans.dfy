/**
 When the call scanner never comes back: exactly where a printed text leaves off, inside an
 interpolation or among the arguments of a call, at a literal that is not one.
 */
module HangingScans {
  import opened Scanner

  // ---------------------------------------------------------------------------
  // Texts that leave off in the middle
  // ---------------------------------------------------------------------------

  /** The arguments of a call up to some point. `Opened` is a paren that is still open there. */
  datatype ArgsFront =
    | Here
    | Letter(c: char, more: ArgsFront)
    | Opened(more: ArgsFront)
    | Closed(within: Args, more: ArgsFront)
    | Literal(quote: char, parts: Parts, more: ArgsFront)

  /** The code of an interpolation up to some point. `Open` is a brace that is still open there. */
  datatype CodeFront =
    | Now
    | Other(c: char, rest: CodeFront)
    | Open(rest: CodeFront)
    | Braces(inner: Code, rest: CodeFront)
    | Nested(parts: Parts, rest: CodeFront)

  /** A template literal, from past its opening backtick up to a point in the code of one of its
      interpolations. */
  datatype PartsFront =
    | Inside(code: CodeFront)
    | Plain(c: char, next: PartsFront)
    | Escape(c: char, next: PartsFront)
    | Hole(whole: Code, next: PartsFront)

  predicate GoodArgsFront(f: ArgsFront) {
    match f
    case Here => true
    case Letter(c, more) => !IsQuote(c) && c != '(' && c != ')' && GoodArgsFront(more)
    case Opened(more) => GoodArgsFront(more)
    case Closed(within, more) => GoodArgs(within) && GoodArgsFront(more)
    case Literal(q, parts, more) => IsQuote(q) && GoodParts(q, parts) && GoodArgsFront(more)
  }

  predicate GoodCodeFront(f: CodeFront) {
    match f
    case Now => true
    case Other(c, rest) => c != '{' && c != '}' && c != '`' && GoodCodeFront(rest)
    case Open(rest) => GoodCodeFront(rest)
    case Braces(inner, rest) => GoodCode(inner) && GoodCodeFront(rest)
    case Nested(parts, rest) => GoodParts('`', parts) && GoodCodeFront(rest)
  }

  /** A `$` with a brace after it is not a plain character of a template literal. */
  predicate GoodPartsFront(f: PartsFront) {
    match f
    case Inside(code) => GoodCodeFront(code)
    case Plain(c, next) => c != '\\' && c != '`' && !(c == '$' && next.Plain? && next.c == '{') && GoodPartsFront(next)
    case Escape(_, next) => GoodPartsFront(next)
    case Hole(whole, next) => GoodCode(whole) && GoodPartsFront(next)
  }

  function PrintArgsFront(f: ArgsFront): string {
    match f
    case Here => []
    case Letter(c, more) => [c] + PrintArgsFront(more)
    case Opened(more) => ['('] + PrintArgsFront(more)
    case Closed(within, more) => ['('] + (PrintArgs(within) + PrintArgsFront(more))
    case Literal(q, parts, more) => [q] + (PrintParts(q, parts) + PrintArgsFront(more))
  }

  function PrintCodeFront(f: CodeFront): string {
    match f
    case Now => []
    case Other(c, rest) => [c] + PrintCodeFront(rest)
    case Open(rest) => ['{'] + PrintCodeFront(rest)
    case Braces(inner, rest) => ['{'] + (PrintCode(inner) + PrintCodeFront(rest))
    case Nested(parts, rest) => ['`'] + (PrintParts('`', parts) + PrintCodeFront(rest))
  }

  function PrintPartsFront(f: PartsFront): string {
    match f
    case Inside(code) => ['$'] + (['{'] + PrintCodeFront(code))
    case Plain(c, next) => [c] + PrintPartsFront(next)
    case Escape(c, next) => ['\\'] + ([c] + PrintPartsFront(next))
    case Hole(whole, next) => ['$'] + (['{'] + (PrintCode(whole) + PrintPartsFront(next)))
  }

  /** A quote at which no literal stands. */
  ghost predicate DeadQuote(t: string, k: nat) {
    k < |t| && IsQuote(t[k]) && forall p :: !LiteralAt(t, k, t[k], p)
  }

  ghost predicate DeadTick(t: string, k: nat) {
    DeadQuote(t, k) && t[k] == '`'
  }

  lemma DeadIsNotRead(t: string, k: nat)
    ensures DeadQuote(t, k) <==> k < |t| && IsQuote(t[k]) && !Read(t, k).Value?
  {
    if k < |t| && IsQuote(t[k]) {
      ReadsLiteralsOnly(t, k);
    }
  }

  // ---------------------------------------------------------------------------
  // Among the arguments of a call
  // ---------------------------------------------------------------------------

  lemma PartsPast(t: string, j: nat, q: char, p: Parts, s: string)
    requires IsQuote(q) && GoodParts(q, p) && Stands(t, j, [q] + (PrintParts(q, p) + s))
    ensures CharAt(t, j, q) && ReadParts(t, q, j + 1) == Value(Flat(p), j + 1 + |PrintParts(q, p)|)
    ensures Stands(t, j + 1 + |PrintParts(q, p)|, s)
  {
    StandsChar(t, j, q, PrintParts(q, p) + s);
    StandsSplit(t, j + 1, PrintParts(q, p), s);
    PartsStand(t, j + 1, q, p);
    PartsReadBack(t, q, j + 1, p);
  }

  lemma ArgsPast(t: string, i: nat, depth: nat, a: Args, s: string)
    requires depth > 0 && GoodArgs(a) && Stands(t, i, ['('] + (PrintArgs(a) + s))
    ensures Span(t, i, depth) == Span(t, i + 1 + |PrintArgs(a)|, depth)
    ensures Stands(t, i + 1 + |PrintArgs(a)|, s)
  {
    StandsChar(t, i, '(', PrintArgs(a) + s);
    StandsSplit(t, i + 1, PrintArgs(a), s);
    ArgsStand(t, i + 1, a);
    SpanOpen(t, i, depth);
    ArgsSpanned(t, i + 1, depth + 1, a);
  }

  lemma {:induction false} FrontHangs(t: string, i: nat, depth: nat, f: ArgsFront)
    requires depth > 0 && GoodArgsFront(f) && Stands(t, i, PrintArgsFront(f))
    requires DeadQuote(t, i + |PrintArgsFront(f)|)
    ensures Span(t, i, depth).Hangs?
    decreases f
  {
    match f
    case Here =>
      DeadIsNotRead(t, i);
    case Letter(c, more) =>
      StandsChar(t, i, c, PrintArgsFront(more));
      SpanLetter(t, i, depth, c);
      FrontHangs(t, i + 1, depth, more);
    case Opened(more) =>
      StandsChar(t, i, '(', PrintArgsFront(more));
      SpanOpen(t, i, depth);
      FrontHangs(t, i + 1, depth + 1, more);
    case Closed(within, more) =>
      ArgsPast(t, i, depth, within, PrintArgsFront(more));
      FrontHangs(t, i + 1 + |PrintArgs(within)|, depth, more);
    case Literal(q, parts, more) =>
      PartsPast(t, i, q, parts, PrintArgsFront(more));
      SpanQuoted(t, i, depth);
      FrontHangs(t, i + 1 + |PrintParts(q, parts)|, depth, more);
  }

  /** Inside one more paren: if it is closed, the span goes on past it. */
  lemma {:induction false} SpanDeeper(t: string, i: nat, d: nat, depth: nat)
    requires d > 0 && depth > 0
    ensures Span(t, i, d + depth) ==
      match Span(t, i, d) { case At(e) => Span(t, e + 1, depth) case other => other }
    decreases |t| - i
  {
    if i < |t| {
      if IsQuote(t[i]) {
        if ReadParts(t, t[i], i + 1).Value? {
          SpanDeeper(t, ReadParts(t, t[i], i + 1).end, d, depth);
        }
      } else if t[i] == '(' {
        SpanDeeper(t, i + 1, d + 1, depth);
      } else if t[i] == ')' {
        if d > 1 {
          SpanDeeper(t, i + 1, d - 1, depth);
        }
      } else {
        SpanDeeper(t, i + 1, d, depth);
      }
    }
  }

  ghost predicate HangsAfter(t: string, i: nat, f: ArgsFront) {
    GoodArgsFront(f) && Stands(t, i, PrintArgsFront(f)) && DeadQuote(t, i + |PrintArgsFront(f)|)
  }

  lemma {:induction false} FrontOfArgs(t: string, i: nat) returns (f: ArgsFront)
    requires Span(t, i, 1).Hangs?
    ensures HangsAfter(t, i, f)
    decreases |t| - i
  {
    if IsQuote(t[i]) && !Read(t, i).Value? {
      DeadIsNotRead(t, i);
      f := Here;
    } else if IsQuote(t[i]) {
      f := FrontPastLiteral(t, i);
    } else if t[i] == '(' {
      SpanDeeper(t, i + 1, 1, 1);
      if Span(t, i + 1, 1).At? {
        f := FrontPastArgs(t, i);
      } else {
        var more := FrontOfArgs(t, i + 1);
        StandsChar(t, i, '(', PrintArgsFront(more));
        f := Opened(more);
      }
    } else {
      var more := FrontOfArgs(t, i + 1);
      StandsChar(t, i, t[i], PrintArgsFront(more));
      f := ArgsFront.Letter(t[i], more);
    }
  }

  lemma {:induction false} FrontPastLiteral(t: string, i: nat) returns (f: ArgsFront)
    requires i < |t| && IsQuote(t[i]) && Read(t, i).Value? && Span(t, i, 1).Hangs?
    ensures HangsAfter(t, i, f)
    decreases |t| - i, 0
  {
    hide Stands;
    var q := t[i];
    var parts := PartsOf(t, q, i + 1);
    PartsReadBack(t, q, i + 1, parts);
    PartsStand(t, i + 1, q, parts);
    var more := FrontOfArgs(t, i + 1 + PartsSize(parts));
    StandsSplit(t, i + 1, PrintParts(q, parts), PrintArgsFront(more));
    StandsChar(t, i, q, PrintParts(q, parts) + PrintArgsFront(more));
    f := ArgsFront.Literal(q, parts, more);
  }

  lemma {:induction false} FrontPastArgs(t: string, i: nat) returns (f: ArgsFront)
    requires i < |t| && t[i] == '(' && Span(t, i + 1, 1).At? && Span(t, Span(t, i + 1, 1).i + 1, 1).Hangs?
    ensures HangsAfter(t, i, f)
    decreases |t| - i, 0
  {
    hide Stands;
    var within := ArgsOf(t, i + 1, 1);
    ArgsSpanned(t, i + 1, 1, within);
    ArgsStand(t, i + 1, within);
    var more := FrontOfArgs(t, i + 1 + ArgsSize(within));
    StandsSplit(t, i + 1, PrintArgs(within), PrintArgsFront(more));
    StandsChar(t, i, '(', PrintArgs(within) + PrintArgsFront(more));
    f := Closed(within, more);
  }

  /** `_call_span` hangs exactly where arguments are printed up to a quote at which no literal
      stands. */
  lemma SpanHangsIff(t: string, i: nat)
    ensures Span(t, i, 1).Hangs? <==> exists f :: HangsAfter(t, i, f)
  {
    if Span(t, i, 1).Hangs? {
      var f := FrontOfArgs(t, i);
    } else if f :| HangsAfter(t, i, f) {
      FrontHangs(t, i, 1, f);
    }
  }

  // ---------------------------------------------------------------------------
  // Inside an interpolation
  // ---------------------------------------------------------------------------

  lemma CodePast(t: string, k: nat, depth: nat, p: Code, s: string)
    requires depth > 0 && GoodCode(p) && Stands(t, k, ['{'] + (PrintCode(p) + s))
    ensures SkipCode(t, k, depth) == SkipCode(t, k + 1 + |PrintCode(p)|, depth)
    ensures CharAt(t, k, '{') && SkipCode(t, k + 1, 1) == At(k + |PrintCode(p)|)
    ensures Stands(t, k + 1 + |PrintCode(p)|, s)
  {
    StandsChar(t, k, '{', PrintCode(p) + s);
    StandsSplit(t, k + 1, PrintCode(p), s);
    CodeStands(t, k + 1, p);
    SkipOpen(t, k, depth);
    CodeSkipped(t, k + 1, depth + 1, p);
    CodeSkipped(t, k + 1, 1, p);
  }

  lemma {:induction false} CodeFrontHangs(t: string, k: nat, depth: nat, f: CodeFront)
    requires depth > 0 && GoodCodeFront(f) && Stands(t, k, PrintCodeFront(f))
    requires DeadTick(t, k + |PrintCodeFront(f)|)
    ensures SkipCode(t, k, depth).Hangs?
    decreases f
  {
    match f
    case Now =>
      DeadIsNotRead(t, k);
    case Other(c, rest) =>
      StandsChar(t, k, c, PrintCodeFront(rest));
      SkipOther(t, k, depth, c);
      CodeFrontHangs(t, k + 1, depth, rest);
    case Open(rest) =>
      StandsChar(t, k, '{', PrintCodeFront(rest));
      SkipOpen(t, k, depth);
      CodeFrontHangs(t, k + 1, depth + 1, rest);
    case Braces(inner, rest) =>
      CodePast(t, k, depth, inner, PrintCodeFront(rest));
      CodeFrontHangs(t, k + 1 + |PrintCode(inner)|, depth, rest);
    case Nested(parts, rest) =>
      PartsPast(t, k, '`', parts, PrintCodeFront(rest));
      SkipNested(t, k, depth);
      CodeFrontHangs(t, k + 1 + |PrintParts('`', parts)|, depth, rest);
  }

  /** Inside one more brace: if it is closed, the code goes on past it. */
  lemma {:induction false} SkipDeeper(t: string, k: nat, d: nat, depth: nat)
    requires d > 0 && depth > 0
    ensures SkipCode(t, k, d + depth) ==
      match SkipCode(t, k, d) { case At(e) => SkipCode(t, e + 1, depth) case other => other }
    decreases |t| - k
  {
    if k < |t| {
      if t[k] == '{' {
        SkipDeeper(t, k + 1, d + 1, depth);
      } else if t[k] == '}' {
        if d > 1 {
          SkipDeeper(t, k + 1, d - 1, depth);
        }
      } else if t[k] == '`' {
        if ReadParts(t, '`', k + 1).Value? {
          SkipDeeper(t, ReadParts(t, '`', k + 1).end, d, depth);
        }
      } else {
        SkipDeeper(t, k + 1, d, depth);
      }
    }
  }

  ghost predicate CodeHangsAfter(t: string, k: nat, f: CodeFront) {
    GoodCodeFront(f) && Stands(t, k, PrintCodeFront(f)) && DeadTick(t, k + |PrintCodeFront(f)|)
  }

  lemma {:induction false} FrontOfCode(t: string, k: nat) returns (f: CodeFront)
    requires SkipCode(t, k, 1).Hangs?
    ensures CodeHangsAfter(t, k, f)
    decreases |t| - k
  {
    if t[k] == '`' && !Read(t, k).Value? {
      DeadIsNotRead(t, k);
      f := Now;
    } else if t[k] == '`' {
      f := FrontPastTemplate(t, k);
    } else if t[k] == '{' {
      SkipDeeper(t, k + 1, 1, 1);
      if SkipCode(t, k + 1, 1).At? {
        f := FrontPastBraces(t, k);
      } else {
        var rest := FrontOfCode(t, k + 1);
        StandsChar(t, k, '{', PrintCodeFront(rest));
        f := Open(rest);
      }
    } else {
      var rest := FrontOfCode(t, k + 1);
      StandsChar(t, k, t[k], PrintCodeFront(rest));
      f := CodeFront.Other(t[k], rest);
    }
  }

  lemma {:induction false} FrontPastTemplate(t: string, k: nat) returns (f: CodeFront)
    requires k < |t| && t[k] == '`' && Read(t, k).Value? && SkipCode(t, k, 1).Hangs?
    ensures CodeHangsAfter(t, k, f)
    decreases |t| - k, 0
  {
    hide Stands;
    var parts := PartsOf(t, '`', k + 1);
    PartsReadBack(t, '`', k + 1, parts);
    PartsStand(t, k + 1, '`', parts);
    var rest := FrontOfCode(t, k + 1 + PartsSize(parts));
    StandsSplit(t, k + 1, PrintParts('`', parts), PrintCodeFront(rest));
    StandsChar(t, k, '`', PrintParts('`', parts) + PrintCodeFront(rest));
    f := CodeFront.Nested(parts, rest);
  }

  lemma {:induction false} FrontPastBraces(t: string, k: nat) returns (f: CodeFront)
    requires k < |t| && t[k] == '{' && SkipCode(t, k + 1, 1).At? && SkipCode(t, SkipCode(t, k + 1, 1).i + 1, 1).Hangs?
    ensures CodeHangsAfter(t, k, f)
    decreases |t| - k, 0
  {
    hide Stands;
    var inner := CodeOf(t, k + 1, 1);
    CodeSkipped(t, k + 1, 1, inner);
    CodeStands(t, k + 1, inner);
    var rest := FrontOfCode(t, k + 1 + CodeSize(inner));
    StandsSplit(t, k + 1, PrintCode(inner), PrintCodeFront(rest));
    StandsChar(t, k, '{', PrintCode(inner) + PrintCodeFront(rest));
    f := CodeFront.Braces(inner, rest);
  }

  // ---------------------------------------------------------------------------
  // In a literal
  // ---------------------------------------------------------------------------

  /** A front that stands at `j` has no brace there if a plain `$` goes before it. */
  lemma FrontNoHole(t: string, j: nat, c: char, next: PartsFront)
    requires GoodPartsFront(PartsFront.Plain(c, next)) && CharAt(t, j, c) && Stands(t, j + 1, PrintPartsFront(next))
    ensures !HoleAt(t, '`', j)
  {
    if next.Plain? {
      StandsChar(t, j + 1, next.c, PrintPartsFront(next.next));
    } else if next.Inside? {
      StandsChar(t, j + 1, '$', ['{'] + PrintCodeFront(next.code));
    } else if next.Escape? {
      StandsChar(t, j + 1, '\\', [next.c] + PrintPartsFront(next.next));
    } else {
      StandsChar(t, j + 1, '$', ['{'] + (PrintCode(next.whole) + PrintPartsFront(next.next)));
    }
  }

  lemma PlainStuck(t: string, j: nat, c: char)
    requires CharAt(t, j, c) && c != '\\' && c != '`' && !HoleAt(t, '`', j) && ReadParts(t, '`', j + 1).Stuck?
    ensures ReadParts(t, '`', j).Stuck?
  {
  }

  lemma HoleStuck(t: string, j: nat)
    requires CharAt(t, j, '$') && CharAt(t, j + 1, '{')
    ensures ReadParts(t, '`', j).Stuck? <==> match SkipCode(t, j + 2, 1)
      case At(e) => ReadParts(t, '`', e + 1).Stuck?
      case RanOff => false
      case Hangs => true
  {
  }

  lemma {:induction false} PartsFrontStuck(t: string, j: nat, f: PartsFront)
    requires GoodPartsFront(f) && Stands(t, j, PrintPartsFront(f)) && DeadTick(t, j + |PrintPartsFront(f)|)
    ensures ReadParts(t, '`', j).Stuck?
    decreases f
  {
    match f
    case Inside(code) =>
      StandsChar(t, j, '$', ['{'] + PrintCodeFront(code));
      StandsChar(t, j + 1, '{', PrintCodeFront(code));
      CodeFrontHangs(t, j + 2, 1, code);
      HoleStuck(t, j);
    case Plain(c, next) =>
      StandsChar(t, j, c, PrintPartsFront(next));
      PartsFrontStuck(t, j + 1, next);
      FrontNoHole(t, j, c, next);
      PlainStuck(t, j, c);
    case Escape(c, next) =>
      StandsChar(t, j, '\\', [c] + PrintPartsFront(next));
      StandsChar(t, j + 1, c, PrintPartsFront(next));
      PartsFrontStuck(t, j + 2, next);
      ReadEscape(t, '`', j, Stuck);
    case Hole(whole, next) =>
      StandsChar(t, j, '$', ['{'] + (PrintCode(whole) + PrintPartsFront(next)));
      CodePast(t, j + 1, 1, whole, PrintPartsFront(next));
      PartsFrontStuck(t, j + 2 + |PrintCode(whole)|, next);
      HoleStuck(t, j);
  }

  ghost predicate StuckAfter(t: string, j: nat, f: PartsFront) {
    GoodPartsFront(f) && Stands(t, j, PrintPartsFront(f)) && DeadTick(t, j + |PrintPartsFront(f)|)
  }

  /** Only template literals have interpolations to hang in. */
  lemma {:induction false} OnlyTemplatesHang(t: string, q: char, j: nat)
    requires q != '`'
    ensures !ReadParts(t, q, j).Stuck?
    decreases |t| - j
  {
    if j < |t| && t[j] == '\\' {
      OnlyTemplatesHang(t, q, j + 2);
    } else if j < |t| && t[j] != q {
      OnlyTemplatesHang(t, q, j + 1);
    }
  }

  lemma PlainFront(t: string, j: nat, next: PartsFront)
    requires j < |t| && t[j] != '\\' && t[j] != '`' && !HoleAt(t, '`', j) && StuckAfter(t, j + 1, next)
    ensures StuckAfter(t, j, PartsFront.Plain(t[j], next))
  {
    StandsChar(t, j, t[j], PrintPartsFront(next));
    if next.Plain? {
      StandsChar(t, j + 1, next.c, PrintPartsFront(next.next));
    }
  }

  lemma EscapeFront(t: string, j: nat, next: PartsFront)
    requires CharAt(t, j, '\\') && j + 2 <= |t| && StuckAfter(t, j + 2, next)
    ensures StuckAfter(t, j, PartsFront.Escape(t[j + 1], next))
  {
    StandsChar(t, j, '\\', [t[j + 1]] + PrintPartsFront(next));
    StandsChar(t, j + 1, t[j + 1], PrintPartsFront(next));
  }

  lemma InsideFront(t: string, j: nat, code: CodeFront)
    requires HoleAt(t, '`', j) && CodeHangsAfter(t, j + 2, code)
    ensures StuckAfter(t, j, Inside(code))
  {
    StandsChar(t, j, '$', ['{'] + PrintCodeFront(code));
    StandsChar(t, j + 1, '{', PrintCodeFront(code));
  }

  lemma HoleFront(t: string, j: nat, whole: Code, next: PartsFront)
    requires HoleAt(t, '`', j) && GoodCode(whole) && Stands(t, j + 2, PrintCode(whole))
    requires StuckAfter(t, j + 2 + |PrintCode(whole)|, next)
    ensures StuckAfter(t, j, PartsFront.Hole(whole, next))
  {
    StandsSplit(t, j + 2, PrintCode(whole), PrintPartsFront(next));
    StandsChar(t, j + 1, '{', PrintCode(whole) + PrintPartsFront(next));
    StandsChar(t, j, '$', ['{'] + (PrintCode(whole) + PrintPartsFront(next)));
  }

  lemma {:induction false} FrontOfParts(t: string, j: nat) returns (f: PartsFront)
    requires ReadParts(t, '`', j).Stuck?
    ensures StuckAfter(t, j, f)
    decreases |t| - j
  {
    if t[j] == '\\' {
      var next := FrontOfParts(t, j + 2);
      EscapeFront(t, j, next);
      f := PartsFront.Escape(t[j + 1], next);
    } else if HoleAt(t, '`', j) {
      HoleStuck(t, j);
      if SkipCode(t, j + 2, 1).At? {
        var whole := CodeOf(t, j + 2, 1);
        CodeSkipped(t, j + 2, 1, whole);
        CodeStands(t, j + 2, whole);
        var next := FrontOfParts(t, j + 2 + CodeSize(whole));
        HoleFront(t, j, whole, next);
        f := PartsFront.Hole(whole, next);
      } else {
        var code := FrontOfCode(t, j + 2);
        InsideFront(t, j, code);
        f := Inside(code);
      }
    } else {
      var next := FrontOfParts(t, j + 1);
      PlainFront(t, j, next);
      f := PartsFront.Plain(t[j], next);
    }
  }

  ghost predicate LeavesOff(t: string, i: nat, f: PartsFront) {
    CharAt(t, i, '`') && StuckAfter(t, i + 1, f)
  }

  /** `_read_string` hangs exactly on a template literal that is printed up to a backtick inside
      one of its interpolations at which no template literal stands. */
  lemma ReadStuckIff(t: string, i: nat)
    requires i < |t| && IsQuote(t[i])
    ensures Read(t, i).Stuck? <==> exists f :: LeavesOff(t, i, f)
  {
    if t[i] != '`' {
      OnlyTemplatesHang(t, t[i], i + 1);
    } else if Read(t, i).Stuck? {
      var f := FrontOfParts(t, i + 1);
      assert LeavesOff(t, i, f);
    } else if f :| LeavesOff(t, i, f) {
      PartsFrontStuck(t, i + 1, f);
    }
  }

  /** A witness: a template literal whose interpolation opens another, and nothing more. */
  lemma OpenNestedLiteralHangs()
    ensures Read("`${`", 0).Stuck? && LeavesOff("`${`", 0, Inside(Now))
  {
    var t := "`${`";
    assert ReadParts(t, '`', 4).Unterminated?;
    DeadIsNotRead(t, 3);
    assert PrintPartsFront(Inside(Now)) == "${";
    PartsFrontStuck(t, 1, Inside(Now));
  }
}
