/**
 The call scanner of `map_ui_endpoints.py`: string and template literals, balanced calls,
 generic arguments. The scanning loops are proved against functions, and the functions
 against the printer of a small grammar, in both directions.
 */
module Scanner {

  // ---------------------------------------------------------------------------
  // The grammar and its printer
  // ---------------------------------------------------------------------------

  /** The inside of a literal. `Hole` is a `${...}` interpolation. */
  datatype Parts =
    | Done
    | Plain(c: char, rest: Parts)
    | Escape(c: char, rest: Parts)
    | Hole(code: Code, rest: Parts)

  /** The inside of an interpolation. `Nested` is a template literal within it. */
  datatype Code =
    | Stop
    | Other(c: char, more: Code)
    | Braces(inner: Code, more: Code)
    | Nested(parts: Parts, more: Code)

  /** The arguments of a call. */
  datatype Args =
    | NoMore
    | Letter(c: char, next: Args)
    | Parens(within: Args, next: Args)
    | Literal(quote: char, parts: Parts, next: Args)

  predicate IsQuote(c: char) {
    c == '\'' || c == '"' || c == '`'
  }

  /** `c` stands for itself in a literal between `q`s, with `rest` after it. */
  predicate PlainHere(q: char, c: char, rest: Parts) {
    c != '\\' && c != q && !(q == '`' && c == '$' && rest.Plain? && rest.c == '{')
  }

  predicate GoodParts(q: char, p: Parts)
    decreases p
  {
    match p
    case Done => true
    case Plain(c, rest) => PlainHere(q, c, rest) && GoodParts(q, rest)
    case Escape(_, rest) => GoodParts(q, rest)
    case Hole(code, rest) => q == '`' && GoodCode(code) && GoodParts(q, rest)
  }

  predicate GoodCode(p: Code)
    decreases p
  {
    match p
    case Stop => true
    case Other(c, more) => c != '{' && c != '}' && c != '`' && GoodCode(more)
    case Braces(inner, more) => GoodCode(inner) && GoodCode(more)
    case Nested(parts, more) => GoodParts('`', parts) && GoodCode(more)
  }

  predicate GoodArgs(a: Args) {
    match a
    case NoMore => true
    case Letter(c, next) => !IsQuote(c) && c != '(' && c != ')' && GoodArgs(next)
    case Parens(within, next) => GoodArgs(within) && GoodArgs(next)
    case Literal(q, parts, next) => IsQuote(q) && GoodParts(q, parts) && GoodArgs(next)
  }

  /** The parts of a literal as they are written, with the closing quote. */
  function PrintParts(q: char, p: Parts): string
    decreases p
  {
    match p
    case Done => [q]
    case Plain(c, rest) => [c] + PrintParts(q, rest)
    case Escape(c, rest) => ['\\'] + ([c] + PrintParts(q, rest))
    case Hole(code, rest) => ['$'] + (['{'] + (PrintCode(code) + PrintParts(q, rest)))
  }

  /** The code of an interpolation, with the closing brace. */
  function PrintCode(p: Code): string
    decreases p
  {
    match p
    case Stop => ['}']
    case Other(c, more) => [c] + PrintCode(more)
    case Braces(inner, more) => ['{'] + (PrintCode(inner) + PrintCode(more))
    case Nested(parts, more) => ['`'] + (PrintParts('`', parts) + PrintCode(more))
  }

  /** The arguments of a call, with the closing paren. */
  function PrintArgs(a: Args): string {
    match a
    case NoMore => [')']
    case Letter(c, next) => [c] + PrintArgs(next)
    case Parens(within, next) => ['('] + (PrintArgs(within) + PrintArgs(next))
    case Literal(q, parts, next) => [q] + (PrintParts(q, parts) + PrintArgs(next))
  }

  const PLACEHOLDER := "${...}"

  /** The value the scanner gives a literal: escapes dropped, interpolations collapsed. */
  function Flat(p: Parts): string {
    match p
    case Done => []
    case Plain(c, rest) => [c] + Flat(rest)
    case Escape(_, rest) => Flat(rest)
    case Hole(_, rest) => PLACEHOLDER + Flat(rest)
  }

  // ---------------------------------------------------------------------------
  // What the scanner computes
  // ---------------------------------------------------------------------------

  /** `Stuck` is a run of the script that never comes back: it met a literal that is not
      closed where it expects to skip one, and does not move past it. */
  datatype Outcome =
    | Value(value: string, end: nat)
    | Unterminated
    | Stuck

  datatype End = At(i: nat) | RanOff | Hangs

  function Behind(front: string, o: Outcome): Outcome {
    match o
    case Value(v, e) => Value(front + v, e)
    case _ => o
  }

  /** The interpolation starts at `t[j]`. */
  predicate HoleAt(t: string, q: char, j: nat) {
    q == '`' && j + 1 < |t| && t[j] == '$' && t[j + 1] == '{'
  }

  /** The rest of a literal, from `t[j]` on. */
  function ReadParts(t: string, q: char, j: nat): (o: Outcome)
    ensures o.Value? ==> j < o.end <= |t|
    decreases |t| - j, 1
  {
    if j >= |t| then Unterminated
    else if t[j] == '\\' then ReadParts(t, q, j + 2)
    else if HoleAt(t, q, j) then
      (match SkipCode(t, j + 2, 1)
       case At(k) => Behind(PLACEHOLDER, ReadParts(t, q, k + 1))
       case RanOff => Unterminated
       case Hangs => Stuck)
    else if t[j] == q then Value([], j + 1)
    else Behind([t[j]], ReadParts(t, q, j + 1))
  }

  /** Where the interpolation ends that is open `depth` braces deep at `t[k]`. */
  function SkipCode(t: string, k: nat, depth: nat): (e: End)
    requires depth > 0
    ensures e.At? ==> k <= e.i < |t|
    decreases |t| - k, 0
  {
    if k >= |t| then RanOff
    else if t[k] == '{' then SkipCode(t, k + 1, depth + 1)
    else if t[k] == '}' then if depth == 1 then At(k) else SkipCode(t, k + 1, depth - 1)
    else if t[k] == '`' then
      (match ReadParts(t, '`', k + 1)
       case Value(_, e) => SkipCode(t, e, depth)
       case _ => Hangs)
    else SkipCode(t, k + 1, depth)
  }

  /** The close paren of a call that is open `depth` parens deep at `t[i]`. */
  function Span(t: string, i: nat, depth: nat): (e: End)
    requires depth > 0
    ensures e.At? ==> i <= e.i < |t|
    decreases |t| - i
  {
    if i >= |t| then RanOff
    else if IsQuote(t[i]) then
      (match ReadParts(t, t[i], i + 1)
       case Value(_, e) => Span(t, e, depth)
       case _ => Hangs)
    else if t[i] == '(' then Span(t, i + 1, depth + 1)
    else if t[i] == ')' then if depth == 1 then At(i) else Span(t, i + 1, depth - 1)
    else Span(t, i + 1, depth)
  }

  // ---------------------------------------------------------------------------
  // Printed text in place
  // ---------------------------------------------------------------------------

  /** `s` stands in `t` at `j`. */
  predicate Stands(t: string, j: nat, s: string) {
    j + |s| <= |t| && forall i :: 0 <= i < |s| ==> t[j + i] == s[i]
  }

  lemma StandsSplit(t: string, j: nat, a: string, b: string)
    ensures Stands(t, j, a + b) <==> Stands(t, j, a) && Stands(t, j + |a|, b)
  {
    var s := a + b;
    assert |s| == |a| + |b|;
    if Stands(t, j, s) {
      forall i | 0 <= i < |a| ensures t[j + i] == a[i] { assert s[i] == a[i]; }
      forall i | 0 <= i < |b| ensures t[j + |a| + i] == b[i] { assert s[|a| + i] == b[i]; }
    } else if Stands(t, j, a) && Stands(t, j + |a|, b) {
      forall i | 0 <= i < |s|
        ensures t[j + i] == s[i]
      {
        if i >= |a| {
          assert s[i] == b[i - |a|];
        }
      }
    }
  }

  lemma StandsChar(t: string, j: nat, c: char, s: string)
    ensures Stands(t, j, [c] + s) <==> j < |t| && t[j] == c && Stands(t, j + 1, s)
  {
    StandsSplit(t, j, [c], s);
    assert Stands(t, j, [c]) <==> j < |t| && t[j] == c by {
      assert [c][0] == c;
      assert Stands(t, j, [c]) ==> t[j + 0] == [c][0];
    }
  }

  // The same, one character at a time.

  function PartsSize(p: Parts): (n: nat)
    ensures n > 0
  {
    match p
    case Done => 1
    case Plain(_, rest) => 1 + PartsSize(rest)
    case Escape(_, rest) => 2 + PartsSize(rest)
    case Hole(code, rest) => 2 + CodeSize(code) + PartsSize(rest)
  }

  function CodeSize(p: Code): (n: nat)
    ensures n > 0
  {
    match p
    case Stop => 1
    case Other(_, more) => 1 + CodeSize(more)
    case Braces(inner, more) => 1 + CodeSize(inner) + CodeSize(more)
    case Nested(parts, more) => 1 + PartsSize(parts) + CodeSize(more)
  }

  function ArgsSize(a: Args): (n: nat)
    ensures n > 0
  {
    match a
    case NoMore => 1
    case Letter(_, next) => 1 + ArgsSize(next)
    case Parens(within, next) => 1 + ArgsSize(within) + ArgsSize(next)
    case Literal(_, parts, next) => 1 + PartsSize(parts) + ArgsSize(next)
  }

  predicate CharAt(t: string, j: nat, c: char) {
    j < |t| && t[j] == c
  }

  predicate PartsAt(t: string, j: nat, q: char, p: Parts)
    decreases p
  {
    match p
    case Done => CharAt(t, j, q)
    case Plain(c, rest) => CharAt(t, j, c) && PartsAt(t, j + 1, q, rest)
    case Escape(c, rest) => CharAt(t, j, '\\') && CharAt(t, j + 1, c) && PartsAt(t, j + 2, q, rest)
    case Hole(code, rest) =>
      CharAt(t, j, '$') && CharAt(t, j + 1, '{') && CodeAt(t, j + 2, code)
        && PartsAt(t, j + 2 + CodeSize(code), q, rest)
  }

  predicate CodeAt(t: string, k: nat, p: Code)
    decreases p
  {
    match p
    case Stop => CharAt(t, k, '}')
    case Other(c, more) => CharAt(t, k, c) && CodeAt(t, k + 1, more)
    case Braces(inner, more) =>
      CharAt(t, k, '{') && CodeAt(t, k + 1, inner) && CodeAt(t, k + 1 + CodeSize(inner), more)
    case Nested(parts, more) =>
      CharAt(t, k, '`') && PartsAt(t, k + 1, '`', parts) && CodeAt(t, k + 1 + PartsSize(parts), more)
  }

  predicate ArgsAt(t: string, i: nat, a: Args)
    decreases a
  {
    match a
    case NoMore => CharAt(t, i, ')')
    case Letter(c, next) => CharAt(t, i, c) && ArgsAt(t, i + 1, next)
    case Parens(within, next) =>
      CharAt(t, i, '(') && ArgsAt(t, i + 1, within) && ArgsAt(t, i + 1 + ArgsSize(within), next)
    case Literal(q, parts, next) =>
      CharAt(t, i, q) && PartsAt(t, i + 1, q, parts) && ArgsAt(t, i + 1 + PartsSize(parts), next)
  }

  lemma StandsOne(t: string, j: nat, c: char)
    ensures Stands(t, j, [c]) <==> CharAt(t, j, c)
  {
    StandsChar(t, j, c, []);
    assert [c] + [] == [c];
  }

  lemma CharThen(t: string, j: nat, c: char, s: string, there: bool)
    requires Stands(t, j + 1, s) == there
    ensures Stands(t, j, [c] + s) <==> CharAt(t, j, c) && there
  {
    StandsChar(t, j, c, s);
  }

  lemma CharThenTwo(t: string, j: nat, c: char, a: string, b: string, size: nat, aThere: bool, bThere: bool)
    requires |a| == size && Stands(t, j + 1, a) == aThere && Stands(t, j + 1 + size, b) == bThere
    ensures |[c] + (a + b)| == 1 + size + |b|
    ensures Stands(t, j, [c] + (a + b)) <==> CharAt(t, j, c) && aThere && bThere
  {
    StandsChar(t, j, c, a + b);
    StandsSplit(t, j + 1, a, b);
  }

  lemma {:induction false} PartsStand(t: string, j: nat, q: char, p: Parts)
    ensures |PrintParts(q, p)| == PartsSize(p)
    ensures Stands(t, j, PrintParts(q, p)) <==> PartsAt(t, j, q, p)
    decreases p
  {
    hide Stands, PrintCode, CodeAt, CodeSize;
    match p
    case Done =>
      StandsOne(t, j, q);
    case Plain(c, rest) =>
      PartsStand(t, j + 1, q, rest);
      CharThen(t, j, c, PrintParts(q, rest), PartsAt(t, j + 1, q, rest));
    case Escape(c, rest) =>
      PartsStand(t, j + 2, q, rest);
      EscapeStands(t, j, q, c, rest);
    case Hole(code, rest) =>
      CodeStands(t, j + 2, code);
      PartsStand(t, j + 2 + CodeSize(code), q, rest);
      HoleStands(t, j, q, code, rest);
  }

  lemma EscapeStands(t: string, j: nat, q: char, c: char, rest: Parts)
    requires |PrintParts(q, rest)| == PartsSize(rest)
    requires Stands(t, j + 2, PrintParts(q, rest)) == PartsAt(t, j + 2, q, rest)
    ensures |PrintParts(q, Escape(c, rest))| == PartsSize(Escape(c, rest))
    ensures Stands(t, j, PrintParts(q, Escape(c, rest))) == PartsAt(t, j, q, Escape(c, rest))
  {
    hide Stands, PrintCode, CodeAt, CodeSize;
    CharThen(t, j + 1, c, PrintParts(q, rest), PartsAt(t, j + 2, q, rest));
    CharThen(t, j, '\\', [c] + PrintParts(q, rest), CharAt(t, j + 1, c) && PartsAt(t, j + 2, q, rest));
  }

  lemma HoleStands(t: string, j: nat, q: char, code: Code, rest: Parts)
    requires |PrintCode(code)| == CodeSize(code) && |PrintParts(q, rest)| == PartsSize(rest)
    requires Stands(t, j + 2, PrintCode(code)) == CodeAt(t, j + 2, code)
    requires var m := j + 2 + CodeSize(code); Stands(t, m, PrintParts(q, rest)) == PartsAt(t, m, q, rest)
    ensures |PrintParts(q, Hole(code, rest))| == PartsSize(Hole(code, rest))
    ensures Stands(t, j, PrintParts(q, Hole(code, rest))) == PartsAt(t, j, q, Hole(code, rest))
  {
    hide Stands, PrintCode, CodeAt, CodeSize;
    var n := CodeSize(code);
    var tail := ['{'] + (PrintCode(code) + PrintParts(q, rest));
    CharThenTwo(t, j + 1, '{', PrintCode(code), PrintParts(q, rest), n,
                CodeAt(t, j + 2, code), PartsAt(t, j + 2 + n, q, rest));
    CharThen(t, j, '$', tail, CharAt(t, j + 1, '{') && CodeAt(t, j + 2, code) && PartsAt(t, j + 2 + n, q, rest));
  }

  lemma {:induction false} CodeStands(t: string, k: nat, p: Code)
    ensures |PrintCode(p)| == CodeSize(p)
    ensures Stands(t, k, PrintCode(p)) <==> CodeAt(t, k, p)
    decreases p
  {
    hide Stands, PrintParts, PartsAt, PartsSize;
    match p
    case Stop =>
      StandsOne(t, k, '}');
    case Other(c, more) =>
      CodeStands(t, k + 1, more);
      CharThen(t, k, c, PrintCode(more), CodeAt(t, k + 1, more));
    case Braces(inner, more) =>
      CodeStands(t, k + 1, inner);
      CodeStands(t, k + 1 + CodeSize(inner), more);
      BracesStand(t, k, inner, more);
    case Nested(parts, more) =>
      PartsStand(t, k + 1, '`', parts);
      CodeStands(t, k + 1 + PartsSize(parts), more);
      NestedStands(t, k, '`', parts, more);
  }

  lemma BracesStand(t: string, k: nat, inner: Code, more: Code)
    requires |PrintCode(inner)| == CodeSize(inner) && |PrintCode(more)| == CodeSize(more)
    requires Stands(t, k + 1, PrintCode(inner)) == CodeAt(t, k + 1, inner)
    requires var m := k + 1 + CodeSize(inner); Stands(t, m, PrintCode(more)) == CodeAt(t, m, more)
    ensures |PrintCode(Braces(inner, more))| == CodeSize(Braces(inner, more))
    ensures Stands(t, k, PrintCode(Braces(inner, more))) == CodeAt(t, k, Braces(inner, more))
  {
    hide Stands, PrintParts, PartsAt, PartsSize;
    CharThenTwo(t, k, '{', PrintCode(inner), PrintCode(more), CodeSize(inner),
                CodeAt(t, k + 1, inner), CodeAt(t, k + 1 + CodeSize(inner), more));
  }

  lemma NestedStands(t: string, k: nat, q: char, parts: Parts, more: Code)
    requires q == '`' && |PrintParts(q, parts)| == PartsSize(parts) && |PrintCode(more)| == CodeSize(more)
    requires Stands(t, k + 1, PrintParts(q, parts)) == PartsAt(t, k + 1, q, parts)
    requires var m := k + 1 + PartsSize(parts); Stands(t, m, PrintCode(more)) == CodeAt(t, m, more)
    ensures |PrintCode(Nested(parts, more))| == CodeSize(Nested(parts, more))
    ensures Stands(t, k, PrintCode(Nested(parts, more))) == CodeAt(t, k, Nested(parts, more))
  {
    hide Stands, PrintParts, PartsAt, PartsSize;
    CharThenTwo(t, k, q, PrintParts(q, parts), PrintCode(more), PartsSize(parts),
                PartsAt(t, k + 1, q, parts), CodeAt(t, k + 1 + PartsSize(parts), more));
  }

  lemma {:induction false} ArgsStand(t: string, i: nat, a: Args)
    ensures |PrintArgs(a)| == ArgsSize(a)
    ensures Stands(t, i, PrintArgs(a)) <==> ArgsAt(t, i, a)
    decreases a
  {
    hide Stands, PrintParts, PartsAt, PartsSize, PrintCode, CodeAt, CodeSize;
    match a
    case NoMore =>
      StandsOne(t, i, ')');
    case Letter(c, next) =>
      ArgsStand(t, i + 1, next);
      CharThen(t, i, c, PrintArgs(next), ArgsAt(t, i + 1, next));
    case Parens(within, next) =>
      ArgsStand(t, i + 1, within);
      ArgsStand(t, i + 1 + ArgsSize(within), next);
      ParensStand(t, i, within, next);
    case Literal(q, parts, next) =>
      PartsStand(t, i + 1, q, parts);
      ArgsStand(t, i + 1 + PartsSize(parts), next);
      LiteralStands(t, i, q, parts, next);
  }

  lemma ParensStand(t: string, i: nat, within: Args, next: Args)
    requires |PrintArgs(within)| == ArgsSize(within) && |PrintArgs(next)| == ArgsSize(next)
    requires Stands(t, i + 1, PrintArgs(within)) == ArgsAt(t, i + 1, within)
    requires var m := i + 1 + ArgsSize(within); Stands(t, m, PrintArgs(next)) == ArgsAt(t, m, next)
    ensures |PrintArgs(Parens(within, next))| == ArgsSize(Parens(within, next))
    ensures Stands(t, i, PrintArgs(Parens(within, next))) == ArgsAt(t, i, Parens(within, next))
  {
    hide Stands, PrintParts, PartsAt, PartsSize, PrintCode, CodeAt, CodeSize;
    var n := ArgsSize(within);
    CharThenTwo(t, i, '(', PrintArgs(within), PrintArgs(next), n, ArgsAt(t, i + 1, within), ArgsAt(t, i + 1 + n, next));
  }

  lemma LiteralStands(t: string, i: nat, q: char, parts: Parts, next: Args)
    requires |PrintParts(q, parts)| == PartsSize(parts) && |PrintArgs(next)| == ArgsSize(next)
    requires Stands(t, i + 1, PrintParts(q, parts)) == PartsAt(t, i + 1, q, parts)
    requires var m := i + 1 + PartsSize(parts); Stands(t, m, PrintArgs(next)) == ArgsAt(t, m, next)
    ensures |PrintArgs(Literal(q, parts, next))| == ArgsSize(Literal(q, parts, next))
    ensures Stands(t, i, PrintArgs(Literal(q, parts, next))) == ArgsAt(t, i, Literal(q, parts, next))
  {
    hide Stands, PrintParts, PartsAt, PartsSize, PrintCode, CodeAt, CodeSize;
    var n := PartsSize(parts);
    CharThenTwo(t, i, q, PrintParts(q, parts), PrintArgs(next), n, PartsAt(t, i + 1, q, parts), ArgsAt(t, i + 1 + n, next));
  }

  // ---------------------------------------------------------------------------
  // Whatever is printed is read back
  // ---------------------------------------------------------------------------

  // What the definitions say of one constructor, for the inductions below, which do not unfold
  // them further.

  lemma ArgsUnfolded(t: string, i: nat, a: Args)
    requires GoodArgs(a) && ArgsAt(t, i, a)
    ensures match a
      case NoMore => CharAt(t, i, ')') && ArgsSize(a) == 1
      case Letter(c, next) =>
        && !IsQuote(c) && c != '(' && c != ')' && CharAt(t, i, c)
        && GoodArgs(next) && ArgsAt(t, i + 1, next) && ArgsSize(a) == 1 + ArgsSize(next)
      case Parens(within, next) =>
        && CharAt(t, i, '(') && GoodArgs(within) && ArgsAt(t, i + 1, within)
        && GoodArgs(next) && ArgsAt(t, i + 1 + ArgsSize(within), next)
        && ArgsSize(a) == 1 + ArgsSize(within) + ArgsSize(next)
      case Literal(q, parts, next) =>
        && IsQuote(q) && CharAt(t, i, q) && GoodParts(q, parts) && PartsAt(t, i + 1, q, parts)
        && GoodArgs(next) && ArgsAt(t, i + 1 + PartsSize(parts), next)
        && ArgsSize(a) == 1 + PartsSize(parts) + ArgsSize(next)
  {
  }

  lemma CodeUnfolded(t: string, k: nat, p: Code)
    requires GoodCode(p) && CodeAt(t, k, p)
    ensures match p
      case Stop => CharAt(t, k, '}') && CodeSize(p) == 1
      case Other(c, more) =>
        && c != '{' && c != '}' && c != '`' && CharAt(t, k, c)
        && GoodCode(more) && CodeAt(t, k + 1, more) && CodeSize(p) == 1 + CodeSize(more)
      case Braces(inner, more) =>
        && CharAt(t, k, '{') && GoodCode(inner) && CodeAt(t, k + 1, inner)
        && GoodCode(more) && CodeAt(t, k + 1 + CodeSize(inner), more)
        && CodeSize(p) == 1 + CodeSize(inner) + CodeSize(more)
      case Nested(parts, more) =>
        && CharAt(t, k, '`') && GoodParts('`', parts) && PartsAt(t, k + 1, '`', parts)
        && GoodCode(more) && CodeAt(t, k + 1 + PartsSize(parts), more)
        && CodeSize(p) == 1 + PartsSize(parts) + CodeSize(more)
  {
  }

  lemma PartsUnfolded(t: string, q: char, j: nat, p: Parts)
    requires GoodParts(q, p) && PartsAt(t, j, q, p)
    ensures match p
      case Done => CharAt(t, j, q)
      case Plain(c, rest) =>
        PlainHere(q, c, rest) && CharAt(t, j, c) && GoodParts(q, rest) && PartsAt(t, j + 1, q, rest)
      case Escape(c, rest) =>
        CharAt(t, j, '\\') && CharAt(t, j + 1, c) && GoodParts(q, rest) && PartsAt(t, j + 2, q, rest)
      case Hole(code, rest) =>
        && q == '`' && CharAt(t, j, '$') && CharAt(t, j + 1, '{') && GoodCode(code) && CodeAt(t, j + 2, code)
        && GoodParts(q, rest) && PartsAt(t, j + 2 + CodeSize(code), q, rest)
  {
  }

  lemma ReadDone(t: string, q: char, j: nat)
    requires IsQuote(q) && CharAt(t, j, q)
    ensures ReadParts(t, q, j) == Value([], j + 1)
  {
  }

  lemma ReadPlain(t: string, q: char, j: nat, c: char, v: string, end: nat)
    requires CharAt(t, j, c) && c != '\\' && c != q && !HoleAt(t, q, j) && ReadParts(t, q, j + 1) == Value(v, end)
    ensures ReadParts(t, q, j) == Value([c] + v, end)
  {
  }

  lemma ReadEscape(t: string, q: char, j: nat, o: Outcome)
    requires CharAt(t, j, '\\') && ReadParts(t, q, j + 2) == o
    ensures ReadParts(t, q, j) == o
  {
  }

  lemma ReadHole(t: string, j: nat, e: nat, v: string, end: nat)
    requires CharAt(t, j, '$') && CharAt(t, j + 1, '{')
    requires SkipCode(t, j + 2, 1) == At(e) && ReadParts(t, '`', e + 1) == Value(v, end)
    ensures ReadParts(t, '`', j) == Value(PLACEHOLDER + v, end)
  {
  }

  lemma NoHole(t: string, q: char, j: nat, c: char, rest: Parts)
    requires CharAt(t, j, c) && PlainHere(q, c, rest) && PartsAt(t, j + 1, q, rest) && IsQuote(q)
    ensures !HoleAt(t, q, j)
  {
  }

  lemma {:induction false} PartsReadBack(t: string, q: char, j: nat, p: Parts)
    requires IsQuote(q) && GoodParts(q, p) && PartsAt(t, j, q, p)
    ensures ReadParts(t, q, j) == Value(Flat(p), j + PartsSize(p))
    decreases p
  {
    hide ReadParts, SkipCode, SkipFrom, GoodParts, PartsAt, CodeAt, GoodCode, CodeSize;
    PartsUnfolded(t, q, j, p);
    match p
    case Done =>
      ReadDone(t, q, j);
    case Plain(c, rest) =>
      PartsReadBack(t, q, j + 1, rest);
      PlainReadBack(t, q, j, c, rest);
    case Escape(c, rest) =>
      PartsReadBack(t, q, j + 2, rest);
      ReadEscape(t, q, j, Value(Flat(rest), j + 2 + PartsSize(rest)));
    case Hole(code, rest) =>
      CodeSkipped(t, j + 2, 1, code);
      PartsReadBack(t, q, j + 2 + CodeSize(code), rest);
      HoleReadBack(t, j, code, rest);
  }

  lemma PlainReadBack(t: string, q: char, j: nat, c: char, rest: Parts)
    requires IsQuote(q) && PlainHere(q, c, rest) && CharAt(t, j, c) && PartsAt(t, j + 1, q, rest)
    requires ReadParts(t, q, j + 1) == Value(Flat(rest), j + 1 + PartsSize(rest))
    ensures ReadParts(t, q, j) == Value(Flat(Plain(c, rest)), j + PartsSize(Plain(c, rest)))
  {
    NoHole(t, q, j, c, rest);
    ReadPlain(t, q, j, c, Flat(rest), j + 1 + PartsSize(rest));
  }

  lemma HoleReadBack(t: string, j: nat, code: Code, rest: Parts)
    requires CharAt(t, j, '$') && CharAt(t, j + 1, '{')
    requires var e := j + 2 + CodeSize(code);
      SkipCode(t, j + 2, 1) == SkipFrom(t, e, 1) && ReadParts(t, '`', e) == Value(Flat(rest), e + PartsSize(rest))
    ensures ReadParts(t, '`', j) == Value(Flat(Hole(code, rest)), j + PartsSize(Hole(code, rest)))
  {
    var e := j + 2 + CodeSize(code);
    ReadHole(t, j, e - 1, Flat(rest), e + PartsSize(rest));
  }

  /** What is left to skip after a brace has closed at `t[e - 1]`. */
  function SkipFrom(t: string, e: nat, depth: nat): End
    requires depth > 0 && e > 0
  {
    if depth == 1 then At(e - 1) else SkipCode(t, e, depth - 1)
  }

  lemma SkipOther(t: string, k: nat, depth: nat, c: char)
    requires depth > 0 && CharAt(t, k, c) && c != '{' && c != '}' && c != '`'
    ensures SkipCode(t, k, depth) == SkipCode(t, k + 1, depth)
  {
  }

  lemma SkipOpen(t: string, k: nat, depth: nat)
    requires depth > 0 && CharAt(t, k, '{')
    ensures SkipCode(t, k, depth) == SkipCode(t, k + 1, depth + 1)
  {
  }

  lemma SkipNested(t: string, k: nat, depth: nat)
    requires depth > 0 && CharAt(t, k, '`') && ReadParts(t, '`', k + 1).Value?
    ensures SkipCode(t, k, depth) == SkipCode(t, ReadParts(t, '`', k + 1).end, depth)
  {
  }

  /** A pair of braces whose inside ends at `m`, then more code that ends at `e`. */
  lemma SkipBraces(t: string, k: nat, depth: nat, m: nat, e: nat)
    requires depth > 0 && CharAt(t, k, '{') && m > 0 && e > 0
    requires SkipCode(t, k + 1, depth + 1) == SkipFrom(t, m, depth + 1) && SkipCode(t, m, depth) == SkipFrom(t, e, depth)
    ensures SkipCode(t, k, depth) == SkipFrom(t, e, depth)
  {
    SkipOpen(t, k, depth);
  }

  lemma SkipClose(t: string, k: nat, depth: nat)
    requires depth > 0 && CharAt(t, k, '}')
    ensures SkipCode(t, k, depth) == SkipFrom(t, k + 1, depth)
  {
  }

  lemma {:induction false} CodeSkipped(t: string, k: nat, depth: nat, p: Code)
    requires depth > 0 && GoodCode(p) && CodeAt(t, k, p)
    ensures SkipCode(t, k, depth) == SkipFrom(t, k + CodeSize(p), depth)
    decreases p
  {
    hide ReadParts, SkipCode, SkipFrom, GoodCode, CodeAt, CodeSize, PartsAt, GoodParts, PartsSize;
    CodeUnfolded(t, k, p);
    match p
    case Stop =>
      SkipClose(t, k, depth);
    case Other(c, more) =>
      CodeSkipped(t, k + 1, depth, more);
      SkipOther(t, k, depth, c);
    case Braces(inner, more) =>
      var m := k + 1 + CodeSize(inner);
      CodeSkipped(t, k + 1, depth + 1, inner);
      CodeSkipped(t, m, depth, more);
      SkipBraces(t, k, depth, m, m + CodeSize(more));
    case Nested(parts, more) =>
      PartsReadBack(t, '`', k + 1, parts);
      SkipNested(t, k, depth);
      CodeSkipped(t, k + 1 + PartsSize(parts), depth, more);
  }

  /** What is left of the span after a paren has closed at `t[e - 1]`. */
  function SpanFrom(t: string, e: nat, depth: nat): End
    requires depth > 0 && e > 0
  {
    if depth == 1 then At(e - 1) else Span(t, e, depth - 1)
  }

  lemma SpanLiteral(t: string, i: nat, depth: nat, q: char, p: Parts)
    requires depth > 0 && IsQuote(q) && GoodParts(q, p) && CharAt(t, i, q) && PartsAt(t, i + 1, q, p)
    ensures Span(t, i, depth) == Span(t, i + 1 + PartsSize(p), depth)
  {
    PartsReadBack(t, q, i + 1, p);
    SpanQuoted(t, i, depth);
  }

  lemma SpanQuoted(t: string, i: nat, depth: nat)
    requires depth > 0 && i < |t| && IsQuote(t[i]) && ReadParts(t, t[i], i + 1).Value?
    ensures Span(t, i, depth) == Span(t, ReadParts(t, t[i], i + 1).end, depth)
  {
  }

  lemma SpanLetter(t: string, i: nat, depth: nat, c: char)
    requires depth > 0 && CharAt(t, i, c) && !IsQuote(c) && c != '(' && c != ')'
    ensures Span(t, i, depth) == Span(t, i + 1, depth)
  {
  }

  lemma SpanClose(t: string, i: nat, depth: nat)
    requires depth > 0 && CharAt(t, i, ')')
    ensures Span(t, i, depth) == SpanFrom(t, i + 1, depth)
  {
  }

  lemma SpanOpen(t: string, i: nat, depth: nat)
    requires depth > 0 && CharAt(t, i, '(')
    ensures Span(t, i, depth) == Span(t, i + 1, depth + 1)
  {
  }

  /** A pair of parens whose inside ends at `m`, then more arguments that end at `e`. */
  lemma SpanParens(t: string, i: nat, depth: nat, m: nat, e: nat)
    requires depth > 0 && CharAt(t, i, '(') && m > 0 && e > 0
    requires Span(t, i + 1, depth + 1) == SpanFrom(t, m, depth + 1) && Span(t, m, depth) == SpanFrom(t, e, depth)
    ensures Span(t, i, depth) == SpanFrom(t, e, depth)
  {
    SpanOpen(t, i, depth);
  }

  lemma {:induction false} ArgsSpanned(t: string, i: nat, depth: nat, a: Args)
    requires depth > 0 && GoodArgs(a) && ArgsAt(t, i, a)
    ensures Span(t, i, depth) == SpanFrom(t, i + ArgsSize(a), depth)
    decreases a
  {
    hide Span, SpanFrom, IsQuote, GoodArgs, ArgsAt, ArgsSize, PartsAt, GoodParts, PartsSize;
    ArgsUnfolded(t, i, a);
    match a
    case NoMore =>
      SpanClose(t, i, depth);
    case Letter(c, next) =>
      ArgsSpanned(t, i + 1, depth, next);
      SpanLetter(t, i, depth, c);
    case Parens(within, next) =>
      var m := i + 1 + ArgsSize(within);
      ArgsSpanned(t, i + 1, depth + 1, within);
      ArgsSpanned(t, m, depth, next);
      SpanParens(t, i, depth, m, m + ArgsSize(next));
    case Literal(q, parts, next) =>
      SpanLiteral(t, i, depth, q, parts);
      ArgsSpanned(t, i + 1 + PartsSize(parts), depth, next);
  }

  // ---------------------------------------------------------------------------
  // Whatever is read was printed
  // ---------------------------------------------------------------------------

  lemma PlainBefore(t: string, q: char, j: nat, rest: Parts)
    requires IsQuote(q) && j < |t| && t[j] != '\\' && t[j] != q && !HoleAt(t, q, j)
    requires PartsAt(t, j + 1, q, rest)
    ensures PlainHere(q, t[j], rest)
  {
  }

  /** The parts that a literal which was read consists of. */
  lemma {:induction false} PartsOf(t: string, q: char, j: nat) returns (p: Parts)
    requires IsQuote(q) && ReadParts(t, q, j).Value?
    ensures GoodParts(q, p) && PartsAt(t, j, q, p)
    decreases |t| - j, 1
  {
    if t[j] == '\\' {
      var rest := PartsOf(t, q, j + 2);
      p := Escape(t[j + 1], rest);
    } else if HoleAt(t, q, j) {
      var code := CodeOf(t, j + 2, 1);
      CodeSkipped(t, j + 2, 1, code);
      var rest := PartsOf(t, q, j + 2 + CodeSize(code));
      p := Hole(code, rest);
    } else if t[j] == q {
      p := Parts.Done;
    } else {
      var rest := PartsOf(t, q, j + 1);
      PlainBefore(t, q, j, rest);
      p := Plain(t[j], rest);
    }
  }

  /** The code up to the brace that closes the innermost of `depth` open ones. */
  lemma {:induction false} CodeOf(t: string, k: nat, depth: nat) returns (p: Code)
    requires depth > 0 && SkipCode(t, k, depth).At?
    ensures GoodCode(p) && CodeAt(t, k, p)
    decreases |t| - k, 0
  {
    if t[k] == '{' {
      var inner := CodeOf(t, k + 1, depth + 1);
      CodeSkipped(t, k + 1, depth + 1, inner);
      CodeSizeBound(t, k + 1, inner);
      var more := CodeOf(t, k + 1 + CodeSize(inner), depth);
      p := Braces(inner, more);
    } else if t[k] == '}' {
      p := Stop;
    } else if t[k] == '`' {
      var parts := PartsOf(t, '`', k + 1);
      PartsReadBack(t, '`', k + 1, parts);
      var more := CodeOf(t, k + 1 + PartsSize(parts), depth);
      p := Nested(parts, more);
    } else {
      var more := CodeOf(t, k + 1, depth);
      p := Other(t[k], more);
    }
  }

  lemma CodeSizeBound(t: string, k: nat, p: Code)
    requires GoodCode(p) && CodeAt(t, k, p)
    ensures k + CodeSize(p) <= |t|
  {
    CodeSkipped(t, k, 1, p);
  }

  lemma ArgsSizeBound(t: string, i: nat, a: Args)
    requires GoodArgs(a) && ArgsAt(t, i, a)
    ensures i + ArgsSize(a) <= |t|
  {
    ArgsSpanned(t, i, 1, a);
  }

  /** The arguments up to the paren that closes the innermost of `depth` open ones. */
  lemma {:induction false} ArgsOf(t: string, i: nat, depth: nat) returns (a: Args)
    requires depth > 0 && Span(t, i, depth).At?
    ensures GoodArgs(a) && ArgsAt(t, i, a)
    decreases |t| - i
  {
    if IsQuote(t[i]) {
      var parts := PartsOf(t, t[i], i + 1);
      PartsReadBack(t, t[i], i + 1, parts);
      SpanQuoted(t, i, depth);
      var next := ArgsOf(t, i + 1 + PartsSize(parts), depth);
      a := Literal(t[i], parts, next);
    } else if t[i] == '(' {
      SpanOpen(t, i, depth);
      var within := ArgsOf(t, i + 1, depth + 1);
      ArgsSpanned(t, i + 1, depth + 1, within);
      ArgsSizeBound(t, i + 1, within);
      var next := ArgsOf(t, i + 1 + ArgsSize(within), depth);
      a := Parens(within, next);
    } else if t[i] == ')' {
      a := NoMore;
    } else {
      var next := ArgsOf(t, i + 1, depth);
      a := Letter(t[i], next);
    }
  }

  // ---------------------------------------------------------------------------
  // Main results
  // ---------------------------------------------------------------------------

  function PrintLiteral(q: char, p: Parts): string {
    [q] + PrintParts(q, p)
  }

  /** What `_read_string` makes of the literal that opens at `t[i]`. */
  function Read(t: string, i: nat): Outcome
    requires i < |t|
  {
    ReadParts(t, t[i], i + 1)
  }

  ghost predicate LiteralAt(t: string, i: nat, q: char, p: Parts) {
    IsQuote(q) && GoodParts(q, p) && Stands(t, i, PrintLiteral(q, p))
  }

  /** A literal printed anywhere in a text is read back: its flattened value, and the index
      just past it. */
  lemma LiteralReadBack(t: string, i: nat, q: char, p: Parts)
    requires LiteralAt(t, i, q, p)
    ensures i < |t| && t[i] == q && Read(t, i) == Value(Flat(p), i + |PrintLiteral(q, p)|)
  {
    StandsChar(t, i, q, PrintParts(q, p));
    PartsStand(t, i + 1, q, p);
    PartsReadBack(t, q, i + 1, p);
  }

  /** The scanner returns a value exactly where a literal stands; elsewhere it reports an
      unterminated one or never comes back. */
  lemma ReadsLiteralsOnly(t: string, i: nat)
    requires i < |t| && IsQuote(t[i])
    ensures Read(t, i).Value? <==> exists p :: LiteralAt(t, i, t[i], p)
  {
    if Read(t, i).Value? {
      var p := PartsOf(t, t[i], i + 1);
      PartsStand(t, i + 1, t[i], p);
      StandsChar(t, i, t[i], PrintParts(t[i], p));
      assert LiteralAt(t, i, t[i], p);
    } else if p :| LiteralAt(t, i, t[i], p) {
      LiteralReadBack(t, i, t[i], p);
    }
  }

  /** The close paren of printed arguments is the one that `_call_span` finds. */
  lemma ArgsReadBack(t: string, i: nat, a: Args)
    requires GoodArgs(a) && Stands(t, i, PrintArgs(a))
    ensures Span(t, i, 1) == At(i + |PrintArgs(a)| - 1)
  {
    ArgsStand(t, i, a);
    ArgsSpanned(t, i, 1, a);
  }

  /** `_call_span` finds a close paren exactly where well-formed arguments stand. */
  lemma SpansArgsOnly(t: string, i: nat)
    ensures Span(t, i, 1).At? <==> exists a :: GoodArgs(a) && Stands(t, i, PrintArgs(a))
  {
    if Span(t, i, 1).At? {
      var a := ArgsOf(t, i, 1);
      ArgsStand(t, i, a);
    } else if a :| GoodArgs(a) && Stands(t, i, PrintArgs(a)) {
      ArgsReadBack(t, i, a);
    }
  }
}
