/** Strings: splitting, joining, decimal numbers. */
module Texts {

  predicate Without(u: string, c: char) {
    forall i :: 0 <= i < |u| ==> u[i] != c
  }

  lemma WithoutSum(a: string, b: string, c: char)
    ensures Without(a + b, c) <==> Without(a, c) && Without(b, c)
  {
    if Without(a + b, c) {
      assert forall i :: 0 <= i < |a| ==> a[i] == (a + b)[i];
      assert forall i :: 0 <= i < |b| ==> b[i] == (a + b)[|a| + i];
    }
  }

  /** `s.split(sep)`. */
  function SplitOn(sep: char, s: string): (r: seq<string>)
    ensures |r| > 0
  {
    if s == [] then [[]]
    else if s[0] == sep then [[]] + SplitOn(sep, s[1..])
    else [[s[0]] + SplitOn(sep, s[1..])[0]] + SplitOn(sep, s[1..])[1..]
  }

  /** `sep.join(parts)`. */
  function JoinWith(sep: string, parts: seq<string>): string {
    if parts == [] then []
    else if |parts| == 1 then parts[0]
    else parts[0] + (sep + JoinWith(sep, parts[1..]))
  }

  lemma HeadAndTail(sep: char, s: string)
    ensures SplitOn(sep, s) == [SplitOn(sep, s)[0]] + SplitOn(sep, s)[1..]
  {
  }

  lemma {:induction false} SplitPast(sep: char, x: string, u: string)
    requires Without(x, sep)
    ensures SplitOn(sep, x + u) == [x + SplitOn(sep, u)[0]] + SplitOn(sep, u)[1..]
  {
    if x == [] {
      assert x + u == u;
      HeadAndTail(sep, u);
      assert x + SplitOn(sep, u)[0] == SplitOn(sep, u)[0];
    } else {
      assert (x + u)[1..] == x[1..] + u;
      SplitPast(sep, x[1..], u);
      assert [x[0]] + (x[1..] + SplitOn(sep, u)[0]) == x + SplitOn(sep, u)[0];
    }
  }

  /** Parts without the separator survive being joined and split. */
  lemma {:induction false} SplitJoined(sep: char, parts: seq<string>)
    requires parts != [] && forall i :: 0 <= i < |parts| ==> Without(parts[i], sep)
    ensures SplitOn(sep, JoinWith([sep], parts)) == parts
  {
    if |parts| == 1 {
      SplitPast(sep, parts[0], []);
      assert parts[0] + [] == parts[0];
    } else {
      var rest := JoinWith([sep], parts[1..]);
      SplitJoined(sep, parts[1..]);
      SplitPast(sep, parts[0], [sep] + rest);
      assert ([sep] + rest)[1..] == rest;
      assert parts[0] + [] == parts[0];
      assert parts == [parts[0]] + parts[1..];
    }
  }

  lemma {:induction false} SplitAtSep(sep: char, a: string, b: string)
    ensures SplitOn(sep, a + ([sep] + b)) == SplitOn(sep, a) + SplitOn(sep, b)
  {
    if a == [] {
      assert a + ([sep] + b) == [sep] + b && ([sep] + b)[1..] == b;
    } else {
      assert (a + ([sep] + b))[1..] == a[1..] + ([sep] + b);
      SplitAtSep(sep, a[1..], b);
    }
  }

  lemma {:induction false} JoinedAfter(sep: char, parts: seq<string>, x: string)
    requires parts != []
    ensures JoinWith([sep], parts + [x]) == JoinWith([sep], parts) + ([sep] + x)
  {
    if |parts| == 1 {
      assert (parts + [x])[1..] == [x];
    } else {
      assert (parts + [x])[1..] == parts[1..] + [x];
      JoinedAfter(sep, parts[1..], x);
    }
  }

  // --- decimal numbers ---

  predicate IsDigit(c: char) {
    '0' <= c <= '9'
  }

  function DigitOf(d: nat): char
    requires d < 10
  {
    ('0' as int + d) as char
  }

  function ValueOf(c: char): nat
    requires IsDigit(c)
  {
    c as int - '0' as int
  }

  predicate AllDigits(s: string) {
    s != [] && forall i :: 0 <= i < |s| ==> IsDigit(s[i])
  }

  /** `int(s)` of a string of digits. */
  function NatOf(s: string): nat
    requires forall i :: 0 <= i < |s| ==> IsDigit(s[i])
  {
    if s == [] then 0 else 10 * NatOf(s[..|s| - 1]) + ValueOf(s[|s| - 1])
  }

  function PrintNat(n: nat): (s: string)
    ensures s != []
    ensures forall i :: 0 <= i < |s| ==> IsDigit(s[i])
  {
    if n < 10 then [DigitOf(n)] else PrintNat(n / 10) + [DigitOf(n % 10)]
  }

  lemma {:induction false} LeadingZero(s: string)
    requires forall i :: 0 <= i < |s| ==> IsDigit(s[i])
    ensures NatOf(['0'] + s) == NatOf(s)
  {
    var zero := ['0'] + s;
    if s == [] {
      assert zero[..0] == [] && zero == ['0'];
    } else {
      assert zero[..|zero| - 1] == ['0'] + s[..|s| - 1];
      LeadingZero(s[..|s| - 1]);
    }
  }

  lemma DigitValue(c: char)
    requires IsDigit(c)
    ensures DigitOf(ValueOf(c)) == c
  {
  }

  lemma NatOfMore(s: string, c: char)
    requires (forall i :: 0 <= i < |s| ==> IsDigit(s[i])) && IsDigit(c)
    ensures NatOf(s + [c]) / 10 == NatOf(s) && NatOf(s + [c]) % 10 == ValueOf(c)
  {
    assert (s + [c])[..|s|] == s;
  }

  /** A string of digits is the decimal form of its number, after any zeros. */
  lemma {:induction false} NatRead(s: string)
    requires AllDigits(s)
    ensures s == PrintNat(NatOf(s)) || (s[0] == '0' && NatOf(s) == NatOf(s[1..]))
  {
    hide NatOf, ValueOf;
    var front, last := s[..|s| - 1], s[|s| - 1];
    assert s == front + [last];
    DigitValue(last);
    NatOfMore(front, last);
    if front == [] {
      NoDigits();
      assert NatOf(s) == ValueOf(last);
    } else if s[0] == '0' {
      assert s == ['0'] + s[1..];
      LeadingZero(s[1..]);
    } else {
      NatRead(front);
      assert front == PrintNat(NatOf(front));
    }
  }

  lemma NoDigits()
    ensures NatOf([]) == 0
  {
  }

  // --- white space ---

  /** What Python's `str.split` and `str.strip` take for white space. */
  predicate IsSpace(c: char) {
    var n := c as int;
    9 <= n <= 13 || 28 <= n <= 32 || n == 133 || n == 160 || n == 5760 || 8192 <= n <= 8202
    || n == 8232 || n == 8233 || n == 8239 || n == 8287 || n == 12288
  }

  function StripLeft(s: string): string {
    if s != [] && IsSpace(s[0]) then StripLeft(s[1..]) else s
  }

  function StripRight(s: string): string {
    if s != [] && IsSpace(s[|s| - 1]) then StripRight(s[..|s| - 1]) else s
  }

  function Strip(s: string): string {
    StripRight(StripLeft(s))
  }

  /** Neither starts nor ends with white space. */
  predicate Tight(s: string) {
    s == [] || (!IsSpace(s[0]) && !IsSpace(s[|s| - 1]))
  }

  predicate AllSpace(s: string) {
    forall i :: 0 <= i < |s| ==> IsSpace(s[i])
  }

  /** `r` is `s` without the white space at both ends. */
  ghost predicate IsStripped(s: string, r: string) {
    Tight(r) && exists a, b :: AllSpace(a) && AllSpace(b) && s == a + (r + b)
  }

  lemma {:induction false} LeftStripped(s: string)
    ensures exists a :: AllSpace(a) && s == a + StripLeft(s)
    ensures StripLeft(s) == [] || !IsSpace(StripLeft(s)[0])
  {
    hide IsSpace;
    if s != [] && IsSpace(s[0]) {
      LeftStripped(s[1..]);
      var a :| AllSpace(a) && s[1..] == a + StripLeft(s[1..]);
      assert AllSpace([s[0]] + a) && s == [s[0]] + a + StripLeft(s);
    } else {
      assert AllSpace([]) && s == [] + StripLeft(s);
    }
  }

  lemma OneMoreSpace(a: string, b: string, c: char)
    requires AllSpace(b) && IsSpace(c)
    ensures AllSpace(b + [c]) && (a + b) + [c] == a + (b + [c])
  {
    hide IsSpace;
  }

  lemma {:induction false} RightStripped(s: string)
    ensures exists b :: AllSpace(b) && s == StripRight(s) + b
    ensures StripRight(s) == [] || (StripRight(s)[0] == s[0] && !IsSpace(StripRight(s)[|StripRight(s)| - 1]))
  {
    hide IsSpace, AllSpace;
    if s != [] && IsSpace(s[|s| - 1]) {
      var front, last := s[..|s| - 1], s[|s| - 1];
      RightStripped(front);
      var b :| AllSpace(b) && front == StripRight(front) + b;
      OneMoreSpace(StripRight(front), b, last);
      assert s == front + [last] && StripRight(s) == StripRight(front);
    } else {
      NoSpaces();
      assert s == StripRight(s) + [];
    }
  }

  lemma NoSpaces()
    ensures AllSpace([])
  {
  }

  lemma Stripped(s: string)
    ensures IsStripped(s, Strip(s))
  {
    var left := StripLeft(s);
    LeftStripped(s);
    RightStripped(left);
    var a :| AllSpace(a) && s == a + left;
    var b :| AllSpace(b) && left == Strip(s) + b;
    assert s == a + (Strip(s) + b);
  }

  lemma NothingToStrip(s: string)
    requires Tight(s)
    ensures Strip(s) == s
  {
  }

  lemma StripTwice(s: string)
    ensures Strip(Strip(s)) == Strip(s)
  {
    Stripped(s);
    NothingToStrip(Strip(s));
  }
}
