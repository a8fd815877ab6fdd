/**
 Catalog versions: the bump of `cut_catalog_release.py` and the comparison by which
 `seed_catalog.py` offers an upgrade.
 */
module Versions {
  import opened Wrappers
  import opened Texts

  type Version = seq<int>

  /** Python's order on tuples. */
  predicate Less(a: Version, b: Version) {
    b != [] && (a == [] || a[0] < b[0] || (a[0] == b[0] && Less(a[1..], b[1..])))
  }

  // ---------------------------------------------------------------------------
  // Parsing and printing
  // ---------------------------------------------------------------------------

  /** Digits, with single underscores between them. */
  function ParseDigits(s: string): Option<nat> {
    if s == [] || !IsDigit(s[|s| - 1]) then None
    else if |s| == 1 then Some(ValueOf(s[0]))
    else
      var front := if s[|s| - 2] == '_' then s[..|s| - 2] else s[..|s| - 1];
      match ParseDigits(front)
      case Some(n) => Some(10 * n + ValueOf(s[|s| - 1]))
      case None => None
  }

  /** `int(x)`. */
  function ParseInt(x: string): Option<int> {
    var s := Strip(x);
    if s != [] && (s[0] == '-' || s[0] == '+') then
      (match ParseDigits(s[1..])
       case Some(n) => var i: int := n; Some(if s[0] == '-' then -i else i)
       case None => None)
    else
      (match ParseDigits(s)
       case Some(n) => Some(n)
       case None => None)
  }

  predicate GoodChar(s: string, i: nat) {
    i < |s| && (IsDigit(s[i]) || (s[i] == '_' && 0 < i < |s| - 1 && IsDigit(s[i - 1]) && IsDigit(s[i + 1])))
  }

  /** Digits and underscores, each underscore between two digits. */
  predicate Grouped(s: string) {
    s != [] && forall i :: 0 <= i < |s| ==> GoodChar(s, i)
  }

  function DigitsIn(s: string): (r: string)
    ensures forall i :: 0 <= i < |r| ==> IsDigit(r[i])
  {
    if s == [] then [] else DigitsIn(s[..|s| - 1]) + (if IsDigit(s[|s| - 1]) then [s[|s| - 1]] else [])
  }

  lemma DigitsInFront(s: string, front: string)
    requires |s| > 1 && IsDigit(s[|s| - 1])
    requires front == if s[|s| - 2] == '_' then s[..|s| - 2] else s[..|s| - 1]
    ensures DigitsIn(s) == DigitsIn(front) + [s[|s| - 1]]
  {
    var before := s[..|s| - 1];
    assert before[..|before| - 1] == s[..|s| - 2];
  }

  lemma OneDigit(s: string)
    requires |s| == 1
    ensures Grouped(s) <==> IsDigit(s[0])
    ensures IsDigit(s[0]) ==> DigitsIn(s) == s && NatOf(s) == ValueOf(s[0])
  {
    assert Grouped(s) ==> GoodChar(s, 0);
    assert DigitsIn(s[..0]) == [];
  }

  lemma NoDigitLast(s: string)
    requires s != [] && !IsDigit(s[|s| - 1])
    ensures !Grouped(s)
  {
    assert Grouped(s) ==> GoodChar(s, |s| - 1);
  }

  lemma {:induction false} DigitsRead(s: string)
    ensures ParseDigits(s) == if Grouped(s) then Some(NatOf(DigitsIn(s))) else None
  {
    hide Grouped, DigitsIn;
    if s == [] {
      NothingGrouped();
    } else if !IsDigit(s[|s| - 1]) {
      NoDigitLast(s);
    } else if |s| == 1 {
      OneDigit(s);
    } else {
      var front := if s[|s| - 2] == '_' then s[..|s| - 2] else s[..|s| - 1];
      DigitsRead(front);
      GroupedFront(s, front);
      DigitsInFront(s, front);
      assert DigitsIn(s)[..|DigitsIn(s)| - 1] == DigitsIn(front);
    }
  }

  lemma NothingGrouped()
    ensures !Grouped([])
  {
  }

  lemma GroupedFront(s: string, front: string)
    requires |s| > 1 && IsDigit(s[|s| - 1])
    requires front == if s[|s| - 2] == '_' then s[..|s| - 2] else s[..|s| - 1]
    ensures Grouped(s) <==> Grouped(front)
  {
    if Grouped(s) {
      assert GoodChar(s, 0) && GoodChar(s, |s| - 2);
      forall i | 0 <= i < |front|
        ensures GoodChar(front, i)
      {
        assert GoodChar(s, i) && front[i] == s[i];
      }
    }
    if Grouped(front) {
      assert GoodChar(front, |front| - 1);
      forall i | 0 <= i < |s|
        ensures GoodChar(s, i)
      {
        if i < |front| {
          assert GoodChar(front, i) && front[i] == s[i];
        }
      }
    }
  }

  /** What `int` accepts, and the number it reads: white space around it apart, an optional sign
      and grouped digits. */
  predicate Reads(x: string, n: int) {
    var s := Strip(x);
    || (Grouped(s) && n == NatOf(DigitsIn(s)))
    || (s != [] && s[0] == '+' && Grouped(s[1..]) && n == NatOf(DigitsIn(s[1..])))
    || (s != [] && s[0] == '-' && Grouped(s[1..]) && -n == NatOf(DigitsIn(s[1..])))
  }

  lemma IntRead(x: string, n: int)
    ensures ParseInt(x) == Some(n) <==> Reads(x, n)
  {
    var s := Strip(x);
    DigitsRead(s);
    if s != [] {
      DigitsRead(s[1..]);
      assert Grouped(s) ==> GoodChar(s, 0);
    }
  }

  function ParseParts(parts: seq<string>): Option<Version> {
    if parts == [] then Some([])
    else if ParseInt(parts[0]).None? || ParseParts(parts[1..]).None? then None
    else Some([ParseInt(parts[0]).value] + ParseParts(parts[1..]).value)
  }

  /** `parse_version`; None where the script exits. */
  function Parse(v: string): Option<Version> {
    ParseParts(SplitOn('.', Strip(v)))
  }

  function PrintInt(n: int): string {
    if n < 0 then ['-'] + PrintNat(-n) else PrintNat(n)
  }

  function PrintParts(v: Version): seq<string> {
    if v == [] then [] else [PrintInt(v[0])] + PrintParts(v[1..])
  }

  function Print(v: Version): string {
    JoinWith(['.'], PrintParts(v))
  }

  lemma {:induction false} DigitsParsed(n: nat)
    ensures ParseDigits(PrintNat(n)) == Some(n)
  {
    if n >= 10 {
      var front := PrintNat(n / 10);
      DigitsParsed(n / 10);
      var s := PrintNat(n);
      assert s == front + [DigitOf(n % 10)];
      assert s[|s| - 2] == front[|front| - 1] && IsDigit(front[|front| - 1]);
      assert s[..|s| - 1] == front;
    }
  }

  lemma IntParsed(n: int)
    ensures ParseInt(PrintInt(n)) == Some(n)
    ensures Without(PrintInt(n), '.')
    ensures PrintInt(n) != [] && !IsSpace(PrintInt(n)[0]) && !IsSpace(PrintInt(n)[|PrintInt(n)| - 1])
  {
    var digits := PrintNat(if n < 0 then -n else n);
    DigitsParsed(if n < 0 then -n else n);
    assert IsDigit(digits[0]) && IsDigit(digits[|digits| - 1]);
    NothingToStrip(PrintInt(n));
    assert n < 0 ==> PrintInt(n)[1..] == digits;
  }

  lemma {:induction false} PartsParsed(v: Version)
    ensures ParseParts(PrintParts(v)) == Some(v)
    ensures |PrintParts(v)| == |v|
    ensures forall i :: 0 <= i < |v| ==> PrintParts(v)[i] == PrintInt(v[i])
  {
    hide ParseInt, PrintInt;
    if v != [] {
      IntParsed(v[0]);
      PartsParsed(v[1..]);
      assert PrintParts(v)[0] == PrintInt(v[0]) && PrintParts(v)[1..] == PrintParts(v[1..]);
      assert v == [v[0]] + v[1..];
    }
  }

  lemma {:induction false} JoinedEnds(parts: seq<string>, sep: char)
    requires parts != [] && forall i :: 0 <= i < |parts| ==>
      parts[i] != [] && !IsSpace(parts[i][0]) && !IsSpace(parts[i][|parts[i]| - 1])
    ensures var s := JoinWith([sep], parts); s != [] && !IsSpace(s[0]) && !IsSpace(s[|s| - 1])
  {
    if |parts| > 1 {
      JoinedEnds(parts[1..], sep);
      var rest := JoinWith([sep], parts[1..]);
      var s := JoinWith([sep], parts);
      assert s[|s| - 1] == rest[|rest| - 1];
    }
  }

  /** A version survives being printed and parsed. */
  lemma ParsePrinted(v: Version)
    requires v != []
    ensures Parse(Print(v)) == Some(v)
  {
    var parts := PrintParts(v);
    PartsParsed(v);
    forall i | 0 <= i < |v|
      ensures Without(parts[i], '.') && parts[i] != [] && !IsSpace(parts[i][0]) && !IsSpace(parts[i][|parts[i]| - 1])
    {
      IntParsed(v[i]);
    }
    SplitJoined('.', parts);
    JoinedEnds(parts, '.');
    NothingToStrip(Print(v));
  }

  /** Every part between dots is read as a number, in order. */
  predicate ReadsAll(parts: seq<string>, v: Version) {
    |parts| == |v| && forall k :: 0 <= k < |v| ==> Reads(parts[k], v[k])
  }

  lemma {:induction false} PartsRead(parts: seq<string>, v: Version)
    ensures ParseParts(parts) == Some(v) <==> ReadsAll(parts, v)
  {
    hide Reads, ParseInt;
    if parts != [] && v != [] {
      IntRead(parts[0], v[0]);
      PartsRead(parts[1..], v[1..]);
      assert v == [v[0]] + v[1..];
      assert ReadsAll(parts, v) <==> Reads(parts[0], v[0]) && ReadsAll(parts[1..], v[1..]) by {
        if Reads(parts[0], v[0]) && ReadsAll(parts[1..], v[1..]) {
          assert forall k :: 0 < k < |v| ==> parts[1..][k - 1] == parts[k] && v[1..][k - 1] == v[k];
        }
      }
    }
  }

  /** A version is read exactly if each of its parts between dots is a number. */
  lemma VersionRead(text: string, v: Version)
    ensures Parse(text) == Some(v) <==> ReadsAll(SplitOn('.', Strip(text)), v)
  {
    PartsRead(SplitOn('.', Strip(text)), v);
  }

  // ---------------------------------------------------------------------------
  // The order
  // ---------------------------------------------------------------------------

  /** The first part in which two versions differ decides; where there is none, the length. */
  lemma {:induction false} FirstDifference(a: Version, b: Version, k: nat)
    requires k <= |a| && k <= |b| && a[..k] == b[..k]
    requires k == |a| || k == |b| || a[k] != b[k]
    ensures Less(a, b) <==> k < |b| && (k == |a| || a[k] < b[k])
  {
    if k > 0 {
      assert a[0] == a[..k][0] && b[0] == b[..k][0];
      assert a[1..][..k - 1] == a[..k][1..] && b[1..][..k - 1] == b[..k][1..];
      FirstDifference(a[1..], b[1..], k - 1);
    }
  }

  lemma {:induction false} OrderIsStrict(a: Version)
    ensures !Less(a, a)
  {
    if a != [] {
      OrderIsStrict(a[1..]);
    }
  }

  lemma {:induction false} OrderIsTransitive(a: Version, b: Version, c: Version)
    requires Less(a, b) && Less(b, c)
    ensures Less(a, c)
  {
    if a != [] && a[0] == b[0] && b[0] == c[0] {
      OrderIsTransitive(a[1..], b[1..], c[1..]);
    }
  }

  lemma {:induction false} OrderIsTotal(a: Version, b: Version)
    ensures Less(a, b) || a == b || Less(b, a)
  {
    if a != [] && b != [] && a[0] == b[0] {
      OrderIsTotal(a[1..], b[1..]);
      assert a == [a[0]] + a[1..] && b == [b[0]] + b[1..];
    }
  }

  /** `_version_newer`: what a server with `current` makes of `candidate`. None stands for an
      absent or empty version. */
  predicate VersionNewer(candidate: Option<string>, current: Option<string>) {
    if candidate.None? || candidate.value == [] then false
    else if current.None? || current.value == [] then true
    else if Parse(candidate.value).None? || Parse(current.value).None? then candidate.value != current.value
    else Less(Parse(current.value).value, Parse(candidate.value).value)
  }

  ghost predicate IsVersion(text: string, v: Version) {
    ReadsAll(SplitOn('.', Strip(text)), v)
  }

  /** What is newer: nothing absent; anything given, where no version is there yet; the later of two
      numeric versions; and whatever differs from a version, where one of them is not numeric. */
  lemma NewerMeans(candidate: string, current: string)
    ensures !VersionNewer(None, Some(current)) && !VersionNewer(Some(""), Some(current))
    ensures candidate != "" ==> VersionNewer(Some(candidate), None) && VersionNewer(Some(candidate), Some(""))
    ensures candidate != "" && current != "" ==>
      && (forall v, w :: IsVersion(candidate, v) && IsVersion(current, w) ==>
            (VersionNewer(Some(candidate), Some(current)) <==> Less(w, v)))
      && ((forall v :: !IsVersion(candidate, v)) || (forall w :: !IsVersion(current, w)) ==>
            (VersionNewer(Some(candidate), Some(current)) <==> candidate != current))
  {
    hide Parse, Less;
    forall v {
      VersionRead(candidate, v);
    }
    forall v {
      VersionRead(current, v);
    }
    if Parse(candidate).Some? {
      assert IsVersion(candidate, Parse(candidate).value);
    }
    if Parse(current).Some? {
      assert IsVersion(current, Parse(current).value);
    }
  }

  /** When the order fails: two versions are each newer than the other exactly when they
      differ and one of them is not numeric. An absent version counts as the empty one. */
  lemma BothNewerIff(a: Option<string>, b: Option<string>)
    ensures VersionNewer(a, b) && VersionNewer(b, a) <==>
      && a.Some? && a.value != [] && b.Some? && b.value != [] && a != b
      && (Parse(a.value).None? || Parse(b.value).None?)
  {
    if a.Some? && b.Some? && Parse(a.value).Some? && Parse(b.value).Some? {
      var v, w := Parse(a.value).value, Parse(b.value).value;
      OrderIsStrict(v);
      if Less(v, w) && Less(w, v) {
        OrderIsTransitive(v, w, v);
      }
    }
  }

  // ---------------------------------------------------------------------------
  // A release
  // ---------------------------------------------------------------------------

  datatype Part = Major | Minor | Patch

  function Index(p: Part): nat {
    match p case Major => 0 case Minor => 1 case Patch => 2
  }

  function Max(a: Version, b: Version): Version {
    if Less(a, b) then b else a
  }

  /** Three parts, zeros for those missing. */
  function Padded(v: Version): Version {
    (v + [0, 0, 0])[..3]
  }

  function Bumped(start: Version, p: Part): Version {
    var padded := Padded(start);
    padded[..Index(p)] + [padded[Index(p)] + 1] + seq(2 - Index(p), _ => 0)
  }

  datatype Request = Bump(part: Part) | Set(version: string)

  datatype Outcome = Written(version: string) | Unparseable | NotGreater

  function OrZero(v: string): string {
    if v == [] then "0.0.0" else v
  }

  function Candidate(current: string, base: string, r: Request): Option<string> {
    match r
    case Set(v) => if Parse(Strip(v)).None? then None else Some(Strip(v))
    case Bump(p) =>
      if Parse(OrZero(current)).None? || Parse(OrZero(base)).None? then None
      else Some(Print(Bumped(Max(Parse(OrZero(current)).value, Parse(OrZero(base)).value), p)))
  }

  /** The version arithmetic of `main`: what is written to the VERSION file, given its own
      text and that of the base release. */
  function Release(current: string, base: string, r: Request): Outcome {
    var candidate := Candidate(current, base, r);
    if candidate.None? then Unparseable
    else if base != [] && (Parse(base).None? || Parse(candidate.value).None?) then Unparseable
    else if base != [] && !Less(Parse(base).value, Parse(candidate.value).value) then NotGreater
    else Written(candidate.value)
  }

  /** A bump moves up, whatever the number of parts it starts from. */
  lemma BumpMovesUp(start: Version, p: Part)
    ensures Less(start, Bumped(start, p))
  {
  }

  lemma BelowMax(a: Version, b: Version, c: Version)
    requires Less(Max(a, b), c)
    ensures Less(a, c) && Less(b, c)
  {
    OrderIsTotal(a, b);
    if Less(a, b) {
      OrderIsTransitive(a, b, c);
    } else if Less(b, a) {
      OrderIsTransitive(b, a, c);
    }
  }

  /** A bump is greater than both versions it starts from, survives printing, and is always
      written. */
  lemma BumpIsReleased(current: string, base: string, p: Part)
    requires Parse(OrZero(current)).Some? && Parse(OrZero(base)).Some?
    ensures var r := Release(current, base, Bump(p));
      && r.Written? && Parse(r.version).Some?
      && Less(Parse(OrZero(current)).value, Parse(r.version).value)
      && Less(Parse(OrZero(base)).value, Parse(r.version).value)
  {
    hide Parse, Print, Less, Bumped, Max;
    var a, b := Parse(OrZero(current)).value, Parse(OrZero(base)).value;
    var v := Bumped(Max(a, b), p);
    BumpMovesUp(Max(a, b), p);
    BelowMax(a, b, v);
    ParsePrinted(v);
  }

  /** Part `k`, zero where it is missing. */
  function PartAt(v: Version, k: nat): int {
    if k < |v| then v[k] else 0
  }

  /** One part is one more, those before it stay, and those after it are zero. */
  lemma BumpedParts(start: Version)
    ensures Bumped(start, Major) == [PartAt(start, 0) + 1, 0, 0]
    ensures Bumped(start, Minor) == [PartAt(start, 0), PartAt(start, 1) + 1, 0]
    ensures Bumped(start, Patch) == [PartAt(start, 0), PartAt(start, 1), PartAt(start, 2) + 1]
  {
  }

  lemma ZeroPrinted()
    ensures Print([0, 0, 0]) == "0.0.0"
  {
    assert PrintInt(0) == "0";
    assert [0, 0, 0][1..] == [0, 0] && [0, 0][1..] == [0] && [0][1..] == [];
    assert PrintParts([0]) == ["0"] && PrintParts([0, 0]) == ["0", "0"] && PrintParts([0, 0, 0]) == ["0", "0", "0"];
    assert ["0", "0", "0"][1..] == ["0", "0"] && ["0", "0"][1..] == ["0"];
    assert JoinWith(".", ["0"]) == "0" && JoinWith(".", ["0", "0"]) == "0.0";
  }

  /** `text` holds the version, or is empty and stands for 0.0.0. */
  predicate Holds(text: string, v: Version) {
    if text == "" then v == [0, 0, 0] else ReadsAll(SplitOn('.', Strip(text)), v)
  }

  lemma HeldVersion(text: string, v: Version)
    requires Holds(text, v)
    ensures Parse(OrZero(text)) == Some(v)
  {
    if text == "" {
      ZeroPrinted();
      ParsePrinted([0, 0, 0]);
    } else {
      VersionRead(text, v);
    }
  }

  /** A bump starts from the later of the two versions, a missing one standing for 0.0.0, and writes
      the three parts of the next. */
  lemma BumpWrites(current: string, base: string, a: Version, b: Version, p: Part)
    requires Holds(current, a) && Holds(base, b)
    ensures var start := if Less(a, b) then b else a;
      Release(current, base, Bump(p)) == Written(Print(
        match p
        case Major => [PartAt(start, 0) + 1, 0, 0]
        case Minor => [PartAt(start, 0), PartAt(start, 1) + 1, 0]
        case Patch => [PartAt(start, 0), PartAt(start, 1), PartAt(start, 2) + 1]))
  {
    hide Parse, Print, Less, Holds;
    HeldVersion(current, a);
    HeldVersion(base, b);
    BumpIsReleased(current, base, p);
    BumpedParts(if Less(a, b) then b else a);
  }

  /** A version that is given is written without the white space around it, if it is numeric and there
      is no base release, or a numeric one that it is greater than. */
  lemma SetWrites(current: string, base: string, given: string)
    ensures var r := Release(current, base, Set(given));
      && ((forall v :: !IsVersion(given, v)) || (base != "" && forall b :: !IsVersion(base, b)) ==> r == Unparseable)
      && (forall v :: IsVersion(given, v) && base == "" ==> r == Written(Strip(given)))
      && (forall v, b :: IsVersion(given, v) && base != "" && IsVersion(base, b) ==>
            r == if Less(b, v) then Written(Strip(given)) else NotGreater)
  {
    hide Parse, Less;
    StripTwice(given);
    forall v {
      VersionRead(Strip(given), v);
    }
    forall v {
      VersionRead(base, v);
    }
    if Parse(Strip(given)).Some? {
      assert IsVersion(given, Parse(Strip(given)).value);
    }
    if Parse(base).Some? {
      assert IsVersion(base, Parse(base).value);
    }
  }

  /** Whatever is written is offered to a server on the base release, and the base release
      is not offered back. */
  lemma ReleaseIsOffered(current: string, base: string, r: Request)
    requires Release(current, base, r).Written? && base != []
    ensures VersionNewer(Some(Release(current, base, r).version), Some(base))
    ensures !VersionNewer(Some(base), Some(Release(current, base, r).version))
  {
    var a, b := Parse(base).value, Parse(Release(current, base, r).version).value;
    OrderIsStrict(a);
    if Less(b, a) {
      OrderIsTransitive(a, b, a);
    }
  }

  /** `version` was cut against `base`, from some text of the VERSION file. */
  ghost predicate Follows(base: string, version: string) {
    exists current, r :: Release(current, base, r) == Written(version)
  }

  /** Each release was cut against the one before it. */
  ghost predicate Chain(versions: seq<string>) {
    && (forall k :: 0 <= k < |versions| ==> versions[k] != [] && Parse(versions[k]).Some?)
    && (forall k :: 0 < k < |versions| ==> Follows(versions[k - 1], versions[k]))
  }

  lemma {:induction false} ChainAscends(versions: seq<string>, j: nat, k: nat)
    requires Chain(versions) && j < k < |versions|
    ensures Less(Parse(versions[j]).value, Parse(versions[k]).value)
    decreases k
  {
    hide Parse;
    assert Follows(versions[k - 1], versions[k]);
    if j < k - 1 {
      ChainAscends(versions, j, k - 1);
      OrderIsTransitive(Parse(versions[j]).value, Parse(versions[k - 1]).value, Parse(versions[k]).value);
    }
  }

  /** In a chain of releases every later one is offered to every earlier server, and never
      the reverse. */
  lemma LaterIsOffered(versions: seq<string>, j: nat, k: nat)
    requires Chain(versions) && j < k < |versions|
    ensures VersionNewer(Some(versions[k]), Some(versions[j]))
    ensures !VersionNewer(Some(versions[j]), Some(versions[k]))
  {
    var a, b := Parse(versions[j]).value, Parse(versions[k]).value;
    ChainAscends(versions, j, k);
    OrderIsStrict(a);
    if Less(b, a) {
      OrderIsTransitive(a, b, a);
    }
  }
}
