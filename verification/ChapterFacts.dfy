/** What runs of the repair keep, whatever fails in them. */
module ChapterFacts {
  import opened Wrappers
  import opened Ids
  import opened ChapterRepair

  // ---------------------------------------------------------------------------
  // What a split keeps and leaves
  // ---------------------------------------------------------------------------

  predicate SamePlace(a: Source, b: Source) {
    a.kb == b.kb && a.url == b.url && a.fromUrl == b.fromUrl
  }

  /** What is in `b` and not in `a` has a new id. */
  ghost predicate NewIds(a: Store, b: Store) {
    a.next <= b.next && forall j :: j in b.sources && j !in a.sources ==> a.next <= j.rank
  }

  /** Every source of `a` is in `b`, where it was. */
  ghost predicate Keeps(a: Store, b: Store) {
    NewIds(a, b) && forall j :: j in a.sources ==> j in b.sources && SamePlace(b.sources[j], a.sources[j])
  }

  lemma PartKept(st: Store, kb: string, p: Part, r: Ingest)
    requires Fresh(st)
    ensures Fresh(WithPart(st, kb, p, r)) && Keeps(st, WithPart(st, kb, p, r))
    ensures forall j :: j in st.sources && (st.sources[j].kb != kb || st.sources[j].url != p.url) ==>
      WithPart(st, kb, p, r).sources[j] == st.sources[j]
  {
  }

  lemma {:induction false} PartsKept(st: Store, kb: string, parts: seq<Part>, answers: nat -> Ingest)
    requires Fresh(st)
    ensures Fresh(WithParts(st, kb, parts, answers)) && Keeps(st, WithParts(st, kb, parts, answers))
    ensures forall j :: j in st.sources && (forall p :: p in parts ==> p.url != st.sources[j].url) ==>
      WithParts(st, kb, parts, answers).sources[j] == st.sources[j]
  {
    if parts != [] {
      var front, last := parts[..|parts| - 1], parts[|parts| - 1];
      PartsKept(st, kb, front, answers);
      PartKept(WithParts(st, kb, front, answers), kb, last, answers(|parts| - 1));
      assert parts == front + [last];
    }
  }

  /** A source of the knowledge base holds the part's text. */
  ghost predicate Holds(st: Store, kb: string, p: Part) {
    exists j :: j in st.sources && st.sources[j].kb == kb && st.sources[j].url == p.url
             && st.sources[j].text == Some(p.text) && !st.sources[j].error
  }

  lemma PartHeld(st: Store, kb: string, p: Part, r: Ingest)
    requires r.Chunks?
    ensures Holds(WithPart(st, kb, p, r), kb, p)
  {
    var found := At(st, kb, p.url);
    var j := if found != {} then Least(found) else Id(st.next);
    assert WithPart(st, kb, p, r).sources[j].text == Some(p.text);
  }

  lemma OtherPartHeld(st: Store, kb: string, p: Part, r: Ingest, q: Part)
    requires Fresh(st) && Holds(st, kb, q) && q.url != p.url
    ensures Holds(WithPart(st, kb, p, r), kb, q)
  {
    var j :| j in st.sources && st.sources[j].kb == kb && st.sources[j].url == q.url
          && st.sources[j].text == Some(q.text) && !st.sources[j].error;
    PartKept(st, kb, p, r);
    assert WithPart(st, kb, p, r).sources[j] == st.sources[j];
  }

  ghost predicate DistinctParts(parts: seq<Part>) {
    forall j, k :: 0 <= j < k < |parts| ==> parts[j].url != parts[k].url
  }

  /** Parts that were all ingested are all there, each with its text. */
  lemma {:induction false} PartsHeld(st: Store, kb: string, parts: seq<Part>, answers: nat -> Ingest, k: nat)
    requires Fresh(st) && DistinctParts(parts) && AllCount(|parts|, answers) && k < |parts|
    ensures Holds(WithParts(st, kb, parts, answers), kb, parts[k])
  {
    var front, last := parts[..|parts| - 1], parts[|parts| - 1];
    var before := WithParts(st, kb, front, answers);
    PartsKept(st, kb, front, answers);
    if k == |parts| - 1 {
      PartHeld(before, kb, last, answers(k));
    } else {
      PartsHeld(st, kb, front, answers, k);
      OtherPartHeld(before, kb, last, answers(|parts| - 1), front[k]);
    }
  }

  /** A chapter source is deleted only once every fetched part is ingested: at that moment
      each part's text is in a source of the same knowledge base. */
  lemma SplitLeavesEveryPart(st: Store, i: Id, doc: Source, a: Answers, p: Part)
    requires Fresh(st) && i in st.sources && SamePlace(st.sources[i], doc)
    requires i !in Split(st, i, doc, a).sources && p in a.fetch.parts
    requires DistinctParts(a.fetch.parts) && p.url != doc.url
    ensures Holds(Split(st, i, doc, a), doc.kb, p)
  {
    var filled := WithParts(st, doc.kb, a.fetch.parts, a.parts);
    var k :| 0 <= k < |a.fetch.parts| && a.fetch.parts[k] == p;
    PartsKept(st, doc.kb, a.fetch.parts, a.parts);
    PartsHeld(st, doc.kb, a.fetch.parts, a.parts, k);
    var j :| j in filled.sources && filled.sources[j].kb == doc.kb && filled.sources[j].url == p.url
          && filled.sources[j].text == Some(p.text) && !filled.sources[j].error;
    assert j != i && Split(st, i, doc, a).sources[j] == filled.sources[j];
  }

  // ---------------------------------------------------------------------------
  // Never two sources for one part
  // ---------------------------------------------------------------------------

  ghost predicate AtMostOne(st: Store, kb: string, url: string) {
    forall j, k :: j in At(st, kb, url) && k in At(st, kb, url) ==> j == k
  }

  lemma PartStaysUnique(st: Store, kb: string, p: Part, r: Ingest, kb': string, url: string)
    requires Fresh(st) && AtMostOne(st, kb', url)
    ensures AtMostOne(WithPart(st, kb, p, r), kb', url)
  {
    var after := WithPart(st, kb, p, r);
    forall j | j in At(after, kb', url)
      ensures j in At(st, kb', url) || (At(st, kb', url) == {} && j == Id(st.next))
    {
    }
  }

  lemma {:induction false} PartsStayUnique(st: Store, kb: string, parts: seq<Part>, answers: nat -> Ingest, kb': string, url: string)
    requires Fresh(st) && AtMostOne(st, kb', url)
    ensures AtMostOne(WithParts(st, kb, parts, answers), kb', url)
  {
    if parts != [] {
      var front := parts[..|parts| - 1];
      PartsKept(st, kb, front, answers);
      PartsStayUnique(st, kb, front, answers, kb', url);
      PartStaysUnique(WithParts(st, kb, front, answers), kb, parts[|parts| - 1], answers(|parts| - 1), kb', url);
    }
  }

  // ---------------------------------------------------------------------------
  // One step
  // ---------------------------------------------------------------------------

  /** The part urls of a fetch are not chapter urls. */
  ghost predicate PartsAreParts(cfg: Config, a: Answers) {
    a.fetch.Parts? ==> forall p :: p in a.fetch.parts ==> !cfg.isChapter(p.url)
  }

  lemma StepKeepsOthers(cfg: Config, st: Store, text: Option<string>, i: Id, doc: Source, a: Answers)
    requires Fresh(st) && i in st.sources && SamePlace(st.sources[i], doc)
    ensures var after := Repaired(cfg, st, text, i, doc, a);
      && Fresh(after) && NewIds(st, after)
      && (forall j :: j in st.sources && j != i ==> j in after.sources && SamePlace(after.sources[j], st.sources[j]))
      && (i in after.sources ==> SamePlace(after.sources[i], doc))
      && (i !in after.sources <==> VerdictOn(cfg, text, doc, a).Fixed? && Splits(cfg, text, doc))
  {
    if doc.kb in cfg.kbs && Splits(cfg, text, doc) && a.fetch.Parts? && a.fetch.parts != [] {
      PartsKept(st, doc.kb, a.fetch.parts, a.parts);
    }
  }

  lemma StepStaysUnique(cfg: Config, st: Store, text: Option<string>, i: Id, doc: Source, a: Answers, kb: string, url: string)
    requires Fresh(st) && i in st.sources && SamePlace(st.sources[i], doc) && AtMostOne(st, kb, url)
    ensures AtMostOne(Repaired(cfg, st, text, i, doc, a), kb, url)
  {
    if doc.kb in cfg.kbs && Splits(cfg, text, doc) && a.fetch.Parts? && a.fetch.parts != [] {
      var filled := WithParts(st, doc.kb, a.fetch.parts, a.parts);
      PartsKept(st, doc.kb, a.fetch.parts, a.parts);
      PartsStayUnique(st, doc.kb, a.fetch.parts, a.parts, kb, url);
      assert forall j :: j in At(Repaired(cfg, st, text, i, doc, a), kb, url) ==> j in At(filled, kb, url);
    } else {
      assert forall j :: j in At(Repaired(cfg, st, text, i, doc, a), kb, url) ==> j in At(st, kb, url);
    }
  }

  // ---------------------------------------------------------------------------
  // One run
  // ---------------------------------------------------------------------------

  /** The work list of a run: broken sources, each once. */
  ghost predicate WorkList(start: Store, ids: seq<Id>) {
    && (forall i :: i in ids ==> i in start.sources)
    && (forall j, k :: 0 <= j < k < |ids| ==> ids[j] != ids[k])
  }

  /** The fixed, failed and skipped sources are all the broken ones. */
  lemma {:induction false} CountsAddUp(cfg: Config, start: Store, ids: seq<Id>, world: nat -> Answers)
    requires forall i :: i in ids ==> i in start.sources
    ensures var p := Steps(cfg, start, ids, world); p.fixed + |p.failed| + |p.skipped| == |ids|
  {
    if ids != [] {
      CountsAddUp(cfg, start, ids[..|ids| - 1], world);
    }
  }

  /** The state of a run when the sources in `done` have been worked on. */
  ghost predicate Underway(start: Store, st: Store, done: seq<Id>) {
    && Fresh(start) && Fresh(st) && start.next <= st.next
    && (forall j :: j in start.sources && j !in done ==> j in st.sources)
    && (forall j :: j in start.sources && j in st.sources ==> SamePlace(st.sources[j], start.sources[j]))
  }

  lemma OneMore(cfg: Config, start: Store, p: Progress, done: seq<Id>, i: Id, a: Answers)
    requires Underway(start, p.st, done) && i in start.sources && i !in done
    ensures Underway(start, Step(cfg, p, i, start.sources[i], a).st, done + [i])
  {
    var doc := start.sources[i];
    StepKeepsOthers(cfg, p.st, TextFor(cfg, Cached(cfg, p.cache, doc, a), doc), i, doc, a);
  }

  lemma {:induction false} StepsKeep(cfg: Config, start: Store, ids: seq<Id>, world: nat -> Answers)
    requires Fresh(start) && WorkList(start, ids)
    ensures Underway(start, Steps(cfg, start, ids, world).st, ids)
  {
    if ids != [] {
      var front, i := ids[..|ids| - 1], ids[|ids| - 1];
      StepsKeep(cfg, start, front, world);
      assert i !in front && ids == front + [i];
      OneMore(cfg, start, Steps(cfg, start, front, world), front, i, world(|ids| - 1));
    }
  }

  /** Never more than one source for a knowledge base and url that had at most one. */
  lemma {:induction false} RunStaysUnique(cfg: Config, start: Store, ids: seq<Id>, world: nat -> Answers, kb: string, url: string)
    requires Fresh(start) && WorkList(start, ids) && AtMostOne(start, kb, url)
    ensures AtMostOne(Steps(cfg, start, ids, world).st, kb, url)
  {
    if ids != [] {
      var front, i := ids[..|ids| - 1], ids[|ids| - 1];
      StepsKeep(cfg, start, front, world);
      assert i !in front;
      RunStaysUnique(cfg, start, front, world, kb, url);
      var p := Steps(cfg, start, front, world);
      var doc, a := start.sources[i], world(|ids| - 1);
      StepStaysUnique(cfg, p.st, TextFor(cfg, Cached(cfg, p.cache, doc, a), doc), i, doc, a, kb, url);
    }
  }

  // ---------------------------------------------------------------------------
  // Chapters over a run
  // ---------------------------------------------------------------------------

  ghost predicate Present(st: Store, kb: string, url: string) {
    At(st, kb, url) != {}
  }

  /** What the world answers about parts is about parts, and about each of them once. */
  ghost predicate Sound(cfg: Config, world: nat -> Answers) {
    forall k :: PartsAreParts(cfg, world(k)) && (world(k).fetch.Parts? ==> DistinctParts(world(k).fetch.parts))
  }

  lemma StepPresent(cfg: Config, st: Store, text: Option<string>, i: Id, doc: Source, a: Answers, kb: string, url: string)
    requires Fresh(st) && i in st.sources && SamePlace(st.sources[i], doc)
    requires Present(st, kb, url) && !cfg.isChapter(url)
    ensures Present(Repaired(cfg, st, text, i, doc, a), kb, url)
  {
    var j :| j in At(st, kb, url);
    StepKeepsOthers(cfg, st, text, i, doc, a);
    assert j in At(Repaired(cfg, st, text, i, doc, a), kb, url);
  }

  lemma SplitPresent(cfg: Config, st: Store, text: Option<string>, i: Id, doc: Source, a: Answers, p: Part)
    requires Fresh(st) && i in st.sources && SamePlace(st.sources[i], doc)
    requires i !in Repaired(cfg, st, text, i, doc, a).sources && PartsAreParts(cfg, a)
    requires a.fetch.Parts? && p in a.fetch.parts && DistinctParts(a.fetch.parts)
    ensures Present(Repaired(cfg, st, text, i, doc, a), doc.kb, p.url)
  {
    StepKeepsOthers(cfg, st, text, i, doc, a);
    SplitLeavesEveryPart(st, i, doc, a, p);
    var after := Repaired(cfg, st, text, i, doc, a);
    var j :| j in after.sources && after.sources[j].kb == doc.kb && after.sources[j].url == p.url;
    assert j in At(after, doc.kb, p.url);
  }

  /** Step `k` of a run split the source, and the parts it fetched are still there. */
  ghost predicate SplitAt(cfg: Config, st: Store, s: Source, a: Answers) {
    && cfg.isChapter(s.url) && FullySplit(a)
    && forall p :: p in a.fetch.parts ==> Present(st, s.kb, p.url)
  }

  /** The API's answers that a run has kept after the first sources. */
  function CacheAfter(cfg: Config, start: Store, ids: seq<Id>, world: nat -> Answers): Cache
    requires forall i :: i in ids ==> i in start.sources
  {
    if ids == [] then map[] else
    Cached(cfg, CacheAfter(cfg, start, ids[..|ids| - 1], world), start.sources[ids[|ids| - 1]], world(|ids| - 1))
  }

  lemma {:induction false} CacheIs(cfg: Config, start: Store, ids: seq<Id>, world: nat -> Answers)
    requires forall i :: i in ids ==> i in start.sources
    ensures Steps(cfg, start, ids, world).cache == CacheAfter(cfg, start, ids, world)
  {
    if ids != [] {
      CacheIs(cfg, start, ids[..|ids| - 1], world);
    }
  }

  /** The text that step `n` of a run has for its source before it fetches anything else. */
  function TextAt(cfg: Config, start: Store, ids: seq<Id>, world: nat -> Answers, n: nat): Option<string>
    requires n < |ids| && forall i :: i in ids ==> i in start.sources
  {
    TextFor(cfg, CacheAfter(cfg, start, ids[..n + 1], world), start.sources[ids[n]])
  }

  lemma TextNow(cfg: Config, start: Store, ids: seq<Id>, world: nat -> Answers)
    requires ids != [] && forall i :: i in ids ==> i in start.sources
    ensures var n := |ids| - 1;
      var doc := start.sources[ids[n]];
      TextAt(cfg, start, ids, world, n) == TextFor(cfg, Cached(cfg, Steps(cfg, start, ids[..n], world).cache, doc, world(n)), doc)
  {
    CacheIs(cfg, start, ids[..|ids| - 1], world);
    assert ids[..|ids|] == ids;
  }

  lemma TextBefore(cfg: Config, start: Store, ids: seq<Id>, world: nat -> Answers, k: nat)
    requires k < |ids| - 1 && forall i :: i in ids ==> i in start.sources
    ensures TextAt(cfg, start, ids, world, k) == TextAt(cfg, start, ids[..|ids| - 1], world, k)
  {
    assert ids[..|ids| - 1][..k + 1] == ids[..k + 1];
  }

  /** A step that deletes its source has split it. */
  lemma DeletedNow(cfg: Config, st: Store, text: Option<string>, i: Id, doc: Source, a: Answers)
    requires Fresh(st) && i in st.sources && SamePlace(st.sources[i], doc) && PartsAreParts(cfg, a)
    requires a.fetch.Parts? ==> DistinctParts(a.fetch.parts)
    requires i !in Repaired(cfg, st, text, i, doc, a).sources
    ensures doc.kb in cfg.kbs && Splits(cfg, text, doc) && SplitAt(cfg, Repaired(cfg, st, text, i, doc, a), doc, a)
  {
    StepKeepsOthers(cfg, st, text, i, doc, a);
    forall q | q in a.fetch.parts {
      SplitPresent(cfg, st, text, i, doc, a, q);
    }
  }

  lemma SplitStill(cfg: Config, st: Store, text: Option<string>, i: Id, doc: Source, a: Answers, s: Source, split: Answers)
    requires Fresh(st) && i in st.sources && SamePlace(st.sources[i], doc) && PartsAreParts(cfg, split)
    requires SplitAt(cfg, st, s, split)
    ensures SplitAt(cfg, Repaired(cfg, st, text, i, doc, a), s, split)
  {
    forall q | q in split.fetch.parts {
      StepPresent(cfg, st, text, i, doc, a, s.kb, q.url);
    }
  }

  /** Every deleted source is a chapter that was split in full during the run. */
  lemma {:induction false} DeletedOnlyWhenSplit(cfg: Config, start: Store, ids: seq<Id>, world: nat -> Answers, j: Id)
    returns (k: nat)
    requires Fresh(start) && WorkList(start, ids) && Sound(cfg, world)
    requires j in start.sources && j !in Steps(cfg, start, ids, world).st.sources
    ensures k < |ids| && ids[k] == j
    ensures start.sources[j].kb in cfg.kbs && Splits(cfg, TextAt(cfg, start, ids, world, k), start.sources[j])
    ensures SplitAt(cfg, Steps(cfg, start, ids, world).st, start.sources[j], world(k))
  {
    hide Repaired, TextFor, Cached, SplitAt, DistinctParts, VerdictOn, Splits, TextAt, CacheAfter;
    StepsKeep(cfg, start, ids, world);
    assert ids != [];
    var front, i := ids[..|ids| - 1], ids[|ids| - 1];
    StepsKeep(cfg, start, front, world);
    assert i !in front;
    var p := Steps(cfg, start, front, world);
    var doc, a := start.sources[i], world(|ids| - 1);
    var text := TextFor(cfg, Cached(cfg, p.cache, doc, a), doc);
    StepKeepsOthers(cfg, p.st, text, i, doc, a);
    if j in p.st.sources {
      k := |ids| - 1;
      TextNow(cfg, start, ids, world);
      DeletedNow(cfg, p.st, text, i, doc, a);
    } else {
      k := DeletedOnlyWhenSplit(cfg, start, front, world, j);
      TextBefore(cfg, start, ids, world, k);
      SplitStill(cfg, p.st, text, i, doc, a, start.sources[j], world(k));
    }
  }

  /** A chapter url that is nothing else, and has no bundled text. */
  predicate ChapterOnly(cfg: Config, s: Source) {
    s.url != [] && s.url !in cfg.bundled && !cfg.isPart(s.url) && cfg.isChapter(s.url)
  }

  lemma ChapterUntouched(cfg: Config, st: Store, text: Option<string>, i: Id, doc: Source, a: Answers, j: Id)
    requires Fresh(st) && i in st.sources && SamePlace(st.sources[i], doc) && PartsAreParts(cfg, a)
    requires j in st.sources && j != i && cfg.isChapter(st.sources[j].url)
    ensures j in Repaired(cfg, st, text, i, doc, a).sources
    ensures Repaired(cfg, st, text, i, doc, a).sources[j] == st.sources[j]
  {
    if doc.kb in cfg.kbs && Splits(cfg, text, doc) && a.fetch.Parts? && a.fetch.parts != [] {
      PartsKept(st, doc.kb, a.fetch.parts, a.parts);
    }
  }

  /** A chapter source that a run does not split is left exactly as it was, so the next run
      finds it broken again. */
  lemma {:induction false} UnsplitStays(cfg: Config, start: Store, ids: seq<Id>, world: nat -> Answers, j: Id)
    requires Fresh(start) && WorkList(start, ids) && Sound(cfg, world)
    requires j in start.sources && ChapterOnly(cfg, start.sources[j])
    ensures j in Steps(cfg, start, ids, world).st.sources ==>
      Steps(cfg, start, ids, world).st.sources[j] == start.sources[j]
  {
    if ids != [] {
      var front, i := ids[..|ids| - 1], ids[|ids| - 1];
      StepsKeep(cfg, start, front, world);
      UnsplitStays(cfg, start, front, world, j);
      assert i !in front;
      var p := Steps(cfg, start, front, world);
      var doc, a := start.sources[i], world(|ids| - 1);
      var text := TextFor(cfg, Cached(cfg, p.cache, doc, a), doc);
      if i != j {
        if j in p.st.sources {
          ChapterUntouched(cfg, p.st, text, i, doc, a, j);
        } else {
          StepsKeep(cfg, start, ids, world);
          OneMore(cfg, start, p, front, i, a);
          StepKeepsOthers(cfg, p.st, text, i, doc, a);
        }
      } else {
        assert j in p.st.sources;
      }
    }
  }

  // ---------------------------------------------------------------------------
  // Any number of runs
  // ---------------------------------------------------------------------------

  lemma RunWorks(cfg: Config, st: Store)
    ensures WorkList(st, Sorted(BrokenIds(cfg, st)))
    ensures |Sorted(BrokenIds(cfg, st))| == |BrokenIds(cfg, st)|
  {
    SortedOnce(BrokenIds(cfg, st));
  }

  /** A run's report: fixed, failed and skipped add up to the broken sources. */
  lemma RunAddsUp(cfg: Config, st: Store, world: nat -> Answers)
    ensures var p := Run(cfg, st, world); p.fixed + |p.failed| + |p.skipped| == |BrokenIds(cfg, st)|
  {
    RunWorks(cfg, st);
    CountsAddUp(cfg, st, Sorted(BrokenIds(cfg, st)), world);
  }

  ghost predicate AllSound(cfg: Config, worlds: seq<nat -> Answers>) {
    forall k :: 0 <= k < |worlds| ==> Sound(cfg, worlds[k])
  }

  lemma {:induction false} RunsStayUnique(cfg: Config, st: Store, worlds: seq<nat -> Answers>, kb: string, url: string)
    requires Fresh(st) && AtMostOne(st, kb, url)
    ensures Fresh(Runs(cfg, st, worlds)) && AtMostOne(Runs(cfg, st, worlds), kb, url)
  {
    if worlds != [] {
      var before := Runs(cfg, st, worlds[..|worlds| - 1]);
      RunsStayUnique(cfg, st, worlds[..|worlds| - 1], kb, url);
      RunWorks(cfg, before);
      StepsKeep(cfg, before, Sorted(BrokenIds(cfg, before)), worlds[|worlds| - 1]);
      RunStaysUnique(cfg, before, Sorted(BrokenIds(cfg, before)), worlds[|worlds| - 1], kb, url);
    }
  }

  /** A url that is not a chapter's never loses its source. */
  lemma {:induction false} StepsPresent(cfg: Config, start: Store, ids: seq<Id>, world: nat -> Answers, kb: string, url: string)
    requires Fresh(start) && WorkList(start, ids) && Present(start, kb, url) && !cfg.isChapter(url)
    ensures Present(Steps(cfg, start, ids, world).st, kb, url)
  {
    if ids != [] {
      var front, i := ids[..|ids| - 1], ids[|ids| - 1];
      StepsKeep(cfg, start, front, world);
      StepsPresent(cfg, start, front, world, kb, url);
      assert i !in front;
      var p := Steps(cfg, start, front, world);
      var doc, a := start.sources[i], world(|ids| - 1);
      StepPresent(cfg, p.st, TextFor(cfg, Cached(cfg, p.cache, doc, a), doc), i, doc, a, kb, url);
    }
  }

  /** A deleted source does not come back: new sources have new ids. */
  lemma {:induction false} NotBack(cfg: Config, start: Store, ids: seq<Id>, world: nat -> Answers, j: Id)
    requires Fresh(start) && WorkList(start, ids) && j !in start.sources && j.rank < start.next
    ensures j !in Steps(cfg, start, ids, world).st.sources
  {
    if ids != [] {
      var front, i := ids[..|ids| - 1], ids[|ids| - 1];
      StepsKeep(cfg, start, front, world);
      NotBack(cfg, start, front, world, j);
      assert i !in front;
      var p := Steps(cfg, start, front, world);
      var doc, a := start.sources[i], world(|ids| - 1);
      StepKeepsOthers(cfg, p.st, TextFor(cfg, Cached(cfg, p.cache, doc, a), doc), i, doc, a);
    }
  }
}
