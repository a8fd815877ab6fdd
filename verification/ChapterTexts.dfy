/** What becomes of a chapter's text: which part sources hold theirs after any number of runs. */
module ChapterTexts {
  import opened Wrappers
  import opened Ids
  import opened ChapterRepair
  import opened ChapterFacts

  // ---------------------------------------------------------------------------
  // One step
  // ---------------------------------------------------------------------------

  /** The first source of the knowledge base with the part's url, which is the one that a split
      writes to, holds the part's text. */
  predicate Home(st: Store, kb: string, p: Part) {
    var found := At(st, kb, p.url);
    found != {} && st.sources[Least(found)].text == Some(p.text) && !st.sources[Least(found)].error
  }

  /** A text and what its ingestion answered. */
  datatype Entry = Entry(text: string, answer: Ingest)

  /** The ingestion left the part's text there. */
  predicate Good(e: Entry, p: Part) {
    e.answer.Chunks? && e.text == p.text
  }

  /** The text that a step ingests into the source it repairs. */
  function OwnText(cfg: Config, text: Option<string>, doc: Source, a: Answers): Option<string> {
    if Splits(cfg, text, doc) then None
    else if text.Some? then text
    else if Refetches(cfg, doc) then a.refetched
    else None
  }

  function LastPart(parts: seq<Part>, url: string): (q: Option<nat>)
    ensures q.Some? ==> q.value < |parts| && parts[q.value].url == url
  {
    if parts == [] then None
    else if parts[|parts| - 1].url == url then Some(|parts| - 1)
    else LastPart(parts[..|parts| - 1], url)
  }

  function PartEntry(parts: seq<Part>, answers: nat -> Ingest, url: string): Option<Entry> {
    var q := LastPart(parts, url);
    if q.Some? then Some(Entry(parts[q.value].text, answers(q.value))) else None
  }

  /** What a step writes to the first source with that url; `first` says that this is the source
      it repairs. */
  function Written(cfg: Config, text: Option<string>, first: bool, doc: Source, a: Answers, kb: string, url: string): Option<Entry> {
    if doc.kb !in cfg.kbs || doc.kb != kb then None
    else if Splits(cfg, text, doc) then if a.fetch.Parts? then PartEntry(a.fetch.parts, a.parts, url) else None
    else if first && OwnText(cfg, text, doc, a).Some? then Some(Entry(OwnText(cfg, text, doc, a).value, a.ingest))
    else None
  }

  lemma LeastIs(s: set<Id>, m: Id)
    requires IsLeast(m, s)
    ensures Least(s) == m
  {
  }

  lemma PartHome(st: Store, kb: string, p: Part, r: Ingest, kb': string, p': Part)
    requires Fresh(st)
    ensures Home(WithPart(st, kb, p, r), kb', p') <==>
      if kb' == kb && p'.url == p.url then Good(Entry(p.text, r), p') else Home(st, kb', p')
  {
    var found, after := At(st, kb, p.url), WithPart(st, kb, p, r);
    if kb' == kb && p'.url == p.url {
      if found == {} {
        assert At(after, kb, p.url) == {Id(st.next)};
      } else {
        assert At(after, kb, p.url) == found;
      }
    } else {
      assert At(after, kb', p'.url) == At(st, kb', p'.url);
    }
  }

  lemma {:induction false} PartsHome(st: Store, kb: string, parts: seq<Part>, answers: nat -> Ingest, p: Part)
    requires Fresh(st)
    ensures Home(WithParts(st, kb, parts, answers), kb, p) <==>
      match PartEntry(parts, answers, p.url) { case Some(e) => Good(e, p) case None => Home(st, kb, p) }
  {
    if parts != [] {
      var front := parts[..|parts| - 1];
      PartsKept(st, kb, front, answers);
      PartsHome(st, kb, front, answers, p);
      PartHome(WithParts(st, kb, front, answers), kb, parts[|parts| - 1], answers(|parts| - 1), kb, p);
    }
  }

  lemma {:induction false} OtherPartsHome(st: Store, kb: string, parts: seq<Part>, answers: nat -> Ingest, kb': string, p: Part)
    requires Fresh(st) && kb' != kb
    ensures Home(WithParts(st, kb, parts, answers), kb', p) == Home(st, kb', p)
  {
    if parts != [] {
      var front := parts[..|parts| - 1];
      PartsKept(st, kb, front, answers);
      OtherPartsHome(st, kb, front, answers, kb', p);
      PartHome(WithParts(st, kb, front, answers), kb, parts[|parts| - 1], answers(|parts| - 1), kb', p);
    }
  }

  /** Rewriting or deleting a source with another url changes nothing here. */
  lemma ElsewhereHome(st: Store, after: Store, kb: string, p: Part)
    requires At(after, kb, p.url) == At(st, kb, p.url)
    requires forall j :: j in At(st, kb, p.url) ==> after.sources[j] == st.sources[j]
    ensures Home(after, kb, p) == Home(st, kb, p)
  {
  }

  lemma SplitHome(cfg: Config, st: Store, i: Id, doc: Source, a: Answers, kb: string, p: Part)
    requires Fresh(st) && i in st.sources && SamePlace(st.sources[i], doc)
    requires cfg.isChapter(doc.url) && !cfg.isChapter(p.url)
    ensures Home(Split(st, i, doc, a), kb, p) <==>
      if doc.kb != kb || !a.fetch.Parts? then Home(st, kb, p)
      else match PartEntry(a.fetch.parts, a.parts, p.url) { case Some(e) => Good(e, p) case None => Home(st, kb, p) }
  {
    var after := Split(st, i, doc, a);
    if !a.fetch.Parts? || a.fetch.parts == [] {
      ElsewhereHome(st, after, kb, p);
    } else {
      var filled := WithParts(st, doc.kb, a.fetch.parts, a.parts);
      PartsKept(st, doc.kb, a.fetch.parts, a.parts);
      ElsewhereHome(filled, after, kb, p);
      if doc.kb == kb {
        PartsHome(st, kb, a.fetch.parts, a.parts, p);
      } else {
        OtherPartsHome(st, doc.kb, a.fetch.parts, a.parts, kb, p);
      }
    }
  }

  lemma OwnHome(st: Store, i: Id, doc: Source, e: Entry, kb: string, p: Part)
    requires i in st.sources && SamePlace(st.sources[i], doc)
    ensures Home(st.(sources := st.sources[i := Ingested(doc, e.text, e.answer)]), kb, p) <==>
      if At(st, kb, p.url) != {} && i == Least(At(st, kb, p.url)) then Good(e, p) else Home(st, kb, p)
  {
    assert At(st.(sources := st.sources[i := Ingested(doc, e.text, e.answer)]), kb, p.url) == At(st, kb, p.url);
  }

  lemma StepHome(cfg: Config, st: Store, text: Option<string>, i: Id, doc: Source, a: Answers, first: bool, kb: string, p: Part)
    requires Fresh(st) && i in st.sources && SamePlace(st.sources[i], doc) && !cfg.isChapter(p.url)
    requires first <==> At(st, kb, p.url) != {} && i == Least(At(st, kb, p.url))
    ensures Home(Repaired(cfg, st, text, i, doc, a), kb, p) <==>
      match Written(cfg, text, first, doc, a, kb, p.url) { case Some(e) => Good(e, p) case None => Home(st, kb, p) }
  {
    if doc.kb in cfg.kbs {
      if Splits(cfg, text, doc) {
        SplitHome(cfg, st, i, doc, a, kb, p);
      } else if OwnText(cfg, text, doc, a).Some? {
        assert first ==> i in At(st, kb, p.url);
        OwnHome(st, i, doc, Entry(OwnText(cfg, text, doc, a).value, a.ingest), kb, p);
      }
    }
  }

  // ---------------------------------------------------------------------------
  // One run
  // ---------------------------------------------------------------------------

  predicate First(st: Store, i: Id, kb: string, url: string) {
    At(st, kb, url) != {} && i == Least(At(st, kb, url))
  }

  /** What step `n` of a run writes to the first source with that url, told from the state the
      run starts in and the answers it gets. */
  function EntryAt(cfg: Config, start: Store, ids: seq<Id>, world: nat -> Answers, n: nat, kb: string, url: string): Option<Entry>
    requires n < |ids| && forall i :: i in ids ==> i in start.sources
  {
    Written(cfg, TextAt(cfg, start, ids, world, n), First(start, ids[n], kb, url), start.sources[ids[n]], world(n), kb, url)
  }

  function Entries(cfg: Config, start: Store, ids: seq<Id>, world: nat -> Answers, kb: string, url: string): seq<Option<Entry>>
    requires forall i :: i in ids ==> i in start.sources
  {
    seq(|ids|, n requires 0 <= n < |ids| => EntryAt(cfg, start, ids, world, n, kb, url))
  }

  function Last(es: seq<Option<Entry>>): Option<Entry> {
    if es == [] then None
    else if es[|es| - 1].Some? then es[|es| - 1]
    else Last(es[..|es| - 1])
  }

  /** The last thing that a run writes there. */
  function LastEntry(cfg: Config, start: Store, ids: seq<Id>, world: nat -> Answers, kb: string, url: string): Option<Entry>
    requires forall i :: i in ids ==> i in start.sources
  {
    Last(Entries(cfg, start, ids, world, kb, url))
  }

  lemma EntriesSoFar(cfg: Config, start: Store, ids: seq<Id>, world: nat -> Answers, kb: string, url: string)
    requires ids != [] && forall i :: i in ids ==> i in start.sources
    ensures Entries(cfg, start, ids, world, kb, url)[..|ids| - 1]
         == Entries(cfg, start, ids[..|ids| - 1], world, kb, url)
  {
    forall n | 0 <= n < |ids| - 1
      ensures EntryAt(cfg, start, ids[..|ids| - 1], world, n, kb, url) == EntryAt(cfg, start, ids, world, n, kb, url)
    {
      assert ids[..|ids| - 1][..n + 1] == ids[..n + 1];
    }
  }

  /** The sources with a part's url that a run starts with stay, and new ones come after them. */
  lemma {:induction false} PartsOnlyAdded(cfg: Config, start: Store, ids: seq<Id>, world: nat -> Answers, kb: string, url: string)
    requires Fresh(start) && WorkList(start, ids) && !cfg.isChapter(url)
    ensures var now := Steps(cfg, start, ids, world).st;
      && At(start, kb, url) <= At(now, kb, url)
      && forall j :: j in At(now, kb, url) && j !in At(start, kb, url) ==> start.next <= j.rank
  {
    if ids != [] {
      var front, i := ids[..|ids| - 1], ids[|ids| - 1];
      StepsKeep(cfg, start, front, world);
      PartsOnlyAdded(cfg, start, front, world, kb, url);
      assert i !in front;
      var p := Steps(cfg, start, front, world);
      var doc, a := start.sources[i], world(|ids| - 1);
      StepKeepsOthers(cfg, p.st, TextFor(cfg, Cached(cfg, p.cache, doc, a), doc), i, doc, a);
    }
  }

  lemma FirstStays(start: Store, now: Store, i: Id, kb: string, url: string)
    requires Fresh(start) && i in start.sources && At(start, kb, url) <= At(now, kb, url)
    requires forall j :: j in At(now, kb, url) && j !in At(start, kb, url) ==> start.next <= j.rank
    ensures First(now, i, kb, url) <==> First(start, i, kb, url)
  {
    if At(start, kb, url) != {} {
      LeastIs(At(now, kb, url), Least(At(start, kb, url)));
    }
  }

  /** After a run the part's first source holds its text exactly if the last thing written there
      was that text, or nothing was and it held it before. */
  lemma {:induction false} RunHome(cfg: Config, start: Store, ids: seq<Id>, world: nat -> Answers, kb: string, p: Part)
    requires Fresh(start) && WorkList(start, ids) && !cfg.isChapter(p.url)
    ensures Home(Steps(cfg, start, ids, world).st, kb, p) <==>
      match LastEntry(cfg, start, ids, world, kb, p.url) { case Some(e) => Good(e, p) case None => Home(start, kb, p) }
  {
    hide Home, Written, Repaired, At, TextFor, Cached;
    if ids != [] {
      var front, i := ids[..|ids| - 1], ids[|ids| - 1];
      RunHome(cfg, start, front, world, kb, p);
      StepsKeep(cfg, start, front, world);
      assert i !in front;
      PartsOnlyAdded(cfg, start, front, world, kb, p.url);
      var now := Steps(cfg, start, front, world);
      FirstStays(start, now.st, i, kb, p.url);
      CacheIs(cfg, start, front, world);
      EntriesSoFar(cfg, start, ids, world, kb, p.url);
      assert ids[..|ids|] == ids;
      StepHome(cfg, now.st, TextAt(cfg, start, ids, world, |ids| - 1), i, start.sources[i], world(|ids| - 1),
               First(start, i, kb, p.url), kb, p);
    }
  }

  lemma {:induction false} LastIs(es: seq<Option<Entry>>, k: nat) returns (n: nat)
    requires k < |es| && es[k].Some?
    ensures k <= n < |es| && es[n].Some? && Last(es) == es[n] && forall m :: n < m < |es| ==> es[m].None?
  {
    n := |es| - 1;
    if es[n].None? {
      n := LastIs(es[..n], k);
    }
  }

  /** After step `k` something else than the part's text, or an error, is written there, and
      nothing after it. */
  ghost predicate Spoiled(es: seq<Option<Entry>>, k: nat, p: Part) {
    exists n :: k < n < |es| && SpoiledAt(es, n, p)
  }

  ghost predicate SpoiledAt(es: seq<Option<Entry>>, n: nat, p: Part)
    requires n < |es|
  {
    es[n].Some? && !Good(es[n].value, p) && forall m :: n < m < |es| ==> es[m].None?
  }

  lemma GoodUnlessSpoiled(es: seq<Option<Entry>>, k: nat, p: Part)
    requires k < |es| && es[k].Some? && Good(es[k].value, p)
    ensures Last(es).Some? && (Good(Last(es).value, p) <==> !Spoiled(es, k, p))
  {
    var n := LastIs(es, k);
    if !Good(es[n].value, p) {
      assert SpoiledAt(es, n, p);
    }
  }

  lemma {:induction false} OnlyPart(parts: seq<Part>, q: nat)
    requires DistinctParts(parts) && q < |parts|
    ensures LastPart(parts, parts[q].url) == Some(q)
  {
    if q < |parts| - 1 {
      OnlyPart(parts[..|parts| - 1], q);
    }
  }

  /** Step `k` splits the source: each part's text is written. */
  lemma SplitWrites(cfg: Config, start: Store, ids: seq<Id>, world: nat -> Answers, k: nat, p: Part)
    requires (forall i :: i in ids ==> i in start.sources) && k < |ids|
    requires var s := start.sources[ids[k]]; s.kb in cfg.kbs && Splits(cfg, TextAt(cfg, start, ids, world, k), s)
    requires FullySplit(world(k)) && p in world(k).fetch.parts && DistinctParts(world(k).fetch.parts)
    ensures var e := EntryAt(cfg, start, ids, world, k, start.sources[ids[k]].kb, p.url);
      e.Some? && Good(e.value, p)
  {
    var parts := world(k).fetch.parts;
    var q :| 0 <= q < |parts| && parts[q] == p;
    OnlyPart(parts, q);
  }

  /** A chapter source that is gone after a run was split in full at its own step. At the end of
      the run a part's source holds its text exactly if no later step spoiled it: the repair of
      that very source from the copy read at the start, or another split, that ends in an error
      or in another text. */
  lemma DeletedKeepsTextIff(cfg: Config, start: Store, ids: seq<Id>, world: nat -> Answers, j: Id)
    returns (k: nat)
    requires Fresh(start) && WorkList(start, ids) && Sound(cfg, world)
    requires j in start.sources && j !in Steps(cfg, start, ids, world).st.sources
    ensures k < |ids| && ids[k] == j && FullySplit(world(k))
    ensures forall p :: p in world(k).fetch.parts ==>
      var kb := start.sources[j].kb;
      Home(Steps(cfg, start, ids, world).st, kb, p) <==> !Spoiled(Entries(cfg, start, ids, world, kb, p.url), k, p)
  {
    k := DeletedOnlyWhenSplit(cfg, start, ids, world, j);
    var kb := start.sources[j].kb;
    forall p | p in world(k).fetch.parts
      ensures Home(Steps(cfg, start, ids, world).st, kb, p) <==> !Spoiled(Entries(cfg, start, ids, world, kb, p.url), k, p)
    {
      SplitWrites(cfg, start, ids, world, k, p);
      KeptUnlessSpoiled(cfg, start, ids, world, k, kb, p);
    }
  }

  lemma KeptUnlessSpoiled(cfg: Config, start: Store, ids: seq<Id>, world: nat -> Answers, k: nat, kb: string, p: Part)
    requires Fresh(start) && WorkList(start, ids) && k < |ids| && !cfg.isChapter(p.url)
    requires var e := EntryAt(cfg, start, ids, world, k, kb, p.url); e.Some? && Good(e.value, p)
    ensures Home(Steps(cfg, start, ids, world).st, kb, p) <==> !Spoiled(Entries(cfg, start, ids, world, kb, p.url), k, p)
  {
    RunHome(cfg, start, ids, world, kb, p);
    GoodUnlessSpoiled(Entries(cfg, start, ids, world, kb, p.url), k, p);
  }

  // ---------------------------------------------------------------------------
  // Any number of runs
  // ---------------------------------------------------------------------------

  /** The last thing that any of the runs writes to the first source with that url. */
  function LastOfRuns(cfg: Config, st: Store, worlds: seq<nat -> Answers>, kb: string, url: string): Option<Entry> {
    if worlds == [] then None else
    var before := Runs(cfg, st, worlds[..|worlds| - 1]);
    var e := LastEntry(cfg, before, Sorted(BrokenIds(cfg, before)), worlds[|worlds| - 1], kb, url);
    if e.Some? then e else LastOfRuns(cfg, st, worlds[..|worlds| - 1], kb, url)
  }

  lemma {:induction false} RunsHome(cfg: Config, st: Store, worlds: seq<nat -> Answers>, kb: string, p: Part)
    requires Fresh(st) && !cfg.isChapter(p.url)
    ensures Fresh(Runs(cfg, st, worlds))
    ensures Home(Runs(cfg, st, worlds), kb, p) <==>
      match LastOfRuns(cfg, st, worlds, kb, p.url) { case Some(e) => Good(e, p) case None => Home(st, kb, p) }
  {
    if worlds != [] {
      var before := Runs(cfg, st, worlds[..|worlds| - 1]);
      RunsHome(cfg, st, worlds[..|worlds| - 1], kb, p);
      RunWorks(cfg, before);
      StepsKeep(cfg, before, Sorted(BrokenIds(cfg, before)), worlds[|worlds| - 1]);
      RunHome(cfg, before, Sorted(BrokenIds(cfg, before)), worlds[|worlds| - 1], kb, p);
    }
  }

  /** In step `k` of run `r` the source `j` was split, and every part fetched was ingested. */
  ghost predicate SplitBy(cfg: Config, st: Store, worlds: seq<nat -> Answers>, r: nat, k: nat, j: Id) {
    && r < |worlds| && FullySplit(worlds[r](k))
    && var ids := Sorted(BrokenIds(cfg, Runs(cfg, st, worlds[..r])));
       k < |ids| && ids[k] == j
  }

  /** Each part has a source to this day, whose first one holds its text exactly if the last
      thing that was written there is that text. */
  ghost predicate PartsAccounted(cfg: Config, st: Store, worlds: seq<nat -> Answers>, kb: string, a: Answers) {
    a.fetch.Parts? && forall p :: p in a.fetch.parts ==>
      var last := LastOfRuns(cfg, st, worlds, kb, p.url);
      Present(Runs(cfg, st, worlds), kb, p.url)
        && last.Some? && (Home(Runs(cfg, st, worlds), kb, p) <==> Good(last.value, p))
  }

  ghost predicate Replaced(cfg: Config, st: Store, worlds: seq<nat -> Answers>, j: Id, kb: string) {
    exists r: nat, k: nat :: SplitBy(cfg, st, worlds, r, k, j) && PartsAccounted(cfg, st, worlds, kb, worlds[r](k))
  }

  lemma AccountedNow(cfg: Config, st: Store, worlds: seq<nat -> Answers>, kb: string, a: Answers, p: Part)
    requires Fresh(st) && worlds != [] && !cfg.isChapter(p.url)
    requires var before := Runs(cfg, st, worlds[..|worlds| - 1]);
      LastEntry(cfg, before, Sorted(BrokenIds(cfg, before)), worlds[|worlds| - 1], kb, p.url).Some?
    ensures var last := LastOfRuns(cfg, st, worlds, kb, p.url);
      last.Some? && (Home(Runs(cfg, st, worlds), kb, p) <==> Good(last.value, p))
  {
    RunsHome(cfg, st, worlds, kb, p);
  }

  lemma AccountedStill(cfg: Config, st: Store, worlds: seq<nat -> Answers>, kb: string, a: Answers)
    requires Fresh(st) && worlds != [] && PartsAreParts(cfg, a)
    requires PartsAccounted(cfg, st, worlds[..|worlds| - 1], kb, a)
    ensures PartsAccounted(cfg, st, worlds, kb, a)
  {
    var before := Runs(cfg, st, worlds[..|worlds| - 1]);
    var ids := Sorted(BrokenIds(cfg, before));
    forall p | p in a.fetch.parts
      ensures Present(Runs(cfg, st, worlds), kb, p.url)
      ensures var last := LastOfRuns(cfg, st, worlds, kb, p.url);
        last.Some? && (Home(Runs(cfg, st, worlds), kb, p) <==> Good(last.value, p))
    {
      RunsHome(cfg, st, worlds[..|worlds| - 1], kb, p);
      RunsHome(cfg, st, worlds, kb, p);
      RunWorks(cfg, before);
      StepsPresent(cfg, before, ids, worlds[|worlds| - 1], kb, p.url);
    }
  }

  /** The last run splits `j`. */
  lemma SplitNow(cfg: Config, st: Store, worlds: seq<nat -> Answers>, j: Id, s: Source)
    requires Fresh(st) && AllSound(cfg, worlds) && worlds != []
    requires var before := Runs(cfg, st, worlds[..|worlds| - 1]);
      Fresh(before) && j in before.sources && before.sources[j] == s && j !in Runs(cfg, st, worlds).sources
    ensures Replaced(cfg, st, worlds, j, s.kb)
  {
    var r := |worlds| - 1;
    var before, world := Runs(cfg, st, worlds[..r]), worlds[r];
    var ids := Sorted(BrokenIds(cfg, before));
    RunWorks(cfg, before);
    var k := DeletedOnlyWhenSplit(cfg, before, ids, world, j);
    forall p | p in world(k).fetch.parts
      ensures var last := LastOfRuns(cfg, st, worlds, s.kb, p.url);
        last.Some? && (Home(Runs(cfg, st, worlds), s.kb, p) <==> Good(last.value, p))
    {
      SplitWrites(cfg, before, ids, world, k, p);
      GoodUnlessSpoiled(Entries(cfg, before, ids, world, s.kb, p.url), k, p);
      AccountedNow(cfg, st, worlds, s.kb, world(k), p);
    }
    assert SplitBy(cfg, st, worlds, r, k, j) && PartsAccounted(cfg, st, worlds, s.kb, worlds[r](k));
  }

  lemma ReplacedStill(cfg: Config, st: Store, worlds: seq<nat -> Answers>, j: Id, kb: string)
    requires Fresh(st) && AllSound(cfg, worlds) && worlds != []
    requires Replaced(cfg, st, worlds[..|worlds| - 1], j, kb)
    ensures Replaced(cfg, st, worlds, j, kb)
  {
    hide Runs, LastOfRuns, BrokenIds, PartsAccounted;
    var front := worlds[..|worlds| - 1];
    var r: nat, k: nat :| SplitBy(cfg, st, front, r, k, j) && PartsAccounted(cfg, st, front, kb, front[r](k));
    assert front[..r] == worlds[..r] && front[r] == worlds[r] && Sound(cfg, worlds[r]);
    AccountedStill(cfg, st, worlds, kb, worlds[r](k));
    assert SplitBy(cfg, st, worlds, r, k, j);
  }

  /** Over any sequence of runs, whatever fails in them, a chapter source is either still there
      exactly as it was, or one run split it in full at its own step. Then each part fetched has
      a source to this day, and it holds the part's text unless something else was written to
      it later. */
  lemma {:induction false} ChapterNeverLost(cfg: Config, st: Store, worlds: seq<nat -> Answers>, j: Id)
    requires Fresh(st) && AllSound(cfg, worlds) && j in st.sources && ChapterOnly(cfg, st.sources[j])
    ensures var final := Runs(cfg, st, worlds);
      && Fresh(final) && st.next <= final.next
      && (if j in final.sources then final.sources[j] == st.sources[j]
          else Replaced(cfg, st, worlds, j, st.sources[j].kb))
  {
    if worlds != [] {
      var front, world := worlds[..|worlds| - 1], worlds[|worlds| - 1];
      ChapterNeverLost(cfg, st, front, j);
      var before := Runs(cfg, st, front);
      var ids := Sorted(BrokenIds(cfg, before));
      RunWorks(cfg, before);
      StepsKeep(cfg, before, ids, world);
      if j !in before.sources {
        ReplacedStill(cfg, st, worlds, j, st.sources[j].kb);
        NotBack(cfg, before, ids, world, j);
      } else if j in Runs(cfg, st, worlds).sources {
        UnsplitStays(cfg, before, ids, world, j);
      } else {
        SplitNow(cfg, st, worlds, j, st.sources[j]);
      }
    }
  }

  // ---------------------------------------------------------------------------
  // A witness
  // ---------------------------------------------------------------------------

  const CHAPTER := Source("k", "c", true, None, true)
  const PART := Source("k", "p", true, None, true)
  const TEXT := Part("p", "T")

  /** The chapter is split; then the ingestion into the part that was already broken fails. */
  function FailsOnThePart(n: nat): Answers {
    if n == 0 then Answers(None, Parts([TEXT]), m => Chunks(1), None, Error)
    else Answers(Some("T"), FetchFailed, m => Error, None, Error)
  }

  lemma SplitIntoBrokenPart(st: Store)
    requires st.sources == map[Id(0) := CHAPTER, Id(1) := PART]
    ensures Split(st, Id(0), CHAPTER, FailsOnThePart(0)).sources == map[Id(1) := Source("k", "p", true, Some("T"), false)]
  {
    assert At(st, "k", "p") == {Id(1)};
    assert WithParts(st, "k", [TEXT][..0], FailsOnThePart(0).parts) == st;
    assert WithParts(st, "k", [TEXT], FailsOnThePart(0).parts) == WithPart(st, "k", TEXT, Chunks(1));
  }

  /** A run starts with a chapter and one of its parts, left broken by an earlier run. It
      splits the chapter and deletes it, and then repairs the part from the copy read at the
      start: when that fails the copy is saved whole, and the text is gone. */
  lemma StaleCopyLosesText(cfg: Config, start: Store)
    requires start == Store(map[Id(0) := CHAPTER, Id(1) := PART], 2)
    requires "k" in cfg.kbs && cfg.bundled == map[] && cfg.isChapter("c") && !cfg.isChapter("p") && cfg.isPart("p") && !cfg.isPart("c")
    ensures var ids := [Id(0), Id(1)];
      && WorkList(start, ids) && (forall i :: i in ids <==> i in BrokenIds(cfg, start))
      && Steps(cfg, start, ids, FailsOnThePart).st.sources == map[Id(1) := PART]
  {
    var ids := [Id(0), Id(1)];
    assert ids[0] == Id(0) && ids[1] == Id(1) && ids[..1] == [Id(0)] && ids[..1][..0] == [];
    var none: seq<Id> := [];
    assert Steps(cfg, start, none, FailsOnThePart) == Progress(start, map[], 0, [], []);
    var p := Steps(cfg, start, [Id(0)], FailsOnThePart);
    SplitIntoBrokenPart(start);
    assert p.st == Split(start, Id(0), CHAPTER, FailsOnThePart(0)) && p.cache == map[];
    assert Steps(cfg, start, ids, FailsOnThePart) == Step(cfg, p, Id(1), PART, FailsOnThePart(1));
  }
}
