/** What a repair run reports of each source, told from the sources and the answers. */
module RepairReport {
  import opened Wrappers
  import opened Ids
  import opened ChapterRepair
  import opened ChapterFacts

  // ---------------------------------------------------------------------------
  // One source
  // ---------------------------------------------------------------------------

  predicate IsSplit(cfg: Config, text: Option<string>, doc: Source) {
    text == None && doc.url != "" && cfg.isChapter(doc.url)
  }

  /** A text to store: the one known beforehand, or a usable one that was fetched anew. */
  predicate ToStore(cfg: Config, text: Option<string>, doc: Source, a: Answers, t: string) {
    || text == Some(t)
    || (text == None && !IsSplit(cfg, text, doc) && cfg.refetchOthers && doc.url != "" && a.refetched == Some(t))
  }

  /** The ingestion answered with at least one chunk. */
  predicate Stored(r: Ingest) {
    r.Chunks? && r.n > 0
  }

  predicate EveryPartStored(a: Answers) {
    a.fetch.Parts? && a.fetch.parts != [] && forall k :: 0 <= k < |a.fetch.parts| ==> Stored(a.parts(k))
  }

  /** Fixed are the sources of known knowledge bases that were split in full, or whose new text was
      stored. */
  ghost predicate IsFixed(cfg: Config, text: Option<string>, doc: Source, a: Answers) {
    && doc.kb in cfg.kbs
    && if IsSplit(cfg, text, doc) then EveryPartStored(a)
       else (exists t :: ToStore(cfg, text, doc, a, t)) && Stored(a.ingest)
  }

  /** Skipped are those of unknown knowledge bases, and those for which there is nothing to try. */
  predicate IsSkipped(cfg: Config, text: Option<string>, doc: Source) {
    doc.kb !in cfg.kbs || (text == None && !IsSplit(cfg, text, doc) && !(cfg.refetchOthers && doc.url != ""))
  }

  lemma VerdictMeans(cfg: Config, text: Option<string>, doc: Source, a: Answers)
    ensures VerdictOn(cfg, text, doc, a) == Fixed <==> IsFixed(cfg, text, doc, a)
    ensures VerdictOn(cfg, text, doc, a) == Skipped <==> IsSkipped(cfg, text, doc)
  {
    if text.Some? {
      assert ToStore(cfg, text, doc, a, text.value);
    } else if a.refetched.Some? {
      assert ToStore(cfg, text, doc, a, a.refetched.value) <==>
        !IsSplit(cfg, text, doc) && cfg.refetchOthers && doc.url != "";
    }
  }

  /** A fixed source is gone, if it was split, or holds the new text and no error; a skipped one is
      untouched with all others; one whose ingestion failed keeps its text, in error. */
  lemma VerdictShows(cfg: Config, st: Store, text: Option<string>, i: Id, doc: Source, a: Answers)
    ensures var after := Repaired(cfg, st, text, i, doc, a);
      && (IsFixed(cfg, text, doc, a) && IsSplit(cfg, text, doc) ==> i !in after.sources)
      && (doc.kb in cfg.kbs ==> forall t :: ToStore(cfg, text, doc, a, t) && Stored(a.ingest) ==>
            after == st.(sources := st.sources[i := doc.(text := Some(t), error := false)]))
      && (doc.kb in cfg.kbs ==> forall t :: ToStore(cfg, text, doc, a, t) && a.ingest.Error? ==>
            after == st.(sources := st.sources[i := doc.(error := true)]))
      && (IsSkipped(cfg, text, doc) ==> after == st)
  {
  }

  // ---------------------------------------------------------------------------
  // The run
  // ---------------------------------------------------------------------------

  /** A step asks the API for the url: the knowledge base exists, and the url is an eCFR part's and not
      bundled. */
  predicate AsksFor(cfg: Config, start: Store, ids: seq<Id>, k: nat, url: string)
    requires k < |ids| && forall i :: i in ids ==> i in start.sources
  {
    var doc := start.sources[ids[k]];
    doc.url == url && doc.kb in cfg.kbs && url !in cfg.bundled && url != "" && cfg.isPart(url)
  }

  predicate FirstToAsk(cfg: Config, start: Store, ids: seq<Id>, j: nat, url: string)
    requires j < |ids| && forall i :: i in ids ==> i in start.sources
  {
    AsksFor(cfg, start, ids, j, url) && forall m :: 0 <= m < j ==> !AsksFor(cfg, start, ids, m, url)
  }

  lemma {:induction false} NotAsked(cfg: Config, start: Store, ids: seq<Id>, world: nat -> Answers, n: nat, url: string)
    requires n <= |ids| && forall i :: i in ids ==> i in start.sources
    requires forall m :: 0 <= m < n ==> !AsksFor(cfg, start, ids, m, url)
    ensures url !in CacheAfter(cfg, start, ids[..n], world)
  {
    if n > 0 {
      NotAsked(cfg, start, ids, world, n - 1, url);
      assert ids[..n][..n - 1] == ids[..n - 1] && ids[..n][n - 1] == ids[n - 1];
      assert !AsksFor(cfg, start, ids, n - 1, url);
    }
  }

  lemma {:induction false} CacheHolds(cfg: Config, start: Store, ids: seq<Id>, world: nat -> Answers, j: nat, n: nat, url: string)
    requires (forall i :: i in ids ==> i in start.sources) && j < n <= |ids| && FirstToAsk(cfg, start, ids, j, url)
    ensures url in CacheAfter(cfg, start, ids[..n], world) && CacheAfter(cfg, start, ids[..n], world)[url] == world(j).api
  {
    assert ids[..n][..n - 1] == ids[..n - 1] && ids[..n][n - 1] == ids[n - 1];
    if j < n - 1 {
      CacheHolds(cfg, start, ids, world, j, n - 1, url);
    } else {
      NotAsked(cfg, start, ids, world, j, url);
      assert AsksFor(cfg, start, ids, j, url);
    }
  }

  /** The text known at a step: the bundled one, or what the API answered when the run first asked it
      for this url. */
  lemma TextIsFirstAnswer(cfg: Config, start: Store, ids: seq<Id>, world: nat -> Answers, k: nat)
    requires k < |ids| && forall i :: i in ids ==> i in start.sources
    ensures var doc, text := start.sources[ids[k]], TextAt(cfg, start, ids, world, k);
      && (doc.url in cfg.bundled ==> text == Some(cfg.bundled[doc.url]))
      && (AsksFor(cfg, start, ids, k, doc.url) ==>
            forall j :: 0 <= j <= k && FirstToAsk(cfg, start, ids, j, doc.url) ==> text == world(j).api)
      && (doc.kb in cfg.kbs && doc.url !in cfg.bundled && !AsksFor(cfg, start, ids, k, doc.url) ==> text == None)
  {
    var url := start.sources[ids[k]].url;
    forall j | 0 <= j <= k && FirstToAsk(cfg, start, ids, j, url)
      ensures url in CacheAfter(cfg, start, ids[..k + 1], world)
      ensures CacheAfter(cfg, start, ids[..k + 1], world)[url] == world(j).api
    {
      CacheHolds(cfg, start, ids, world, j, k + 1, url);
    }
  }

  /** A run's lists hold exactly the failed and the skipped sources. */
  lemma {:induction false} RunReports(cfg: Config, start: Store, ids: seq<Id>, world: nat -> Answers, k: nat)
    requires WorkList(start, ids) && k < |ids|
    ensures var p, text := Steps(cfg, start, ids, world), TextAt(cfg, start, ids, world, k);
      var doc, a := start.sources[ids[k]], world(k);
      && (ids[k] in p.skipped <==> IsSkipped(cfg, text, doc))
      && (ids[k] in p.failed <==> !IsSkipped(cfg, text, doc) && !IsFixed(cfg, text, doc, a))
  {
    hide IsSkipped, IsFixed, VerdictOn, TextFor, TextAt, Repaired, Cached;
    var front, n := ids[..|ids| - 1], |ids| - 1;
    var doc := start.sources[ids[n]];
    var before := Steps(cfg, start, front, world);
    OnlyWork(cfg, start, front, world);
    TextNow(cfg, start, ids, world);
    VerdictMeans(cfg, TextAt(cfg, start, ids, world, n), doc, world(n));
    if k < n {
      RunReports(cfg, start, front, world, k);
      TextBefore(cfg, start, ids, world, k);
      assert ids[n] != ids[k] && front[k] == ids[k];
    } else {
      assert ids[n] !in front;
    }
  }

  lemma {:induction false} OnlyWork(cfg: Config, start: Store, ids: seq<Id>, world: nat -> Answers)
    requires forall i :: i in ids ==> i in start.sources
    ensures forall i :: i in Steps(cfg, start, ids, world).failed || i in Steps(cfg, start, ids, world).skipped ==> i in ids
  {
    if ids != [] {
      OnlyWork(cfg, start, ids[..|ids| - 1], world);
      assert ids == ids[..|ids| - 1] + [ids[|ids| - 1]];
    }
  }

  /** The source comes from a url and is in error, without text, or its text looks like no content. */
  predicate NeedsRepair(cfg: Config, s: Source) {
    s.fromUrl && (s.error || s.text == None || cfg.looksEmpty(s.text.value, s.url))
  }

  /** The run takes up exactly those sources, each once. */
  lemma WorkIs(cfg: Config, st: Store, i: Id)
    ensures i in Sorted(BrokenIds(cfg, st)) <==> i in st.sources && NeedsRepair(cfg, st.sources[i])
    ensures WorkList(st, Sorted(BrokenIds(cfg, st)))
  {
    RunWorks(cfg, st);
  }
}
