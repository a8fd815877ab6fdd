/**
 `repair_gov_kb_sources.py`: broken knowledge-base sources rebuilt one by one, a chapter
 replaced by its parts. Every fetch and every ingestion may fail; what they answer is part
 of the input.
 */
module ChapterRepair {
  import opened Wrappers
  import opened Ids

  /** A knowledge-base source. */
  datatype Source = Source(kb: string, url: string, fromUrl: bool, text: Option<string>, error: bool)

  /** `next` is the rank of the next ObjectId; every id in use is below it. */
  datatype Store = Store(sources: map<Id, Source>, next: nat)

  predicate Fresh(st: Store) {
    forall i :: i in st.sources ==> i.rank < st.next
  }

  datatype Part = Part(url: string, text: string)

  /** What `fetch_parts_for_chapter_url` answers. */
  datatype Fetch = FetchFailed | NoParts | Parts(parts: seq<Part>)

  /** What an ingestion answers: an error, or a number of chunks. */
  datatype Ingest = Error | Chunks(n: nat)

  predicate Counts(r: Ingest) {
    r.Chunks? && r.n > 0
  }

  /** What the outside world answers while one source is repaired. */
  datatype Answers = Answers(api: Option<string>, fetch: Fetch, parts: nat -> Ingest,
                             refetched: Option<string>, ingest: Ingest)

  /** What a run knows: the bundled texts, the knowledge bases, which urls are eCFR parts or
      chapters, and which stored texts look like no content. */
  datatype Config = Config(bundled: map<string, string>, kbs: set<string>, isPart: string -> bool,
                           isChapter: string -> bool, looksEmpty: (string, string) -> bool, refetchOthers: bool)

  /** `_is_broken`. */
  predicate Broken(cfg: Config, s: Source) {
    s.error || s.text.None? || cfg.looksEmpty(s.text.value, s.url)
  }

  /** The document that is saved after an ingestion into the in-memory copy `doc`. */
  function Ingested(doc: Source, text: string, r: Ingest): Source {
    if r.Chunks? then doc.(text := Some(text), error := false) else doc.(error := true)
  }

  // ---------------------------------------------------------------------------
  // Splitting a chapter
  // ---------------------------------------------------------------------------

  function At(st: Store, kb: string, url: string): set<Id> {
    set i | i in st.sources && st.sources[i].kb == kb && st.sources[i].url == url
  }

  /** One part: into the source that has its url, or a new one. */
  function WithPart(st: Store, kb: string, p: Part, r: Ingest): Store {
    var found := At(st, kb, p.url);
    if found != {} then st.(sources := st.sources[Least(found) := Ingested(st.sources[Least(found)], p.text, r)])
    else Store(st.sources[Id(st.next) := Ingested(Source(kb, p.url, true, None, false), p.text, r)], st.next + 1)
  }

  function WithParts(st: Store, kb: string, parts: seq<Part>, answers: nat -> Ingest): Store {
    if parts == [] then st
    else WithPart(WithParts(st, kb, parts[..|parts| - 1], answers), kb, parts[|parts| - 1], answers(|parts| - 1))
  }

  predicate AllCount(n: nat, answers: nat -> Ingest) {
    forall k :: 0 <= k < n ==> Counts(answers(k))
  }

  predicate FullySplit(a: Answers) {
    a.fetch.Parts? && a.fetch.parts != [] && AllCount(|a.fetch.parts|, a.parts)
  }

  /** `_split_chapter_source` of source `i`, of which `doc` is the in-memory copy. */
  function Split(st: Store, i: Id, doc: Source, a: Answers): Store {
    if !a.fetch.Parts? || a.fetch.parts == [] then st.(sources := st.sources[i := doc]) else
    var filled := WithParts(st, doc.kb, a.fetch.parts, a.parts);
    if FullySplit(a) then filled.(sources := filled.sources - {i})
    else filled.(sources := filled.sources[i := doc])
  }

  // ---------------------------------------------------------------------------
  // One source
  // ---------------------------------------------------------------------------

  datatype Verdict = Fixed | Failed | Skipped

  /** Texts the API has already answered with in this run, failures included. */
  type Cache = map<string, Option<string>>

  predicate AsksApi(cfg: Config, doc: Source) {
    doc.url !in cfg.bundled && doc.url != [] && cfg.isPart(doc.url)
  }

  function Cached(cfg: Config, cache: Cache, doc: Source, a: Answers): Cache {
    if doc.kb in cfg.kbs && AsksApi(cfg, doc) && doc.url !in cache then cache[doc.url := a.api] else cache
  }

  /** The bundled text, or the API's. */
  function TextFor(cfg: Config, cache: Cache, doc: Source): Option<string> {
    if doc.url in cfg.bundled then Some(cfg.bundled[doc.url])
    else if AsksApi(cfg, doc) && doc.url in cache then cache[doc.url]
    else None
  }

  predicate Splits(cfg: Config, text: Option<string>, doc: Source) {
    text.None? && doc.url != [] && cfg.isChapter(doc.url)
  }

  predicate Refetches(cfg: Config, doc: Source) {
    cfg.refetchOthers && doc.url != []
  }

  function VerdictOn(cfg: Config, text: Option<string>, doc: Source, a: Answers): Verdict {
    if doc.kb !in cfg.kbs then Skipped
    else if Splits(cfg, text, doc) then if FullySplit(a) then Fixed else Failed
    else if text.Some? then if Counts(a.ingest) then Fixed else Failed
    else if Refetches(cfg, doc) then if a.refetched.Some? && Counts(a.ingest) then Fixed else Failed
    else Skipped
  }

  function Repaired(cfg: Config, st: Store, text: Option<string>, i: Id, doc: Source, a: Answers): Store {
    if doc.kb !in cfg.kbs then st
    else if Splits(cfg, text, doc) then Split(st, i, doc, a)
    else if text.Some? then st.(sources := st.sources[i := Ingested(doc, text.value, a.ingest)])
    else if Refetches(cfg, doc) && a.refetched.Some?
    then st.(sources := st.sources[i := Ingested(doc, a.refetched.value, a.ingest)])
    else st
  }

  // ---------------------------------------------------------------------------
  // A run
  // ---------------------------------------------------------------------------

  /** The broken sources, as the run reads them before it starts. */
  function BrokenIds(cfg: Config, st: Store): set<Id> {
    set i | i in st.sources && st.sources[i].fromUrl && Broken(cfg, st.sources[i])
  }

  /** How far a run has come. */
  datatype Progress = Progress(st: Store, cache: Cache, fixed: nat, failed: seq<Id>, skipped: seq<Id>)

  function Step(cfg: Config, p: Progress, i: Id, doc: Source, a: Answers): Progress {
    var cache := Cached(cfg, p.cache, doc, a);
    var text := TextFor(cfg, cache, doc);
    var verdict := VerdictOn(cfg, text, doc, a);
    Progress(Repaired(cfg, p.st, text, i, doc, a), cache,
             if verdict.Fixed? then p.fixed + 1 else p.fixed,
             if verdict.Failed? then p.failed + [i] else p.failed,
             if verdict.Skipped? then p.skipped + [i] else p.skipped)
  }

  function Steps(cfg: Config, start: Store, ids: seq<Id>, world: nat -> Answers): Progress
    requires forall i :: i in ids ==> i in start.sources
  {
    if ids == [] then Progress(start, map[], 0, [], []) else
    var i := ids[|ids| - 1];
    Step(cfg, Steps(cfg, start, ids[..|ids| - 1], world), i, start.sources[i], world(|ids| - 1))
  }

  /** A live run whose vector store accepts writes. */
  function Run(cfg: Config, st: Store, world: nat -> Answers): Progress {
    Steps(cfg, st, Sorted(BrokenIds(cfg, st)), world)
  }

  /** Runs one after the other. A dry run, or one that the vector store refuses, is left out
      of the list: it changes nothing. */
  function Runs(cfg: Config, st: Store, worlds: seq<nat -> Answers>): Store {
    if worlds == [] then st else Run(cfg, Runs(cfg, st, worlds[..|worlds| - 1]), worlds[|worlds| - 1]).st
  }
}
