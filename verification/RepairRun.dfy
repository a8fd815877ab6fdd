/** `repair_gov_kb_sources.py` as it runs: sources inserted, rewritten and deleted in place. */
module RepairRun {
  import opened Wrappers
  import opened Ids
  import opened ChapterRepair
  import opened ChapterFacts

  /** The first source of the knowledge base with the url. */
  predicate FirstWith(sources: map<Id, Source>, kb: string, url: string, i: Id) {
    && i in sources && sources[i].kb == kb && sources[i].url == url
    && forall j :: j in sources && sources[j].kb == kb && sources[j].url == url ==> i.rank <= j.rank
  }

  class Database {
    var sources: map<Id, Source>
    var next: nat

    constructor ()
      ensures Now() == Store(map[], 0)
    {
      sources, next := map[], 0;
    }

    function Now(): Store
      reads this
    {
      Store(sources, next)
    }

    /** `ingest_text_into_source`: the in-memory copy is updated and saved whole. */
    method IngestText(i: Id, doc: Source, text: string, r: Ingest)
      modifies this
      ensures Now() == old(Now()).(sources := old(sources)[i := Ingested(doc, text, r)])
    {
      var saved := doc;
      if r.Chunks? {
        saved := saved.(text := Some(text), error := false);
      } else {
        saved := saved.(error := true);
      }
      sources := sources[i := saved];
    }

    /** One part of a chapter: the source is found by its url, or inserted. */
    method IngestPart(kb: string, p: Part, r: Ingest)
      modifies this
      ensures Now() == WithPart(old(Now()), kb, p, r)
      ensures (forall i :: i in old(sources) ==> old(sources)[i].kb != kb || old(sources)[i].url != p.url) ==>
        sources == old(sources)[Id(old(next)) := Source(kb, p.url, true, if r.Chunks? then Some(p.text) else None, !r.Chunks?)]
      ensures forall i :: FirstWith(old(sources), kb, p.url, i) ==>
        sources == old(sources)[i := if r.Chunks? then old(sources)[i].(text := Some(p.text), error := false)
                                     else old(sources)[i].(error := true)]
    {
      var found := At(Now(), kb, p.url);
      assert forall i :: i in found <==> i in sources && sources[i].kb == kb && sources[i].url == p.url;
      if found == {} {
        var i := Id(next);
        next := next + 1;
        IngestText(i, Source(kb, p.url, true, None, false), p.text, r);
      } else {
        var i := Least(found);
        IngestText(i, sources[i], p.text, r);
      }
    }

    /** `_split_chapter_source`. */
    method SplitChapter(i: Id, doc: Source, a: Answers) returns (done: bool)
      modifies this
      ensures Now() == Split(old(Now()), i, doc, a) && done == FullySplit(a)
    {
      if !a.fetch.Parts? || a.fetch.parts == [] {
        sources := sources[i := doc];
        return false;
      }
      var parts := a.fetch.parts;
      var ingested := 0;
      for k := 0 to |parts|
        invariant Now() == WithParts(old(Now()), doc.kb, parts[..k], a.parts)
        invariant 0 <= ingested <= k && (ingested == k <==> AllCount(k, a.parts))
      {
        assert parts[..k + 1][..k] == parts[..k];
        IngestPart(doc.kb, parts[k], a.parts(k));
        if Counts(a.parts(k)) {
          ingested := ingested + 1;
        }
      }
      assert parts[..|parts|] == parts;
      if ingested < |parts| {
        sources := sources[i := doc];
        return false;
      }
      sources := sources - {i};
      done := true;
    }

    /** One pass of the loop of `repair`, once the text has been looked up. */
    method RepairOne(cfg: Config, text: Option<string>, i: Id, doc: Source, a: Answers) returns (verdict: Verdict)
      modifies this
      ensures Now() == Repaired(cfg, old(Now()), text, i, doc, a) && verdict == VerdictOn(cfg, text, doc, a)
    {
      if doc.kb !in cfg.kbs {
        return Skipped;
      }
      if text.None? && doc.url != [] && cfg.isChapter(doc.url) {
        var done := SplitChapter(i, doc, a);
        return if done then Fixed else Failed;
      }
      if text.Some? {
        IngestText(i, doc, text.value, a.ingest);
        return if Counts(a.ingest) then Fixed else Failed;
      }
      if cfg.refetchOthers && doc.url != [] {
        if a.refetched.None? {
          return Failed;
        }
        IngestText(i, doc, a.refetched.value, a.ingest);
        return if Counts(a.ingest) then Fixed else Failed;
      }
      verdict := Skipped;
    }

    /** The loop of `repair`. The broken sources are read once, before anything is changed. */
    method RepairAll(cfg: Config, ids: seq<Id>, world: nat -> Answers) returns (p: Progress)
      requires forall i :: i in ids ==> i in sources
      modifies this
      ensures p == Steps(cfg, old(Now()), ids, world) && Now() == p.st
    {
      ghost var start := Now();
      var docs := sources;
      var cache: Cache := map[];
      var fixed, failed, skipped := 0, [], [];
      for k := 0 to |ids|
        invariant forall i :: i in ids[..k] ==> i in start.sources
        invariant Progress(Now(), cache, fixed, failed, skipped) == Steps(cfg, start, ids[..k], world)
      {
        assert ids[..k + 1][..k] == ids[..k];
        var i, a := ids[k], world(k);
        cache := Cached(cfg, cache, docs[i], a);
        var verdict := RepairOne(cfg, TextFor(cfg, cache, docs[i]), i, docs[i], a);
        match verdict {
          case Fixed => fixed := fixed + 1;
          case Failed => failed := failed + [i];
          case Skipped => skipped := skipped + [i];
        }
      }
      assert ids[..|ids|] == ids;
      p := Progress(Now(), cache, fixed, failed, skipped);
    }

    /** `repair`. `writable` is the vector store's answer to the test write. A run that goes
        ahead reports every broken source once, as fixed, failed or skipped. */
    method Repair(cfg: Config, world: nat -> Answers, dryRun: bool, writable: bool)
      returns (broken: nat, fixed: nat, failed: seq<Id>, skipped: seq<Id>)
      modifies this
      ensures broken == |BrokenIds(cfg, old(Now()))|
      ensures dryRun || !writable ==> Now() == old(Now()) && fixed == 0 && failed == [] && skipped == []
      ensures !dryRun && writable ==> Now() == Run(cfg, old(Now()), world).st && fixed + |failed| + |skipped| == broken
      ensures !dryRun && writable ==>
        failed == Run(cfg, old(Now()), world).failed && skipped == Run(cfg, old(Now()), world).skipped
    {
      var ids := Sorted(BrokenIds(cfg, Now()));
      SortedOnce(BrokenIds(cfg, Now()));
      broken, fixed, failed, skipped := |ids|, 0, [], [];
      if dryRun || ids == [] {
        return;
      }
      if !writable {
        return;
      }
      RunAddsUp(cfg, Now(), world);
      var p := RepairAll(cfg, ids, world);
      fixed, failed, skipped := p.fixed, p.failed, p.skipped;
    }
  }
}
