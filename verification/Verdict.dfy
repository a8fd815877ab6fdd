/** The verifier's verdict after a complete live run, read off the database before it. */
module Verdict {
  import opened Wrappers
  import opened Ids
  import opened Mongo
  import opened Conversion
  import opened Migration
  import opened MigrationRun
  import opened MigrationFacts
  import opened Idempotence
  import opened SecondRun
  import opened Backups
  import opened Verifier

  // ---------------------------------------------------------------------------
  // Documents that a run leaves unresolved
  // ---------------------------------------------------------------------------

  /** No team, no owner in the user map, and no default team. */
  predicate LeftWithoutTeam(e: Env, d: Doc) {
    TeamId !in d && TeamFor(e, d).None?
  }

  /** An `obj` that names an item of a known kind. */
  predicate ItemReadable(d: Doc) {
    Obj in d && ExtractOid(d[Obj]).Some? && ItemKindOf(d).Some?
  }

  predicate ItemUnlinked(d: Doc) {
    ItemId !in d && !ItemReadable(d)
  }

  predicate ItemKindless(d: Doc) {
    Kind !in d && !(ItemId !in d && ItemReadable(d))
  }

  predicate SourceUnlinked(d: Doc) {
    KnowledgeBaseUuid !in d && !(Field.KnowledgeBase in d && ExtractOid(d[Field.KnowledgeBase]).Some?)
  }

  predicate RequestUnlinked(e: Env, i: Id, d: Doc) {
    ItemId !in d && !(ItemIdentifier in d && Resolve(e, i, d).Some?)
  }

  predicate CollectionUnlisted(d: Doc) {
    ItemIds !in d && Items !in d
  }

  // ---------------------------------------------------------------------------
  // One document after the run
  // ---------------------------------------------------------------------------

  lemma TeamMissingAfterRun(e: Env, n: Name, i: Id, d: Doc)
    requires SpaceScoped(n)
    ensures TeamId !in MigrateDoc(e, n, i, d) <==> LeftWithoutTeam(e, d)
  {
    if TeamId in d {
      TeamNeverChanges(e, n, i, d);
    } else {
      TeamOfItsOwner(e, n, i, d);
    }
  }

  lemma ConvertedItem(d: Doc)
    ensures ItemId !in LibraryItemDoc(d) <==> ItemUnlinked(d)
    ensures Kind !in LibraryItemDoc(d) <==> ItemKindless(d)
    ensures Obj !in LibraryItemDoc(d)
    ensures Kind in LibraryItemDoc(d) ==> LibraryItemDoc(d)[Kind] != Str(Text.OldSearchSetKind)
  {
  }

  lemma ReadableStripped(d: Doc)
    ensures ItemReadable(d - {Cls}) == ItemReadable(d)
  {
  }

  lemma ItemAfterRun(e: Env, i: Id, d: Doc)
    ensures ItemId !in MigrateDoc(e, LibraryItem, i, d) <==> ItemUnlinked(d)
    ensures Kind !in MigrateDoc(e, LibraryItem, i, d) <==> ItemKindless(d)
    ensures Obj !in MigrateDoc(e, LibraryItem, i, d)
    ensures Kind in MigrateDoc(e, LibraryItem, i, d) ==>
      MigrateDoc(e, LibraryItem, i, d)[Kind] != Str(Text.OldSearchSetKind)
  {
    MigratedItem(e, i, d);
    ReadableStripped(d);
    ConvertedItem(d - {Cls});
  }

  lemma ConvertedSource(e: Env, d: Doc)
    ensures KnowledgeBaseUuid !in KbSourceDoc(e, d) <==> SourceUnlinked(d)
  {
  }

  lemma SourceStripped(d: Doc)
    ensures SourceUnlinked(d - {Cls}) == SourceUnlinked(d)
  {
  }

  lemma SourceAfterRun(e: Env, i: Id, d: Doc)
    ensures KnowledgeBaseUuid !in MigrateDoc(e, KnowledgeBaseSources, i, d) <==> SourceUnlinked(d)
  {
    MigratedSource(e, i, d);
    SourceStripped(d);
    ConvertedSource(e, d - {Cls});
  }

  lemma ConvertedRequest(e: Env, i: Id, d: Doc)
    ensures ItemId !in RequestDoc(e, i, d) <==> RequestUnlinked(e, i, d)
  {
  }

  lemma RequestStripped(e: Env, i: Id, d: Doc)
    ensures RequestUnlinked(e, i, d - {Cls}) == RequestUnlinked(e, i, d)
  {
  }

  lemma RequestAfterRun(e: Env, i: Id, d: Doc)
    ensures ItemId !in MigrateDoc(e, VerificationRequest, i, d) <==> RequestUnlinked(e, i, d)
  {
    MigratedRequest(e, i, d);
    RequestStripped(e, i, d);
    ConvertedRequest(e, i, d - {Cls});
  }

  lemma ConvertedCollection(d: Doc)
    ensures ItemIds !in CollectionDoc(d) <==> CollectionUnlisted(d)
  {
  }

  lemma CollectionStripped(d: Doc)
    ensures CollectionUnlisted(d - {Cls}) == CollectionUnlisted(d)
  {
  }

  lemma CollectionAfterRun(e: Env, i: Id, d: Doc)
    ensures ItemIds !in MigrateDoc(e, VerifiedCollection, i, d) <==> CollectionUnlisted(d)
  {
    MigratedCollection(e, i, d);
    CollectionStripped(d);
    ConvertedCollection(d - {Cls});
  }

  // ---------------------------------------------------------------------------
  // Counts after the run
  // ---------------------------------------------------------------------------

  /** The kept documents of one collection that a test will find after the run, picked out
      by a property they have before it. */
  function Doomed(e: Env, n: Name, t: Test, docs: Docs): set<Id> {
    set i | i in docs && !Unsupported(n, docs[i]) && Holds(MigrateDoc(e, n, i, docs[i]), t)
  }

  lemma CountAfterRun(e: Env, n: Name, t: Test, docs: Docs, i: Id)
    ensures i in Selected(MigratedDocs(e, n, docs), Where(t)) <==> i in Doomed(e, n, t, docs)
  {
    MigratedAt(e, n, docs, i);
  }

  lemma CountsAfterRun(e: Env, n: Name, t: Test, docs: Docs, found: set<Id>)
    requires forall i :: i in found <==> i in Doomed(e, n, t, docs)
    ensures Selected(MigratedDocs(e, n, docs), Where(t)) == found
  {
    forall i {
      CountAfterRun(e, n, t, docs, i);
    }
  }

  function WithoutTeam(e: Env, docs: Docs): set<Id> {
    set i | i in docs && LeftWithoutTeam(e, docs[i])
  }

  function KeptItems(docs: Docs): set<Id> {
    set i | i in docs && !Unsupported(LibraryItem, docs[i])
  }

  function UnlinkedItems(docs: Docs): set<Id> {
    set i | i in KeptItems(docs) && ItemUnlinked(docs[i])
  }

  function KindlessItems(docs: Docs): set<Id> {
    set i | i in KeptItems(docs) && ItemKindless(docs[i])
  }

  function UnlinkedSources(docs: Docs): set<Id> {
    set i | i in docs && SourceUnlinked(docs[i])
  }

  function UnlinkedRequests(e: Env, docs: Docs): set<Id> {
    set i | i in docs && !Unsupported(VerificationRequest, docs[i]) && RequestUnlinked(e, i, docs[i])
  }

  function UnlistedCollections(docs: Docs): set<Id> {
    set i | i in docs && CollectionUnlisted(docs[i])
  }

  lemma TeamCountAt(e: Env, n: Name, docs: Docs, i: Id)
    requires SpaceScoped(n)
    ensures i in WithoutTeam(e, docs) <==> i in Doomed(e, n, Lacks(TeamId), docs)
  {
    if i in docs {
      TeamMissingAfterRun(e, n, i, docs[i]);
      assert !Unsupported(n, docs[i]);
    }
  }

  lemma TeamCounts(e: Env, n: Name, docs: Docs)
    requires SpaceScoped(n)
    ensures Selected(MigratedDocs(e, n, docs), Where(Lacks(TeamId))) == WithoutTeam(e, docs)
  {
    forall i {
      TeamCountAt(e, n, docs, i);
    }
    CountsAfterRun(e, n, Lacks(TeamId), docs, WithoutTeam(e, docs));
  }

  lemma ItemCounts(e: Env, docs: Docs)
    ensures Selected(MigratedDocs(e, LibraryItem, docs), Where(Lacks(ItemId))) == UnlinkedItems(docs)
    ensures Selected(MigratedDocs(e, LibraryItem, docs), Where(Lacks(Kind))) == KindlessItems(docs)
  {
    forall i
      ensures i in UnlinkedItems(docs) <==> i in Doomed(e, LibraryItem, Lacks(ItemId), docs)
      ensures i in KindlessItems(docs) <==> i in Doomed(e, LibraryItem, Lacks(Kind), docs)
    {
      if i in docs {
        ItemAfterRun(e, i, docs[i]);
      }
    }
    CountsAfterRun(e, LibraryItem, Lacks(ItemId), docs, UnlinkedItems(docs));
    CountsAfterRun(e, LibraryItem, Lacks(Kind), docs, KindlessItems(docs));
  }

  lemma NoObjLeft(e: Env, docs: Docs)
    ensures Selected(MigratedDocs(e, LibraryItem, docs), Where(Has(Obj))) == {}
  {
    forall i
      ensures i !in Doomed(e, LibraryItem, Has(Obj), docs)
    {
      if i in docs {
        ItemAfterRun(e, i, docs[i]);
      }
    }
    CountsAfterRun(e, LibraryItem, Has(Obj), docs, {});
  }

  lemma NoOldKind(e: Env, i: Id, d: Doc, t: Test)
    requires t == Is(Kind, Str(Text.OldSearchSetKind))
    ensures !Holds(MigrateDoc(e, LibraryItem, i, d), t)
  {
    ItemAfterRun(e, i, d);
  }

  lemma NoneDoomed(e: Env, n: Name, t: Test, docs: Docs)
    requires forall i, d :: !Holds(MigrateDoc(e, n, i, d), t)
    ensures Selected(MigratedDocs(e, n, docs), Where(t)) == {}
  {
    CountsAfterRun(e, n, t, docs, {});
  }

  lemma NoOldKindLeft(e: Env, docs: Docs, t: Test)
    requires t == Is(Kind, Str(Text.OldSearchSetKind))
    ensures Selected(MigratedDocs(e, LibraryItem, docs), Where(t)) == {}
  {
    forall i, d {
      NoOldKind(e, i, d, t);
    }
    NoneDoomed(e, LibraryItem, t, docs);
  }

  lemma SourceCounts(e: Env, docs: Docs)
    ensures Selected(MigratedDocs(e, KnowledgeBaseSources, docs), Where(Lacks(KnowledgeBaseUuid)))
         == UnlinkedSources(docs)
  {
    forall i
      ensures i in UnlinkedSources(docs) <==> i in Doomed(e, KnowledgeBaseSources, Lacks(KnowledgeBaseUuid), docs)
    {
      if i in docs {
        SourceAfterRun(e, i, docs[i]);
      }
    }
    CountsAfterRun(e, KnowledgeBaseSources, Lacks(KnowledgeBaseUuid), docs, UnlinkedSources(docs));
  }

  lemma RequestCounts(e: Env, docs: Docs)
    ensures Selected(MigratedDocs(e, VerificationRequest, docs), Where(Lacks(ItemId))) == UnlinkedRequests(e, docs)
  {
    forall i
      ensures i in UnlinkedRequests(e, docs) <==> i in Doomed(e, VerificationRequest, Lacks(ItemId), docs)
    {
      if i in docs {
        RequestAfterRun(e, i, docs[i]);
      }
    }
    CountsAfterRun(e, VerificationRequest, Lacks(ItemId), docs, UnlinkedRequests(e, docs));
  }

  lemma CollectionCounts(e: Env, docs: Docs)
    ensures Selected(MigratedDocs(e, VerifiedCollection, docs), Where(Lacks(ItemIds))) == UnlistedCollections(docs)
  {
    forall i
      ensures i in UnlistedCollections(docs) <==> i in Doomed(e, VerifiedCollection, Lacks(ItemIds), docs)
    {
      if i in docs {
        CollectionAfterRun(e, i, docs[i]);
      }
    }
    CountsAfterRun(e, VerifiedCollection, Lacks(ItemIds), docs, UnlistedCollections(docs));
  }

  lemma NoClsLeft(e: Env, n: Name, docs: Docs)
    ensures Selected(MigratedDocs(e, n, docs), Where(Has(Cls))) == {}
  {
    forall i
      ensures i !in Doomed(e, n, Has(Cls), docs)
    {
      if i in docs {
        GoneAfterRun(e, n, i, docs[i]);
      }
    }
    CountsAfterRun(e, n, Has(Cls), docs, {});
  }

  lemma NoSpaceLeft(e: Env, n: Name, docs: Docs)
    requires DropsSpace(n)
    ensures Selected(MigratedDocs(e, n, docs), Where(Has(Space))) == {}
  {
    forall i
      ensures i !in Doomed(e, n, Has(Space), docs)
    {
      if i in docs {
        GoneAfterRun(e, n, i, docs[i]);
      }
    }
    CountsAfterRun(e, n, Has(Space), docs, {});
  }

  // ---------------------------------------------------------------------------
  // The verdict
  // ---------------------------------------------------------------------------

  /** A renamed collection was there under both its names. */
  predicate BothNames(a: Colls, o: Name) {
    NewName(o).Some? && Live(o) in a && Live(NewName(o).value) in a
  }

  /** What phase 5 will report, told from the database before phases 2-4. */
  ghost predicate Foreseen(e: Env, a: Colls, x: Issue) {
    match x
    case StillCls(_, _) => false
    case StillSpace(_, _) => false
    case MissingTeam(n, k) => SpaceScoped(n) && k == |WithoutTeam(e, DocsIn(a, Live(n)))| > 0
    case ItemStillObj(_) => false
    case ItemMissingId(k) => k == |UnlinkedItems(DocsIn(a, Live(LibraryItem)))| > 0
    case ItemMissingKind(k) => k == |KindlessItems(DocsIn(a, Live(LibraryItem)))| > 0
    case ItemOldKind(_) => false
    case SourceMissingUuid(k) => k == |UnlinkedSources(DocsIn(a, Live(KnowledgeBaseSources)))| > 0
    case RequestMissingItem(k) => k == |UnlinkedRequests(e, DocsIn(a, Live(VerificationRequest)))| > 0
    case CollectionMissingItems(k) => k == |UnlistedCollections(DocsIn(a, Live(VerifiedCollection)))| > 0
    case OldNameLeft(n) => BothNames(a, n)
    case CountChanged(c, before, now) =>
      exists o :: BothNames(a, o) && c == Live(NewName(o).value) && before == |a[Live(o)]| && now == |a[c]|
               && before != now
  }

  /** Preflight's counts, seen from the state that has the new backups. */
  ghost predicate Baseline(a: Colls, pre: map<Coll, nat>) {
    && (forall c :: c in pre ==> c in a && !c.Internal? && pre[c] == |a[c]|)
    && (forall c: Coll :: c in a && c.Live? ==> c in pre)
  }

  lemma BaselineOfRun(before: Colls, a: Colls, names: set<Name>, stamp: nat)
    requires HasBackups(before, a, names, stamp)
    ensures Baseline(a, PreCounts(before))
  {
  }

  /** Where the documents under a live name come from. */
  lemma DocsUnderName(e: Env, a: Colls, n: Name)
    ensures Live(n) in Migrated(e, a) ==>
      exists docs :: Migrated(e, a)[Live(n)] == MigratedDocs(e, n, docs)
  {
  }

  lemma ClsForeseen(e: Env, a: Colls, n: Name)
    ensures CountIn(Migrated(e, a), n, Has(Cls)) == 0
  {
    if Live(n) in Migrated(e, a) {
      DocsUnderName(e, a, n);
      var docs :| Migrated(e, a)[Live(n)] == MigratedDocs(e, n, docs);
      NoClsLeft(e, n, docs);
    }
  }

  lemma PlainCount(e: Env, a: Colls, n: Name, t: Test, found: set<Id>)
    requires NewName(n).None? && OldName(n).None?
    requires Selected(MigratedDocs(e, n, DocsIn(a, Live(n))), Where(t)) == found
    ensures CountIn(Migrated(e, a), n, t) == |found|
  {
    PlainDocsAfterRun(e, a, n);
  }

  lemma SpaceForeseen(e: Env, a: Colls, n: Name)
    requires DropsSpace(n)
    ensures CountIn(Migrated(e, a), n, Has(Space)) == 0
  {
    hide Migrated, MigratedDocs, Selected, CountIn;
    NoSpaceLeft(e, n, DocsIn(a, Live(n)));
    PlainCount(e, a, n, Has(Space), {});
  }

  lemma TeamsForeseen(e: Env, a: Colls, n: Name)
    requires SpaceScoped(n)
    ensures CountIn(Migrated(e, a), n, Lacks(TeamId)) == |WithoutTeam(e, DocsIn(a, Live(n)))|
    ensures Live(n) in Migrated(e, a) <==> Live(n) in a
  {
    TeamCounts(e, n, DocsIn(a, Live(n)));
    PlainCount(e, a, n, Lacks(TeamId), WithoutTeam(e, DocsIn(a, Live(n))));
    PlainAfterRun(e, a, n);
  }

  lemma ItemsForeseen(e: Env, a: Colls)
    ensures CountIn(Migrated(e, a), LibraryItem, Lacks(ItemId)) == |UnlinkedItems(DocsIn(a, Live(LibraryItem)))|
    ensures CountIn(Migrated(e, a), LibraryItem, Lacks(Kind)) == |KindlessItems(DocsIn(a, Live(LibraryItem)))|
  {
    var docs := DocsIn(a, Live(LibraryItem));
    ItemCounts(e, docs);
    PlainCount(e, a, LibraryItem, Lacks(ItemId), UnlinkedItems(docs));
    PlainCount(e, a, LibraryItem, Lacks(Kind), KindlessItems(docs));
  }

  lemma ItemsCleanForeseen(e: Env, a: Colls)
    ensures CountIn(Migrated(e, a), LibraryItem, Has(Obj)) == 0
    ensures CountIn(Migrated(e, a), LibraryItem, Is(Kind, Str(Text.OldSearchSetKind))) == 0
  {
    var docs := DocsIn(a, Live(LibraryItem));
    NoObjLeft(e, docs);
    PlainCount(e, a, LibraryItem, Has(Obj), {});
    NoOldKindLeft(e, docs, Is(Kind, Str(Text.OldSearchSetKind)));
    PlainCount(e, a, LibraryItem, Is(Kind, Str(Text.OldSearchSetKind)), {});
  }

  lemma SourcesForeseen(e: Env, a: Colls)
    ensures CountIn(Migrated(e, a), KnowledgeBaseSources, Lacks(KnowledgeBaseUuid))
         == |UnlinkedSources(DocsIn(a, Live(KnowledgeBaseSources)))|
  {
    var docs := DocsIn(a, Live(KnowledgeBaseSources));
    SourceCounts(e, docs);
    PlainCount(e, a, KnowledgeBaseSources, Lacks(KnowledgeBaseUuid), UnlinkedSources(docs));
  }

  lemma RequestsForeseen(e: Env, a: Colls)
    ensures CountIn(Migrated(e, a), VerificationRequest, Lacks(ItemId))
         == |UnlinkedRequests(e, DocsIn(a, Live(VerificationRequest)))|
  {
    var docs := DocsIn(a, Live(VerificationRequest));
    RequestCounts(e, docs);
    PlainCount(e, a, VerificationRequest, Lacks(ItemId), UnlinkedRequests(e, docs));
  }

  lemma CollectionsForeseen(e: Env, a: Colls)
    ensures CountIn(Migrated(e, a), VerifiedCollection, Lacks(ItemIds))
         == |UnlistedCollections(DocsIn(a, Live(VerifiedCollection)))|
  {
    var docs := DocsIn(a, Live(VerifiedCollection));
    CollectionCounts(e, docs);
    PlainCount(e, a, VerifiedCollection, Lacks(ItemIds), UnlistedCollections(docs));
  }

  // --- Names and document counts ---

  lemma NewNamesHaveOld(n: Name)
    ensures NewName(n).Some? ==> n in OLD_NAMES && OldName(NewName(n).value) == Some(n) && OldName(n).None?
    ensures OldName(n).Some? ==> NewName(n).None?
  {
  }

  /** The documents under each name once phase 2 is done. */
  lemma RenamedAt(a: Colls, n: Name)
    ensures NewName(n).Some? ==> (Live(n) in Renamed(a) <==> BothNames(a, n))
    ensures Live(n) in a && Live(n) in Renamed(a) ==> Renamed(a)[Live(n)] == a[Live(n)]
    ensures NewName(n).Some? && Live(n) in a && !BothNames(a, n) ==>
      Live(NewName(n).value) in Renamed(a) && Renamed(a)[Live(NewName(n).value)] == a[Live(n)]
    ensures Live(n) in a && NewName(n).None? ==> Live(n) in Renamed(a)
  {
    NewNamesHaveOld(n);
    RenamedForAt(a, NamesIn(OLD_NAMES), n);
  }

  lemma RenamedForAt(a: Colls, olds: set<Name>, n: Name)
    requires NewName(n).Some? ==> n in olds && OldName(NewName(n).value) == Some(n) && OldName(n).None?
    ensures NewName(n).Some? ==> (Live(n) in RenamedFor(a, olds) <==> BothNames(a, n))
    ensures Live(n) in a && Live(n) in RenamedFor(a, olds) ==> RenamedFor(a, olds)[Live(n)] == a[Live(n)]
    ensures NewName(n).Some? && Live(n) in a && !BothNames(a, n) ==>
      Live(NewName(n).value) in RenamedFor(a, olds) && RenamedFor(a, olds)[Live(NewName(n).value)] == a[Live(n)]
    ensures Live(n) in a && NewName(n).None? ==> Live(n) in RenamedFor(a, olds)
  {
    if NewName(n).Some? {
      assert Live(NewName(n).value) in NEW_COLLS;
    }
  }

  lemma SizeKept(e: Env, n: Name, docs: Docs)
    ensures !MayShrink(Live(n)) ==> |MigratedDocs(e, n, docs)| == |docs|
    ensures |MigratedDocs(e, n, docs)| <= |docs|
  {
    var after := MigratedDocs(e, n, docs);
    forall i
      ensures i in after ==> i in docs
      ensures !MayShrink(Live(n)) ==> (i in after <==> i in docs)
    {
      MigratedAt(e, n, docs, i);
    }
    FewerKeys(after, docs);
    if !MayShrink(Live(n)) {
      FewerKeys(docs, after);
    }
  }

  lemma FewerKeys(small: Docs, large: Docs)
    requires forall i :: i in small ==> i in large
    ensures |small| <= |large|
  {
    assert small.Keys <= large.Keys;
    FewerElements(small.Keys, large.Keys);
    assert |small| == |small.Keys| && |large| == |large.Keys|;
  }

  lemma {:induction false} FewerElements(small: set<Id>, large: set<Id>)
    requires small <= large
    ensures |small| <= |large|
  {
    if small != {} {
      var i :| i in small;
      FewerElements(small - {i}, large - {i});
    }
  }

  /** The documents a listed collection contributes to the name it is counted under. */
  function SourceDocs(a: Colls, n: Name): Docs
    requires Live(n) in a
  {
    if BothNames(a, n) then a[Live(CurrentName(n))] else a[Live(n)]
  }

  lemma CurrentDocs(a: Colls, n: Name)
    requires Live(n) in a
    ensures Live(CurrentName(n)) in Renamed(a) && Renamed(a)[Live(CurrentName(n))] == SourceDocs(a, n)
  {
  }

  lemma RewrittenAt(e: Env, mid: Colls, n: Name)
    requires Live(n) in mid
    ensures Live(n) in Rewritten(e, mid) && Rewritten(e, mid)[Live(n)] == MigratedDocs(e, n, mid[Live(n)])
  {
  }

  /** The number of documents a recorded collection is found with after the run. */
  lemma RecountedSize(e: Env, a: Colls, n: Name)
    requires Live(n) in a
    ensures Live(CurrentName(n)) in Migrated(e, a)
    ensures var now := |Migrated(e, a)[Live(CurrentName(n))]|;
      now == |SourceDocs(a, n)| || (MayShrink(Live(CurrentName(n))) && now < |SourceDocs(a, n)|)
  {
    var m := CurrentName(n);
    CurrentDocs(a, n);
    RewrittenAt(e, Renamed(a), m);
    SizeKept(e, m, SourceDocs(a, n));
  }

  lemma BackupSize(e: Env, a: Colls, c: Coll)
    requires c in a && c.Backup?
    ensures c in Migrated(e, a) && Migrated(e, a)[c] == a[c]
  {
  }

  lemma BothNamesDoNotShrink(a: Colls, n: Name)
    requires BothNames(a, n)
    ensures !MayShrink(Live(CurrentName(n)))
  {
  }

  lemma CountOffForeseen(e: Env, a: Colls, pre: map<Coll, nat>, b: Coll)
    requires Baseline(a, pre) && b in pre
    ensures CountOff(Migrated(e, a), pre, b) <==>
      b.Live? && BothNames(a, b.name) && |a[b]| != |a[Recounted(b)]|
    ensures b.Live? && BothNames(a, b.name) ==>
      Recounted(b) in Migrated(e, a) && |Migrated(e, a)[Recounted(b)]| == |a[Recounted(b)]|
  {
    if b.Live? {
      RecountedSize(e, a, b.name);
      if BothNames(a, b.name) {
        BothNamesDoNotShrink(a, b.name);
      }
    } else {
      BackupSize(e, a, b);
    }
  }

  lemma CountFound(e: Env, a: Colls, pre: map<Coll, nat>, x: Issue, final: Colls)
    requires Baseline(a, pre) && x.CountChanged? && final == Migrated(e, a) && IsIssue(final, pre, x)
    ensures Foreseen(e, a, x)
  {
    var b :| b in pre && Recounted(b) == x.coll && x.before == pre[b] && CountOff(final, pre, b);
    CountOffForeseen(e, a, pre, b);
    assert BothNames(a, b.name) && x.coll == Live(NewName(b.name).value);
  }

  lemma CountAnnounced(e: Env, a: Colls, pre: map<Coll, nat>, x: Issue, o: Name, c: Coll)
    requires Baseline(a, pre) && x.CountChanged? && BothNames(a, o) && c == Live(o)
    requires x.coll == Recounted(c) && x.before == |a[c]| && x.now == |a[x.coll]| && x.before != x.now
    ensures IsIssue(Migrated(e, a), pre, x)
  {
    assert c in pre;
    CountOffForeseen(e, a, pre, c);
  }

  lemma SomeCountAnnounced(e: Env, a: Colls, pre: map<Coll, nat>, x: Issue)
    requires Baseline(a, pre) && x.CountChanged? && Foreseen(e, a, x)
    ensures IsIssue(Migrated(e, a), pre, x)
  {
    var o :| BothNames(a, o) && x.coll == Live(NewName(o).value) && x.before == |a[Live(o)]|
          && x.now == |a[x.coll]| && x.before != x.now;
    CountAnnounced(e, a, pre, x, o, Live(o));
  }

  lemma CountsForeseen(e: Env, a: Colls, pre: map<Coll, nat>, x: Issue, final: Colls)
    requires Baseline(a, pre) && x.CountChanged? && final == Migrated(e, a)
    ensures IsIssue(final, pre, x) <==> Foreseen(e, a, x)
  {
    if IsIssue(final, pre, x) {
      CountFound(e, a, pre, x, final);
    } else if Foreseen(e, a, x) {
      SomeCountAnnounced(e, a, pre, x);
    }
  }

  lemma SpaceVerdict(e: Env, a: Colls, pre: map<Coll, nat>, x: Issue)
    requires x.StillCls? || x.StillSpace?
    ensures !IsIssue(Migrated(e, a), pre, x)
  {
    if x.StillCls? {
      ClsForeseen(e, a, x.name);
    } else if CheckedForSpace(x.name) {
      SpaceForeseen(e, a, x.name);
    }
  }

  lemma TeamVerdict(e: Env, a: Colls, pre: map<Coll, nat>, n: Name, k: nat)
    ensures IsIssue(Migrated(e, a), pre, MissingTeam(n, k)) <==> Foreseen(e, a, MissingTeam(n, k))
  {
    if SpaceScoped(n) {
      TeamsForeseen(e, a, n);
    }
  }

  /** The references' counts after the run are those told beforehand. */
  ghost predicate ReferenceCounts(e: Env, a: Colls, final: Colls) {
    && CountIn(final, LibraryItem, Has(Obj)) == 0
    && CountIn(final, LibraryItem, Lacks(ItemId)) == |UnlinkedItems(DocsIn(a, Live(LibraryItem)))|
    && CountIn(final, LibraryItem, Lacks(Kind)) == |KindlessItems(DocsIn(a, Live(LibraryItem)))|
    && CountIn(final, LibraryItem, Is(Kind, Str(Text.OldSearchSetKind))) == 0
    && CountIn(final, KnowledgeBaseSources, Lacks(KnowledgeBaseUuid))
         == |UnlinkedSources(DocsIn(a, Live(KnowledgeBaseSources)))|
    && CountIn(final, VerificationRequest, Lacks(ItemId))
         == |UnlinkedRequests(e, DocsIn(a, Live(VerificationRequest)))|
    && CountIn(final, VerifiedCollection, Lacks(ItemIds))
         == |UnlistedCollections(DocsIn(a, Live(VerifiedCollection)))|
  }

  lemma ReferencesForeseen(e: Env, a: Colls)
    ensures ReferenceCounts(e, a, Migrated(e, a))
  {
    ItemsForeseen(e, a);
    ItemsCleanForeseen(e, a);
    SourcesForeseen(e, a);
    RequestsForeseen(e, a);
    CollectionsForeseen(e, a);
  }

  predicate AboutReferences(x: Issue) {
    x.ItemStillObj? || x.ItemMissingId? || x.ItemMissingKind? || x.ItemOldKind?
    || x.SourceMissingUuid? || x.RequestMissingItem? || x.CollectionMissingItems?
  }

  lemma ReferenceVerdict(e: Env, a: Colls, pre: map<Coll, nat>, x: Issue, final: Colls)
    requires AboutReferences(x) && ReferenceCounts(e, a, final)
    ensures IsIssue(final, pre, x) <==> Foreseen(e, a, x)
  {
  }

  lemma NameVerdict(e: Env, a: Colls, pre: map<Coll, nat>, n: Name, final: Colls)
    requires NewName(n).Some? ==> (Live(n) in final <==> BothNames(a, n))
    ensures IsIssue(final, pre, OldNameLeft(n)) <==> Foreseen(e, a, OldNameLeft(n))
  {
  }

  /** After a complete live run phase 5 reports exactly what could be told before it. */
  lemma VerdictForeseen(e: Env, a: Colls, pre: map<Coll, nat>, x: Issue)
    requires Baseline(a, pre)
    ensures IsIssue(Migrated(e, a), pre, x) <==> Foreseen(e, a, x)
  {
    if x.StillCls? || x.StillSpace? {
      SpaceVerdict(e, a, pre, x);
    } else if x.MissingTeam? {
      TeamVerdict(e, a, pre, x.name, x.count);
    } else if x.OldNameLeft? {
      RenamedAt(a, x.name);
      NameVerdict(e, a, pre, x.name, Migrated(e, a));
    } else if x.CountChanged? {
      CountsForeseen(e, a, pre, x, Migrated(e, a));
    } else {
      ReferencesForeseen(e, a);
      ReferenceVerdict(e, a, pre, x, Migrated(e, a));
    }
  }

  /** Every team, reference and name can be resolved. */
  ghost predicate Resolvable(e: Env, a: Colls) {
    && (forall o :: !BothNames(a, o))
    && (forall n :: SpaceScoped(n) ==> WithoutTeam(e, DocsIn(a, Live(n))) == {})
    && UnlinkedItems(DocsIn(a, Live(LibraryItem))) == {}
    && KindlessItems(DocsIn(a, Live(LibraryItem))) == {}
    && UnlinkedSources(DocsIn(a, Live(KnowledgeBaseSources))) == {}
    && UnlinkedRequests(e, DocsIn(a, Live(VerificationRequest))) == {}
    && UnlistedCollections(DocsIn(a, Live(VerifiedCollection))) == {}
  }

  lemma ResolvableIffNothingForeseen(e: Env, a: Colls)
    ensures Resolvable(e, a) <==> forall x :: !Foreseen(e, a, x)
  {
    if forall x :: !Foreseen(e, a, x) {
      forall o
        ensures !BothNames(a, o)
      {
        assert !Foreseen(e, a, OldNameLeft(o));
      }
      forall n | SpaceScoped(n)
        ensures WithoutTeam(e, DocsIn(a, Live(n))) == {}
      {
        assert !Foreseen(e, a, MissingTeam(n, |WithoutTeam(e, DocsIn(a, Live(n)))|));
      }
      assert !Foreseen(e, a, ItemMissingId(|UnlinkedItems(DocsIn(a, Live(LibraryItem)))|));
      assert !Foreseen(e, a, ItemMissingKind(|KindlessItems(DocsIn(a, Live(LibraryItem)))|));
      assert !Foreseen(e, a, SourceMissingUuid(|UnlinkedSources(DocsIn(a, Live(KnowledgeBaseSources)))|));
      assert !Foreseen(e, a, RequestMissingItem(|UnlinkedRequests(e, DocsIn(a, Live(VerificationRequest)))|));
      assert !Foreseen(e, a, CollectionMissingItems(|UnlistedCollections(DocsIn(a, Live(VerifiedCollection)))|));
    }
  }

  /** The verdict is clean if and only if everything could be resolved. */
  lemma CleanVerdict(e: Env, a: Colls, pre: map<Coll, nat>)
    requires Baseline(a, pre)
    ensures (forall x :: !IsIssue(Migrated(e, a), pre, x)) <==> Resolvable(e, a)
  {
    forall x {
      VerdictForeseen(e, a, pre, x);
    }
    ResolvableIffNothingForeseen(e, a);
  }
}
