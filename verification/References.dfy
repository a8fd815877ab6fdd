/**
 Phases 4c and 4d of `migrate_flask_to_beanie.py`: reference conversions, field
 removals and DBRef cleanup.
 */
module ReferencePhases {
  import opened Wrappers
  import opened Ids
  import opened Mongo
  import opened Conversion
  import opened Migration

  /** Documents of which those in `done` have been converted. */
  function Partly(convert: (Id, Doc) -> Doc, done: set<Id>, docs: Docs): Docs {
    map i | i in docs :: if i in done then convert(i, docs[i]) else docs[i]
  }

  function Converted(convert: (Id, Doc) -> Doc, docs: Docs): Docs {
    map i | i in docs :: convert(i, docs[i])
  }

  lemma PartlyStep(convert: (Id, Doc) -> Doc, done: set<Id>, i: Id, docs: Docs)
    requires i in docs && i !in done
    ensures Partly(convert, done, docs)[i] == docs[i]
    ensures Partly(convert, done + {i}, docs) == Partly(convert, done, docs)[i := convert(i, docs[i])]
  {
  }

  lemma PartlyDone(convert: (Id, Doc) -> Doc, done: set<Id>, docs: Docs)
    requires forall i :: i in docs && i !in done ==> convert(i, docs[i]) == docs[i]
    ensures Partly(convert, done, docs) == Converted(convert, docs)
  {
  }

  lemma SameAt(db: Colls, c: Coll, i: Id)
    requires c in db && i in db[c]
    ensures db[c := db[c][i := db[c][i]]] == db
  {
    assert db[c][i := db[c][i]] == db[c];
  }

  /** `update_one` on a document just found, or nothing when there is nothing to set. */
  method ConvertOne(db: Database, n: Name, i: Id, sets: Option<Doc>, dryRun: bool)
    requires db.Valid() && Live(n) in db.colls && i in db.colls[Live(n)]
    modifies db
    ensures Grown(db)
    ensures var docs := old(db.colls)[Live(n)];
      db.colls ==
      if dryRun then old(db.colls)
      else old(db.colls)[Live(n) := docs[i := if sets.Some? then docs[i] + sets.value else docs[i]]]
  {
    if sets.None? {
      SameAt(db.colls, Live(n), i);
    } else if !dryRun {
      ghost var d := db.colls[Live(n)][i];
      assert d + sets.value - {} == d + sets.value;
      db.Accept(UpdateOne(Live(n), i, Change(sets.value, {})));
    }
  }

  function NormalizedDocs(f: Field, docs: Docs): Docs {
    map i | i in docs :: Normalized(f, docs[i])
  }

  lemma NormalizeDoc(f: Field, d: Doc)
    ensures UpdateDoc(d, Where(Is(f, Str(Text.OldSearchSetKind))), Change(map[f := Str(Text.SearchSetKind)], {})) == Normalized(f, d)
  {
  }

  lemma NormalizeAll(f: Field, docs: Docs)
    ensures UpdateDocs(docs, Where(Is(f, Str(Text.OldSearchSetKind))), Change(map[f := Str(Text.SearchSetKind)], {}))
         == NormalizedDocs(f, docs)
  {
    forall i | i in docs {
      NormalizeDoc(f, docs[i]);
    }
  }

  method NormalizeKind(db: Database, n: Name, f: Field, dryRun: bool)
    requires db.Valid()
    modifies db
    ensures Grown(db)
    ensures db.colls ==
      if dryRun then old(db.colls) else Put(old(db.colls), Live(n), NormalizedDocs(f, DocsIn(old(db.colls), Live(n))))
  {
    NormalizeAll(f, DocsIn(db.colls, Live(n)));
    UpdateMatching(db, Live(n), Where(Is(f, Str(Text.OldSearchSetKind))), Change(map[f := Str(Text.SearchSetKind)], {}), dryRun);
  }

  method DeleteMatching(db: Database, n: Name, cond: Cond, dryRun: bool)
    requires db.Valid()
    modifies db
    ensures Grown(db)
    ensures db.colls ==
      if dryRun then old(db.colls) else Put(old(db.colls), Live(n), DeleteDocs(DocsIn(old(db.colls), Live(n)), cond))
  {
    var count := db.Count(Live(n), cond);
    if count == 0 {
      ghost var docs := DocsIn(db.colls, Live(n));
      assert DeleteDocs(docs, cond) == docs by {
        assert forall i :: i in docs && Matches(docs[i], cond) ==> i in Selected(docs, cond);
      }
    } else if !dryRun {
      db.Accept(DeleteMany(Live(n), cond));
    }
  }

  // --- Library items ---

  function ItemConverter(): (Id, Doc) -> Doc {
    (i, d) => ConvertItem(d)
  }

  /** The loop over the entries whose `obj` has not been converted yet. */
  method ConvertItems(db: Database, dryRun: bool)
    requires db.Valid() && Live(LibraryItem) in db.colls
    modifies db
    ensures Grown(db)
    ensures db.colls ==
      if dryRun then old(db.colls)
      else old(db.colls)[Live(LibraryItem) := Converted(ItemConverter(), old(db.colls)[Live(LibraryItem)])]
  {
    var c := Live(LibraryItem);
    var docs := db.colls[c];
    var left := Selected(docs, Both(Has(Obj), Lacks(ItemId)));
    ghost var done: set<Id> := {};
    assert Partly(ItemConverter(), done, docs) == docs;
    while left != {}
      invariant db.Valid() && db.origin == old(db.origin) && old(db.log) <= db.log
      invariant left <= docs.Keys && left !! done
      invariant forall i :: i in left ==> Obj in docs[i] && ItemId !in docs[i]
      invariant forall i :: i in docs && i !in left && i !in done ==> ConvertItem(docs[i]) == docs[i]
      invariant db.colls == if dryRun then old(db.colls) else old(db.colls)[c := Partly(ItemConverter(), done, docs)]
    {
      var i :| i in left;
      PartlyStep(ItemConverter(), done, i, docs);
      left, done := left - {i}, done + {i};
      var sets := ItemChange(docs[i]);
      ConvertOne(db, LibraryItem, i, sets, dryRun);
    }
    PartlyDone(ItemConverter(), done, docs);
  }

  /** The loop body: skip an empty or unreadable `obj`, or one of unknown kind. */
  method ItemChange(d: Doc) returns (sets: Option<Doc>)
    requires Obj in d && ItemId !in d
    ensures ConvertItem(d) == if sets.Some? then d + sets.value else d
  {
    var obj := d[Obj];
    if !Truthy(obj) {
      return None;
    }
    var itemId := ExtractOid(obj);
    if itemId.None? {
      return None;
    }
    var kind := ItemKindOf(d);
    if kind.None? {
      return None;
    }
    return Some(map[ItemId := Oid(itemId.value), Kind := Str(kind.value)]);
  }

  function LinkedItems(docs: Docs): Docs {
    NormalizedDocs(Kind, Converted(ItemConverter(), DeleteDocs(docs, UNSUPPORTED_ITEM)))
  }

  /** Drop the unsupported entries, then make `item_id` and `kind` of each `obj`. */
  method LinkItems(db: Database, dryRun: bool)
    requires db.Valid() && Live(LibraryItem) in db.colls
    modifies db
    ensures Grown(db)
    ensures db.colls ==
      if dryRun then old(db.colls)
      else old(db.colls)[Live(LibraryItem) := LinkedItems(old(db.colls)[Live(LibraryItem)])]
  {
    DeleteMatching(db, LibraryItem, UNSUPPORTED_ITEM, dryRun);
    ConvertItems(db, dryRun);
    NormalizeKind(db, LibraryItem, Kind, dryRun);
  }

  function TidiedItems(docs: Docs): Docs {
    Stripped({Obj, AddedAt}, Copied(AddedAt, CreatedAt, Filled(LIBRARY_ITEM_DEFAULTS, docs)))
  }

  method TidyItems(db: Database, dryRun: bool)
    requires db.Valid() && Live(LibraryItem) in db.colls
    modifies db
    ensures Grown(db)
    ensures db.colls ==
      if dryRun then old(db.colls)
      else old(db.colls)[Live(LibraryItem) := TidiedItems(old(db.colls)[Live(LibraryItem)])]
  {
    SetDefaults(db, LibraryItem, LIBRARY_ITEM_DEFAULTS, dryRun);
    CopyMissing(db, LibraryItem, AddedAt, CreatedAt, dryRun);
    UnsetFields(db, LibraryItem, {Obj, AddedAt}, dryRun);
  }

  lemma LibraryItemSteps(docs: Docs)
    ensures TidiedItems(LinkedItems(docs)) == LibraryItemDocs(docs)
  {
  }

  lemma PutTwice(db: Colls, c: Coll, first: Docs, second: Docs)
    ensures db[c := first][c := second] == db[c := second]
  {
  }

  method MigrateLibraryItemsInPlace(db: Database, dryRun: bool)
    requires db.Valid() && Live(LibraryItem) in db.colls
    modifies db
    ensures Grown(db)
    ensures db.colls ==
      if dryRun then old(db.colls) else old(db.colls)[Live(LibraryItem) := LibraryItemDocs(old(db.colls)[Live(LibraryItem)])]
  {
    ghost var docs := db.colls[Live(LibraryItem)];
    LibraryItemSteps(docs);
    PutTwice(db.colls, Live(LibraryItem), LinkedItems(docs), LibraryItemDocs(docs));
    LinkItems(db, dryRun);
    TidyItems(db, dryRun);
  }

  method MigrateLibraryItems(db: Database, ghost e: Env, dryRun: bool)
    requires db.Valid()
    modifies db
    ensures Grown(db)
    ensures db.colls == Ran(dryRun, e, References, {LibraryItem}, old(db.colls))
  {
    RefsInPlace(e, LibraryItem, db.colls);
    if Live(LibraryItem) in db.colls {
      MigrateLibraryItemsInPlace(db, dryRun);
    }
  }

  // --- Knowledge base sources ---

  function SourceConverter(e: Env): (Id, Doc) -> Doc {
    (i, d) => ConvertSource(e, d)
  }

  /** `knowledge_base` -> `knowledge_base_uuid`, document by document. */
  method ConvertSources(db: Database, e: Env, dryRun: bool)
    requires db.Valid() && Live(KnowledgeBaseSources) in db.colls
    modifies db
    ensures Grown(db)
    ensures db.colls ==
      if dryRun then old(db.colls)
      else old(db.colls)[Live(KnowledgeBaseSources) :=
             Converted(SourceConverter(e), old(db.colls)[Live(KnowledgeBaseSources)])]
  {
    var c := Live(KnowledgeBaseSources);
    var docs := db.colls[c];
    var left := Selected(docs, Both(Has(Field.KnowledgeBase), Lacks(KnowledgeBaseUuid)));
    ghost var done: set<Id> := {};
    assert Partly(SourceConverter(e), done, docs) == docs;
    while left != {}
      invariant db.Valid() && db.origin == old(db.origin) && old(db.log) <= db.log
      invariant left <= docs.Keys && left !! done
      invariant forall i :: i in left ==> Field.KnowledgeBase in docs[i] && KnowledgeBaseUuid !in docs[i]
      invariant forall i :: i in docs && i !in left && i !in done ==> ConvertSource(e, docs[i]) == docs[i]
      invariant db.colls == if dryRun then old(db.colls) else old(db.colls)[c := Partly(SourceConverter(e), done, docs)]
    {
      var i :| i in left;
      PartlyStep(SourceConverter(e), done, i, docs);
      left, done := left - {i}, done + {i};
      var sets := SourceChange(e, docs[i]);
      ConvertOne(db, KnowledgeBaseSources, i, sets, dryRun);
    }
    PartlyDone(SourceConverter(e), done, docs);
  }

  method SourceChange(e: Env, d: Doc) returns (sets: Option<Doc>)
    requires Field.KnowledgeBase in d && KnowledgeBaseUuid !in d
    ensures ConvertSource(e, d) == if sets.Some? then d + sets.value else d
  {
    var kb := ExtractOid(d[Field.KnowledgeBase]);
    if kb.None? {
      return None;
    }
    var uuid := KbUuidOf(e, kb.value);
    assert d + map[KnowledgeBaseUuid := uuid] == d[KnowledgeBaseUuid := uuid];
    return Some(map[KnowledgeBaseUuid := uuid]);
  }

  lemma SourceSteps(e: Env, docs: Docs)
    ensures Stripped({Field.KnowledgeBase, Document},
              Filled(KB_SOURCE_DEFAULTS, Converted(SourceConverter(e), docs)))
         == KbSourceDocs(e, docs)
  {
  }

  method MigrateKbSourcesInPlace(db: Database, e: Env, dryRun: bool)
    requires db.Valid() && Live(KnowledgeBaseSources) in db.colls
    modifies db
    ensures Grown(db)
    ensures db.colls ==
      if dryRun then old(db.colls) else old(db.colls)[Live(KnowledgeBaseSources) := KbSourceDocs(e, old(db.colls)[Live(KnowledgeBaseSources)])]
  {
    SourceSteps(e, db.colls[Live(KnowledgeBaseSources)]);
    ConvertSources(db, e, dryRun);
    SetDefaults(db, KnowledgeBaseSources, KB_SOURCE_DEFAULTS, dryRun);
    UnsetFields(db, KnowledgeBaseSources, {Field.KnowledgeBase, Document}, dryRun);
  }

  method MigrateKbSources(db: Database, e: Env, dryRun: bool)
    requires db.Valid()
    modifies db
    ensures Grown(db)
    ensures db.colls == Ran(dryRun, e, References, {KnowledgeBaseSources}, old(db.colls))
  {
    RefsInPlace(e, KnowledgeBaseSources, db.colls);
    if Live(KnowledgeBaseSources) in db.colls {
      MigrateKbSourcesInPlace(db, e, dryRun);
    }
  }

  // --- Verification requests ---

  /** The uuids a search set lookup can find. */
  function Uuids(docs: Docs): map<Id, Value> {
    map i | i in docs && Uuid in docs[i] :: docs[i][Uuid]
  }

  lemma LookupByUuid(docs: Docs, identifier: Value)
    ensures FindOne(docs, Where(Is(Uuid, identifier))) == SearchSetByUuid(Uuids(docs), identifier)
  {
  }

  function RequestConverter(e: Env): (Id, Doc) -> Doc {
    (i, d) => ConvertRequest(e, i, d)
  }

  method ConvertRequests(db: Database, e: Env, dryRun: bool)
    requires db.Valid() && Live(VerificationRequest) in db.colls
    requires e.searchSetUuid == Uuids(DocsIn(db.colls, Live(SearchSet)))
    modifies db
    ensures Grown(db)
    ensures db.colls ==
      if dryRun then old(db.colls)
      else old(db.colls)[Live(VerificationRequest) :=
             Converted(RequestConverter(e), old(db.colls)[Live(VerificationRequest)])]
  {
    var c := Live(VerificationRequest);
    var searchSets := DocsIn(db.colls, Live(SearchSet));
    var docs := db.colls[c];
    var left := Selected(docs, Both(Has(ItemIdentifier), Lacks(ItemId)));
    ghost var done: set<Id> := {};
    assert Partly(RequestConverter(e), done, docs) == docs;
    while left != {}
      invariant db.Valid() && db.origin == old(db.origin) && old(db.log) <= db.log
      invariant left <= docs.Keys && left !! done
      invariant forall i :: i in left ==> ItemIdentifier in docs[i] && ItemId !in docs[i]
      invariant forall i :: i in docs && i !in left && i !in done ==> ConvertRequest(e, i, docs[i]) == docs[i]
      invariant db.colls == if dryRun then old(db.colls) else old(db.colls)[c := Partly(RequestConverter(e), done, docs)]
    {
      var i :| i in left;
      PartlyStep(RequestConverter(e), done, i, docs);
      left, done := left - {i}, done + {i};
      var sets := RequestChange(e, searchSets, i, docs[i]);
      ConvertOne(db, VerificationRequest, i, sets, dryRun);
    }
    PartlyDone(RequestConverter(e), done, docs);
  }

  /** The identifier is an ObjectId, or else the uuid of a search set. */
  method RequestChange(e: Env, searchSets: Docs, i: Id, d: Doc) returns (sets: Option<Doc>)
    requires ItemIdentifier in d && ItemId !in d
    requires e.searchSetUuid == Uuids(searchSets)
    ensures ConvertRequest(e, i, d) == if sets.Some? then d + sets.value else d
  {
    var identifier := d[ItemIdentifier];
    var item := e.parseOid(i, identifier);
    if item.None? && ItemKind in d && d[ItemKind] in {Str(Text.OldSearchSetKind), Str(Text.SearchSetKind)} {
      LookupByUuid(searchSets, identifier);
      item := FindOne(searchSets, Where(Is(Uuid, identifier)));
    }
    if item.None? {
      return None;
    }
    assert d + map[ItemId := Oid(item.value)] == d[ItemId := Oid(item.value)];
    return Some(map[ItemId := Oid(item.value)]);
  }

  const REQUEST_OBSOLETE: set<Field> := {ItemIdentifier, LibraryItemRef, ItemTitle}

  function LinkedRequests(e: Env, docs: Docs): Docs {
    NormalizedDocs(ItemKind, Converted(RequestConverter(e), DeleteDocs(docs, UNSUPPORTED_REQUEST)))
  }

  method LinkRequests(db: Database, e: Env, dryRun: bool)
    requires db.Valid() && Live(VerificationRequest) in db.colls
    requires e.searchSetUuid == Uuids(DocsIn(db.colls, Live(SearchSet)))
    modifies db
    ensures Grown(db)
    ensures db.colls ==
      if dryRun then old(db.colls)
      else old(db.colls)[Live(VerificationRequest) := LinkedRequests(e, old(db.colls)[Live(VerificationRequest)])]
  {
    DeleteMatching(db, VerificationRequest, UNSUPPORTED_REQUEST, dryRun);
    assert DocsIn(db.colls, Live(SearchSet)) == DocsIn(old(db.colls), Live(SearchSet));
    ConvertRequests(db, e, dryRun);
    NormalizeKind(db, VerificationRequest, ItemKind, dryRun);
  }

  function TidiedRequests(docs: Docs): Docs {
    Stripped(REQUEST_OBSOLETE, Filled(REQUEST_DEFAULTS, docs))
  }

  method TidyRequests(db: Database, dryRun: bool)
    requires db.Valid() && Live(VerificationRequest) in db.colls
    modifies db
    ensures Grown(db)
    ensures db.colls ==
      if dryRun then old(db.colls)
      else old(db.colls)[Live(VerificationRequest) := TidiedRequests(old(db.colls)[Live(VerificationRequest)])]
  {
    SetDefaults(db, VerificationRequest, REQUEST_DEFAULTS, dryRun);
    UnsetFields(db, VerificationRequest, REQUEST_OBSOLETE, dryRun);
  }

  lemma RequestSteps(e: Env, docs: Docs)
    ensures TidiedRequests(LinkedRequests(e, docs)) == RequestDocs(e, docs)
  {
  }

  method MigrateVerificationRequestsInPlace(db: Database, e: Env, dryRun: bool)
    requires db.Valid() && Live(VerificationRequest) in db.colls
    requires e.searchSetUuid == Uuids(DocsIn(db.colls, Live(SearchSet)))
    modifies db
    ensures Grown(db)
    ensures db.colls ==
      if dryRun then old(db.colls)
      else old(db.colls)[Live(VerificationRequest) := RequestDocs(e, old(db.colls)[Live(VerificationRequest)])]
  {
    ghost var docs := db.colls[Live(VerificationRequest)];
    RequestSteps(e, docs);
    PutTwice(db.colls, Live(VerificationRequest), LinkedRequests(e, docs), RequestDocs(e, docs));
    LinkRequests(db, e, dryRun);
    TidyRequests(db, dryRun);
  }

  method MigrateVerificationRequests(db: Database, e: Env, dryRun: bool)
    requires db.Valid()
    requires e.searchSetUuid == Uuids(DocsIn(db.colls, Live(SearchSet)))
    modifies db
    ensures Grown(db)
    ensures db.colls == Ran(dryRun, e, References, {VerificationRequest}, old(db.colls))
  {
    RefsInPlace(e, VerificationRequest, db.colls);
    if Live(VerificationRequest) in db.colls {
      MigrateVerificationRequestsInPlace(db, e, dryRun);
    }
  }

  // --- Verified collections and metadata ---

  function ListedItems(docs: Docs): map<Id, Doc> {
    map i | i in docs && Items in docs[i] && ItemIds !in docs[i] ::
      map[ItemIds := List(ShowItems(ItemsOf(docs[i][Items])))]
  }

  function ListedCollections(docs: Docs): Docs {
    map i | i in docs :: ConvertCollection(docs[i])
  }

  lemma ListItems(docs: Docs)
    ensures BulkSetDocs(docs, ListedItems(docs)) == ListedCollections(docs)
  {
    hide ShowItems, ItemsOf;
    forall i | i in docs
      ensures BulkSetDoc(docs[i], ListedItems(docs), i) == ConvertCollection(docs[i])
    {
      if i in ListedItems(docs) {
        var ids := List(ShowItems(ItemsOf(docs[i][Items])));
        assert docs[i] + map[ItemIds := ids] == docs[i][ItemIds := ids];
      }
    }
  }

  method ListItemIds(db: Database, dryRun: bool)
    requires db.Valid() && Live(VerifiedCollection) in db.colls
    modifies db
    ensures Grown(db)
    ensures db.colls ==
      if dryRun then old(db.colls)
      else old(db.colls)[Live(VerifiedCollection) := ListedCollections(old(db.colls)[Live(VerifiedCollection)])]
  {
    ListItems(db.colls[Live(VerifiedCollection)]);
    BulkWrite(db, Live(VerifiedCollection), ListedItems(db.colls[Live(VerifiedCollection)]), dryRun);
  }

  lemma CollectionSteps(docs: Docs)
    ensures Stripped({Items}, Filled(COLLECTION_DEFAULTS, ListedCollections(docs))) == CollectionDocs(docs)
  {
  }

  method MigrateVerifiedCollectionsInPlace(db: Database, dryRun: bool)
    requires db.Valid() && Live(VerifiedCollection) in db.colls
    modifies db
    ensures Grown(db)
    ensures db.colls ==
      if dryRun then old(db.colls)
      else old(db.colls)[Live(VerifiedCollection) := CollectionDocs(old(db.colls)[Live(VerifiedCollection)])]
  {
    CollectionSteps(db.colls[Live(VerifiedCollection)]);
    ListItemIds(db, dryRun);
    SetDefaults(db, VerifiedCollection, COLLECTION_DEFAULTS, dryRun);
    UnsetFields(db, VerifiedCollection, {Items}, dryRun);
  }

  method MigrateVerifiedCollections(db: Database, ghost e: Env, dryRun: bool)
    requires db.Valid()
    modifies db
    ensures Grown(db)
    ensures db.colls == Ran(dryRun, e, References, {VerifiedCollection}, old(db.colls))
  {
    RefsInPlace(e, VerifiedCollection, db.colls);
    if Live(VerifiedCollection) in db.colls {
      MigrateVerifiedCollectionsInPlace(db, dryRun);
    }
  }

  lemma ItemMetadataSteps(docs: Docs)
    ensures Stripped({ItemIdentifier}, NormalizedDocs(ItemKind, Copied(ItemIdentifier, ItemId, docs)))
         == ItemMetadataDocs(docs)
  {
  }

  method MigrateVerifiedItemMetadataInPlace(db: Database, dryRun: bool)
    requires db.Valid() && Live(VerifiedItemMetadata) in db.colls
    modifies db
    ensures Grown(db)
    ensures db.colls ==
      if dryRun then old(db.colls) else old(db.colls)[Live(VerifiedItemMetadata) := ItemMetadataDocs(old(db.colls)[Live(VerifiedItemMetadata)])]
  {
    ItemMetadataSteps(db.colls[Live(VerifiedItemMetadata)]);
    CopyMissing(db, VerifiedItemMetadata, ItemIdentifier, ItemId, dryRun);
    NormalizeKind(db, VerifiedItemMetadata, ItemKind, dryRun);
    UnsetFields(db, VerifiedItemMetadata, {ItemIdentifier}, dryRun);
  }

  method MigrateVerifiedItemMetadata(db: Database, ghost e: Env, dryRun: bool)
    requires db.Valid()
    modifies db
    ensures Grown(db)
    ensures db.colls == Ran(dryRun, e, References, {VerifiedItemMetadata}, old(db.colls))
  {
    RefsInPlace(e, VerifiedItemMetadata, db.colls);
    if Live(VerifiedItemMetadata) in db.colls {
      MigrateVerifiedItemMetadataInPlace(db, dryRun);
    }
  }

  // --- The whole of phase 4c ---

  const REFERENCE_NAMES: set<Name> :=
    {LibraryItem, KnowledgeBaseSources, VerificationRequest, VerifiedCollection, VerifiedItemMetadata}

  lemma ReferenceSteps(dryRun: bool, e: Env, db: Colls)
    ensures
      var items := Ran(dryRun, e, References, {LibraryItem}, db);
      var sources := Ran(dryRun, e, References, {KnowledgeBaseSources}, items);
      var requests := Ran(dryRun, e, References, {VerificationRequest}, sources);
      var collections := Ran(dryRun, e, References, {VerifiedCollection}, requests);
      Ran(dryRun, e, References, {VerifiedItemMetadata}, collections)
        == if dryRun then db else Each(e, References, db)
  {
    RanThen(dryRun, e, References, {LibraryItem}, {KnowledgeBaseSources}, db);
    RanThen(dryRun, e, References, {LibraryItem} + {KnowledgeBaseSources}, {VerificationRequest}, db);
    var three := {LibraryItem} + {KnowledgeBaseSources} + {VerificationRequest};
    RanThen(dryRun, e, References, three, {VerifiedCollection}, db);
    RanThen(dryRun, e, References, three + {VerifiedCollection}, {VerifiedItemMetadata}, db);
    assert three + {VerifiedCollection} + {VerifiedItemMetadata} == REFERENCE_NAMES;
    OnlyIsEach(e, References, REFERENCE_NAMES, db);
  }

  lemma SearchSetsKept(dryRun: bool, e: Env, n: Name, db: Colls)
    requires !n.SearchSet?
    ensures DocsIn(Ran(dryRun, e, References, {n}, db), Live(SearchSet)) == DocsIn(db, Live(SearchSet))
  {
  }

  method Phase4cReferences(db: Database, e: Env, dryRun: bool)
    requires db.Valid()
    requires e.searchSetUuid == Uuids(DocsIn(db.colls, Live(SearchSet)))
    modifies db
    ensures Grown(db)
    ensures db.colls == if dryRun then old(db.colls) else Each(e, References, old(db.colls))
  {
    ReferenceSteps(dryRun, e, db.colls);
    SearchSetsKept(dryRun, e, LibraryItem, db.colls);
    MigrateLibraryItems(db, e, dryRun);
    SearchSetsKept(dryRun, e, KnowledgeBaseSources, db.colls);
    MigrateKbSources(db, e, dryRun);
    MigrateVerificationRequests(db, e, dryRun);
    MigrateVerifiedCollections(db, e, dryRun);
    MigrateVerifiedItemMetadata(db, e, dryRun);
  }

  // ---------------------------------------------------------------------------
  // Phase 4d: field removals and DBRef cleanup
  // ---------------------------------------------------------------------------

  function DereferencedDocs(fs: set<Field>, docs: Docs): Docs {
    map i | i in docs :: Dereferenced(fs, docs[i])
  }

  /** The updates that turn the DBRefs in one field into plain ids. */
  function Dereferences(f: Field, docs: Docs): map<Id, Doc> {
    map i | i in docs && f in docs[i] && HasDollarRef(docs[i][f]) && ExtractOid(docs[i][f]).Some? ::
      map[f := Oid(ExtractOid(docs[i][f]).value)]
  }

  lemma DereferenceDoc(f: Field, d: Doc, sets: map<Id, Doc>, i: Id)
    requires i in sets <==> f in d && Convertible(d[f])
    requires i in sets ==> sets[i] == map[f := Oid(ExtractOid(d[f]).value)]
    ensures BulkSetDoc(d, sets, i) == Dereferenced({f}, d)
  {
  }

  lemma DereferenceMatching(f: Field, docs: Docs)
    ensures BulkSetDocs(docs, Dereferences(f, docs)) == DereferencedDocs({f}, docs)
  {
    forall i | i in docs
      ensures BulkSetDoc(docs[i], Dereferences(f, docs), i) == Dereferenced({f}, docs[i])
    {
      DereferenceDoc(f, docs[i], Dereferences(f, docs), i);
    }
  }

  lemma DereferenceMore(done: set<Field>, f: Field, docs: Docs)
    requires f !in done
    ensures DereferencedDocs({f}, DereferencedDocs(done, docs)) == DereferencedDocs(done + {f}, docs)
  {
    forall i | i in docs
      ensures Dereferenced({f}, Dereferenced(done, docs[i])) == Dereferenced(done + {f}, docs[i])
    {
    }
  }

  lemma DereferenceNone(docs: Docs)
    ensures DereferencedDocs({}, docs) == docs
  {
    forall i | i in docs
      ensures Dereferenced({}, docs[i]) == docs[i]
    {
    }
  }

  method DereferenceFields(db: Database, n: Name, fs: set<Field>, dryRun: bool)
    requires db.Valid()
    modifies db
    ensures Grown(db)
    ensures db.colls ==
      if dryRun then old(db.colls) else Put(old(db.colls), Live(n), DereferencedDocs(fs, DocsIn(old(db.colls), Live(n))))
  {
    if Live(n) !in db.colls {
      return;
    }
    ghost var docs := db.colls[Live(n)];
    var left := fs;
    ghost var done: set<Field> := {};
    DereferenceNone(docs);
    while left != {}
      invariant db.Valid() && db.origin == old(db.origin) && old(db.log) <= db.log
      invariant left !! done && left + done == fs
      invariant db.colls == if dryRun then old(db.colls) else old(db.colls)[Live(n) := DereferencedDocs(done, docs)]
    {
      var f :| f in left;
      DereferenceMatching(f, db.colls[Live(n)]);
      DereferenceMore(done, f, docs);
      BulkWrite(db, Live(n), Dereferences(f, db.colls[Live(n)]), dryRun);
      left, done := left - {f}, done + {f};
    }
    assert done == fs;
  }

  const DBREF_COLLECTIONS: seq<Name> :=
    [User, TeamMembership, TeamInvite, WorkflowResult, WorkflowTriggerEvent, Library, LibraryFolder]

  lemma DbRefNames(n: Name)
    ensures n !in NamesIn(DBREF_COLLECTIONS) ==> DbRefFields(n) == {}
    ensures KnowledgeBases !in NamesIn(DBREF_COLLECTIONS)
  {
  }

  lemma CleanIsDereferenced(n: Name, docs: Docs)
    requires !n.KnowledgeBases?
    ensures CleanDocs(n, docs) == DereferencedDocs(DbRefFields(n), docs)
  {
  }

  method CleanupDbRefsIn(db: Database, ghost e: Env, n: Name, dryRun: bool)
    requires db.Valid() && !n.KnowledgeBases?
    modifies db
    ensures Grown(db)
    ensures db.colls == Ran(dryRun, e, Cleanup, {n}, old(db.colls))
  {
    CleanInPlace(e, n, db.colls);
    CleanIsDereferenced(n, DocsIn(db.colls, Live(n)));
    DereferenceFields(db, n, DbRefFields(n), dryRun);
  }

  /** The loop over the collections, whose names are given. */
  method CleanupFor(db: Database, ghost e: Env, names: seq<Name>, dryRun: bool)
    requires db.Valid() && KnowledgeBases !in names
    requires forall i, j :: 0 <= i < j < |names| ==> names[i] != names[j]
    modifies db
    ensures Grown(db)
    ensures db.colls == Ran(dryRun, e, Cleanup, NamesIn(names), old(db.colls))
  {
    OnlyNone(e, Cleanup, db.colls);
    for k := 0 to |names|
      invariant db.Valid() && db.origin == old(db.origin) && old(db.log) <= db.log
      invariant db.colls == Ran(dryRun, e, Cleanup, NamesIn(names[..k]), old(db.colls))
    {
      NamesStep(names, k);
      RanThen(dryRun, e, Cleanup, NamesIn(names[..k]), {names[k]}, old(db.colls));
      CleanupDbRefsIn(db, e, names[k], dryRun);
    }
    assert names[..|names|] == names;
  }

  method CleanupDbRefs(db: Database, ghost e: Env, dryRun: bool)
    requires db.Valid()
    modifies db
    ensures Grown(db)
    ensures db.colls == Ran(dryRun, e, Cleanup, NamesIn(DBREF_COLLECTIONS), old(db.colls))
  {
    CleanupFor(db, e, DBREF_COLLECTIONS, dryRun);
  }

  lemma CleanupSteps(dryRun: bool, e: Env, db: Colls)
    ensures Ran(dryRun, e, Cleanup, NamesIn(DBREF_COLLECTIONS), Ran(dryRun, e, Cleanup, {KnowledgeBases}, db))
         == if dryRun then db else Each(e, Cleanup, db)
  {
    forall n {
      DbRefNames(n);
    }
    RanThen(dryRun, e, Cleanup, {KnowledgeBases}, NamesIn(DBREF_COLLECTIONS), db);
    var names := {KnowledgeBases} + NamesIn(DBREF_COLLECTIONS);
    forall n, docs: Docs | n !in names
      ensures StageDocs(e, Cleanup, n, docs) == docs
    {
      CleanIsDereferenced(n, docs);
      DereferenceNone(docs);
    }
    OnlyIsEach(e, Cleanup, names, db);
  }

  lemma CleanSources(docs: Docs)
    ensures CleanDocs(KnowledgeBases, docs) == Stripped({Sources}, docs)
  {
  }

  method Phase4dCleanup(db: Database, ghost e: Env, dryRun: bool)
    requires db.Valid()
    modifies db
    ensures Grown(db)
    ensures db.colls == if dryRun then old(db.colls) else Each(e, Cleanup, old(db.colls))
  {
    CleanupSteps(dryRun, e, db.colls);
    CleanInPlace(e, KnowledgeBases, db.colls);
    CleanSources(DocsIn(db.colls, Live(KnowledgeBases)));
    UnsetFields(db, KnowledgeBases, {Sources}, dryRun);
    CleanupDbRefs(db, e, dryRun);
  }
}
