/**
 What a complete run leaves of each document, told field by field from the documents before it:
 teams, references, kinds, identifiers.
 */
module Outcomes {
  import opened Wrappers
  import opened Ids
  import opened Mongo
  import opened Conversion
  import opened Migration
  import opened ReferencePhases
  import opened MigrationRun
  import opened MigrationFacts
  import opened Idempotence

  // ---------------------------------------------------------------------------
  // References
  // ---------------------------------------------------------------------------

  /** The value refers to a document: it is its id, a DBRef, or a sub-document with `$id`, or with a
      reference under `_ref`. */
  ghost predicate RefersTo(v: Value, i: Id) {
    || v == Oid(i)
    || v == Ref(i)
    || (v.Sub? && v.doc.dollarId == Some(i))
    || (v.Sub? && v.doc.dollarId == None && v.doc.inner in {Some(AsDBRef(i)), Some(AsDict(Some(i)))})
  }

  lemma ReadAsReference(v: Value, i: Id)
    ensures ExtractOid(v) == Some(i) <==> RefersTo(v, i)
  {
  }

  lemma ReadAsNone(v: Value)
    ensures ExtractOid(v) == None <==> forall i :: !RefersTo(v, i)
  {
    if ExtractOid(v).Some? {
      ReadAsReference(v, ExtractOid(v).value);
    }
  }

  // ---------------------------------------------------------------------------
  // Collections that nothing names
  // ---------------------------------------------------------------------------

  /** The run takes `_cls` off the documents, and does nothing else to the collection. */
  ghost predicate OnlyStripped(e: Env, n: Name, docs: Docs) {
    NewName(n).None? && MigratedDocs(e, n, docs) == map i | i in docs :: docs[i] - {Cls}
  }

  lemma UnlistedStripped(e: Env, n: Name, i: Id, d: Doc)
    requires n.Unlisted?
    ensures MigrateDoc(e, n, i, d) == d - {Cls} && !Unsupported(n, d)
  {
    hide BeforeReferences;
    PlainBeforeReferences(e, n, d);
    NothingToClean(n, d - {Cls});
  }

  lemma NothingToClean(n: Name, d: Doc)
    requires n.Unlisted?
    ensures CleanupDoc(n, d) == d
  {
    assert DbRefFields(n) == {};
  }

  /** Whatever else a run changes, documents or names, is in a collection that the migration names. */
  lemma ChangedIsNamed(e: Env, n: Name, docs: Docs)
    ensures n.Unlisted? ==> OnlyStripped(e, n, docs)
  {
    if n.Unlisted? {
      hide MigratedDocs, MigrateDoc, Unsupported;
      forall i
        ensures i in MigratedDocs(e, n, docs) <==> i in docs
        ensures i in docs ==> MigratedDocs(e, n, docs)[i] == docs[i] - {Cls}
      {
        MigratedAt(e, n, docs, i);
        if i in docs {
          UnlistedStripped(e, n, i, docs[i]);
        }
      }
    }
  }

  // ---------------------------------------------------------------------------
  // Teams
  // ---------------------------------------------------------------------------

  const TEAM_SCOPED: set<Name> := {SmartDocument, SearchSet, Workflow, ChatConversation, KnowledgeBases}

  /** User `u` goes by the id. */
  predicate GoesBy(db: Colls, u: Id, owner: Value) {
    u in DocsIn(db, Live(User)) && UserId in DocsIn(db, Live(User))[u] && DocsIn(db, Live(User))[u][UserId] == owner
  }

  ghost predicate OnlyUser(db: Colls, owner: Value, u: Id) {
    Truthy(owner) && GoesBy(db, u, owner) && forall v :: GoesBy(db, v, owner) ==> v == u
  }

  /** The user's current team is a team document. */
  ghost predicate IsIn(db: Colls, u: Id, t: Id) {
    && u in DocsIn(db, Live(User)) && CurrentTeam in DocsIn(db, Live(User))[u]
    && RefersTo(DocsIn(db, Live(User))[u][CurrentTeam], t) && t in DocsIn(db, Live(Name.Team))
  }

  /** The team is the default one, if one is given, and else there is none. */
  predicate DefaultOrNone(default: Option<Text>, after: Doc) {
    if default.Some? && default.value != Text.Empty then TeamId in after && after[TeamId] == Str(default.value)
    else TeamId !in after
  }

  /** The value that stands for a team: its uuid, or else the text of its id. */
  predicate StandsFor(db: Colls, t: Id, v: Value) {
    var teams := DocsIn(db, Live(Name.Team));
    t in teams && v == if Uuid in teams[t] then teams[t][Uuid] else TextOf(Oid(t))
  }

  /** A document without a team gets the uuid of its owner's current team, or the text of that
      team's id where it has none; where no such team is found, the default. */
  ghost predicate TeamFromOwner(db: Colls, default: Option<Text>, d: Doc, after: Doc) {
    && (forall u, t :: UserId in d && OnlyUser(db, d[UserId], u) && IsIn(db, u, t) ==>
          TeamId in after && StandsFor(db, t, after[TeamId]))
    && (forall u :: UserId in d && OnlyUser(db, d[UserId], u) && (forall t :: !IsIn(db, u, t)) ==>
          DefaultOrNone(default, after))
    && (UserId !in d || !Truthy(d[UserId]) || (forall u :: !GoesBy(db, u, d[UserId])) ==> DefaultOrNone(default, after))
  }

  lemma MappedUser(e: Env, db: Colls, owner: Value, u: Id)
    requires ReadOff(e, db) && OnlyUser(db, owner, u)
    ensures owner in e.teams <==> TeamOf(DocsIn(db, Live(Name.Team)), e.defaultTeam, DocsIn(db, Live(User))[u]).Some?
    ensures owner in e.teams ==>
      TeamOf(DocsIn(db, Live(Name.Team)), e.defaultTeam, DocsIn(db, Live(User))[u]) == Some(e.teams[owner])
  {
    var users, teams := DocsIn(db, Live(User)), DocsIn(db, Live(Name.Team));
    assert GoesBy(db, u, owner);
    assert UidOf(users[u]) == Some(owner);
    if owner in e.teams {
      var v :| v in users && UidOf(users[v]) == Some(owner) && TeamOf(teams, e.defaultTeam, users[v]) == Some(e.teams[owner]);
      assert GoesBy(db, v, owner);
    }
  }

  lemma MappedOwner(e: Env, db: Colls, owner: Value)
    requires ReadOff(e, db) && owner in e.teams
    ensures Truthy(owner) && exists u :: GoesBy(db, u, owner)
  {
    var users, teams := DocsIn(db, Live(User)), DocsIn(db, Live(Name.Team));
    var v :| v in users && UidOf(users[v]) == Some(owner) && TeamOf(teams, e.defaultTeam, users[v]) == Some(e.teams[owner]);
    assert GoesBy(db, v, owner);
  }

  lemma TeamOfUser(db: Colls, default: Option<Text>, u: Id)
    requires u in DocsIn(db, Live(User))
    ensures var team := TeamOf(DocsIn(db, Live(Name.Team)), default, DocsIn(db, Live(User))[u]);
      && (forall t :: IsIn(db, u, t) ==> team.Some? && StandsFor(db, t, team.value))
      && ((forall t :: !IsIn(db, u, t)) ==>
            team == if default.Some? && default.value != Text.Empty then Some(Str(default.value)) else None)
  {
    var user := DocsIn(db, Live(User))[u];
    if CurrentTeam in user {
      forall t {
        ReadAsReference(user[CurrentTeam], t);
      }
      if ExtractOid(user[CurrentTeam]).Some? {
        var t := ExtractOid(user[CurrentTeam]).value;
        assert IsIn(db, u, t) <==> t in DocsIn(db, Live(Name.Team));
      }
    }
  }

  lemma TeamStored(e: Env, db: Colls, n: Name, i: Id, d: Doc)
    requires ReadOff(e, db) && n in TEAM_SCOPED && TeamId !in d
    ensures TeamFromOwner(db, e.defaultTeam, d, MigrateDoc(e, n, i, d))
  {
    hide MigrateDoc, TeamOf, UserTeams, UidOf, IsIn, StandsFor;
    TeamOfItsOwner(e, n, i, d);
    if UserId in d {
      forall u | OnlyUser(db, d[UserId], u)
        ensures forall t :: IsIn(db, u, t) ==> TeamFor(e, d).Some? && StandsFor(db, t, TeamFor(e, d).value)
        ensures (forall t :: !IsIn(db, u, t)) ==> DefaultOrNone(e.defaultTeam, MigrateDoc(e, n, i, d))
      {
        MappedUser(e, db, d[UserId], u);
        TeamOfUser(db, e.defaultTeam, u);
      }
      if d[UserId] in e.teams {
        MappedOwner(e, db, d[UserId]);
      }
    }
  }

  // ---------------------------------------------------------------------------
  // Library items
  // ---------------------------------------------------------------------------

  /** The class named in the entry's `obj`. */
  predicate OfClass(d: Doc, cls: Text) {
    Obj in d && d[Obj].Sub? && d[Obj].doc.cls == Some(cls)
  }

  /** The kind of a readable entry, from its class, or else from the kind that it had. */
  ghost predicate KindIs(d: Doc, kind: Text) {
    || (kind == WorkflowKind && OfClass(d, WorkflowClass))
    || (kind == SearchSetKind && OfClass(d, SearchSetClass))
    || (!OfClass(d, WorkflowClass) && !OfClass(d, SearchSetClass) && Kind in d
        && ((kind in {WorkflowKind, SearchSetKind, KnowledgeBaseKind} && d[Kind] == Str(kind))
            || (kind == SearchSetKind && d[Kind] == Str(OldSearchSetKind))))
  }

  lemma KindRead(d: Doc, kind: Text)
    requires Obj in d
    ensures ItemKindOf(d) == Some(kind) <==> KindIs(d, kind)
  {
  }

  ghost predicate Readable(d: Doc, item: Id, kind: Text) {
    Obj in d && RefersTo(d[Obj], item) && KindIs(d, kind)
  }

  /** Entries of an unsupported kind, by their kind or by their class, are deleted. */
  lemma ItemsDeleted(d: Doc)
    ensures Unsupported(LibraryItem, d) <==>
      (Kind in d && (d[Kind] == Str(Prompt) || d[Kind] == Str(Formatter))) || OfClass(d, SearchSetItemClass)
  {
  }

  lemma ReferenceIsTruthy(v: Value, i: Id)
    requires RefersTo(v, i)
    ensures Truthy(v)
  {
  }

  lemma ItemConverted(d: Doc, item: Id, kind: Text)
    requires ItemId !in d && Readable(d, item, kind)
    ensures ConvertItem(d) == d[ItemId := Oid(item)][Kind := Str(kind)]
  {
    ReadAsReference(d[Obj], item);
    ReferenceIsTruthy(d[Obj], item);
    KindRead(d, kind);
    assert d + map[ItemId := Oid(item), Kind := Str(kind)] == d[ItemId := Oid(item)][Kind := Str(kind)];
  }

  lemma ItemNotConverted(d: Doc)
    requires ItemId in d || forall item, kind :: !Readable(d, item, kind)
    ensures ConvertItem(d) == d
  {
    if ItemId !in d && Obj in d && ExtractOid(d[Obj]).Some? && ItemKindOf(d).Some? {
      var item, kind := ExtractOid(d[Obj]).value, ItemKindOf(d).value;
      ReadAsReference(d[Obj], item);
      KindRead(d, kind);
      assert Readable(d, item, kind);
    }
  }

  lemma StrippedReads(d: Doc, item: Id, kind: Text)
    ensures Readable(d - {Cls}, item, kind) <==> Readable(d, item, kind)
  {
  }

  /** The old name of the search-set kind is gone, and every other value stays. */
  ghost predicate SameKind(f: Field, before: Doc, after: Doc) {
    && (f in after <==> f in before)
    && (f in before ==> after[f] == if before[f] == Str(OldSearchSetKind) then Str(SearchSetKind) else before[f])
  }

  lemma ItemFields(d: Doc, converted: Doc, after: Doc)
    requires converted == ConvertItem(d) && after == LibraryItemDoc(d)
    ensures SameField(ItemId, after, converted) && SameKind(Kind, converted, after)
    ensures Obj !in after && AddedAt !in after
    ensures if CreatedAt !in converted && AddedAt in converted then CreatedAt in after && after[CreatedAt] == converted[AddedAt]
            else SameField(CreatedAt, after, converted)
  {
  }

  /** A readable entry without an `item_id` gets that of the item that it refers to, and its kind;
      any other keeps what it has. */
  lemma ItemOutcome(e: Env, i: Id, d: Doc)
    ensures var after := MigrateDoc(e, LibraryItem, i, d);
      && Obj !in after
      && (ItemId in d || (forall item, kind :: !Readable(d, item, kind)) ==>
            SameField(ItemId, after, d) && SameKind(Kind, d, after))
      && (ItemId !in d ==> forall item, kind :: Readable(d, item, kind) ==>
            ItemId in after && after[ItemId] == Oid(item) && Kind in after && after[Kind] == Str(kind))
  {
    hide LibraryItemDoc, ConvertItem, MigrateDoc, Readable;
    var stripped := d - {Cls};
    MigratedItem(e, i, d);
    ItemFields(stripped, ConvertItem(stripped), LibraryItemDoc(stripped));
    forall item, kind {
      StrippedReads(d, item, kind);
    }
    if ItemId in d || forall item, kind :: !Readable(d, item, kind) {
      ItemNotConverted(stripped);
    }
    if ItemId !in d {
      forall item, kind | Readable(d, item, kind)
        ensures ConvertItem(stripped) == stripped[ItemId := Oid(item)][Kind := Str(kind)]
        ensures kind != OldSearchSetKind
      {
        ItemConverted(stripped, item, kind);
        KnownKind(d, item, kind);
      }
    }
  }

  lemma KnownKind(d: Doc, item: Id, kind: Text)
    requires Readable(d, item, kind)
    ensures kind != OldSearchSetKind
  {
  }

  /** A creation time is kept, or else taken from `added_at`. */
  lemma ItemCreated(e: Env, i: Id, d: Doc)
    ensures var after := MigrateDoc(e, LibraryItem, i, d);
      && AddedAt !in after
      && if CreatedAt in d then SameField(CreatedAt, after, d)
         else (CreatedAt in after <==> AddedAt in d) && (AddedAt in d ==> after[CreatedAt] == d[AddedAt])
  {
    hide LibraryItemDoc, MigrateDoc;
    MigratedItem(e, i, d);
    ItemFields(d - {Cls}, ConvertItem(d - {Cls}), LibraryItemDoc(d - {Cls}));
  }

  // ---------------------------------------------------------------------------
  // Knowledge-base sources
  // ---------------------------------------------------------------------------

  lemma SourceFields(e: Env, d: Doc, converted: Doc, after: Doc)
    requires converted == ConvertSource(e, d) && after == KbSourceDoc(e, d)
    ensures SameField(KnowledgeBaseUuid, after, converted) && Field.KnowledgeBase !in after && Document !in after
  {
    hide ExtractOid;
  }

  lemma SourceConverted(e: Env, db: Colls, d: Doc)
    requires ReadOff(e, db)
    ensures var converted, kbs := ConvertSource(e, d), DocsIn(db, Live(KnowledgeBases));
      && (KnowledgeBaseUuid in d || Field.KnowledgeBase !in d || (forall kb :: !RefersTo(d[Field.KnowledgeBase], kb)) ==>
            converted == d)
      && (KnowledgeBaseUuid !in d && Field.KnowledgeBase in d ==> forall kb :: RefersTo(d[Field.KnowledgeBase], kb) ==>
            converted == d[KnowledgeBaseUuid := if kb in kbs && Uuid in kbs[kb] then kbs[kb][Uuid] else Str(Empty)])
  {
    hide ExtractOid, RefersTo;
    if Field.KnowledgeBase in d {
      ReadAsNone(d[Field.KnowledgeBase]);
      forall kb {
        ReadAsReference(d[Field.KnowledgeBase], kb);
      }
    }
  }

  /** A source that refers to a knowledge base gets its uuid, an empty one where there is no such
      knowledge base or it has none; any other keeps what it has. */
  lemma SourceOutcome(e: Env, db: Colls, i: Id, d: Doc)
    requires ReadOff(e, db)
    ensures var after, kbs := MigrateDoc(e, KnowledgeBaseSources, i, d), DocsIn(db, Live(KnowledgeBases));
      && Field.KnowledgeBase !in after && Document !in after
      && (KnowledgeBaseUuid in d || Field.KnowledgeBase !in d || (forall kb :: !RefersTo(d[Field.KnowledgeBase], kb)) ==>
            SameField(KnowledgeBaseUuid, after, d))
      && (KnowledgeBaseUuid !in d && Field.KnowledgeBase in d ==> forall kb :: RefersTo(d[Field.KnowledgeBase], kb) ==>
            KnowledgeBaseUuid in after
            && after[KnowledgeBaseUuid] == if kb in kbs && Uuid in kbs[kb] then kbs[kb][Uuid] else Str(Empty))
  {
    hide RefersTo, ConvertSource, KbSourceDoc, ReadOff, MigrateDoc;
    var stripped := d - {Cls};
    MigratedSource(e, i, d);
    SourceFields(e, stripped, ConvertSource(e, stripped), KbSourceDoc(e, stripped));
    SourceConverted(e, db, stripped);
    if Field.KnowledgeBase in d {
      assert stripped[Field.KnowledgeBase] == d[Field.KnowledgeBase];
    }
  }

  // ---------------------------------------------------------------------------
  // Verification requests
  // ---------------------------------------------------------------------------

  lemma RequestsDeleted(d: Doc)
    ensures Unsupported(VerificationRequest, d) <==>
      ItemKind in d && (d[ItemKind] == Str(Prompt) || d[ItemKind] == Str(Formatter))
  {
  }

  /** The first search set, in natural order, that has the uuid. */
  ghost predicate FirstWithUuid(db: Colls, uuid: Value, s: Id) {
    var sets := DocsIn(db, Live(SearchSet));
    && s in sets && Uuid in sets[s] && sets[s][Uuid] == uuid
    && forall o :: o in sets && Uuid in sets[o] && sets[o][Uuid] == uuid ==> s.rank <= o.rank
  }

  predicate AsksForSearchSet(d: Doc) {
    ItemKind in d && (d[ItemKind] == Str(OldSearchSetKind) || d[ItemKind] == Str(SearchSetKind))
  }

  lemma FoundByUuid(e: Env, db: Colls, uuid: Value, s: Id)
    requires ReadOff(e, db)
    ensures SearchSetByUuid(e.searchSetUuid, uuid) == Some(s) <==> FirstWithUuid(db, uuid, s)
  {
    var found := set i | i in e.searchSetUuid && e.searchSetUuid[i] == uuid;
    if FirstWithUuid(db, uuid, s) {
      assert s in found;
      assert Least(found).rank <= s.rank;
    }
  }

  lemma RequestFields(e: Env, i: Id, d: Doc, converted: Doc, after: Doc)
    requires converted == ConvertRequest(e, i, d) && after == RequestDoc(e, i, d)
    ensures SameField(ItemId, after, converted) && SameKind(ItemKind, converted, after) && ItemIdentifier !in after
    ensures SameField(ItemKind, converted, d)
  {
    hide Resolve;
  }

  lemma RequestConverted(e: Env, db: Colls, i: Id, d: Doc)
    requires ReadOff(e, db)
    ensures var converted := ConvertRequest(e, i, d);
      && (ItemId in d || ItemIdentifier !in d ==> converted == d)
      && (ItemId !in d && ItemIdentifier in d ==>
            var asked, parsed := d[ItemIdentifier], e.parseOid(i, d[ItemIdentifier]);
            && (parsed.Some? ==> converted == d[ItemId := Oid(parsed.value)])
            && (parsed.None? && AsksForSearchSet(d) ==>
                  forall s :: FirstWithUuid(db, asked, s) ==> converted == d[ItemId := Oid(s)])
            && (parsed.None? && (AsksForSearchSet(d) ==> forall s :: !FirstWithUuid(db, asked, s)) ==> converted == d))
  {
    hide FirstWithUuid, ReadOff;
    if ItemIdentifier in d {
      forall s {
        FoundByUuid(e, db, d[ItemIdentifier], s);
      }
      var found := SearchSetByUuid(e.searchSetUuid, d[ItemIdentifier]);
      assert found.Some? ==> FirstWithUuid(db, d[ItemIdentifier], found.value);
    }
  }

  /** A request with an identifier gets the `item_id` that this parses to, or that of the first search
      set with this uuid if it asks for one; any other keeps what it has. */
  lemma RequestOutcome(e: Env, db: Colls, i: Id, d: Doc)
    requires ReadOff(e, db)
    ensures var after := MigrateDoc(e, VerificationRequest, i, d);
      && ItemIdentifier !in after && SameKind(ItemKind, d, after)
      && (ItemId in d || ItemIdentifier !in d ==> SameField(ItemId, after, d))
      && (ItemId !in d && ItemIdentifier in d ==>
            var asked, parsed := d[ItemIdentifier], e.parseOid(i, d[ItemIdentifier]);
            && (parsed.Some? ==> ItemId in after && after[ItemId] == Oid(parsed.value))
            && (parsed.None? && AsksForSearchSet(d) ==>
                  forall s :: FirstWithUuid(db, asked, s) ==> ItemId in after && after[ItemId] == Oid(s))
            && (parsed.None? && (AsksForSearchSet(d) ==> forall s :: !FirstWithUuid(db, asked, s)) ==> ItemId !in after))
  {
    hide FirstWithUuid, ReadOff, RequestDoc, ConvertRequest, MigrateDoc;
    var stripped := d - {Cls};
    MigratedRequest(e, i, d);
    RequestFields(e, i, stripped, ConvertRequest(e, i, stripped), RequestDoc(e, i, stripped));
    RequestConverted(e, db, i, stripped);
    assert AsksForSearchSet(stripped) == AsksForSearchSet(d);
  }

  // ---------------------------------------------------------------------------
  // Verified collections and metadata
  // ---------------------------------------------------------------------------

  /** The text form of an entry: of the id that it refers to, or else of itself. */
  ghost predicate ShownAs(v: Value, shown: Value) {
    && (forall i :: RefersTo(v, i) ==> shown == TextOf(Oid(i)))
    && ((forall i :: !RefersTo(v, i)) ==> shown == if v.Str? then v else TextOf(v))
  }

  ghost predicate AllShown(items: seq<Value>, shown: seq<Value>) {
    |shown| == |items| && forall k :: 0 <= k < |items| ==> ShownAs(items[k], shown[k])
  }

  lemma ItemsShown(items: seq<Value>)
    ensures AllShown(items, ShowItems(items))
  {
    forall k | 0 <= k < |items|
      ensures ShownAs(items[k], ShowItems(items)[k])
    {
      ReadAsNone(items[k]);
      forall i {
        ReadAsReference(items[k], i);
      }
    }
  }

  lemma CollectionFields(d: Doc, converted: Doc, after: Doc)
    requires converted == ConvertCollection(d) && after == CollectionDoc(d)
    ensures SameField(ItemIds, after, converted) && Items !in after
    ensures Featured in after && after[Featured] == if Featured in d then d[Featured] else Bool(false)
  {
    hide ShowItems;
  }

  /** A collection without `item_ids` gets the text forms of its items, in order; it is featured only if
      it was. */
  lemma CollectionOutcome(e: Env, i: Id, d: Doc)
    ensures var after := MigrateDoc(e, VerifiedCollection, i, d);
      && Items !in after
      && (ItemIds in d || Items !in d ==> SameField(ItemIds, after, d))
      && (ItemIds !in d && Items in d ==>
            && ItemIds in after && after[ItemIds].List?
            && AllShown(if d[Items].List? then d[Items].items else [], after[ItemIds].items))
      && Featured in after && after[Featured] == if Featured in d then d[Featured] else Bool(false)
  {
    hide ShowItems, AllShown, CollectionDoc, MigrateDoc;
    var stripped := d - {Cls};
    MigratedCollection(e, i, d);
    CollectionFields(stripped, ConvertCollection(stripped), CollectionDoc(stripped));
    if Items in d {
      ItemsShown(if d[Items].List? then d[Items].items else []);
    }
  }

  lemma MetadataBefore(e: Env, d: Doc)
    ensures var before := BeforeReferences(e, VerifiedItemMetadata, d);
      SameField(ItemId, before, d) && SameField(ItemIdentifier, before, d) && SameField(ItemKind, before, d)
  {
    hide BeforeReferences;
    assert ItemId !in VERIFIED_ITEM_METADATA_DEFAULTS && ItemIdentifier !in VERIFIED_ITEM_METADATA_DEFAULTS;
    assert ItemKind !in VERIFIED_ITEM_METADATA_DEFAULTS;
    FieldBefore(e, VerifiedItemMetadata, d, ItemId);
    FieldBefore(e, VerifiedItemMetadata, d, ItemIdentifier);
    FieldBefore(e, VerifiedItemMetadata, d, ItemKind);
  }

  /** Up to phase 4c a field stays that is not the team's, the space's, `_cls`, and neither obsolete nor
      given a default. */
  lemma FieldBefore(e: Env, n: Name, d: Doc, f: Field)
    requires !f.Cls? && !f.TeamId? && !f.Space? && !f.DownloadPath? && f !in Obsolete(n) && f !in Defaults(n, e.now)
    ensures SameField(f, BeforeReferences(e, n, d), d)
  {
    hide SpaceDoc, DefaultsDoc, Defaults, Obsolete;
    var spaced := SpaceDoc(e, n, d - {Cls});
    SpaceKeeps(e, n, d - {Cls}, f);
    if f in spaced {
      NewFieldsKeep(e, n, spaced, f);
    } else if f in DefaultsDoc(e, n, spaced) {
      NewFieldsAdd(e, n, spaced, f);
    }
  }

  /** Metadata without an `item_id` get the identifier as it is. */
  lemma MetadataOutcome(e: Env, i: Id, d: Doc)
    ensures var after := MigrateDoc(e, VerifiedItemMetadata, i, d);
      && ItemIdentifier !in after && SameKind(ItemKind, d, after)
      && (if ItemId !in d && ItemIdentifier in d then ItemId in after && after[ItemId] == d[ItemIdentifier]
          else SameField(ItemId, after, d))
  {
    hide BeforeReferences;
    MetadataBefore(e, d);
    CleanupElsewhere(VerifiedItemMetadata, RefsDoc(e, VerifiedItemMetadata, i, BeforeReferences(e, VerifiedItemMetadata, d)));
  }

  // ---------------------------------------------------------------------------
  // Plain references, spaces, copied paths
  // ---------------------------------------------------------------------------

  predicate IsReference(n: Name, f: Field) {
    || (n.User? && f.CurrentTeam?)
    || ((n.TeamMembership? || n.TeamInvite? || n.Library? || n.LibraryFolder?) && f.Team?)
    || (n.WorkflowResult? && f.WorkflowRef?)
    || (n.WorkflowTriggerEvent? && (f.WorkflowRef? || f.WorkflowResultRef? || f.WorkItemRef?))
  }

  predicate InOldForm(v: Value) {
    v.Ref? || (v.Sub? && v.doc.dollarRef)
  }

  /** A reference in the old form becomes the plain id, if it has one; every other value stays. */
  lemma ReferenceOutcome(e: Env, n: Name, i: Id, d: Doc, f: Field)
    requires IsReference(n, f)
    ensures var after := MigrateDoc(e, n, i, d);
      && (f in after <==> f in d)
      && (f in d ==> forall o :: InOldForm(d[f]) && RefersTo(d[f], o) ==> after[f] == Oid(o))
      && (f in d && (!InOldForm(d[f]) || forall o :: !RefersTo(d[f], o)) ==> after[f] == d[f])
  {
    hide BeforeReferences;
    ReferenceBefore(e, n, d, f);
    RefsElsewhere(e, n, i, BeforeReferences(e, n, d));
    if f in d {
      ReadAsNone(d[f]);
      forall o {
        ReadAsReference(d[f], o);
      }
    }
  }

  lemma ReferenceBefore(e: Env, n: Name, d: Doc, f: Field)
    requires IsReference(n, f)
    ensures SameField(f, BeforeReferences(e, n, d), d) && n !in REFERENCE_NAMES && f in DbRefFields(n) && !n.KnowledgeBases?
  {
    hide BeforeReferences, Defaults;
    NoReferenceDefault(n, e.now, f);
    FieldBefore(e, n, d, f);
  }

  lemma NoReferenceDefault(n: Name, now: Value, f: Field)
    requires f.CurrentTeam? || f.Team? || f.WorkflowRef? || f.WorkflowResultRef? || f.WorkItemRef? || f.Space?
    ensures f !in Defaults(n, now) && f !in Obsolete(n)
  {
    hide Defaults;
    DefaultsWithout(n, now);
  }

  /** `space` is gone from the seven collections of phase 4a and stays everywhere else. */
  lemma SpaceOutcome(e: Env, n: Name, i: Id, d: Doc)
    ensures var after := MigrateDoc(e, n, i, d);
      if n in TEAM_SCOPED + {SmartFolder, ActivityEvent} then Space !in after else SameField(Space, after, d)
  {
    hide BeforeReferences;
    SpaceBefore(e, n, d);
    LaterPhasesKeep(e, n, i, BeforeReferences(e, n, d), Space);
    assert Space !in DbRefFields(n);
  }

  lemma SpaceAfterSpaces(e: Env, n: Name, d: Doc)
    ensures var spaced := SpaceDoc(e, n, d - {Cls});
      if n in TEAM_SCOPED + {SmartFolder, ActivityEvent} then Space !in spaced else SameField(Space, spaced, d)
  {
    hide TeamFor;
  }

  lemma SpaceBefore(e: Env, n: Name, d: Doc)
    ensures var before := BeforeReferences(e, n, d);
      if n in TEAM_SCOPED + {SmartFolder, ActivityEvent} then Space !in before else SameField(Space, before, d)
  {
    hide SpaceDoc, DefaultsDoc, Defaults, Obsolete;
    var spaced := SpaceDoc(e, n, d - {Cls});
    SpaceAfterSpaces(e, n, d);
    NoReferenceDefault(n, e.now, Space);
    if Space in spaced {
      NewFieldsKeep(e, n, spaced, Space);
    } else if Space in DefaultsDoc(e, n, spaced) {
      NewFieldsAdd(e, n, spaced, Space);
    }
  }

  /** A document's download path is kept, or else taken from its path. */
  lemma PathOutcome(e: Env, i: Id, d: Doc)
    ensures var after := MigrateDoc(e, SmartDocument, i, d);
      if DownloadPath in d then SameField(DownloadPath, after, d)
      else (DownloadPath in after <==> Path in d) && (Path in d ==> after[DownloadPath] == d[Path])
  {
    hide BeforeReferences;
    PathBefore(e, d);
    LaterPhasesKeep(e, SmartDocument, i, BeforeReferences(e, SmartDocument, d), DownloadPath);
  }

  lemma PathBefore(e: Env, d: Doc)
    ensures var before := BeforeReferences(e, SmartDocument, d);
      if DownloadPath in d then SameField(DownloadPath, before, d)
      else (DownloadPath in before <==> Path in d) && (Path in d ==> before[DownloadPath] == d[Path])
  {
    hide SpaceDoc, DefaultsDoc, SMART_DOCUMENT_DEFAULTS;
    var spaced := SpaceDoc(e, SmartDocument, d - {Cls});
    SpaceKeeps(e, SmartDocument, d - {Cls}, DownloadPath);
    SpaceKeeps(e, SmartDocument, d - {Cls}, Path);
    DefaultsThenCopyDoc(e, spaced);
    assert NoneIn(SMART_DOCUMENT_DEFAULTS) by {
      DocumentDefaultsWithout();
    }
  }

  lemma GoneOrKept(e: Env, n: Name, i: Id, d: Doc, before: Doc)
    requires before == BeforeReferences(e, n, d) && n !in REFERENCE_NAMES
    ensures MigrateDoc(e, n, i, d) == CleanupDoc(n, before)
  {
    hide BeforeReferences, CleanupDoc;
    RefsElsewhere(e, n, i, before);
  }

  lemma ObsoleteGone(e: Env, n: Name, d: Doc)
    ensures Obsolete(n) !! DefaultsDoc(e, n, d).Keys
  {
    hide Defaults;
  }

  lemma RequestFieldsGone(e: Env, i: Id, d: Doc)
    ensures LibraryItemRef !in RequestDoc(e, i, d) && ItemTitle !in RequestDoc(e, i, d)
  {
    hide ConvertRequest;
  }

  /** `_cls` is gone everywhere, and so are the fields that have no successor. */
  lemma OldFieldsGone(e: Env, n: Name, i: Id, d: Doc)
    ensures var after := MigrateDoc(e, n, i, d);
      && Cls !in after
      && (n.KnowledgeBases? ==> Sources !in after)
      && (n.SearchSetItem? ==> SpaceId !in after)
      && (n.WorkflowResult? ==> TriggerEvent !in after)
      && (n.VerificationRequest? ==> LibraryItemRef !in after && ItemTitle !in after)
  {
    hide BeforeReferences, DefaultsDoc, SpaceDoc, RequestDoc;
    GoneAfterRun(e, n, i, d);
    if n.VerificationRequest? {
      MigratedRequest(e, i, d);
      RequestFieldsGone(e, i, d - {Cls});
    } else if n.KnowledgeBases? || n.SearchSetItem? || n.WorkflowResult? {
      DroppedBefore(e, n, d);
      GoneOrKept(e, n, i, d, BeforeReferences(e, n, d));
    }
  }

  lemma DroppedBefore(e: Env, n: Name, d: Doc)
    ensures Obsolete(n) !! BeforeReferences(e, n, d).Keys
  {
    hide DefaultsDoc, SpaceDoc;
    ObsoleteGone(e, n, SpaceDoc(e, n, d - {Cls}));
  }

  // ---------------------------------------------------------------------------
  // The whole database
  // ---------------------------------------------------------------------------

  /** Phase 1 has backed up everything that the run changes beyond taking off `_cls`. */
  ghost predicate ChangesBackedUp(e: Env, before: Colls, after: Colls, stamp: nat) {
    forall n :: Live(n) in before && before[Live(n)] != map[] && !OnlyStripped(e, n, before[Live(n)]) ==>
      Backup(n, stamp) in after && after[Backup(n, stamp)] == before[Live(n)]
  }

  lemma AllChangesBackedUp(e: Env, before: Colls, after: Colls, stamp: nat)
    requires forall n: Name :: !n.Unlisted? && DocsIn(before, Live(n)) != map[] ==>
      Backup(n, stamp) in after && after[Backup(n, stamp)] == before[Live(n)]
    ensures ChangesBackedUp(e, before, after, stamp)
  {
    hide OnlyStripped;
    forall n | Live(n) in before {
      ChangedIsNamed(e, n, before[Live(n)]);
    }
  }

  /** Every document of phase 4a that had no team has one by `TeamFromOwner`. */
  ghost predicate TeamsFromOwners(before: Colls, default: Option<Text>, final: Colls) {
    forall n, i :: n in TEAM_SCOPED && i in DocsIn(before, Live(n)) && TeamId !in DocsIn(before, Live(n))[i] ==>
      && i in DocsIn(final, Live(n))
      && TeamFromOwner(before, default, DocsIn(before, Live(n))[i], DocsIn(final, Live(n))[i])
  }

  lemma NotRenamed(db: Colls, n: Name)
    requires n in TEAM_SCOPED
    ensures DocsIn(Renamed(db), Live(n)) == DocsIn(db, Live(n))
  {
  }

  lemma TeamScopedDoc(e: Env, db: Colls, n: Name, i: Id)
    requires ReadOff(e, db) && n in TEAM_SCOPED && i in DocsIn(db, Live(n)) && TeamId !in DocsIn(db, Live(n))[i]
    ensures i in DocsIn(Migrated(e, db), Live(n))
    ensures TeamFromOwner(db, e.defaultTeam, DocsIn(db, Live(n))[i], DocsIn(Migrated(e, db), Live(n))[i])
  {
    hide TeamFromOwner, ReadOff, MigrateDoc, MigratedDocs, Renamed;
    NotRenamed(db, n);
    MigratedAt(e, n, DocsIn(db, Live(n)), i);
    TeamStored(e, db, n, i, DocsIn(db, Live(n))[i]);
  }

  lemma AllTeamsFromOwners(e: Env, db: Colls)
    requires ReadOff(e, db)
    ensures TeamsFromOwners(db, e.defaultTeam, Migrated(e, db))
  {
    hide TeamFromOwner, ReadOff, Migrated;
    forall n, i | n in TEAM_SCOPED && i in DocsIn(db, Live(n)) && TeamId !in DocsIn(db, Live(n))[i] {
      TeamScopedDoc(e, db, n, i);
    }
  }
}
