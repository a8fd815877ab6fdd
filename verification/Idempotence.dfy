/** A second complete run changes nothing, except in one case that is given exactly. */
module Idempotence {
  import opened Wrappers
  import opened Ids
  import opened Mongo
  import opened Conversion
  import opened Migration
  import opened ReferencePhases
  import opened MigrationRun
  import opened MigrationFacts

  // ---------------------------------------------------------------------------
  // Each reference conversion is done after one pass
  // ---------------------------------------------------------------------------

  predicate ItemSettled(d: Doc) {
    Obj !in d && AddedAt !in d && (Kind in d ==> d[Kind] != Str(Text.OldSearchSetKind))
    && LIBRARY_ITEM_DEFAULTS.Keys <= d.Keys
  }

  lemma SettledItemFixed(d: Doc)
    requires ItemSettled(d)
    ensures LibraryItemDoc(d) == d
  {
  }

  lemma ItemSettles(d: Doc)
    ensures ItemSettled(LibraryItemDoc(d))
  {
  }

  predicate SourceSettled(d: Doc) {
    Field.KnowledgeBase !in d && Document !in d && KB_SOURCE_DEFAULTS.Keys <= d.Keys
  }

  lemma SettledSourceFixed(e: Env, d: Doc)
    requires SourceSettled(d)
    ensures KbSourceDoc(e, d) == d
  {
  }

  lemma SourceSettles(e: Env, d: Doc)
    ensures SourceSettled(KbSourceDoc(e, d))
  {
  }

  predicate RequestSettled(d: Doc) {
    REQUEST_OBSOLETE !! d.Keys && (ItemKind in d ==> d[ItemKind] != Str(Text.OldSearchSetKind))
    && REQUEST_DEFAULTS.Keys <= d.Keys
  }

  lemma SettledRequestFixed(e: Env, i: Id, d: Doc)
    requires RequestSettled(d)
    ensures RequestDoc(e, i, d) == d
  {
  }

  lemma RequestSettles(e: Env, i: Id, d: Doc)
    ensures RequestSettled(RequestDoc(e, i, d))
  {
  }

  predicate CollectionSettled(d: Doc) {
    Items !in d && COLLECTION_DEFAULTS.Keys <= d.Keys
  }

  lemma SettledCollectionFixed(d: Doc)
    requires CollectionSettled(d)
    ensures CollectionDoc(d) == d
  {
  }

  lemma CollectionSettles(d: Doc)
    ensures CollectionSettled(CollectionDoc(d))
  {
  }

  predicate MetadataSettled(d: Doc) {
    ItemIdentifier !in d && (ItemKind in d ==> d[ItemKind] != Str(Text.OldSearchSetKind))
  }

  lemma SettledMetadataFixed(d: Doc)
    requires MetadataSettled(d)
    ensures ItemMetadataDoc(d) == d
  {
  }

  lemma MetadataSettles(d: Doc)
    ensures MetadataSettled(ItemMetadataDoc(d))
  {
  }

  lemma ItemTwice(e1: Env, e2: Env, n: Name, i: Id, d: Doc)
    requires n.LibraryItem?
    ensures RefsDoc(e2, n, i, RefsDoc(e1, n, i, d)) == RefsDoc(e1, n, i, d)
  {
    ItemSettles(d);
    SettledItemFixed(LibraryItemDoc(d));
  }

  lemma SourceTwice(e1: Env, e2: Env, n: Name, i: Id, d: Doc)
    requires n.KnowledgeBaseSources?
    ensures RefsDoc(e2, n, i, RefsDoc(e1, n, i, d)) == RefsDoc(e1, n, i, d)
  {
    SourceSettles(e1, d);
    SettledSourceFixed(e2, KbSourceDoc(e1, d));
  }

  lemma RequestTwice(e1: Env, e2: Env, n: Name, i: Id, d: Doc)
    requires n.VerificationRequest?
    ensures RefsDoc(e2, n, i, RefsDoc(e1, n, i, d)) == RefsDoc(e1, n, i, d)
  {
    RequestSettles(e1, i, d);
    SettledRequestFixed(e2, i, RequestDoc(e1, i, d));
  }

  lemma CollectionTwice(e1: Env, e2: Env, n: Name, i: Id, d: Doc)
    requires n.VerifiedCollection?
    ensures RefsDoc(e2, n, i, RefsDoc(e1, n, i, d)) == RefsDoc(e1, n, i, d)
  {
    CollectionSettles(d);
    SettledCollectionFixed(CollectionDoc(d));
  }

  lemma MetadataTwice(e1: Env, e2: Env, n: Name, i: Id, d: Doc)
    requires n.VerifiedItemMetadata?
    ensures RefsDoc(e2, n, i, RefsDoc(e1, n, i, d)) == RefsDoc(e1, n, i, d)
  {
    MetadataSettles(d);
    SettledMetadataFixed(ItemMetadataDoc(d));
  }

  lemma OtherTwice(e1: Env, e2: Env, n: Name, i: Id, d: Doc)
    requires n !in REFERENCE_NAMES
    ensures RefsDoc(e2, n, i, RefsDoc(e1, n, i, d)) == RefsDoc(e1, n, i, d)
  {
    RefsElsewhere(e1, n, i, d);
    RefsElsewhere(e2, n, i, d);
  }

  /** Whatever else a second run knows, its phase 4c leaves the first run's result alone. */
  lemma RefsTwice(e1: Env, e2: Env, n: Name, i: Id, d: Doc)
    ensures RefsDoc(e2, n, i, RefsDoc(e1, n, i, d)) == RefsDoc(e1, n, i, d)
  {
    match n
    case LibraryItem => ItemTwice(e1, e2, n, i, d);
    case KnowledgeBaseSources => SourceTwice(e1, e2, n, i, d);
    case VerificationRequest => RequestTwice(e1, e2, n, i, d);
    case VerifiedCollection => CollectionTwice(e1, e2, n, i, d);
    case VerifiedItemMetadata => MetadataTwice(e1, e2, n, i, d);
    case _ => OtherTwice(e1, e2, n, i, d);
  }

  lemma CleanupTwice(n: Name, d: Doc)
    ensures CleanupDoc(n, CleanupDoc(n, d)) == CleanupDoc(n, d)
  {
  }

  // ---------------------------------------------------------------------------
  // Phases 3, 4a and 4b
  // ---------------------------------------------------------------------------

  predicate NewFieldsSettled(n: Name, now: Value, d: Doc) {
    && Defaults(n, now).Keys <= d.Keys
    && Obsolete(n) !! d.Keys
    && (n.SmartDocument? ==> DownloadPath in d || Path !in d)
  }

  lemma SettledNewFieldsFixed(e: Env, n: Name, d: Doc)
    requires NewFieldsSettled(n, e.now, d)
    ensures DefaultsDoc(e, n, d) == d
  {
    hide Defaults, Obsolete;
    assert Defaults(n, e.now) + d == d;
    assert d - Obsolete(n) == d;
  }

  lemma NoDefaultIsObsolete(n: Name, now: Value)
    ensures Obsolete(n) !! Defaults(n, now).Keys
  {
  }

  lemma NewFieldsSettle(e: Env, n: Name, d: Doc)
    ensures NewFieldsSettled(n, e.now, DefaultsDoc(e, n, d))
  {
    NoDefaultIsObsolete(n, e.now);
  }

  lemma DefaultFields(n: Name, now1: Value, now2: Value)
    ensures Defaults(n, now1).Keys == Defaults(n, now2).Keys
  {
  }

  lemma RefsElsewhere(e: Env, n: Name, i: Id, d: Doc)
    requires n !in REFERENCE_NAMES
    ensures RefsDoc(e, n, i, d) == d
  {
  }

  lemma NewFieldsSurviveReferences(e: Env, n: Name, i: Id, d: Doc)
    requires NewFieldsSettled(n, e.now, d)
    ensures NewFieldsSettled(n, e.now, RefsDoc(e, n, i, d))
  {
  }

  lemma NewFieldsSurviveCleanup(n: Name, now: Value, d: Doc)
    requires NewFieldsSettled(n, now, d)
    ensures NewFieldsSettled(n, now, CleanupDoc(n, d))
  {
  }

  /** A run's own result has nothing left for phases 3 and 4a to do, unless a second run
      knows a team for a document that has none. */
  predicate SpacesSettled(e: Env, n: Name, d: Doc) {
    && Cls !in d
    && (DropsSpace(n) ==> Space !in d)
    && (SpaceScoped(n) && TeamId !in d ==> TeamFor(e, d).None?)
  }

  lemma SettledSpacesFixed(e: Env, n: Name, d: Doc)
    requires SpacesSettled(e, n, d)
    ensures SpaceDoc(e, n, d - {Cls}) == d
  {
  }

  /** Defaults are given for none of these fields. */
  predicate NoneIn(d: Doc) {
    && Cls !in d && Space !in d && Path !in d && DownloadPath !in d
    && CurrentTeam !in d && Field.Team !in d && WorkflowRef !in d && WorkflowResultRef !in d && WorkItemRef !in d
  }

  lemma UserDefaultsWithout()
    ensures NoneIn(USER_DEFAULTS) && NoneIn(TEAM_DEFAULTS) && NoneIn(CHAT_MESSAGE_DEFAULTS)
  {
  }

  lemma DocumentDefaultsWithout()
    ensures NoneIn(SMART_DOCUMENT_DEFAULTS)
  {
  }

  lemma ContentDefaultsWithout()
    ensures NoneIn(SEARCH_SET_DEFAULTS) && NoneIn(SEARCH_SET_ITEM_DEFAULTS)
    ensures NoneIn(WORKFLOW_DEFAULTS) && NoneIn(WORKFLOW_RESULT_DEFAULTS)
  {
  }

  lemma SystemDefaultsWithout()
    ensures NoneIn(SYSTEM_CONFIG_DEFAULTS) && NoneIn(GRAPH_SUBSCRIPTION_DEFAULTS)
    ensures NoneIn(VERIFIED_ITEM_METADATA_DEFAULTS)
  {
  }

  lemma OtherDefaultsWithout(now: Value)
    ensures NoneIn(map[]) && NoneIn(ExtractionQualityDefaults(now))
  {
  }

  lemma DefaultsWithout(n: Name, now: Value)
    ensures NoneIn(Defaults(n, now))
  {
    hide NoneIn;
    OtherDefaultsWithout(now);
    UserDefaultsWithout();
    DocumentDefaultsWithout();
    ContentDefaultsWithout();
    SystemDefaultsWithout();
  }

  lemma GoneBeforeReferences(e: Env, n: Name, d: Doc)
    ensures Cls !in BeforeReferences(e, n, d)
    ensures DropsSpace(n) ==> Space !in BeforeReferences(e, n, d)
  {
    DefaultsWithout(n, e.now);
    var spaced := SpaceDoc(e, n, d - {Cls});
    if Cls in DefaultsDoc(e, n, spaced) {
      NewFieldsAdd(e, n, spaced, Cls);
    }
    if DropsSpace(n) && Space in DefaultsDoc(e, n, spaced) {
      NewFieldsAdd(e, n, spaced, Space);
    }
  }

  lemma GoneAfterRun(e: Env, n: Name, i: Id, d: Doc)
    ensures Cls !in MigrateDoc(e, n, i, d)
    ensures DropsSpace(n) ==> Space !in MigrateDoc(e, n, i, d)
  {
    GoneBeforeReferences(e, n, d);
    LaterPhasesKeep(e, n, i, BeforeReferences(e, n, d), Cls);
    LaterPhasesKeep(e, n, i, BeforeReferences(e, n, d), Space);
  }

  // ---------------------------------------------------------------------------
  // Running twice
  // ---------------------------------------------------------------------------

  /** The second run reads off a database that the first one left: same default team,
      teams for the same users. */
  ghost predicate RunAfter(e1: Env, e2: Env) {
    e2.defaultTeam == e1.defaultTeam && e2.teams.Keys == e1.teams.Keys
  }

  /** The case that a second run changes: phase 4b names the owner of an ownerless
      document "unknown" after phase 4a has looked for its team, and there is a user by
      that name. */
  predicate FoundUnknownOwner(e: Env, n: Name, d: Doc) {
    n.SmartDocument? && TeamId !in d && UserId !in d && !Given(e.defaultTeam) && Str(Text.Unknown) in e.teams
  }

  lemma OwnerKept(e: Env, n: Name, d: Doc)
    requires UserId in d
    ensures SameField(UserId, BeforeReferences(e, n, d), d)
  {
    SpaceKeeps(e, n, d - {Cls}, UserId);
    NewFieldsKeep(e, n, SpaceDoc(e, n, d - {Cls}), UserId);
  }

  lemma OwnerFilledIn(e: Env, n: Name, d: Doc)
    requires UserId !in d && n.SmartDocument?
    ensures UserId in BeforeReferences(e, n, d) && BeforeReferences(e, n, d)[UserId] == Str(Text.Unknown)
  {
  }

  lemma NoOwnerAdded(e: Env, n: Name, d: Doc)
    requires UserId !in d && SpaceScoped(n) && !n.SmartDocument?
    ensures UserId !in BeforeReferences(e, n, d)
  {
  }

  lemma OwnerBeforeReferences(e: Env, n: Name, d: Doc)
    ensures UserId in d ==> SameField(UserId, BeforeReferences(e, n, d), d)
    ensures UserId !in d && n.SmartDocument? ==>
      UserId in BeforeReferences(e, n, d) && BeforeReferences(e, n, d)[UserId] == Str(Text.Unknown)
    ensures UserId !in d && SpaceScoped(n) && !n.SmartDocument? ==> UserId !in BeforeReferences(e, n, d)
  {
    if UserId in d {
      OwnerKept(e, n, d);
    } else if n.SmartDocument? {
      OwnerFilledIn(e, n, d);
    } else if SpaceScoped(n) {
      NoOwnerAdded(e, n, d);
    }
  }

  lemma OwnerAfterRun(e: Env, n: Name, i: Id, d: Doc)
    requires SpaceScoped(n)
    ensures UserId in d ==> SameField(UserId, MigrateDoc(e, n, i, d), d)
    ensures UserId !in d && n.SmartDocument? ==>
      UserId in MigrateDoc(e, n, i, d) && MigrateDoc(e, n, i, d)[UserId] == Str(Text.Unknown)
    ensures UserId !in d && !n.SmartDocument? ==> UserId !in MigrateDoc(e, n, i, d)
  {
    OwnerBeforeReferences(e, n, d);
    LaterPhasesKeep(e, n, i, BeforeReferences(e, n, d), UserId);
  }

  /** A second run finds a team for a document that the first left without one only in
      the case above. */
  lemma TeamStillMissing(e1: Env, e2: Env, n: Name, i: Id, d: Doc)
    requires RunAfter(e1, e2) && SpaceScoped(n) && TeamId !in MigrateDoc(e1, n, i, d)
    ensures TeamId !in d
    ensures TeamFor(e2, MigrateDoc(e1, n, i, d)).Some? <==> FoundUnknownOwner(e1, n, d)
  {
    if TeamId in d {
      TeamNeverChanges(e1, n, i, d);
    } else {
      TeamOfItsOwner(e1, n, i, d);
      OwnerAfterRun(e1, n, i, d);
    }
  }

  lemma SecondRunDocs(e1: Env, e2: Env, n: Name, i: Id, d: Doc)
    requires RunAfter(e1, e2) && !FoundUnknownOwner(e1, n, d)
    ensures BeforeReferences(e2, n, MigrateDoc(e1, n, i, d)) == MigrateDoc(e1, n, i, d)
  {
    var before := BeforeReferences(e1, n, d);
    var once := MigrateDoc(e1, n, i, d);
    GoneAfterRun(e1, n, i, d);
    if SpaceScoped(n) && TeamId !in once {
      TeamStillMissing(e1, e2, n, i, d);
    }
    SettledSpacesFixed(e2, n, once);
    NewFieldsSettle(e1, n, SpaceDoc(e1, n, d - {Cls}));
    NewFieldsSurviveReferences(e1, n, i, before);
    NewFieldsSurviveCleanup(n, e1.now, RefsDoc(e1, n, i, before));
    DefaultFields(n, e1.now, e2.now);
    SettledNewFieldsFixed(e2, n, once);
  }

  lemma CleanupElsewhere(n: Name, d: Doc)
    requires n in REFERENCE_NAMES
    ensures CleanupDoc(n, d) == d
  {
  }

  lemma LaterPhasesTwice(e1: Env, e2: Env, n: Name, i: Id, d: Doc)
    ensures var once := CleanupDoc(n, RefsDoc(e1, n, i, d));
      CleanupDoc(n, RefsDoc(e2, n, i, once)) == once
  {
    if n in REFERENCE_NAMES {
      CleanupElsewhere(n, RefsDoc(e1, n, i, d));
      RefsTwice(e1, e2, n, i, d);
    } else {
      RefsElsewhere(e1, n, i, d);
      RefsElsewhere(e2, n, i, CleanupDoc(n, d));
      CleanupTwice(n, d);
    }
  }

  /** One document through two runs. */
  lemma DocTwice(e1: Env, e2: Env, n: Name, i: Id, d: Doc)
    requires RunAfter(e1, e2)
    ensures MigrateDoc(e2, n, i, MigrateDoc(e1, n, i, d)) == MigrateDoc(e1, n, i, d)
       <==> !FoundUnknownOwner(e1, n, d)
  {
    var once := MigrateDoc(e1, n, i, d);
    if FoundUnknownOwner(e1, n, d) {
      TeamOfItsOwner(e1, n, i, d);
      TeamStillMissing(e1, e2, n, i, d);
      TeamOfItsOwner(e2, n, i, once);
    } else {
      SecondRunDocs(e1, e2, n, i, d);
      LaterPhasesTwice(e1, e2, n, i, BeforeReferences(e1, n, d));
    }
  }

  lemma SupportedItem(d: Doc)
    requires !Unsupported(LibraryItem, d)
    ensures !Unsupported(LibraryItem, LibraryItemDoc(d))
  {
    ItemSettles(d);
    var normalized := Normalized(Kind, ConvertItem(d));
    assert Kind in normalized ==> normalized[Kind] !in UNSUPPORTED_KINDS;
    var filled := LIBRARY_ITEM_DEFAULTS + normalized;
    assert SameField(Kind, filled, normalized);
    assert SameField(Kind, CopyField(AddedAt, CreatedAt, filled), filled);
  }

  lemma SupportedRequest(e: Env, i: Id, d: Doc)
    requires !Unsupported(VerificationRequest, d)
    ensures !Unsupported(VerificationRequest, RequestDoc(e, i, d))
  {
  }

  /** In most of the collections that phase 4c converts, nothing else happens. */
  lemma OnlyReferences(e: Env, n: Name, i: Id, d: Doc)
    requires StrippedOnly(n) && !n.Unlisted?
    ensures MigrateDoc(e, n, i, d) == RefsDoc(e, n, i, d - {Cls})
  {
    PlainBeforeReferences(e, n, d);
    CleanupElsewhere(n, RefsDoc(e, n, i, d - {Cls}));
  }

  lemma MigratedItem(e: Env, i: Id, d: Doc)
    ensures MigrateDoc(e, LibraryItem, i, d) == LibraryItemDoc(d - {Cls})
  {
    hide MigrateDoc, LibraryItemDoc;
    OnlyReferences(e, LibraryItem, i, d);
  }

  lemma MigratedRequest(e: Env, i: Id, d: Doc)
    ensures MigrateDoc(e, VerificationRequest, i, d) == RequestDoc(e, i, d - {Cls})
  {
    hide MigrateDoc, RequestDoc;
    OnlyReferences(e, VerificationRequest, i, d);
  }

  lemma MigratedSource(e: Env, i: Id, d: Doc)
    ensures MigrateDoc(e, KnowledgeBaseSources, i, d) == KbSourceDoc(e, d - {Cls})
  {
    hide MigrateDoc, KbSourceDoc;
    OnlyReferences(e, KnowledgeBaseSources, i, d);
  }

  lemma MigratedCollection(e: Env, i: Id, d: Doc)
    ensures MigrateDoc(e, VerifiedCollection, i, d) == CollectionDoc(d - {Cls})
  {
    hide MigrateDoc, CollectionDoc;
    OnlyReferences(e, VerifiedCollection, i, d);
  }

  lemma UnsupportedStripped(n: Name, d: Doc)
    ensures Unsupported(n, d - {Cls}) == Unsupported(n, d)
  {
  }

  lemma KeptItemIsSupported(e: Env, i: Id, d: Doc)
    requires !Unsupported(LibraryItem, d)
    ensures !Unsupported(LibraryItem, MigrateDoc(e, LibraryItem, i, d))
  {
    MigratedItem(e, i, d);
    UnsupportedStripped(LibraryItem, d);
    SupportedItem(d - {Cls});
  }

  lemma KeptRequestIsSupported(e: Env, i: Id, d: Doc)
    requires !Unsupported(VerificationRequest, d)
    ensures !Unsupported(VerificationRequest, MigrateDoc(e, VerificationRequest, i, d))
  {
    MigratedRequest(e, i, d);
    UnsupportedStripped(VerificationRequest, d);
    SupportedRequest(e, i, d - {Cls});
  }

  /** Nothing the first run keeps is of an unsupported kind afterwards. */
  lemma KeptIsSupported(e: Env, n: Name, i: Id, d: Doc)
    requires !Unsupported(n, d)
    ensures !Unsupported(n, MigrateDoc(e, n, i, d))
  {
    if n == LibraryItem {
      KeptItemIsSupported(e, i, d);
    } else if n == VerificationRequest {
      KeptRequestIsSupported(e, i, d);
    }
  }

  lemma DocAtTwice(e1: Env, e2: Env, n: Name, docs: Docs, i: Id)
    requires RunAfter(e1, e2)
    ensures
      var once := MigratedDocs(e1, n, docs);
      var twice := MigratedDocs(e2, n, once);
      (i in twice <==> i in once) &&
      (i in once ==> i in docs && (twice[i] == once[i] <==> !FoundUnknownOwner(e1, n, docs[i])))
    ensures i in docs && FoundUnknownOwner(e1, n, docs[i]) ==> i in MigratedDocs(e1, n, docs)
  {
    var once := MigratedDocs(e1, n, docs);
    MigratedAt(e1, n, docs, i);
    MigratedAt(e2, n, once, i);
    if i in once {
      KeptIsSupported(e1, n, i, docs[i]);
      DocTwice(e1, e2, n, i, docs[i]);
    }
  }

  lemma EqualWhenStill(once: Docs, twice: Docs, docs: Docs, found: set<Id>)
    requires forall i :: i in twice <==> i in once
    requires forall i :: i in once ==> i in docs && (twice[i] == once[i] <==> i !in found)
    requires found <= once.Keys
    ensures twice == once <==> found == {}
  {
  }

  /** One collection through two runs. */
  lemma DocsTwice(e1: Env, e2: Env, n: Name, docs: Docs, once: Docs, found: set<Id>)
    requires RunAfter(e1, e2) && once == MigratedDocs(e1, n, docs)
    requires forall i :: i in found <==> i in docs && FoundUnknownOwner(e1, n, docs[i])
    ensures MigratedDocs(e2, n, once) == once <==> found == {}
  {
    forall i {
      DocAtTwice(e1, e2, n, docs, i);
    }
    EqualWhenStill(once, MigratedDocs(e2, n, once), docs, found);
  }
}
