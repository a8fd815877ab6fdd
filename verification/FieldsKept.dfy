/** What a run leaves alone: every field but those named here keeps its value. */
module FieldsKept {
  import opened Wrappers
  import opened Ids
  import opened Mongo
  import opened Conversion
  import opened Migration
  import opened ReferencePhases
  import opened MigrationRun
  import opened MigrationFacts
  import opened Idempotence
  import opened Outcomes

  /** The fields that a run takes away. */
  predicate Drops(n: Name, f: Field) {
    || f.Cls?
    || (f.Space? && n in TEAM_SCOPED + {SmartFolder, ActivityEvent})
    || (n.SearchSetItem? && f.SpaceId?)
    || (n.WorkflowResult? && f.TriggerEvent?)
    || (n.LibraryItem? && (f.Obj? || f.AddedAt?))
    || (n.KnowledgeBaseSources? && (f.KnowledgeBase? || f.Document?))
    || (n.VerificationRequest? && (f.ItemIdentifier? || f.LibraryItemRef? || f.ItemTitle?))
    || (n.VerifiedCollection? && f.Items?)
    || (n.VerifiedItemMetadata? && f.ItemIdentifier?)
    || (n.KnowledgeBases? && f.Sources?)
  }

  /** The fields whose values it may rewrite. */
  predicate Rewrites(n: Name, f: Field) {
    || (n.LibraryItem? && f.Kind?)
    || ((n.VerificationRequest? || n.VerifiedItemMetadata?) && f.ItemKind?)
    || IsReference(n, f)
  }

  predicate Stays(f: Field, d: Doc, after: Doc) {
    f in d ==> f in after && after[f] == d[f]
  }

  lemma SpacesKeep(e: Env, n: Name, d: Doc, f: Field)
    requires f.Space? ==> n !in TEAM_SCOPED + {SmartFolder, ActivityEvent}
    ensures Stays(f, d, SpaceDoc(e, n, d))
  {
    hide TeamFor;
  }

  lemma PhasesBeforeKeep(e: Env, n: Name, d: Doc, f: Field)
    requires !Drops(n, f)
    ensures Stays(f, d, BeforeReferences(e, n, d))
  {
    hide SpaceDoc, DefaultsDoc;
    var stripped := d - {Cls};
    if f in d {
      SpacesKeep(e, n, stripped, f);
      NewFieldsKeep(e, n, SpaceDoc(e, n, stripped), f);
    }
  }

  lemma ItemsKeepOthers(d: Doc, f: Field)
    requires !Drops(LibraryItem, f)
    ensures f in d ==> f in LibraryItemDoc(d) && (f.Kind? || LibraryItemDoc(d)[f] == d[f])
  {
    hide ItemKindOf, ExtractOid;
  }

  lemma SourcesKeepOthers(e: Env, d: Doc, f: Field)
    requires !Drops(KnowledgeBaseSources, f)
    ensures Stays(f, d, KbSourceDoc(e, d))
  {
    hide ExtractOid, KbUuidOf;
  }

  lemma ConversionKeeps(e: Env, i: Id, d: Doc, f: Field)
    ensures Stays(f, d, ConvertRequest(e, i, d))
  {
    hide Resolve;
  }

  lemma RequestsKeepOthers(e: Env, i: Id, d: Doc, f: Field)
    requires !Drops(VerificationRequest, f)
    ensures f in d ==> f in RequestDoc(e, i, d) && (f.ItemKind? || RequestDoc(e, i, d)[f] == d[f])
  {
    hide ConvertRequest;
    ConversionKeeps(e, i, d, f);
  }

  lemma CollectionsKeepOthers(d: Doc, f: Field)
    requires !Drops(VerifiedCollection, f)
    ensures Stays(f, d, CollectionDoc(d))
  {
    hide ShowItems;
  }

  lemma MetadataKeepOthers(d: Doc, f: Field)
    requires !Drops(VerifiedItemMetadata, f)
    ensures f in d ==> f in ItemMetadataDoc(d) && (f.ItemKind? || ItemMetadataDoc(d)[f] == d[f])
  {
  }

  lemma ReferencesKeep(e: Env, n: Name, i: Id, d: Doc, f: Field)
    requires !Drops(n, f)
    ensures f in d ==> f in RefsDoc(e, n, i, d) && (Rewrites(n, f) || RefsDoc(e, n, i, d)[f] == d[f])
  {
    hide LibraryItemDoc, KbSourceDoc, RequestDoc, CollectionDoc, ItemMetadataDoc, Drops;
    if n.LibraryItem? {
      ItemsKeepOthers(d, f);
    } else if n.KnowledgeBaseSources? {
      SourcesKeepOthers(e, d, f);
    } else if n.VerificationRequest? {
      RequestsKeepOthers(e, i, d, f);
    } else if n.VerifiedCollection? {
      CollectionsKeepOthers(d, f);
    } else if n.VerifiedItemMetadata? {
      MetadataKeepOthers(d, f);
    }
  }

  lemma ReferencesOf(n: Name, f: Field)
    ensures f in DbRefFields(n) <==> IsReference(n, f)
  {
  }

  lemma CleaningKeeps(n: Name, d: Doc, f: Field)
    requires !Drops(n, f)
    ensures f in d ==> f in CleanupDoc(n, d) && (Rewrites(n, f) || CleanupDoc(n, d)[f] == d[f])
  {
    hide Convertible, DbRefFields, IsReference;
    ReferencesOf(n, f);
  }

  /** A document that a run keeps has all its fields but those dropped, and all their values but
      those rewritten. */
  lemma OtherFieldsStay(e: Env, n: Name, i: Id, d: Doc, f: Field)
    requires f in d && !Drops(n, f)
    ensures var after := MigrateDoc(e, n, i, d);
      f in after && (Rewrites(n, f) || after[f] == d[f])
  {
    hide BeforeReferences, RefsDoc, CleanupDoc, Drops, Rewrites;
    var before := BeforeReferences(e, n, d);
    PhasesBeforeKeep(e, n, d, f);
    ReferencesKeep(e, n, i, before, f);
    CleaningKeeps(n, RefsDoc(e, n, i, before), f);
  }

  ghost predicate EmptyIn(m: Doc, f: Field) {
    f in m ==> !Truthy(m[f])
  }

  lemma AccountDefaultsEmpty(f: Field)
    ensures EmptyIn(USER_DEFAULTS, f) && EmptyIn(TEAM_DEFAULTS, f)
  {
  }

  lemma DocumentDefaultsEmpty(f: Field)
    ensures EmptyIn(SMART_DOCUMENT_DEFAULTS, f) || (f.UserId? && SMART_DOCUMENT_DEFAULTS[f] == Str(Unknown))
  {
  }

  lemma SearchSetDefaultsEmpty(f: Field)
    ensures EmptyIn(SEARCH_SET_DEFAULTS, f) || (f.SetType? && SEARCH_SET_DEFAULTS[f] == Str(Extraction))
    ensures EmptyIn(SEARCH_SET_ITEM_DEFAULTS, f)
  {
  }

  lemma WorkflowDefaultsEmpty(f: Field)
    ensures EmptyIn(WORKFLOW_DEFAULTS, f) && EmptyIn(WORKFLOW_RESULT_DEFAULTS, f)
  {
  }

  lemma SystemDefaultsEmpty(f: Field)
    ensures EmptyIn(SYSTEM_CONFIG_DEFAULTS, f) && EmptyIn(GRAPH_SUBSCRIPTION_DEFAULTS, f)
  {
  }

  lemma QualityDefaultsEmpty(f: Field)
    ensures EmptyIn(CHAT_MESSAGE_DEFAULTS, f) && EmptyIn(VERIFIED_ITEM_METADATA_DEFAULTS, f)
  {
  }

  lemma RecordDefaultsEmpty(now: Value, f: Field)
    ensures var m := ExtractionQualityDefaults(now); EmptyIn(m, f) || (f.CreatedAt? && m[f] == now)
  {
  }

  /** The values filled in are empty ones, apart from three: the owner of a document, the type of a
      search set, and the creation time of a quality record. */
  lemma DefaultsAreEmpty(n: Name, now: Value, f: Field)
    requires f in Defaults(n, now) && Truthy(Defaults(n, now)[f])
    ensures || (n.SmartDocument? && f.UserId? && Defaults(n, now)[f] == Str(Unknown))
            || (n.SearchSet? && f.SetType? && Defaults(n, now)[f] == Str(Extraction))
            || (n.ExtractionQualityRecord? && f.CreatedAt? && Defaults(n, now)[f] == now)
  {
    hide Truthy, USER_DEFAULTS, TEAM_DEFAULTS, SMART_DOCUMENT_DEFAULTS, SEARCH_SET_DEFAULTS, SEARCH_SET_ITEM_DEFAULTS,
      WORKFLOW_DEFAULTS, WORKFLOW_RESULT_DEFAULTS, CHAT_MESSAGE_DEFAULTS, SYSTEM_CONFIG_DEFAULTS,
      GRAPH_SUBSCRIPTION_DEFAULTS, VERIFIED_ITEM_METADATA_DEFAULTS, ExtractionQualityDefaults;
    AccountDefaultsEmpty(f);
    DocumentDefaultsEmpty(f);
    SearchSetDefaultsEmpty(f);
    WorkflowDefaultsEmpty(f);
    SystemDefaultsEmpty(f);
    QualityDefaultsEmpty(f);
    RecordDefaultsEmpty(now, f);
  }

  /** A field that a document did not have, of a collection without references to rewrite, is its team,
      a download path taken from its path, or has its default. */
  lemma AddedFields(e: Env, n: Name, i: Id, d: Doc, f: Field)
    requires n !in REFERENCE_NAMES && f !in d && f in MigrateDoc(e, n, i, d) && !IsReference(n, f)
    ensures || (n in TEAM_SCOPED && f.TeamId?)
            || (n.SmartDocument? && f.DownloadPath? && Path in d)
            || (f in Defaults(n, e.now) && MigrateDoc(e, n, i, d)[f] == Defaults(n, e.now)[f])
  {
    hide BeforeReferences, CleanupDoc, Defaults;
    var before := BeforeReferences(e, n, d);
    RefsElsewhere(e, n, i, before);
    CleanupAdds(n, before, f);
    AddedBefore(e, n, d, f);
  }

  lemma CleanupAdds(n: Name, d: Doc, f: Field)
    requires f in CleanupDoc(n, d) && !IsReference(n, f)
    ensures f in d && CleanupDoc(n, d)[f] == d[f]
  {
    hide Convertible, DbRefFields, IsReference;
    ReferencesOf(n, f);
  }

  lemma AddedBefore(e: Env, n: Name, d: Doc, f: Field)
    requires f !in d && f in BeforeReferences(e, n, d)
    ensures || (n in TEAM_SCOPED && f.TeamId?)
            || (n.SmartDocument? && f.DownloadPath? && Path in d)
            || (f in Defaults(n, e.now) && BeforeReferences(e, n, d)[f] == Defaults(n, e.now)[f])
  {
    hide Defaults, SpaceDoc, DefaultsDoc;
    var spaced := SpaceDoc(e, n, d - {Cls});
    if f in spaced {
      SpacesAdd(e, n, d - {Cls}, f);
    } else {
      if Path in spaced && Path !in d {
        SpacesAdd(e, n, d - {Cls}, Path);
      }
      if n.SmartDocument? {
        PathIsNoDefault(e.now);
      }
      NewlyFilled(e, n, spaced, f);
    }
  }

  lemma SpacesAdd(e: Env, n: Name, d: Doc, f: Field)
    requires f !in d && f in SpaceDoc(e, n, d)
    ensures n in TEAM_SCOPED && f.TeamId?
  {
    hide TeamFor;
  }

  lemma PathIsNoDefault(now: Value)
    ensures Path !in Defaults(SmartDocument, now)
  {
    hide SMART_DOCUMENT_DEFAULTS;
    DocumentDefaultsWithout();
  }

  lemma NewlyFilled(e: Env, n: Name, d: Doc, f: Field)
    requires f !in d && f in DefaultsDoc(e, n, d) && (n.SmartDocument? ==> Path !in Defaults(n, e.now))
    ensures || (n.SmartDocument? && f.DownloadPath? && Path in d)
            || (f in Defaults(n, e.now) && DefaultsDoc(e, n, d)[f] == Defaults(n, e.now)[f])
  {
    hide Defaults;
  }
}
