/**
 What the migration does to single fields of a document, and its consequences:
 nothing is lost, and running it twice is the same as running it once.
 */
module MigrationFacts {
  import opened Wrappers
  import opened Ids
  import opened Mongo
  import opened Conversion
  import opened Migration
  import opened MigrationRun

  // ---------------------------------------------------------------------------
  // One field through one stage
  // ---------------------------------------------------------------------------

  /** `f` is in both documents, with one value, or in neither. */
  predicate SameField(f: Field, a: Doc, b: Doc) {
    (f in a <==> f in b) && (f in a ==> a[f] == b[f])
  }

  lemma SpaceKeeps(e: Env, n: Name, d: Doc, f: Field)
    requires f != TeamId && f != Space
    ensures SameField(f, SpaceDoc(e, n, d), d)
  {
  }

  lemma NewFieldsKeep(e: Env, n: Name, d: Doc, f: Field)
    requires f in d && f !in Obsolete(n)
    ensures SameField(f, DefaultsDoc(e, n, d), d)
  {
  }

  lemma NewFieldsAdd(e: Env, n: Name, d: Doc, f: Field)
    requires f in DefaultsDoc(e, n, d) && f !in d
    ensures f in Defaults(n, e.now) || (n.SmartDocument? && f == DownloadPath)
  {
  }

  lemma CleanupKeeps(n: Name, d: Doc, f: Field)
    requires f != Sources
    ensures f in CleanupDoc(n, d) <==> f in d
    ensures f in d && f !in DbRefFields(n) ==> CleanupDoc(n, d)[f] == d[f]
  {
  }

  /** Fields that no reference conversion reads or writes. */
  predicate Aside(f: Field) {
    f.Cls? || f.TeamId? || f.Space? || f.UserId? || f.Uuid? || f.CurrentTeam? || f.DownloadPath? || f.Path?
  }

  lemma ItemsKeep(d: Doc, f: Field)
    requires Aside(f)
    ensures SameField(f, LibraryItemDoc(d), d)
  {
  }

  lemma SourcesKeep(e: Env, d: Doc, f: Field)
    requires Aside(f)
    ensures SameField(f, KbSourceDoc(e, d), d)
  {
  }

  lemma RequestsKeep(e: Env, i: Id, d: Doc, f: Field)
    requires Aside(f)
    ensures SameField(f, RequestDoc(e, i, d), d)
  {
  }

  lemma CollectionsKeep(d: Doc, f: Field)
    requires Aside(f)
    ensures SameField(f, CollectionDoc(d), d)
  {
  }

  lemma MetadataKeep(d: Doc, f: Field)
    requires Aside(f)
    ensures SameField(f, ItemMetadataDoc(d), d)
  {
  }

  lemma RefsKeep(e: Env, n: Name, i: Id, d: Doc, f: Field)
    requires Aside(f)
    ensures SameField(f, RefsDoc(e, n, i, d), d)
  {
    if n.LibraryItem? {
      ItemsKeep(d, f);
    } else if n.KnowledgeBaseSources? {
      SourcesKeep(e, d, f);
    } else if n.VerificationRequest? {
      RequestsKeep(e, i, d, f);
    } else if n.VerifiedCollection? {
      CollectionsKeep(d, f);
    } else if n.VerifiedItemMetadata? {
      MetadataKeep(d, f);
    }
  }

  // ---------------------------------------------------------------------------
  // Conservation: what a run never changes
  // ---------------------------------------------------------------------------

  lemma TeamAfterSpaces(e: Env, n: Name, d: Doc)
    ensures TeamId in d ==> SameField(TeamId, SpaceDoc(e, n, d), d)
    ensures SpaceScoped(n) && TeamId !in d ==>
      (TeamId in SpaceDoc(e, n, d) <==> TeamFor(e, d).Some?) &&
      (TeamFor(e, d).Some? ==> SpaceDoc(e, n, d)[TeamId] == TeamFor(e, d).value)
  {
  }

  lemma TeamForStripped(e: Env, d: Doc)
    ensures TeamFor(e, d - {Cls}) == TeamFor(e, d)
  {
  }

  lemma TeamAfterNewFields(e: Env, n: Name, d: Doc)
    requires TeamId in d || SpaceScoped(n)
    ensures SameField(TeamId, DefaultsDoc(e, n, d), d)
  {
    if TeamId in d {
      NewFieldsKeep(e, n, d, TeamId);
    } else {
      assert TeamId !in Defaults(n, e.now);
      if TeamId in DefaultsDoc(e, n, d) {
        NewFieldsAdd(e, n, d, TeamId);
      }
    }
  }

  /** Phases 4c and 4d keep a field they do not convert. */
  lemma LaterPhasesKeep(e: Env, n: Name, i: Id, d: Doc, f: Field)
    requires Aside(f)
    ensures f in CleanupDoc(n, RefsDoc(e, n, i, d)) <==> f in d
    ensures f in d && f !in DbRefFields(n) ==> CleanupDoc(n, RefsDoc(e, n, i, d))[f] == d[f]
  {
    RefsKeep(e, n, i, d, f);
    CleanupKeeps(n, RefsDoc(e, n, i, d), f);
  }

  lemma TeamAfterLaterPhases(e: Env, n: Name, i: Id, before: Doc, final: Doc)
    requires final == CleanupDoc(n, RefsDoc(e, n, i, before))
    ensures SameField(TeamId, final, before)
  {
    hide CleanupDoc, RefsDoc;
    LaterPhasesKeep(e, n, i, before, TeamId);
  }

  /** The rest of the run keeps the team that phase 4a settled. */
  lemma TeamAfterRun(e: Env, n: Name, i: Id, d: Doc, spaced: Doc)
    requires spaced == SpaceDoc(e, n, d - {Cls}) && (TeamId in spaced || SpaceScoped(n))
    ensures SameField(TeamId, MigrateDoc(e, n, i, d), spaced)
  {
    TeamAfterNewFields(e, n, spaced);
    TeamAfterLaterPhases(e, n, i, BeforeReferences(e, n, d), MigrateDoc(e, n, i, d));
  }

  /** A team a document has is never changed. */
  lemma TeamNeverChanges(e: Env, n: Name, i: Id, d: Doc)
    requires TeamId in d
    ensures TeamId in MigrateDoc(e, n, i, d) && MigrateDoc(e, n, i, d)[TeamId] == d[TeamId]
  {
    TeamAfterSpaces(e, n, d - {Cls});
    TeamAfterRun(e, n, i, d, SpaceDoc(e, n, d - {Cls}));
  }

  /** A document without one gets its owner's team, else the default team, else none,
      whatever the order in which the users were visited. */
  lemma TeamOfItsOwner(e: Env, n: Name, i: Id, d: Doc)
    requires SpaceScoped(n) && TeamId !in d
    ensures TeamId in MigrateDoc(e, n, i, d) <==> TeamFor(e, d).Some?
    ensures TeamFor(e, d).Some? ==> MigrateDoc(e, n, i, d)[TeamId] == TeamFor(e, d).value
  {
    TeamForStripped(e, d);
    TeamAfterSpaces(e, n, d - {Cls});
    TeamAfterRun(e, n, i, d, SpaceDoc(e, n, d - {Cls}));
  }
}
