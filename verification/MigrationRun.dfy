/**
 A complete run of `migrate_flask_to_beanie.py`: preflight, backups, phases 2-4.
 */
module MigrationRun {
  import opened Wrappers
  import opened Ids
  import opened Mongo
  import opened Conversion
  import opened Migration
  import opened ReferencePhases
  import opened Backups

  // ---------------------------------------------------------------------------
  // The run, one document at a time
  // ---------------------------------------------------------------------------

  function DocsBeforeReferences(e: Env, n: Name, docs: Docs): Docs {
    NewFieldDocs(e, n, SpaceDocs(e, n, Stripped({Cls}, docs)))
  }

  /** The documents of one collection after every phase. */
  function MigratedDocs(e: Env, n: Name, docs: Docs): Docs {
    CleanDocs(n, RefDocs(e, n, DocsBeforeReferences(e, n, docs)))
  }

  /** Phases 3 and 4 on a database whose collections have their new names. */
  function Rewritten(e: Env, db: Colls): Colls {
    map c | c in db :: if c.Live? then MigratedDocs(e, c.name, db[c]) else db[c]
  }

  /** Phases 2-4. */
  function Migrated(e: Env, db: Colls): Colls {
    Rewritten(e, Renamed(db))
  }

  // ---------------------------------------------------------------------------
  // The phases compose to it
  // ---------------------------------------------------------------------------

  /** Collections that phases 3, 4a and 4b only strip of `_cls`. */
  predicate StrippedOnly(n: Name) {
    n.LibraryItem? || n.VerificationRequest? || n.KnowledgeBaseSources? || n.VerifiedCollection? || n.Unlisted?
  }

  lemma NoNewFields(e: Env, n: Name, d: Doc)
    requires StrippedOnly(n)
    ensures DefaultsDoc(e, n, d) == d
  {
    assert Defaults(n, e.now) == map[];
    DefaultsOnlyDoc(e, n, d);
    assert map[] + d == d;
  }

  lemma PlainBeforeReferences(e: Env, n: Name, d: Doc)
    requires StrippedOnly(n)
    ensures BeforeReferences(e, n, d) == d - {Cls}
  {
    var stripped := d - {Cls};
    assert SpaceDoc(e, n, stripped) == stripped;
    NoNewFields(e, n, stripped);
  }

  lemma UnsupportedKept(e: Env, n: Name, d: Doc)
    ensures Unsupported(n, BeforeReferences(e, n, d)) == Unsupported(n, d)
  {
    if n.LibraryItem? || n.VerificationRequest? {
      PlainBeforeReferences(e, n, d);
    }
  }

  lemma BeforeReferencesAt(e: Env, n: Name, docs: Docs, i: Id)
    ensures i in DocsBeforeReferences(e, n, docs) <==> i in docs
    ensures i in docs ==> DocsBeforeReferences(e, n, docs)[i] == BeforeReferences(e, n, docs[i])
  {
  }

  lemma ReferencedItems(e: Env, docs: Docs)
    ensures RefDocs(e, LibraryItem, docs)
         == map i | i in docs && !Unsupported(LibraryItem, docs[i]) :: RefsDoc(e, LibraryItem, i, docs[i])
  {
  }

  lemma ReferencedSources(e: Env, docs: Docs)
    ensures RefDocs(e, KnowledgeBaseSources, docs)
         == map i | i in docs && !Unsupported(KnowledgeBaseSources, docs[i]) :: RefsDoc(e, KnowledgeBaseSources, i, docs[i])
  {
  }

  lemma ReferencedRequests(e: Env, docs: Docs)
    ensures RefDocs(e, VerificationRequest, docs)
         == map i | i in docs && !Unsupported(VerificationRequest, docs[i]) :: RefsDoc(e, VerificationRequest, i, docs[i])
  {
  }

  lemma ReferencedCollections(e: Env, docs: Docs)
    ensures RefDocs(e, VerifiedCollection, docs)
         == map i | i in docs && !Unsupported(VerifiedCollection, docs[i]) :: RefsDoc(e, VerifiedCollection, i, docs[i])
  {
  }

  lemma ReferencedMetadata(e: Env, docs: Docs)
    ensures RefDocs(e, VerifiedItemMetadata, docs)
         == map i | i in docs && !Unsupported(VerifiedItemMetadata, docs[i]) :: RefsDoc(e, VerifiedItemMetadata, i, docs[i])
  {
  }

  lemma RestUntouched(e: Env, n: Name, i: Id, d: Doc)
    requires n !in REFERENCE_NAMES
    ensures !Unsupported(n, d) && RefsDoc(e, n, i, d) == d
  {
  }

  lemma RestStays(e: Env, n: Name, docs: Docs)
    requires n !in REFERENCE_NAMES
    ensures RefDocs(e, n, docs) == docs
  {
  }

  lemma ReferencedRest(e: Env, n: Name, docs: Docs)
    requires n !in REFERENCE_NAMES
    ensures RefDocs(e, n, docs) == map i | i in docs && !Unsupported(n, docs[i]) :: RefsDoc(e, n, i, docs[i])
  {
    RestStays(e, n, docs);
    forall i | i in docs {
      RestUntouched(e, n, i, docs[i]);
    }
  }

  lemma ReferencedDocs(e: Env, n: Name, docs: Docs)
    ensures RefDocs(e, n, docs) == map i | i in docs && !Unsupported(n, docs[i]) :: RefsDoc(e, n, i, docs[i])
  {
    match n
    case LibraryItem => ReferencedItems(e, docs);
    case KnowledgeBaseSources => ReferencedSources(e, docs);
    case VerificationRequest => ReferencedRequests(e, docs);
    case VerifiedCollection => ReferencedCollections(e, docs);
    case VerifiedItemMetadata => ReferencedMetadata(e, docs);
    case _ => ReferencedRest(e, n, docs);
  }

  lemma ReferencedAt(e: Env, n: Name, docs: Docs, i: Id)
    ensures i in RefDocs(e, n, docs) <==> i in docs && !Unsupported(n, docs[i])
    ensures i in RefDocs(e, n, docs) ==> RefDocs(e, n, docs)[i] == RefsDoc(e, n, i, docs[i])
  {
    ReferencedDocs(e, n, docs);
  }

  lemma CleanAt(n: Name, docs: Docs, i: Id)
    ensures i in CleanDocs(n, docs) <==> i in docs
    ensures i in docs ==> CleanDocs(n, docs)[i] == CleanupDoc(n, docs[i])
  {
  }

  /** All the bulk writes together keep exactly the documents that were not of an
      unsupported kind, and rewrite each as `MigrateDoc` says. */
  lemma MigratedAt(e: Env, n: Name, docs: Docs, i: Id)
    ensures i in MigratedDocs(e, n, docs) <==> i in docs && !Unsupported(n, docs[i])
    ensures i in MigratedDocs(e, n, docs) ==> MigratedDocs(e, n, docs)[i] == MigrateDoc(e, n, i, docs[i])
  {
    var before := DocsBeforeReferences(e, n, docs);
    BeforeReferencesAt(e, n, docs, i);
    ReferencedAt(e, n, before, i);
    CleanAt(n, RefDocs(e, n, before), i);
    if i in docs {
      UnsupportedKept(e, n, docs[i]);
    }
  }

  /** Phases 3 and 4, one after the other. */
  function AllStages(e: Env, db: Colls): Colls {
    Each(e, Cleanup, Each(e, References, Each(e, NewFields, Each(e, Spaces, Each(e, StripCls, db)))))
  }

  /** The documents of collection `n` up to phase 4c. */
  lemma BeforeReferencesIn(e: Env, db: Colls, n: Name)
    requires Live(n) in db
    ensures
      var before := Each(e, NewFields, Each(e, Spaces, Each(e, StripCls, db)));
      Live(n) in before && before[Live(n)] == DocsBeforeReferences(e, n, db[Live(n)])
  {
  }

  lemma StagesCompose(e: Env, db: Colls)
    ensures AllStages(e, db) == Rewritten(e, db)
  {
  }

  // ---------------------------------------------------------------------------
  // Phase 0: preflight
  // ---------------------------------------------------------------------------

  /** The document counts that preflight records. */
  function PreCounts(db: Colls): map<Coll, nat> {
    map c | c in db && !c.Internal? :: |db[c]|
  }

  function TeamUuid(i: Id, team: Doc): Value {
    if Uuid in team then team[Uuid] else TextOf(Oid(i))
  }

  /** The `user_id` of a user document, when it has one. */
  function UidOf(user: Doc): Option<Value> {
    if UserId in user && Truthy(user[UserId]) then Some(user[UserId]) else None
  }

  /** The team a user's content goes to. */
  function TeamOf(teams: Docs, default: Option<Text>, user: Doc): Option<Value> {
    var oid := if CurrentTeam in user then ExtractOid(user[CurrentTeam]) else None;
    if oid.Some? && oid.value in teams then Some(TeamUuid(oid.value, teams[oid.value]))
    else if Given(default) then Some(Str(default.value))
    else None
  }

  /** `m` is a user -> team map that some order of reading the users produces. */
  ghost predicate UserTeams(users: Docs, teams: Docs, default: Option<Text>, m: map<Value, Value>) {
    && (forall u :: u in m ==> exists i :: i in users && UidOf(users[i]) == Some(u)
                                       && TeamOf(teams, default, users[i]) == Some(m[u]))
    && (forall i :: i in users && UidOf(users[i]).Some? && TeamOf(teams, default, users[i]).Some? ==>
          UidOf(users[i]).value in m)
  }

  function KbUuids(kbs: Docs): map<Id, Value> {
    map i | i in kbs :: if Uuid in kbs[i] then kbs[i][Uuid] else Str(Text.Empty)
  }

  /** What a run knows, as preflight reads it off the database. */
  ghost predicate ReadOff(e: Env, db: Colls) {
    && UserTeams(DocsIn(db, Live(User)), DocsIn(db, Live(Name.Team)), e.defaultTeam, e.teams)
    && e.kbUuid == KbUuids(DocsIn(db, Live(KnowledgeBases)))
    && e.searchSetUuid == Uuids(DocsIn(db, Live(SearchSet)))
  }

  method ReadUserTeams(db: Database, default: Option<Text>) returns (m: map<Value, Value>)
    ensures UserTeams(DocsIn(db.colls, Live(User)), DocsIn(db.colls, Live(Name.Team)), default, m)
  {
    var users, teams := DocsIn(db.colls, Live(User)), DocsIn(db.colls, Live(Name.Team));
    var left := users.Keys;
    m := map[];
    while left != {}
      invariant left <= users.Keys
      invariant UserTeams(map i | i in users && i !in left :: users[i], teams, default, m)
    {
      var i :| i in left;
      ghost var seen := map j | j in users && j !in left :: users[j];
      left := left - {i};
      ghost var seen' := map j | j in users && j !in left :: users[j];
      assert seen' == seen[i := users[i]];
      var uid, team := UidOf(users[i]), TeamOf(teams, default, users[i]);
      if uid.Some? && team.Some? {
        OneMoreUser(seen, teams, default, m, i, users[i]);
        m := m[uid.value := team.value];
      } else {
        NoSuchUser(seen, teams, default, m, i, users[i]);
      }
    }
    assert (map i | i in users && i !in left :: users[i]) == users;
  }

  lemma OneMoreUser(seen: Docs, teams: Docs, default: Option<Text>, m: map<Value, Value>, i: Id, user: Doc)
    requires UserTeams(seen, teams, default, m) && i !in seen
    requires UidOf(user).Some? && TeamOf(teams, default, user).Some?
    ensures UserTeams(seen[i := user], teams, default, m[UidOf(user).value := TeamOf(teams, default, user).value])
  {
    var seen', m' := seen[i := user], m[UidOf(user).value := TeamOf(teams, default, user).value];
    forall u | u in m'
      ensures exists j :: j in seen' && UidOf(seen'[j]) == Some(u) && TeamOf(teams, default, seen'[j]) == Some(m'[u])
    {
      if u == UidOf(user).value {
        assert seen'[i] == user;
      } else {
        var j :| j in seen && UidOf(seen[j]) == Some(u) && TeamOf(teams, default, seen[j]) == Some(m[u]);
        assert seen'[j] == seen[j];
      }
    }
  }

  lemma NoSuchUser(seen: Docs, teams: Docs, default: Option<Text>, m: map<Value, Value>, i: Id, user: Doc)
    requires UserTeams(seen, teams, default, m) && i !in seen
    requires UidOf(user).None? || TeamOf(teams, default, user).None?
    ensures UserTeams(seen[i := user], teams, default, m)
  {
    var seen' := seen[i := user];
    forall u | u in m
      ensures exists j :: j in seen' && UidOf(seen'[j]) == Some(u) && TeamOf(teams, default, seen'[j]) == Some(m[u])
    {
      var j :| j in seen && UidOf(seen[j]) == Some(u) && TeamOf(teams, default, seen[j]) == Some(m[u]);
      assert seen'[j] == seen[j];
    }
  }

  /** Phase 0. The clock and ObjectId() are parameters of the run. */
  method Phase0Preflight(db: Database, default: Option<Text>, now: Value, parseOid: (Id, Value) -> Option<Id>)
    returns (pre: map<Coll, nat>, e: Env)
    ensures pre == PreCounts(db.colls)
    ensures ReadOff(e, db.colls)
    ensures e.defaultTeam == default && e.now == now && e.parseOid == parseOid
  {
    pre := PreCounts(db.colls);
    var teams := ReadUserTeams(db, default);
    var kbs := KbUuids(DocsIn(db.colls, Live(KnowledgeBases)));
    e := Env(teams, default, kbs, Uuids(DocsIn(db.colls, Live(SearchSet))), now, parseOid);
  }

  // ---------------------------------------------------------------------------
  // Phases 2-4
  // ---------------------------------------------------------------------------

  lemma UuidKept(e: Env, d: Doc)
    ensures Uuid in BeforeReferences(e, SearchSet, d) <==> Uuid in d
    ensures Uuid in d ==> BeforeReferences(e, SearchSet, d)[Uuid] == d[Uuid]
  {
  }

  lemma UuidsKept(e: Env, docs: Docs)
    ensures Uuids(DocsBeforeReferences(e, SearchSet, docs)) == Uuids(docs)
  {
    var before := DocsBeforeReferences(e, SearchSet, docs);
    forall i
      ensures i in Uuids(before) <==> i in Uuids(docs)
      ensures i in Uuids(docs) ==> Uuids(before)[i] == Uuids(docs)[i]
    {
      BeforeReferencesAt(e, SearchSet, docs, i);
      if i in docs {
        UuidKept(e, docs[i]);
      }
    }
  }

  /** Phases 3, 4a and 4b leave the search sets' uuids alone, so phase 4c looks requests
      up in what preflight saw. */
  lemma SearchSetsBeforeReferences(e: Env, db: Colls)
    ensures Uuids(DocsIn(Each(e, NewFields, Each(e, Spaces, Each(e, StripCls, db))), Live(SearchSet)))
         == Uuids(DocsIn(db, Live(SearchSet)))
  {
    if Live(SearchSet) in db {
      BeforeReferencesIn(e, db, SearchSet);
      UuidsKept(e, db[Live(SearchSet)]);
    }
  }

  method Phase4Migrations(db: Database, e: Env, dryRun: bool)
    requires db.Valid()
    requires e.searchSetUuid ==
      Uuids(DocsIn(if dryRun then db.colls else Each(e, NewFields, Each(e, Spaces, db.colls)), Live(SearchSet)))
    modifies db
    ensures Grown(db)
    ensures db.colls == if dryRun then old(db.colls)
      else Each(e, Cleanup, Each(e, References, Each(e, NewFields, Each(e, Spaces, old(db.colls)))))
  {
    Phase4aSpaces(db, e, dryRun);
    Phase4bNewFields(db, e, dryRun);
    Phase4cReferences(db, e, dryRun);
    Phase4dCleanup(db, e, dryRun);
  }
}
