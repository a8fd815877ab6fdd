/** `main` of `migrate_flask_to_beanie.py`: the complete run, and what it guarantees. */
module FullRun {
  import opened Wrappers
  import opened Ids
  import opened Mongo
  import opened Conversion
  import opened Migration
  import opened ReferencePhases
  import opened MigrationRun
  import opened Backups
  import opened RollbackTheorem
  import opened SecondRun
  import opened Verifier
  import opened Verdict
  import opened Outcomes

  lemma ReadOffKept(e: Env, before: Colls, a: Colls, names: set<Name>, stamp: nat)
    requires HasBackups(before, a, names, stamp)
    ensures SameLive(before, a)
    ensures ReadOff(e, before) ==> ReadOff(e, a)
  {
    LiveDocs(before, a, User);
    LiveDocs(before, a, Name.Team);
    LiveDocs(before, a, KnowledgeBases);
    LiveDocs(before, a, SearchSet);
  }

  lemma SearchSetsAfterRenames(db: Colls)
    ensures DocsIn(Renamed(db), Live(SearchSet)) == DocsIn(db, Live(SearchSet))
  {
  }

  /** Phases 3 and 4. */
  method RewritingPhases(db: Database, e: Env, dryRun: bool)
    requires db.Valid()
    requires e.searchSetUuid == Uuids(DocsIn(db.colls, Live(SearchSet)))
    modifies db
    ensures Grown(db)
    ensures db.colls == if dryRun then old(db.colls) else Rewritten(e, old(db.colls))
  {
    SearchSetsBeforeReferences(e, db.colls);
    StagesCompose(e, db.colls);
    Phase3ClsRemoval(db, e, dryRun);
    Phase4Migrations(db, e, dryRun);
  }

  /** Phases 2-4 in order. */
  method Phases(db: Database, e: Env, dryRun: bool)
    requires db.Valid()
    requires e.searchSetUuid == Uuids(DocsIn(db.colls, Live(SearchSet)))
    modifies db
    ensures Grown(db)
    ensures db.colls == if dryRun then old(db.colls) else Migrated(e, old(db.colls))
  {
    SearchSetsAfterRenames(db.colls);
    Phase2Renames(db, dryRun);
    RewritingPhases(db, e, dryRun);
  }

  lemma NoIssues(issues: seq<Issue>, e: Env, a: Colls, pre: map<Coll, nat>)
    requires Baseline(a, pre) && forall x :: x in issues <==> IsIssue(Migrated(e, a), pre, x)
    ensures issues == [] <==> Resolvable(e, a)
  {
    CleanVerdict(e, a, pre);
    assert issues != [] ==> issues[0] in issues;
  }

  lemma RollbackWorks(a: Colls, log: seq<Write>, m: Manifest)
    requires JustBackedUp(a, m) && ScopedLog(log)
    ensures forall k, order :: 0 <= k <= |log| && Alphabetical(order, m.names) ==>
      (Restored(a, RolledBack(Replay(a, log[..k]), m, order)) <==> NoClash(a))
  {
    forall k, order | 0 <= k <= |log| && Alphabetical(order, m.names) {
      RollbackFromAnyPoint(a, log, k, m, order);
    }
  }

  ghost function RolledBack(b: Colls, m: Manifest, order: seq<Name>): Colls {
    RestoreAll(b, b.Keys, m.stamp, order)
  }

  /** The whole script. A live run ends in the documents that `Migrated` makes of the state
      phase 1 left; everything that it changes was backed up before; documents without a team have
      their owner's; it reports no issue exactly when everything was resolvable beforehand; and from
      any point of it, a rollback restores every named collection exactly when no renamed one had
      documents under both names. A dry run changes nothing. */
  method Run(db: Database, default: Option<Text>, now: Value, parseOid: (Id, Value) -> Option<Id>,
             stamp: nat, dryRun: bool)
    returns (issues: seq<Issue>, manifest: Manifest, e: Env)
    requires db.Valid() && forall n :: Backup(n, stamp) !in db.colls
    modifies db
    ensures db.Valid() && ReadOff(e, old(db.colls)) && e.defaultTeam == default
    ensures forall x :: x in issues <==> IsIssue(db.colls, PreCounts(old(db.colls)), x)
    ensures dryRun ==> db.colls == old(db.colls)
    ensures !dryRun ==>
      && HasBackups(old(db.colls), db.origin, manifest.names, stamp)
      && db.colls == Replay(db.origin, db.log) == Migrated(e, db.origin)
      && (issues == [] <==> Resolvable(e, db.origin))
      && ChangesBackedUp(e, old(db.colls), db.origin, stamp)
      && TeamsFromOwners(db.origin, default, db.colls)
    ensures !dryRun ==> forall k, order :: 0 <= k <= |db.log| && Alphabetical(order, manifest.names) ==>
      (Restored(db.origin, RolledBack(Replay(db.origin, db.log[..k]), manifest, order)) <==> NoClash(db.origin))
  {
    var pre;
    pre, e := Phase0Preflight(db, default, now, parseOid);
    manifest := Phase1Backups(db, stamp, dryRun);
    ghost var a := db.colls;
    if !dryRun {
      ReadOffKept(e, old(db.colls), a, manifest.names, stamp);
      BaselineOfRun(old(db.colls), a, manifest.names, stamp);
      BackupsJustMade(old(db.colls), a, manifest);
      AllChangesBackedUp(e, old(db.colls), a, stamp);
      AllTeamsFromOwners(e, a);
    }
    Phases(db, e, dryRun);
    issues := Phase5Verify(db, pre);
    if !dryRun {
      NoIssues(issues, e, a, pre);
      RollbackWorks(a, db.log, manifest);
    }
  }
}
