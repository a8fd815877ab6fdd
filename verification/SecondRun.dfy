/** Two complete live runs, one after the other, on a whole database. */
module SecondRun {
  import opened Wrappers
  import opened Ids
  import opened Mongo
  import opened Conversion
  import opened Migration
  import opened ReferencePhases
  import opened MigrationRun
  import opened MigrationFacts
  import opened Idempotence

  // ---------------------------------------------------------------------------
  // The second run knows what the first one knew
  // ---------------------------------------------------------------------------

  lemma UserBeforeReferences(e: Env, d: Doc, f: Field)
    requires f.UserId? || f.CurrentTeam?
    ensures SameField(f, BeforeReferences(e, User, d), d)
  {
    var spaced := SpaceDoc(e, User, d - {Cls});
    SpaceKeeps(e, User, d - {Cls}, f);
    if f in spaced {
      NewFieldsKeep(e, User, spaced, f);
    } else if f in DefaultsDoc(e, User, spaced) {
      NewFieldsAdd(e, User, spaced, f);
    }
  }

  lemma DereferencedOid(fs: set<Field>, d: Doc, f: Field)
    ensures f in Dereferenced(fs, d) <==> f in d
    ensures f in d ==> ExtractOid(Dereferenced(fs, d)[f]) == ExtractOid(d[f])
  {
  }

  /** A user keeps its id, and its team reference still leads to the same team. */
  lemma UserAfterRun(e: Env, i: Id, d: Doc)
    ensures SameField(UserId, MigrateDoc(e, User, i, d), d)
    ensures CurrentTeam in MigrateDoc(e, User, i, d) <==> CurrentTeam in d
    ensures CurrentTeam in d ==> ExtractOid(MigrateDoc(e, User, i, d)[CurrentTeam]) == ExtractOid(d[CurrentTeam])
  {
    var before := BeforeReferences(e, User, d);
    UserBeforeReferences(e, d, UserId);
    UserBeforeReferences(e, d, CurrentTeam);
    RefsElsewhere(e, User, i, before);
    CleanupKeeps(User, before, UserId);
    DereferencedOid(DbRefFields(User), before, CurrentTeam);
  }

  lemma UserReadTheSame(e: Env, i: Id, d: Doc, teams: Docs, teams': Docs, default: Option<Text>)
    requires teams.Keys == teams'.Keys
    ensures UidOf(MigrateDoc(e, User, i, d)) == UidOf(d)
    ensures TeamOf(teams', default, MigrateDoc(e, User, i, d)).Some? <==> TeamOf(teams, default, d).Some?
  {
    UserAfterRun(e, i, d);
  }

  lemma AllKept(e: Env, n: Name, docs: Docs)
    requires !n.LibraryItem? && !n.VerificationRequest?
    ensures MigratedDocs(e, n, docs).Keys == docs.Keys
  {
    forall i {
      MigratedAt(e, n, docs, i);
    }
  }

  lemma UsersReadTheSame(e: Env, users: Docs, i: Id, teams: Docs, teams': Docs, default: Option<Text>)
    requires teams.Keys == teams'.Keys
    ensures i in MigratedDocs(e, User, users) <==> i in users
    ensures i in users ==>
      UidOf(MigratedDocs(e, User, users)[i]) == UidOf(users[i]) &&
      (TeamOf(teams', default, MigratedDocs(e, User, users)[i]).Some? <==> TeamOf(teams, default, users[i]).Some?)
  {
    MigratedAt(e, User, users, i);
    if i in users {
      UserReadTheSame(e, i, users[i], teams, teams', default);
    }
  }

  /** Users and teams that answer preflight's questions alike. */
  ghost predicate ReadAlike(users: Docs, teams: Docs, users': Docs, teams': Docs, default: Option<Text>) {
    && (forall i :: i in users' <==> i in users)
    && (forall i :: i in users ==>
          UidOf(users'[i]) == UidOf(users[i]) &&
          (TeamOf(teams', default, users'[i]).Some? <==> TeamOf(teams, default, users[i]).Some?))
  }

  lemma SameUsersMapped(users: Docs, teams: Docs, m: map<Value, Value>,
                        users': Docs, teams': Docs, m': map<Value, Value>, default: Option<Text>)
    requires UserTeams(users, teams, default, m) && UserTeams(users', teams', default, m')
    requires ReadAlike(users, teams, users', teams', default)
    ensures m.Keys == m'.Keys
  {
  }

  /** `db2` has the live collections of `db1`; it may have more backups. */
  ghost predicate SameLive(db1: Colls, db2: Colls) {
    forall c: Coll :: c.Live? ==> (c in db2 <==> c in db1) && (c in db1 ==> db2[c] == db1[c])
  }

  lemma PlainAfterRun(e: Env, db: Colls, n: Name)
    requires NewName(n).None? && OldName(n).None?
    ensures Live(n) in Migrated(e, db) <==> Live(n) in db
    ensures Live(n) in db ==> Migrated(e, db)[Live(n)] == MigratedDocs(e, n, db[Live(n)])
  {
    assert Live(n) in Renamed(db) <==> Live(n) in db;
  }

  lemma MigratedNothing(e: Env, n: Name)
    ensures MigratedDocs(e, n, map[]) == map[]
  {
    forall i {
      MigratedAt(e, n, map[], i);
    }
  }

  lemma PlainDocsAfterRun(e: Env, db: Colls, n: Name)
    requires NewName(n).None? && OldName(n).None?
    ensures DocsIn(Migrated(e, db), Live(n)) == MigratedDocs(e, n, DocsIn(db, Live(n)))
  {
    PlainAfterRun(e, db, n);
    MigratedNothing(e, n);
  }

  lemma LiveDocs(db1: Colls, db2: Colls, n: Name)
    requires SameLive(db1, db2)
    ensures DocsIn(db2, Live(n)) == DocsIn(db1, Live(n))
  {
  }

  lemma LiveAfterRun(e: Env, db: Colls, db2: Colls, n: Name)
    requires SameLive(Migrated(e, db), db2) && NewName(n).None? && OldName(n).None?
    ensures DocsIn(db2, Live(n)) == MigratedDocs(e, n, DocsIn(db, Live(n)))
  {
    LiveDocs(Migrated(e, db), db2, n);
    PlainDocsAfterRun(e, db, n);
  }

  lemma KeysStay(e: Env, n: Name, docs: Docs, docs': Docs)
    requires docs' == MigratedDocs(e, n, docs) && !n.LibraryItem? && !n.VerificationRequest?
    ensures docs'.Keys == docs.Keys
  {
  }

  lemma TeamsStay(e: Env, db: Colls, db2: Colls, n: Name)
    requires SameLive(Migrated(e, db), db2) && n.Team?
    ensures DocsIn(db2, Live(n)).Keys == DocsIn(db, Live(n)).Keys
  {
    LiveAfterRun(e, db, db2, n);
    KeysStay(e, n, DocsIn(db, Live(n)), DocsIn(db2, Live(n)));
  }

  lemma UsersStay(e: Env, n: Name, users: Docs, users': Docs, teams: Docs, teams': Docs, default: Option<Text>)
    requires n.User? && users' == MigratedDocs(e, n, users) && teams.Keys == teams'.Keys
    ensures ReadAlike(users, teams, users', teams', default)
  {
    forall i {
      UsersReadTheSame(e, users, i, teams, teams', default);
    }
  }

  lemma DatabasesReadAlike(e: Env, db: Colls, db2: Colls, user: Name, team: Name, default: Option<Text>)
    requires SameLive(Migrated(e, db), db2) && user.User? && team.Team?
    ensures ReadAlike(DocsIn(db, Live(user)), DocsIn(db, Live(team)),
                      DocsIn(db2, Live(user)), DocsIn(db2, Live(team)), default)
  {
    TeamsStay(e, db, db2, team);
    LiveAfterRun(e, db, db2, user);
    UsersStay(e, user, DocsIn(db, Live(user)), DocsIn(db2, Live(user)),
              DocsIn(db, Live(team)), DocsIn(db2, Live(team)), default);
  }

  lemma SecondRunKnowsTheSame(e1: Env, e2: Env, db: Colls, db2: Colls)
    requires ReadOff(e1, db) && ReadOff(e2, db2) && e2.defaultTeam == e1.defaultTeam
    requires SameLive(Migrated(e1, db), db2)
    ensures RunAfter(e1, e2)
  {
    DatabasesReadAlike(e1, db, db2, User, Name.Team, e1.defaultTeam);
    SameUsersMapped(DocsIn(db, Live(User)), DocsIn(db, Live(Name.Team)), e1.teams,
                    DocsIn(db2, Live(User)), DocsIn(db2, Live(Name.Team)), e2.teams, e1.defaultTeam);
  }

  // ---------------------------------------------------------------------------
  // The second run changes nothing
  // ---------------------------------------------------------------------------

  /** `db2` holds what phases 3 and 4 make of the renamed collections `mid`. */
  ghost predicate LeftBy(e: Env, mid: Colls, db2: Colls) {
    forall c: Coll :: c.Live? ==>
      (c in db2 <==> c in mid) && (c in db2 ==> db2[c] == MigratedDocs(e, c.name, mid[c]))
  }

  lemma LeftByFirstRun(e: Env, mid: Colls, db2: Colls)
    requires SameLive(Rewritten(e, mid), db2)
    ensures LeftBy(e, mid, db2)
  {
  }

  lemma NothingLeftToMove(db: Colls, mid: Colls, n: Name)
    requires mid == Renamed(db)
    ensures !Moves(mid, n)
  {
  }

  lemma NoMoveNoRename(db: Colls)
    requires forall n :: !Moves(db, n)
    ensures Renamed(db) == db
  {
  }

  lemma StillRenamed(db: Colls, mid: Colls, db2: Colls)
    requires mid == Renamed(db) && forall c: Coll :: c.Live? ==> (c in db2 <==> c in mid)
    ensures Renamed(db2) == db2
  {
    forall n
      ensures !Moves(db2, n)
    {
      NothingLeftToMove(db, mid, n);
      assert Moves(db2, n) ==> Moves(mid, n);
    }
    NoMoveNoRename(db2);
  }

  /** Documents of the first run's input that a second run would find an owner for. */
  function UnknownOwners(e: Env, db: Colls): set<Id> {
    UnknownOwnersIn(e, DocsIn(db, Live(SmartDocument)))
  }

  function UnknownOwnersIn(e: Env, docs: Docs): set<Id> {
    set i | i in docs && FoundUnknownOwner(e, SmartDocument, docs[i])
  }

  lemma CollectionTwice(e1: Env, e2: Env, mid: Colls, db2: Colls, n: Name)
    requires RunAfter(e1, e2) && LeftBy(e1, mid, db2) && Live(n) in db2
    ensures MigratedDocs(e2, n, db2[Live(n)]) == db2[Live(n)] <==>
      (n.SmartDocument? ==> UnknownOwnersIn(e1, mid[Live(n)]) == {})
  {
    DocsTwice(e1, e2, n, mid[Live(n)], db2[Live(n)],
              if n.SmartDocument? then UnknownOwnersIn(e1, mid[Live(n)]) else {});
  }

  lemma RewrittenStill(e: Env, db: Colls)
    ensures Rewritten(e, db) == db <==> forall n :: Live(n) in db ==> MigratedDocs(e, n, db[Live(n)]) == db[Live(n)]
  {
  }

  lemma SmartDocumentsStay(db: Colls)
    ensures Live(SmartDocument) in Renamed(db) <==> Live(SmartDocument) in db
    ensures Live(SmartDocument) in db ==> Renamed(db)[Live(SmartDocument)] == db[Live(SmartDocument)]
  {
  }

  lemma RewrittenAgain(e1: Env, e2: Env, mid: Colls, db2: Colls)
    requires RunAfter(e1, e2) && LeftBy(e1, mid, db2)
    ensures Rewritten(e2, db2) == db2 <==>
      (Live(SmartDocument) in mid ==> UnknownOwnersIn(e1, mid[Live(SmartDocument)]) == {})
  {
    RewrittenStill(e2, db2);
    forall n | Live(n) in db2 {
      CollectionTwice(e1, e2, mid, db2, n);
    }
  }

  lemma MigratedAgain(e1: Env, e2: Env, db: Colls, db2: Colls)
    requires RunAfter(e1, e2) && SameLive(Migrated(e1, db), db2)
    ensures Migrated(e2, db2) == db2 <==> UnknownOwners(e1, db) == {}
  {
    var mid := Renamed(db);
    LeftByFirstRun(e1, mid, db2);
    StillRenamed(db, mid, db2);
    RewrittenAgain(e1, e2, mid, db2);
    SmartDocumentsStay(db);
  }

  /** A second complete live run, from the first one's result and whatever backups it made
      since, leaves every collection exactly as it is, unless some document without an owner
      or a team was in the first run's input, no default team is given, and a user is called
      "unknown". */
  lemma SecondRunChangesNothing(e1: Env, e2: Env, db: Colls, db2: Colls)
    requires ReadOff(e1, db) && ReadOff(e2, db2) && e2.defaultTeam == e1.defaultTeam
    requires SameLive(Migrated(e1, db), db2)
    ensures Migrated(e2, db2) == db2 <==> UnknownOwners(e1, db) == {}
  {
    SecondRunKnowsTheSame(e1, e2, db, db2);
    MigratedAgain(e1, e2, db, db2);
  }

  /** A witness: a user called "unknown" with a team, and a document without owner and team. */
  function UnknownUser(u: Id, t: Id): Colls {
    map[Live(User) := map[u := map[UserId := Str(Text.Unknown), CurrentTeam := Oid(t)]],
        Live(Name.Team) := map[t := map[]], Live(SmartDocument) := map[t := map[]]]
  }

  lemma UnknownUserMapped(e: Env, u: Id, t: Id)
    requires ReadOff(e, UnknownUser(u, t))
    ensures Str(Text.Unknown) in e.teams
  {
    var users, teams := DocsIn(UnknownUser(u, t), Live(User)), DocsIn(UnknownUser(u, t), Live(Name.Team));
    assert u in users && UidOf(users[u]) == Some(Str(Text.Unknown)) && TeamOf(teams, e.defaultTeam, users[u]).Some?;
  }

  /** The second run finds the document an owner, and does not leave it as it is. */
  lemma UnknownUserGetsDocuments(e1: Env, e2: Env, u: Id, t: Id, db2: Colls)
    requires ReadOff(e1, UnknownUser(u, t)) && ReadOff(e2, db2) && e1.defaultTeam.None? && e2.defaultTeam.None?
    requires SameLive(Migrated(e1, UnknownUser(u, t)), db2)
    ensures Migrated(e2, db2) != db2
  {
    var db := UnknownUser(u, t);
    UnknownUserMapped(e1, u, t);
    SecondRunChangesNothing(e1, e2, db, db2);
    assert t in DocsIn(db, Live(SmartDocument)) && FoundUnknownOwner(e1, SmartDocument, map[]);
    assert t in UnknownOwners(e1, db);
  }
}
