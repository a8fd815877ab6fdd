/** Default-team creation followed by the migration without a default team. */
module Pipeline {
  import opened Wrappers
  import opened Ids
  import opened Mongo
  import opened Conversion
  import opened Migration
  import opened MigrationRun
  import opened SecondRun
  import opened Verdict
  import opened DefaultTeams
  import opened FullRun

  /** A current team that is set but is not, or does not refer to, one of `teams`. */
  predicate Dangles(teams: Docs, user: Doc) {
    && !Orphan(user)
    && !(ExtractOid(user[CurrentTeam]).Some? && ExtractOid(user[CurrentTeam]).value in teams)
  }

  /** Some user goes by `uid` and has a team, or will be given one. */
  ghost predicate Housed(users: Docs, teams: Docs, uid: Value) {
    exists i :: i in users && UidOf(users[i]) == Some(uid) && !Dangles(teams, users[i])
  }

  /** A document of before both scripts that ends up kept and without a team. */
  ghost predicate LeftOut(users: Docs, teams: Docs, n: Name, d: Doc) {
    TeamId !in d && if UserId in d then !Housed(users, teams, d[UserId]) else n.KnowledgeBases?
  }

  // ---------------------------------------------------------------------------
  // Users
  // ---------------------------------------------------------------------------

  lemma ServedUser(user: Doc, user': Doc, teams: Docs, members: Docs)
    requires UserServed(user, user', teams, members)
    ensures UidOf(user') == UidOf(user)
    ensures UidOf(user).Some? ==> (TeamOf(teams, None, user').Some? <==> !Dangles(teams, user))
  {
  }

  lemma TeamIgnoresEmptyDefault(teams: Docs, default: Option<Text>, user: Doc)
    requires !Given(default)
    ensures TeamOf(teams, default, user) == TeamOf(teams, None, user)
  {
  }

  /** Preflight maps exactly the users who have a team by then. */
  lemma MappedUsers(users: Docs, users': Docs, teams: Docs, members: Docs, e: Env, uid: Value)
    requires users'.Keys == users.Keys
    requires forall i :: i in users ==> UserServed(users[i], users'[i], teams, members)
    requires UserTeams(users', teams, e.defaultTeam, e.teams) && !Given(e.defaultTeam)
    ensures uid in e.teams <==> Housed(users, teams, uid)
  {
    forall i | i in users
      ensures UidOf(users'[i]) == UidOf(users[i])
      ensures UidOf(users[i]).Some? ==> (TeamOf(teams, e.defaultTeam, users'[i]).Some? <==> !Dangles(teams, users[i]))
    {
      ServedUser(users[i], users'[i], teams, members);
      TeamIgnoresEmptyDefault(teams, e.defaultTeam, users'[i]);
    }
    if uid in e.teams {
      var i :| i in users' && UidOf(users'[i]) == Some(uid) && TeamOf(teams, e.defaultTeam, users'[i]) == Some(e.teams[uid]);
      assert UidOf(users[i]) == Some(uid) && !Dangles(teams, users[i]);
    }
  }

  lemma UsersMapped(before: Colls, mid: Colls, e: Env, uid: Value)
    requires Serving(before, mid, {}) && ReadOff(e, Finished(mid)) && !Given(e.defaultTeam)
    ensures uid in e.teams <==> Housed(DocsIn(before, Live(User)), DocsIn(mid, Live(Name.Team)), uid)
  {
    FinishedAt(mid, Live(User));
    FinishedAt(mid, Live(Name.Team));
    MappedUsers(DocsIn(before, Live(User)), DocsIn(mid, Live(User)),
                DocsIn(mid, Live(Name.Team)), DocsIn(mid, Live(TeamMembership)), e, uid);
  }

  // ---------------------------------------------------------------------------
  // Documents
  // ---------------------------------------------------------------------------

  lemma OwnedNames(n: Name)
    requires SpaceScoped(n)
    ensures (n in OWNED_CONTENT <==> !n.KnowledgeBases?) && !n.User? && !n.Team? && !n.TeamMembership? && !n.Library?
  {
  }

  lemma ContentKept(before: Colls, mid: Colls, n: Name, i: Id)
    requires Serving(before, mid, {}) && SpaceScoped(n)
    ensures
      var docs, docs' := DocsIn(before, Live(n)), DocsIn(Finished(mid), Live(n));
      && (i in docs' <==> i in docs && (UserId in docs[i] || n.KnowledgeBases?))
      && (i in docs' ==> docs'[i] == docs[i])
  {
    hide Patched, Pruned, Finished, UsersUnderway, NoSpareTeams, NoSpareMembers, SpaceScoped;
    FinishedAt(mid, Live(n));
    OwnedNames(n);
  }

  ghost function LeftOutOf(users: Docs, teams: Docs, n: Name, docs: Docs): set<Id> {
    set i | i in docs && LeftOut(users, teams, n, docs[i])
  }

  lemma TeamlessDocument(e: Env, users: Docs, teams: Docs, n: Name, d: Doc)
    requires UserId in d ==> (d[UserId] in e.teams <==> Housed(users, teams, d[UserId]))
    requires !Given(e.defaultTeam)
    ensures LeftOut(users, teams, n, d) <==> LeftWithoutTeam(e, d) && (UserId in d || n.KnowledgeBases?)
  {
  }

  lemma TeamlessContent(before: Colls, mid: Colls, e: Env, n: Name, i: Id)
    requires Serving(before, mid, {}) && ReadOff(e, Finished(mid)) && !Given(e.defaultTeam) && SpaceScoped(n)
    ensures i in WithoutTeam(e, DocsIn(Finished(mid), Live(n)))
       <==> i in LeftOutOf(DocsIn(before, Live(User)), DocsIn(mid, Live(Name.Team)), n, DocsIn(before, Live(n)))
  {
    var docs := DocsIn(before, Live(n));
    ContentKept(before, mid, n, i);
    if i in docs {
      if UserId in docs[i] {
        UsersMapped(before, mid, e, docs[i][UserId]);
      }
      TeamlessDocument(e, DocsIn(before, Live(User)), DocsIn(mid, Live(Name.Team)), n, docs[i]);
    }
  }

  lemma TeamlessContents(before: Colls, mid: Colls, e: Env, n: Name)
    requires Serving(before, mid, {}) && ReadOff(e, Finished(mid)) && !Given(e.defaultTeam) && SpaceScoped(n)
    ensures WithoutTeam(e, DocsIn(Finished(mid), Live(n)))
         == LeftOutOf(DocsIn(before, Live(User)), DocsIn(mid, Live(Name.Team)), n, DocsIn(before, Live(n)))
  {
    forall i {
      TeamlessContent(before, mid, e, n, i);
    }
  }

  /** What the migration then leaves without a team; `a` is `Finished(mid)` with backups. */
  lemma TeamlessAfterBoth(before: Colls, mid: Colls, a: Colls, e: Env, n: Name)
    requires Serving(before, mid, {}) && ReadOff(e, Finished(mid)) && !Given(e.defaultTeam) && SpaceScoped(n)
    requires SameLive(Finished(mid), a)
    ensures Selected(DocsIn(Migrated(e, a), Live(n)), Where(Lacks(TeamId)))
         == LeftOutOf(DocsIn(before, Live(User)), DocsIn(mid, Live(Name.Team)), n, DocsIn(before, Live(n)))
  {
    LiveDocs(Finished(mid), a, n);
    PlainDocsAfterRun(e, a, n);
    TeamCounts(e, n, DocsIn(a, Live(n)));
    TeamlessContents(before, mid, e, n);
  }

  /** When no user's team dangles to begin with, a document with an owner is left out only
      if the owner names no user. */
  lemma NobodyDangles(before: Colls, mid: Colls, uid: Value)
    requires Serving(before, mid, {})
    requires forall i :: i in DocsIn(before, Live(User)) ==>
      !Dangles(DocsIn(before, Live(Name.Team)), DocsIn(before, Live(User))[i])
    ensures Housed(DocsIn(before, Live(User)), DocsIn(mid, Live(Name.Team)), uid)
       <==> exists i :: i in DocsIn(before, Live(User)) && UidOf(DocsIn(before, Live(User))[i]) == Some(uid)
  {
  }

  lemma NoNewBackups(before: Colls, mid: Colls, n: Name, stamp: nat)
    requires Serving(before, mid, {})
    ensures Backup(n, stamp) in Finished(mid) <==> Backup(n, stamp) in before
  {
  }

  /** Both scripts, one after the other, with no default team: the team-scoped documents
      left without a team are exactly those that came without one and either were ownerless
      knowledge bases, or had an owner with no team to give: no user goes by that name, or
      the only users who do have a dangling team. */
  method CreateTeamsThenMigrate(db: Database, tokens: Id -> Text, now: Value,
                                parseOid: (Id, Value) -> Option<Id>, stamp: nat)
    returns (ghost mid: Colls)
    requires db.Valid() && forall n :: Backup(n, stamp) !in db.colls
    modifies db
    ensures Serving(old(db.colls), mid, {})
    ensures forall n :: SpaceScoped(n) ==>
      Selected(DocsIn(db.colls, Live(n)), Where(Lacks(TeamId)))
        == LeftOutOf(DocsIn(old(db.colls), Live(User)), DocsIn(mid, Live(Name.Team)), n, DocsIn(old(db.colls), Live(n)))
  {
    ghost var before := db.colls;
    mid := DefaultTeams.Run(db, tokens, now, false);
    forall n {
      NoNewBackups(before, mid, n, stamp);
    }
    ghost var finished := db.colls;
    var issues, manifest, e := FullRun.Run(db, None, now, parseOid, stamp, false);
    ReadOffKept(e, finished, db.origin, manifest.names, stamp);
    forall n | SpaceScoped(n) {
      TeamlessAfterBoth(before, mid, db.origin, e, n);
    }
  }
}
