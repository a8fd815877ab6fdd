/**
 `migrate_create_default_teams.py`: teams for users without one, removal of ownerless
 content, owners for libraries.
 */
module DefaultTeams {
  import opened Wrappers
  import opened Ids
  import opened Mongo
  import opened Conversion
  import opened MigrationRun

  // ---------------------------------------------------------------------------
  // Fresh ids
  // ---------------------------------------------------------------------------

  lemma {:induction false} RankBound(s: set<Id>) returns (b: nat)
    ensures forall i :: i in s ==> i.rank < b
  {
    b := 0;
    if s != {} {
      var x :| x in s;
      var c := RankBound(s - {x});
      b := if x.rank < c then c else x.rank + 1;
      assert forall i :: i in s ==> i == x || i in s - {x};
    }
  }

  lemma FreshExists(s: set<Id>)
    ensures exists i: Id :: i !in s
  {
    var b := RankBound(s);
    assert Id(b) !in s;
  }

  /** A new ObjectId. */
  method NewId(docs: Docs) returns (i: Id)
    ensures i !in docs
  {
    FreshExists(docs.Keys);
    i :| i !in docs.Keys;
  }

  // ---------------------------------------------------------------------------
  // Phase 1: a team for every user
  // ---------------------------------------------------------------------------

  predicate Orphan(user: Doc) {
    Matches(user, Where(NullOrLacks(CurrentTeam)))
  }

  /** Every user has a team, or no user_id. */
  ghost predicate UsersServed(users: Docs) {
    forall i :: i in users && Orphan(users[i]) ==> UidOf(users[i]).None?
  }

  ghost predicate Belongs(members: Docs, t: Id, uid: Value) {
    exists m :: m in members && Matches(members[m], Both(Is(Field.Team, Oid(t)), Is(UserId, uid)))
  }

  /** `t` is a team that `uid` owns and belongs to. */
  ghost predicate OwnTeam(teams: Docs, members: Docs, t: Id, uid: Value) {
    && t in teams && OwnerUserId in teams[t] && teams[t][OwnerUserId] == uid
    && Belongs(members, t, uid)
  }

  /** `later` has every document of `earlier`, unchanged. */
  predicate Extends(earlier: Docs, later: Docs) {
    forall i :: i in earlier ==> i in later && later[i] == earlier[i]
  }

  /** Nothing but users, teams and memberships has changed. */
  ghost predicate OnlyTeamsChanged(before: Colls, after: Colls) {
    && (forall c :: c !in {Live(User), Live(Name.Team), Live(TeamMembership)} ==>
          (c in after <==> c in before) && (c in before ==> after[c] == before[c]))
    && Extends(DocsIn(before, Live(Name.Team)), DocsIn(after, Live(Name.Team)))
    && Extends(DocsIn(before, Live(TeamMembership)), DocsIn(after, Live(TeamMembership)))
  }

  /** A user of before phase 1 and the same user after it. */
  ghost predicate UserServed(user: Doc, user': Doc, teams: Docs, members: Docs) {
    if Orphan(user) && UidOf(user).Some? then
      exists t :: OwnTeam(teams, members, t, UidOf(user).value) && user' == user[CurrentTeam := Oid(t)]
    else user' == user
  }

  /** A team as phase 1 makes it, with a uuid of its own. */
  predicate IsOwnTeam(d: Doc) {
    && d.Keys == {Uuid, Field.Name, OwnerUserId, OrganizationId, CreatedAt}
    && d[Uuid].Str? && d[Field.Name] == Str(MyTeam) && d[OrganizationId] == Null
  }

  /** New teams go to users who owned none, one each. */
  ghost predicate NoSpareTeams(before: Docs, after: Docs) {
    && (forall t :: t in after && t !in before ==> IsOwnTeam(after[t]))
    && (forall t, u :: t in after && t !in before && u in before && OwnerUserId in before[u] ==>
          after[t][OwnerUserId] != before[u][OwnerUserId])
    && (forall t, u :: t in after && t !in before && u in after && u !in before && t != u ==>
          after[t][OwnerUserId] != after[u][OwnerUserId])
  }

  predicate SamePair(d: Doc, e: Doc) {
    Field.Team in d && UserId in d && Field.Team in e && UserId in e
    && d[Field.Team] == e[Field.Team] && d[UserId] == e[UserId]
  }

  /** The membership of an owner in its own team. */
  predicate OwnersOwn(teams: Docs, d: Doc) {
    && d.Keys == {Field.Team, UserId, Role, CreatedAt} && d[Role] == Str(OwnerRole)
    && d[Field.Team].Oid? && d[Field.Team].id in teams
    && OwnerUserId in teams[d[Field.Team].id] && teams[d[Field.Team].id][OwnerUserId] == d[UserId]
  }

  /** New memberships make owners members of their own teams, each one that was not, once. */
  ghost predicate NoSpareMembers(teams: Docs, before: Docs, after: Docs) {
    && (forall m :: m in after && m !in before ==> OwnersOwn(teams, after[m]))
    && (forall m, k :: m in after && m !in before && k in before ==> !SamePair(after[m], before[k]))
    && (forall m, k :: m in after && m !in before && k in after && k !in before && m != k ==>
          !SamePair(after[m], after[k]))
  }

  ghost predicate UsersUnderway(users: Docs, users': Docs, teams: Docs, members: Docs, left: set<Id>) {
    && users'.Keys == users.Keys
    && (forall i :: i in users ==>
          if i in left then users'[i] == users[i] else UserServed(users[i], users'[i], teams, members))
  }

  /** Phase 1 part way through: the users in `left` are still to come. */
  ghost predicate Serving(before: Colls, now: Colls, left: set<Id>) {
    && OnlyTeamsChanged(before, now)
    && NoSpareTeams(DocsIn(before, Live(Name.Team)), DocsIn(now, Live(Name.Team)))
    && NoSpareMembers(DocsIn(now, Live(Name.Team)),
                      DocsIn(before, Live(TeamMembership)), DocsIn(now, Live(TeamMembership)))
    && (Live(User) in now <==> Live(User) in before)
    && UsersUnderway(DocsIn(before, Live(User)), DocsIn(now, Live(User)),
                     DocsIn(now, Live(Name.Team)), DocsIn(now, Live(TeamMembership)), left)
  }

  predicate Owns(teams: Docs, uid: Value, t: Id) {
    t in teams && OwnerUserId in teams[t] && teams[t][OwnerUserId] == uid
  }

  /** Reuse the first team the user owns, or make one. */
  method TeamOwnedBy(db: Database, uid: Value, token: Text, now: Value) returns (team: Id)
    requires db.Valid()
    modifies db
    ensures db.Valid()
    ensures OneTeam(DocsIn(old(db.colls), Live(Name.Team)), DocsIn(db.colls, Live(Name.Team)), team, uid)
    ensures forall t :: Owns(DocsIn(old(db.colls), Live(Name.Team)), uid, t) ==> team.rank <= t.rank
    ensures team !in DocsIn(old(db.colls), Live(Name.Team)) ==>
      DocsIn(db.colls, Live(Name.Team))[team] == map[Uuid := Str(token), Field.Name := Str(MyTeam), OwnerUserId := uid,
                                                     OrganizationId := Null, CreatedAt := now]
    ensures forall c :: c != Live(Name.Team) ==>
      (c in db.colls <==> c in old(db.colls)) && (c in db.colls ==> db.colls[c] == old(db.colls)[c])
  {
    var teams := DocsIn(db.colls, Live(Name.Team));
    var existing := FindOne(teams, Where(Is(OwnerUserId, uid)));
    if existing.Some? {
      return existing.value;
    }
    team := NewId(teams);
    var doc: Doc := map[Uuid := Str(token), Field.Name := Str(MyTeam), OwnerUserId := uid,
                        OrganizationId := Null, CreatedAt := now];
    db.InsertMany(Live(Name.Team), map[team := doc]);
  }

  /** The user's membership in its own team, added under `m` where there was none. */
  ghost predicate AddsMember(before: Docs, after: Docs, m: Id, team: Id, uid: Value) {
    && m !in before && m in after && after == before[m := after[m]] && !Belongs(before, team, uid)
    && Matches(after[m], Both(Is(Field.Team, Oid(team)), Is(UserId, uid)))
    && after[m].Keys == {Field.Team, UserId, Role, CreatedAt} && after[m][Role] == Str(OwnerRole)
  }

  /** What serving one user does to the memberships: none added where there was one, else one. */
  ghost predicate OneMembership(before: Docs, after: Docs, team: Id, uid: Value) {
    Belongs(after, team, uid) && (after == before || exists m :: AddsMember(before, after, m, team, uid))
  }

  method EnsureMembership(db: Database, team: Id, uid: Value, now: Value)
    requires db.Valid()
    modifies db
    ensures db.Valid()
    ensures OneMembership(DocsIn(old(db.colls), Live(TeamMembership)), DocsIn(db.colls, Live(TeamMembership)), team, uid)
    ensures forall c :: c != Live(TeamMembership) ==>
      (c in db.colls <==> c in old(db.colls)) && (c in db.colls ==> db.colls[c] == old(db.colls)[c])
  {
    var members := DocsIn(db.colls, Live(TeamMembership));
    var mem := FindOne(members, Both(Is(Field.Team, Oid(team)), Is(UserId, uid)));
    if mem.None? {
      var m := NewId(members);
      var doc: Doc := map[Field.Team := Oid(team), UserId := uid, Role := Str(OwnerRole), CreatedAt := now];
      db.InsertMany(Live(TeamMembership), map[m := doc]);
      assert DocsIn(db.colls, Live(TeamMembership)) == members[m := doc] && AddsMember(members, members[m := doc], m, team, uid);
    }
  }

  /** What serving one user does to the teams: none added, or one for a user who owned none. */
  ghost predicate OneTeam(before: Docs, after: Docs, team: Id, uid: Value) {
    && Extends(before, after) && team in after && OwnerUserId in after[team] && after[team][OwnerUserId] == uid
    && (after == before || (team !in before && after == before[team := after[team]] && IsOwnTeam(after[team])
          && forall u :: u in before ==> !Matches(before[u], Where(Is(OwnerUserId, uid)))))
  }

  ghost predicate ServedOne(before: Colls, after: Colls, i: Id, uid: Value, team: Id) {
    && Live(User) in before && i in before[Live(User)] && Live(User) in after
    && after[Live(User)] == before[Live(User)][i := before[Live(User)][i][CurrentTeam := Oid(team)]]
    && OneTeam(DocsIn(before, Live(Name.Team)), DocsIn(after, Live(Name.Team)), team, uid)
    && OneMembership(DocsIn(before, Live(TeamMembership)), DocsIn(after, Live(TeamMembership)), team, uid)
    && (forall c :: c !in {Live(User), Live(Name.Team), Live(TeamMembership)} ==>
          (c in after <==> c in before) && (c in before ==> after[c] == before[c]))
  }

  method ServeUser(db: Database, i: Id, uid: Value, token: Text, now: Value) returns (ghost team: Id)
    requires db.Valid() && Live(User) in db.colls && i in db.colls[Live(User)]
    modifies db
    ensures db.Valid() && ServedOne(old(db.colls), db.colls, i, uid, team)
  {
    var t := TeamOwnedBy(db, uid, token, now);
    team := t;
    EnsureMembership(db, t, uid, now);
    ghost var d := db.colls[Live(User)][i];
    assert d + map[CurrentTeam := Oid(t)] - {} == d[CurrentTeam := Oid(t)];
    db.Accept(UpdateOne(Live(User), i, Change(map[CurrentTeam := Oid(t)], {})));
  }

  lemma SpareStep(before: Docs, mid: Docs, after: Docs, team: Id, uid: Value)
    requires NoSpareTeams(before, mid) && Extends(before, mid) && OneTeam(mid, after, team, uid)
    ensures NoSpareTeams(before, after)
  {
  }

  lemma MemberAdded(teams: Docs, before: Docs, mid: Docs, after: Docs, m: Id, team: Id, uid: Value)
    requires NoSpareMembers(teams, before, mid) && Extends(before, mid) && AddsMember(mid, after, m, team, uid)
    requires team in teams && OwnerUserId in teams[team] && teams[team][OwnerUserId] == uid
    ensures NoSpareMembers(teams, before, after)
  {
    forall k | k in mid
      ensures !SamePair(after[m], mid[k]) && !SamePair(mid[k], after[m])
    {
      assert !Matches(mid[k], Both(Is(Field.Team, Oid(team)), Is(UserId, uid)));
    }
  }

  lemma MembersStep(teams: Docs, teams': Docs, before: Docs, mid: Docs, after: Docs, team: Id, uid: Value)
    requires NoSpareMembers(teams, before, mid) && Extends(teams, teams') && Extends(before, mid)
    requires OneMembership(mid, after, team, uid)
    requires team in teams' && OwnerUserId in teams'[team] && teams'[team][OwnerUserId] == uid
    ensures Extends(mid, after) && NoSpareMembers(teams', before, after)
  {
    assert NoSpareMembers(teams', before, mid);
    if after != mid {
      var m :| AddsMember(mid, after, m, team, uid);
      MemberAdded(teams', before, mid, after, m, team, uid);
    }
  }

  lemma ServedKept(user: Doc, user': Doc, teams: Docs, members: Docs, teams': Docs, members': Docs)
    requires UserServed(user, user', teams, members) && Extends(teams, teams') && Extends(members, members')
    ensures UserServed(user, user', teams', members')
  {
  }

  lemma UsersStep(users: Docs, mid: Docs, after: Docs, teams: Docs, teams': Docs, members: Docs, members': Docs,
                  left: set<Id>, i: Id, team: Id)
    requires UsersUnderway(users, mid, teams, members, left) && Extends(teams, teams') && Extends(members, members')
    requires i in left && i in users && Orphan(users[i]) && UidOf(users[i]).Some?
    requires after == mid[i := mid[i][CurrentTeam := Oid(team)]] && OwnTeam(teams', members', team, UidOf(users[i]).value)
    ensures UsersUnderway(users, after, teams', members', left - {i})
  {
    forall j | j in users && j !in left {
      ServedKept(users[j], mid[j], teams, members, teams', members');
    }
  }

  lemma ServeStep(before: Colls, mid: Colls, after: Colls, left: set<Id>, i: Id, team: Id)
    requires Serving(before, mid, left) && i in left && i in DocsIn(before, Live(User))
    requires var user := DocsIn(before, Live(User))[i];
      Orphan(user) && UidOf(user).Some? && ServedOne(mid, after, i, UidOf(user).value, team)
    ensures Serving(before, after, left - {i})
  {
    hide UsersUnderway, NoSpareTeams, NoSpareMembers, OneMembership, AddsMember, Matches, UidOf;
    var uid := UidOf(DocsIn(before, Live(User))[i]).value;
    SpareStep(DocsIn(before, Live(Name.Team)), DocsIn(mid, Live(Name.Team)), DocsIn(after, Live(Name.Team)), team, uid);
    MembersStep(DocsIn(mid, Live(Name.Team)), DocsIn(after, Live(Name.Team)), DocsIn(before, Live(TeamMembership)),
                DocsIn(mid, Live(TeamMembership)), DocsIn(after, Live(TeamMembership)), team, uid);
    BelongsAfter(DocsIn(mid, Live(TeamMembership)), DocsIn(after, Live(TeamMembership)), team, uid);
    UsersStep(DocsIn(before, Live(User)), DocsIn(mid, Live(User)), DocsIn(after, Live(User)),
              DocsIn(mid, Live(Name.Team)), DocsIn(after, Live(Name.Team)),
              DocsIn(mid, Live(TeamMembership)), DocsIn(after, Live(TeamMembership)), left, i, team);
  }

  lemma BelongsAfter(before: Docs, after: Docs, team: Id, uid: Value)
    requires OneMembership(before, after, team, uid)
    ensures Belongs(after, team, uid)
  {
  }

  lemma SkipStep(before: Colls, now: Colls, left: set<Id>, i: Id)
    requires Serving(before, now, left) && i in DocsIn(before, Live(User))
    requires UidOf(DocsIn(before, Live(User))[i]).None?
    ensures Serving(before, now, left - {i})
  {
  }

  /** Phase 1: every user without a current team, except one without a user_id. */
  method Phase1Teams(db: Database, tokens: Id -> Text, now: Value, dryRun: bool)
    requires db.Valid()
    modifies db
    ensures db.Valid()
    ensures dryRun ==> db.colls == old(db.colls)
    ensures !dryRun ==> Serving(old(db.colls), db.colls, {})
    ensures UsersServed(DocsIn(old(db.colls), Live(User))) ==> db.colls == old(db.colls)
  {
    var users := DocsIn(db.colls, Live(User));
    var left := Selected(users, Where(NullOrLacks(CurrentTeam)));
    assert Serving(db.colls, db.colls, left);
    while left != {}
      invariant db.Valid()
      invariant left <= Selected(users, Where(NullOrLacks(CurrentTeam)))
      invariant if dryRun then db.colls == old(db.colls) else Serving(old(db.colls), db.colls, left)
      invariant UsersServed(users) ==> db.colls == old(db.colls)
    {
      var i :| i in left;
      var uid := UidOf(users[i]);
      if uid.None? {
        if !dryRun {
          SkipStep(old(db.colls), db.colls, left, i);
        }
      } else if !dryRun {
        ghost var mid := db.colls;
        ghost var team := ServeUser(db, i, uid.value, tokens(i), now);
        ServeStep(old(db.colls), mid, db.colls, left, i, team);
      }
      left := left - {i};
    }
  }

  // ---------------------------------------------------------------------------
  // Phase 2: remove ownerless content
  // ---------------------------------------------------------------------------

  const OWNED_CONTENT: seq<Name> := [SmartDocument, SearchSet, Workflow, ChatConversation]

  function Owned(docs: Docs): Docs {
    DeleteDocs(docs, Where(Lacks(UserId)))
  }

  /** Ownerless documents removed from the collections in `names`. */
  function Pruned(names: seq<Name>, db: Colls): Colls {
    map c | c in db :: if c.Live? && c.name in names then Owned(db[c]) else db[c]
  }

  lemma PruneStep(names: seq<Name>, n: Name, db: Colls)
    requires n !in names
    ensures Apply(Pruned(names, db), DeleteMany(Live(n), Where(Lacks(UserId)))) == Pruned(names + [n], db)
  {
  }

  lemma NothingToPrune(names: seq<Name>, n: Name, db: Colls)
    requires n !in names && Selected(DocsIn(db, Live(n)), Where(Lacks(UserId))) == {}
    ensures Pruned(names + [n], db) == Pruned(names, db)
  {
    if Live(n) in db {
      assert forall i :: i in db[Live(n)] && UserId !in db[Live(n)][i] ==>
          i in Selected(db[Live(n)], Where(Lacks(UserId)));
      assert Owned(db[Live(n)]) == db[Live(n)];
    }
  }

  method Phase2Ownerless(db: Database, dryRun: bool)
    requires db.Valid()
    modifies db
    ensures db.Valid()
    ensures db.colls == if dryRun then old(db.colls) else Pruned(OWNED_CONTENT, old(db.colls))
  {
    assert Pruned([], db.colls) == db.colls;
    for k := 0 to |OWNED_CONTENT|
      invariant db.Valid()
      invariant db.colls == if dryRun then old(db.colls) else Pruned(OWNED_CONTENT[..k], old(db.colls))
    {
      var n := OWNED_CONTENT[k];
      assert OWNED_CONTENT[..k + 1] == OWNED_CONTENT[..k] + [n];
      assert DocsIn(db.colls, Live(n)) == DocsIn(old(db.colls), Live(n));
      var count := db.Count(Live(n), Where(Lacks(UserId)));
      if count == 0 {
        NothingToPrune(OWNED_CONTENT[..k], n, old(db.colls));
      } else {
        PruneStep(OWNED_CONTENT[..k], n, old(db.colls));
        if !dryRun {
          db.Accept(DeleteMany(Live(n), Where(Lacks(UserId))));
        }
      }
    }
    assert OWNED_CONTENT[..|OWNED_CONTENT|] == OWNED_CONTENT;
  }

  // ---------------------------------------------------------------------------
  // Phase 3: owners for libraries
  // ---------------------------------------------------------------------------

  /** "system" for a verified library, the owner of its team for any other. */
  function OwnerFor(teams: Docs, d: Doc): Option<Value> {
    if Scope in d && d[Scope] == Str(VerifiedScope) then Some(Str(Text.System))
    else if Field.Team in d && d[Field.Team].Oid? && d[Field.Team].id in teams then
      var team := teams[d[Field.Team].id];
      if OwnerUserId in team && Truthy(team[OwnerUserId]) then Some(team[OwnerUserId]) else None
    else None
  }

  function WithOwner(teams: Docs, d: Doc): Doc {
    if Holds(d, NullOrLacks(OwnerUserId)) && OwnerFor(teams, d).Some?
    then d[OwnerUserId := OwnerFor(teams, d).value]
    else d
  }

  predicate Unowned(d: Doc) {
    OwnerUserId !in d || d[OwnerUserId] == Null
  }

  /** The library's team has an owner, who is this one. */
  predicate OwnedThrough(teams: Docs, d: Doc, t: Id, owner: Value) {
    && Field.Team in d && d[Field.Team] == Oid(t) && t in teams
    && OwnerUserId in teams[t] && teams[t][OwnerUserId] == owner && Truthy(owner)
  }

  /** A library without an owner belongs to the system if it is verified, and else to the owner of its
      team, if there is one; every other library stays as it is. */
  lemma LibraryOutcome(teams: Docs, d: Doc)
    ensures var after, verified := WithOwner(teams, d), Scope in d && d[Scope] == Str(VerifiedScope);
      && (!Unowned(d) ==> after == d)
      && (Unowned(d) && verified ==> after == d[OwnerUserId := Str(Text.System)])
      && (Unowned(d) && !verified ==> forall t, owner :: OwnedThrough(teams, d, t, owner) ==> after == d[OwnerUserId := owner])
      && (Unowned(d) && !verified && (forall t, owner :: !OwnedThrough(teams, d, t, owner)) ==> after == d)
  {
    if OwnerFor(teams, d).Some? && !(Scope in d && d[Scope] == Str(VerifiedScope)) {
      assert OwnedThrough(teams, d, d[Field.Team].id, OwnerFor(teams, d).value);
    }
  }

  /** Libraries of which those in `left` have not been looked at yet. */
  function Patched(teams: Docs, libs: Docs, left: set<Id>): Docs {
    map i | i in libs :: if i in left then libs[i] else WithOwner(teams, libs[i])
  }

  function LibrariesPatched(db: Colls): Colls {
    if Live(Library) in db
    then db[Live(Library) := Patched(DocsIn(db, Live(Name.Team)), db[Live(Library)], {})]
    else db
  }

  lemma PatchStep(teams: Docs, libs: Docs, left: set<Id>, i: Id)
    requires i in left && i in libs
    ensures Patched(teams, libs, left)[i] == libs[i]
    ensures Patched(teams, libs, left - {i}) == Patched(teams, libs, left)[i := WithOwner(teams, libs[i])]
  {
  }

  method PatchLibrary(db: Database, teams: Docs, i: Id, dryRun: bool)
    requires db.Valid() && Live(Library) in db.colls && i in db.colls[Live(Library)]
    requires Holds(db.colls[Live(Library)][i], NullOrLacks(OwnerUserId))
    modifies db
    ensures db.Valid()
    ensures var libs := old(db.colls)[Live(Library)];
      db.colls == if dryRun then old(db.colls)
                  else old(db.colls)[Live(Library) := libs[i := WithOwner(teams, libs[i])]]
  {
    var d := db.colls[Live(Library)][i];
    var owner := OwnerFor(teams, d);
    if owner.None? {
      assert db.colls[Live(Library)][i := d] == db.colls[Live(Library)];
    } else if !dryRun {
      assert d + map[OwnerUserId := owner.value] - {} == d[OwnerUserId := owner.value];
      db.Accept(UpdateOne(Live(Library), i, Change(map[OwnerUserId := owner.value], {})));
    }
  }

  method Phase3Libraries(db: Database, dryRun: bool)
    requires db.Valid()
    modifies db
    ensures db.Valid()
    ensures db.colls == if dryRun then old(db.colls) else LibrariesPatched(old(db.colls))
  {
    if Live(Library) !in db.colls {
      return;
    }
    var teams, libs := DocsIn(db.colls, Live(Name.Team)), db.colls[Live(Library)];
    var left := Selected(libs, Where(NullOrLacks(OwnerUserId)));
    assert Patched(teams, libs, left) == libs by {
      assert forall i :: i in libs && Holds(libs[i], NullOrLacks(OwnerUserId)) ==> i in left;
    }
    while left != {}
      invariant db.Valid()
      invariant left <= Selected(libs, Where(NullOrLacks(OwnerUserId)))
      invariant db.colls == if dryRun then old(db.colls) else old(db.colls)[Live(Library) := Patched(teams, libs, left)]
    {
      var i :| i in left;
      PatchStep(teams, libs, left, i);
      PatchLibrary(db, teams, i, dryRun);
      left := left - {i};
    }
  }

  // ---------------------------------------------------------------------------
  // The run
  // ---------------------------------------------------------------------------

  ghost predicate AllOwned(docs: Docs) {
    forall i :: i in docs ==> UserId in docs[i]
  }

  ghost predicate LibrariesOwned(teams: Docs, libs: Docs) {
    forall i :: i in libs ==> WithOwner(teams, libs[i]) == libs[i]
  }

  /** A run finds nothing to do. */
  ghost predicate NothingToDo(db: Colls) {
    && UsersServed(DocsIn(db, Live(User)))
    && (forall c: Coll :: c.Live? && c.name in OWNED_CONTENT ==> AllOwned(DocsIn(db, c)))
    && LibrariesOwned(DocsIn(db, Live(Name.Team)), DocsIn(db, Live(Library)))
  }

  function Finished(mid: Colls): Colls {
    LibrariesPatched(Pruned(OWNED_CONTENT, mid))
  }

  lemma OwnedAlready(docs: Docs)
    ensures Owned(docs) == docs <==> AllOwned(docs)
    ensures AllOwned(Owned(docs))
  {
  }

  lemma PatchedAlready(teams: Docs, libs: Docs)
    ensures LibrariesOwned(teams, libs) ==> Patched(teams, libs, {}) == libs
    ensures LibrariesOwned(teams, Patched(teams, libs, {}))
  {
  }

  /** Phases 2 and 3, seen from one collection. */
  lemma FinishedAt(mid: Colls, c: Coll)
    ensures DocsIn(Finished(mid), c) ==
      if c.Live? && c.name in OWNED_CONTENT then Owned(DocsIn(mid, c))
      else if c == Live(Library) then Patched(DocsIn(mid, Live(Name.Team)), DocsIn(mid, c), {})
      else DocsIn(mid, c)
  {
  }

  lemma UsersAllServed(before: Colls, mid: Colls)
    requires Serving(before, mid, {})
    ensures UsersServed(DocsIn(mid, Live(User)))
  {
    hide NoSpareTeams, NoSpareMembers, OnlyTeamsChanged, OwnTeam;
  }

  lemma AllDone(mid: Colls)
    requires UsersServed(DocsIn(mid, Live(User)))
    ensures NothingToDo(Finished(mid))
  {
    FinishedAt(mid, Live(User));
    FinishedAt(mid, Live(Name.Team));
    FinishedAt(mid, Live(Library));
    PatchedAlready(DocsIn(mid, Live(Name.Team)), DocsIn(mid, Live(Library)));
    forall c: Coll | c.Live? && c.name in OWNED_CONTENT
      ensures AllOwned(DocsIn(Finished(mid), c))
    {
      FinishedAt(mid, c);
      OwnedAlready(DocsIn(mid, c));
    }
  }

  lemma NothingDone(db: Colls)
    requires NothingToDo(db)
    ensures Finished(db) == db
  {
    forall c: Coll | c in db
      ensures DocsIn(Finished(db), c) == db[c]
    {
      FinishedAt(db, c);
      OwnedAlready(db[c]);
      PatchedAlready(DocsIn(db, Live(Name.Team)), DocsIn(db, Live(Library)));
    }
    assert Finished(db).Keys == db.Keys;
  }

  /** Phases 1-3. `mid` is the state between phases 1 and 2. A second run writes nothing. */
  method Run(db: Database, tokens: Id -> Text, now: Value, dryRun: bool) returns (ghost mid: Colls)
    requires db.Valid()
    modifies db
    ensures db.Valid()
    ensures dryRun ==> db.colls == old(db.colls)
    ensures !dryRun ==> Serving(old(db.colls), mid, {}) && db.colls == Finished(mid)
    ensures !dryRun ==> NothingToDo(db.colls)
    ensures NothingToDo(old(db.colls)) ==> db.colls == old(db.colls)
  {
    Phase1Teams(db, tokens, now, dryRun);
    mid := db.colls;
    Phase2Ownerless(db, dryRun);
    Phase3Libraries(db, dryRun);
    if !dryRun {
      UsersAllServed(old(db.colls), mid);
      AllDone(mid);
    }
    if NothingToDo(old(db.colls)) {
      NothingDone(old(db.colls));
    }
  }
}
