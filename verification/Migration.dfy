/**
 Phases 0 and 2-4 of `migrate_flask_to_beanie.py`: bulk writes on a database,
 each phase proved to rewrite every document as `Conversion` says.
 */
module Migration {
  import opened Wrappers
  import opened Ids
  import opened Mongo
  import opened Conversion

  // ---------------------------------------------------------------------------
  // What a phase means for the whole database
  // ---------------------------------------------------------------------------

  function SpaceDocs(e: Env, n: Name, docs: Docs): Docs {
    map i | i in docs :: SpaceDoc(e, n, docs[i])
  }

  function NewFieldDocs(e: Env, n: Name, docs: Docs): Docs {
    map i | i in docs :: DefaultsDoc(e, n, docs[i])
  }

  function LibraryItemDocs(docs: Docs): Docs {
    map i | i in docs && !Matches(docs[i], UNSUPPORTED_ITEM) :: LibraryItemDoc(docs[i])
  }

  function KbSourceDocs(e: Env, docs: Docs): Docs {
    map i | i in docs :: KbSourceDoc(e, docs[i])
  }

  function RequestDocs(e: Env, docs: Docs): Docs {
    map i | i in docs && !Matches(docs[i], UNSUPPORTED_REQUEST) :: RequestDoc(e, i, docs[i])
  }

  function CollectionDocs(docs: Docs): Docs {
    map i | i in docs :: CollectionDoc(docs[i])
  }

  function ItemMetadataDocs(docs: Docs): Docs {
    map i | i in docs :: ItemMetadataDoc(docs[i])
  }

  function RefDocs(e: Env, n: Name, docs: Docs): Docs {
    match n
    case LibraryItem => LibraryItemDocs(docs)
    case KnowledgeBaseSources => KbSourceDocs(e, docs)
    case VerificationRequest => RequestDocs(e, docs)
    case VerifiedCollection => CollectionDocs(docs)
    case VerifiedItemMetadata => ItemMetadataDocs(docs)
    case _ => docs
  }

  function CleanDocs(n: Name, docs: Docs): Docs {
    map i | i in docs :: CleanupDoc(n, docs[i])
  }

  function StageDocs(e: Env, stage: Stage, n: Name, docs: Docs): Docs {
    match stage
    case StripCls => Stripped({Cls}, docs)
    case Spaces => SpaceDocs(e, n, docs)
    case NewFields => NewFieldDocs(e, n, docs)
    case References => RefDocs(e, n, docs)
    case Cleanup => CleanDocs(n, docs)
  }

  /** A stage carried out on the collections in `names` only. */
  function Only(e: Env, stage: Stage, names: set<Name>, db: Colls): Colls {
    map c | c in db :: if c.Live? && c.name in names then StageDocs(e, stage, c.name, db[c]) else db[c]
  }

  /** A stage carried out on every live collection. */
  function Each(e: Env, stage: Stage, db: Colls): Colls {
    map c | c in db :: if c.Live? then StageDocs(e, stage, c.name, db[c]) else db[c]
  }

  function Filled(m: Doc, docs: Docs): Docs {
    map i | i in docs :: m + docs[i]
  }

  function Stripped(fs: set<Field>, docs: Docs): Docs {
    map i | i in docs :: docs[i] - fs
  }

  function Restricted(m: Doc, fs: set<Field>): Doc {
    map f | f in m && f in fs :: m[f]
  }

  /** `docs` in place of collection `c`, when there is such a collection. */
  function Put(db: Colls, c: Coll, docs: Docs): Colls {
    if c in db then db[c := docs] else db
  }

  /** What every scoped method keeps: the checkpoint, and the writes since. */
  twostate predicate Grown(db: Database)
    reads db
  {
    db.Valid() && db.origin == old(db.origin) && old(db.log) <= db.log
  }

  lemma NothingToUpdate(docs: Docs, cond: Cond, ch: Change)
    requires Selected(docs, cond) == {}
    ensures UpdateDocs(docs, cond, ch) == docs
  {
  }

  /** Count, report, and only then write: the shape of every bulk update. */
  method UpdateMatching(db: Database, c: Coll, cond: Cond, ch: Change, dryRun: bool)
    requires db.Valid() && c.Live?
    modifies db
    ensures Grown(db)
    ensures db.colls == if dryRun then old(db.colls) else Apply(old(db.colls), UpdateMany(c, cond, ch))
  {
    var count := db.Count(c, cond);
    if count == 0 {
      NothingToUpdate(DocsIn(db.colls, c), cond, ch);
      return;
    }
    if !dryRun {
      db.Accept(UpdateMany(c, cond, ch));
    }
  }

  function NamesIn(s: seq<Name>): set<Name> {
    set n | n in s
  }

  lemma NamesStep(s: seq<Name>, k: nat)
    requires k < |s| && forall i, j :: 0 <= i < j < |s| ==> s[i] != s[j]
    ensures NamesIn(s[..k + 1]) == NamesIn(s[..k]) + {s[k]} && s[k] !in NamesIn(s[..k])
  {
  }

  // ---------------------------------------------------------------------------
  // _set_defaults and _unset_fields
  // ---------------------------------------------------------------------------

  lemma FillOneDoc(m: Doc, done: set<Field>, f: Field, d: Doc)
    requires f in m && f !in done
    ensures UpdateDoc(Restricted(m, done) + d, Where(Lacks(f)), Change(map[f := m[f]], {})) == Restricted(m, done + {f}) + d
  {
  }

  lemma FillOne(m: Doc, done: set<Field>, f: Field, docs: Docs)
    requires f in m && f !in done
    ensures UpdateDocs(Filled(Restricted(m, done), docs), Where(Lacks(f)), Change(map[f := m[f]], {}))
         == Filled(Restricted(m, done + {f}), docs)
  {
    forall i | i in docs {
      FillOneDoc(m, done, f, docs[i]);
    }
  }

  method SetDefaults(db: Database, n: Name, defaults: Doc, dryRun: bool)
    requires db.Valid()
    modifies db
    ensures Grown(db)
    ensures db.colls ==
      if dryRun then old(db.colls) else Put(old(db.colls), Live(n), Filled(defaults, DocsIn(old(db.colls), Live(n))))
  {
    var c := Live(n);
    if c !in db.colls {
      return;
    }
    ghost var docs := db.colls[c];
    var left := defaults.Keys;
    ghost var done: set<Field> := {};
    assert Filled(Restricted(defaults, done), docs) == docs by {
      assert forall i :: i in docs ==> Restricted(defaults, done) + docs[i] == docs[i];
    }
    while left != {}
      invariant db.Valid() && db.origin == old(db.origin) && old(db.log) <= db.log
      invariant left !! done && left + done == defaults.Keys
      invariant db.colls == if dryRun then old(db.colls) else old(db.colls)[c := Filled(Restricted(defaults, done), docs)]
    {
      var f :| f in left;
      FillOne(defaults, done, f, docs);
      UpdateMatching(db, c, Where(Lacks(f)), Change(map[f := defaults[f]], {}), dryRun);
      left, done := left - {f}, done + {f};
    }
    assert Restricted(defaults, done) == defaults;
  }

  lemma StripDoc(fs: set<Field>, d: Doc)
    ensures UpdateDoc(d, Where(HasAny(fs)), Change(map[], fs)) == d - fs
  {
    assert d + map[] == d;
    if fs * d.Keys == {} {
      assert forall f :: f in d && f in fs ==> f in fs * d.Keys;
      assert d - fs == d;
    }
  }

  lemma StripMatching(fs: set<Field>, docs: Docs)
    ensures UpdateDocs(docs, Where(HasAny(fs)), Change(map[], fs)) == Stripped(fs, docs)
  {
    forall i | i in docs {
      StripDoc(fs, docs[i]);
    }
  }

  method UnsetFields(db: Database, n: Name, fs: set<Field>, dryRun: bool)
    requires db.Valid()
    modifies db
    ensures Grown(db)
    ensures db.colls ==
      if dryRun then old(db.colls) else Put(old(db.colls), Live(n), Stripped(fs, DocsIn(old(db.colls), Live(n))))
  {
    if Live(n) in db.colls {
      StripMatching(fs, db.colls[Live(n)]);
      UpdateMatching(db, Live(n), Where(HasAny(fs)), Change(map[], fs), dryRun);
    }
  }

  // ---------------------------------------------------------------------------
  // Phase 2: collection renames
  // ---------------------------------------------------------------------------

  const OLD_NAMES: seq<Name> := [WorkflowTriggerEvents, GraphSubscriptions, M365AuditLog]

  function OldName(n: Name): Option<Name> {
    match n
    case WorkflowTriggerEvent => Some(WorkflowTriggerEvents)
    case GraphSubscription => Some(GraphSubscriptions)
    case M365AuditEntry => Some(M365AuditLog)
    case _ => None
  }

  /** Collection `n` is there under its old name only. */
  predicate Moves(db: Colls, n: Name) {
    Live(n) in db && NewName(n).Some? && Live(NewName(n).value) !in db
  }

  const NEW_COLLS: set<Coll> := {Live(WorkflowTriggerEvent), Live(GraphSubscription), Live(M365AuditEntry)}

  /** The collections of `db` once those of `olds` that move have moved. */
  predicate PresentAfter(db: Colls, olds: set<Name>, c: Coll) {
    if c in db then !(c.Live? && c.name in olds && Moves(db, c.name))
    else c.Live? && OldName(c.name).Some? && OldName(c.name).value in olds && Moves(db, OldName(c.name).value)
  }

  function RenamedFor(db: Colls, olds: set<Name>): Colls {
    map c | c in db.Keys + NEW_COLLS && PresentAfter(db, olds, c) ::
      if c in db then db[c] else db[Live(OldName(c.name).value)]
  }

  function Renamed(db: Colls): Colls {
    RenamedFor(db, NamesIn(OLD_NAMES))
  }

  lemma RenameOne(db: Colls, done: set<Name>, n: Name)
    requires NewName(n).Some? && n !in done
    ensures RenamedFor(db, done + {n}) ==
      if Moves(db, n) then Apply(RenamedFor(db, done), Rename(Live(n), Live(NewName(n).value)))
      else RenamedFor(db, done)
  {
    var before := RenamedFor(db, done);
    var after := RenamedFor(db, done + {n});
    var to := Live(NewName(n).value);
    if Moves(db, n) {
      assert Live(n) in before && to !in before;
      forall c
        ensures c in after <==> c == to || (c in before && c != Live(n))
      {
        PresentStep(db, done, n, c);
      }
      assert after.Keys == (before - {Live(n)})[to := before[Live(n)]].Keys;
      assert after == (before - {Live(n)})[to := before[Live(n)]];
    } else {
      forall c
        ensures c in after <==> c in before
      {
        PresentStep(db, done, n, c);
      }
      assert after.Keys == before.Keys;
    }
  }

  lemma PresentStep(db: Colls, done: set<Name>, n: Name, c: Coll)
    requires NewName(n).Some? && n !in done
    ensures Moves(db, n) && c == Live(n) ==> PresentAfter(db, done, c) && !PresentAfter(db, done + {n}, c)
    ensures Moves(db, n) && c == Live(NewName(n).value) ==>
      !PresentAfter(db, done, c) && PresentAfter(db, done + {n}, c)
    ensures !Moves(db, n) || (c != Live(n) && c != Live(NewName(n).value)) ==>
      (PresentAfter(db, done, c) <==> PresentAfter(db, done + {n}, c))
  {
  }

  lemma FoundUnder(db: Colls, old_: Name, new_: Name)
    requires NewName(old_) == Some(new_) && OldName(new_) == Some(old_) && old_ in OLD_NAMES
    ensures DocsIn(Renamed(db), Live(new_)) == if Live(new_) in db then db[Live(new_)] else DocsIn(db, Live(old_))
  {
    assert Live(new_) in NEW_COLLS;
  }

  predicate OldAndNew(old_: Name, new_: Name) {
    || (old_.WorkflowTriggerEvents? && new_.WorkflowTriggerEvent?)
    || (old_.GraphSubscriptions? && new_.GraphSubscription?)
    || (old_.M365AuditLog? && new_.M365AuditEntry?)
  }

  /** The documents of the three renamed collections: those under the new name where it was there, and
      else those under the old one. */
  lemma RenamedOnes(db: Colls, old_: Name, new_: Name)
    requires OldAndNew(old_, new_)
    ensures DocsIn(Renamed(db), Live(new_)) == if Live(new_) in db then db[Live(new_)] else DocsIn(db, Live(old_))
  {
    hide Renamed;
    assert OLD_NAMES[0] == WorkflowTriggerEvents && OLD_NAMES[1] == GraphSubscriptions && OLD_NAMES[2] == M365AuditLog;
    FoundUnder(db, old_, new_);
  }

  method Phase2Renames(db: Database, dryRun: bool)
    requires db.Valid()
    modifies db
    ensures Grown(db)
    ensures db.colls == if dryRun then old(db.colls) else Renamed(old(db.colls))
  {
    var existing := db.colls.Keys;
    assert RenamedFor(db.colls, {}) == db.colls;
    for k := 0 to |OLD_NAMES|
      invariant db.Valid() && db.origin == old(db.origin) && old(db.log) <= db.log
      invariant db.colls == if dryRun then old(db.colls) else RenamedFor(old(db.colls), NamesIn(OLD_NAMES[..k]))
    {
      var from := OLD_NAMES[k];
      var to := NewName(from).value;
      NamesStep(OLD_NAMES, k);
      RenameOne(old(db.colls), NamesIn(OLD_NAMES[..k]), from);
      if Live(from) in existing && Live(to) !in existing {
        if !dryRun {
          db.Accept(Rename(Live(from), Live(to)));
        }
      }
    }
    assert OLD_NAMES[..|OLD_NAMES|] == OLD_NAMES;
  }

  // ---------------------------------------------------------------------------
  // Phase 3: global _cls removal
  // ---------------------------------------------------------------------------

  lemma OnlyOne(e: Env, stage: Stage, done: set<Name>, n: Name, db: Colls)
    requires n !in done
    ensures Put(Only(e, stage, done, db), Live(n), StageDocs(e, stage, n, DocsIn(Only(e, stage, done, db), Live(n))))
         == Only(e, stage, done + {n}, db)
  {
    var before := Only(e, stage, done, db);
    var after := Only(e, stage, done + {n}, db);
    if Live(n) in db {
      assert before[Live(n)] == db[Live(n)];
      assert after == before[Live(n) := StageDocs(e, stage, n, db[Live(n)])];
    } else {
      assert after == before;
    }
  }

  lemma OnlyNone(e: Env, stage: Stage, db: Colls)
    ensures Only(e, stage, {}, db) == db
  {
  }

  lemma StripOneDoc(f: Field, d: Doc)
    ensures UpdateDoc(d, Where(Has(f)), Change(map[], {f})) == d - {f}
  {
  }

  lemma StripAllDocs(f: Field, docs: Docs)
    ensures UpdateDocs(docs, Where(Has(f)), Change(map[], {f})) == Stripped({f}, docs)
  {
    forall i | i in docs {
      StripOneDoc(f, docs[i]);
    }
  }

  method Phase3ClsRemoval(db: Database, ghost e: Env, dryRun: bool)
    requires db.Valid()
    modifies db
    ensures Grown(db)
    ensures db.colls == if dryRun then old(db.colls) else Each(e, StripCls, old(db.colls))
  {
    var left := set c | c in db.colls.Keys && c.Live? :: c.name;
    ghost var done: set<Name> := {};
    OnlyNone(e, StripCls, db.colls);
    while left != {}
      invariant db.Valid() && db.origin == old(db.origin) && old(db.log) <= db.log
      invariant left !! done
      invariant forall c :: c in old(db.colls) && c.Live? ==> c.name in left || c.name in done
      invariant db.colls == if dryRun then old(db.colls) else Only(e, StripCls, done, old(db.colls))
    {
      var n :| n in left;
      StripAllDocs(Cls, DocsIn(db.colls, Live(n)));
      OnlyOne(e, StripCls, done, n, old(db.colls));
      UpdateMatching(db, Live(n), Where(Has(Cls)), Change(map[], {Cls}), dryRun);
      left, done := left - {n}, done + {n};
    }
    assert Only(e, StripCls, done, old(db.colls)) == Each(e, StripCls, old(db.colls));
  }

  // ---------------------------------------------------------------------------
  // Phase 4a: space -> team_id
  // ---------------------------------------------------------------------------

  /** A document once the users in `done` have been given their teams. */
  function TeamGiven(e: Env, done: set<Value>, d: Doc): Doc
    requires done <= e.teams.Keys
  {
    if TeamId !in d && UserId in d && d[UserId] in done then d[TeamId := e.teams[d[UserId]]] - {Space} else d
  }

  function TeamsGiven(e: Env, done: set<Value>, docs: Docs): Docs
    requires done <= e.teams.Keys
  {
    map i | i in docs :: TeamGiven(e, done, docs[i])
  }

  lemma GiveOneDoc(e: Env, done: set<Value>, u: Value, d: Doc)
    requires done <= e.teams.Keys && u in e.teams && u !in done
    ensures UpdateDoc(TeamGiven(e, done, d), Both(Is(UserId, u), Lacks(TeamId)),
                      Change(map[TeamId := e.teams[u]], {Space}))
         == TeamGiven(e, done + {u}, d)
  {
  }

  lemma GiveOne(e: Env, done: set<Value>, u: Value, docs: Docs)
    requires done <= e.teams.Keys && u in e.teams && u !in done
    ensures UpdateDocs(TeamsGiven(e, done, docs), Both(Is(UserId, u), Lacks(TeamId)),
                       Change(map[TeamId := e.teams[u]], {Space}))
         == TeamsGiven(e, done + {u}, docs)
  {
    forall i | i in docs {
      GiveOneDoc(e, done, u, docs[i]);
    }
  }

  /** A document after the loop over the users and the fallback to the default team. */
  function TeamSettled(e: Env, d: Doc): Doc {
    if TeamId !in d && TeamFor(e, d).Some? then WithTeam(e, d) - {Space} else d
  }

  function TeamsSettled(e: Env, docs: Docs): Docs {
    map i | i in docs :: TeamSettled(e, docs[i])
  }

  lemma SettleDefaultDoc(e: Env, d: Doc)
    ensures TeamSettled(e, d) ==
      if Given(e.defaultTeam)
      then UpdateDoc(TeamGiven(e, e.teams.Keys, d), Where(Lacks(TeamId)),
                     Change(map[TeamId := Str(e.defaultTeam.value)], {Space}))
      else TeamGiven(e, e.teams.Keys, d)
  {
  }

  lemma SettleDefault(e: Env, docs: Docs)
    ensures TeamsSettled(e, docs) ==
      if Given(e.defaultTeam)
      then UpdateDocs(TeamsGiven(e, e.teams.Keys, docs), Where(Lacks(TeamId)),
                      Change(map[TeamId := Str(e.defaultTeam.value)], {Space}))
      else TeamsGiven(e, e.teams.Keys, docs)
  {
    forall i | i in docs {
      SettleDefaultDoc(e, docs[i]);
    }
  }

  lemma SettledThenStrippedDoc(e: Env, d: Doc)
    ensures UpdateDoc(TeamSettled(e, d), Where(Has(Space)), Change(map[], {Space})) == WithTeam(e, d) - {Space}
  {
  }

  lemma SettledThenStripped(e: Env, n: Name, docs: Docs)
    requires SpaceScoped(n)
    ensures UpdateDocs(TeamsSettled(e, docs), Where(Has(Space)), Change(map[], {Space})) == SpaceDocs(e, n, docs)
  {
    forall i | i in docs {
      SettledThenStrippedDoc(e, docs[i]);
    }
  }

  method AssignTeams(db: Database, e: Env, n: Name, dryRun: bool)
    requires db.Valid() && SpaceScoped(n)
    modifies db
    ensures Grown(db)
    ensures db.colls ==
      if dryRun then old(db.colls)
      else Put(old(db.colls), Live(n), SpaceDocs(e, n, DocsIn(old(db.colls), Live(n))))
  {
    var c := Live(n);
    if c !in db.colls {
      return;
    }
    ghost var docs := db.colls[c];
    var need := db.Count(c, Where(Lacks(TeamId)));
    if need > 0 {
      SettleTeams(db, e, n, dryRun);
    } else {
      assert TeamsSettled(e, docs) == docs by {
        assert forall i :: i in docs && TeamId !in docs[i] ==> i in Selected(docs, Where(Lacks(TeamId)));
      }
    }
    SettledThenStripped(e, n, docs);
    UpdateMatching(db, c, Where(Has(Space)), Change(map[], {Space}), dryRun);
  }

  method SettleTeams(db: Database, e: Env, n: Name, dryRun: bool)
    requires db.Valid() && Live(n) in db.colls
    modifies db
    ensures Grown(db)
    ensures db.colls ==
      if dryRun then old(db.colls) else old(db.colls)[Live(n) := TeamsSettled(e, old(db.colls)[Live(n)])]
  {
    var c := Live(n);
    ghost var docs := db.colls[c];
    var left := e.teams.Keys;
    ghost var done: set<Value> := {};
    assert TeamsGiven(e, done, docs) == docs;
    while left != {}
      invariant db.Valid() && db.origin == old(db.origin) && old(db.log) <= db.log
      invariant left !! done && left + done == e.teams.Keys
      invariant db.colls == if dryRun then old(db.colls) else old(db.colls)[c := TeamsGiven(e, done, docs)]
    {
      var u :| u in left;
      GiveOne(e, done, u, docs);
      if !dryRun {
        db.Accept(UpdateMany(c, Both(Is(UserId, u), Lacks(TeamId)), Change(map[TeamId := e.teams[u]], {Space})));
      }
      left, done := left - {u}, done + {u};
    }
    SettleDefault(e, docs);
    if Given(e.defaultTeam) {
      UpdateMatching(db, c, Where(Lacks(TeamId)), Change(map[TeamId := Str(e.defaultTeam.value)], {Space}), dryRun);
    }
  }

  /** A stage on some collections, or nothing in a dry run. */
  function Ran(dryRun: bool, e: Env, stage: Stage, names: set<Name>, db: Colls): Colls {
    if dryRun then db else Only(e, stage, names, db)
  }

  lemma RanThen(dryRun: bool, e: Env, stage: Stage, first: set<Name>, second: set<Name>, db: Colls)
    requires first !! second
    ensures Ran(dryRun, e, stage, second, Ran(dryRun, e, stage, first, db))
         == Ran(dryRun, e, stage, first + second, db)
  {
  }

  lemma SpacesInPlace(e: Env, n: Name, db: Colls)
    ensures Put(db, Live(n), SpaceDocs(e, n, DocsIn(db, Live(n)))) == Only(e, Spaces, {n}, db)
  {
  }

  lemma NewFieldsInPlace(e: Env, n: Name, db: Colls)
    ensures Put(db, Live(n), NewFieldDocs(e, n, DocsIn(db, Live(n)))) == Only(e, NewFields, {n}, db)
  {
  }

  lemma RefsInPlace(e: Env, n: Name, db: Colls)
    ensures Put(db, Live(n), RefDocs(e, n, DocsIn(db, Live(n)))) == Only(e, References, {n}, db)
  {
  }

  lemma CleanInPlace(e: Env, n: Name, db: Colls)
    ensures Put(db, Live(n), CleanDocs(n, DocsIn(db, Live(n)))) == Only(e, Cleanup, {n}, db)
  {
  }

  lemma OnlyIsEach(e: Env, stage: Stage, names: set<Name>, db: Colls)
    requires forall n, docs :: n !in names ==> StageDocs(e, stage, n, docs) == docs
    ensures Only(e, stage, names, db) == Each(e, stage, db)
  {
  }

  method AssignTeamsIn(db: Database, e: Env, n: Name, dryRun: bool)
    requires db.Valid() && SpaceScoped(n)
    modifies db
    ensures Grown(db)
    ensures db.colls == Ran(dryRun, e, Spaces, {n}, old(db.colls))
  {
    SpacesInPlace(e, n, db.colls);
    AssignTeams(db, e, n, dryRun);
  }

  lemma DropSpaceDocs(e: Env, n: Name, docs: Docs)
    requires DropsSpace(n) && !SpaceScoped(n)
    ensures Stripped({Space}, docs) == SpaceDocs(e, n, docs)
  {
  }

  method DropSpaceIn(db: Database, e: Env, n: Name, dryRun: bool)
    requires db.Valid() && DropsSpace(n) && !SpaceScoped(n)
    modifies db
    ensures Grown(db)
    ensures db.colls == Ran(dryRun, e, Spaces, {n}, old(db.colls))
  {
    SpacesInPlace(e, n, db.colls);
    DropSpaceDocs(e, n, DocsIn(db.colls, Live(n)));
    UnsetFields(db, n, {Space}, dryRun);
  }

  const SPACE_COLLECTIONS: seq<Name> := [SmartDocument, SearchSet, Workflow, ChatConversation, KnowledgeBases]

  const SPACE_ONLY: seq<Name> := [SmartFolder, ActivityEvent]

  lemma SpaceNames(n: Name)
    ensures n in NamesIn(SPACE_COLLECTIONS) <==> SpaceScoped(n)
    ensures n in NamesIn(SPACE_ONLY) <==> DropsSpace(n) && !SpaceScoped(n)
  {
  }

  /** The loop over the collections, whose names are given. */
  method TeamsFor(db: Database, e: Env, names: seq<Name>, dryRun: bool)
    requires db.Valid() && forall n :: n in names ==> SpaceScoped(n)
    requires forall i, j :: 0 <= i < j < |names| ==> names[i] != names[j]
    modifies db
    ensures Grown(db)
    ensures db.colls == Ran(dryRun, e, Spaces, NamesIn(names), old(db.colls))
  {
    OnlyNone(e, Spaces, db.colls);
    for k := 0 to |names|
      invariant db.Valid() && db.origin == old(db.origin) && old(db.log) <= db.log
      invariant db.colls == Ran(dryRun, e, Spaces, NamesIn(names[..k]), old(db.colls))
    {
      var n := names[k];
      NamesStep(names, k);
      RanThen(dryRun, e, Spaces, NamesIn(names[..k]), {n}, old(db.colls));
      AssignTeamsIn(db, e, n, dryRun);
    }
    assert names[..|names|] == names;
  }

  method TeamsForScoped(db: Database, e: Env, dryRun: bool)
    requires db.Valid()
    modifies db
    ensures Grown(db)
    ensures db.colls == Ran(dryRun, e, Spaces, NamesIn(SPACE_COLLECTIONS), old(db.colls))
  {
    TeamsFor(db, e, SPACE_COLLECTIONS, dryRun);
  }

  method SpaceFromRest(db: Database, e: Env, dryRun: bool)
    requires db.Valid()
    modifies db
    ensures Grown(db)
    ensures db.colls == Ran(dryRun, e, Spaces, NamesIn(SPACE_ONLY), old(db.colls))
  {
    OnlyNone(e, Spaces, db.colls);
    for k := 0 to |SPACE_ONLY|
      invariant db.Valid() && db.origin == old(db.origin) && old(db.log) <= db.log
      invariant db.colls == Ran(dryRun, e, Spaces, NamesIn(SPACE_ONLY[..k]), old(db.colls))
    {
      var n := SPACE_ONLY[k];
      NamesStep(SPACE_ONLY, k);
      RanThen(dryRun, e, Spaces, NamesIn(SPACE_ONLY[..k]), {n}, old(db.colls));
      DropSpaceIn(db, e, n, dryRun);
    }
    assert SPACE_ONLY[..|SPACE_ONLY|] == SPACE_ONLY;
  }

  lemma SpacesEverywhere(e: Env, db: Colls)
    ensures NamesIn(SPACE_COLLECTIONS) !! NamesIn(SPACE_ONLY)
    ensures Only(e, Spaces, NamesIn(SPACE_COLLECTIONS) + NamesIn(SPACE_ONLY), db) == Each(e, Spaces, db)
  {
    forall n {
      SpaceNames(n);
    }
    forall n, docs: Docs | !DropsSpace(n)
      ensures StageDocs(e, Spaces, n, docs) == docs
    {
      assert SpaceDocs(e, n, docs) == docs;
    }
    OnlyIsEach(e, Spaces, NamesIn(SPACE_COLLECTIONS) + NamesIn(SPACE_ONLY), db);
  }

  method Phase4aSpaces(db: Database, e: Env, dryRun: bool)
    requires db.Valid()
    modifies db
    ensures Grown(db)
    ensures db.colls == if dryRun then old(db.colls) else Each(e, Spaces, old(db.colls))
  {
    SpacesEverywhere(e, db.colls);
    RanThen(dryRun, e, Spaces, NamesIn(SPACE_COLLECTIONS), NamesIn(SPACE_ONLY), db.colls);
    TeamsForScoped(db, e, dryRun);
    SpaceFromRest(db, e, dryRun);
  }

  // ---------------------------------------------------------------------------
  // Phase 4b: new field defaults
  // ---------------------------------------------------------------------------

  function Copied(from: Field, to: Field, docs: Docs): Docs {
    map i | i in docs :: CopyField(from, to, docs[i])
  }

  lemma CopyDoc(from: Field, to: Field, d: Doc, sets: map<Id, Doc>, i: Id)
    requires i in sets <==> to !in d && from in d
    requires i in sets ==> sets[i] == map[to := d[from]]
    ensures BulkSetDoc(d, sets, i) == CopyField(from, to, d)
  {
  }

  /** The updates that copy `from` into `to` wherever `to` is missing. */
  function CopySets(from: Field, to: Field, docs: Docs): map<Id, Doc> {
    map i | i in docs && to !in docs[i] && from in docs[i] :: map[to := docs[i][from]]
  }

  lemma CopyMatching(from: Field, to: Field, docs: Docs)
    ensures BulkSetDocs(docs, CopySets(from, to, docs)) == Copied(from, to, docs)
  {
    var sets := CopySets(from, to, docs);
    forall i | i in docs
      ensures BulkSetDocs(docs, sets)[i] == CopyField(from, to, docs[i])
    {
      CopyDoc(from, to, docs[i], sets, i);
    }
  }

  /** One bulk write, unless there is nothing to write. */
  method BulkWrite(db: Database, c: Coll, sets: map<Id, Doc>, dryRun: bool)
    requires db.Valid() && c.Live?
    modifies db
    ensures Grown(db)
    ensures db.colls == if dryRun then old(db.colls) else Put(old(db.colls), c, BulkSetDocs(DocsIn(old(db.colls), c), sets))
  {
    if sets == map[] {
      assert forall docs: Docs :: BulkSetDocs(docs, sets) == docs;
    } else if !dryRun {
      db.Accept(BulkSet(c, sets));
    }
  }

  /** Copy `from` into `to` wherever `to` is missing: find, then one bulk write. */
  method CopyMissing(db: Database, n: Name, from: Field, to: Field, dryRun: bool)
    requires db.Valid()
    modifies db
    ensures Grown(db)
    ensures db.colls ==
      if dryRun then old(db.colls) else Put(old(db.colls), Live(n), Copied(from, to, DocsIn(old(db.colls), Live(n))))
  {
    var sets := CopySets(from, to, DocsIn(db.colls, Live(n)));
    CopyMatching(from, to, DocsIn(db.colls, Live(n)));
    BulkWrite(db, Live(n), sets, dryRun);
  }

  predicate DefaultsOnly(n: Name) {
    !n.SmartDocument? && Obsolete(n) == {}
  }

  lemma DefaultsOnlyDoc(e: Env, n: Name, d: Doc)
    requires DefaultsOnly(n)
    ensures DefaultsDoc(e, n, d) == Defaults(n, e.now) + d
  {
  }

  lemma DefaultsOnlyDocs(e: Env, n: Name, docs: Docs)
    requires DefaultsOnly(n)
    ensures Filled(Defaults(n, e.now), docs) == NewFieldDocs(e, n, docs)
  {
    forall i | i in docs {
      DefaultsOnlyDoc(e, n, docs[i]);
    }
  }

  lemma DefaultsThenObsolete(e: Env, n: Name, docs: Docs)
    requires !n.SmartDocument?
    ensures Stripped(Obsolete(n), Filled(Defaults(n, e.now), docs)) == NewFieldDocs(e, n, docs)
  {
  }

  function SmartDocumentDocs(docs: Docs): Docs {
    Copied(Path, DownloadPath, Filled(SMART_DOCUMENT_DEFAULTS, docs))
  }

  lemma DefaultsThenCopyDoc(e: Env, d: Doc)
    ensures DefaultsDoc(e, SmartDocument, d) == CopyField(Path, DownloadPath, SMART_DOCUMENT_DEFAULTS + d)
  {
  }

  lemma DefaultsThenCopy(e: Env, docs: Docs)
    ensures SmartDocumentDocs(docs) == NewFieldDocs(e, SmartDocument, docs)
  {
    forall i | i in docs {
      DefaultsThenCopyDoc(e, docs[i]);
    }
  }

  method DefaultsIn(db: Database, e: Env, n: Name, dryRun: bool)
    requires db.Valid() && DefaultsOnly(n)
    modifies db
    ensures Grown(db)
    ensures db.colls == Ran(dryRun, e, NewFields, {n}, old(db.colls))
  {
    NewFieldsInPlace(e, n, db.colls);
    DefaultsOnlyDocs(e, n, DocsIn(db.colls, Live(n)));
    SetDefaults(db, n, Defaults(n, e.now), dryRun);
  }

  method DefaultsAndRemovalsIn(db: Database, e: Env, n: Name, dryRun: bool)
    requires db.Valid() && !n.SmartDocument?
    modifies db
    ensures Grown(db)
    ensures db.colls == Ran(dryRun, e, NewFields, {n}, old(db.colls))
  {
    NewFieldsInPlace(e, n, db.colls);
    DefaultsThenObsolete(e, n, DocsIn(db.colls, Live(n)));
    SetDefaults(db, n, Defaults(n, e.now), dryRun);
    UnsetFields(db, n, Obsolete(n), dryRun);
  }

  method SmartDocumentFieldsInPlace(db: Database, dryRun: bool)
    requires db.Valid()
    modifies db
    ensures Grown(db)
    ensures db.colls ==
      if dryRun then old(db.colls)
      else Put(old(db.colls), Live(SmartDocument), SmartDocumentDocs(DocsIn(old(db.colls), Live(SmartDocument))))
  {
    SetDefaults(db, SmartDocument, SMART_DOCUMENT_DEFAULTS, dryRun);
    CopyMissing(db, SmartDocument, Path, DownloadPath, dryRun);
  }

  method SmartDocumentFields(db: Database, ghost e: Env, dryRun: bool)
    requires db.Valid()
    modifies db
    ensures Grown(db)
    ensures db.colls == Ran(dryRun, e, NewFields, {SmartDocument}, old(db.colls))
  {
    NewFieldsInPlace(e, SmartDocument, db.colls);
    DefaultsThenCopy(e, DocsIn(db.colls, Live(SmartDocument)));
    SmartDocumentFieldsInPlace(db, dryRun);
  }

  const ACCOUNT_NAMES: set<Name> := {User, Name.Team, SmartDocument}
  const LIBRARY_NAMES: set<Name> := {SearchSet, SearchSetItem, Workflow, WorkflowResult}
  const CHAT_NAMES: set<Name> := {ChatMessage, SystemConfig, GraphSubscription}
  const QUALITY_NAMES: set<Name> := {VerifiedItemMetadata, ExtractionQualityRecord}

  method AccountFields(db: Database, e: Env, dryRun: bool)
    requires db.Valid()
    modifies db
    ensures Grown(db)
    ensures db.colls == Ran(dryRun, e, NewFields, ACCOUNT_NAMES, old(db.colls))
  {
    ghost var start := db.colls;
    DefaultsIn(db, e, User, dryRun);
    RanThen(dryRun, e, NewFields, {User}, {Name.Team}, start);
    DefaultsIn(db, e, Name.Team, dryRun);
    RanThen(dryRun, e, NewFields, {User} + {Name.Team}, {SmartDocument}, start);
    SmartDocumentFields(db, e, dryRun);
    assert {User} + {Name.Team} + {SmartDocument} == ACCOUNT_NAMES;
  }

  method LibraryFields(db: Database, e: Env, dryRun: bool)
    requires db.Valid()
    modifies db
    ensures Grown(db)
    ensures db.colls == Ran(dryRun, e, NewFields, LIBRARY_NAMES, old(db.colls))
  {
    ghost var start := db.colls;
    DefaultsIn(db, e, SearchSet, dryRun);
    RanThen(dryRun, e, NewFields, {SearchSet}, {SearchSetItem}, start);
    DefaultsAndRemovalsIn(db, e, SearchSetItem, dryRun);
    RanThen(dryRun, e, NewFields, {SearchSet} + {SearchSetItem}, {Workflow}, start);
    DefaultsIn(db, e, Workflow, dryRun);
    RanThen(dryRun, e, NewFields, {SearchSet} + {SearchSetItem} + {Workflow}, {WorkflowResult}, start);
    DefaultsAndRemovalsIn(db, e, WorkflowResult, dryRun);
    assert {SearchSet} + {SearchSetItem} + {Workflow} + {WorkflowResult} == LIBRARY_NAMES;
  }

  method ChatFields(db: Database, e: Env, dryRun: bool)
    requires db.Valid()
    modifies db
    ensures Grown(db)
    ensures db.colls == Ran(dryRun, e, NewFields, CHAT_NAMES, old(db.colls))
  {
    ghost var start := db.colls;
    DefaultsIn(db, e, ChatMessage, dryRun);
    RanThen(dryRun, e, NewFields, {ChatMessage}, {SystemConfig}, start);
    DefaultsIn(db, e, SystemConfig, dryRun);
    RanThen(dryRun, e, NewFields, {ChatMessage} + {SystemConfig}, {GraphSubscription}, start);
    DefaultsIn(db, e, GraphSubscription, dryRun);
    assert {ChatMessage} + {SystemConfig} + {GraphSubscription} == CHAT_NAMES;
  }

  method QualityFields(db: Database, e: Env, dryRun: bool)
    requires db.Valid()
    modifies db
    ensures Grown(db)
    ensures db.colls == Ran(dryRun, e, NewFields, QUALITY_NAMES, old(db.colls))
  {
    ghost var start := db.colls;
    DefaultsIn(db, e, VerifiedItemMetadata, dryRun);
    RanThen(dryRun, e, NewFields, {VerifiedItemMetadata}, {ExtractionQualityRecord}, start);
    DefaultsIn(db, e, ExtractionQualityRecord, dryRun);
    assert {VerifiedItemMetadata} + {ExtractionQualityRecord} == QUALITY_NAMES;
  }

  const NEW_FIELD_NAMES: set<Name> := ACCOUNT_NAMES + LIBRARY_NAMES + CHAT_NAMES + QUALITY_NAMES

  lemma NothingNew(n: Name, now: Value)
    requires n !in NEW_FIELD_NAMES
    ensures Defaults(n, now) == map[] && DefaultsOnly(n)
  {
  }

  lemma NewFieldsElsewhere(e: Env, n: Name, docs: Docs)
    requires n !in NEW_FIELD_NAMES
    ensures NewFieldDocs(e, n, docs) == docs
  {
    NothingNew(n, e.now);
    forall i | i in docs
      ensures DefaultsDoc(e, n, docs[i]) == docs[i]
    {
      DefaultsOnlyDoc(e, n, docs[i]);
      assert map[] + docs[i] == docs[i];
    }
  }

  lemma NewFieldsEverywhere(e: Env, db: Colls)
    ensures Only(e, NewFields, NEW_FIELD_NAMES, db) == Each(e, NewFields, db)
  {
    forall n, docs: Docs | n !in NEW_FIELD_NAMES
      ensures StageDocs(e, NewFields, n, docs) == docs
    {
      NewFieldsElsewhere(e, n, docs);
    }
    OnlyIsEach(e, NewFields, NEW_FIELD_NAMES, db);
  }

  lemma NewFieldGroups(dryRun: bool, e: Env, db: Colls)
    ensures
      var accounts := Ran(dryRun, e, NewFields, ACCOUNT_NAMES, db);
      var library := Ran(dryRun, e, NewFields, LIBRARY_NAMES, accounts);
      var chat := Ran(dryRun, e, NewFields, CHAT_NAMES, library);
      Ran(dryRun, e, NewFields, QUALITY_NAMES, chat) == if dryRun then db else Each(e, NewFields, db)
  {
    RanThen(dryRun, e, NewFields, ACCOUNT_NAMES, LIBRARY_NAMES, db);
    RanThen(dryRun, e, NewFields, ACCOUNT_NAMES + LIBRARY_NAMES, CHAT_NAMES, db);
    RanThen(dryRun, e, NewFields, ACCOUNT_NAMES + LIBRARY_NAMES + CHAT_NAMES, QUALITY_NAMES, db);
    NewFieldsEverywhere(e, db);
  }

  method Phase4bNewFields(db: Database, e: Env, dryRun: bool)
    requires db.Valid()
    modifies db
    ensures Grown(db)
    ensures db.colls == if dryRun then old(db.colls) else Each(e, NewFields, old(db.colls))
  {
    NewFieldGroups(dryRun, e, db.colls);
    AccountFields(db, e, dryRun);
    LibraryFields(db, e, dryRun);
    ChatFields(db, e, dryRun);
    QualityFields(db, e, dryRun);
  }
}
