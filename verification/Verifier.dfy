/**
 Phase 5 of `migrate_flask_to_beanie.py`: the checks, and what they find after a
 complete live run.
 */
module Verifier {
  import opened Wrappers
  import opened Ids
  import opened Mongo
  import opened Conversion
  import opened Migration
  import opened MigrationRun
  import opened Backups

  datatype Issue =
    | StillCls(name: Name, count: nat)
    | StillSpace(name: Name, count: nat)
    | MissingTeam(name: Name, count: nat)
    | ItemStillObj(count: nat)
    | ItemMissingId(count: nat)
    | ItemMissingKind(count: nat)
    | ItemOldKind(count: nat)
    | SourceMissingUuid(count: nat)
    | RequestMissingItem(count: nat)
    | CollectionMissingItems(count: nat)
    | OldNameLeft(name: Name)
    | CountChanged(coll: Coll, before: nat, now: nat)

  function CountIn(db: Colls, n: Name, t: Test): nat {
    |Selected(DocsIn(db, Live(n)), Where(t))|
  }

  /** The collections checked for a leftover `space`. */
  predicate CheckedForSpace(n: Name) {
    DropsSpace(n) && !n.ChatConversation?
  }

  /** The name under which a recorded collection is counted again. */
  function Recounted(c: Coll): Coll {
    if c.Live? then Live(CurrentName(c.name)) else c
  }

  predicate MayShrink(c: Coll) {
    c == Live(LibraryItem) || c == Live(VerificationRequest)
  }

  /** Collection `c` of the baseline has an unexpected number of documents now. */
  predicate CountOff(db: Colls, pre: map<Coll, nat>, c: Coll)
    requires c in pre
  {
    Recounted(c) in db && |db[Recounted(c)]| != pre[c] &&
    !(MayShrink(Recounted(c)) && |db[Recounted(c)]| < pre[c])
  }

  /** What counts as an issue. */
  ghost predicate IsIssue(db: Colls, pre: map<Coll, nat>, x: Issue) {
    match x
    case StillCls(n, k) => k == CountIn(db, n, Has(Cls)) > 0
    case StillSpace(n, k) => CheckedForSpace(n) && k == CountIn(db, n, Has(Space)) > 0
    case MissingTeam(n, k) => SpaceScoped(n) && Live(n) in db && k == CountIn(db, n, Lacks(TeamId)) > 0
    case ItemStillObj(k) => k == CountIn(db, LibraryItem, Has(Obj)) > 0
    case ItemMissingId(k) => k == CountIn(db, LibraryItem, Lacks(ItemId)) > 0
    case ItemMissingKind(k) => k == CountIn(db, LibraryItem, Lacks(Kind)) > 0
    case ItemOldKind(k) => k == CountIn(db, LibraryItem, Is(Kind, Str(Text.OldSearchSetKind))) > 0
    case SourceMissingUuid(k) => k == CountIn(db, KnowledgeBaseSources, Lacks(KnowledgeBaseUuid)) > 0
    case RequestMissingItem(k) => k == CountIn(db, VerificationRequest, Lacks(ItemId)) > 0
    case CollectionMissingItems(k) => k == CountIn(db, VerifiedCollection, Lacks(ItemIds)) > 0
    case OldNameLeft(n) => NewName(n).Some? && Live(n) in db
    case CountChanged(c, before, now) =>
      c in db && now == |db[c]| &&
      exists b :: b in pre && Recounted(b) == c && before == pre[b] && CountOff(db, pre, b)
  }

  /** A leftover `space` is an issue in six collections, and nowhere else. */
  lemma SpaceReported(db: Colls, pre: map<Coll, nat>, n: Name, i: Id)
    requires i in DocsIn(db, Live(n)) && Space in DocsIn(db, Live(n))[i]
    ensures IsIssue(db, pre, StillSpace(n, CountIn(db, n, Has(Space)))) <==>
      n in {SmartDocument, SmartFolder, SearchSet, Workflow, KnowledgeBases, ActivityEvent}
  {
    assert i in Selected(DocsIn(db, Live(n)), Where(Has(Space)));
  }

  /** A document without a team is an issue in five. */
  lemma MissingTeamReported(db: Colls, pre: map<Coll, nat>, n: Name, i: Id)
    requires i in DocsIn(db, Live(n)) && TeamId !in DocsIn(db, Live(n))[i]
    ensures IsIssue(db, pre, MissingTeam(n, CountIn(db, n, Lacks(TeamId)))) <==>
      n in {SmartDocument, SearchSet, Workflow, ChatConversation, KnowledgeBases}
  {
    assert i in Selected(DocsIn(db, Live(n)), Where(Lacks(TeamId)));
  }

  /** A count that changed is an issue, except a smaller one of library items or verification requests. */
  lemma CountReported(db: Colls, pre: map<Coll, nat>, c: Coll)
    requires c in db && c in pre && (c.Live? ==> NewName(c.name).None?)
    ensures IsIssue(db, pre, CountChanged(c, pre[c], |db[c]|)) <==>
      |db[c]| > pre[c] || (|db[c]| < pre[c] && c != Live(LibraryItem) && c != Live(VerificationRequest))
  {
    assert Recounted(c) == c;
  }

  /** A collection recorded under its old name is counted under its new one. */
  lemma RenamedCountReported(db: Colls, pre: map<Coll, nat>, o: Name, n: Name)
    requires NewName(o) == Some(n) && Live(o) in pre && Live(n) in db
    ensures IsIssue(db, pre, CountChanged(Live(n), pre[Live(o)], |db[Live(n)]|)) <==> |db[Live(n)]| != pre[Live(o)]
  {
    assert Recounted(Live(o)) == Live(n);
  }

  // ---------------------------------------------------------------------------
  // The checks
  // ---------------------------------------------------------------------------

  method CheckCls(db: Database) returns (found: seq<Issue>)
    ensures forall x :: x in found <==> x.StillCls? && IsIssue(db.colls, map[], x)
  {
    found := [];
    var left := set c | c in db.colls.Keys && c.Live? :: c.name;
    ghost var names := left;
    while left != {}
      invariant left <= names
      invariant forall x :: x in found <==> x.StillCls? && x.name in names - left && IsIssue(db.colls, map[], x)
    {
      var n :| n in left;
      var count := db.Count(Live(n), Where(Has(Cls)));
      left := left - {n};
      if count > 0 {
        found := found + [StillCls(n, count)];
      }
    }
    forall x: Issue | x.StillCls? && IsIssue(db.colls, map[], x)
      ensures x.name in names
    {
      assert Selected(DocsIn(db.colls, Live(x.name)), Where(Has(Cls))) != {};
    }
  }

  const CHECKED_FOR_SPACE: seq<Name> :=
    [SmartDocument, SmartFolder, SearchSet, Workflow, KnowledgeBases, ActivityEvent]

  lemma SpaceChecks(n: Name)
    ensures n in CHECKED_FOR_SPACE <==> CheckedForSpace(n)
  {
  }

  method CheckSpace(db: Database) returns (found: seq<Issue>)
    ensures forall x :: x in found <==> x.StillSpace? && IsIssue(db.colls, map[], x)
  {
    found := [];
    for k := 0 to |CHECKED_FOR_SPACE|
      invariant forall x :: x in found <==>
        x.StillSpace? && x.name in CHECKED_FOR_SPACE[..k] && x.count == CountIn(db.colls, x.name, Has(Space)) > 0
    {
      var n := CHECKED_FOR_SPACE[k];
      assert CHECKED_FOR_SPACE[..k + 1] == CHECKED_FOR_SPACE[..k] + [n];
      if Live(n) in db.colls {
        var count := db.Count(Live(n), Where(Has(Space)));
        if count > 0 {
          found := found + [StillSpace(n, count)];
        }
      } else {
        assert Selected(DocsIn(db.colls, Live(n)), Where(Has(Space))) == {};
      }
    }
    assert CHECKED_FOR_SPACE[..|CHECKED_FOR_SPACE|] == CHECKED_FOR_SPACE;
    forall n {
      SpaceChecks(n);
    }
  }

  method CheckTeams(db: Database) returns (found: seq<Issue>)
    ensures forall x :: x in found <==> x.MissingTeam? && IsIssue(db.colls, map[], x)
  {
    found := [];
    for k := 0 to |SPACE_COLLECTIONS|
      invariant forall x :: x in found <==>
        x.MissingTeam? && x.name in SPACE_COLLECTIONS[..k] && Live(x.name) in db.colls
        && x.count == CountIn(db.colls, x.name, Lacks(TeamId)) > 0
    {
      var n := SPACE_COLLECTIONS[k];
      assert SPACE_COLLECTIONS[..k + 1] == SPACE_COLLECTIONS[..k] + [n];
      if Live(n) in db.colls {
        var count := db.Count(Live(n), Where(Lacks(TeamId)));
        if count > 0 {
          found := found + [MissingTeam(n, count)];
        }
      }
    }
    assert SPACE_COLLECTIONS[..|SPACE_COLLECTIONS|] == SPACE_COLLECTIONS;
    forall n
      ensures n in SPACE_COLLECTIONS <==> SpaceScoped(n)
    {
      SpaceNames(n);
      assert n in SPACE_COLLECTIONS <==> n in NamesIn(SPACE_COLLECTIONS);
    }
  }

  method CountLive(db: Database, n: Name, t: Test) returns (k: nat)
    ensures k == CountIn(db.colls, n, t)
  {
    if Live(n) !in db.colls {
      assert Selected(DocsIn(db.colls, Live(n)), Where(t)) == {};
      return 0;
    }
    k := db.Count(Live(n), Where(t));
  }

  predicate AboutItems(x: Issue) {
    x.ItemStillObj? || x.ItemMissingId? || x.ItemMissingKind? || x.ItemOldKind?
  }

  method CheckItems(db: Database) returns (found: seq<Issue>)
    ensures forall x :: x in found <==> AboutItems(x) && IsIssue(db.colls, map[], x)
  {
    found := [];
    var obj := CountLive(db, LibraryItem, Has(Obj));
    if obj > 0 {
      found := found + [ItemStillObj(obj)];
    }
    var id := CountLive(db, LibraryItem, Lacks(ItemId));
    if id > 0 {
      found := found + [ItemMissingId(id)];
    }
    var kind := CountLive(db, LibraryItem, Lacks(Kind));
    if kind > 0 {
      found := found + [ItemMissingKind(kind)];
    }
    var former := CountLive(db, LibraryItem, Is(Kind, Str(Text.OldSearchSetKind)));
    if former > 0 {
      found := found + [ItemOldKind(former)];
    }
  }

  predicate MissesReference(x: Issue) {
    x.SourceMissingUuid? || x.RequestMissingItem? || x.CollectionMissingItems?
  }

  method CheckReferences(db: Database) returns (found: seq<Issue>)
    ensures forall x :: x in found <==> MissesReference(x) && IsIssue(db.colls, map[], x)
  {
    found := [];
    var sources := CountLive(db, KnowledgeBaseSources, Lacks(KnowledgeBaseUuid));
    if sources > 0 {
      found := found + [SourceMissingUuid(sources)];
    }
    var requests := CountLive(db, VerificationRequest, Lacks(ItemId));
    if requests > 0 {
      found := found + [RequestMissingItem(requests)];
    }
    var collections := CountLive(db, VerifiedCollection, Lacks(ItemIds));
    if collections > 0 {
      found := found + [CollectionMissingItems(collections)];
    }
  }

  method CheckOldNames(db: Database) returns (found: seq<Issue>)
    ensures forall x :: x in found <==> x.OldNameLeft? && IsIssue(db.colls, map[], x)
  {
    found := [];
    for k := 0 to |OLD_NAMES|
      invariant forall x :: x in found <==>
        x.OldNameLeft? && x.name in OLD_NAMES[..k] && Live(x.name) in db.colls
    {
      assert OLD_NAMES[..k + 1] == OLD_NAMES[..k] + [OLD_NAMES[k]];
      if Live(OLD_NAMES[k]) in db.colls {
        found := found + [OldNameLeft(OLD_NAMES[k])];
      }
    }
    assert OLD_NAMES[..|OLD_NAMES|] == OLD_NAMES;
    assert OLD_NAMES[0] == WorkflowTriggerEvents && OLD_NAMES[1] == GraphSubscriptions && OLD_NAMES[2] == M365AuditLog;
  }

  ghost predicate CountIssue(db: Colls, pre: map<Coll, nat>, recounted: set<Coll>, x: Issue)
    requires recounted <= pre.Keys
  {
    x.CountChanged? && x.coll in db && x.now == |db[x.coll]| &&
    exists b :: b in recounted && Recounted(b) == x.coll && x.before == pre[b] && CountOff(db, pre, b)
  }

  lemma OneMoreCount(db: Colls, pre: map<Coll, nat>, done: set<Coll>, b: Coll, x: Issue)
    requires done <= pre.Keys && b in pre
    ensures CountIssue(db, pre, done + {b}, x) <==>
      (CountIssue(db, pre, done, x) ||
       (CountOff(db, pre, b) && x == CountChanged(Recounted(b), pre[b], |db[Recounted(b)]|)))
  {
  }

  method CheckCounts(db: Database, pre: map<Coll, nat>) returns (found: seq<Issue>)
    ensures forall x :: x in found <==> x.CountChanged? && IsIssue(db.colls, pre, x)
  {
    found := [];
    var left := pre.Keys;
    while left != {}
      invariant left <= pre.Keys
      invariant forall x :: x in found <==> CountIssue(db.colls, pre, pre.Keys - left, x)
    {
      var b :| b in left;
      forall x {
        OneMoreCount(db.colls, pre, pre.Keys - left, b, x);
      }
      assert pre.Keys - (left - {b}) == (pre.Keys - left) + {b};
      left := left - {b};
      var check := Recounted(b);
      if check in db.colls {
        var now := |db.colls[check]|;
        if now != pre[b] {
          if MayShrink(check) && now < pre[b] {
          } else {
            found := found + [CountChanged(check, pre[b], now)];
          }
        }
      }
    }
  }

  /** Phase 5: the issues reported are exactly the things that count as one. */
  method Phase5Verify(db: Database, pre: map<Coll, nat>) returns (issues: seq<Issue>)
    ensures forall x :: x in issues <==> IsIssue(db.colls, pre, x)
  {
    var cls := CheckCls(db);
    var space := CheckSpace(db);
    var teams := CheckTeams(db);
    var items := CheckItems(db);
    var references := CheckReferences(db);
    var names := CheckOldNames(db);
    var counts := CheckCounts(db, pre);
    issues := cls + space + teams + items + references + names + counts;
  }
}
