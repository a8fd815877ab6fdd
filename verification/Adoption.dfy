/**
 `adopt_orphaned_workflows.py`: workflows that nothing leads to get a bookmark in their
 owner's personal library, while owners go on changing their bookmarks.
 */
module Adoption {
  import opened Wrappers
  import opened Ids

  /** `owner` is `created_by_user_id`, or else `user_id`. */
  datatype Workflow = Workflow(userId: string, owner: string)

  datatype Item = Item(target: Id, ofWorkflow: bool)

  datatype Library = Library(personal: bool, owner: string, items: seq<Id>)

  /** Every id in use is below `next`, the rank of the next ObjectId. */
  datatype Db = Db(workflows: map<Id, Workflow>, items: map<Id, Item>, libs: map<Id, Library>, next: nat)

  predicate Fresh(db: Db) {
    && (forall i :: i in db.items ==> i.rank < db.next)
    && (forall i :: i in db.libs ==> i.rank < db.next)
  }

  /** Some library lists the item. */
  ghost predicate Listed(db: Db, i: Id) {
    exists l :: l in db.libs && i in db.libs[l].items
  }

  /** A bookmark: an item for the workflow that some library lists. */
  ghost predicate Bookmarked(db: Db, w: Id) {
    exists i :: i in db.items && db.items[i] == Item(w, true) && Listed(db, i)
  }

  /** `bookmarked_workflow_ids`: the items' targets, looked up in the libraries' lists. */
  function BookmarkedIds(db: Db): set<Id> {
    var live := set l, i | l in db.libs && i in db.libs[l].items :: i;
    set i | i in db.items && db.items[i].ofWorkflow && i in live :: db.items[i].target
  }

  lemma BookmarksFound(db: Db, w: Id)
    ensures w in BookmarkedIds(db) <==> Bookmarked(db, w)
  {
  }

  predicate Selected(wf: Workflow, who: Option<string>) {
    who.None? || wf.userId == who.value
  }

  /** Nothing leads to the workflow: `referenced` are those that an automation, a pin or the
      verified catalog points at. */
  ghost predicate Orphan(db: Db, referenced: set<Id>, w: Id) {
    !Bookmarked(db, w) && w !in referenced
  }

  // ---------------------------------------------------------------------------
  // What others may do in the meantime
  // ---------------------------------------------------------------------------

  /** Others add items and libraries and rearrange lists, and never leave a workflow without
      the bookmark it had. */
  ghost predicate Meddled(before: Db, after: Db) {
    && Fresh(after) && before.next <= after.next && after.workflows == before.workflows
    && (forall i :: i in before.items ==> i in after.items && after.items[i] == before.items[i])
    && (forall l :: l in before.libs ==> l in after.libs)
    && (forall w :: Bookmarked(before, w) ==> Bookmarked(after, w))
  }

  /** What others do at each of the points where the script waits. */
  type World = (nat, Db) -> Db

  ghost predicate Polite(world: World) {
    forall k, db :: Fresh(db) ==> Meddled(db, world(k, db))
  }

  lemma MeddledTwice(a: Db, b: Db, c: Db)
    requires Meddled(a, b) && Meddled(b, c)
    ensures Meddled(a, c)
  {
  }

  // ---------------------------------------------------------------------------
  // The script's writes
  // ---------------------------------------------------------------------------

  /** `$push` with `$each`. */
  function Pushed(db: Db, l: Id, ids: seq<Id>): Db {
    if l in db.libs then db.(libs := db.libs[l := db.libs[l].(items := db.libs[l].items + ids)]) else db
  }

  lemma ItemAdded(db: Db, w: Id)
    requires Fresh(db)
    ensures Meddled(db, db.(items := db.items[Id(db.next) := Item(w, true)], next := db.next + 1))
  {
  }

  lemma LibraryAdded(db: Db, lib: Library)
    requires Fresh(db)
    ensures Meddled(db, db.(libs := db.libs[Id(db.next) := lib], next := db.next + 1))
  {
    var after := db.(libs := db.libs[Id(db.next) := lib], next := db.next + 1);
    forall i | Listed(db, i)
      ensures Listed(after, i)
    {
      var l :| l in db.libs && i in db.libs[l].items;
      assert after.libs[l] == db.libs[l];
    }
    forall v | Bookmarked(db, v)
      ensures Bookmarked(after, v)
    {
      var i :| i in db.items && db.items[i] == Item(v, true) && Listed(db, i);
      assert Listed(after, i) && after.items[i] == db.items[i];
    }
  }

  lemma PushKeeps(db: Db, l: Id, ids: seq<Id>)
    requires Fresh(db) && l in db.libs
    ensures Meddled(db, Pushed(db, l, ids))
    ensures forall i :: i in ids ==> Listed(Pushed(db, l, ids), i)
  {
  }

  // ---------------------------------------------------------------------------
  // The run, one write or wait at a time
  // ---------------------------------------------------------------------------

  function PersonalIds(db: Db, owner: string): set<Id> {
    set m | m in db.libs && db.libs[m].personal && db.libs[m].owner == owner
  }

  /** The owner's personal library: the first there is, or the one to be made. */
  function PersonalId(db: Db, owner: string): Id {
    if PersonalIds(db, owner) != {} then Least(PersonalIds(db, owner)) else Id(db.next)
  }

  function WithPersonal(db: Db, owner: string): Db {
    if PersonalIds(db, owner) != {} then db
    else db.(libs := db.libs[Id(db.next) := Library(true, owner, [])], next := db.next + 1)
  }

  function WithItem(db: Db, w: Id): Db {
    db.(items := db.items[Id(db.next) := Item(w, true)], next := db.next + 1)
  }

  /** What the script does for an owner. `Others(k)` is a moment at which others may act. */
  datatype Action = FindLibrary(owner: string) | Insert(w: Id) | Others(k: nat) | Push

  /** The database, and the library and the new items of the owner at hand. */
  datatype Run = Run(db: Db, lib: Id, ids: seq<Id>)

  function Do(r: Run, a: Action, world: World): Run {
    match a
    case FindLibrary(owner) => Run(WithPersonal(r.db, owner), PersonalId(r.db, owner), [])
    case Insert(w) => Run(WithItem(r.db, w), r.lib, r.ids + [Id(r.db.next)])
    case Others(k) => r.(db := world(k, r.db))
    case Push => r.(db := Pushed(r.db, r.lib, r.ids))
  }

  function Perform(r: Run, actions: seq<Action>, world: World): Run {
    if actions == [] then r
    else Do(Perform(r, actions[..|actions| - 1], world), actions[|actions| - 1], world)
  }

  function Inserts(ws: seq<Id>, clock: nat): seq<Action> {
    if ws == [] then []
    else Inserts(ws[..|ws| - 1], clock) + [Insert(ws[|ws| - 1]), Others(clock + |ws| - 1)]
  }

  /** Everything before the push. */
  function UpToPush(owner: string, ws: seq<Id>, clock: nat): seq<Action> {
    [Others(clock), FindLibrary(owner), Others(clock + 1)] + Inserts(ws, clock + 2)
  }

  function OwnerActions(owner: string, ws: seq<Id>, clock: nat): seq<Action> {
    UpToPush(owner, ws, clock) + [Push]
  }

  /** How often others may have acted when the owners in `names` are done. */
  function Clock(names: seq<string>, groups: map<string, seq<Id>>): nat
    requires forall o :: o in names ==> o in groups
  {
    if names == [] then 0 else Clock(names[..|names| - 1], groups) + |groups[names[|names| - 1]]| + 2
  }

  function AllActions(names: seq<string>, groups: map<string, seq<Id>>): seq<Action>
    requires forall o :: o in names ==> o in groups
  {
    if names == [] then [] else
    var front, last := names[..|names| - 1], names[|names| - 1];
    AllActions(front, groups) + OwnerActions(last, groups[last], Clock(front, groups))
  }

  lemma {:induction false} PerformSum(r: Run, a: seq<Action>, b: seq<Action>, world: World)
    ensures Perform(r, a + b, world) == Perform(Perform(r, a, world), b, world)
  {
    if b == [] {
      assert a + b == a;
    } else {
      assert (a + b)[..|a + b| - 1] == a + b[..|b| - 1];
      PerformSum(r, a, b[..|b| - 1], world);
    }
  }

  lemma PerformOne(r: Run, a: seq<Action>, last: Action, world: World)
    ensures Perform(r, a + [last], world) == Do(Perform(r, a, world), last, world)
  {
    assert (a + [last])[..|a + [last]| - 1] == a;
  }

  lemma PerformTwo(r: Run, a: seq<Action>, b: Action, c: Action, world: World)
    ensures Perform(r, a + [b, c], world) == Do(Do(Perform(r, a, world), b, world), c, world)
  {
    assert a + [b, c] == (a + [b]) + [c];
    PerformOne(r, a, b, world);
    PerformOne(r, a + [b], c, world);
  }

  /** Only the database matters to an owner's actions, which set the rest themselves. */
  lemma FirstThree(r: Run, owner: string, clock: nat, world: World)
    ensures var found := world(clock, r.db);
      Perform(r, [Others(clock), FindLibrary(owner), Others(clock + 1)], world)
        == Run(world(clock + 1, WithPersonal(found, owner)), PersonalId(found, owner), [])
  {
    PerformOne(r, [], Others(clock), world);
    PerformTwo(r, [Others(clock)], FindLibrary(owner), Others(clock + 1), world);
    assert [] + [Others(clock)] == [Others(clock)];
    assert [Others(clock)] + [FindLibrary(owner), Others(clock + 1)] == [Others(clock), FindLibrary(owner), Others(clock + 1)];
  }

  /** Others hand out new ids as the script does. */
  ghost predicate Orderly(world: World) {
    forall k, db :: Fresh(db) ==> Fresh(world(k, db))
  }

  lemma {:induction false} PerformFresh(r: Run, actions: seq<Action>, world: World)
    requires Fresh(r.db) && Orderly(world)
    ensures Fresh(Perform(r, actions, world).db)
  {
    if actions != [] {
      PerformFresh(r, actions[..|actions| - 1], world);
    }
  }

  /** The script itself takes nothing off any list. */
  lemma OwnStepKeeps(r: Run, a: Action, world: World, l: Id, i: Id)
    requires Fresh(r.db) && !a.Others? && l in r.db.libs && i in r.db.libs[l].items
    ensures var after := Do(r, a, world).db; l in after.libs && i in after.libs[l].items
  {
  }

  predicate IsOn(db: Db, l: Id, i: Id) {
    l in db.libs && i in db.libs[l].items
  }

  /** The database after `q` actions. */
  function After(r: Run, actions: seq<Action>, world: World, q: nat): Db
    requires q <= |actions|
  {
    Perform(r, actions[..q], world).db
  }

  /** Others do not take the item off the list when they act after `q` actions. */
  ghost predicate LeavesOn(r: Run, actions: seq<Action>, world: World, q: nat, l: Id, i: Id)
    requires q < |actions|
  {
    actions[q].Others? && IsOn(After(r, actions, world, q), l, i) ==> IsOn(After(r, actions, world, q + 1), l, i)
  }

  /** After `p` actions the item is on the list, and others leave it there from then on. */
  ghost predicate ListedAndLeft(r: Run, actions: seq<Action>, world: World, p: nat, l: Id, i: Id) {
    && p <= |actions| && IsOn(After(r, actions, world, p), l, i)
    && forall q :: p <= q < |actions| ==> LeavesOn(r, actions, world, q, l, i)
  }

  lemma NextIsOn(r: Run, actions: seq<Action>, world: World, q: nat, l: Id, i: Id)
    requires Fresh(r.db) && Orderly(world) && q < |actions|
    requires IsOn(After(r, actions, world, q), l, i) && LeavesOn(r, actions, world, q, l, i)
    ensures IsOn(After(r, actions, world, q + 1), l, i)
  {
    PerformFresh(r, actions[..q], world);
    if !actions[q].Others? {
      assert actions[..q + 1] == actions[..q] + [actions[q]];
      PerformOne(r, actions[..q], actions[q], world);
      OwnStepKeeps(Perform(r, actions[..q], world), actions[q], world, l, i);
    }
  }

  /** What is on a list at any moment of the run, and what others do not take off it
      themselves, is on it at the end: no bookmark made while the script runs is lost. */
  lemma {:induction false} NoUpdateLost(r: Run, actions: seq<Action>, world: World, p: nat, l: Id, i: Id)
    requires Fresh(r.db) && Orderly(world) && ListedAndLeft(r, actions, world, p, l, i)
    ensures IsOn(Perform(r, actions, world).db, l, i)
    decreases |actions| - p
  {
    if p < |actions| {
      NextIsOn(r, actions, world, p, l, i);
      NoUpdateLost(r, actions, world, p + 1, l, i);
    } else {
      assert actions[..p] == actions;
    }
  }

  /** Whatever was on a list at any moment and was left there by others is on it in `final`. */
  ghost predicate AllKept(r: Run, actions: seq<Action>, world: World, final: Db) {
    forall p, l, i :: ListedAndLeft(r, actions, world, p, l, i) ==> IsOn(final, l, i)
  }

  lemma NothingLost(r: Run, actions: seq<Action>, world: World)
    ensures Fresh(r.db) && Orderly(world) ==> AllKept(r, actions, world, Perform(r, actions, world).db)
  {
    if Fresh(r.db) && Orderly(world) {
      forall p, l, i | ListedAndLeft(r, actions, world, p, l, i) {
        NoUpdateLost(r, actions, world, p, l, i);
      }
    }
  }

  // ---------------------------------------------------------------------------
  // The scan
  // ---------------------------------------------------------------------------

  /** The workflows a run looks at, in natural order. */
  function SelectedIds(db: Db, who: Option<string>): (ids: seq<Id>)
    ensures forall w :: w in ids <==> w in db.workflows && Selected(db.workflows[w], who)
  {
    Sorted(set w | w in db.workflows && Selected(db.workflows[w], who))
  }

  function OrphansIn(known: set<Id>, referenced: set<Id>, ids: seq<Id>): (r: seq<Id>)
    ensures forall w :: w in r <==> w in ids && w !in known && w !in referenced
  {
    if ids == [] then [] else
    var w := ids[|ids| - 1];
    OrphansIn(known, referenced, ids[..|ids| - 1]) + (if w in known || w in referenced then [] else [w])
  }

  lemma OrphansStep(known: set<Id>, referenced: set<Id>, ids: seq<Id>, k: nat)
    requires k < |ids|
    ensures OrphansIn(known, referenced, ids[..k + 1]) ==
      OrphansIn(known, referenced, ids[..k]) + (if ids[k] in known || ids[k] in referenced then [] else [ids[k]])
  {
    assert ids[..k + 1][..k] == ids[..k];
  }

  /** `groups` has every workflow of the list under its owner, and `owners` its keys. */
  ghost predicate GroupedBy(db: Db, ws: seq<Id>, owners: seq<string>, groups: map<string, seq<Id>>) {
    && (forall w :: w in ws ==> w in db.workflows)
    && (forall o :: o in owners <==> o in groups)
    && (forall j, k :: 0 <= j < k < |owners| ==> owners[j] != owners[k])
    && (forall w :: w in ws ==> db.workflows[w].owner in groups && w in groups[db.workflows[w].owner])
    && (forall o, w :: o in groups && w in groups[o] ==> w in ws && db.workflows[w].owner == o)
  }

  lemma GroupStep(db: Db, ws: seq<Id>, owners: seq<string>, groups: map<string, seq<Id>>, w: Id)
    requires GroupedBy(db, ws, owners, groups) && w in db.workflows
    ensures var o := db.workflows[w].owner;
      GroupedBy(db, ws + [w], if o in groups then owners else owners + [o],
                groups[o := (if o in groups then groups[o] else []) + [w]])
  {
  }

  ghost predicate NoOrphans(db: Db, referenced: set<Id>, who: Option<string>) {
    forall w :: w in db.workflows && (who == None || who == Some(db.workflows[w].userId)) ==> !Orphan(db, referenced, w)
  }

  /** Every workflow of the first `k` owners has a bookmark. */
  ghost predicate Served(db: Db, names: seq<string>, groups: map<string, seq<Id>>, k: nat)
    requires k <= |names| && forall o :: o in names ==> o in groups
  {
    forall j, w :: 0 <= j < k && w in groups[names[j]] ==> Bookmarked(db, w)
  }

  lemma ServedMore(start: Db, before: Db, after: Db, names: seq<string>, groups: map<string, seq<Id>>, k: nat)
    requires k < |names| && forall o :: o in names ==> o in groups
    requires Meddled(start, before) && Meddled(before, after) && Served(before, names, groups, k)
    requires forall w :: w in groups[names[k]] ==> Bookmarked(after, w)
    ensures Meddled(start, after) && Served(after, names, groups, k + 1)
  {
    MeddledTwice(start, before, after);
  }

  lemma AllAdopted(start: Db, final: Db, referenced: set<Id>, who: Option<string>,
                   owners: seq<string>, groups: map<string, seq<Id>>)
    requires Meddled(start, final)
    requires GroupedBy(start, OrphansIn(BookmarkedIds(start), referenced, SelectedIds(start, who)), owners, groups)
    requires Served(final, owners, groups, |owners|)
    ensures NoOrphans(final, referenced, who)
  {
  }

  lemma EmptyIff(s: seq<Id>)
    ensures s == [] <==> forall w :: w !in s
  {
    if s != [] {
      assert s[0] in s;
    }
  }

  /** A run that finds no orphan adopts none; so a second run after a first one adopts none. */
  lemma SecondRunAdoptsNone(db: Db, referenced: set<Id>, who: Option<string>)
    ensures OrphansIn(BookmarkedIds(db), referenced, SelectedIds(db, who)) == [] <==> NoOrphans(db, referenced, who)
  {
    forall w {
      BookmarksFound(db, w);
    }
    var orphans := OrphansIn(BookmarkedIds(db), referenced, SelectedIds(db, who));
    if NoOrphans(db, referenced, who) {
      EmptyIff(orphans);
    } else {
      var w :| w in db.workflows && Selected(db.workflows[w], who) && Orphan(db, referenced, w);
      assert w in orphans;
    }
  }

  /** A workflow of the chosen user, or of any where none is chosen, that neither a bookmark nor another
      workflow refers to. */
  ghost predicate ToAdopt(db: Db, referenced: set<Id>, who: Option<string>, w: Id) {
    && w in db.workflows && (who == None || who == Some(db.workflows[w].userId))
    && !Bookmarked(db, w) && w !in referenced
  }

  /** Those are adopted, each for its owner. */
  ghost predicate AdoptsExactly(db: Db, referenced: set<Id>, who: Option<string>, groups: map<string, seq<Id>>) {
    forall w :: ToAdopt(db, referenced, who, w) <==> exists o :: o in groups && w in groups[o]
  }

  lemma AdoptedExactly(db: Db, referenced: set<Id>, who: Option<string>, owners: seq<string>, groups: map<string, seq<Id>>)
    requires GroupedBy(db, OrphansIn(BookmarkedIds(db), referenced, SelectedIds(db, who)), owners, groups)
    ensures AdoptsExactly(db, referenced, who, groups)
  {
    forall w {
      BookmarksFound(db, w);
    }
  }

  /** The items are bookmarks of the first workflows, one each. */
  ghost predicate ItemsFor(db: Db, ids: seq<Id>, ws: seq<Id>) {
    |ids| <= |ws| && forall k :: 0 <= k < |ids| ==> ids[k] in db.items && db.items[ids[k]] == Item(ws[k], true)
  }

  lemma ItemsForMore(start: Db, before: Db, after: Db, ids: seq<Id>, ws: seq<Id>, i: Id)
    requires Meddled(start, before) && Meddled(before, after)
    requires ItemsFor(before, ids, ws) && |ids| < |ws| && i in after.items && after.items[i] == Item(ws[|ids|], true)
    ensures Meddled(start, after) && ItemsFor(after, ids + [i], ws)
  {
    MeddledTwice(start, before, after);
  }

  function AfterInserts(r: Run, ws: seq<Id>, clock: nat, world: World): Run {
    if ws == [] then r else
    var before := AfterInserts(r, ws[..|ws| - 1], clock, world);
    Run(world(clock + |ws| - 1, WithItem(before.db, ws[|ws| - 1])), r.lib, before.ids + [Id(before.db.next)])
  }

  lemma {:induction false} InsertsPerformed(r: Run, ws: seq<Id>, clock: nat, world: World)
    ensures Perform(r, Inserts(ws, clock), world) == AfterInserts(r, ws, clock, world)
    ensures AfterInserts(r, ws, clock, world).lib == r.lib
  {
    if ws != [] {
      InsertsPerformed(r, ws[..|ws| - 1], clock, world);
      PerformTwo(r, Inserts(ws[..|ws| - 1], clock), Insert(ws[|ws| - 1]), Others(clock + |ws| - 1), world);
    }
  }

  lemma OneMoreInsert(r: Run, ws: seq<Id>, k: nat, clock: nat, world: World, before: Run, after: Run)
    requires k < |ws| && before == AfterInserts(r, ws[..k], clock, world) && before.lib == r.lib
    requires after == Run(world(clock + k, WithItem(before.db, ws[k])), r.lib, before.ids + [Id(before.db.next)])
    ensures after == AfterInserts(r, ws[..k + 1], clock, world)
  {
    assert ws[..k + 1][..k] == ws[..k];
  }

  lemma OwnerStep(start: Run, names: seq<string>, groups: map<string, seq<Id>>, k: nat, r: Run, next: Run, world: World)
    requires k < |names| && forall o :: o in names ==> o in groups
    requires r == Perform(start, AllActions(names[..k], groups), world)
    requires next == Perform(r, OwnerActions(names[k], groups[names[k]], Clock(names[..k], groups)), world)
    ensures next == Perform(start, AllActions(names[..k + 1], groups), world)
    ensures Clock(names[..k + 1], groups) == Clock(names[..k], groups) + |groups[names[k]]| + 2
  {
    assert names[..k + 1][..k] == names[..k];
    PerformSum(start, AllActions(names[..k], groups), OwnerActions(names[k], groups[names[k]], Clock(names[..k], groups)), world);
  }

  class Store {
    var db: Db

    constructor (start: Db)
      ensures db == start
    {
      db := start;
    }

    /** `_personal_library`. */
    method PersonalLibrary(owner: string) returns (l: Id)
      modifies this
      ensures l == PersonalId(old(db), owner) && db == WithPersonal(old(db), owner)
      ensures l in db.libs && db.libs[l].personal && db.libs[l].owner == owner
      ensures (exists m :: m in old(db).libs && old(db).libs[m].personal && old(db).libs[m].owner == owner) ==> db == old(db)
      ensures (forall m :: m in old(db).libs && old(db).libs[m].personal ==> old(db).libs[m].owner != owner) ==>
        db == old(db).(libs := old(db).libs[Id(old(db).next) := Library(true, owner, [])], next := old(db).next + 1)
      ensures Fresh(old(db)) ==> Meddled(old(db), db)
    {
      var found := set m | m in db.libs && db.libs[m].personal && db.libs[m].owner == owner;
      assert forall m :: m in db.libs && db.libs[m].personal && db.libs[m].owner == owner ==> m in found;
      if found != {} {
        l := Least(found);
      } else {
        l := Id(db.next);
        if Fresh(db) {
          LibraryAdded(db, Library(true, owner, []));
        }
        db := db.(libs := db.libs[l := Library(true, owner, [])], next := db.next + 1);
      }
    }

    /** One insert, after which others may act. */
    method InsertItem(w: Id, world: World, k: nat) returns (i: Id)
      modifies this
      ensures i == Id(old(db).next) && db == world(k, WithItem(old(db), w))
      ensures Fresh(old(db)) && Polite(world) ==> Meddled(old(db), db) && i in db.items && db.items[i] == Item(w, true)
    {
      ghost var before := db;
      i := Id(db.next);
      db := db.(items := db.items[i := Item(w, true)], next := db.next + 1);
      ghost var mid := db;
      db := world(k, db);
      if Fresh(before) && Polite(world) {
        ItemAdded(before, w);
        MeddledTwice(before, mid, db);
      }
    }

    /** The inserts for one owner. */
    method InsertItems(ws: seq<Id>, world: World, clock: nat, ghost r: Run) returns (ids: seq<Id>)
      requires r.db == db && r.ids == []
      modifies this
      ensures |ids| == |ws| && AfterInserts(r, ws, clock, world) == Run(db, r.lib, ids)
      ensures Fresh(old(db)) && Polite(world) ==> Meddled(old(db), db) && ItemsFor(db, ids, ws)
    {
      ids := [];
      ghost var start, polite := db, Fresh(db) && Polite(world);
      for k := 0 to |ws|
        invariant |ids| == k && AfterInserts(r, ws[..k], clock, world) == Run(db, r.lib, ids)
        invariant polite ==> Meddled(start, db) && ItemsFor(db, ids, ws)
      {
        ghost var before := db;
        var i := InsertItem(ws[k], world, clock + k);
        OneMoreInsert(r, ws, k, clock, world, Run(before, r.lib, ids), Run(db, r.lib, ids + [i]));
        if polite {
          ItemsForMore(start, before, db, ids, ws, i);
        }
        ids := ids + [i];
      }
      assert ws[..|ws|] == ws;
    }

    /** One owner: whatever others do while the script waits, the push adds the new ids to the
        list as it is at that moment, in `atWrite`, and changes nothing else. If they leave no
        workflow without its bookmark, every workflow of the owner has one. */
    method AdoptFor(owner: string, ws: seq<Id>, world: World, clock: nat, ghost r: Run)
      returns (l: Id, ids: seq<Id>, ghost atWrite: Db)
      requires r.db == db
      modifies this
      ensures Run(atWrite, l, ids) == Perform(r, UpToPush(owner, ws, clock), world)
      ensures Run(db, l, ids) == Perform(r, OwnerActions(owner, ws, clock), world)
      ensures db == Pushed(atWrite, l, ids) && |ids| == |ws|
      ensures l in atWrite.libs ==> l in db.libs && db.libs[l].items == atWrite.libs[l].items + ids
      ensures Fresh(old(db)) && Polite(world) ==>
        Meddled(old(db), db) && l in db.libs && forall w :: w in ws ==> Bookmarked(db, w)
    {
      ghost var start := db;
      db := world(clock, db);
      ghost var met := db;
      l := PersonalLibrary(owner);
      ghost var found := db;
      db := world(clock + 1, db);
      ghost var ready := db;
      FirstThree(r, owner, clock, world);
      ids := InsertItems(ws, world, clock + 2, Run(ready, l, []));
      InsertsPerformed(Run(ready, l, []), ws, clock + 2, world);
      PerformSum(r, [Others(clock), FindLibrary(owner), Others(clock + 1)], Inserts(ws, clock + 2), world);
      atWrite := db;
      PerformOne(r, UpToPush(owner, ws, clock), Push, world);
      db := Pushed(db, l, ids);
      if Fresh(start) && Polite(world) {
        MeddledTwice(start, met, found);
        MeddledTwice(start, found, ready);
        MeddledTwice(start, ready, atWrite);
        PushKeeps(atWrite, l, ids);
        MeddledTwice(start, atWrite, db);
        forall w | w in ws
          ensures Bookmarked(db, w)
        {
          var k :| 0 <= k < |ws| && ws[k] == w;
          assert ids[k] in ids && atWrite.items[ids[k]] == Item(w, true);
        }
      }
    }

    /** `by_owner[owner].append(w)`, where a new owner starts with an empty list. */
    static method Group(owner: string, owners0: seq<string>, groups0: map<string, seq<Id>>, w: Id)
      returns (owners: seq<string>, groups: map<string, seq<Id>>)
      ensures owners == if owner in groups0 then owners0 else owners0 + [owner]
      ensures groups == groups0[owner := (if owner in groups0 then groups0[owner] else []) + [w]]
    {
      owners, groups := owners0, groups0;
      if owner !in groups {
        owners, groups := owners + [owner], groups[owner := []];
      }
      groups := groups[owner := groups[owner] + [w]];
    }

    /** The loop of phase 1, which reads only: the orphans, grouped by owner. */
    static method ScanAll(now: Db, known: set<Id>, referenced: set<Id>, ids: seq<Id>)
      returns (owners: seq<string>, groups: map<string, seq<Id>>, marked: nat, skipped: nat, adopted: nat)
      requires forall w :: w in ids ==> w in now.workflows
      ensures |ids| == marked + skipped + adopted && adopted == |OrphansIn(known, referenced, ids)|
      ensures GroupedBy(now, OrphansIn(known, referenced, ids), owners, groups)
    {
      ghost var found: seq<Id> := [];
      owners, groups, marked, skipped, adopted := [], map[], 0, 0, 0;
      for k := 0 to |ids|
        invariant k == marked + skipped + adopted && adopted == |found|
        invariant found == OrphansIn(known, referenced, ids[..k]) && GroupedBy(now, found, owners, groups)
      {
        var w := ids[k];
        OrphansStep(known, referenced, ids, k);
        if w in known {
          marked := marked + 1;
        } else if w in referenced {
          skipped := skipped + 1;
        } else {
          GroupStep(now, found, owners, groups, w);
          owners, groups := Group(now.workflows[w].owner, owners, groups, w);
          adopted := adopted + 1;
          found := found + [w];
        }
      }
      assert ids[..|ids|] == ids;
    }

    /** `adopt`. A dry run only counts. A live run does exactly the actions for the owners in
        `names`, among which the orphans are grouped. After one during which no workflow lost its
        bookmark, no selected workflow is an orphan; whatever was on a list at any moment and
        was left there by others is on it at the end. */
    method Adopt(referenced: set<Id>, who: Option<string>, dryRun: bool, world: World)
      returns (scanned: nat, adopted: nat, skipped: nat, owners: nat, ghost marked: nat,
               ghost names: seq<string>, ghost groups: map<string, seq<Id>>)
      modifies this
      ensures scanned == marked + skipped + adopted && scanned == |SelectedIds(old(db), who)|
      ensures adopted == |OrphansIn(BookmarkedIds(old(db)), referenced, SelectedIds(old(db), who))|
      ensures GroupedBy(old(db), OrphansIn(BookmarkedIds(old(db)), referenced, SelectedIds(old(db), who)), names, groups)
      ensures AdoptsExactly(old(db), referenced, who, groups)
      ensures owners == |names|
      ensures dryRun ==> db == old(db)
      ensures !dryRun ==> db == Perform(Run(old(db), Id(0), []), AllActions(names, groups), world).db
      ensures !dryRun && Fresh(old(db)) && Orderly(world) ==>
        AllKept(Run(old(db), Id(0), []), AllActions(names, groups), world, db)
      ensures !dryRun && Fresh(old(db)) && Polite(world) ==>
        Meddled(old(db), db) && NoOrphans(db, referenced, who)
    {
      ghost var start, polite := db, Fresh(db) && Polite(world);
      var ids := SelectedIds(db, who);
      var names_, groups_, marked_;
      names_, groups_, marked_, skipped, adopted := ScanAll(db, BookmarkedIds(db), referenced, ids);
      scanned, marked, owners := |ids|, marked_, |names_|;
      names, groups := names_, groups_;
      AdoptedExactly(db, referenced, who, names, groups);
      if dryRun {
        return;
      }
      var clock: nat := 0;
      ghost var r := Run(db, Id(0), []);
      for k := 0 to |names_|
        invariant clock == Clock(names_[..k], groups_) && r.db == db
        invariant r == Perform(Run(start, Id(0), []), AllActions(names_[..k], groups_), world)
        invariant polite ==> Meddled(start, db) && Served(db, names_, groups_, k)
      {
        ghost var before := db;
        var owner := names_[k];
        var l, items, atWrite := AdoptFor(owner, groups_[owner], world, clock, r);
        OwnerStep(Run(start, Id(0), []), names_, groups_, k, r, Run(db, l, items), world);
        r := Run(db, l, items);
        clock := clock + |items| + 2;
        if polite {
          ServedMore(start, before, db, names_, groups_, k);
        }
      }
      assert names_[..|names_|] == names_;
      NothingLost(Run(start, Id(0), []), AllActions(names, groups), world);
      if polite {
        AllAdopted(start, db, referenced, who, names_, groups_);
      }
    }
  }
}
