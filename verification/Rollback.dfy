/**
 Phase 1 (backups) and `rollback`: a rollback from any point of phases 2-4 restores
 every collection that was backed up, exactly when no renamed collection existed
 under both its names with documents in each.
 */
module Backups {
  import opened Wrappers
  import opened Mongo

  datatype Manifest = Manifest(names: set<Name>, stamp: nat)

  /** `after` is `before` with a backup of each non-empty collection in `names`. */
  ghost predicate HasBackups(before: Colls, after: Colls, names: set<Name>, stamp: nat) {
    && (forall c :: c in before ==> c in after && after[c] == before[c])
    && (forall c :: c in after && c !in before ==>
          c.Backup? && c.stamp == stamp && c.of in names && DocsIn(before, Live(c.of)) != map[])
    && (forall n :: n in names && DocsIn(before, Live(n)) != map[] ==>
          Backup(n, stamp) in after && after[Backup(n, stamp)] == before[Live(n)])
  }

  /** `backup_collection`: nothing is written for an empty collection. */
  method BackupCollection(db: Database, n: Name, stamp: nat)
    requires Live(n) in db.colls && Backup(n, stamp) !in db.colls
    modifies db
    ensures db.colls == if old(db.colls)[Live(n)] == map[] then old(db.colls)
                        else old(db.colls)[Backup(n, stamp) := old(db.colls)[Live(n)]]
  {
    var docs := db.colls[Live(n)];
    if |docs| == 0 {
      return;
    }
    db.InsertMany(Backup(n, stamp), docs);
    assert map[] + docs == docs;
  }

  lemma BackupStep(before: Colls, now: Colls, done: set<Name>, n: Name, stamp: nat)
    requires HasBackups(before, now, done, stamp) && Live(n) in before
    ensures before[Live(n)] == map[] ==> HasBackups(before, now, done + {n}, stamp)
    ensures before[Live(n)] != map[] && Backup(n, stamp) !in before ==>
      HasBackups(before, now[Backup(n, stamp) := before[Live(n)]], done + {n}, stamp)
  {
  }

  method BackupAll(db: Database, names: set<Name>, stamp: nat)
    requires forall n :: n in names ==> Live(n) in db.colls
    requires forall n :: Backup(n, stamp) !in db.colls
    modifies db
    ensures HasBackups(old(db.colls), db.colls, names, stamp)
  {
    var left := names;
    while left != {}
      invariant left <= names
      invariant HasBackups(old(db.colls), db.colls, names - left, stamp)
    {
      var n :| n in left;
      BackupStep(old(db.colls), db.colls, names - left, n, stamp);
      assert (names - left) + {n} == names - (left - {n});
      BackupCollection(db, n, stamp);
      left := left - {n};
    }
    assert names - left == names;
  }

  /** Phase 1. The collections it looks for are all that the migration names, under the old names
      too; every other one is `Unlisted`. */
  method Phase1Backups(db: Database, stamp: nat, dryRun: bool) returns (manifest: Manifest)
    requires db.Valid()
    requires forall n :: Backup(n, stamp) !in db.colls
    modifies db
    ensures db.Valid() && db.origin == db.colls && db.log == []
    ensures manifest.stamp == stamp
    ensures forall n :: n in manifest.names <==> !n.Unlisted? && Live(n) in old(db.colls)
    ensures if dryRun then db.colls == old(db.colls) else HasBackups(old(db.colls), db.colls, manifest.names, stamp)
    ensures !dryRun ==> forall n: Name :: !n.Unlisted? && DocsIn(old(db.colls), Live(n)) != map[] ==>
      Backup(n, stamp) in db.colls && db.colls[Backup(n, stamp)] == old(db.colls)[Live(n)]
  {
    var names := set c | c in db.colls.Keys && c.Live? && !c.name.Unlisted? :: c.name;
    manifest := Manifest(names, stamp);
    if !dryRun {
      BackupAll(db, names, stamp);
    }
    db.Checkpoint();
  }

  // ---------------------------------------------------------------------------
  // rollback
  // ---------------------------------------------------------------------------

  /** The name phase 2 gives a collection. */
  function CurrentName(n: Name): Name {
    if NewName(n).Some? then NewName(n).value else n
  }

  /** Drop whatever the collection is now called, and bring the backup back. */
  function RestoreOne(db: Colls, existing: set<Coll>, stamp: nat, n: Name): Colls {
    if Backup(n, stamp) !in existing || Backup(n, stamp) !in db then db
    else (db - ({Live(CurrentName(n)), Live(n)} * existing) - {Backup(n, stamp)})[Live(n) := db[Backup(n, stamp)]]
  }

  function RestoreAll(db: Colls, existing: set<Coll>, stamp: nat, order: seq<Name>): Colls {
    if order == [] then db
    else RestoreOne(RestoreAll(db, existing, stamp, order[..|order| - 1]), existing, stamp, order[|order| - 1])
  }

  /** The manifest's names in alphabetical order. All that matters of the alphabet is
      that each new name comes before the old one. */
  ghost predicate Alphabetical(order: seq<Name>, names: set<Name>) {
    && (forall n :: n in order <==> n in names)
    && (forall i, j :: 0 <= i < j < |order| ==> order[i] != order[j])
    && (forall i, j :: 0 <= i < |order| && 0 <= j < |order| && NewName(order[i]) == Some(order[j]) ==> j < i)
  }

  method Rollback(db: Database, manifest: Option<Manifest>, order: seq<Name>, dryRun: bool) returns (ok: bool)
    requires db.Valid()
    requires manifest.Some? ==> Alphabetical(order, manifest.value.names)
    modifies db
    ensures ok == manifest.Some?
    ensures db.colls ==
      if manifest.None? || dryRun then old(db.colls)
      else RestoreAll(old(db.colls), old(db.colls).Keys, manifest.value.stamp, order)
  {
    if manifest.None? {
      return false;
    }
    var stamp := manifest.value.stamp;
    var existing := db.colls.Keys;
    for k := 0 to |order|
      invariant db.Valid()
      invariant db.colls == if dryRun then old(db.colls) else RestoreAll(old(db.colls), existing, stamp, order[..k])
      invariant !dryRun ==> forall j :: k <= j < |order| ==>
        (Backup(order[j], stamp) in db.colls <==> Backup(order[j], stamp) in existing)
        && (Live(order[j]) in db.colls ==> Live(order[j]) in existing)
    {
      var n := order[k];
      assert order[..k + 1][..k] == order[..k];
      if Backup(n, stamp) !in existing {
        continue;
      }
      if dryRun {
        continue;
      }
      RestoreFromBackup(db, existing, stamp, n);
    }
    assert order[..|order|] == order;
    ok := true;
  }

  method RestoreFromBackup(db: Database, existing: set<Coll>, stamp: nat, n: Name)
    requires db.Valid() && Backup(n, stamp) in existing && Backup(n, stamp) in db.colls
    requires Live(n) in db.colls ==> Live(n) in existing
    modifies db
    ensures db.Valid() && db.colls == RestoreOne(old(db.colls), existing, stamp, n)
  {
    var current := Live(CurrentName(n));
    if current in existing {
      db.Drop(current);
    }
    if Live(n) in existing && current != Live(n) {
      db.Drop(Live(n));
    }
    db.RenameBackup(Backup(n, stamp), Live(n));
  }
}

/** Rollback from any point of phases 2-4. */
module RollbackTheorem {
  import opened Wrappers
  import opened Mongo
  import opened Backups

  /** What any number of scoped writes can do to a database: backups stay as they are,
      no document appears, and a collection leaves its name only for its new name. */
  ghost predicate Reaches(a: Colls, b: Colls) {
    && (forall c: Coll :: c.Backup? ==> (c in a <==> c in b) && (c in a ==> a[c] == b[c]))
    && (forall n :: Live(n) in b ==> ComesFrom(a, b, n))
    && (forall n :: Live(n) in a && NewName(n).None? ==> Live(n) in b)
  }

  ghost predicate ComesFrom(a: Colls, b: Colls, n: Name)
    requires Live(n) in b
  {
    if Live(n) in a then b[Live(n)].Keys <= a[Live(n)].Keys
    else exists o :: NewName(o) == Some(n) && Live(o) in a && b[Live(n)].Keys <= a[Live(o)].Keys
  }

  lemma WriteInCollection(a: Colls, b: Colls, c: Coll, docs: Docs)
    requires Reaches(a, b) && c.Live? && c in b && docs.Keys <= b[c].Keys
    ensures Reaches(a, b[c := docs])
  {
    var after := b[c := docs];
    forall n | Live(n) in after
      ensures ComesFrom(a, after, n)
    {
      assert ComesFrom(a, b, n);
    }
  }

  lemma RenameReaches(a: Colls, b: Colls, from: Name, to: Name)
    requires Reaches(a, b) && NewName(from) == Some(to) && Live(from) in b && Live(to) !in b
    ensures Reaches(a, Apply(b, Rename(Live(from), Live(to))))
  {
    var after := Apply(b, Rename(Live(from), Live(to)));
    assert ComesFrom(a, b, from);
    forall n | Live(n) in after
      ensures ComesFrom(a, after, n)
    {
      if n != to {
        assert ComesFrom(a, b, n);
      }
    }
  }

  lemma StepReaches(a: Colls, b: Colls, w: Write)
    requires Reaches(a, b) && Scoped(w)
    ensures Reaches(a, Apply(b, w))
  {
    match w
    case UpdateMany(c, cond, ch) =>
      if c in b { WriteInCollection(a, b, c, UpdateDocs(b[c], cond, ch)); }
    case UpdateOne(c, id, ch) =>
      if c in b && id in b[c] { WriteInCollection(a, b, c, b[c][id := Changed(b[c][id], ch)]); }
    case BulkSet(c, sets) =>
      if c in b { WriteInCollection(a, b, c, BulkSetDocs(b[c], sets)); }
    case DeleteMany(c, cond) =>
      if c in b { WriteInCollection(a, b, c, DeleteDocs(b[c], cond)); }
    case Rename(c, to) =>
      if c in b && to !in b { RenameReaches(a, b, c.name, to.name); }
  }

  lemma {:induction false} LogReaches(a: Colls, log: seq<Write>)
    requires ScopedLog(log)
    ensures Reaches(a, Replay(a, log))
  {
    if log != [] {
      LogReaches(a, log[..|log| - 1]);
      StepReaches(a, Replay(a, log[..|log| - 1]), log[|log| - 1]);
    }
  }

  /** `n` has a backup from phase 1. */
  predicate Saved(a: Colls, stamp: nat, n: Name) {
    Backup(n, stamp) in a
  }

  /** State `a` is what phase 1 left: a backup of every listed non-empty collection. */
  ghost predicate JustBackedUp(a: Colls, m: Manifest) {
    && (forall n :: n in m.names <==> !n.Unlisted? && Live(n) in a)
    && (forall n :: Backup(n, m.stamp) in a <==> n in m.names && a[Live(n)] != map[])
    && (forall n :: Backup(n, m.stamp) in a ==> a[Backup(n, m.stamp)] == a[Live(n)])
  }

  lemma BackupsJustMade(before: Colls, after: Colls, m: Manifest)
    requires forall n :: Backup(n, m.stamp) !in before
    requires forall n :: n in m.names <==> !n.Unlisted? && Live(n) in before
    requires HasBackups(before, after, m.names, m.stamp)
    ensures JustBackedUp(after, m)
  {
  }

  /** The documents under `n` once the names in `done` have been restored. */
  ghost function Expected(a: Colls, b: Colls, stamp: nat, done: seq<Name>, n: Name): Docs {
    if exists o :: o in done && NewName(o) == Some(n) && Saved(a, stamp, o) then map[]
    else if n in done && Saved(a, stamp, n) then a[Backup(n, stamp)]
    else DocsIn(b, Live(n))
  }

  /** Both names of a renamed collection were in use, with documents under each. */
  ghost predicate Clash(a: Colls, o: Name, n: Name) {
    NewName(o) == Some(n) && DocsIn(a, Live(o)) != map[] && DocsIn(a, Live(n)) != map[]
  }

  ghost predicate NoClash(a: Colls) {
    forall o, n :: !Clash(a, o, n)
  }

  ghost predicate Restored(a: Colls, final: Colls) {
    forall n: Name :: !n.Unlisted? ==> DocsIn(final, Live(n)) == DocsIn(a, Live(n))
  }

  /** Everything known half way through a rollback that began in state `b`. */
  ghost predicate Midway(a: Colls, b: Colls, now: Colls, m: Manifest, order: seq<Name>, k: nat) {
    && k <= |order|
    && (forall i :: k <= i < |order| ==> (Backup(order[i], m.stamp) in now <==> Saved(a, m.stamp, order[i])))
    && (forall i :: Backup(i, m.stamp) in now ==>
          Saved(a, m.stamp, i) && now[Backup(i, m.stamp)] == a[Backup(i, m.stamp)])
    && (forall i :: DocsIn(now, Live(i)) == Expected(a, b, m.stamp, order[..k], i))
  }

  /** A new name that has a backup was there when the rollback began. */
  lemma SavedNewNameExists(a: Colls, b: Colls, m: Manifest, n: Name)
    requires Reaches(a, b) && JustBackedUp(a, m) && Saved(a, m.stamp, n) && NewName(n).None?
    ensures Live(n) in b
  {
  }

  /** The step, seen from the name that is restored. */
  lemma RestoreSelf(a: Colls, b: Colls, now: Colls, m: Manifest, order: seq<Name>, k: nat)
    requires Reaches(a, b) && JustBackedUp(a, m) && Alphabetical(order, m.names)
    requires k < |order| && Midway(a, b, now, m, order, k) && Saved(a, m.stamp, order[k])
    ensures DocsIn(RestoreOne(now, b.Keys, m.stamp, order[k]), Live(order[k]))
         == Expected(a, b, m.stamp, order[..k + 1], order[k])
  {
    var cur := order[k];
    assert order[..k + 1] == order[..k] + [cur];
    forall o | o in order[..k + 1]
      ensures NewName(o) != Some(cur)
    {
      var j :| 0 <= j < k + 1 && order[j] == o;
    }
  }

  /** The step, seen from the new name of the one that is restored. */
  lemma RestoreRenamed(a: Colls, b: Colls, now: Colls, m: Manifest, order: seq<Name>, k: nat, n: Name)
    requires Reaches(a, b) && JustBackedUp(a, m) && Alphabetical(order, m.names)
    requires k < |order| && Midway(a, b, now, m, order, k) && Saved(a, m.stamp, order[k])
    requires n != order[k] && NewName(order[k]) == Some(n)
    ensures DocsIn(RestoreOne(now, b.Keys, m.stamp, order[k]), Live(n)) == Expected(a, b, m.stamp, order[..k + 1], n)
  {
    assert order[..k + 1] == order[..k] + [order[k]];
    assert DocsIn(now, Live(n)) == Expected(a, b, m.stamp, order[..k], n);
    if Saved(a, m.stamp, n) {
      SavedNewNameExists(a, b, m, n);
    }
  }

  lemma RestoreElsewhere(now: Colls, existing: set<Coll>, stamp: nat, cur: Name, n: Name)
    requires n != cur && NewName(cur) != Some(n)
    ensures DocsIn(RestoreOne(now, existing, stamp, cur), Live(n)) == DocsIn(now, Live(n))
  {
  }

  lemma ExpectedElsewhere(a: Colls, b: Colls, stamp: nat, done: seq<Name>, cur: Name, n: Name)
    requires Saved(a, stamp, cur) ==> n != cur && NewName(cur) != Some(n)
    ensures Expected(a, b, stamp, done + [cur], n) == Expected(a, b, stamp, done, n)
  {
    assert forall o :: o in done + [cur] <==> o in done || o == cur;
  }

  lemma RestoreStep(a: Colls, b: Colls, now: Colls, m: Manifest, order: seq<Name>, k: nat, n: Name)
    requires Reaches(a, b) && JustBackedUp(a, m) && Alphabetical(order, m.names)
    requires k < |order| && Midway(a, b, now, m, order, k)
    ensures DocsIn(RestoreOne(now, b.Keys, m.stamp, order[k]), Live(n)) == Expected(a, b, m.stamp, order[..k + 1], n)
  {
    var cur := order[k];
    if Saved(a, m.stamp, cur) && n == cur {
      RestoreSelf(a, b, now, m, order, k);
    } else if Saved(a, m.stamp, cur) && NewName(cur) == Some(n) {
      RestoreRenamed(a, b, now, m, order, k, n);
    } else {
      assert order[..k + 1] == order[..k] + [cur];
      assert DocsIn(now, Live(n)) == Expected(a, b, m.stamp, order[..k], n);
      ExpectedElsewhere(a, b, m.stamp, order[..k], cur, n);
      if Saved(a, m.stamp, cur) {
        RestoreElsewhere(now, b.Keys, m.stamp, cur, n);
      }
    }
  }

  lemma MidwayNext(a: Colls, b: Colls, now: Colls, m: Manifest, order: seq<Name>, k: nat)
    requires Reaches(a, b) && JustBackedUp(a, m) && Alphabetical(order, m.names)
    requires k < |order| && Midway(a, b, now, m, order, k)
    ensures Midway(a, b, RestoreOne(now, b.Keys, m.stamp, order[k]), m, order, k + 1)
  {
    forall n {
      RestoreStep(a, b, now, m, order, k, n);
    }
  }

  lemma {:induction false} MidwayAt(a: Colls, b: Colls, m: Manifest, order: seq<Name>, k: nat)
    requires Reaches(a, b) && JustBackedUp(a, m) && Alphabetical(order, m.names) && k <= |order|
    ensures Midway(a, b, RestoreAll(b, b.Keys, m.stamp, order[..k]), m, order, k)
  {
    if k > 0 {
      MidwayAt(a, b, m, order, k - 1);
      assert order[..k][..k - 1] == order[..k - 1];
      MidwayNext(a, b, RestoreAll(b, b.Keys, m.stamp, order[..k - 1]), m, order, k - 1);
    }
  }

  /** The state a rollback ends in. */
  ghost predicate Finished(a: Colls, b: Colls, final: Colls, m: Manifest, order: seq<Name>) {
    forall n :: DocsIn(final, Live(n)) == Expected(a, b, m.stamp, order, n)
  }

  lemma AfterRollback(a: Colls, b: Colls, m: Manifest, order: seq<Name>)
    requires Reaches(a, b) && JustBackedUp(a, m) && Alphabetical(order, m.names)
    ensures Finished(a, b, RestoreAll(b, b.Keys, m.stamp, order), m, order)
  {
    MidwayAt(a, b, m, order, |order|);
    assert order[..|order|] == order;
  }

  /** A new name whose old name was restored is left empty. */
  lemma EmptiedByOldName(a: Colls, b: Colls, final: Colls, m: Manifest, order: seq<Name>, o: Name, n: Name)
    requires JustBackedUp(a, m) && Alphabetical(order, m.names) && Finished(a, b, final, m, order)
    requires NewName(o) == Some(n) && DocsIn(a, Live(o)) != map[]
    ensures DocsIn(final, Live(n)) == map[]
  {
    assert Saved(a, m.stamp, o);
  }

  lemma OtherwiseRestored(a: Colls, b: Colls, final: Colls, m: Manifest, order: seq<Name>, n: Name)
    requires Reaches(a, b) && JustBackedUp(a, m) && Alphabetical(order, m.names) && Finished(a, b, final, m, order)
    requires !n.Unlisted? && forall o :: NewName(o) == Some(n) ==> DocsIn(a, Live(o)) == map[]
    ensures DocsIn(final, Live(n)) == DocsIn(a, Live(n))
  {
    if Live(n) in b {
      assert ComesFrom(a, b, n);
    }
  }

  /** A listed collection comes back unless its documents clash with its old name's. */
  lemma NameRestored(a: Colls, b: Colls, final: Colls, m: Manifest, order: seq<Name>, n: Name)
    requires Reaches(a, b) && JustBackedUp(a, m) && Alphabetical(order, m.names) && Finished(a, b, final, m, order)
    requires !n.Unlisted?
    ensures DocsIn(final, Live(n)) == DocsIn(a, Live(n)) <==> forall o :: !Clash(a, o, n)
  {
    if o :| NewName(o) == Some(n) && DocsIn(a, Live(o)) != map[] {
      EmptiedByOldName(a, b, final, m, order, o, n);
      assert Clash(a, o, n) <==> DocsIn(a, Live(n)) != map[];
    } else {
      OtherwiseRestored(a, b, final, m, order, n);
    }
  }

  lemma RestoredUnlessClash(a: Colls, b: Colls, final: Colls, m: Manifest, order: seq<Name>)
    requires Reaches(a, b) && JustBackedUp(a, m) && Alphabetical(order, m.names) && Finished(a, b, final, m, order)
    ensures Restored(a, final) <==> NoClash(a)
  {
    forall n: Name | !n.Unlisted? {
      NameRestored(a, b, final, m, order, n);
    }
    forall o, n | Clash(a, o, n)
      ensures !n.Unlisted?
    {
    }
  }

  /** Run phase 1, then any prefix of the writes of phases 2-4, then the rollback: every
      listed collection has exactly the documents it had when it was backed up, if and
      only if no renamed collection had documents under both names. */
  lemma RollbackFromAnyPoint(a: Colls, log: seq<Write>, k: nat, m: Manifest, order: seq<Name>)
    requires JustBackedUp(a, m) && ScopedLog(log) && k <= |log| && Alphabetical(order, m.names)
    ensures var b := Replay(a, log[..k]);
      Restored(a, RestoreAll(b, b.Keys, m.stamp, order)) <==> NoClash(a)
  {
    var b := Replay(a, log[..k]);
    LogReaches(a, log[..k]);
    AfterRollback(a, b, m, order);
    RestoredUnlessClash(a, b, RestoreAll(b, b.Keys, m.stamp, order), m, order);
  }

  /** The backups that were used are gone, so a second rollback finds nothing to do. */
  lemma SecondRollback(b: Colls, m: Manifest, order: seq<Name>)
    requires Alphabetical(order, m.names)
    ensures var once := RestoreAll(b, b.Keys, m.stamp, order);
      RestoreAll(once, once.Keys, m.stamp, order) == once
  {
    var once := RestoreAll(b, b.Keys, m.stamp, order);
    forall n | n in order
      ensures Backup(n, m.stamp) !in once
    {
      BackupsUsed(b, m.stamp, order, n);
    }
    NothingToRestore(once, m.stamp, order, |order|);
    assert order[..|order|] == order;
  }

  lemma {:induction false} BackupsUsed(b: Colls, stamp: nat, order: seq<Name>, n: Name)
    ensures Backup(n, stamp) in RestoreAll(b, b.Keys, stamp, order) ==> Backup(n, stamp) in b
    ensures n in order ==> Backup(n, stamp) !in RestoreAll(b, b.Keys, stamp, order)
  {
    if order != [] {
      BackupsUsed(b, stamp, order[..|order| - 1], n);
      assert order == order[..|order| - 1] + [order[|order| - 1]];
    }
  }

  lemma {:induction false} NothingToRestore(db: Colls, stamp: nat, order: seq<Name>, k: nat)
    requires k <= |order| && forall n :: n in order ==> Backup(n, stamp) !in db
    ensures RestoreAll(db, db.Keys, stamp, order[..k]) == db
  {
    if k > 0 {
      NothingToRestore(db, stamp, order, k - 1);
      assert order[..k][..k - 1] == order[..k - 1];
    }
  }

  // ---------------------------------------------------------------------------
  // A rollback that is interrupted and run again
  // ---------------------------------------------------------------------------

  /** The first `k` restores leave a name alone that is not among them, nor the new name of one. */
  lemma {:induction false} UntouchedBy(b: Colls, stamp: nat, order: seq<Name>, n: Name)
    requires n !in order && forall o :: o in order ==> NewName(o) != Some(n)
    ensures Live(n) in RestoreAll(b, b.Keys, stamp, order) <==> Live(n) in b
  {
    if order != [] {
      var front, last := order[..|order| - 1], order[|order| - 1];
      assert order == front + [last];
      UntouchedBy(b, stamp, front, n);
    }
  }

  lemma {:induction false} BackupsLeft(b: Colls, stamp: nat, order: seq<Name>, n: Name)
    requires n !in order
    ensures Backup(n, stamp) in RestoreAll(b, b.Keys, stamp, order) <==> Backup(n, stamp) in b
  {
    if order != [] {
      var front, last := order[..|order| - 1], order[|order| - 1];
      assert order == front + [last];
      BackupsLeft(b, stamp, front, n);
    }
  }

  /** A name with a backup is there from its restore on, as long as no old name of it follows. */
  lemma {:induction false} ThereOnceRestored(b: Colls, stamp: nat, order: seq<Name>, n: Name)
    requires n in order && Backup(n, stamp) in b && forall o :: o in order ==> NewName(o) != Some(n)
    ensures Live(n) in RestoreAll(b, b.Keys, stamp, order)
  {
    var front, last := order[..|order| - 1], order[|order| - 1];
    assert order == front + [last];
    if n in front {
      ThereOnceRestored(b, stamp, front, n);
    } else {
      BackupsLeft(b, stamp, front, n);
    }
  }

  /** Of the new name of a collection still to be restored: the interrupted rollback leaves it
      present exactly if it was when it began. */
  lemma NewNamePresent(a: Colls, b: Colls, m: Manifest, order: seq<Name>, k: nat, j: nat, n: Name)
    requires Reaches(a, b) && JustBackedUp(a, m) && Alphabetical(order, m.names) && k <= j < |order|
    requires NewName(order[j]) == Some(n)
    ensures Live(n) in RestoreAll(b, b.Keys, m.stamp, order[..k]) <==> Live(n) in b
  {
    forall o | o in order[..k]
      ensures NewName(o) != Some(n)
    {
      var i :| 0 <= i < k && order[i] == o;
      assert order[i] != order[j];
    }
    if n !in order[..k] {
      UntouchedBy(b, m.stamp, order[..k], n);
    } else if Saved(a, m.stamp, n) {
      SavedNewNameExists(a, b, m, n);
      ThereOnceRestored(b, m.stamp, order[..k], n);
    } else {
      NotRestored(b, m.stamp, order[..k], n);
    }
  }

  lemma {:induction false} NotRestored(b: Colls, stamp: nat, order: seq<Name>, n: Name)
    requires Backup(n, stamp) !in b && forall o :: o in order ==> NewName(o) != Some(n)
    ensures Live(n) in RestoreAll(b, b.Keys, stamp, order) <==> Live(n) in b
  {
    if order != [] {
      var front, last := order[..|order| - 1], order[|order| - 1];
      assert order == front + [last];
      NotRestored(b, stamp, front, n);
      BackupsUsed(b, stamp, front, n);
    }
  }

  /** The name itself: nothing before it in the order has touched it. */
  lemma OwnNamePresent(b: Colls, m: Manifest, order: seq<Name>, k: nat, j: nat)
    requires Alphabetical(order, m.names) && k <= j < |order|
    ensures Live(order[j]) in RestoreAll(b, b.Keys, m.stamp, order[..k]) <==> Live(order[j]) in b
    ensures Backup(order[j], m.stamp) in RestoreAll(b, b.Keys, m.stamp, order[..k]) <==> Backup(order[j], m.stamp) in b
  {
    forall o | o in order[..k]
      ensures o != order[j] && NewName(o) != Some(order[j])
    {
      var i :| 0 <= i < k && order[i] == o;
    }
    UntouchedBy(b, m.stamp, order[..k], order[j]);
    BackupsLeft(b, m.stamp, order[..k], order[j]);
  }

  lemma NothingThere(now: Colls, existing: set<Coll>, stamp: nat, n: Name)
    requires Backup(n, stamp) !in now
    ensures RestoreOne(now, existing, stamp, n) == now
  {
  }

  /** A step depends on these names only. */
  lemma SameStep(now: Colls, some: set<Coll>, other: set<Coll>, stamp: nat, n: Name)
    requires Live(n) in some <==> Live(n) in other
    requires Backup(n, stamp) in some <==> Backup(n, stamp) in other
    requires NewName(n).Some? ==> (Live(NewName(n).value) in some <==> Live(NewName(n).value) in other)
    ensures RestoreOne(now, some, stamp, n) == RestoreOne(now, other, stamp, n)
  {
    assert {Live(CurrentName(n)), Live(n)} * some == {Live(CurrentName(n)), Live(n)} * other;
  }

  lemma {:induction false} ResumedAt(a: Colls, b: Colls, mid: Colls, m: Manifest, order: seq<Name>, k: nat, j: nat)
    requires Reaches(a, b) && JustBackedUp(a, m) && Alphabetical(order, m.names) && k <= |order| && j <= |order|
    requires mid == RestoreAll(b, b.Keys, m.stamp, order[..k])
    ensures RestoreAll(mid, mid.Keys, m.stamp, order[..j])
         == RestoreAll(b, b.Keys, m.stamp, order[..if j < k then k else j])
    decreases j
  {
    hide RestoreOne, Reaches, JustBackedUp, Alphabetical, NewName;
    if j > 0 {
      var n := order[j - 1];
      ResumedAt(a, b, mid, m, order, k, j - 1);
      assert order[..j][..j - 1] == order[..j - 1];
      if j <= k {
        assert n == order[..k][j - 1];
        BackupsUsed(b, m.stamp, order[..k], n);
        NothingThere(mid, mid.Keys, m.stamp, n);
      } else {
        OwnNamePresent(b, m, order, k, j - 1);
        if NewName(n).Some? {
          NewNamePresent(a, b, m, order, k, j - 1, NewName(n).value);
        }
        SameStep(RestoreAll(b, b.Keys, m.stamp, order[..j - 1]), mid.Keys, b.Keys, m.stamp, n);
      }
    }
  }

  /** A rollback that is interrupted between two collections and run again, which then reads
      the names anew, ends where it would have ended. */
  lemma ResumedRollback(a: Colls, log: seq<Write>, k: nat, m: Manifest, order: seq<Name>, done: nat)
    requires JustBackedUp(a, m) && ScopedLog(log) && k <= |log| && Alphabetical(order, m.names) && done <= |order|
    ensures var b := Replay(a, log[..k]);
      var mid := RestoreAll(b, b.Keys, m.stamp, order[..done]);
      RestoreAll(mid, mid.Keys, m.stamp, order) == RestoreAll(b, b.Keys, m.stamp, order)
  {
    var b := Replay(a, log[..k]);
    var mid := RestoreAll(b, b.Keys, m.stamp, order[..done]);
    LogReaches(a, log[..k]);
    ResumedAt(a, b, mid, m, order, done, |order|);
    assert order[..|order|] == order;
  }

  /** The restore of `n` can be cut short after any of its drops, which come in no fixed order. */
  ghost predicate CutShort(b: Colls, stamp: nat, n: Name, dropped: set<Coll>) {
    dropped <= {Live(CurrentName(n)), Live(n)} * b.Keys && (dropped != {} ==> Backup(n, stamp) in b)
  }

  /** Restoring a collection again completes what was cut short. */
  lemma CutCompleted(b: Colls, now: Colls, stamp: nat, n: Name, dropped: set<Coll>)
    requires CutShort(b, stamp, n, dropped) && (Backup(n, stamp) in now <==> Backup(n, stamp) in b)
    requires Live(n) in now <==> Live(n) in b
    requires NewName(n).Some? ==> (Live(NewName(n).value) in now <==> Live(NewName(n).value) in b)
    ensures RestoreOne(now - dropped, (now - dropped).Keys, stamp, n) == RestoreOne(now, b.Keys, stamp, n)
  {
    if Backup(n, stamp) in b {
      var names := {Live(CurrentName(n)), Live(n)};
      assert now - dropped - names * (now - dropped).Keys == now - names * b.Keys;
    } else {
      assert now - dropped == now;
    }
  }

  lemma CompletedAt(a: Colls, b: Colls, m: Manifest, order: seq<Name>, done: nat, dropped: set<Coll>)
    requires Reaches(a, b) && JustBackedUp(a, m) && Alphabetical(order, m.names) && done < |order|
    requires CutShort(b, m.stamp, order[done], dropped)
    ensures var mid := RestoreAll(b, b.Keys, m.stamp, order[..done]) - dropped;
      RestoreAll(mid, mid.Keys, m.stamp, order[..done + 1]) == RestoreAll(b, b.Keys, m.stamp, order[..done + 1])
  {
    hide RestoreOne, Reaches, JustBackedUp, Alphabetical, CutShort;
    var n, now := order[done], RestoreAll(b, b.Keys, m.stamp, order[..done]);
    var mid := now - dropped;
    forall o | o in order[..done]
      ensures Backup(o, m.stamp) !in mid
    {
      BackupsUsed(b, m.stamp, order[..done], o);
    }
    NothingToRestore(mid, m.stamp, order[..done], done);
    assert order[..done][..done] == order[..done] == order[..done + 1][..done];
    OwnNamePresent(b, m, order, done, done);
    if NewName(n).Some? {
      NewNamePresent(a, b, m, order, done, done, NewName(n).value);
    }
    CutCompleted(b, now, m.stamp, n, dropped);
  }

  /** Every later restore reads the same of the names that it looks at, unless the dropped name is
      the new name of what it restores. */
  lemma SameNames(a: Colls, b: Colls, m: Manifest, order: seq<Name>, done: nat, dropped: set<Coll>, j: nat)
    requires Reaches(a, b) && JustBackedUp(a, m) && Alphabetical(order, m.names) && done < j < |order|
    requires CutShort(b, m.stamp, order[done], dropped)
    requires Live(order[done]) in dropped ==> NewName(order[j]) != Some(order[done])
    ensures var n, mid := order[j], RestoreAll(b, b.Keys, m.stamp, order[..done]) - dropped;
      && (Live(n) in mid <==> Live(n) in b) && (Backup(n, m.stamp) in mid <==> Backup(n, m.stamp) in b)
      && (NewName(n).Some? ==> (Live(NewName(n).value) in mid <==> Live(NewName(n).value) in b))
  {
    var n := order[j];
    OwnNamePresent(b, m, order, done, j);
    if NewName(n).Some? {
      NewNamePresent(a, b, m, order, done, j, NewName(n).value);
    }
    assert NewName(order[done]) != Some(n) && order[done] != n;
  }

  lemma {:induction false} CompletedOn(a: Colls, b: Colls, m: Manifest, order: seq<Name>, done: nat, dropped: set<Coll>, j: nat)
    requires Reaches(a, b) && JustBackedUp(a, m) && Alphabetical(order, m.names) && done < j <= |order|
    requires CutShort(b, m.stamp, order[done], dropped)
    requires Live(order[done]) in dropped ==>
      forall o :: o in order && NewName(o) == Some(order[done]) ==> Backup(o, m.stamp) !in b
    ensures var mid := RestoreAll(b, b.Keys, m.stamp, order[..done]) - dropped;
      RestoreAll(mid, mid.Keys, m.stamp, order[..j]) == RestoreAll(b, b.Keys, m.stamp, order[..j])
  {
    hide RestoreOne, Reaches, JustBackedUp, Alphabetical, CutShort, NewName;
    if j == done + 1 {
      CompletedAt(a, b, m, order, done, dropped);
    } else {
      var mid := RestoreAll(b, b.Keys, m.stamp, order[..done]) - dropped;
      var n, now := order[j - 1], RestoreAll(b, b.Keys, m.stamp, order[..j - 1]);
      CompletedOn(a, b, m, order, done, dropped, j - 1);
      assert order[..j][..j - 1] == order[..j - 1];
      if Backup(n, m.stamp) in b {
        SameNames(a, b, m, order, done, dropped, j - 1);
        SameStep(now, mid.Keys, b.Keys, m.stamp, n);
      } else {
        BackupsUsed(b, m.stamp, order[..j - 1], n);
        NothingThere(now, mid.Keys, m.stamp, n);
        NothingThere(now, b.Keys, m.stamp, n);
      }
    }
  }

  /** A name that was dropped before the second start is not dropped again once it is restored. */
  lemma {:induction false} KeptOn(mid: Colls, stamp: nat, order: seq<Name>, k: nat, j: nat, n: Name, docs: Docs)
    requires k <= j <= |order| && Live(n) !in mid && forall i :: k <= i < j ==> order[i] != n
    requires var now := RestoreAll(mid, mid.Keys, stamp, order[..k]); Live(n) in now && now[Live(n)] == docs
    ensures var now := RestoreAll(mid, mid.Keys, stamp, order[..j]); Live(n) in now && now[Live(n)] == docs
  {
    if k < j {
      KeptOn(mid, stamp, order, k, j - 1, n, docs);
      assert order[..j][..j - 1] == order[..j - 1];
    }
  }

  /** In a clash the old name's restore then leaves alone what it would have dropped. */
  lemma KeptInClash(a: Colls, b: Colls, m: Manifest, order: seq<Name>, done: nat, dropped: set<Coll>, o: Name)
    requires Reaches(a, b) && JustBackedUp(a, m) && Alphabetical(order, m.names) && done < |order|
    requires CutShort(b, m.stamp, order[done], dropped) && Live(order[done]) in dropped && Clash(a, o, order[done])
    ensures var mid := RestoreAll(b, b.Keys, m.stamp, order[..done]) - dropped;
      RestoreAll(mid, mid.Keys, m.stamp, order) != RestoreAll(b, b.Keys, m.stamp, order)
  {
    hide RestoreOne, RestoreAll, Alphabetical;
    var n, mid := order[done], RestoreAll(b, b.Keys, m.stamp, order[..done]) - dropped;
    CompletedAt(a, b, m, order, done, dropped);
    RestoredNow(a, b, m, order, done);
    OnlyOnce(order, m, done);
    KeptOn(mid, m.stamp, order, done + 1, |order|, n, a[Live(n)]);
    AfterRollback(a, b, m, order);
    EmptiedByOldName(a, b, RestoreAll(b, b.Keys, m.stamp, order), m, order, o, n);
    assert order[..|order|] == order;
  }

  lemma OnlyOnce(order: seq<Name>, m: Manifest, k: nat)
    requires Alphabetical(order, m.names) && k < |order|
    ensures forall i :: k < i < |order| ==> order[i] != order[k]
  {
  }

  lemma RestoredNow(a: Colls, b: Colls, m: Manifest, order: seq<Name>, done: nat)
    requires Reaches(a, b) && JustBackedUp(a, m) && Alphabetical(order, m.names) && done < |order|
    requires Backup(order[done], m.stamp) in b
    ensures var now := RestoreAll(b, b.Keys, m.stamp, order[..done + 1]);
      Live(order[done]) in now && now[Live(order[done])] == a[Live(order[done])] && a[Live(order[done])] != map[]
  {
    assert order[..done + 1][..done] == order[..done];
    OwnNamePresent(b, m, order, done, done);
    MidwayAt(a, b, m, order, done);
  }

  /** A rollback that is interrupted anywhere, also between the drops and the rename of one
      collection, and run again, ends where it would have ended, unless it had just dropped the
      newer collection of a clash: then that one is not dropped a second time. */
  lemma ResumedIff(a: Colls, log: seq<Write>, k: nat, m: Manifest, order: seq<Name>, done: nat, dropped: set<Coll>)
    requires JustBackedUp(a, m) && ScopedLog(log) && k <= |log| && Alphabetical(order, m.names) && done < |order|
    requires CutShort(Replay(a, log[..k]), m.stamp, order[done], dropped)
    ensures var b := Replay(a, log[..k]);
      var mid := RestoreAll(b, b.Keys, m.stamp, order[..done]) - dropped;
      var same := RestoreAll(mid, mid.Keys, m.stamp, order) == RestoreAll(b, b.Keys, m.stamp, order);
      same <==> !(Live(order[done]) in dropped && exists o :: Clash(a, o, order[done]))
  {
    hide RestoreAll, Alphabetical;
    var b := Replay(a, log[..k]);
    LogReaches(a, log[..k]);
    if Live(order[done]) in dropped && exists o :: Clash(a, o, order[done]) {
      var o :| Clash(a, o, order[done]);
      KeptInClash(a, b, m, order, done, dropped, o);
    } else {
      forall o | Live(order[done]) in dropped && NewName(o) == Some(order[done])
        ensures Backup(o, m.stamp) !in b
      {
        assert !Clash(a, o, order[done]);
      }
      CompletedOn(a, b, m, order, done, dropped, |order|);
      assert order[..|order|] == order;
    }
  }

  lemma ClashBackedUp(n: Name, o: Name, d: Docs, a: Colls, m: Manifest)
    requires !n.Unlisted? && !o.Unlisted? && d != map[] && m == Manifest({n, o}, 1)
    requires a.Keys == {Live(n), Live(o), Backup(n, 1), Backup(o, 1)} && forall c :: c in a ==> a[c] == d
    ensures JustBackedUp(a, m) && Reaches(a, a)
  {
    assert forall i :: (Live(i) in a <==> i in m.names) && (Backup(i, 1) in a <==> i in m.names);
  }

  /** A witness that the condition is needed: with documents under each of two names, a rollback of a
      database that nothing has touched loses the newer collection. */
  lemma ClashLosesDocuments(a: Colls, d: Docs, n: Name, o: Name)
    requires n == GraphSubscription && o == GraphSubscriptions && d != map[]
    requires a.Keys == {Live(n), Live(o), Backup(n, 1), Backup(o, 1)} && forall c :: c in a ==> a[c] == d
    ensures JustBackedUp(a, Manifest({n, o}, 1)) && DocsIn(a, Live(n)) == d
    ensures DocsIn(RestoreAll(a, a.Keys, 1, [n, o]), Live(n)) == map[]
  {
    ClashBackedUp(n, o, d, a, Manifest({n, o}, 1));
    assert [n, o][1] == o;
    NewNameEmptied(a, Manifest({n, o}, 1), [n, o], o, n);
  }

  lemma NewNameEmptied(a: Colls, m: Manifest, order: seq<Name>, o: Name, n: Name)
    requires Reaches(a, a) && JustBackedUp(a, m) && Alphabetical(order, m.names)
    requires o in order && NewName(o) == Some(n) && Saved(a, m.stamp, o)
    ensures DocsIn(RestoreAll(a, a.Keys, m.stamp, order), Live(n)) == map[]
  {
    AfterRollback(a, a, m, order);
    EmptiedByOldName(a, a, RestoreAll(a, a.Keys, m.stamp, order), m, order, o, n);
  }
}
