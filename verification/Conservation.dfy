/** Nothing is lost, and nothing appears, between the backups and the end of a run. */
module Conservation {
  import opened Wrappers
  import opened Ids
  import opened Mongo
  import opened Conversion
  import opened Migration
  import opened MigrationRun
  import opened MigrationFacts
  import opened SecondRun
  import opened Verdict

  /** The name a collection has after the run. */
  function NameAfter(a: Colls, n: Name): Name {
    if Moves(a, n) then NewName(n).value else n
  }

  /** A collection and the collection it has become. */
  ghost predicate Conserved(e: Env, n: Name, docs: Docs, docs': Docs) {
    && (forall i :: i in docs' <==> i in docs && !Unsupported(n, docs[i]))
    && (forall i :: i in docs' && TeamId in docs[i] ==> TeamId in docs'[i] && docs'[i][TeamId] == docs[i][TeamId])
    && (SpaceScoped(n) ==> forall i :: i in docs' && TeamId !in docs[i] ==>
          if TeamFor(e, docs[i]).Some? then TeamId in docs'[i] && docs'[i][TeamId] == TeamFor(e, docs[i]).value
          else TeamId !in docs'[i])
  }

  lemma ConservedAt(e: Env, n: Name, docs: Docs, i: Id)
    ensures i in MigratedDocs(e, n, docs) <==> i in docs && !Unsupported(n, docs[i])
    ensures i in MigratedDocs(e, n, docs) && TeamId in docs[i] ==> SameField(TeamId, MigratedDocs(e, n, docs)[i], docs[i])
    ensures i in MigratedDocs(e, n, docs) && SpaceScoped(n) && TeamId !in docs[i] ==>
      if TeamFor(e, docs[i]).Some?
      then TeamId in MigratedDocs(e, n, docs)[i] && MigratedDocs(e, n, docs)[i][TeamId] == TeamFor(e, docs[i]).value
      else TeamId !in MigratedDocs(e, n, docs)[i]
  {
    MigratedAt(e, n, docs, i);
    if i in MigratedDocs(e, n, docs) {
      if TeamId in docs[i] {
        TeamNeverChanges(e, n, i, docs[i]);
      } else if SpaceScoped(n) {
        TeamOfItsOwner(e, n, i, docs[i]);
      }
    }
  }

  lemma DocsConserved(e: Env, n: Name, docs: Docs)
    ensures Conserved(e, n, docs, MigratedDocs(e, n, docs))
  {
    forall i {
      ConservedAt(e, n, docs, i);
    }
  }

  lemma NamedAfter(a: Colls, n: Name)
    requires Live(n) in a
    ensures Live(NameAfter(a, n)) in Renamed(a) && Renamed(a)[Live(NameAfter(a, n))] == a[Live(n)]
  {
  }

  /** Every live collection is still there after the run, under one of its two names, with
      exactly its documents, less the unsupported library items and requests; a team that a
      document had is the team it has, and one that it lacked is its owner's or the default. */
  lemma NothingLost(e: Env, a: Colls, n: Name)
    requires Live(n) in a
    ensures Live(NameAfter(a, n)) in Migrated(e, a)
    ensures Conserved(e, NameAfter(a, n), a[Live(n)], Migrated(e, a)[Live(NameAfter(a, n))])
    ensures !n.LibraryItem? && !n.VerificationRequest? ==>
      Migrated(e, a)[Live(NameAfter(a, n))].Keys == a[Live(n)].Keys
  {
    var m := NameAfter(a, n);
    NamedAfter(a, n);
    RewrittenAt(e, Renamed(a), m);
    DocsConserved(e, m, a[Live(n)]);
    AllKeysKept(e, n, m, a[Live(n)]);
  }

  lemma AllKeysKept(e: Env, n: Name, m: Name, docs: Docs)
    requires m == n || NewName(n) == Some(m)
    ensures !n.LibraryItem? && !n.VerificationRequest? ==> MigratedDocs(e, m, docs).Keys == docs.Keys
  {
    if !n.LibraryItem? && !n.VerificationRequest? {
      AllKept(e, m, docs);
    }
  }

  /** No other live collection is there after the run, and the rest is untouched. */
  lemma NothingAppears(e: Env, a: Colls, c: Coll)
    requires c in Migrated(e, a)
    ensures c.Live? ==> exists n :: Live(n) in a && NameAfter(a, n) == c.name
    ensures !c.Live? ==> c in a && Migrated(e, a)[c] == a[c]
  {
    if c.Live? {
      assert c in Renamed(a);
      if c in a {
        RenamedAt(a, c.name);
        assert NameAfter(a, c.name) == c.name;
      } else {
        assert NameAfter(a, OldName(c.name).value) == c.name;
      }
    }
  }

  /** No two collections end up under one name. */
  lemma NoTwoMerge(a: Colls, n: Name, m: Name)
    requires Live(n) in a && Live(m) in a && NameAfter(a, n) == NameAfter(a, m)
    ensures n == m
  {
  }
}
