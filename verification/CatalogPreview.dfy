/** The preview of a catalog upgrade against the upgrade: what it announces, and what it does not. */
module CatalogPreview {
  import opened Wrappers
  import opened Ids
  import opened Catalog
  import opened CatalogFacts
  import opened CatalogExact
  import opened CatalogTurns

  // ---------------------------------------------------------------------------
  // What is retired was announced
  // ---------------------------------------------------------------------------

  predicate Shipped(r: Row, seeds: seq<Seed>) {
    r.seedId.Some? && r.seedId.value in LiveIds(seeds, r.kind)
  }

  lemma SeededIsShipped(c: Stores, e: Seed, seeds: seq<Seed>, titles: map<string, string>, i: Id)
    requires e in seeds && i in SeedOne(c, e, titles).rows
    ensures Shipped(SeedOne(c, e, titles).rows[i], seeds) ||
      (i in c.rows && SeedOne(c, e, titles).rows[i] == c.rows[i])
  {
    if e.seedId.Some? {
      assert e.seedId.value in LiveIds(seeds, e.kind);
      assert SeedOne(c, e, titles).rows == SeededRows(c, e).rows;
    }
  }

  /** A row that seeding has touched carries a shipped seed id. */
  lemma {:induction false} TouchedIsShipped(c: Stores, run: seq<Seed>, seeds: seq<Seed>, titles: map<string, string>, i: Id)
    requires (forall e :: e in run ==> e in seeds) && i in SeedAll(c, run, titles).rows
    ensures Shipped(SeedAll(c, run, titles).rows[i], seeds) ||
      (i in c.rows && SeedAll(c, run, titles).rows[i] == c.rows[i])
  {
    if run != [] {
      var front, last := run[..|run| - 1], run[|run| - 1];
      var before := SeedAll(c, front, titles);
      SeededIsShipped(before, last, seeds, titles, i);
      if i in before.rows {
        TouchedIsShipped(c, front, seeds, titles, i);
      }
    }
  }

  /** Whatever a prune after seeding retires, a prune before it would have retired too. */
  lemma RetiredWasAnnounced(c: Stores, seeds: seq<Seed>, cs: seq<SeedCollection>, kinds: set<Kind>, i: Id)
    requires i in StaleList(Seeded(c, seeds, cs, kinds).rows, seeds, kinds, PRUNE_ORDER)
    ensures i in StaleList(c.rows, seeds, kinds, PRUNE_ORDER)
  {
    var run := SeedOrder(seeds, kinds, SEED_ORDER);
    PruneRetires(Seeded(c, seeds, cs, kinds).rows, seeds, kinds, i);
    PruneRetires(c.rows, seeds, kinds, i);
    CollectionsExist(c, cs);
    forall e {
      RunSeeds(seeds, kinds, e);
    }
    TouchedIsShipped(WithCollections(c, cs), run, seeds, Titles(cs), i);
  }

  // ---------------------------------------------------------------------------
  // What is created, and what of it was not announced
  // ---------------------------------------------------------------------------

  /** The seeds for which a run makes a new row. */
  function Created(c: Stores, run: seq<Seed>, titles: map<string, string>): seq<Seed> {
    if run == [] then [] else
    var front, last := run[..|run| - 1], run[|run| - 1];
    Created(c, front, titles) +
      (if last.seedId.Some? && Existing(SeedAll(c, front, titles).rows, last).None? then [last] else [])
  }

  ghost predicate MissingAt(rows: map<Id, Row>, run: seq<Seed>, m: nat, e: Seed)
    requires m < |run|
  {
    run[m] == e && Missing(rows, run, m)
  }

  ghost predicate MissingBefore(rows: map<Id, Row>, run: seq<Seed>, j: nat, e: Seed)
    requires j <= |run|
  {
    exists m :: 0 <= m < j && MissingAt(rows, run, m, e)
  }

  lemma OneMoreMissing(rows: map<Id, Row>, run: seq<Seed>, j: nat, e: Seed)
    requires j < |run|
    ensures MissingBefore(rows, run, j + 1, e) <==> MissingBefore(rows, run, j, e) || MissingAt(rows, run, j, e)
  {
  }

  lemma CreatedNext(c: Stores, run: seq<Seed>, titles: map<string, string>, j: nat, e: Seed)
    requires Fresh(c) && Distinct(run) && j < |run|
    ensures e in Created(c, run[..j + 1], titles) <==> e in Created(c, run[..j], titles) || MissingAt(c.rows, run, j, e)
  {
    hide Midway, Distinct, SeedAll, Existing;
    assert run[..j + 1][..j] == run[..j] && run[..j + 1][j] == run[j];
    MidwayAt(c, run, j, titles);
    if run[j].seedId.Some? {
      MissingNow(c.rows, SeedAll(c, run[..j], titles).rows, run, j);
    }
  }

  lemma {:induction false} CreatedUpTo(c: Stores, run: seq<Seed>, titles: map<string, string>, j: nat, e: Seed)
    requires Fresh(c) && Distinct(run) && j <= |run|
    ensures e in Created(c, run[..j], titles) <==> MissingBefore(c.rows, run, j, e)
  {
    hide MissingAt, Distinct, Fresh;
    if j > 0 {
      hide Created, MissingBefore;
      CreatedUpTo(c, run, titles, j - 1, e);
      OneMoreMissing(c.rows, run, j - 1, e);
      CreatedNext(c, run, titles, j - 1, e);
    }
  }

  /** A run creates a row for a seed exactly if, when its turn comes, no row is left that carries
      its id and none is verified under its title. */
  lemma CreatedIff(c: Stores, run: seq<Seed>, titles: map<string, string>, n: nat)
    requires Fresh(c) && Distinct(run) && n < |run|
    ensures run[n] in Created(c, run, titles) <==> Missing(c.rows, run, n)
  {
    CreatedUpTo(c, run, titles, |run|, run[n]);
    assert run[..|run|] == run;
    if Missing(c.rows, run, n) {
      assert MissingAt(c.rows, run, n, run[n]);
    }
    if m :| 0 <= m < |run| && MissingAt(c.rows, run, m, run[n]) {
      SameSeed(run, m, n);
    }
  }

  predicate KnownById(rows: map<Id, Row>, e: Seed) {
    exists i :: i in rows && Carries(rows, i, e) && rows[i].verified
  }

  predicate KnownByTitle(rows: map<Id, Row>, e: Seed) {
    e.title != [] && exists i :: i in rows && rows[i].kind == e.kind && rows[i].verified && rows[i].bySystem && rows[i].title == e.title
  }

  /** The preview's idea of a seed that is already installed. */
  predicate Known(rows: map<Id, Row>, e: Seed) {
    KnownById(rows, e) || (e.kind.KnowledgeBase? && KnownByTitle(rows, e))
  }

  /** A verified row carries the seed's id at the start, but earlier seeds have taken every row
      that does, and none is verified under its title, when its turn comes. */
  ghost predicate Unannounced(rows: map<Id, Row>, run: seq<Seed>, n: nat)
    requires n < |run|
  {
    KnownById(rows, run[n]) && Missing(rows, run, n)
  }

  /** A seed is created although the preview takes it for installed exactly if earlier seeds take
      over the rows that carry its id. */
  lemma UnannouncedIff(c: Stores, run: seq<Seed>, titles: map<string, string>, n: nat)
    requires Fresh(c) && Distinct(run) && n < |run|
    ensures run[n] in Created(c, run, titles) && Known(c.rows, run[n]) <==> Unannounced(c.rows, run, n)
  {
    var rows, e := c.rows, run[n];
    CreatedIff(c, run, titles, n);
    if e.kind.KnowledgeBase? && e.seedId.Some? && KnownByTitle(rows, e) {
      var i :| i in rows && rows[i].kind == e.kind && rows[i].verified && rows[i].bySystem && rows[i].title == e.title;
      assert HasTitle(rows, i, e) && Offered(rows, run, n, i);
    }
  }

  /** Whatever rows and seeds there are, a workflow that is created was announced. */
  lemma {:induction false} WorkflowsAnnounced(c: Stores, run: seq<Seed>, titles: map<string, string>, e: Seed)
    requires Fresh(c) && e.kind.Workflow? && e.seedId.Some?
    ensures Fresh(SeedAll(c, run, titles))
    ensures Known(c.rows, e) ==>
      e !in Created(c, run, titles) && e.seedId.value in VerifiedIds(SeedAll(c, run, titles).rows, Workflow)
  {
    var id := e.seedId.value;
    if run == [] {
      assert Known(c.rows, e) ==> VerifiedStamped(c.rows, Workflow, id) != {} by {
        if i :| Carries(c.rows, i, e) && c.rows[i].verified {
          assert i in VerifiedStamped(c.rows, Workflow, id);
        }
      }
      VerifiedIdsAre(c.rows, Workflow, id);
    } else {
      var front, last := run[..|run| - 1], run[|run| - 1];
      var before := SeedAll(c, front, titles);
      WorkflowsAnnounced(c, front, titles, e);
      FreshAfter(before, last, titles);
      IdAfterOne(before, last, titles, Workflow, id);
      VerifiedIdsAre(before.rows, Workflow, id);
      assert VerifiedStamped(before.rows, Workflow, id) <= Stamped(before.rows, Workflow, id);
    }
  }

  // ---------------------------------------------------------------------------
  // Rows for which everything is announced
  // ---------------------------------------------------------------------------

  /** The search set carries one seed's id and another one's title. */
  predicate Mixed(r: Row, e: Seed, f: Seed) {
    && r.kind.SearchSet? && e.kind == r.kind && f.kind == r.kind && e.seedId.Some? && f.seedId.Some?
    && r.seedId == e.seedId && r.title == f.title && e.seedId != f.seedId
  }

  ghost predicate Unmixed(rows: map<Id, Row>, seeds: seq<Seed>) {
    forall i, e, f :: i in rows && e in seeds && f in seeds ==> !Mixed(rows[i], e, f)
  }

  /** No row of a titled type carries one seed's id and another one's title. */
  ghost predicate Steady(c: Stores, run: seq<Seed>) {
    Settled(c, run) && Unmixed(c.rows, run)
  }

  lemma NoneCrosses(c: Stores, run: seq<Seed>, d: nat, n: nat, x: Id)
    requires Steady(c, run) && d < |run| && n < |run| && d != n && Carries(c.rows, x, run[d])
    ensures !HasTitle(c.rows, x, run[n])
  {
    assert run[d] in run && run[n] in run;
    assert run[d].kind == run[n].kind && run[n].seedId.Some? ==> run[d].seedId != run[n].seedId;
    assert !Crossed(c.rows[x], run[d], run[n]) && !Mixed(c.rows[x], run[d], run[n]);
  }

  /** Then a run creates rows for exactly those seeds that find none to refresh beforehand. */
  lemma CreatedIsWhatIsMissing(c: Stores, run: seq<Seed>, titles: map<string, string>, n: nat)
    requires Steady(c, run) && n < |run| && run[n].seedId.Some?
    ensures run[n] in Created(c, run, titles) <==> Existing(c.rows, run[n]).None?
  {
    var rows, e := c.rows, run[n];
    CreatedIff(c, run, titles, n);
    forall x | Carries(rows, x, e)
      ensures !TakenBefore(rows, run, n, x)
    {
      forall g: nat | g < n {
        NoneCrosses(c, run, n, g, x);
      }
    }
    forall x | HasTitle(rows, x, e)
      ensures Offered(rows, run, n, x) <==> rows[x].verified
    {
      forall d: nat | d < n && Carries(rows, x, run[d]) {
        NoneCrosses(c, run, d, n, x);
      }
      assert !FoundBefore(rows, run, n, x);
    }
    assert Stamped(rows, e.kind, e.seedId.value) == {} <==> Free(rows, run, n) by {
      assert forall x :: x in Stamped(rows, e.kind, e.seedId.value) <==> Carries(rows, x, e);
    }
    assert forall x :: ByTitleToo(e.kind) ==>
      (x in Titled(rows, e.kind, e.title) <==> HasTitle(rows, x, e) && Offered(rows, run, n, x));
  }

  /** And everything that seeding creates was announced. */
  lemma CreatedWasAnnounced(c: Stores, run: seq<Seed>, titles: map<string, string>, n: nat)
    requires Steady(c, run) && n < |run| && run[n] in Created(c, run, titles)
    ensures !Known(c.rows, run[n])
  {
    UnannouncedIff(c, run, titles, n);
    CreatedIff(c, run, titles, n);
    if i :| Carries(c.rows, i, run[n]) && c.rows[i].verified {
      assert TakenBefore(c.rows, run, n, i);
      var g: nat :| g < n && Takes(c.rows, run, g, i);
      NoneCrosses(c, run, n, g, i);
    }
  }

  /** A witness: the first seed takes over the row that carries the second one's id, and the second
      one is created, although the preview takes both for installed. */
  lemma CreatedUnannounced(c: Stores, run: seq<Seed>, titles: map<string, string>)
    requires Fresh(c) && c.rows == map[Id(0) := Row(KnowledgeBase, "A", true, Some("b"), true)]
    requires run == [Seed(KnowledgeBase, Some("a"), "A", "A", []), Seed(KnowledgeBase, Some("b"), "B", "B", [])]
    ensures Known(c.rows, run[0]) && Known(c.rows, run[1]) && run[1] in Created(c, run, titles)
  {
    assert Carries(c.rows, Id(0), run[1]) && HasTitle(c.rows, Id(0), run[0]);
    assert Offered(c.rows, run, 0, Id(0));
    assert Takes(c.rows, run, 0, Id(0));
    assert Missing(c.rows, run, 1);
    CreatedIff(c, run, titles, 1);
  }
}
