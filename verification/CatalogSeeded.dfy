/** Which seeds keep the row that they refresh or make, to the end of the run and through a prune. */
module CatalogSeeded {
  import opened Wrappers
  import opened Ids
  import opened Catalog
  import opened CatalogFacts
  import opened CatalogTurns

  // ---------------------------------------------------------------------------
  // One seed
  // ---------------------------------------------------------------------------

  /** Row `i` is found again by the seed's id, and is up to date and attached. */
  ghost predicate SettledOn(c: Stores, e: Seed, titles: map<string, string>, i: Id)
    requires e.seedId.Some?
  {
    && Stamped(c.rows, e.kind, e.seedId.value) != {} && Existing(c.rows, e) == Some(i)
    && SeededAs(c, i, e, titles) && RefreshedRow(c.rows[i], e) == c.rows[i]
  }

  lemma FoundAgain(c: Stores, e: Seed)
    requires Fresh(c) && e.seedId.Some?
    ensures Stamped(SeededRows(c, e).rows, e.kind, e.seedId.value) != {}
    ensures Existing(SeededRows(c, e).rows, e) == Some(SeedTarget(c, e))
    ensures RefreshedRow(SeededRows(c, e).rows[SeedTarget(c, e)], e) == SeededRows(c, e).rows[SeedTarget(c, e)]
  {
    RowSeeded(c, e);
    var before, after := Stamped(c.rows, e.kind, e.seedId.value), Stamped(SeededRows(c, e).rows, e.kind, e.seedId.value);
    if before == {} {
      assert after == {SeedTarget(c, e)};
    } else {
      assert after == before;
    }
  }

  lemma JustSeeded(c: Stores, e: Seed, titles: map<string, string>)
    requires Fresh(c) && e.seedId.Some?
    ensures SettledOn(SeedOne(c, e, titles), e, titles, SeedTarget(c, e))
  {
    hide Attached, IsAttached, SeededRows, Stamped;
    FoundAgain(c, e);
    RowSeeded(c, e);
    if e.kind.SearchSet? {
      SearchSetTitled(c, e);
    }
    OneAttached(SeededRows(c, e), Item(e.kind, SeedTarget(c, e)), e, titles);
  }

  lemma SearchSetTitled(c: Stores, e: Seed)
    requires Fresh(c) && e.seedId.Some? && e.kind.SearchSet?
    ensures SeededRows(c, e).rows[SeedTarget(c, e)].title == e.title
  {
  }

  /** The first row that carries a seed's id stays the first if another seed does not take it. */
  lemma StillFirst(c: Stores, e: Seed, f: Seed)
    requires Fresh(c) && e.seedId.Some? && f.seedId.Some? && (e.kind == f.kind ==> e.seedId != f.seedId)
    requires Stamped(c.rows, f.kind, f.seedId.value) != {}
    requires SeedTarget(c, e) != Least(Stamped(c.rows, f.kind, f.seedId.value))
    ensures Stamped(SeededRows(c, e).rows, f.kind, f.seedId.value) != {}
    ensures Existing(SeededRows(c, e).rows, f) == Existing(c.rows, f)
  {
    RowSeeded(c, e);
    var before, after := Stamped(c.rows, f.kind, f.seedId.value), Stamped(SeededRows(c, e).rows, f.kind, f.seedId.value);
    assert after == before - {SeedTarget(c, e)};
    assert Least(before) in after;
  }

  lemma ListedAsBefore(c: Stores, item: Item, other: Item)
    requires Fresh(c) && item != other
    ensures IsListed(WithLibItem(c, item), other) <==> IsListed(c, other)
  {
    Listed(c, item);
  }

  /** Seeding another row changes nothing about what is attached to this one. */
  lemma AttachedAsBefore(c: Stores, e: Seed, titles: map<string, string>, i: Id, f: Seed)
    requires Fresh(c) && e.seedId.Some? && SeedTarget(c, e) != i
    ensures IsAttached(SeedOne(c, e, titles), Item(f.kind, i), f, titles) <==> IsAttached(c, Item(f.kind, i), f, titles)
  {
    hide SeedTarget, WithMembers, WithLibItem, LibItemsOf, IsListed;
    var mid, item, other := SeededRows(c, e), Item(e.kind, SeedTarget(c, e)), Item(f.kind, i);
    RowSeeded(c, e);
    Listed(mid, item);
    ListedAsBefore(mid, item, other);
    MembersAdded(mid.cols, e.slugs, titles, item.id);
    SameListing(c, mid, other);
    SameListing(WithLibItem(mid, item), SeedOne(c, e, titles), other);
  }

  lemma SameListing(a: Stores, b: Stores, item: Item)
    requires a.lib == b.lib && a.libItems == b.libItems
    ensures IsListed(a, item) <==> IsListed(b, item)
  {
    assert LibItemsOf(a, item) == LibItemsOf(b, item);
  }

  lemma SettledStill(c: Stores, e: Seed, titles: map<string, string>, i: Id, f: Seed)
    requires Fresh(c) && f.seedId.Some? && SettledOn(c, f, titles, i)
    requires e.seedId.Some? ==> SeedTarget(c, e) != i && (e.kind == f.kind ==> e.seedId != f.seedId)
    ensures SettledOn(SeedOne(c, e, titles), f, titles, i)
  {
    hide IsAttached, Attached;
    if e.seedId.Some? {
      FreshAfter(c, e, titles);
      RowSeeded(c, e);
      StillFirst(c, e, f);
      AttachedAsBefore(c, e, titles, i, f);
    }
  }

  // ---------------------------------------------------------------------------
  // The run
  // ---------------------------------------------------------------------------

  /** The row that seed `d` refreshes or makes. */
  ghost function RowOf(c: Stores, run: seq<Seed>, titles: map<string, string>, d: nat): Id
    requires d < |run| && run[d].seedId.Some?
  {
    SeedTarget(SeedAll(c, run[..d], titles), run[d])
  }

  /** Seed `n` takes over the row that seed `d` has found. */
  ghost predicate TakesFrom(rows: map<Id, Row>, run: seq<Seed>, d: nat, n: nat)
    requires d < |run| && n < |run|
  {
    exists x :: Finds(rows, run, d, x) && Takes(rows, run, n, x)
  }

  /** One of the seeds after `d` and before `j` does. */
  ghost predicate TakenBy(rows: map<Id, Row>, run: seq<Seed>, d: nat, j: nat)
    requires d < |run| && j <= |run|
  {
    exists n :: d < n < j && TakesFrom(rows, run, d, n)
  }

  ghost predicate TakenLater(rows: map<Id, Row>, run: seq<Seed>, d: nat)
    requires d < |run|
  {
    TakenBy(rows, run, d, |run|)
  }

  /** Only knowledge bases are taken over from a seed that has found them. */
  lemma OnlyBasesTaken(rows: map<Id, Row>, run: seq<Seed>, d: nat)
    requires d < |run| && TakenLater(rows, run, d)
    ensures run[d].kind.KnowledgeBase?
  {
    var n :| d < n < |run| && TakesFrom(rows, run, d, n);
    var x :| Finds(rows, run, d, x) && Takes(rows, run, n, x);
    assert Offered(rows, run, n, x) && FoundBefore(rows, run, n, x);
  }

  lemma NoneTakenIfClear(rows: map<Id, Row>, run: seq<Seed>, d: nat)
    requires Distinct(run) && Clear(rows, run) && d < |run|
    ensures !TakenLater(rows, run, d)
  {
    hide Distinct, Clear;
    if TakenLater(rows, run, d) {
      OnlyBasesTaken(rows, run, d);
      var n: nat :| d < n < |run| && TakesFrom(rows, run, d, n);
      var x :| Finds(rows, run, d, x) && Takes(rows, run, n, x);
      NotFromClear(rows, run, d, n, x);
    }
  }

  lemma NotFreeIfFound(rows: map<Id, Row>, run: seq<Seed>, d: nat, x: Id)
    requires d < |run| && Finds(rows, run, d, x)
    ensures !Free(rows, run, d)
  {
  }

  lemma FindsOne(rows: map<Id, Row>, run: seq<Seed>, d: nat, x: Id, y: Id)
    requires d < |run| && Finds(rows, run, d, x) && Finds(rows, run, d, y)
    ensures x == y
  {
  }

  /** The row of seed `d`: found, taken over, or made. */
  lemma RowOfIs(c: Stores, run: seq<Seed>, titles: map<string, string>, d: nat)
    requires Fresh(c) && Distinct(run) && d < |run| && run[d].seedId.Some?
    ensures var i := RowOf(c, run, titles, d);
      Finds(c.rows, run, d, i) || Takes(c.rows, run, d, i) || (i !in c.rows && Missing(c.rows, run, d))
  {
    var before := SeedAll(c, run[..d], titles);
    MidwayAt(c, run, d, titles);
    TurnIs(c.rows, before.rows, run, d, RowOf(c, run, titles, d));
    MissingNow(c.rows, before.rows, run, d);
    if Existing(before.rows, run[d]).None? {
      assert RowOf(c, run, titles, d) !in before.rows;
    }
  }

  /** A later seed refreshes the row only by taking it over. */
  lemma OtherTarget(c: Stores, run: seq<Seed>, titles: map<string, string>, d: nat, n: nat)
    requires Fresh(c) && Distinct(run) && d < n < |run| && run[d].seedId.Some? && run[n].seedId.Some?
    requires RowOf(c, run, titles, d) in SeedAll(c, run[..n], titles).rows
    ensures RowOf(c, run, titles, n) == RowOf(c, run, titles, d) <==> TakesFrom(c.rows, run, d, n)
  {
    var i, now := RowOf(c, run, titles, d), SeedAll(c, run[..n], titles);
    RowOfIs(c, run, titles, d);
    MidwayAt(c, run, n, titles);
    TurnIs(c.rows, now.rows, run, n, i);
    if Takes(c.rows, run, d, i) {
      assert TakenBefore(c.rows, run, n, i);
      if Takes(c.rows, run, n, i) {
        TakenOnce(c.rows, run, d, n, i);
      }
    } else if Finds(c.rows, run, d, i) && Finds(c.rows, run, n, i) {
      FoundOnce(c.rows, run, d, n, i);
    }
    if x :| Finds(c.rows, run, d, x) && Takes(c.rows, run, n, x) {
      assert !Free(c.rows, run, d);
      FindsOne(c.rows, run, d, x, i);
    }
  }

  lemma OneMoreTaker(rows: map<Id, Row>, run: seq<Seed>, d: nat, j: nat)
    requires d < j < |run|
    ensures TakenBy(rows, run, d, j + 1) <==> TakenBy(rows, run, d, j) || TakesFrom(rows, run, d, j)
  {
  }

  /** Until a later seed takes it over, the row of a seed is settled. */
  lemma SettledNext(c: Stores, run: seq<Seed>, titles: map<string, string>, d: nat, n: nat)
    requires Fresh(c) && Distinct(run) && d < n < |run| && run[d].seedId.Some? && !TakesFrom(c.rows, run, d, n)
    requires SettledOn(SeedAll(c, run[..n], titles), run[d], titles, RowOf(c, run, titles, d))
    ensures SettledOn(SeedOne(SeedAll(c, run[..n], titles), run[n], titles), run[d], titles, RowOf(c, run, titles, d))
  {
    hide TakesFrom, SeedOne, SeedAll, SettledOn, Midway;
    var i, before := RowOf(c, run, titles, d), SeedAll(c, run[..n], titles);
    SettledIsThere(before, run[d], titles, i);
    MidwayAt(c, run, n, titles);
    if run[n].seedId.Some? {
      OtherTarget(c, run, titles, d, n);
      if run[n].kind == run[d].kind && run[n].seedId == run[d].seedId {
        SameSeed(run, n, d);
      }
    }
    SettledStill(before, run[n], titles, i, run[d]);
  }

  lemma SettledIsThere(c: Stores, e: Seed, titles: map<string, string>, i: Id)
    requires e.seedId.Some? && SettledOn(c, e, titles, i)
    ensures i in c.rows
  {
  }

  lemma {:induction false} SettledUpTo(c: Stores, run: seq<Seed>, titles: map<string, string>, d: nat, j: nat)
    requires Fresh(c) && Distinct(run) && d < j <= |run| && run[d].seedId.Some? && !TakenBy(c.rows, run, d, j)
    ensures SettledOn(SeedAll(c, run[..j], titles), run[d], titles, RowOf(c, run, titles, d))
  {
    hide TakesFrom, TakenBy, SeedOne, SettledOn, Midway, Distinct;
    var before := SeedAll(c, run[..j - 1], titles);
    assert run[..j][..j - 1] == run[..j - 1] && run[..j][j - 1] == run[j - 1];
    assert SeedAll(c, run[..j], titles) == SeedOne(before, run[j - 1], titles);
    if j == d + 1 {
      MidwayAt(c, run, d, titles);
      JustSeeded(before, run[d], titles);
    } else {
      OneMoreTaker(c.rows, run, d, j - 1);
      SettledUpTo(c, run, titles, d, j - 1);
      SettledNext(c, run, titles, d, j - 1);
    }
  }

  /** A row that is taken over does not carry the first seed's id any more. */
  lemma TakenIsGone(c: Stores, run: seq<Seed>, titles: map<string, string>, d: nat)
    requires Fresh(c) && Distinct(run) && d < |run| && run[d].seedId.Some? && TakenLater(c.rows, run, d)
    ensures var i := RowOf(c, run, titles, d);
      && Finds(c.rows, run, d, i) && TakenBefore(c.rows, run, |run|, i)
      && i in SeedAll(c, run, titles).rows && SeedAll(c, run, titles).rows[i].seedId != run[d].seedId
  {
    hide Distinct;
    var i, rows := RowOf(c, run, titles, d), c.rows;
    var n :| d < n < |run| && TakesFrom(rows, run, d, n);
    var x :| Finds(rows, run, d, x) && Takes(rows, run, n, x);
    RowOfIs(c, run, titles, d);
    assert !Free(rows, run, d);
    FindsOne(rows, run, d, x, i);
    MidwayAt(c, run, |run|, titles);
    assert run[..|run|] == run;
    var final := SeedAll(c, run, titles).rows;
    assert OldRow(rows, final[i], run, |run|, i);
    var g :| 0 <= g < |run| && Takes(rows, run, g, i) && final[i] == RefreshedRow(rows[i], run[g]);
    if run[g].seedId == run[d].seedId {
      SameSeed(run, g, d);
    }
  }

  /** A seed keeps its row, verified and attached, to the end of the run exactly if no later seed
      takes it over. */
  lemma KeptIff(c: Stores, run: seq<Seed>, titles: map<string, string>, d: nat)
    requires Fresh(c) && Distinct(run) && d < |run| && run[d].seedId.Some?
    ensures SeededAs(SeedAll(c, run, titles), RowOf(c, run, titles, d), run[d], titles) <==> !TakenLater(c.rows, run, d)
  {
    if TakenLater(c.rows, run, d) {
      TakenIsGone(c, run, titles, d);
    } else {
      SettledUpTo(c, run, titles, d, |run|);
      assert run[..|run|] == run;
    }
  }

  // ---------------------------------------------------------------------------
  // Seed, then prune
  // ---------------------------------------------------------------------------

  /** After seed and prune, the row that a seed refreshes or makes is verified, carries its id, has
      its display name, is listed in the verified library and in all its collections, exactly if
      no later seed takes that row over. */
  lemma InTheCatalogIff(c: Stores, seeds: seq<Seed>, cs: seq<SeedCollection>, kinds: set<Kind>, d: nat)
    requires Fresh(c) && Distinct(SeedOrder(seeds, kinds, SEED_ORDER))
    requires d < |SeedOrder(seeds, kinds, SEED_ORDER)| && SeedOrder(seeds, kinds, SEED_ORDER)[d].seedId.Some?
    ensures var run, titles := SeedOrder(seeds, kinds, SEED_ORDER), Titles(cs);
      var final, i := AfterPrune(Seeded(c, seeds, cs, kinds), seeds, kinds), RowOf(WithCollections(c, cs), run, titles, d);
      SeededAs(final, i, run[d], titles) <==> !TakenLater(c.rows, run, d)
  {
    var run, titles, start := SeedOrder(seeds, kinds, SEED_ORDER), Titles(cs), WithCollections(c, cs);
    var mid, i := Seeded(c, seeds, cs, kinds), RowOf(start, run, titles, d);
    CollectionsExist(c, cs);
    KeptIff(start, run, titles, d);
    PrunedRows(mid.rows, seeds, kinds);
    RunSeeds(seeds, kinds, run[d]);
    if TakenLater(c.rows, run, d) {
      TakenIsGone(start, run, titles, d);
      PruneIsExact(mid, seeds, kinds, i);
    } else {
      LiveIsNotStale(mid, seeds, kinds, i, run[d], titles);
      SeededSurvives(mid, StaleList(mid.rows, seeds, kinds, PRUNE_ORDER), i, run[d], titles);
    }
  }

  /** Every workflow and every search set is in the catalog after seed and prune, and so is every
      knowledge base where no seed's title sits on a row that another one has stamped. */
  lemma EverySeedIsInTheCatalog(c: Stores, seeds: seq<Seed>, cs: seq<SeedCollection>, kinds: set<Kind>, e: Seed)
    returns (i: Id)
    requires Fresh(c) && Distinct(SeedOrder(seeds, kinds, SEED_ORDER))
    requires e in seeds && e.kind in kinds && e.seedId.Some?
    requires e.kind.KnowledgeBase? ==> Clear(c.rows, SeedOrder(seeds, kinds, SEED_ORDER))
    ensures SeededAs(AfterPrune(Seeded(c, seeds, cs, kinds), seeds, kinds), i, e, Titles(cs))
  {
    var run := SeedOrder(seeds, kinds, SEED_ORDER);
    RunSeeds(seeds, kinds, e);
    var d :| 0 <= d < |run| && run[d] == e;
    InTheCatalogIff(c, seeds, cs, kinds, d);
    i := RowOf(WithCollections(c, cs), run, Titles(cs), d);
    if e.kind.KnowledgeBase? {
      NoneTakenIfClear(c.rows, run, d);
    } else if TakenLater(c.rows, run, d) {
      OnlyBasesTaken(c.rows, run, d);
    }
  }
}
