/**
 Which seeds lose their last row to another one's title, told from the rows that seeding starts
 from: workflows and search sets never do, knowledge bases by a condition on these rows.
 */
module CatalogTitles {
  import opened Wrappers
  import opened Ids
  import opened Catalog
  import opened CatalogFacts
  import opened CatalogExact
  import opened CatalogTurns

  /** A row that still carries the seed's id, verified, when it is the turn of seed `n`. */
  ghost predicate Holds(rows: map<Id, Row>, run: seq<Seed>, n: nat, e: Seed, x: Id)
    requires n <= |run|
  {
    && Carries(rows, x, e) && !TakenBefore(rows, run, n, x)
    && (rows[x].verified || FoundBefore(rows, run, n, x))
  }

  /** Of two seeds, the later one takes over a row that carries the earlier one's id, and no other
      verified row carries that. */
  ghost predicate TakesLast(rows: map<Id, Row>, run: seq<Seed>, d: nat, n: nat, x: Id)
    requires d < n < |run|
  {
    Takes(rows, run, n, x) && Carries(rows, x, run[d]) && forall y :: Holds(rows, run, n, run[d], y) ==> y == x
  }

  /** No seed takes over the last verified row of an earlier one of the type. */
  ghost predicate NoLastTaken(rows: map<Id, Row>, run: seq<Seed>, k: Kind) {
    forall d: nat, n: nat, x :: d < n < |run| && run[d].kind == k ==> !TakesLast(rows, run, d, n, x)
  }

  /** The verified rows with a seed's id when it is the turn of seed `n`. */
  lemma HeldNow(rows: map<Id, Row>, now: map<Id, Row>, run: seq<Seed>, d: nat, n: nat, y: Id)
    requires Distinct(run) && d < n < |run| && run[d].seedId.Some? && !Free(rows, run, d) && Midway(rows, now, run, n)
    ensures y in VerifiedStamped(now, run[d].kind, run[d].seedId.value) <==> Holds(rows, run, n, run[d], y)
  {
    StampedAfter(rows, now, run, d, n, y);
    if y in rows {
      assert OldRow(rows, now[y], run, n, y);
    }
  }

  /** A row that is taken over later is not taken over before. */
  lemma NotTakenYet(rows: map<Id, Row>, run: seq<Seed>, j: nat, n: nat, x: Id)
    requires Distinct(run) && j <= n < |run| && Takes(rows, run, n, x)
    ensures !TakenBefore(rows, run, j, x)
  {
    hide Distinct;
    if g: nat :| 0 <= g < j && Takes(rows, run, g, x) {
      TakenOnce(rows, run, g, n, x);
    }
  }

  lemma TakenIsDisplaced(rows: map<Id, Row>, now: map<Id, Row>, run: seq<Seed>, d: nat, n: nat, x: Id)
    requires Distinct(run) && d < n < |run| && run[d].seedId.Some? && Midway(rows, now, run, n)
    requires TakesLast(rows, run, d, n, x)
    ensures Displaces(now, run[n], run[d].kind, run[d].seedId.value)
  {
    var id := run[d].seedId.value;
    FreeNow(rows, now, run, n);
    TakesNow(rows, now, run, n, x);
    NotTakenYet(rows, run, n, n, x);
    NotTakenYet(rows, run, d, n, x);
    assert !Free(rows, run, d);
    assert Holds(rows, run, n, run[d], x);
    forall y {
      HeldNow(rows, now, run, d, n, y);
    }
    assert VerifiedStamped(now, run[d].kind, id) == {x};
  }

  lemma DisplacedWasTaken(rows: map<Id, Row>, now: map<Id, Row>, run: seq<Seed>, d: nat, n: nat) returns (x: Id)
    requires Distinct(run) && d < n < |run| && run[d].seedId.Some? && Midway(rows, now, run, n)
    requires Displaces(now, run[n], run[d].kind, run[d].seedId.value)
    ensures TakesLast(rows, run, d, n, x)
  {
    x := Least(Titled(now, run[n].kind, run[n].title));
    FreeNow(rows, now, run, n);
    TakesNow(rows, now, run, n, x);
    NotTakenYet(rows, run, n, n, x);
    assert x in VerifiedStamped(now, run[d].kind, run[d].seedId.value);
    assert OldRow(rows, now[x], run, n, x);
    assert Carries(rows, x, run[d]);
    NotTakenYet(rows, run, d, n, x);
    assert !Free(rows, run, d);
    forall y {
      HeldNow(rows, now, run, d, n, y);
    }
  }

  lemma LostIff(c: Stores, run: seq<Seed>, titles: map<string, string>, d: nat)
    requires Fresh(c) && Distinct(run) && d < |run| && run[d].seedId.Some?
    ensures Lost(c, run, titles, run[d].kind, run[d].seedId.value)
       <==> exists n, x :: d < n < |run| && TakesLast(c.rows, run, d, n, x)
  {
    var k, id := run[d].kind, run[d].seedId.value;
    if Lost(c, run, titles, k, id) {
      var n :| 0 <= n < |run| && LostAt(c, run, titles, k, id, n);
      assert Ships(run[d], k, id) && d < n;
      MidwayAt(c, run, n, titles);
      var x := DisplacedWasTaken(c.rows, SeedAll(c, run[..n], titles).rows, run, d, n);
    }
    if n, x :| d < n < |run| && TakesLast(c.rows, run, d, n, x) {
      MidwayAt(c, run, n, titles);
      TakenIsDisplaced(c.rows, SeedAll(c, run[..n], titles).rows, run, d, n, x);
      forall m | n < m < |run|
        ensures !Ships(run[m], k, id)
      {
        assert run[d].kind == run[m].kind ==> run[d].seedId != run[m].seedId;
      }
      assert LostAt(c, run, titles, k, id, n);
    }
  }

  /** With unique ids and titles among the seeds, a type equals the seed files after seed and prune
      if and only if no row at the start is the last verified one with the id of one seed of the
      type and is taken over by a later one: it is the first with that one's title, and no row has
      that one's id any more. */
  lemma MatchesManifestIff(c: Stores, seeds: seq<Seed>, cs: seq<SeedCollection>, kinds: set<Kind>, k: Kind)
    requires Fresh(c) && k in kinds && Distinct(SeedOrder(seeds, kinds, SEED_ORDER))
    ensures VerifiedIds(AfterPrune(Seeded(c, seeds, cs, kinds), seeds, kinds).rows, k) == LiveIds(seeds, k)
       <==> NoLastTaken(c.rows, SeedOrder(seeds, kinds, SEED_ORDER), k)
  {
    hide Lost, VerifiedIds, Distinct, Takes, Holds;
    var run, start := SeedOrder(seeds, kinds, SEED_ORDER), WithCollections(c, cs);
    CollectionsExist(c, cs);
    CatalogIsManifestIff(c, seeds, cs, kinds, k);
    forall d: nat | d < |run| && run[d].kind == k && run[d].seedId.Some?
      ensures run[d].seedId.value in LiveIds(seeds, k)
      ensures Lost(start, run, Titles(cs), k, run[d].seedId.value)
         <==> exists n, x :: d < n < |run| && TakesLast(c.rows, run, d, n, x)
    {
      RunSeeds(seeds, kinds, run[d]);
      LostIff(start, run, Titles(cs), d);
    }
    forall id | id in LiveIds(seeds, k)
      ensures exists d: nat :: d < |run| && run[d].kind == k && run[d].seedId == Some(id)
    {
      var f :| f in seeds && f.kind == k && f.seedId.Some? && f.seedId.value == id;
      RunSeeds(seeds, kinds, f);
      var d :| 0 <= d < |run| && run[d] == f;
    }
  }

  // ---------------------------------------------------------------------------
  // Rows for which no seed is lost
  // ---------------------------------------------------------------------------

  /** What a seed finds by its id, if a row still carries that. */
  lemma FindsSome(rows: map<Id, Row>, run: seq<Seed>, d: nat) returns (y: Id)
    requires d < |run| && !Free(rows, run, d)
    ensures Finds(rows, run, d, y)
  {
    var found := set x | x in rows && Carries(rows, x, run[d]) && !TakenBefore(rows, run, d, x);
    var x :| Carries(rows, x, run[d]) && !TakenBefore(rows, run, d, x);
    assert x in found;
    y := Least(found);
  }

  /** A search set that a seed has found by its id is taken over by no later one. */
  lemma TakesUnfound(rows: map<Id, Row>, run: seq<Seed>, g: nat, y: Id)
    requires g < |run| && Takes(rows, run, g, y) && run[g].kind.SearchSet?
    ensures Free(rows, run, g) && !FoundBefore(rows, run, g, y)
  {
    assert Offered(rows, run, g, y);
  }

  lemma FoundIsKept(rows: map<Id, Row>, run: seq<Seed>, d: nat, n: nat, y: Id)
    requires d < n <= |run| && run[d].kind.SearchSet? && Finds(rows, run, d, y)
    ensures FoundBefore(rows, run, n, y) && Holds(rows, run, n, run[d], y)
  {
    forall g: nat | g < n && Takes(rows, run, g, y) {
      TakesUnfound(rows, run, g, y);
    }
  }

  lemma SearchSetsKeepOne(rows: map<Id, Row>, run: seq<Seed>, d: nat, n: nat, x: Id)
    requires Distinct(run) && d < n < |run| && run[d].kind.SearchSet?
    ensures !TakesLast(rows, run, d, n, x)
  {
    hide Distinct;
    if TakesLast(rows, run, d, n, x) {
      NotTakenYet(rows, run, d, n, x);
      TakesUnfound(rows, run, n, x);
      var y := FindsSome(rows, run, d);
      FoundIsKept(rows, run, d, n, y);
    }
  }

  /** Search sets equal the seed files whenever ids and titles are unique among these: a refresh
      rewrites the title, so that no other seed finds the row by it. */
  lemma SearchSetsMatchManifest(c: Stores, seeds: seq<Seed>, cs: seq<SeedCollection>, kinds: set<Kind>)
    requires Fresh(c) && Distinct(SeedOrder(seeds, kinds, SEED_ORDER)) && SearchSet in kinds
    ensures VerifiedIds(AfterPrune(Seeded(c, seeds, cs, kinds), seeds, kinds).rows, SearchSet) == LiveIds(seeds, SearchSet)
  {
    var run := SeedOrder(seeds, kinds, SEED_ORDER);
    MatchesManifestIff(c, seeds, cs, kinds, SearchSet);
    forall d: nat, n: nat, x | d < n < |run| && run[d].kind.SearchSet?
      ensures !TakesLast(c.rows, run, d, n, x)
    {
      SearchSetsKeepOne(c.rows, run, d, n, x);
    }
  }

  /** Every type does where no seed's title sits on a knowledge base that another one has stamped. */
  lemma CatalogIsManifest(c: Stores, seeds: seq<Seed>, cs: seq<SeedCollection>, kinds: set<Kind>, k: Kind)
    requires Settled(c, SeedOrder(seeds, kinds, SEED_ORDER)) && k in kinds
    ensures VerifiedIds(AfterPrune(Seeded(c, seeds, cs, kinds), seeds, kinds).rows, k) == LiveIds(seeds, k)
  {
    var run := SeedOrder(seeds, kinds, SEED_ORDER);
    MatchesManifestIff(c, seeds, cs, kinds, k);
    forall d: nat, n: nat, x | d < n < |run| && run[d].kind == k
      ensures !TakesLast(c.rows, run, d, n, x)
    {
      if run[d].kind.SearchSet? {
        SearchSetsKeepOne(c.rows, run, d, n, x);
      } else if TakesLast(c.rows, run, d, n, x) {
        NotFromClear(c.rows, run, d, n, x);
      }
    }
  }

  /** A witness that a row at the start with the later seed's id does not save the earlier one:
      of three seeds the second takes the row of the third, which then takes that of the first. */
  lemma ChainLosesASeed(rows: map<Id, Row>, run: seq<Seed>)
    requires rows == map[Id(0) := Row(KnowledgeBase, "A", true, Some("b"), true),
                         Id(1) := Row(KnowledgeBase, "B", true, Some("c"), true)]
    requires run == [Seed(KnowledgeBase, Some("c"), "C", "C", []), Seed(KnowledgeBase, Some("a"), "A", "A", []),
                     Seed(KnowledgeBase, Some("b"), "B", "B", [])]
    ensures Distinct(run) && TakesLast(rows, run, 0, 2, Id(1))
  {
    assert Takes(rows, run, 1, Id(0));
    assert TakenBefore(rows, run, 2, Id(0));
    assert Free(rows, run, 2);
  }
}
