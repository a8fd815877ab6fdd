/** When exactly seeding and pruning leave the catalog equal to the seed files. */
module CatalogExact {
  import opened Wrappers
  import opened Ids
  import opened Catalog
  import opened CatalogFacts

  predicate Ships(f: Seed, k: Kind, id: string) {
    f.kind == k && f.seedId == Some(id)
  }

  function VerifiedStamped(rows: map<Id, Row>, k: Kind, id: string): set<Id> {
    set i | i in rows && rows[i].kind == k && rows[i].verified && rows[i].seedId == Some(id)
  }

  /** The seed file is found by its title only, and the row found is the last verified one
      that carries the id of another seed file. */
  predicate Displaces(rows: map<Id, Row>, f: Seed, k: Kind, id: string) {
    && f.kind == k && ByTitleToo(k) && f.seedId.Some? && f.seedId.value != id
    && Stamped(rows, k, f.seedId.value) == {}
    && Titled(rows, k, f.title) != {}
    && VerifiedStamped(rows, k, id) == {Least(Titled(rows, k, f.title))}
  }

  lemma VerifiedIdsAre(rows: map<Id, Row>, k: Kind, id: string)
    ensures id in VerifiedIds(rows, k) <==> VerifiedStamped(rows, k, id) != {}
  {
    if id in VerifiedIds(rows, k) {
      var i :| i in rows && rows[i].kind == k && rows[i].verified && rows[i].seedId.Some? && rows[i].seedId.value == id;
      assert i in VerifiedStamped(rows, k, id);
    }
    if VerifiedStamped(rows, k, id) != {} {
      var i :| i in VerifiedStamped(rows, k, id);
      assert rows[i].seedId.value == id;
    }
  }

  /** Another id's verified rows lose at most the row that the seed file takes over. */
  lemma OtherStamps(c: Stores, f: Seed, k: Kind, id: string)
    requires Fresh(c) && f.seedId.Some? && !Ships(f, k, id)
    ensures VerifiedStamped(SeededRows(c, f).rows, k, id) == VerifiedStamped(c.rows, k, id) - {SeedTarget(c, f)}
  {
    RowSeeded(c, f);
  }

  lemma TargetDisplaces(c: Stores, f: Seed, k: Kind, id: string)
    requires Fresh(c) && f.seedId.Some? && !Ships(f, k, id)
    ensures Displaces(c.rows, f, k, id) <==> VerifiedStamped(c.rows, k, id) == {SeedTarget(c, f)}
  {
  }

  /** After one seed file, an id is on a verified row if the file ships it, or if it was and
      the file does not take over its last row. */
  lemma IdAfterOne(c: Stores, f: Seed, titles: map<string, string>, k: Kind, id: string)
    requires Fresh(c)
    ensures id in VerifiedIds(SeedOne(c, f, titles).rows, k) <==>
      Ships(f, k, id) || (id in VerifiedIds(c.rows, k) && !Displaces(c.rows, f, k, id))
  {
    FreshAfter(c, f, titles);
    VerifiedIdsAre(c.rows, k, id);
    VerifiedIdsAre(SeedOne(c, f, titles).rows, k, id);
    if Ships(f, k, id) {
      RowSeeded(c, f);
      assert SeedTarget(c, f) in VerifiedStamped(SeededRows(c, f).rows, k, id);
    } else if f.seedId.Some? {
      OtherStamps(c, f, k, id);
      TargetDisplaces(c, f, k, id);
    }
  }

  /** The seed file at `n` displaces the id, and no later one ships it again. */
  ghost predicate LostAt(c: Stores, run: seq<Seed>, titles: map<string, string>, k: Kind, id: string, n: nat)
    requires n < |run|
  {
    && Displaces(SeedAll(c, run[..n], titles).rows, run[n], k, id)
    && forall m :: n < m < |run| ==> !Ships(run[m], k, id)
  }

  ghost predicate Lost(c: Stores, run: seq<Seed>, titles: map<string, string>, k: Kind, id: string) {
    exists n :: 0 <= n < |run| && LostAt(c, run, titles, k, id, n)
  }

  lemma LostSnoc(c: Stores, front: seq<Seed>, last: Seed, titles: map<string, string>, k: Kind, id: string)
    ensures Lost(c, front + [last], titles, k, id) <==>
      Displaces(SeedAll(c, front, titles).rows, last, k, id) || (Lost(c, front, titles, k, id) && !Ships(last, k, id))
  {
    hide Displaces, Ships, SeedAll;
    var run := front + [last];
    assert run[..|front|] == front;
    forall n | 0 <= n < |front|
      ensures LostAt(c, run, titles, k, id, n) <==> LostAt(c, front, titles, k, id, n) && !Ships(last, k, id)
    {
      assert run[..n] == front[..n] && run[n] == front[n] && run[|front|] == last;
      assert forall m :: n < m < |front| ==> run[m] == front[m];
    }
    if Displaces(SeedAll(c, front, titles).rows, last, k, id) {
      assert LostAt(c, run, titles, k, id, |front|);
    }
    if Lost(c, front, titles, k, id) && !Ships(last, k, id) {
      var n :| 0 <= n < |front| && LostAt(c, front, titles, k, id, n);
      assert LostAt(c, run, titles, k, id, n);
    }
  }

  /** A shipped id is on a verified row after seeding, unless it was lost. */
  lemma {:induction false} SeededUnlessLost(c: Stores, run: seq<Seed>, titles: map<string, string>, k: Kind, id: string)
    requires Fresh(c)
    ensures Fresh(SeedAll(c, run, titles))
    ensures (exists f :: f in run && Ships(f, k, id)) ==>
      (id in VerifiedIds(SeedAll(c, run, titles).rows, k) <==> !Lost(c, run, titles, k, id))
  {
    if run != [] {
      var front, last := run[..|run| - 1], run[|run| - 1];
      assert run == front + [last];
      SeededUnlessLost(c, front, titles, k, id);
      var before := SeedAll(c, front, titles);
      FreshAfter(before, last, titles);
      IdAfterOne(before, last, titles, k, id);
      LostSnoc(c, front, last, titles, k, id);
    }
  }

  lemma ShippedStampsStay(c: Stores, seeds: seq<Seed>, kinds: set<Kind>, k: Kind, id: string)
    requires id in LiveIds(seeds, k)
    ensures VerifiedStamped(AfterPrune(c, seeds, kinds).rows, k, id) == VerifiedStamped(c.rows, k, id)
  {
    var final := AfterPrune(c, seeds, kinds);
    PrunedRows(c.rows, seeds, kinds);
    forall i | i in c.rows
      ensures i in VerifiedStamped(final.rows, k, id) <==> i in VerifiedStamped(c.rows, k, id)
    {
      PruneIsExact(c, seeds, kinds, i);
    }
    assert final.rows.Keys == c.rows.Keys;
  }

  /** A prune leaves the shipped ids on the verified rows of a selected type, and no others. */
  lemma LiveIdsStay(c: Stores, seeds: seq<Seed>, kinds: set<Kind>, k: Kind)
    requires k in kinds
    ensures VerifiedIds(AfterPrune(c, seeds, kinds).rows, k) == VerifiedIds(c.rows, k) * LiveIds(seeds, k)
  {
    var final := AfterPrune(c, seeds, kinds);
    PrunedIdsAreLive(c, seeds, kinds, k);
    forall id | id in LiveIds(seeds, k)
      ensures id in VerifiedIds(final.rows, k) <==> id in VerifiedIds(c.rows, k)
    {
      VerifiedIdsAre(c.rows, k, id);
      VerifiedIdsAre(final.rows, k, id);
      ShippedStampsStay(c, seeds, kinds, k, id);
    }
  }

  /** No seed file of a type, when its turn comes, is found by title only on the last verified
      row of another one that the run does not seed again. */
  ghost predicate NoneLost(c: Stores, seeds: seq<Seed>, cs: seq<SeedCollection>, kinds: set<Kind>, k: Kind) {
    forall id :: id in LiveIds(seeds, k) ==>
      !Lost(WithCollections(c, cs), SeedOrder(seeds, kinds, SEED_ORDER), Titles(cs), k, id)
  }

  /** The catalog equals the seed files after seed and prune if and only if no id is lost. */
  lemma CatalogIsManifestIff(c: Stores, seeds: seq<Seed>, cs: seq<SeedCollection>, kinds: set<Kind>, k: Kind)
    requires Fresh(c) && k in kinds
    ensures VerifiedIds(AfterPrune(Seeded(c, seeds, cs, kinds), seeds, kinds).rows, k) == LiveIds(seeds, k)
       <==> NoneLost(c, seeds, cs, kinds, k)
  {
    var run := SeedOrder(seeds, kinds, SEED_ORDER);
    var start := WithCollections(c, cs);
    var mid := Seeded(c, seeds, cs, kinds);
    CollectionsExist(c, cs);
    LiveIdsStay(mid, seeds, kinds, k);
    forall id | id in LiveIds(seeds, k)
      ensures id in VerifiedIds(mid.rows, k) <==> !Lost(start, run, Titles(cs), k, id)
    {
      var f :| f in seeds && f.kind == k && f.seedId.Some? && f.seedId.value == id;
      RunSeeds(seeds, kinds, f);
      assert Ships(f, k, id);
      SeededUnlessLost(start, run, Titles(cs), k, id);
    }
  }

  /** Workflows have no title fallback, so theirs always does. */
  lemma WorkflowsMatchManifest(c: Stores, seeds: seq<Seed>, cs: seq<SeedCollection>, kinds: set<Kind>)
    requires Fresh(c) && Workflow in kinds
    ensures VerifiedIds(AfterPrune(Seeded(c, seeds, cs, kinds), seeds, kinds).rows, Workflow) == LiveIds(seeds, Workflow)
  {
    CatalogIsManifestIff(c, seeds, cs, kinds, Workflow);
  }
}
