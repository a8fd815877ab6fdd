/** The rows that no seed file speaks of, over a whole upgrade of `seed_catalog.py`. */
module CatalogAside {
  import opened Wrappers
  import opened Ids
  import opened Catalog
  import opened CatalogFacts

  /** A row without a seed id that no seed file takes over by its title: workflows never are, and the
      others only when they are verified. */
  ghost predicate Aside(r: Row, seeds: seq<Seed>) {
    && r.seedId == None
    && (r.kind.Workflow? || !r.verified
        || forall e :: e in seeds && e.kind == r.kind && e.seedId.Some? ==> e.title != r.title)
  }

  lemma AsItWasAtOnce(c: Stores, i: Id)
    requires i in c.rows
    ensures AsItWas(c, c, i)
  {
  }

  lemma OthersListed(c: Stores, item: Item, i: Id)
    requires Fresh(c) && i in c.rows && i != item.id
    ensures AsItWas(c, WithLibItem(c, item), i)
  {
    var mine := Item(c.rows[i].kind, i);
    Listed(c, item);
    assert mine != item;
    assert FirstOf(LibItemsOf(c, item)).Some? ==> FirstOf(LibItemsOf(c, item)).value in LibItemsOf(c, item);
  }

  lemma OthersAttached(c: Stores, item: Item, e: Seed, titles: map<string, string>, i: Id)
    requires Fresh(c) && i in c.rows && i != item.id
    ensures AsItWas(c, Attached(c, item, e, titles), i)
  {
    hide WithLibItem, WithMembers;
    OthersListed(c, item, i);
    Listed(c, item);
    MembersAdded(WithLibItem(c, item).cols, e.slugs, titles, item.id);
  }

  lemma NotTheTarget(c: Stores, e: Seed, i: Id)
    requires Fresh(c) && e.seedId.Some? && i in c.rows && Aside(c.rows[i], [e])
    ensures i != SeedTarget(c, e)
  {
    assert e in [e];
    assert i !in Stamped(c.rows, e.kind, e.seedId.value);
    assert ByTitleToo(e.kind) ==> i !in Titled(c.rows, e.kind, e.title);
  }

  lemma SeedLeaves(c: Stores, e: Seed, titles: map<string, string>, i: Id)
    requires Fresh(c) && i in c.rows && Aside(c.rows[i], [e])
    ensures AsItWas(c, SeedOne(c, e, titles), i) && Fresh(SeedOne(c, e, titles))
  {
    hide Fresh, SeededRows, SeedTarget, Attached, Aside, LibItemsOf;
    FreshAfter(c, e, titles);
    if e.seedId.Some? {
      var mid := SeededRows(c, e);
      RowSeeded(c, e);
      NotTheTarget(c, e, i);
      OthersAttached(mid, Item(e.kind, SeedTarget(c, e)), e, titles, i);
      RowsOnly(c, mid, i);
      AsItWasTwice(c, mid, SeedOne(c, e, titles), i);
    } else {
      AsItWasAtOnce(c, i);
    }
  }

  lemma RowsOnly(c: Stores, mid: Stores, i: Id)
    requires i in c.rows && i in mid.rows && mid.rows[i] == c.rows[i] && mid.(rows := c.rows, next := c.next) == c
    ensures AsItWas(c, mid, i)
  {
  }

  lemma {:induction false} SeedAllLeaves(c: Stores, run: seq<Seed>, titles: map<string, string>, i: Id)
    requires Fresh(c) && i in c.rows && forall e :: e in run ==> Aside(c.rows[i], [e])
    ensures AsItWas(c, SeedAll(c, run, titles), i) && Fresh(SeedAll(c, run, titles))
  {
    hide Fresh, Aside, AsItWas;
    if run == [] {
      AsItWasAtOnce(c, i);
    } else {
      var front, last := run[..|run| - 1], run[|run| - 1];
      var mid := SeedAll(c, front, titles);
      assert run == front + [last];
      SeedAllLeaves(c, front, titles, i);
      SameRow(c, mid, i);
      SeedLeaves(mid, last, titles, i);
      AsItWasTwice(c, mid, SeedAll(c, run, titles), i);
    }
  }

  lemma SameRow(c: Stores, after: Stores, i: Id)
    requires i in c.rows && AsItWas(c, after, i)
    ensures i in after.rows && after.rows[i] == c.rows[i]
  {
  }

  lemma {:induction false} CollectionsLeave(c: Stores, cs: seq<SeedCollection>, i: Id)
    requires Fresh(c) && i in c.rows
    ensures AsItWas(c, WithCollections(c, cs), i) && Fresh(WithCollections(c, cs))
    ensures WithCollections(c, cs).rows == c.rows
  {
    if cs != [] {
      CollectionsLeave(c, cs[..|cs| - 1], i);
    }
  }

  lemma AsideEach(r: Row, seeds: seq<Seed>, e: Seed)
    requires Aside(r, seeds) && e in seeds
    ensures Aside(r, [e])
  {
  }

  lemma SeedingLeaves(c: Stores, seeds: seq<Seed>, cs: seq<SeedCollection>, kinds: set<Kind>, i: Id)
    requires Fresh(c) && i in c.rows && Aside(c.rows[i], seeds)
    ensures AsItWas(c, Seeded(c, seeds, cs, kinds), i)
  {
    hide Aside, AsItWas, Fresh, SeedAll, WithCollections;
    var run, start := SeedOrder(seeds, kinds, SEED_ORDER), WithCollections(c, cs);
    CollectionsLeave(c, cs, i);
    forall e | e in run
      ensures Aside(c.rows[i], [e])
    {
      OrderHas(seeds, kinds, SEED_ORDER, e);
      AsideEach(c.rows[i], seeds, e);
    }
    SeedAllLeaves(start, run, Titles(cs), i);
    AsItWasTwice(c, start, Seeded(c, seeds, cs, kinds), i);
  }

  /** Such a row is retired if it goes, and else it is as it was, with all that belongs to it. */
  ghost predicate AsideByFields(c: Stores, final: Stores, seeds: seq<Seed>, kinds: set<Kind>) {
    forall i :: i in c.rows && Aside(c.rows[i], seeds) ==>
      if Goes(c.rows[i], seeds, kinds) then Retired(final, i) else AsItWas(c, final, i)
  }

  lemma UpgradeLeaves(c: Stores, final: Stores, seeds: seq<Seed>, cs: seq<SeedCollection>, kinds: set<Kind>)
    requires Fresh(c) && PrunedByFields(Seeded(c, seeds, cs, kinds), final, seeds, kinds)
    ensures AsideByFields(c, final, seeds, kinds)
  {
    hide Aside, Goes, Retired, AsItWas, Fresh, Seeded;
    var mid := Seeded(c, seeds, cs, kinds);
    forall i | i in c.rows && Aside(c.rows[i], seeds)
      ensures if Goes(c.rows[i], seeds, kinds) then Retired(final, i) else AsItWas(c, final, i)
    {
      SeedingLeaves(c, seeds, cs, kinds, i);
      SameRow(c, mid, i);
      if !Goes(c.rows[i], seeds, kinds) {
        AsItWasTwice(c, mid, final, i);
      }
    }
  }
}
