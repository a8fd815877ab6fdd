/** What seeding and pruning the catalog guarantee together. */
module CatalogFacts {
  import opened Wrappers
  import opened Ids
  import opened Catalog

  // ---------------------------------------------------------------------------
  // One seed
  // ---------------------------------------------------------------------------

  /** The item's library item, the first if there are several, is in the verified library. */
  predicate IsListed(c: Stores, item: Item) {
    FirstOf(LibItemsOf(c, item)).Some? && FirstOf(LibItemsOf(c, item)).value in c.lib
  }

  /** A row's item has the seed's display name, is listed in the verified library, and is in
      every collection the seed names. */
  ghost predicate IsAttached(c: Stores, item: Item, e: Seed, titles: map<string, string>) {
    && item in c.meta && c.meta[item] == e.display
    && IsListed(c, item)
    && (forall slug :: slug in e.slugs && slug in titles && titles[slug] in c.cols ==>
          item.id in c.cols[titles[slug]].items)
  }

  /** Nothing in `a` is missing from `b`. */
  ghost predicate Grows(a: map<string, Collection>, b: map<string, Collection>) {
    a.Keys == b.Keys && forall t, i :: t in a && i in a[t].items ==> i in b[t].items
  }

  lemma {:induction false} MembersAdded(cols: map<string, Collection>, slugs: seq<string>, titles: map<string, string>, i: Id)
    ensures Grows(cols, WithMembers(cols, slugs, titles, i))
    ensures forall slug :: slug in slugs && slug in titles && titles[slug] in cols ==>
      i in WithMembers(cols, slugs, titles, i)[titles[slug]].items
    ensures forall t, j :: t in cols && j in WithMembers(cols, slugs, titles, i)[t].items ==> j in cols[t].items || j == i
  {
    if slugs != [] {
      MembersAdded(cols, slugs[..|slugs| - 1], titles, i);
      assert slugs == slugs[..|slugs| - 1] + [slugs[|slugs| - 1]];
    }
  }

  lemma Listed(c: Stores, item: Item)
    requires Fresh(c)
    ensures var c' := WithLibItem(c, item);
      && IsListed(c', item)
      && (forall other :: other != item ==> LibItemsOf(c', other) == LibItemsOf(c, other))
      && (forall li :: li in c.libItems ==> li in c'.libItems && c'.libItems[li] == c.libItems[li])
      && (forall li :: li in c.lib ==> li in c'.lib)
      && c'.rows == c.rows && c'.meta == c.meta && c'.cols == c.cols && c.next <= c'.next && Fresh(c')
  {
    var c' := WithLibItem(c, item);
    var existing := FirstOf(LibItemsOf(c, item));
    if existing.Some? {
      assert LibItemsOf(c', item) == LibItemsOf(c, item);
    } else {
      assert LibItemsOf(c', item) == {Id(c.next)};
    }
  }

  lemma RowSeeded(c: Stores, e: Seed)
    requires Fresh(c) && e.seedId.Some?
    ensures var c' := SeededRows(c, e);
      var i := SeedTarget(c, e);
      && i in c'.rows && c'.rows[i].kind == e.kind && c'.rows[i].verified && c'.rows[i].seedId == e.seedId
      && (forall j :: j != i ==> (j in c'.rows <==> j in c.rows))
      && (forall j :: j != i && j in c.rows ==> c'.rows[j] == c.rows[j])
      && c'.(rows := c.rows, next := c.next) == c && Fresh(c')
  {
  }

  lemma OneAttached(c: Stores, item: Item, e: Seed, titles: map<string, string>)
    requires Fresh(c)
    ensures var c' := Attached(c, item, e, titles);
      && IsAttached(c', item, e, titles) && c'.rows == c.rows && Fresh(c') && c'.cols.Keys == c.cols.Keys
  {
    Listed(c, item);
    MembersAdded(c.cols, e.slugs, titles, item.id);
  }

  lemma FreshAfter(c: Stores, f: Seed, titles: map<string, string>)
    requires Fresh(c)
    ensures Fresh(SeedOne(c, f, titles))
    ensures SeedOne(c, f, titles).rows == if f.seedId.Some? then SeededRows(c, f).rows else c.rows
  {
    if f.seedId.Some? {
      RowSeeded(c, f);
      OneAttached(SeededRows(c, f), Item(f.kind, SeedTarget(c, f)), f, titles);
    }
  }

  // ---------------------------------------------------------------------------
  // Ids and titles among the seeds
  // ---------------------------------------------------------------------------

  /** Among the seeds, ids are unique, and titles where they count. */
  ghost predicate Distinct(seeds: seq<Seed>) {
    forall j, k :: 0 <= j < k < |seeds| && seeds[j].seedId.Some? && seeds[j].kind == seeds[k].kind ==>
      seeds[j].seedId != seeds[k].seedId
      && (seeds[k].seedId.Some? && ByTitleToo(seeds[j].kind) ==> seeds[j].title != seeds[k].title)
  }

  /** The knowledge base carries one seed's id and another one's title. */
  predicate Crossed(r: Row, e: Seed, f: Seed) {
    && r.kind.KnowledgeBase? && e.kind == r.kind && f.kind == r.kind && e.seedId.Some? && f.seedId.Some?
    && r.seedId == e.seedId && r.title == f.title && e.seedId != f.seedId
  }

  /** No seed's title sits on a knowledge base stamped by another seed. */
  ghost predicate Clear(rows: map<Id, Row>, seeds: seq<Seed>) {
    forall i, e, f :: i in rows && e in seeds && f in seeds ==> !Crossed(rows[i], e, f)
  }

  /** Row `i` is the seed's: stamped, verified and attached, a search set also titled. */
  ghost predicate SeededAs(c: Stores, i: Id, e: Seed, titles: map<string, string>) {
    && i in c.rows && c.rows[i].kind == e.kind && c.rows[i].verified && c.rows[i].seedId == e.seedId
    && (e.kind.SearchSet? ==> c.rows[i].title == e.title)
    && IsAttached(c, Item(e.kind, i), e, titles)
  }

  // ---------------------------------------------------------------------------
  // Retiring
  // ---------------------------------------------------------------------------

  /** Nothing of the catalog refers to the row any more, and it is not verified. */
  ghost predicate Retired(c: Stores, i: Id) {
    && i in c.rows && !c.rows[i].verified
    && Item(c.rows[i].kind, i) !in c.meta
    && (forall t :: t in c.cols ==> i !in c.cols[t].items)
    && VerifiedLibItemsOf(c, Item(c.rows[i].kind, i)) == {}
  }

  lemma {:induction false} DroppedIs(s: seq<Id>, i: Id, j: Id)
    ensures j in Dropped(s, i) <==> j in s && j != i
  {
    if s != [] {
      DroppedIs(s[1..], i, j);
      assert s == [s[0]] + s[1..];
    }
  }

  lemma {:induction false} RemoveFirstKeeps(s: seq<Id>, i: Id, j: Id)
    requires j != i
    ensures j in RemoveFirst(s, i) <==> j in s
  {
    if s != [] {
      RemoveFirstKeeps(s[1..], i, j);
      assert s == [s[0]] + s[1..];
    }
  }

  lemma {:induction false} RemoveEachKeeps(s: seq<Id>, gone: seq<Id>, j: Id)
    requires j !in gone
    ensures j in RemoveEach(s, gone) <==> j in s
  {
    if gone != [] {
      RemoveEachKeeps(s, gone[..|gone| - 1], j);
      RemoveFirstKeeps(RemoveEach(s, gone[..|gone| - 1]), gone[|gone| - 1], j);
    }
  }

  lemma RetireRetires(c: Stores, i: Id)
    requires i in c.rows
    ensures Retired(Retire(c, i), i)
  {
    forall t | t in c.cols {
      DroppedIs(c.cols[t].items, i, i);
    }
  }

  lemma RetireKeepsOthers(c: Stores, i: Id, j: Id)
    requires i in c.rows && j in c.rows && i != j
    ensures Retire(c, i).rows[j] == c.rows[j]
    ensures Retired(c, j) ==> Retired(Retire(c, i), j)
  {
    forall t | t in c.cols {
      DroppedIs(c.cols[t].items, i, j);
    }
  }

  lemma StillAttached(c: Stores, i: Id, item: Item, e: Seed, titles: map<string, string>)
    requires i in c.rows && item.id != i && IsAttached(c, item, e, titles)
    ensures IsAttached(Retire(c, i), item, e, titles)
  {
    var gone := VerifiedLibItemsOf(c, Item(c.rows[i].kind, i));
    RemoveEachKeeps(c.lib, Sorted(gone), FirstOf(LibItemsOf(c, item)).value);
    assert LibItemsOf(Retire(c, i), item) == LibItemsOf(c, item);
    forall t | t in c.cols {
      DroppedIs(c.cols[t].items, i, item.id);
    }
  }

  /** Retiring a list of rows retires exactly those, and leaves every other row alone. */
  lemma {:induction false} AllRetired(c: Stores, ids: seq<Id>, j: Id)
    requires (forall i :: i in ids ==> i in c.rows) && j in c.rows
    ensures j in ids ==> Retired(RetireAll(c, ids), j)
    ensures j !in ids ==> RetireAll(c, ids).rows[j] == c.rows[j]
    ensures RetireAll(c, ids).rows[j] == c.rows[j].(verified := RetireAll(c, ids).rows[j].verified)
  {
    if ids != [] {
      var front, last := ids[..|ids| - 1], ids[|ids| - 1];
      assert ids == front + [last];
      AllRetired(c, front, j);
      var before := RetireAll(c, front);
      RetireRetires(before, last);
      if last != j {
        RetireKeepsOthers(before, last, j);
      }
    }
  }

  lemma {:induction false} SeededSurvives(c: Stores, ids: seq<Id>, i: Id, e: Seed, titles: map<string, string>)
    requires (forall j :: j in ids ==> j in c.rows) && i !in ids && SeededAs(c, i, e, titles)
    ensures SeededAs(RetireAll(c, ids), i, e, titles)
  {
    if ids != [] {
      var front, last := ids[..|ids| - 1], ids[|ids| - 1];
      assert ids == front + [last];
      SeededSurvives(c, front, i, e, titles);
      StillAttached(RetireAll(c, front), last, Item(e.kind, i), e, titles);
    }
  }

  lemma {:induction false} StaleListed(rows: map<Id, Row>, seeds: seq<Seed>, kinds: set<Kind>, order: seq<Kind>, i: Id)
    ensures i in StaleList(rows, seeds, kinds, order) <==>
      i in rows && rows[i].kind in kinds && rows[i].kind in order && Stale(seeds, rows[i])
  {
    if order != [] {
      StaleListed(rows, seeds, kinds, order[..|order| - 1], i);
      assert order == order[..|order| - 1] + [order[|order| - 1]];
    }
  }

  lemma EveryKind(order: seq<Kind>)
    requires |order| == 3 && order[0] != order[1] && order[0] != order[2] && order[1] != order[2]
    ensures forall k: Kind :: k in order
  {
    forall k: Kind
      ensures k in order
    {
      assert k == order[0] || k == order[1] || k == order[2];
    }
  }

  /** What a prune of `kinds` retires: the stale verified rows of those kinds. */
  lemma PruneRetires(rows: map<Id, Row>, seeds: seq<Seed>, kinds: set<Kind>, i: Id)
    ensures i in StaleList(rows, seeds, kinds, PRUNE_ORDER) <==>
      i in rows && rows[i].kind in kinds && Stale(seeds, rows[i])
  {
    StaleListed(rows, seeds, kinds, PRUNE_ORDER, i);
    EveryKind(PRUNE_ORDER);
  }

  // ---------------------------------------------------------------------------
  // Seed, then prune
  // ---------------------------------------------------------------------------

  lemma {:induction false} OfKindHas(seeds: seq<Seed>, k: Kind, e: Seed)
    ensures e in OfKind(seeds, k) <==> e in seeds && e.kind == k
  {
    if seeds != [] {
      OfKindHas(seeds[..|seeds| - 1], k, e);
      assert seeds == seeds[..|seeds| - 1] + [seeds[|seeds| - 1]];
    }
  }

  lemma {:induction false} OrderHas(seeds: seq<Seed>, kinds: set<Kind>, order: seq<Kind>, e: Seed)
    ensures e in SeedOrder(seeds, kinds, order) <==> e in seeds && e.kind in kinds && e.kind in order
  {
    if order != [] {
      OrderHas(seeds, kinds, order[..|order| - 1], e);
      OfKindHas(seeds, order[|order| - 1], e);
      assert order == order[..|order| - 1] + [order[|order| - 1]];
    }
  }

  /** The seed files that a run seeds are those of the selected types. */
  lemma RunSeeds(seeds: seq<Seed>, kinds: set<Kind>, e: Seed)
    ensures e in SeedOrder(seeds, kinds, SEED_ORDER) <==> e in seeds && e.kind in kinds
  {
    OrderHas(seeds, kinds, SEED_ORDER, e);
    EveryKind(SEED_ORDER);
  }

  lemma {:induction false} CollectionsExist(c: Stores, cs: seq<SeedCollection>)
    ensures forall slug :: slug in Titles(cs) ==> Titles(cs)[slug] in WithCollections(c, cs).cols
    ensures WithCollections(c, cs).(cols := c.cols) == c
    ensures forall t, i :: t in c.cols && i in c.cols[t].items ==>
      t in WithCollections(c, cs).cols && i in WithCollections(c, cs).cols[t].items
  {
    if cs != [] {
      CollectionsExist(c, cs[..|cs| - 1]);
    }
  }

  /** A slug names the title of its last collection in the manifest. */
  lemma {:induction false} SlugNames(cs: seq<SeedCollection>, k: nat)
    requires k < |cs| && forall j :: k < j < |cs| ==> cs[j].slug != cs[k].slug
    ensures cs[k].slug in Titles(cs) && Titles(cs)[cs[k].slug] == cs[k].title
  {
    if k < |cs| - 1 {
      SlugNames(cs[..|cs| - 1], k);
    }
  }

  lemma {:induction false} SlugsAreNamed(cs: seq<SeedCollection>, slug: string)
    ensures slug in Titles(cs) <==> exists k :: 0 <= k < |cs| && cs[k].slug == slug
  {
    if cs != [] {
      SlugsAreNamed(cs[..|cs| - 1], slug);
    }
  }

  function VerifiedIds(rows: map<Id, Row>, k: Kind): set<string> {
    set i | i in rows && rows[i].kind == k && rows[i].verified && rows[i].seedId.Some? :: rows[i].seedId.value
  }

  /** What the hypotheses of the main results say: no two seeds share an id, or a title where
      titles count, and no seed's title sits on a knowledge base that another seed has stamped. */
  ghost predicate Settled(c: Stores, run: seq<Seed>) {
    Fresh(c) && Distinct(run) && Clear(c.rows, run)
  }

  function AfterPrune(c: Stores, seeds: seq<Seed>, kinds: set<Kind>): Stores
  {
    PrunedRows(c.rows, seeds, kinds);
    RetireAll(c, StaleList(c.rows, seeds, kinds, PRUNE_ORDER))
  }

  lemma PrunedRows(rows: map<Id, Row>, seeds: seq<Seed>, kinds: set<Kind>)
    ensures forall i :: i in StaleList(rows, seeds, kinds, PRUNE_ORDER) ==> i in rows
  {
    forall i {
      PruneRetires(rows, seeds, kinds, i);
    }
  }

  lemma LiveIsNotStale(c: Stores, seeds: seq<Seed>, kinds: set<Kind>, i: Id, e: Seed, titles: map<string, string>)
    requires SeededAs(c, i, e, titles) && e in seeds && e.seedId.Some?
    ensures i !in StaleList(c.rows, seeds, kinds, PRUNE_ORDER)
  {
    PruneRetires(c.rows, seeds, kinds, i);
    assert e.seedId.value in LiveIds(seeds, e.kind);
  }

  /** After a prune, the seed ids on verified rows of a pruned type are all shipped. */
  lemma PrunedIdsAreLive(c: Stores, seeds: seq<Seed>, kinds: set<Kind>, k: Kind)
    requires k in kinds
    ensures VerifiedIds(AfterPrune(c, seeds, kinds).rows, k) <= LiveIds(seeds, k)
  {
    var gone := StaleList(c.rows, seeds, kinds, PRUNE_ORDER);
    var final := AfterPrune(c, seeds, kinds);
    PrunedRows(c.rows, seeds, kinds);
    forall i | i in final.rows && final.rows[i].kind == k && final.rows[i].verified && final.rows[i].seedId.Some?
      ensures final.rows[i].seedId.value in LiveIds(seeds, k)
    {
      AllRetired(c, gone, i);
      PruneRetires(c.rows, seeds, kinds, i);
    }
  }

  /** A prune retires exactly the stale rows: each is unverified and referred to nowhere, its
      content kept; every other row is as it was. */
  lemma PruneIsExact(c: Stores, seeds: seq<Seed>, kinds: set<Kind>, i: Id)
    requires i in c.rows
    ensures var final := AfterPrune(c, seeds, kinds);
      && final.rows.Keys == c.rows.Keys
      && (if c.rows[i].kind in kinds && Stale(seeds, c.rows[i])
          then Retired(final, i) && final.rows[i] == c.rows[i].(verified := false)
          else final.rows[i] == c.rows[i])
  {
    PrunedRows(c.rows, seeds, kinds);
    AllRetired(c, StaleList(c.rows, seeds, kinds, PRUNE_ORDER), i);
    PruneRetires(c.rows, seeds, kinds, i);
  }

  // ---------------------------------------------------------------------------
  // A prune, told from the fields of the rows
  // ---------------------------------------------------------------------------

  /** The row, its metadata, its verified library items and its place in lists and collections are
      those before. */
  ghost predicate AsItWas(c: Stores, after: Stores, i: Id)
    requires i in c.rows
  {
    var item := Item(c.rows[i].kind, i);
    && i in after.rows && after.rows[i] == c.rows[i]
    && (item in after.meta <==> item in c.meta) && (item in c.meta ==> after.meta[item] == c.meta[item])
    && LibItemsOf(after, item) == LibItemsOf(c, item)
    && (forall li :: li in LibItemsOf(c, item) ==> after.libItems[li] == c.libItems[li] && (li in after.lib <==> li in c.lib))
    && (forall t :: t in c.cols ==> t in after.cols && (i in after.cols[t].items <==> i in c.cols[t].items))
  }

  lemma RetireLeaves(c: Stores, i: Id, j: Id)
    requires i in c.rows && j in c.rows && i != j
    ensures AsItWas(c, Retire(c, i), j)
  {
    var item, gone := Item(c.rows[j].kind, j), VerifiedLibItemsOf(c, Item(c.rows[i].kind, i));
    assert LibItemsOf(Retire(c, i), item) == LibItemsOf(c, item);
    forall li | li in LibItemsOf(c, item) {
      RemoveEachKeeps(c.lib, Sorted(gone), li);
    }
    forall t | t in c.cols {
      DroppedIs(c.cols[t].items, i, j);
    }
  }

  lemma AsItWasTwice(a: Stores, b: Stores, c: Stores, i: Id)
    requires i in a.rows && i in b.rows && AsItWas(a, b, i) && AsItWas(b, c, i)
    ensures AsItWas(a, c, i)
  {
  }

  lemma {:induction false} RetireAllLeaves(c: Stores, ids: seq<Id>, j: Id)
    requires (forall i :: i in ids ==> i in c.rows) && j in c.rows && j !in ids
    ensures AsItWas(c, RetireAll(c, ids), j)
  {
    if ids != [] {
      var front, last := ids[..|ids| - 1], ids[|ids| - 1];
      assert ids == front + [last];
      RetireAllLeaves(c, front, j);
      RetireLeaves(RetireAll(c, front), last, j);
      AsItWasTwice(c, RetireAll(c, front), RetireAll(c, ids), j);
    }
  }

  /** A verified row of a pruned type goes if it has an id that no seed file of the type ships, or
      none, and then only a knowledge base that the system made and whose title none has. */
  ghost predicate Goes(r: Row, seeds: seq<Seed>, kinds: set<Kind>) {
    && r.verified && r.kind in kinds
    && if r.seedId.Some? then forall e :: e in seeds && e.kind == r.kind ==> e.seedId != r.seedId
       else r.kind.KnowledgeBase? && r.bySystem
            && forall e :: e in seeds && e.kind.KnowledgeBase? ==> e.title == [] || e.title != r.title
  }

  lemma GoesIfStale(r: Row, seeds: seq<Seed>, kinds: set<Kind>)
    ensures Goes(r, seeds, kinds) <==> r.kind in kinds && Stale(seeds, r)
  {
    if r.seedId.Some? {
      assert r.seedId.value in LiveIds(seeds, r.kind) <==> exists e :: e in seeds && e.kind == r.kind && e.seedId == r.seedId;
    } else {
      assert r.title in LiveTitles(seeds, r.kind) <==>
        exists e :: e in seeds && e.kind == r.kind && e.title != [] && e.title == r.title;
    }
  }

  /** Exactly these rows are retired, and everything else is as it was. */
  ghost predicate PrunedByFields(c: Stores, after: Stores, seeds: seq<Seed>, kinds: set<Kind>) {
    && after.rows.Keys == c.rows.Keys
    && forall i :: i in c.rows ==>
         if Goes(c.rows[i], seeds, kinds) then Retired(after, i) && after.rows[i] == c.rows[i].(verified := false)
         else AsItWas(c, after, i)
  }

  lemma PruneByFields(c: Stores, seeds: seq<Seed>, kinds: set<Kind>)
    ensures PrunedByFields(c, AfterPrune(c, seeds, kinds), seeds, kinds)
    ensures forall i :: i in StaleList(c.rows, seeds, kinds, PRUNE_ORDER) <==> i in c.rows && Goes(c.rows[i], seeds, kinds)
  {
    hide Goes, Stale, Retired, AsItWas, RetireAll;
    var gone, final := StaleList(c.rows, seeds, kinds, PRUNE_ORDER), AfterPrune(c, seeds, kinds);
    PrunedRows(c.rows, seeds, kinds);
    forall i | i in c.rows
      ensures i in gone <==> Goes(c.rows[i], seeds, kinds)
      ensures i in final.rows
      ensures if i in gone then Retired(final, i) && final.rows[i] == c.rows[i].(verified := false) else AsItWas(c, final, i)
    {
      PruneRetires(c.rows, seeds, kinds, i);
      GoesIfStale(c.rows[i], seeds, kinds);
      PruneIsExact(c, seeds, kinds, i);
      if i !in gone {
        RetireAllLeaves(c, gone, i);
      }
    }
  }
}
