/** `seed_catalog.py` as it runs: stores changed in place, one document at a time. */
module CatalogStore {
  import opened Ids
  import opened Catalog
  import opened CatalogAside
  import opened CatalogFacts
  import opened CatalogExact
  import opened CatalogPreview
  import opened CatalogSeeded
  import opened CatalogTitles
  import opened CatalogTurns

  /** The entries a preview calls new. */
  function NewSeeds(rows: map<Id, Row>, run: seq<Seed>): seq<Seed> {
    if run == [] then [] else
    var last := run[|run| - 1];
    NewSeeds(rows, run[..|run| - 1]) + (if last.seedId.Some? && !Known(rows, last) then [last] else [])
  }

  /** Seed files with a seed id. */
  function Seedable(run: seq<Seed>): nat {
    if run == [] then 0 else Seedable(run[..|run| - 1]) + (if run[|run| - 1].seedId.Some? then 1 else 0)
  }

  function Stamping(run: seq<Seed>): set<nat> {
    set k: nat | k < |run| && run[k].seedId.Some?
  }

  lemma MoreStamping(run: seq<Seed>)
    requires run != []
    ensures Stamping(run) == Stamping(run[..|run| - 1]) + (if run[|run| - 1].seedId.Some? then {|run| - 1} else {})
  {
  }

  /** The number of the seeds that carry an id. */
  lemma {:induction false} SeedableAre(run: seq<Seed>)
    ensures Seedable(run) == |Stamping(run)|
  {
    if run == [] {
      assert Stamping(run) == {};
    } else {
      SeedableAre(run[..|run| - 1]);
      MoreStamping(run);
      assert |run| - 1 !in Stamping(run[..|run| - 1]);
    }
  }

  lemma {:induction false} SeedAllSum(c: Stores, a: seq<Seed>, b: seq<Seed>, titles: map<string, string>)
    ensures SeedAll(c, a + b, titles) == SeedAll(SeedAll(c, a, titles), b, titles)
    ensures Created(c, a + b, titles) == Created(c, a, titles) + Created(SeedAll(c, a, titles), b, titles)
    ensures Seedable(a + b) == Seedable(a) + Seedable(b)
  {
    if b == [] {
      assert a + b == a;
    } else {
      assert (a + b)[..|a + b| - 1] == a + b[..|b| - 1];
      SeedAllSum(c, a, b[..|b| - 1], titles);
    }
  }

  lemma {:induction false} RetireAllSum(c: Stores, a: seq<Id>, b: seq<Id>)
    requires forall i :: i in a + b ==> i in c.rows
    ensures (forall i :: i in a ==> i in c.rows) && (forall i :: i in b ==> i in c.rows)
    ensures RetireAll(c, a + b) == RetireAll(RetireAll(c, a), b)
  {
    assert forall i :: i in a ==> i in a + b;
    assert forall i :: i in b ==> i in a + b;
    if b == [] {
      assert a + b == a;
    } else {
      assert (a + b)[..|a + b| - 1] == a + b[..|b| - 1];
      RetireAllSum(c, a, b[..|b| - 1]);
    }
  }

  lemma OtherKindsStay(c: Stores, seeds: seq<Seed>, kinds: set<Kind>, order: seq<Kind>, k: Kind)
    requires k !in order && forall i :: i in StaleList(c.rows, seeds, kinds, order) ==> i in c.rows
    ensures StaleIds(RetireAll(c, StaleList(c.rows, seeds, kinds, order)).rows, seeds, k) == StaleIds(c.rows, seeds, k)
  {
    var gone := StaleList(c.rows, seeds, kinds, order);
    forall i | i in c.rows
      ensures RetireAll(c, gone).rows[i].kind == c.rows[i].kind
      ensures c.rows[i].kind == k ==> RetireAll(c, gone).rows[i] == c.rows[i]
    {
      StaleListed(c.rows, seeds, kinds, order, i);
      AllRetired(c, gone, i);
    }
  }

  lemma {:induction false} NewSeedsHas(rows: map<Id, Row>, run: seq<Seed>, e: Seed)
    ensures e in NewSeeds(rows, run) <==> e in run && e.seedId.Some? && !Known(rows, e)
  {
    if run != [] {
      NewSeedsHas(rows, run[..|run| - 1], e);
      assert run == run[..|run| - 1] + [run[|run| - 1]];
    }
  }

  lemma NewAreListed(rows: map<Id, Row>, seeds: seq<Seed>, kinds: set<Kind>, e: Seed)
    ensures e in NewSeeds(rows, SeedOrder(seeds, kinds, PRUNE_ORDER)) <==>
      e in seeds && e.kind in kinds && e.seedId.Some? && !Known(rows, e)
  {
    NewSeedsHas(rows, SeedOrder(seeds, kinds, PRUNE_ORDER), e);
    OrderHas(seeds, kinds, PRUNE_ORDER, e);
    EveryKind(PRUNE_ORDER);
  }

  /** No verified row of its type carries the seed's id, and it is no knowledge base of whose title the
      system has a verified one. */
  ghost predicate IsNew(rows: map<Id, Row>, e: Seed) {
    forall i :: i in rows && rows[i].kind == e.kind && rows[i].verified ==>
      rows[i].seedId != e.seedId
      && (e.kind.KnowledgeBase? && rows[i].bySystem ==> e.title == "" || rows[i].title != e.title)
  }

  lemma NewMeans(rows: map<Id, Row>, e: Seed)
    requires e.seedId.Some?
    ensures Known(rows, e) <==> !IsNew(rows, e)
  {
  }

  lemma NewListed(rows: map<Id, Row>, seeds: seq<Seed>, kinds: set<Kind>)
    ensures forall e :: e in NewSeeds(rows, SeedOrder(seeds, kinds, PRUNE_ORDER)) <==>
      e in seeds && e.kind in kinds && e.seedId.Some? && IsNew(rows, e)
  {
    hide IsNew, Known;
    forall e
      ensures e in NewSeeds(rows, SeedOrder(seeds, kinds, PRUNE_ORDER)) <==>
        e in seeds && e.kind in kinds && e.seedId.Some? && IsNew(rows, e)
    {
      NewAreListed(rows, seeds, kinds, e);
      if e.seedId.Some? {
        NewMeans(rows, e);
      }
    }
  }

  lemma {:induction false} NothingToDrop(s: seq<Id>, i: Id)
    requires i !in s
    ensures Dropped(s, i) == s
  {
    if s != [] {
      NothingToDrop(s[1..], i);
      assert s == [s[0]] + s[1..];
    }
  }

  lemma {:induction false} NothingToRemove(s: seq<Id>, i: Id)
    requires i !in s
    ensures RemoveFirst(s, i) == s
  {
    if s != [] {
      NothingToRemove(s[1..], i);
      assert s == [s[0]] + s[1..];
    }
  }

  /** The seed has a row of its own: stamped, verified and attached. */
  ghost predicate InCatalog(c: Stores, e: Seed, titles: map<string, string>) {
    exists i :: SeededAs(c, i, e, titles)
  }

  /** With unique ids and titles and no crossed row: the catalog is the manifest, and every seed
      has its row with all attachments. */
  lemma UpgradeSettled(c: Stores, final: Stores, seeds: seq<Seed>, cs: seq<SeedCollection>, kinds: set<Kind>)
    requires Settled(c, SeedOrder(seeds, kinds, SEED_ORDER))
    requires final == AfterPrune(Seeded(c, seeds, cs, kinds), seeds, kinds)
    ensures forall k :: k in kinds ==> VerifiedIds(final.rows, k) == LiveIds(seeds, k)
    ensures forall e :: e in seeds && e.kind in kinds && e.seedId.Some? ==> InCatalog(final, e, Titles(cs))
  {
    forall k | k in kinds {
      CatalogIsManifest(c, seeds, cs, kinds, k);
    }
    forall e | e in seeds && e.kind in kinds && e.seedId.Some?
      ensures InCatalog(final, e, Titles(cs))
    {
      var i := EverySeedIsInTheCatalog(c, seeds, cs, kinds, e);
      assert SeededAs(final, i, e, Titles(cs));
    }
  }

  lemma UpgradeAnnounced(c: Stores, seeds: seq<Seed>, cs: seq<SeedCollection>, kinds: set<Kind>)
    requires Steady(c, SeedOrder(seeds, kinds, SEED_ORDER))
    ensures forall e :: e in Created(WithCollections(c, cs), SeedOrder(seeds, kinds, SEED_ORDER), Titles(cs)) ==>
      e in NewSeeds(c.rows, SeedOrder(seeds, kinds, PRUNE_ORDER))
  {
    var run, titles, start := SeedOrder(seeds, kinds, SEED_ORDER), Titles(cs), WithCollections(c, cs);
    CollectionsExist(c, cs);
    forall e | e in Created(start, run, titles)
      ensures e in NewSeeds(c.rows, SeedOrder(seeds, kinds, PRUNE_ORDER))
    {
      var n := CreatedInRun(start, run, titles, e);
      CreatedWasAnnounced(start, run, titles, n);
      RunSeeds(seeds, kinds, e);
      NewAreListed(c.rows, seeds, kinds, e);
    }
  }

  lemma {:induction false} CreatedInRun(c: Stores, run: seq<Seed>, titles: map<string, string>, e: Seed) returns (n: nat)
    requires e in Created(c, run, titles)
    ensures n < |run| && run[n] == e && e.seedId.Some?
  {
    var front, last := run[..|run| - 1], run[|run| - 1];
    if e in Created(c, front, titles) {
      n := CreatedInRun(c, front, titles, e);
    } else {
      n := |run| - 1;
    }
  }

  lemma WorkflowsListed(c: Stores, seeds: seq<Seed>, cs: seq<SeedCollection>, kinds: set<Kind>)
    requires Fresh(c)
    ensures forall e :: e in Created(WithCollections(c, cs), SeedOrder(seeds, kinds, SEED_ORDER), Titles(cs)) && e.kind.Workflow? ==>
      e in NewSeeds(c.rows, SeedOrder(seeds, kinds, PRUNE_ORDER))
  {
    var run, titles, start := SeedOrder(seeds, kinds, SEED_ORDER), Titles(cs), WithCollections(c, cs);
    CollectionsExist(c, cs);
    forall e | e in Created(start, run, titles) && e.kind.Workflow?
      ensures e in NewSeeds(c.rows, SeedOrder(seeds, kinds, PRUNE_ORDER))
    {
      var n := CreatedInRun(start, run, titles, e);
      WorkflowsAnnounced(start, run, titles, e);
      RunSeeds(seeds, kinds, e);
      NewAreListed(c.rows, seeds, kinds, e);
    }
  }

  /** What an upgrade comes to, told from the stores at the start: which types equal the seed files,
      which seeds keep their row with all attachments, which are created, and which of these the
      preview did not announce. */
  ghost predicate Foretold(c: Stores, final: Stores, seeds: seq<Seed>, cs: seq<SeedCollection>, kinds: set<Kind>,
                           created: seq<Seed>, new_: seq<Seed>)
  {
    var run, titles, start := SeedOrder(seeds, kinds, SEED_ORDER), Titles(cs), WithCollections(c, cs);
    && (forall k :: k in kinds ==> (VerifiedIds(final.rows, k) == LiveIds(seeds, k) <==> NoLastTaken(c.rows, run, k)))
    && (forall d :: 0 <= d < |run| && run[d].seedId.Some? ==>
          (SeededAs(final, RowOf(start, run, titles, d), run[d], titles) <==> !TakenLater(c.rows, run, d)))
    && (forall n :: 0 <= n < |run| ==> (run[n] in created <==> Missing(c.rows, run, n)))
    && (forall n :: 0 <= n < |run| ==> (run[n] in created && run[n] !in new_ <==> Unannounced(c.rows, run, n)))
  }

  lemma CreatedForetold(c: Stores, seeds: seq<Seed>, cs: seq<SeedCollection>, kinds: set<Kind>, n: nat)
    requires Fresh(c) && Distinct(SeedOrder(seeds, kinds, SEED_ORDER)) && n < |SeedOrder(seeds, kinds, SEED_ORDER)|
    ensures var run := SeedOrder(seeds, kinds, SEED_ORDER);
      var created, new_ := Created(WithCollections(c, cs), run, Titles(cs)), NewSeeds(c.rows, SeedOrder(seeds, kinds, PRUNE_ORDER));
      && (run[n] in created <==> Missing(c.rows, run, n))
      && (run[n] in created && run[n] !in new_ <==> Unannounced(c.rows, run, n))
  {
    hide Distinct, Unannounced, Missing;
    var run, titles, start := SeedOrder(seeds, kinds, SEED_ORDER), Titles(cs), WithCollections(c, cs);
    CollectionsExist(c, cs);
    CreatedIff(start, run, titles, n);
    UnannouncedIff(start, run, titles, n);
    RunSeeds(seeds, kinds, run[n]);
    NewAreListed(c.rows, seeds, kinds, run[n]);
    if run[n] in Created(start, run, titles) {
      var m := CreatedInRun(start, run, titles, run[n]);
    }
  }

  lemma UpgradeForetold(c: Stores, seeds: seq<Seed>, cs: seq<SeedCollection>, kinds: set<Kind>)
    requires Fresh(c) && Distinct(SeedOrder(seeds, kinds, SEED_ORDER))
    ensures Foretold(c, AfterPrune(Seeded(c, seeds, cs, kinds), seeds, kinds), seeds, cs, kinds,
                     Created(WithCollections(c, cs), SeedOrder(seeds, kinds, SEED_ORDER), Titles(cs)),
                     NewSeeds(c.rows, SeedOrder(seeds, kinds, PRUNE_ORDER)))
  {
    hide Distinct, SeededAs, VerifiedIds, Unannounced, Missing, TakenLater, NoLastTaken, Created, NewSeeds;
    var run := SeedOrder(seeds, kinds, SEED_ORDER);
    forall k | k in kinds {
      MatchesManifestIff(c, seeds, cs, kinds, k);
    }
    forall d: nat | d < |run| && run[d].seedId.Some? {
      InTheCatalogIff(c, seeds, cs, kinds, d);
    }
    forall n: nat | n < |run| {
      CreatedForetold(c, seeds, cs, kinds, n);
    }
  }

  class Database {
    var rows: map<Id, Row>
    var meta: map<Item, string>
    var libItems: map<Id, LibItem>
    var lib: seq<Id>
    var cols: map<string, Collection>
    var next: nat

    constructor ()
      ensures Now() == Stores(map[], map[], map[], [], map[], 0)
    {
      rows, meta, libItems, lib, cols, next := map[], map[], map[], [], map[], 0;
    }

    function Now(): Stores
      reads this
    {
      Stores(rows, meta, libItems, lib, cols, next)
    }

    method EnsureCollection(s: SeedCollection)
      modifies this
      ensures Now() == WithCollection(old(Now()), s)
    {
      if s.title in cols {
        var existing := cols[s.title];
        var changed := false;
        if existing.description != s.description {
          existing, changed := existing.(description := s.description), true;
        }
        if s.featured && !existing.featured {
          existing, changed := existing.(featured := true), true;
        }
        if changed {
          cols := cols[s.title := existing];
        } else {
          assert cols == cols[s.title := existing];
        }
      } else {
        cols := cols[s.title := Collection(s.description, s.featured, [])];
      }
    }

    method AddToCollection(title: string, i: Id)
      modifies this
      ensures Now() == old(Now()).(cols := WithMember(old(cols), title, i))
    {
      if title in cols {
        if i in cols[title].items {
          assert cols[title := cols[title].(items := Added(cols[title].items, i))] == cols;
        } else {
          cols := cols[title := cols[title].(items := cols[title].items + [i])];
        }
      }
    }

    method AddToCollections(slugs: seq<string>, titles: map<string, string>, i: Id)
      modifies this
      ensures Now() == old(Now()).(cols := WithMembers(old(cols), slugs, titles, i))
    {
      for k := 0 to |slugs|
        invariant Now() == old(Now()).(cols := WithMembers(old(cols), slugs[..k], titles, i))
      {
        assert slugs[..k + 1][..k] == slugs[..k];
        if slugs[k] in titles {
          AddToCollection(titles[slugs[k]], i);
        }
      }
      assert slugs[..|slugs|] == slugs;
    }

    method EnsureLibraryItem(item: Item)
      modifies this
      ensures Now() == WithLibItem(old(Now()), item)
    {
      var existing := FirstOf(LibItemsOf(Now(), item));
      var li;
      if existing.Some? {
        li := existing.value;
      } else {
        li := Id(next);
        libItems, next := libItems[li := LibItem(item, true)], next + 1;
      }
      if li !in lib {
        lib := lib + [li];
      }
    }

    /** The catalog side of one seed: library item, metadata, collections. */
    method Attach(item: Item, e: Seed, titles: map<string, string>)
      modifies this
      ensures Now() == Attached(old(Now()), item, e, titles)
    {
      EnsureLibraryItem(item);
      meta := meta[item := e.display];
      AddToCollections(e.slugs, titles, item.id);
    }

    /** `seed_workflow`: by seed id only; name refreshed. */
    method SeedWorkflow(e: Seed, titles: map<string, string>) returns (created: bool)
      requires e.kind.Workflow? && e.seedId.Some?
      modifies this
      ensures Now() == SeedOne(old(Now()), e, titles)
      ensures created ==> rows == old(rows)[Id(old(next)) := Row(Workflow, e.title, true, e.seedId, true)]
      ensures !created ==> exists i ::
        i in old(rows) && old(rows)[i].kind == e.kind
        && rows == old(rows)[i := old(rows)[i].(verified := true, title := e.title)]
      ensures created <==> Existing(old(rows), e).None?
    {
      var existing := FirstOf(Stamped(rows, e.kind, e.seedId.value));
      var i;
      if existing.Some? {
        i, created := existing.value, false;
        rows := rows[i := rows[i].(verified := true, title := e.title)];
        assert old(rows)[i].(verified := true, title := e.title) == RefreshedRow(old(rows)[i], e);
      } else {
        i, created := Id(next), true;
        rows, next := rows[i := Row(Workflow, e.title, true, e.seedId, true)], next + 1;
      }
      Attach(Item(Workflow, i), e, titles);
    }

    /** `seed_search_set`: by seed id, else an adopted template with the title; title and
        stamp refreshed. */
    method SeedSearchSet(e: Seed, titles: map<string, string>) returns (created: bool)
      requires e.kind.SearchSet? && e.seedId.Some?
      modifies this
      ensures Now() == SeedOne(old(Now()), e, titles)
      ensures created ==> rows == old(rows)[Id(old(next)) := Row(SearchSet, e.title, true, e.seedId, false)]
      ensures !created ==> exists i ::
        i in old(rows) && old(rows)[i].kind == e.kind
        && rows == old(rows)[i := old(rows)[i].(verified := true, title := e.title, seedId := e.seedId)]
      ensures created <==> Existing(old(rows), e).None?
    {
      var existing := FirstOf(Stamped(rows, e.kind, e.seedId.value));
      if existing.None? {
        existing := FirstOf(Titled(rows, e.kind, e.title));
      }
      var i;
      if existing.Some? {
        i, created := existing.value, false;
        rows := rows[i := rows[i].(verified := true, title := e.title, seedId := e.seedId)];
      } else {
        i, created := Id(next), true;
        rows, next := rows[i := Row(SearchSet, e.title, true, e.seedId, false)], next + 1;
      }
      Attach(Item(SearchSet, i), e, titles);
    }

    /** `seed_knowledge_base`: by seed id, else by title; stamp refreshed, title kept. */
    method SeedKnowledgeBase(e: Seed, titles: map<string, string>) returns (created: bool)
      requires e.kind.KnowledgeBase? && e.seedId.Some?
      modifies this
      ensures Now() == SeedOne(old(Now()), e, titles)
      ensures created ==> rows == old(rows)[Id(old(next)) := Row(KnowledgeBase, e.title, true, e.seedId, true)]
      ensures !created ==> exists i ::
        i in old(rows) && old(rows)[i].kind == e.kind
        && rows == old(rows)[i := old(rows)[i].(verified := true, seedId := e.seedId)]
      ensures created <==> Existing(old(rows), e).None?
    {
      var existing := FirstOf(Stamped(rows, e.kind, e.seedId.value));
      if existing.None? {
        existing := FirstOf(Titled(rows, e.kind, e.title));
      }
      var i;
      if existing.Some? {
        i, created := existing.value, false;
        rows := rows[i := rows[i].(verified := true, seedId := e.seedId)];
      } else {
        i, created := Id(next), true;
        rows, next := rows[i := Row(KnowledgeBase, e.title, true, e.seedId, true)], next + 1;
      }
      Attach(Item(KnowledgeBase, i), e, titles);
    }

    method SeedFile(e: Seed, titles: map<string, string>) returns (created: bool)
      modifies this
      ensures Now() == SeedOne(old(Now()), e, titles)
      ensures created <==> e.seedId.Some? && Existing(old(rows), e).None?
    {
      if e.seedId.None? {
        return false;
      }
      match e.kind
      case Workflow => created := SeedWorkflow(e, titles);
      case SearchSet => created := SeedSearchSet(e, titles);
      case KnowledgeBase => created := SeedKnowledgeBase(e, titles);
    }

    /** One phase of `seed_catalog`: the files of one type. */
    method SeedFiles(run: seq<Seed>, titles: map<string, string>) returns (created: seq<Seed>, updated: nat)
      modifies this
      ensures Now() == SeedAll(old(Now()), run, titles)
      ensures created == Created(old(Now()), run, titles) && |created| + updated == Seedable(run)
    {
      created, updated := [], 0;
      for k := 0 to |run|
        invariant Now() == SeedAll(old(Now()), run[..k], titles)
        invariant created == Created(old(Now()), run[..k], titles) && |created| + updated == Seedable(run[..k])
      {
        assert run[..k + 1][..k] == run[..k];
        var new_ := SeedFile(run[k], titles);
        if new_ {
          created := created + [run[k]];
        } else if run[k].seedId.Some? {
          updated := updated + 1;
        }
      }
      assert run[..|run|] == run;
    }

    /** `seed_catalog`: the collections first, then the selected types in turn. */
    method SeedCatalog(seeds: seq<Seed>, cs: seq<SeedCollection>, kinds: set<Kind>)
      returns (created: seq<Seed>, updated: nat)
      modifies this
      ensures Now() == Seeded(old(Now()), seeds, cs, kinds)
      ensures created == Created(WithCollections(old(Now()), cs), SeedOrder(seeds, kinds, SEED_ORDER), Titles(cs))
      ensures |created| + updated == Seedable(SeedOrder(seeds, kinds, SEED_ORDER))
    {
      var titles: map<string, string> := map[];
      for k := 0 to |cs|
        invariant Now() == WithCollections(old(Now()), cs[..k]) && titles == Titles(cs[..k])
      {
        assert cs[..k + 1][..k] == cs[..k];
        EnsureCollection(cs[k]);
        titles := titles[cs[k].slug := cs[k].title];
      }
      assert cs[..|cs|] == cs;
      ghost var ready := Now();
      created, updated := [], 0;
      for k := 0 to |SEED_ORDER|
        invariant Now() == SeedAll(ready, SeedOrder(seeds, kinds, SEED_ORDER[..k]), titles)
        invariant created == Created(ready, SeedOrder(seeds, kinds, SEED_ORDER[..k]), titles)
        invariant |created| + updated == Seedable(SeedOrder(seeds, kinds, SEED_ORDER[..k]))
      {
        var order := SEED_ORDER[..k];
        assert SEED_ORDER[..k + 1][..k] == order;
        if SEED_ORDER[k] in kinds {
          var run := OfKind(seeds, SEED_ORDER[k]);
          SeedAllSum(ready, SeedOrder(seeds, kinds, order), run, titles);
          var new_, old_ := SeedFiles(run, titles);
          created, updated := created + new_, updated + old_;
        } else {
          assert SeedOrder(seeds, kinds, order) + [] == SeedOrder(seeds, kinds, order);
        }
      }
      assert SEED_ORDER[..|SEED_ORDER|] == SEED_ORDER;
    }

    /** The verified library items of a retired row, one by one. */
    method DropLibItems(items: seq<Id>)
      modifies this
      ensures Now() == old(Now()).(lib := RemoveEach(old(lib), items), libItems := old(libItems) - (set li | li in items))
    {
      for k := 0 to |items|
        invariant lib == RemoveEach(old(lib), items[..k]) && libItems == old(libItems) - (set li | li in items[..k])
        invariant rows == old(rows) && meta == old(meta) && cols == old(cols) && next == old(next)
      {
        assert items[..k + 1][..k] == items[..k] && items[..k + 1] == items[..k] + [items[k]];
        if items[k] in lib {
          lib := RemoveFirst(lib, items[k]);
        } else {
          NothingToRemove(lib, items[k]);
        }
        libItems := libItems - {items[k]};
      }
      assert items[..|items|] == items;
    }

    /** `_retire_item`. */
    method RetireItem(i: Id)
      requires i in rows
      modifies this
      ensures Now() == Retire(old(Now()), i)
    {
      var item := Item(rows[i].kind, i);
      var gone := VerifiedLibItemsOf(Now(), item);
      DropLibItems(Sorted(gone));
      assert (set li | li in Sorted(gone)) == gone;
      meta := meta - {item};
      DropEverywhere(i);
      rows := rows[i := rows[i].(verified := false)];
    }

    /** Only the collections that have the item are written. */
    method DropEverywhere(i: Id)
      modifies this
      ensures Now() == old(Now()).(cols := map t | t in old(cols) :: old(cols)[t].(items := Dropped(old(cols)[t].items, i)))
    {
      var left := set t | t in cols && i in cols[t].items;
      forall t | t in cols && t !in left {
        NothingToDrop(cols[t].items, i);
      }
      while left != {}
        invariant left <= cols.Keys && Now() == old(Now()).(cols := cols) && cols.Keys == old(cols).Keys
        invariant forall t :: t in cols ==>
          cols[t] == (if t in left then old(cols)[t] else old(cols)[t].(items := Dropped(old(cols)[t].items, i)))
      {
        var t :| t in left;
        cols := cols[t := cols[t].(items := Dropped(cols[t].items, i))];
        left := left - {t};
      }
    }

    /** One type of a prune: the candidates are read first, and retired one by one. */
    method RetireKind(seeds: seq<Seed>, k: Kind, dryRun: bool) returns (found: seq<Id>)
      modifies this
      ensures found == Sorted(StaleIds(old(rows), seeds, k)) && forall i :: i in found ==> i in old(rows)
      ensures Now() == if dryRun then old(Now()) else RetireAll(old(Now()), found)
    {
      found := Sorted(StaleIds(rows, seeds, k));
      ghost var before := Now();
      assert forall i :: i in found ==> i in before.rows;
      for j := 0 to |found|
        invariant forall i :: i in found[..j] ==> i in found
        invariant Now() == if dryRun then before else RetireAll(before, found[..j])
      {
        assert found[..j + 1][..j] == found[..j];
        if !dryRun {
          RetireItem(found[j]);
        }
      }
      assert found[..|found|] == found;
    }

    /** `prune_stale_seeded_items`: the list of what is retired, and the retirement unless
        the run is dry. */
    method Prune(seeds: seq<Seed>, kinds: set<Kind>, dryRun: bool) returns (retired: seq<Id>)
      modifies this
      ensures retired == StaleList(old(rows), seeds, kinds, PRUNE_ORDER)
      ensures Now() == if dryRun then old(Now()) else AfterPrune(old(Now()), seeds, kinds)
      ensures forall i :: i in retired <==> i in old(rows) && Goes(old(rows)[i], seeds, kinds)
      ensures !dryRun ==> PrunedByFields(old(Now()), Now(), seeds, kinds)
    {
      retired := [];
      PrunedRows(rows, seeds, kinds);
      for k := 0 to |PRUNE_ORDER|
        invariant retired == StaleList(old(rows), seeds, kinds, PRUNE_ORDER[..k])
        invariant forall i :: i in retired ==> i in old(rows)
        invariant Now() == if dryRun then old(Now()) else RetireAll(old(Now()), retired)
      {
        assert PRUNE_ORDER[..k + 1][..k] == PRUNE_ORDER[..k];
        if PRUNE_ORDER[k] in kinds {
          OtherKindsStay(old(Now()), seeds, kinds, PRUNE_ORDER[..k], PRUNE_ORDER[k]);
          var found := RetireKind(seeds, PRUNE_ORDER[k], dryRun);
          RetireAllSum(old(Now()), retired, found);
          retired := retired + found;
        } else {
          assert retired + [] == retired;
        }
      }
      assert PRUNE_ORDER[..|PRUNE_ORDER|] == PRUNE_ORDER;
      PruneByFields(old(Now()), seeds, kinds);
    }

    /** `compute_catalog_diff`: what an upgrade would change, with nothing changed. */
    method Diff(seeds: seq<Seed>, kinds: set<Kind>) returns (new_: seq<Seed>, refreshed: nat, retiring: seq<Id>)
      modifies this
      ensures Now() == old(Now())
      ensures new_ == NewSeeds(rows, SeedOrder(seeds, kinds, PRUNE_ORDER))
      ensures |new_| + refreshed == Seedable(SeedOrder(seeds, kinds, PRUNE_ORDER))
      ensures forall e :: e in new_ <==> e in seeds && e.kind in kinds && e.seedId.Some? && IsNew(rows, e)
      ensures retiring == StaleList(rows, seeds, kinds, PRUNE_ORDER)
      ensures forall i :: i in retiring <==> i in rows && Goes(rows[i], seeds, kinds)
    {
      var run := SeedOrder(seeds, kinds, PRUNE_ORDER);
      new_, refreshed := [], 0;
      for k := 0 to |run|
        invariant new_ == NewSeeds(rows, run[..k]) && |new_| + refreshed == Seedable(run[..k])
      {
        assert run[..k + 1][..k] == run[..k];
        if run[k].seedId.Some? {
          if Known(rows, run[k]) {
            refreshed := refreshed + 1;
          } else {
            new_ := new_ + [run[k]];
          }
        }
      }
      assert run[..|run|] == run;
      NewListed(rows, seeds, kinds);
      retiring := Prune(seeds, kinds, true);
    }

    /** An upgrade: preview, seed, prune. The catalog then equals the manifest exactly when no
        seed lost its last row to another one; nothing was retired unannounced, and no workflow
        created unannounced. With unique ids and titles among the seed files everything else is
        told from the stores at the start, and with settled titles nothing is lost at all. */
    method Upgrade(seeds: seq<Seed>, cs: seq<SeedCollection>, kinds: set<Kind>)
      returns (new_: seq<Seed>, retiring: seq<Id>, created: seq<Seed>, retired: seq<Id>)
      requires Fresh(Now())
      modifies this
      ensures forall k :: k in kinds ==>
        (VerifiedIds(rows, k) == LiveIds(seeds, k) <==> NoneLost(old(Now()), seeds, cs, kinds, k))
      ensures forall i :: i in retired ==> Retired(Now(), i)
      ensures forall i :: i in retired ==> i in retiring
      ensures forall e :: e in new_ <==> e in seeds && e.kind in kinds && e.seedId.Some? && IsNew(old(rows), e)
      ensures forall i :: i in retiring <==> i in old(rows) && Goes(old(rows)[i], seeds, kinds)
      ensures PrunedByFields(Seeded(old(Now()), seeds, cs, kinds), Now(), seeds, kinds)
      ensures AsideByFields(old(Now()), Now(), seeds, kinds)
      ensures forall e :: e in created && e.kind.Workflow? ==> e in new_
      ensures Distinct(SeedOrder(seeds, kinds, SEED_ORDER)) ==>
        Foretold(old(Now()), Now(), seeds, cs, kinds, created, new_)
      ensures old(Settled(Now(), SeedOrder(seeds, kinds, SEED_ORDER))) ==>
        && (forall k :: k in kinds ==> VerifiedIds(rows, k) == LiveIds(seeds, k))
        && (forall e :: e in seeds && e.kind in kinds && e.seedId.Some? ==> InCatalog(Now(), e, Titles(cs)))
      ensures old(Steady(Now(), SeedOrder(seeds, kinds, SEED_ORDER))) ==> forall e :: e in created ==> e in new_
    {
      ghost var before := Now();
      var refreshed, updated;
      new_, refreshed, retiring := Diff(seeds, kinds);
      created, updated := SeedCatalog(seeds, cs, kinds);
      ghost var mid := Now();
      retired := Prune(seeds, kinds, false);
      forall k | k in kinds {
        CatalogIsManifestIff(before, seeds, cs, kinds, k);
      }
      forall i | i in retired
        ensures Retired(Now(), i) && i in retiring
      {
        PruneRetires(mid.rows, seeds, kinds, i);
        PruneIsExact(mid, seeds, kinds, i);
        RetiredWasAnnounced(before, seeds, cs, kinds, i);
      }
      UpgradeLeaves(before, Now(), seeds, cs, kinds);
      WorkflowsListed(before, seeds, cs, kinds);
      if Distinct(SeedOrder(seeds, kinds, SEED_ORDER)) {
        UpgradeForetold(before, seeds, cs, kinds);
      }
      if Settled(before, SeedOrder(seeds, kinds, SEED_ORDER)) {
        UpgradeSettled(before, Now(), seeds, cs, kinds);
      }
      if Steady(before, SeedOrder(seeds, kinds, SEED_ORDER)) {
        UpgradeAnnounced(before, seeds, cs, kinds);
      }
    }
  }
}
