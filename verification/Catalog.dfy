/**
 The verified catalog of `seed_catalog.py`: rows, metadata, library items, the verified
 library's list and the collections, and what seeding and pruning make of them.
 */
module Catalog {
  import opened Wrappers
  import opened Ids

  datatype Kind = Workflow | SearchSet | KnowledgeBase

  /** A workflow, search set or knowledge base. An empty `seed_id` counts as none. */
  datatype Row = Row(kind: Kind, title: string, verified: bool, seedId: Option<string>, bySystem: bool)

  datatype Item = Item(kind: Kind, id: Id)

  datatype LibItem = LibItem(item: Item, verified: bool)

  datatype Collection = Collection(description: string, featured: bool, items: seq<Id>)

  /** The five stores. Every id in use is below `next`, the rank of the next ObjectId. */
  datatype Stores = Stores(
    rows: map<Id, Row>,
    meta: map<Item, string>,          // item -> display name
    libItems: map<Id, LibItem>,
    lib: seq<Id>,                     // items of the verified library
    cols: map<string, Collection>,    // by title
    next: nat)

  predicate Fresh(c: Stores) {
    (forall i :: i in c.rows ==> i.rank < c.next) && (forall i :: i in c.libItems ==> i.rank < c.next)
  }

  /** A seed file. One without a seed id is not seeded, but its title is still shipped. */
  datatype Seed = Seed(kind: Kind, seedId: Option<string>, title: string, display: string, slugs: seq<string>)

  datatype SeedCollection = SeedCollection(slug: string, title: string, description: string, featured: bool)

  /** Titles identify rows of these kinds when no seed id does. */
  predicate ByTitleToo(k: Kind) {
    !k.Workflow?
  }

  // ---------------------------------------------------------------------------
  // Seeding
  // ---------------------------------------------------------------------------

  function Stamped(rows: map<Id, Row>, k: Kind, seedId: string): set<Id> {
    set i | i in rows && rows[i].kind == k && rows[i].seedId == Some(seedId)
  }

  function Titled(rows: map<Id, Row>, k: Kind, title: string): set<Id> {
    set i | i in rows && rows[i].kind == k && rows[i].verified && rows[i].title == title
  }

  function FirstOf(s: set<Id>): Option<Id> {
    if s == {} then None else Some(Least(s))
  }

  /** The row that a seed refreshes: the one it stamped, or a verified one with its title. */
  function Existing(rows: map<Id, Row>, e: Seed): (r: Option<Id>)
    requires e.seedId.Some?
    ensures r.Some? ==> r.value in rows && rows[r.value].kind == e.kind
  {
    if Stamped(rows, e.kind, e.seedId.value) != {} then FirstOf(Stamped(rows, e.kind, e.seedId.value))
    else if ByTitleToo(e.kind) then FirstOf(Titled(rows, e.kind, e.title))
    else None
  }

  /** A refreshed knowledge base keeps its title; the others take the seed's. */
  function RefreshedRow(r: Row, e: Seed): Row {
    r.(verified := true, seedId := e.seedId, title := if e.kind.KnowledgeBase? then r.title else e.title)
  }

  /** Search sets are created without an owner. */
  function NewRow(e: Seed): Row {
    Row(e.kind, e.title, true, e.seedId, !e.kind.SearchSet?)
  }

  function SeedTarget(c: Stores, e: Seed): Id
    requires e.seedId.Some?
  {
    var existing := Existing(c.rows, e);
    if existing.Some? then existing.value else Id(c.next)
  }

  function SeededRows(c: Stores, e: Seed): Stores
    requires e.seedId.Some?
  {
    var existing := Existing(c.rows, e);
    if existing.Some? then c.(rows := c.rows[existing.value := RefreshedRow(c.rows[existing.value], e)])
    else c.(rows := c.rows[Id(c.next) := NewRow(e)], next := c.next + 1)
  }

  function LibItemsOf(c: Stores, item: Item): set<Id> {
    set li | li in c.libItems && c.libItems[li].item == item
  }

  function Added(s: seq<Id>, i: Id): seq<Id> {
    if i in s then s else s + [i]
  }

  /** `ensure_library_item`: any library item for the row will do, even a bookmark. */
  function WithLibItem(c: Stores, item: Item): Stores {
    var existing := FirstOf(LibItemsOf(c, item));
    if existing.Some? then c.(lib := Added(c.lib, existing.value))
    else c.(libItems := c.libItems[Id(c.next) := LibItem(item, true)],
            lib := Added(c.lib, Id(c.next)), next := c.next + 1)
  }

  function WithMember(cols: map<string, Collection>, title: string, i: Id): map<string, Collection> {
    if title in cols then cols[title := cols[title].(items := Added(cols[title].items, i))] else cols
  }

  function WithMembers(cols: map<string, Collection>, slugs: seq<string>, titles: map<string, string>, i: Id)
    : map<string, Collection>
  {
    if slugs == [] then cols else
    var before := WithMembers(cols, slugs[..|slugs| - 1], titles, i);
    var slug := slugs[|slugs| - 1];
    if slug in titles then WithMember(before, titles[slug], i) else before
  }

  /** The row's library item, metadata and collections. */
  function Attached(c: Stores, item: Item, e: Seed, titles: map<string, string>): Stores {
    var listed := WithLibItem(c, item);
    listed.(meta := listed.meta[item := e.display], cols := WithMembers(listed.cols, e.slugs, titles, item.id))
  }

  /** One seed file. `titles` maps the slugs of the manifest to collection titles. */
  function SeedOne(c: Stores, e: Seed, titles: map<string, string>): Stores {
    if e.seedId.None? then c
    else Attached(SeededRows(c, e), Item(e.kind, SeedTarget(c, e)), e, titles)
  }

  function SeedAll(c: Stores, seeds: seq<Seed>, titles: map<string, string>): Stores {
    if seeds == [] then c
    else SeedOne(SeedAll(c, seeds[..|seeds| - 1], titles), seeds[|seeds| - 1], titles)
  }

  /** `ensure_collection`. */
  function WithCollection(c: Stores, s: SeedCollection): Stores {
    c.(cols := c.cols[s.title :=
      if s.title in c.cols then Collection(s.description, c.cols[s.title].featured || s.featured, c.cols[s.title].items)
      else Collection(s.description, s.featured, [])])
  }

  function WithCollections(c: Stores, cs: seq<SeedCollection>): Stores {
    if cs == [] then c else WithCollection(WithCollections(c, cs[..|cs| - 1]), cs[|cs| - 1])
  }

  function Titles(cs: seq<SeedCollection>): map<string, string> {
    if cs == [] then map[] else Titles(cs[..|cs| - 1])[cs[|cs| - 1].slug := cs[|cs| - 1].title]
  }

  function OfKind(seeds: seq<Seed>, k: Kind): seq<Seed> {
    if seeds == [] then [] else
    var last := seeds[|seeds| - 1];
    OfKind(seeds[..|seeds| - 1], k) + (if last.kind == k then [last] else [])
  }

  /** The seed files of the selected types in the order in which they are seeded. */
  function SeedOrder(seeds: seq<Seed>, kinds: set<Kind>, order: seq<Kind>): seq<Seed> {
    if order == [] then [] else
    var k := order[|order| - 1];
    SeedOrder(seeds, kinds, order[..|order| - 1]) + (if k in kinds then OfKind(seeds, k) else [])
  }

  const SEED_ORDER: seq<Kind> := [Workflow, SearchSet, KnowledgeBase]

  /** `seed_catalog`: the collections, then the selected types. */
  function Seeded(c: Stores, seeds: seq<Seed>, cs: seq<SeedCollection>, kinds: set<Kind>): Stores {
    SeedAll(WithCollections(c, cs), SeedOrder(seeds, kinds, SEED_ORDER), Titles(cs))
  }

  // ---------------------------------------------------------------------------
  // Pruning
  // ---------------------------------------------------------------------------

  function LiveIds(seeds: seq<Seed>, k: Kind): set<string> {
    set e | e in seeds && e.kind == k && e.seedId.Some? :: e.seedId.value
  }

  function LiveTitles(seeds: seq<Seed>, k: Kind): set<string> {
    set e | e in seeds && e.kind == k && e.title != [] :: e.title
  }

  /** A verified row that the seed files no longer ship. */
  predicate Stale(seeds: seq<Seed>, r: Row) {
    && r.verified
    && if r.seedId.Some? then r.seedId.value !in LiveIds(seeds, r.kind)
       else r.kind.KnowledgeBase? && r.bySystem && r.title !in LiveTitles(seeds, r.kind)
  }

  function StaleIds(rows: map<Id, Row>, seeds: seq<Seed>, k: Kind): set<Id> {
    set i | i in rows && rows[i].kind == k && Stale(seeds, rows[i])
  }

  const PRUNE_ORDER: seq<Kind> := [SearchSet, KnowledgeBase, Workflow]

  /** The rows that pruning `kinds` retires, kind by kind. */
  function StaleList(rows: map<Id, Row>, seeds: seq<Seed>, kinds: set<Kind>, order: seq<Kind>): seq<Id> {
    if order == [] then [] else
    var k := order[|order| - 1];
    StaleList(rows, seeds, kinds, order[..|order| - 1]) + (if k in kinds then Sorted(StaleIds(rows, seeds, k)) else [])
  }

  function RemoveFirst(s: seq<Id>, i: Id): seq<Id> {
    if s == [] then [] else if s[0] == i then s[1..] else [s[0]] + RemoveFirst(s[1..], i)
  }

  function RemoveEach(s: seq<Id>, gone: seq<Id>): seq<Id> {
    if gone == [] then s else RemoveFirst(RemoveEach(s, gone[..|gone| - 1]), gone[|gone| - 1])
  }

  function Dropped(s: seq<Id>, i: Id): seq<Id> {
    if s == [] then [] else (if s[0] == i then [] else [s[0]]) + Dropped(s[1..], i)
  }

  function VerifiedLibItemsOf(c: Stores, item: Item): set<Id> {
    set li | li in c.libItems && c.libItems[li] == LibItem(item, true)
  }

  /** `_retire_item`: detach a row everywhere, and keep it unverified. */
  function Retire(c: Stores, i: Id): Stores
    requires i in c.rows
  {
    var item := Item(c.rows[i].kind, i);
    var gone := VerifiedLibItemsOf(c, item);
    c.(lib := RemoveEach(c.lib, Sorted(gone)),
       libItems := c.libItems - gone,
       meta := c.meta - {item},
       cols := map t | t in c.cols :: c.cols[t].(items := Dropped(c.cols[t].items, i)),
       rows := c.rows[i := c.rows[i].(verified := false)])
  }

  function RetireAll(c: Stores, ids: seq<Id>): (r: Stores)
    requires forall i :: i in ids ==> i in c.rows
    ensures r.rows.Keys == c.rows.Keys
  {
    if ids == [] then c else Retire(RetireAll(c, ids[..|ids| - 1]), ids[|ids| - 1])
  }
}
