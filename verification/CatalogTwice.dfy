/** When seeding the catalog a second time changes nothing. */
module CatalogTwice {
  import opened Wrappers
  import opened Ids
  import opened Catalog
  import opened CatalogFacts
  import opened CatalogTurns
  import opened CatalogSeeded

  // ---------------------------------------------------------------------------
  // Seeds
  // ---------------------------------------------------------------------------

  /** The seed's row is found again, up to date and attached. */
  ghost predicate Settles(c: Stores, e: Seed, titles: map<string, string>) {
    e.seedId.Some? ==> exists i :: SettledOn(c, e, titles, i)
  }

  lemma {:induction false} AlreadyMember(cols: map<string, Collection>, slugs: seq<string>, titles: map<string, string>, i: Id)
    requires forall slug :: slug in slugs && slug in titles && titles[slug] in cols ==> i in cols[titles[slug]].items
    ensures WithMembers(cols, slugs, titles, i) == cols
  {
    if slugs != [] {
      AlreadyMember(cols, slugs[..|slugs| - 1], titles, i);
    }
  }

  lemma SettledStays(c: Stores, e: Seed, titles: map<string, string>)
    requires Settles(c, e, titles)
    ensures SeedOne(c, e, titles) == c
  {
    if e.seedId.Some? {
      var i :| SettledOn(c, e, titles, i);
      assert SeededRows(c, e) == c;
      assert WithLibItem(c, Item(e.kind, i)) == c;
      AlreadyMember(c.cols, e.slugs, titles, i);
      assert c.meta[Item(e.kind, i) := e.display] == c.meta;
    }
  }

  lemma {:induction false} AllStay(c: Stores, run: seq<Seed>, titles: map<string, string>)
    requires forall e :: e in run ==> Settles(c, e, titles)
    ensures SeedAll(c, run, titles) == c
  {
    if run != [] {
      AllStay(c, run[..|run| - 1], titles);
      SettledStays(c, run[|run| - 1], titles);
    }
  }

  // ---------------------------------------------------------------------------
  // Collections
  // ---------------------------------------------------------------------------

  /** The seed collections' descriptions and featured marks are in place. */
  ghost predicate UpToDate(cols: map<string, Collection>, cs: seq<SeedCollection>) {
    forall s :: s in cs ==>
      s.title in cols && cols[s.title].description == s.description && (s.featured ==> cols[s.title].featured)
  }

  /** No two seed collections share a title. */
  ghost predicate OneEach(cs: seq<SeedCollection>) {
    forall j, k :: 0 <= j < k < |cs| ==> cs[j].title != cs[k].title
  }

  lemma {:induction false} CollectionsUpToDate(c: Stores, cs: seq<SeedCollection>)
    requires OneEach(cs)
    ensures UpToDate(WithCollections(c, cs).cols, cs)
  {
    if cs != [] {
      var front, last := cs[..|cs| - 1], cs[|cs| - 1];
      CollectionsUpToDate(c, front);
      forall s | s in cs
        ensures s == last || (s in front && s.title != last.title)
      {
        var k :| 0 <= k < |cs| && cs[k] == s;
        assert k < |cs| - 1 ==> front[k] == s;
      }
    }
  }

  lemma {:induction false} CollectionsStay(c: Stores, cs: seq<SeedCollection>)
    requires UpToDate(c.cols, cs)
    ensures WithCollections(c, cs) == c
  {
    if cs != [] {
      var last := cs[|cs| - 1];
      CollectionsStay(c, cs[..|cs| - 1]);
      assert last in cs;
      assert c.cols[last.title := c.cols[last.title]] == c.cols;
    }
  }

  lemma {:induction false} MembersOnly(cols: map<string, Collection>, slugs: seq<string>, titles: map<string, string>, i: Id, t: string)
    requires t in cols
    ensures t in WithMembers(cols, slugs, titles, i)
    ensures WithMembers(cols, slugs, titles, i)[t].(items := cols[t].items) == cols[t]
  {
    if slugs != [] {
      MembersOnly(cols, slugs[..|slugs| - 1], titles, i, t);
    }
  }

  lemma {:induction false} SeedingKeepsUpToDate(c: Stores, run: seq<Seed>, titles: map<string, string>, cs: seq<SeedCollection>)
    requires UpToDate(c.cols, cs)
    ensures UpToDate(SeedAll(c, run, titles).cols, cs)
  {
    if run != [] {
      var e := run[|run| - 1];
      var before := SeedAll(c, run[..|run| - 1], titles);
      SeedingKeepsUpToDate(c, run[..|run| - 1], titles, cs);
      if e.seedId.Some? {
        forall t | t in before.cols {
          MembersOnly(before.cols, e.slugs, titles, SeedTarget(before, e), t);
        }
      }
    }
  }

  // ---------------------------------------------------------------------------
  // The second run
  // ---------------------------------------------------------------------------

  /** The first row left that carries the seed's id. */
  ghost predicate FirstLeft(rows: map<Id, Row>, run: seq<Seed>, e: Seed, y: Id) {
    && Carries(rows, y, e) && !TakenBefore(rows, run, |run|, y)
    && forall z :: Carries(rows, z, e) && !TakenBefore(rows, run, |run|, z) ==> y.rank <= z.rank
  }

  /** What a second run refreshes for a seed whose row was taken over: the first row left that
      carries its id. It is verified and attached already at the start. */
  ghost predicate Spare(c: Stores, run: seq<Seed>, titles: map<string, string>, d: nat, y: Id)
    requires d < |run|
  {
    FirstLeft(c.rows, run, run[d], y) && SeededAs(c, y, run[d], titles)
  }

  /** Every seed keeps its row, or has another one in place. */
  ghost predicate AllInPlace(c: Stores, run: seq<Seed>, titles: map<string, string>) {
    forall d :: 0 <= d < |run| && run[d].seedId.Some? && TakenLater(c.rows, run, d) ==>
      exists y :: Spare(c, run, titles, d, y)
  }

  /** A row that no seed refreshes keeps what is attached to it, and gets nothing. */
  lemma {:induction false} UntouchedUpTo(c: Stores, run: seq<Seed>, titles: map<string, string>, n: nat, y: Id, f: Seed)
    requires Fresh(c) && Distinct(run) && n <= |run| && y in c.rows
    requires forall j :: 0 <= j < n ==> !Finds(c.rows, run, j, y) && !Takes(c.rows, run, j, y)
    ensures var now := SeedAll(c, run[..n], titles);
      y in now.rows && now.rows[y] == c.rows[y] &&
      (IsAttached(now, Item(f.kind, y), f, titles) <==> IsAttached(c, Item(f.kind, y), f, titles))
  {
    hide Finds, Takes, IsAttached, Distinct, SeedOne;
    if n > 0 {
      var before := SeedAll(c, run[..n - 1], titles);
      assert run[..n][..n - 1] == run[..n - 1] && run[..n][n - 1] == run[n - 1];
      assert SeedAll(c, run[..n], titles) == SeedOne(before, run[n - 1], titles);
      UntouchedUpTo(c, run, titles, n - 1, y, f);
      MidwayAt(c, run, n - 1, titles);
      FreshAfter(before, run[n - 1], titles);
      if run[n - 1].seedId.Some? {
        TurnIs(c.rows, before.rows, run, n - 1, y);
        NotTarget(before, run[n - 1], y);
        AttachedAsBefore(before, run[n - 1], titles, y, f);
      } else {
        assert SeedOne(before, run[n - 1], titles) == before by {
          NoIdNoSeed(before, run[n - 1], titles);
        }
      }
    }
  }

  lemma NotTarget(c: Stores, e: Seed, y: Id)
    requires Fresh(c) && e.seedId.Some? && y in c.rows && Existing(c.rows, e) != Some(y)
    ensures SeedTarget(c, e) != y && y in SeededRows(c, e).rows && SeededRows(c, e).rows[y] == c.rows[y]
  {
    RowSeeded(c, e);
  }

  lemma NoIdNoSeed(c: Stores, e: Seed, titles: map<string, string>)
    requires e.seedId.None?
    ensures SeedOne(c, e, titles) == c
  {
  }

  lemma Spared(c: Stores, run: seq<Seed>, titles: map<string, string>, d: nat, y: Id)
    requires Fresh(c) && Distinct(run) && d < |run| && run[d].seedId.Some? && TakenLater(c.rows, run, d)
    requires Carries(c.rows, y, run[d]) && !TakenBefore(c.rows, run, |run|, y)
    ensures var final := SeedAll(c, run, titles);
      y in final.rows && final.rows[y] == c.rows[y] &&
      (IsAttached(final, Item(run[d].kind, y), run[d], titles) <==> IsAttached(c, Item(run[d].kind, y), run[d], titles))
  {
    hide IsAttached, Distinct;
    TakenIsGone(c, run, titles, d);
    forall j: nat | j < |run|
      ensures !Finds(c.rows, run, j, y)
    {
      if Finds(c.rows, run, j, y) {
        FoundOnce(c.rows, run, j, d, y);
        FindsOne(c.rows, run, d, y, RowOf(c, run, titles, d));
      }
    }
    UntouchedUpTo(c, run, titles, |run|, y, run[d]);
    assert run[..|run|] == run;
  }

  lemma FoundAtEnd(c: Stores, run: seq<Seed>, titles: map<string, string>, d: nat, y: Id)
    requires Fresh(c) && Distinct(run) && d < |run| && run[d].seedId.Some? && TakenLater(c.rows, run, d)
    ensures var final := SeedAll(c, run, titles).rows;
      var found := Stamped(final, run[d].kind, run[d].seedId.value) != {} && Existing(final, run[d]) == Some(y);
      found <==> FirstLeft(c.rows, run, run[d], y)
  {
    hide Distinct, SeedAll, Midway;
    var final := SeedAll(c, run, titles).rows;
    var stamped := Stamped(final, run[d].kind, run[d].seedId.value);
    TakenIsGone(c, run, titles, d);
    MidwayAt(c, run, |run|, titles);
    assert run[..|run|] == run;
    NotFreeIfFound(c.rows, run, d, RowOf(c, run, titles, d));
    forall z {
      StampedAfter(c.rows, final, run, d, |run|, z);
    }
    if FirstLeft(c.rows, run, run[d], y) {
      LeastUnique(stamped, y);
    }
  }

  lemma SettledOnSpare(c: Stores, run: seq<Seed>, titles: map<string, string>, d: nat, y: Id)
    requires Fresh(c) && Distinct(run) && d < |run| && run[d].seedId.Some? && TakenLater(c.rows, run, d)
    ensures SettledOn(SeedAll(c, run, titles), run[d], titles, y) <==> Spare(c, run, titles, d, y)
  {
    hide IsAttached, Distinct, SeedAll, TakenLater, TakenBefore, Existing;
    OnlyBasesTaken(c.rows, run, d);
    FoundAtEnd(c, run, titles, d, y);
    if FirstLeft(c.rows, run, run[d], y) {
      Spared(c, run, titles, d, y);
    }
  }

  /** After a run, a seed settles exactly if it has kept its row or has a spare one. */
  lemma SettlesIff(c: Stores, run: seq<Seed>, titles: map<string, string>, d: nat)
    requires Fresh(c) && Distinct(run) && d < |run| && run[d].seedId.Some?
    ensures Settles(SeedAll(c, run, titles), run[d], titles) <==>
      (TakenLater(c.rows, run, d) ==> exists y :: Spare(c, run, titles, d, y))
  {
    hide SettledOn, Spare, Distinct;
    if TakenLater(c.rows, run, d) {
      forall y {
        SettledOnSpare(c, run, titles, d, y);
      }
    } else {
      SettledUpTo(c, run, titles, d, |run|);
      assert run[..|run|] == run;
    }
  }

  /** A second run that changes nothing finds every seed settled. */
  lemma StaysOnlyIfSettled(c: Stores, run: seq<Seed>, titles: map<string, string>, d: nat)
    requires Fresh(c) && Distinct(run) && d < |run| && SeedAll(c, run, titles) == c
    ensures Settles(c, run[d], titles)
  {
    hide SettledOn, Distinct;
    if run[d].seedId.Some? {
      if TakenLater(c.rows, run, d) {
        TakenIsGone(c, run, titles, d);
      } else {
        SettledUpTo(c, run, titles, d, |run|);
        assert run[..|run|] == run;
      }
    }
  }

  lemma RunTwiceIff(c: Stores, run: seq<Seed>, titles: map<string, string>)
    requires Fresh(c) && Distinct(run)
    ensures var once := SeedAll(c, run, titles);
      SeedAll(once, run, titles) == once <==> AllInPlace(c, run, titles)
  {
    hide Settles, Spare, Distinct;
    var once := SeedAll(c, run, titles);
    MidwayAt(c, run, |run|, titles);
    assert run[..|run|] == run;
    forall d: nat | d < |run| && run[d].seedId.Some? {
      SettlesIff(c, run, titles, d);
    }
    if SeedAll(once, run, titles) == once {
      forall d: nat | d < |run| {
        StaysOnlyIfSettled(once, run, titles, d);
      }
    }
    if AllInPlace(c, run, titles) {
      forall e | e in run
        ensures Settles(once, e, titles)
      {
        var d: nat :| d < |run| && run[d] == e;
        NoIdSettles(once, e, titles);
      }
      AllStay(once, run, titles);
    }
  }

  lemma NoIdSettles(c: Stores, e: Seed, titles: map<string, string>)
    ensures e.seedId.None? ==> Settles(c, e, titles)
  {
  }

  /** Seeding twice is seeding once, in all five stores, if and only if every seed keeps its row
      or has a spare one in place. */
  lemma SeedTwiceIff(c: Stores, seeds: seq<Seed>, cs: seq<SeedCollection>, kinds: set<Kind>)
    requires Fresh(c) && Distinct(SeedOrder(seeds, kinds, SEED_ORDER)) && OneEach(cs)
    ensures Seeded(Seeded(c, seeds, cs, kinds), seeds, cs, kinds) == Seeded(c, seeds, cs, kinds)
       <==> AllInPlace(WithCollections(c, cs), SeedOrder(seeds, kinds, SEED_ORDER), Titles(cs))
  {
    var run, titles, ready := SeedOrder(seeds, kinds, SEED_ORDER), Titles(cs), WithCollections(c, cs);
    CollectionsExist(c, cs);
    CollectionsUpToDate(c, cs);
    SeedingKeepsUpToDate(ready, run, titles, cs);
    CollectionsStay(SeedAll(ready, run, titles), cs);
    RunTwiceIff(ready, run, titles);
  }

  /** So it is where no seed's title sits on a knowledge base that another one has stamped. */
  lemma SeedTwice(c: Stores, seeds: seq<Seed>, cs: seq<SeedCollection>, kinds: set<Kind>)
    requires Settled(c, SeedOrder(seeds, kinds, SEED_ORDER)) && OneEach(cs)
    ensures Seeded(Seeded(c, seeds, cs, kinds), seeds, cs, kinds) == Seeded(c, seeds, cs, kinds)
  {
    var run := SeedOrder(seeds, kinds, SEED_ORDER);
    CollectionsExist(c, cs);
    SeedTwiceIff(c, seeds, cs, kinds);
    forall d: nat | d < |run| && run[d].seedId.Some?
      ensures !TakenLater(c.rows, run, d)
    {
      NoneTakenIfClear(c.rows, run, d);
    }
  }

  // ---------------------------------------------------------------------------
  // What the hypotheses are for, and what a retirement leaves
  // ---------------------------------------------------------------------------

  const CROSSED := Row(KnowledgeBase, "B", true, Some("a"), true)
  const SEED_A := Seed(KnowledgeBase, Some("a"), "A", "A", [])
  const SEED_B := Seed(KnowledgeBase, Some("b"), "B", "B", [])

  lemma FoundByItsId(c: Stores)
    requires c.rows == map[Id(0) := CROSSED]
    ensures SeedOne(c, SEED_A, map[]).rows == c.rows
  {
    assert Stamped(c.rows, KnowledgeBase, "a") == {Id(0)};
    assert SeedOne(c, SEED_A, map[]).rows == c.rows[Id(0) := RefreshedRow(CROSSED, SEED_A)];
  }

  lemma FoundByItsTitle(c: Stores)
    requires c.rows == map[Id(0) := CROSSED]
    ensures SeedOne(c, SEED_B, map[]).rows == map[Id(0) := CROSSED.(seedId := Some("b"))]
  {
    assert Stamped(c.rows, KnowledgeBase, "b") == {};
    assert Titled(c.rows, KnowledgeBase, "B") == {Id(0)};
    assert SeedOne(c, SEED_B, map[]).rows == c.rows[Id(0) := RefreshedRow(CROSSED, SEED_B)];
  }

  lemma TwoSeeds(c: Stores, e: Seed, f: Seed, titles: map<string, string>)
    ensures SeedAll(c, [e, f], titles) == SeedOne(SeedOne(c, e, titles), f, titles)
  {
    assert [e, f][..1] == [e] && [e][..0] == [];
    assert SeedAll(c, [e], titles) == SeedOne(c, e, titles);
  }

  lemma TwoLiveIds(e: Seed, f: Seed, k: Kind)
    requires e.kind == k && f.kind == k && e.seedId.Some? && f.seedId.Some?
    ensures LiveIds([e, f], k) == {e.seedId.value, f.seedId.value}
  {
  }

  lemma OneVerifiedId(i: Id, r: Row)
    requires r.verified && r.seedId.Some?
    ensures VerifiedIds(map[i := r], r.kind) == {r.seedId.value}
  {
    assert i in map[i := r];
  }

  lemma CrossedRowAfterwards(c: Stores)
    requires c.rows == map[Id(0) := CROSSED]
    ensures SeedAll(c, [SEED_A, SEED_B], map[]).rows == map[Id(0) := CROSSED.(seedId := Some("b"))]
  {
    FoundByItsId(c);
    FoundByItsTitle(SeedOne(c, SEED_A, map[]));
    TwoSeeds(c, SEED_A, SEED_B, map[]);
  }

  /** A knowledge base stamped by one seed and titled like another: the second seed takes
      the row over, and the first one is no longer in the catalog. */
  lemma CrossedRowLosesASeed(c: Stores)
    requires c.rows == map[Id(0) := CROSSED]
    ensures LiveIds([SEED_A, SEED_B], KnowledgeBase) == {"a", "b"}
    ensures VerifiedIds(SeedAll(c, [SEED_A, SEED_B], map[]).rows, KnowledgeBase) == {"b"}
  {
    CrossedRowAfterwards(c);
    TwoLiveIds(SEED_A, SEED_B, KnowledgeBase);
    OneVerifiedId(Id(0), CROSSED.(seedId := Some("b")));
  }

  lemma LostDoesNotSettle(c: Stores)
    requires c.rows == map[Id(0) := CROSSED.(seedId := Some("b"))]
    ensures !Settles(c, SEED_A, map[])
  {
    assert Stamped(c.rows, KnowledgeBase, "a") == {};
  }

  /** A second run does not leave it at that: it seeds again the one that dropped out. */
  lemma CrossedRowSeedsAgain(c: Stores)
    requires Fresh(c) && c.rows == map[Id(0) := CROSSED]
    ensures var once := SeedAll(c, [SEED_A, SEED_B], map[]); SeedAll(once, [SEED_A, SEED_B], map[]) != once
  {
    hide SeedAll, Settles, CROSSED;
    var run, once := [SEED_A, SEED_B], SeedAll(c, [SEED_A, SEED_B], map[]);
    CrossedRowAfterwards(c);
    LostDoesNotSettle(once);
    MidwayAt(c, run, |run|, map[]);
    assert run[..|run|] == run;
    if SeedAll(once, run, map[]) == once {
      StaysOnlyIfSettled(once, run, map[], 0);
    }
  }

  ghost predicate NoRepeats(s: seq<Id>) {
    forall j, k :: 0 <= j < k < |s| ==> s[j] != s[k]
  }

  lemma {:induction false} RemoveFirstExact(s: seq<Id>, i: Id)
    requires NoRepeats(s)
    ensures i !in RemoveFirst(s, i) && NoRepeats(RemoveFirst(s, i))
    ensures forall j :: j in RemoveFirst(s, i) ==> j in s
  {
    if s != [] && s[0] != i {
      var rest := RemoveFirst(s[1..], i);
      RemoveFirstExact(s[1..], i);
      assert s[0] !in s[1..];
      assert forall k :: 0 <= k < |rest| ==> rest[k] in rest;
      assert NoRepeats([s[0]] + rest);
    }
  }

  lemma {:induction false} RemoveEachExact(s: seq<Id>, gone: seq<Id>)
    requires NoRepeats(s)
    ensures NoRepeats(RemoveEach(s, gone))
    ensures forall j :: j in RemoveEach(s, gone) <==> j in s && j !in gone
  {
    if gone != [] {
      var before := RemoveEach(s, gone[..|gone| - 1]);
      RemoveEachExact(s, gone[..|gone| - 1]);
      RemoveFirstExact(before, gone[|gone| - 1]);
      forall j | j != gone[|gone| - 1] {
        RemoveFirstKeeps(before, gone[|gone| - 1], j);
      }
      assert gone == gone[..|gone| - 1] + [gone[|gone| - 1]];
    }
  }

  /** A retirement takes exactly the row's verified library items off the verified library.
      A bookmark that seeding had listed there, because the row had no other library item,
      stays. */
  lemma ListedAfterRetiring(c: Stores, i: Id, li: Id)
    requires i in c.rows && NoRepeats(c.lib)
    ensures li in Retire(c, i).lib <==> li in c.lib && li !in VerifiedLibItemsOf(c, Item(c.rows[i].kind, i))
  {
    RemoveEachExact(c.lib, Sorted(VerifiedLibItemsOf(c, Item(c.rows[i].kind, i))));
  }
}
