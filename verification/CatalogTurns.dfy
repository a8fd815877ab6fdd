/**
 What each seed finds when its turn comes, told from the rows that seeding starts from. Among
 seeds with unique ids and titles, a row is found by its id once and taken over by its title once,
 a search set only one of the two.
 */
module CatalogTurns {
  import opened Wrappers
  import opened Ids
  import opened Catalog
  import opened CatalogFacts

  /** A row that carries the seed's id. */
  predicate Carries(rows: map<Id, Row>, x: Id, e: Seed) {
    x in rows && rows[x].kind == e.kind && e.seedId.Some? && rows[x].seedId == e.seedId
  }

  /** A row that has the seed's title, where titles count. */
  predicate HasTitle(rows: map<Id, Row>, x: Id, e: Seed) {
    x in rows && rows[x].kind == e.kind && ByTitleToo(e.kind) && e.seedId.Some? && rows[x].title == e.title
  }

  /** Seed `n` finds row `x` by its id: the first that still carries it. */
  ghost predicate Finds(rows: map<Id, Row>, run: seq<Seed>, n: nat, x: Id)
    requires n < |run|
    decreases n, 1
  {
    && Carries(rows, x, run[n]) && !TakenBefore(rows, run, n, x)
    && forall y :: Carries(rows, y, run[n]) && !TakenBefore(rows, run, n, y) ==> x.rank <= y.rank
  }

  ghost predicate FoundBefore(rows: map<Id, Row>, run: seq<Seed>, n: nat, x: Id)
    requires n <= |run|
    decreases n, 0
  {
    exists d :: 0 <= d < n && Finds(rows, run, d, x)
  }

  /** A row of the start that is verified under its title when it is the turn of seed `n`, unless
      an earlier seed takes it over. What finds a knowledge base by its id verifies it and keeps
      its title; what finds a search set by its id gives it another title. */
  ghost predicate Offered(rows: map<Id, Row>, run: seq<Seed>, n: nat, x: Id)
    requires n <= |run| && x in rows
    decreases n, 1
  {
    if rows[x].kind.KnowledgeBase? then rows[x].verified || FoundBefore(rows, run, n, x)
    else rows[x].verified && !FoundBefore(rows, run, n, x)
  }

  /** Seed `n` finds no row by its id when its turn comes: none carried it at the start, or
      earlier seeds have taken the rows that did. */
  ghost predicate Free(rows: map<Id, Row>, run: seq<Seed>, n: nat)
    requires n < |run|
    decreases n, 1
  {
    forall x :: Carries(rows, x, run[n]) ==> TakenBefore(rows, run, n, x)
  }

  /** Seed `n` takes row `x` over: it finds no row by its id, and `x` is the first by its title. */
  ghost predicate Takes(rows: map<Id, Row>, run: seq<Seed>, n: nat, x: Id)
    requires n < |run|
    decreases n, 2
  {
    && HasTitle(rows, x, run[n]) && Offered(rows, run, n, x) && Free(rows, run, n)
    && forall y :: HasTitle(rows, y, run[n]) && Offered(rows, run, n, y) ==> x.rank <= y.rank
  }

  ghost predicate TakenBefore(rows: map<Id, Row>, run: seq<Seed>, n: nat, x: Id)
    requires n <= |run|
    decreases n, 0
  {
    exists g :: 0 <= g < n && Takes(rows, run, g, x)
  }

  /** Seed `n` finds no row, neither by its id nor by its title. */
  ghost predicate Missing(rows: map<Id, Row>, run: seq<Seed>, n: nat)
    requires n < |run|
  {
    && run[n].seedId.Some? && Free(rows, run, n)
    && forall x :: HasTitle(rows, x, run[n]) ==> !Offered(rows, run, n, x)
  }

  // ---------------------------------------------------------------------------
  // The rows when it is a seed's turn
  // ---------------------------------------------------------------------------

  ghost predicate TakenRow(rows: map<Id, Row>, r: Row, run: seq<Seed>, n: nat, x: Id)
    requires n <= |run| && x in rows
  {
    exists g :: 0 <= g < n && Takes(rows, run, g, x) && r == RefreshedRow(rows[x], run[g])
  }

  ghost predicate FoundRow(rows: map<Id, Row>, r: Row, run: seq<Seed>, n: nat, x: Id)
    requires n <= |run| && x in rows
  {
    exists d :: 0 <= d < n && Finds(rows, run, d, x) && r == RefreshedRow(rows[x], run[d])
  }

  /** A row of the start after `n` seeds. */
  ghost predicate OldRow(rows: map<Id, Row>, r: Row, run: seq<Seed>, n: nat, x: Id)
    requires n <= |run| && x in rows
  {
    if TakenBefore(rows, run, n, x) then TakenRow(rows, r, run, n, x)
    else if FoundBefore(rows, run, n, x) then FoundRow(rows, r, run, n, x)
    else r == rows[x]
  }

  /** A row that one of the first `n` seeds has created. */
  ghost predicate Made(rows: map<Id, Row>, r: Row, run: seq<Seed>, n: nat)
    requires n <= |run|
  {
    exists m :: 0 <= m < n && Missing(rows, run, m) && r == NewRow(run[m])
  }

  ghost predicate Midway(rows: map<Id, Row>, now: map<Id, Row>, run: seq<Seed>, n: nat)
    requires n <= |run|
  {
    && (forall x :: x in rows ==> x in now && OldRow(rows, now[x], run, n, x))
    && (forall x :: x in now ==> x in rows || Made(rows, now[x], run, n))
  }

  lemma SameSeed(run: seq<Seed>, j: nat, k: nat)
    requires Distinct(run) && j < |run| && k < |run| && run[j].seedId.Some? && run[k].seedId.Some?
    requires run[j].kind == run[k].kind
    requires run[j].seedId == run[k].seedId || (ByTitleToo(run[j].kind) && run[j].title == run[k].title)
    ensures j == k
  {
  }

  /** Only the seed with its id finds a row by it, and only the one with its title takes it over. */
  lemma FoundOnce(rows: map<Id, Row>, run: seq<Seed>, d: nat, n: nat, x: Id)
    requires Distinct(run) && d < |run| && n < |run| && Finds(rows, run, d, x) && Carries(rows, x, run[n])
    ensures d == n
  {
    SameSeed(run, d, n);
  }

  lemma TakenOnce(rows: map<Id, Row>, run: seq<Seed>, g: nat, n: nat, x: Id)
    requires Distinct(run) && g < |run| && n < |run| && Takes(rows, run, g, x) && HasTitle(rows, x, run[n])
    ensures g == n
  {
    SameSeed(run, g, n);
  }

  /** Where no seed's title sits on a knowledge base with another one's id, none is taken over. */
  lemma NotFromClear(rows: map<Id, Row>, run: seq<Seed>, d: nat, n: nat, x: Id)
    requires Distinct(run) && Clear(rows, run) && d < |run| && n < |run| && d != n
    requires Carries(rows, x, run[d]) && HasTitle(rows, x, run[n])
    ensures !run[d].kind.KnowledgeBase?
  {
    assert run[d] in run && run[n] in run;
    assert run[n].seedId == run[d].seedId ==> d == n;
    assert !Crossed(rows[x], run[d], run[n]);
  }

  lemma StampedNow(rows: map<Id, Row>, now: map<Id, Row>, run: seq<Seed>, n: nat, x: Id)
    requires Distinct(run) && n < |run| && run[n].seedId.Some? && Midway(rows, now, run, n)
    ensures x in Stamped(now, run[n].kind, run[n].seedId.value) <==>
      Carries(rows, x, run[n]) && !TakenBefore(rows, run, n, x)
  {
    if x in rows {
      assert OldRow(rows, now[x], run, n, x);
      if TakenBefore(rows, run, n, x) {
        var g :| 0 <= g < n && Takes(rows, run, g, x) && now[x] == RefreshedRow(rows[x], run[g]);
      } else if FoundBefore(rows, run, n, x) {
        var d :| 0 <= d < n && Finds(rows, run, d, x) && now[x] == RefreshedRow(rows[x], run[d]);
      }
    } else if x in now {
      var m :| 0 <= m < n && Missing(rows, run, m) && now[x] == NewRow(run[m]);
    }
  }

  lemma TitledNow(rows: map<Id, Row>, now: map<Id, Row>, run: seq<Seed>, n: nat, x: Id)
    requires Distinct(run) && n < |run| && run[n].seedId.Some? && ByTitleToo(run[n].kind) && Midway(rows, now, run, n)
    ensures x in Titled(now, run[n].kind, run[n].title) <==> HasTitle(rows, x, run[n]) && Offered(rows, run, n, x)
  {
    if x in rows {
      assert OldRow(rows, now[x], run, n, x);
      if TakenBefore(rows, run, n, x) {
        var g :| 0 <= g < n && Takes(rows, run, g, x) && now[x] == RefreshedRow(rows[x], run[g]);
      } else if FoundBefore(rows, run, n, x) {
        var d :| 0 <= d < n && Finds(rows, run, d, x) && now[x] == RefreshedRow(rows[x], run[d]);
      }
    } else if x in now {
      var m :| 0 <= m < n && Missing(rows, run, m) && now[x] == NewRow(run[m]);
    }
  }

  /** The rows with the id of an earlier seed that has found one by it. */
  lemma StampedAfter(rows: map<Id, Row>, now: map<Id, Row>, run: seq<Seed>, d: nat, n: nat, x: Id)
    requires Distinct(run) && d < n <= |run| && run[d].seedId.Some? && !Free(rows, run, d) && Midway(rows, now, run, n)
    ensures x in Stamped(now, run[d].kind, run[d].seedId.value) <==>
      Carries(rows, x, run[d]) && !TakenBefore(rows, run, n, x)
  {
    hide Distinct;
    if x in rows {
      assert OldRow(rows, now[x], run, n, x);
      if TakenBefore(rows, run, n, x) {
        var g: nat :| 0 <= g < n && Takes(rows, run, g, x) && now[x] == RefreshedRow(rows[x], run[g]);
        if run[g].kind == run[d].kind && run[g].seedId == run[d].seedId {
          SameSeed(run, g, d);
        }
      } else if FoundBefore(rows, run, n, x) {
        var m :| 0 <= m < n && Finds(rows, run, m, x) && now[x] == RefreshedRow(rows[x], run[m]);
      }
    } else if x in now {
      var m: nat :| 0 <= m < n && Missing(rows, run, m) && now[x] == NewRow(run[m]);
      if run[m].kind == run[d].kind && run[m].seedId == run[d].seedId {
        SameSeed(run, m, d);
      }
    }
  }

  lemma FreeNow(rows: map<Id, Row>, now: map<Id, Row>, run: seq<Seed>, n: nat)
    requires Distinct(run) && n < |run| && run[n].seedId.Some? && Midway(rows, now, run, n)
    ensures Free(rows, run, n) <==> Stamped(now, run[n].kind, run[n].seedId.value) == {}
  {
    forall x {
      StampedNow(rows, now, run, n, x);
    }
    if Stamped(now, run[n].kind, run[n].seedId.value) == {} {
      assert forall x :: x !in Stamped(now, run[n].kind, run[n].seedId.value);
    }
  }

  lemma LeastUnique(s: set<Id>, x: Id)
    requires x in s && forall y :: y in s ==> x.rank <= y.rank
    ensures Least(s) == x
  {
  }

  /** What seed `n` refreshes: the first row that carries its id. */
  lemma FindsNow(rows: map<Id, Row>, now: map<Id, Row>, run: seq<Seed>, n: nat, x: Id)
    requires Distinct(run) && n < |run| && run[n].seedId.Some? && Midway(rows, now, run, n)
    ensures var stamped := Stamped(now, run[n].kind, run[n].seedId.value);
      Finds(rows, run, n, x) <==> stamped != {} && Least(stamped) == x
  {
    var stamped := Stamped(now, run[n].kind, run[n].seedId.value);
    forall y {
      StampedNow(rows, now, run, n, y);
    }
    if Finds(rows, run, n, x) {
      LeastUnique(stamped, x);
    }
  }

  /** What seed `n` refreshes otherwise: the row that it takes over. */
  lemma TakesNow(rows: map<Id, Row>, now: map<Id, Row>, run: seq<Seed>, n: nat, x: Id)
    requires Distinct(run) && n < |run| && run[n].seedId.Some? && ByTitleToo(run[n].kind) && Midway(rows, now, run, n)
    ensures var titled := Titled(now, run[n].kind, run[n].title);
      Takes(rows, run, n, x) <==> Free(rows, run, n) && titled != {} && Least(titled) == x
  {
    var titled := Titled(now, run[n].kind, run[n].title);
    forall y {
      TitledNow(rows, now, run, n, y);
    }
    if Takes(rows, run, n, x) {
      LeastUnique(titled, x);
    }
  }

  /** What seed `n` refreshes. */
  lemma TurnIs(rows: map<Id, Row>, now: map<Id, Row>, run: seq<Seed>, n: nat, x: Id)
    requires Distinct(run) && n < |run| && run[n].seedId.Some? && Midway(rows, now, run, n)
    ensures Existing(now, run[n]) == Some(x) <==> Finds(rows, run, n, x) || Takes(rows, run, n, x)
  {
    FindsNow(rows, now, run, n, x);
    FreeNow(rows, now, run, n);
    if ByTitleToo(run[n].kind) {
      TakesNow(rows, now, run, n, x);
    }
  }

  lemma MissingNow(rows: map<Id, Row>, now: map<Id, Row>, run: seq<Seed>, n: nat)
    requires Distinct(run) && n < |run| && run[n].seedId.Some? && Midway(rows, now, run, n)
    ensures Existing(now, run[n]) == None <==> Missing(rows, run, n)
  {
    FreeNow(rows, now, run, n);
    if ByTitleToo(run[n].kind) {
      var titled := Titled(now, run[n].kind, run[n].title);
      forall x {
        TitledNow(rows, now, run, n, x);
      }
      if titled == {} {
        assert forall x :: x !in titled;
      }
    }
  }

  // ---------------------------------------------------------------------------
  // One turn
  // ---------------------------------------------------------------------------

  lemma OneMoreTaken(rows: map<Id, Row>, run: seq<Seed>, n: nat, x: Id)
    requires n < |run|
    ensures TakenBefore(rows, run, n + 1, x) <==> TakenBefore(rows, run, n, x) || Takes(rows, run, n, x)
  {
  }

  lemma OneMoreFound(rows: map<Id, Row>, run: seq<Seed>, n: nat, x: Id)
    requires n < |run|
    ensures FoundBefore(rows, run, n + 1, x) <==> FoundBefore(rows, run, n, x) || Finds(rows, run, n, x)
  {
  }

  /** A row that the seed does not refresh stays as it is. */
  lemma RowPassed(rows: map<Id, Row>, r: Row, run: seq<Seed>, n: nat, x: Id)
    requires n < |run| && x in rows && OldRow(rows, r, run, n, x)
    requires !Takes(rows, run, n, x) && !Finds(rows, run, n, x)
    ensures OldRow(rows, r, run, n + 1, x)
  {
    OneMoreTaken(rows, run, n, x);
    OneMoreFound(rows, run, n, x);
    if TakenBefore(rows, run, n, x) {
      var g :| 0 <= g < n && Takes(rows, run, g, x) && r == RefreshedRow(rows[x], run[g]);
      assert 0 <= g < n + 1;
    } else if FoundBefore(rows, run, n, x) {
      var d :| 0 <= d < n && Finds(rows, run, d, x) && r == RefreshedRow(rows[x], run[d]);
      assert 0 <= d < n + 1;
    }
  }

  /** The row that the seed finds by its id is as it was at the start. */
  lemma RowFound(rows: map<Id, Row>, r: Row, run: seq<Seed>, n: nat, x: Id)
    requires Distinct(run) && n < |run| && x in rows && OldRow(rows, r, run, n, x) && Finds(rows, run, n, x)
    ensures OldRow(rows, RefreshedRow(r, run[n]), run, n + 1, x)
  {
    hide Distinct;
    OneMoreTaken(rows, run, n, x);
    OneMoreFound(rows, run, n, x);
    if d :| 0 <= d < n && Finds(rows, run, d, x) {
      FoundOnce(rows, run, d, n, x);
    }
    assert !Free(rows, run, n);
  }

  lemma RowTaken(rows: map<Id, Row>, r: Row, run: seq<Seed>, n: nat, x: Id)
    requires Distinct(run) && n < |run| && x in rows && OldRow(rows, r, run, n, x) && Takes(rows, run, n, x)
    ensures OldRow(rows, RefreshedRow(r, run[n]), run, n + 1, x)
  {
    hide Distinct;
    OneMoreTaken(rows, run, n, x);
    if g :| 0 <= g < n && Takes(rows, run, g, x) {
      TakenOnce(rows, run, g, n, x);
    }
    assert RefreshedRow(r, run[n]) == RefreshedRow(rows[x], run[n]);
    assert 0 <= n < n + 1;
  }

  lemma MadeStill(rows: map<Id, Row>, r: Row, run: seq<Seed>, n: nat)
    requires n < |run| && Made(rows, r, run, n)
    ensures Made(rows, r, run, n + 1)
  {
    var m :| 0 <= m < n && Missing(rows, run, m) && r == NewRow(run[m]);
    assert 0 <= m < n + 1;
  }

  lemma OldRowNext(c: Stores, rows: map<Id, Row>, run: seq<Seed>, n: nat, x: Id)
    requires Fresh(c) && Distinct(run) && n < |run| && run[n].seedId.Some? && Midway(rows, c.rows, run, n) && x in rows
    ensures var next := SeededRows(c, run[n]).rows; x in next && OldRow(rows, next[x], run, n + 1, x)
  {
    RowSeeded(c, run[n]);
    TurnIs(rows, c.rows, run, n, x);
    if Takes(rows, run, n, x) {
      RowTaken(rows, c.rows[x], run, n, x);
    } else if Finds(rows, run, n, x) {
      RowFound(rows, c.rows[x], run, n, x);
    } else {
      RowPassed(rows, c.rows[x], run, n, x);
    }
  }

  lemma NewRowNext(c: Stores, rows: map<Id, Row>, run: seq<Seed>, n: nat, x: Id)
    requires Fresh(c) && Distinct(run) && n < |run| && run[n].seedId.Some? && Midway(rows, c.rows, run, n)
    requires x in SeededRows(c, run[n]).rows && x !in rows
    ensures Made(rows, SeededRows(c, run[n]).rows[x], run, n + 1)
  {
    RowSeeded(c, run[n]);
    TurnIs(rows, c.rows, run, n, x);
    MissingNow(rows, c.rows, run, n);
    if x in c.rows {
      MadeStill(rows, c.rows[x], run, n);
    } else {
      assert Missing(rows, run, n) && 0 <= n < n + 1;
    }
  }

  lemma OneTurn(c: Stores, rows: map<Id, Row>, run: seq<Seed>, n: nat, titles: map<string, string>)
    requires Fresh(c) && Distinct(run) && n < |run| && Midway(rows, c.rows, run, n)
    ensures Midway(rows, SeedOne(c, run[n], titles).rows, run, n + 1)
  {
    FreshAfter(c, run[n], titles);
    var next := SeedOne(c, run[n], titles).rows;
    forall x | x in rows
      ensures x in next && OldRow(rows, next[x], run, n + 1, x)
    {
      if run[n].seedId.Some? {
        OldRowNext(c, rows, run, n, x);
      } else {
        RowPassed(rows, next[x], run, n, x);
      }
    }
    forall x | x in next && x !in rows
      ensures Made(rows, next[x], run, n + 1)
    {
      if run[n].seedId.Some? {
        NewRowNext(c, rows, run, n, x);
      } else {
        MadeStill(rows, next[x], run, n);
      }
    }
  }

  /** After `n` seeds, every row of the start is as the seeds that found or took it have left it,
      and every other row was made by a seed that was missing. */
  lemma {:induction false} MidwayAt(c: Stores, run: seq<Seed>, n: nat, titles: map<string, string>)
    requires Fresh(c) && Distinct(run) && n <= |run|
    ensures Fresh(SeedAll(c, run[..n], titles)) && Midway(c.rows, SeedAll(c, run[..n], titles).rows, run, n)
  {
    if n > 0 {
      MidwayAt(c, run, n - 1, titles);
      assert run[..n][..n - 1] == run[..n - 1] && run[..n][n - 1] == run[n - 1];
      var before := SeedAll(c, run[..n - 1], titles);
      FreshAfter(before, run[n - 1], titles);
      OneTurn(before, c.rows, run, n - 1, titles);
    }
  }
}
