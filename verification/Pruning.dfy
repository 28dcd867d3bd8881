/**
  What pruning keeps: of the rows within the age and attempt bounds, exactly the newest ones up to the count bound.
 */
module Pruning {
  import opened Wrappers
  import opened Database
  import SpoolRuns
  import Sequences

  ghost predicate DistinctIds(rows: seq<SpoolRow>) {
    forall i, j :: 0 <= i < j < |rows| ==> rows[i].id != rows[j].id
  }

  // Newest first.
  ghost predicate Descending(rows: seq<SpoolRow>) {
    forall i, j :: 0 <= i < j < |rows| ==> Older(rows[j], rows[i])
  }

  // How many of `rows` are newer than `r`.
  function NewerThan(rows: seq<SpoolRow>, r: SpoolRow): nat {
    if rows == [] then 0 else (if Older(r, rows[0]) then 1 else 0) + NewerThan(rows[1..], r)
  }

  lemma {:induction false} InsertKeeps(x: SpoolRow, sorted: seq<SpoolRow>)
    requires Descending(sorted) && forall r <- sorted :: r.id != x.id
    ensures Descending(InsertNewest(x, sorted))
    ensures |InsertNewest(x, sorted)| == 1 + |sorted|
    ensures forall r :: r in InsertNewest(x, sorted) <==> r == x || r in sorted
  {
    if sorted == [] || Older(sorted[0], x) {
      forall j | 0 <= j < |sorted|
        ensures Older(sorted[j], x)
      {
      }
    } else {
      InsertKeeps(x, sorted[1..]);
      var rest := InsertNewest(x, sorted[1..]);
      forall j | 0 <= j < |rest|
        ensures Older(rest[j], sorted[0])
      {
        assert rest[j] in rest;
        assert sorted[0] in sorted;
      }
    }
  }

  lemma {:induction false} InsertCounts(x: SpoolRow, sorted: seq<SpoolRow>, r: SpoolRow, c: Condition)
    ensures NewerThan(InsertNewest(x, sorted), r) == NewerThan(sorted, r) + if Older(r, x) then 1 else 0
    ensures |Where(InsertNewest(x, sorted), c)| == |Where(sorted, c)| + if Holds(c, x) then 1 else 0
  {
    if sorted == [] || Older(sorted[0], x) {
    } else {
      InsertCounts(x, sorted[1..], r, c);
      assert InsertNewest(x, sorted)[1..] == InsertNewest(x, sorted[1..]);
    }
  }

  lemma {:induction false} Sorting(rows: seq<SpoolRow>)
    requires DistinctIds(rows)
    ensures var sorted := NewestFirst(rows);
            Descending(sorted) && |sorted| == |rows| && forall r :: r in sorted <==> r in rows
  {
    if rows != [] {
      Sorting(rows[1..]);
      InsertKeeps(rows[0], NewestFirst(rows[1..]));
    }
  }

  lemma {:induction false} SortingCounts(rows: seq<SpoolRow>, r: SpoolRow, c: Condition)
    ensures NewerThan(NewestFirst(rows), r) == NewerThan(rows, r)
    ensures |Where(NewestFirst(rows), c)| == |Where(rows, c)|
  {
    if rows != [] {
      SortingCounts(rows[1..], r, c);
      InsertCounts(rows[0], NewestFirst(rows[1..]), r, c);
    }
  }

  // In a descending table a row's position is the number of newer rows.
  lemma {:induction false} PositionIsRank(sorted: seq<SpoolRow>, k: nat)
    requires Descending(sorted) && k < |sorted|
    ensures NewerThan(sorted, sorted[k]) == k
  {
    if k == 0 {
      NoneNewer(sorted[1..], sorted[0]);
    } else {
      PositionIsRank(sorted[1..], k - 1);
    }
  }

  lemma {:induction false} NoneNewer(rows: seq<SpoolRow>, r: SpoolRow)
    requires forall q <- rows :: !Older(r, q)
    ensures NewerThan(rows, r) == 0
  {
    if rows != [] {
      NoneNewer(rows[1..], r);
    }
  }

  lemma {:induction false} WhereSplits(a: seq<SpoolRow>, b: seq<SpoolRow>, c: Condition)
    requires forall r <- a :: Holds(c, r)
    requires forall r <- b :: !Holds(c, r)
    ensures Where(a + b, c) == a
  {
    if a != [] {
      WhereSplits(a[1..], b, c);
      assert (a + b)[1..] == a[1..] + b;
    } else {
      assert a + b == b;
      NoneKept(b, c);
    }
  }

  lemma {:induction false} NoneKept(rows: seq<SpoolRow>, c: Condition)
    requires forall r <- rows :: !Holds(c, r)
    ensures Where(rows, c) == []
  {
    if rows != [] {
      NoneKept(rows[1..], c);
    }
  }

  lemma KeepsTheNewest(rows: seq<SpoolRow>, limit: nat)
    requires DistinctIds(rows)
    ensures |KeepNewest(rows, limit)| == if |rows| <= limit then |rows| else limit
    ensures forall r :: r in KeepNewest(rows, limit) <==> r in rows && NewerThan(rows, r) < limit
  {
    Sorting(rows);
    KeptCount(rows, limit);
    forall r | r in rows
      ensures r in KeepNewest(rows, limit) <==> NewerThan(rows, r) < limit
    {
      hide NewestFirst, NewerThan;
      RowIsKept(rows, r, limit);
    }
  }

  lemma IdsBeyondDiffer(sorted: seq<SpoolRow>, limit: nat)
    requires DistinctIds(sorted) && limit < |sorted|
    ensures forall k :: 0 <= k < |sorted| ==> (sorted[k].id in Ids(sorted[..limit]) <==> k < limit)
  {
    var first := sorted[..limit];
    forall k | 0 <= k < |sorted|
      ensures sorted[k].id in Ids(first) <==> k < limit
    {
      if k < limit {
        assert first[k] in first;
      }
    }
  }

  lemma DescendingIsDistinct(rows: seq<SpoolRow>, sorted: seq<SpoolRow>)
    requires DistinctIds(rows) && Descending(sorted) && forall r <- sorted :: r in rows
    ensures DistinctIds(sorted)
  {
    forall i, j | 0 <= i < j < |sorted|
      ensures sorted[i].id != sorted[j].id
    {
      assert sorted[i] in sorted && sorted[j] in sorted;
      assert Older(sorted[j], sorted[i]);
    }
  }

  lemma KeptCount(rows: seq<SpoolRow>, limit: nat)
    requires DistinctIds(rows)
    ensures |KeepNewest(rows, limit)| == if |rows| <= limit then |rows| else limit
  {
    var sorted := NewestFirst(rows);
    Sorting(rows);
    hide NewestFirst, NewerThan, Where, Ids;
    if |sorted| > limit {
      DescendingIsDistinct(rows, sorted);
      FrontIsKept(sorted, limit);
      SortingCounts(rows, rows[0], IdAmong(Ids(sorted[..limit])));
    }
  }

  lemma FrontIsKept(sorted: seq<SpoolRow>, limit: nat)
    requires DistinctIds(sorted) && limit < |sorted|
    ensures Where(sorted, IdAmong(Ids(sorted[..limit]))) == sorted[..limit]
  {
    var first, later := sorted[..limit], sorted[limit..];
    var ids := Ids(first);
    IdsBeyondDiffer(sorted, limit);
    hide Ids, DistinctIds, Where;
    forall r | r in later
      ensures r.id !in ids
    {
      var k :| 0 <= k < |later| && later[k] == r;
      assert sorted[limit + k] == r;
    }
    forall r | r in first
      ensures r.id in ids
    {
      var k :| 0 <= k < |first| && first[k] == r;
      assert sorted[k] == r;
    }
    WhereSplits(first, later, IdAmong(ids));
    Sequences.Rejoin(sorted, limit);
  }

  lemma RowIsKept(rows: seq<SpoolRow>, r: SpoolRow, limit: nat)
    requires DistinctIds(rows) && r in rows
    ensures r in KeepNewest(rows, limit) <==> NewerThan(rows, r) < limit
  {
    var sorted := NewestFirst(rows);
    Sorting(rows);
    SortingCounts(rows, r, OtherThan(0));
    var k :| 0 <= k < |sorted| && sorted[k] == r;
    PositionIsRank(sorted, k);
    hide NewestFirst, NewerThan;
    if |sorted| > limit {
      DescendingIsDistinct(rows, sorted);
      IdsBeyondDiffer(sorted, limit);
    }
  }

  // ---- The whole transaction ----

  predicate WithinBounds(cfg: Config, r: SpoolRow, nowMs: int) {
    Saturated(nowMs - cfg.maxAgeMs) <= r.createdMs && r.attempts < cfg.maxAttempts
  }

  // How many rows within the bounds are newer than `r`.
  function NewerWithinBounds(cfg: Config, rows: seq<SpoolRow>, nowMs: int, r: SpoolRow): nat {
    if rows == [] then 0
    else
      (if WithinBounds(cfg, rows[0], nowMs) && Older(r, rows[0]) then 1 else 0)
      + NewerWithinBounds(cfg, rows[1..], nowMs, r)
  }

  function CountWithinBounds(cfg: Config, rows: seq<SpoolRow>, nowMs: int): nat {
    if rows == [] then 0
    else (if WithinBounds(cfg, rows[0], nowMs) then 1 else 0) + CountWithinBounds(cfg, rows[1..], nowMs)
  }

  function Live(cfg: Config, rows: seq<SpoolRow>, nowMs: int): seq<SpoolRow> {
    Where(Where(rows, CreatedFrom(Saturated(nowMs - cfg.maxAgeMs))), AttemptsBelow(cfg.maxAttempts))
  }

  lemma {:induction false} LiveCounts(cfg: Config, rows: seq<SpoolRow>, nowMs: int, r: SpoolRow)
    ensures NewerThan(Live(cfg, rows, nowMs), r) == NewerWithinBounds(cfg, rows, nowMs, r)
    ensures |Live(cfg, rows, nowMs)| == CountWithinBounds(cfg, rows, nowMs)
  {
    hide Live, Older, WithinBounds;
    if rows != [] {
      LiveCounts(cfg, rows[1..], nowMs, r);
      LiveStep(cfg, rows, nowMs);
      Sequences.Halves([rows[0]], Live(cfg, rows[1..], nowMs));
    } else {
      NothingLives(cfg, nowMs);
    }
  }

  lemma NothingLives(cfg: Config, nowMs: int)
    ensures Live(cfg, [], nowMs) == []
  {
  }

  lemma LiveStep(cfg: Config, rows: seq<SpoolRow>, nowMs: int)
    requires rows != []
    ensures Live(cfg, rows, nowMs)
            == if WithinBounds(cfg, rows[0], nowMs) then [rows[0]] + Live(cfg, rows[1..], nowMs) else Live(cfg, rows[1..], nowMs)
  {
    hide Saturated;
    var young := Where(rows[1..], CreatedFrom(Saturated(nowMs - cfg.maxAgeMs)));
    Sequences.Halves([rows[0]], young);
    Sequences.Unit(young);
    Sequences.Unit(Live(cfg, rows[1..], nowMs));
  }

  /**
    Pruning keeps a row exactly when it is within the age and attempt bounds and fewer than `maxBatches` such rows are
    newer; it keeps as many as the bounds allow, and what it removed and what remains is what was there.
   */
  lemma PruneKeepsNewestWithinBounds(cfg: Config, db: Db, nowMs: int)
    requires SpoolRuns.WellFormed(db)
    ensures var r := Prune(cfg, db, nowMs);
            var within := CountWithinBounds(cfg, db.spool, nowMs);
            && (forall row :: row in r.db.spool <==>
                  && row in db.spool && WithinBounds(cfg, row, nowMs)
                  && NewerWithinBounds(cfg, db.spool, nowMs, row) < cfg.maxBatches)
            && |r.db.spool| == (if within <= cfg.maxBatches then within else cfg.maxBatches)
            && r == Reply(db.(spool := r.db.spool), Ok(PruneStats(|db.spool| - |r.db.spool|, |r.db.spool|)))
  {
    hide NewerThan, NewerWithinBounds, CountWithinBounds, KeepNewest;
    var live := Live(cfg, db.spool, nowMs);
    LiveIsDistinct(cfg, db, nowMs);
    KeepsTheNewest(live, cfg.maxBatches);
    forall row
      ensures NewerThan(live, row) == NewerWithinBounds(cfg, db.spool, nowMs, row)
    {
      LiveCounts(cfg, db.spool, nowMs, row);
    }
    LiveCounts(cfg, db.spool, nowMs, SpoolRow(0, "", 0, [], 0, 0));
  }

  lemma LiveIsDistinct(cfg: Config, db: Db, nowMs: int)
    requires SpoolRuns.WellFormed(db)
    ensures DistinctIds(Live(cfg, db.spool, nowMs))
  {
    hide Where, Saturated, SpoolRuns.WellFormed, SpoolRuns.Ascending, DistinctIds;
    var recent := CreatedFrom(Saturated(nowMs - cfg.maxAgeMs));
    AscendingRows(db);
    SpoolRuns.WhereAscends(db.spool, recent);
    SpoolRuns.WhereAscends(Where(db.spool, recent), AttemptsBelow(cfg.maxAttempts));
    AscendingIsDistinct(Live(cfg, db.spool, nowMs));
  }

  lemma AscendingRows(db: Db)
    requires SpoolRuns.WellFormed(db)
    ensures SpoolRuns.Ascending(db.spool)
  {
  }

  lemma AscendingIsDistinct(rows: seq<SpoolRow>)
    requires SpoolRuns.Ascending(rows)
    ensures DistinctIds(rows)
  {
  }

  /** On times the store can hold, the age bound is the age: no saturation of the cutoff ever keeps or drops a row. */
  lemma AgeIsMeasured(cfg: Config, r: SpoolRow, nowMs: int)
    requires cfg.Valid() && I64_MIN <= nowMs <= I64_MAX && I64_MIN <= r.createdMs
    ensures WithinBounds(cfg, r, nowMs) <==> nowMs - r.createdMs <= cfg.maxAgeMs && r.attempts < cfg.maxAttempts
  {
  }

  lemma {:induction false} MoreAreNewer(cfg: Config, rows: seq<SpoolRow>, nowMs: int, q: SpoolRow, r: SpoolRow)
    requires Older(r, q) || r == q
    ensures NewerWithinBounds(cfg, rows, nowMs, q) <= NewerWithinBounds(cfg, rows, nowMs, r)
  {
    hide WithinBounds;
    if rows != [] {
      MoreAreNewer(cfg, rows[1..], nowMs, q, r);
    }
  }

  /** Of the rows within the bounds, those a prune drops were created before those it keeps, or queued before them. */
  lemma OldestAreDropped(cfg: Config, db: Db, nowMs: int, dropped: SpoolRow, kept: SpoolRow)
    requires SpoolRuns.WellFormed(db) && dropped in db.spool && WithinBounds(cfg, dropped, nowMs)
    requires dropped !in Prune(cfg, db, nowMs).db.spool && kept in Prune(cfg, db, nowMs).db.spool
    ensures dropped.createdMs < kept.createdMs || (dropped.createdMs == kept.createdMs && dropped.id < kept.id)
  {
    PruneKeepsNewestWithinBounds(cfg, db, nowMs);
    hide Prune, NewerWithinBounds, WithinBounds;
    if !Older(dropped, kept) {
      if dropped.id == kept.id {
        SameIdSameRow(db, dropped, kept);
      }
      MoreAreNewer(cfg, db.spool, nowMs, dropped, kept);
    }
  }

  lemma SameIdSameRow(db: Db, a: SpoolRow, b: SpoolRow)
    requires SpoolRuns.WellFormed(db) && a in db.spool && b in db.spool && a.id == b.id
    ensures a == b
  {
    var i :| 0 <= i < |db.spool| && db.spool[i] == a;
    var j :| 0 <= j < |db.spool| && db.spool[j] == b;
  }
}
