/**
  What holds of the spool over whole runs: every operation of the store, in any order, with any arguments, from an
  empty database. Crashes need no step of their own: a transaction either happened or did not.
 */
module SpoolRuns {
  import opened Wrappers
  import opened Bytes
  import opened Database
  import Sequences

  datatype Op =
    | EnqueueOp(device: string, payload: seq<Byte>, nowMs: int)
    | CommitOp(commit: Commit)
    | ClaimOp(nowMs: int)
    | DeliveredOp(id: nat, nowMs: int)
    | DropOp(id: nat, nowMs: int)
    | RetryOp(id: nat, nowMs: int)
    | PruneOp(nowMs: int)
    | IntegrateOp(device: string, power: real, sampleMs: int)
    | ResetOp(device: string, totalKwh: real, nowMs: int)

  // What an operation reported to its caller.
  datatype Event =
    | Queued(id: nat)
    | Claimed(batch: SpoolRow)
    | Completed(id: nat)
    | DroppedBatch(id: nat)
    | Requeued(id: nat)
    | Pruned(removed: int)
    | Other

  function Execute(cfg: Config, db: Db, op: Op): (Db, Event) {
    match op
    case EnqueueOp(device, payload, now) =>
      var r := Enqueue(db, device, payload, now);
      (r.db, if r.result.Ok? then Queued(r.result.value) else Other)
    case CommitOp(c) =>
      var r := CommitAcquisition(db, c);
      (r.db, if r.result.Ok? && r.result.value.Committed? then Queued(r.result.value.batchId) else Other)
    case ClaimOp(now) =>
      var r := ClaimOldest(cfg, db, now);
      (r.db, if r.result.Ok? && r.result.value.Some? then Claimed(r.result.value.value) else Other)
    case DeliveredOp(id, now) =>
      var r := MarkDelivered(db, id, now);
      (r.db, if r.result.Ok? && r.result.value then Completed(id) else Other)
    case DropOp(id, now) =>
      var r := DropBatch(db, id, now);
      (r.db, if r.result.Ok? && r.result.value then DroppedBatch(id) else Other)
    case RetryOp(id, now) =>
      var r := RecordRetry(cfg, db, id, now);
      (r.db, if r.result.Err? then Other else if r.result.value.Dropped? then DroppedBatch(id) else Requeued(id))
    case PruneOp(now) =>
      var r := Prune(cfg, db, now);
      (r.db, if r.result.Ok? then Pruned(r.result.value.removed) else Other)
    case IntegrateOp(device, power, at) => (Integrate(cfg, db, device, power, at).db, Other)
    case ResetOp(device, total, now) => (ResetEnergy(db, device, total, now).db, Other)
  }

  function After(cfg: Config, db: Db, ops: seq<Op>): Db {
    if ops == [] then db else Execute(cfg, After(cfg, db, ops[..|ops| - 1]), ops[|ops| - 1]).0
  }

  function Events(cfg: Config, db: Db, ops: seq<Op>): seq<Event> {
    if ops == [] then []
    else
      var n := |ops| - 1;
      Events(cfg, db, ops[..n]) + [Execute(cfg, After(cfg, db, ops[..n]), ops[n]).1]
  }

  // ---- Counting what was reported ----

  function Queuings(events: seq<Event>): nat {
    if events == [] then 0
    else Queuings(events[..|events| - 1]) + if events[|events| - 1].Queued? then 1 else 0
  }

  function Completions(events: seq<Event>): nat {
    if events == [] then 0
    else Completions(events[..|events| - 1]) + if events[|events| - 1].Completed? then 1 else 0
  }

  function Drops(events: seq<Event>): nat {
    if events == [] then 0
    else Drops(events[..|events| - 1]) + if events[|events| - 1].DroppedBatch? then 1 else 0
  }

  function PrunedRows(events: seq<Event>): int {
    if events == [] then 0
    else
      var last := events[|events| - 1];
      PrunedRows(events[..|events| - 1]) + if last.Pruned? then last.removed else 0
  }

  function Claims(events: seq<Event>, id: nat): nat {
    if events == [] then 0
    else
      var last := events[|events| - 1];
      Claims(events[..|events| - 1], id) + if last.Claimed? && last.batch.id == id then 1 else 0
  }

  // ---- Rows, ids and filters ----

  // Ids increase along the table and the sequence is past all of them.
  ghost predicate WellFormed(db: Db) {
    && (forall i, j :: 0 <= i < j < |db.spool| ==> db.spool[i].id < db.spool[j].id)
    && (forall i :: 0 <= i < |db.spool| ==> 1 <= db.spool[i].id < db.nextId)
    && 1 <= db.nextId
  }

  ghost predicate Ascending(rows: seq<SpoolRow>) {
    forall i, j :: 0 <= i < j < |rows| ==> rows[i].id < rows[j].id
  }

  ghost predicate BelowAll(id: nat, rows: seq<SpoolRow>) {
    forall r <- rows :: id < r.id
  }

  lemma AscendingParts(rows: seq<SpoolRow>)
    requires Ascending(rows) && rows != []
    ensures Ascending(rows[1..]) && BelowAll(rows[0].id, rows[1..])
  {
  }

  lemma AscendingPrepend(x: SpoolRow, rows: seq<SpoolRow>)
    requires Ascending(rows) && BelowAll(x.id, rows)
    ensures Ascending([x] + rows)
  {
    var all := [x] + rows;
    forall i, j | 0 <= i < j < |all|
      ensures all[i].id < all[j].id
    {
      assert all[j] == rows[j - 1] && rows[j - 1] in rows;
    }
  }

  lemma {:induction false} WhereAscends(rows: seq<SpoolRow>, c: Condition)
    requires Ascending(rows)
    ensures Ascending(Where(rows, c)) && |Where(rows, c)| <= |rows|
  {
    hide Holds, Ascending;
    if rows == [] {
      assert Where(rows, c) == rows;
    } else {
      var rest := Where(rows[1..], c);
      AscendingParts(rows);
      WhereAscends(rows[1..], c);
      Sequences.Unit(rest);
      assert Where(rows, c) == if Holds(c, rows[0]) then [rows[0]] + rest else rest;
      AscendingPrepend(rows[0], rest);
    }
  }

  lemma WhereKeepsOrder(rows: seq<SpoolRow>, c: Condition)
    requires forall i, j :: 0 <= i < j < |rows| ==> rows[i].id < rows[j].id
    ensures var kept := Where(rows, c);
            |kept| <= |rows| && forall i, j :: 0 <= i < j < |kept| ==> kept[i].id < kept[j].id
  {
    hide Where;
    WhereAscends(rows, c);
  }

  lemma {:induction false} DeletesOne(rows: seq<SpoolRow>, id: nat)
    requires forall i, j :: 0 <= i < j < |rows| ==> rows[i].id < rows[j].id
    ensures |Where(rows, OtherThan(id))| == |rows| - (if exists r <- rows :: r.id == id then 1 else 0)
  {
    if rows != [] {
      DeletesOne(rows[1..], id);
      if rows[0].id == id {
        assert forall r <- rows[1..] :: r.id != id;
      } else if exists r <- rows :: r.id == id {
        var r :| r in rows && r.id == id;
        assert r in rows[1..];
      }
    }
  }

  lemma KeepNewestKeepsOrder(rows: seq<SpoolRow>, limit: nat)
    requires forall i, j :: 0 <= i < j < |rows| ==> rows[i].id < rows[j].id
    ensures var kept := KeepNewest(rows, limit);
            && |kept| <= |rows| && (forall r <- kept :: r in rows)
            && forall i, j :: 0 <= i < j < |kept| ==> kept[i].id < kept[j].id
  {
    WhereKeepsOrder(rows, IdAmong(Ids(NewestFirst(rows)[..if |NewestFirst(rows)| <= limit then 0 else limit])));
  }

  // What one operation does to the table, the sequence and the counters, by the event it reports.
  ghost predicate Accounts(db: Db, next: Db, event: Event) {
    && next.nextId == db.nextId + (if event.Queued? then 1 else 0)
    && next.deliveredTotal == db.deliveredTotal + (if event.Completed? then 1 else 0)
    && next.droppedTotal == db.droppedTotal + (if event.DroppedBatch? then 1 else 0)
    && (event.Queued? ==> event.id == db.nextId)
    && |next.spool| == |db.spool| + (if event.Queued? then 1 else 0)
       - (if event.Completed? || event.DroppedBatch? then 1 else 0) - (if event.Pruned? then event.removed else 0)
  }

  // How row `r` of the new table stems from row `q` of the old one: only a claim raises an attempt count, by one and
  // within the budget, and only a claim or a retry of that row moves its schedule.
  predicate StemsFrom(cfg: Config, event: Event, q: SpoolRow, r: SpoolRow) {
    && r == q.(attempts := r.attempts, nextAttemptMs := r.nextAttemptMs)
    && if event.Claimed? && event.batch.id == r.id then r == event.batch && r.attempts == q.attempts + 1 <= cfg.maxAttempts
       else r.attempts == q.attempts && (r.nextAttemptMs == q.nextAttemptMs || event == Requeued(r.id))
  }

  ghost predicate Stems(cfg: Config, db: Db, event: Event, r: SpoolRow) {
    || (event == Queued(r.id) && r.id == db.nextId && r.attempts == 0)
    || (exists i :: 0 <= i < |db.spool| && StemsFrom(cfg, event, db.spool[i], r))
  }

  // One operation keeps the table well-formed, accounts for every row, and every row stems from one before it.
  ghost predicate Follows(cfg: Config, db: Db, next: Db, event: Event) {
    && WellFormed(next)
    && Accounts(db, next, event)
    && forall i :: 0 <= i < |next.spool| ==> Stems(cfg, db, event, next.spool[i])
  }

  lemma Untouched(cfg: Config, db: Db, event: Event, rows: seq<SpoolRow>)
    requires !event.Claimed? && forall r <- rows :: r in db.spool
    ensures forall i :: 0 <= i < |rows| ==> Stems(cfg, db, event, rows[i])
  {
    forall i | 0 <= i < |rows|
      ensures Stems(cfg, db, event, rows[i])
    {
      assert rows[i] in rows;
      var j :| 0 <= j < |db.spool| && db.spool[j] == rows[i];
      assert StemsFrom(cfg, event, db.spool[j], rows[i]);
    }
  }

  lemma SubtableIsWellFormed(db: Db, next: Db)
    requires WellFormed(db) && next.nextId == db.nextId && forall r <- next.spool :: r in db.spool
    requires forall i, j :: 0 <= i < j < |next.spool| ==> next.spool[i].id < next.spool[j].id
    ensures WellFormed(next)
  {
    forall i | 0 <= i < |next.spool|
      ensures 1 <= next.spool[i].id < db.nextId
    {
      assert next.spool[i] in next.spool;
    }
  }

  lemma AppendedStems(cfg: Config, db: Db, row: SpoolRow)
    requires row.id == db.nextId && row.attempts == 0
    ensures Stems(cfg, db, Queued(row.id), row)
  {
  }

  lemma AppendFollows(cfg: Config, db: Db, next: Db, row: SpoolRow)
    requires WellFormed(db) && row.id == db.nextId && row.attempts == 0
    requires next.spool == db.spool + [row] && next.nextId == db.nextId + 1
    requires next.deliveredTotal == db.deliveredTotal && next.droppedTotal == db.droppedTotal
    ensures Follows(cfg, db, next, Queued(row.id))
  {
    hide StemsFrom, Stems;
    Untouched(cfg, db, Queued(row.id), db.spool);
    assert Stems(cfg, db, Queued(row.id), row) by {
      AppendedStems(cfg, db, row);
    }
  }

  lemma DeleteFollows(cfg: Config, db: Db, next: Db, id: nat, event: Event)
    requires WellFormed(db) && Find(db.spool, id).Some?
    requires next.spool == Where(db.spool, OtherThan(id)) && next.nextId == db.nextId
    requires event == Completed(id) || event == DroppedBatch(id)
    requires next.deliveredTotal == db.deliveredTotal + (if event.Completed? then 1 else 0)
    requires next.droppedTotal == db.droppedTotal + (if event.DroppedBatch? then 1 else 0)
    ensures Follows(cfg, db, next, event)
  {
    WhereKeepsOrder(db.spool, OtherThan(id));
    DeletesOne(db.spool, id);
    SubtableIsWellFormed(db, next);
    Untouched(cfg, db, event, next.spool);
  }

  lemma RescheduledIsWellFormed(db: Db, id: nat, attempts: nat, nextMs: int)
    requires WellFormed(db)
    ensures WellFormed(db.(spool := Rescheduled(db.spool, id, attempts, nextMs)))
  {
  }

  lemma RescheduleFollows(cfg: Config, db: Db, q: SpoolRow, attempts: nat, nextMs: int, event: Event)
    requires WellFormed(db) && q in db.spool
    requires || (event == Requeued(q.id) && attempts == q.attempts)
             || (event == Claimed(q.(attempts := attempts, nextAttemptMs := nextMs))
                 && attempts == q.attempts + 1 <= cfg.maxAttempts)
    ensures Follows(cfg, db, db.(spool := Rescheduled(db.spool, q.id, attempts, nextMs)), event)
  {
    hide Stems, StemsFrom, WellFormed, Rescheduled;
    var rows := Rescheduled(db.spool, q.id, attempts, nextMs);
    RescheduledIsWellFormed(db, q.id, attempts, nextMs);
    forall i | 0 <= i < |rows|
      ensures Stems(cfg, db, event, rows[i])
    {
      RescheduledStems(cfg, db, q, attempts, nextMs, event, i);
    }
  }

  lemma RescheduledStems(cfg: Config, db: Db, q: SpoolRow, attempts: nat, nextMs: int, event: Event, i: nat)
    requires WellFormed(db) && q in db.spool && i < |db.spool|
    requires || (event == Requeued(q.id) && attempts == q.attempts)
             || (event == Claimed(q.(attempts := attempts, nextAttemptMs := nextMs))
                 && attempts == q.attempts + 1 <= cfg.maxAttempts)
    ensures Stems(cfg, db, event, Rescheduled(db.spool, q.id, attempts, nextMs)[i])
  {
    var j :| 0 <= j < |db.spool| && db.spool[j] == q;
    assert db.spool[i].id == q.id ==> i == j;
    assert StemsFrom(cfg, event, db.spool[i], Rescheduled(db.spool, q.id, attempts, nextMs)[i]);
  }

  lemma PruneFollows(cfg: Config, db: Db, nowMs: int)
    requires WellFormed(db)
    ensures var r := Prune(cfg, db, nowMs);
            r.result.Ok? && Follows(cfg, db, r.db, Pruned(r.result.value.removed))
  {
    hide Stems, KeepNewest, Saturated, Where;
    var cutoff := CreatedFrom(Saturated(nowMs - cfg.maxAgeMs));
    var young := Where(db.spool, cutoff);
    var live := Where(young, AttemptsBelow(cfg.maxAttempts));
    WhereKeepsOrder(db.spool, cutoff);
    WhereKeepsOrder(young, AttemptsBelow(cfg.maxAttempts));
    KeepNewestKeepsOrder(live, cfg.maxBatches);
    SubtableIsWellFormed(db, Prune(cfg, db, nowMs).db);
    Untouched(cfg, db, Pruned(Prune(cfg, db, nowMs).result.value.removed), KeepNewest(live, cfg.maxBatches));
  }

  lemma SameSpoolFollows(cfg: Config, db: Db, next: Db)
    requires WellFormed(db) && next == db.(energy := next.energy)
    ensures Follows(cfg, db, next, Other)
  {
    Untouched(cfg, db, Other, db.spool);
  }

  // Operation by operation.
  ghost predicate OpFollows(cfg: Config, db: Db, op: Op) {
    var (next, event) := Execute(cfg, db, op);
    Follows(cfg, db, next, event)
  }

  lemma QueueFollows(cfg: Config, db: Db, op: Op)
    requires WellFormed(db) && (op.EnqueueOp? || op.CommitOp?)
    ensures OpFollows(cfg, db, op)
  {
    hide WellFormed, Follows;
    var (next, event) := Execute(cfg, db, op);
    if !event.Queued? {
      SameSpoolFollows(cfg, db, next);
    } else if op.EnqueueOp? {
      AppendFollows(cfg, db, next, SpoolRow(db.nextId, op.device, op.nowMs, op.payload, 0, op.nowMs));
    } else {
      var c := op.commit;
      AppendFollows(cfg, db, next, SpoolRow(db.nextId, c.device, c.observedMs, c.payload, 0, c.observedMs));
    }
  }

  lemma ClaimFollows(cfg: Config, db: Db, now: int)
    requires WellFormed(db)
    ensures OpFollows(cfg, db, ClaimOp(now))
  {
    hide WellFormed, Follows, Rescheduled, OldestReady;
    var (next, event) := Execute(cfg, db, ClaimOp(now));
    if event.Claimed? {
      var q := OldestReady(db.spool, now, cfg.maxAttempts).value;
      RescheduleFollows(cfg, db, q, q.attempts + 1, now + cfg.inflightMs, event);
    } else {
      SameSpoolFollows(cfg, db, next);
    }
  }

  lemma RemovalFollows(cfg: Config, db: Db, op: Op)
    requires WellFormed(db) && (op.DeliveredOp? || op.DropOp?)
    ensures OpFollows(cfg, db, op)
  {
    hide WellFormed, Follows;
    var (next, event) := Execute(cfg, db, op);
    if event.Completed? || event.DroppedBatch? {
      DeleteFollows(cfg, db, next, op.id, event);
    } else {
      SameSpoolFollows(cfg, db, next);
    }
  }

  lemma RetryFollows(cfg: Config, db: Db, id: nat, now: int)
    requires WellFormed(db)
    ensures OpFollows(cfg, db, RetryOp(id, now))
  {
    hide WellFormed, Follows, RetryDelay, Rescheduled, Find, Saturated;
    var (next, event) := Execute(cfg, db, RetryOp(id, now));
    if event.DroppedBatch? {
      DeleteFollows(cfg, db, next, id, event);
    } else if event.Requeued? {
      var q := Find(db.spool, id).value;
      RescheduleFollows(cfg, db, q, q.attempts, Saturated(now + RetryDelay(cfg, q.attempts)), event);
    } else {
      SameSpoolFollows(cfg, db, next);
    }
  }

  lemma PruneOpFollows(cfg: Config, db: Db, now: int)
    requires WellFormed(db)
    ensures OpFollows(cfg, db, PruneOp(now))
  {
    hide WellFormed, Follows, Prune;
    PruneFollows(cfg, db, now);
  }

  lemma EnergyFollows(cfg: Config, db: Db, op: Op)
    requires WellFormed(db) && (op.IntegrateOp? || op.ResetOp?)
    ensures OpFollows(cfg, db, op)
  {
    hide WellFormed, Follows, Integrate;
    var (next, event) := Execute(cfg, db, op);
    if op.IntegrateOp? {
      IntegrateSparesSpool(cfg, db, op.device, op.power, op.sampleMs);
    }
    SameSpoolFollows(cfg, db, next);
  }

  lemma StepFollows(cfg: Config, db: Db, op: Op)
    requires WellFormed(db)
    ensures var (next, event) := Execute(cfg, db, op); Follows(cfg, db, next, event)
  {
    hide WellFormed, Follows, Execute;
    match op
    case EnqueueOp(_, _, _) => QueueFollows(cfg, db, op);
    case CommitOp(_) => QueueFollows(cfg, db, op);
    case ClaimOp(now) => ClaimFollows(cfg, db, now);
    case DeliveredOp(_, _) => RemovalFollows(cfg, db, op);
    case DropOp(_, _) => RemovalFollows(cfg, db, op);
    case RetryOp(id, now) => RetryFollows(cfg, db, id, now);
    case PruneOp(now) => PruneOpFollows(cfg, db, now);
    case IntegrateOp(_, _, _) => EnergyFollows(cfg, db, op);
    case ResetOp(_, _, _) => EnergyFollows(cfg, db, op);
  }

  lemma IntegrateSparesSpool(cfg: Config, db: Db, device: string, power: real, sampleMs: int)
    ensures var next := Integrate(cfg, db, device, power, sampleMs).db; next == db.(energy := next.energy)
  {
  }

  // ---- Conservation over runs ----

  /**
    In every reachable state the batches ever queued are those still queued, delivered, dropped or pruned; the
    counters agree with what was reported; and the next id is one past the number queued.
   */
  lemma {:induction false} Conservation(cfg: Config, ops: seq<Op>)
    ensures var db, events := After(cfg, EMPTY, ops), Events(cfg, EMPTY, ops);
            && WellFormed(db)
            && Queuings(events) == |db.spool| + db.deliveredTotal + db.droppedTotal + PrunedRows(events)
            && db.deliveredTotal == Completions(events) && db.droppedTotal == Drops(events)
            && db.nextId == 1 + Queuings(events)
  {
    if ops != [] {
      var n := |ops| - 1;
      Conservation(cfg, ops[..n]);
      StepFollows(cfg, After(cfg, EMPTY, ops[..n]), ops[n]);
      LastEvent(cfg, EMPTY, ops);
    }
  }

  lemma LastEvent(cfg: Config, db: Db, ops: seq<Op>)
    requires ops != []
    ensures var events, n := Events(cfg, db, ops), |ops| - 1;
            && |events| == |ops|
            && events[..n] == Events(cfg, db, ops[..n])
            && events[n] == Execute(cfg, After(cfg, db, ops[..n]), ops[n]).1
  {
    EventPerOp(cfg, db, ops[..|ops| - 1]);
  }

  lemma {:induction false} EventPerOp(cfg: Config, db: Db, ops: seq<Op>)
    ensures |Events(cfg, db, ops)| == |ops|
  {
    if ops != [] {
      EventPerOp(cfg, db, ops[..|ops| - 1]);
    }
  }

  /** The k-th batch ever queued gets id k, so no id is ever used twice. */
  lemma {:induction false} IdsAreNeverReused(cfg: Config, ops: seq<Op>, k: nat)
    requires k < |ops|
    ensures k < |Events(cfg, EMPTY, ops)|
    ensures var events := Events(cfg, EMPTY, ops);
            events[k].Queued? ==> events[k].id == Queuings(events[..k + 1])
    decreases |ops|
  {
    var n := |ops| - 1;
    LastEvent(cfg, EMPTY, ops);
    if k < n {
      IdsAreNeverReused(cfg, ops[..n], k);
      assert Events(cfg, EMPTY, ops)[..k + 1] == Events(cfg, EMPTY, ops[..n])[..k + 1];
    } else {
      Conservation(cfg, ops[..n]);
      StepFollows(cfg, After(cfg, EMPTY, ops[..n]), ops[n]);
      assert Events(cfg, EMPTY, ops)[..k + 1] == Events(cfg, EMPTY, ops);
    }
  }

  /** Every queued row has been claimed exactly as often as its attempt count says, and never beyond the budget. */
  lemma {:induction false} AttemptsCountClaims(cfg: Config, ops: seq<Op>)
    ensures var db, events := After(cfg, EMPTY, ops), Events(cfg, EMPTY, ops);
            && (forall i :: 0 <= i < |db.spool| ==>
                  db.spool[i].attempts == Claims(events, db.spool[i].id) && db.spool[i].attempts <= cfg.maxAttempts)
            && (forall id :: db.nextId <= id ==> Claims(events, id) == 0)
  {
    if ops != [] {
      var n := |ops| - 1;
      var before, db := After(cfg, EMPTY, ops[..n]), After(cfg, EMPTY, ops);
      var events := Events(cfg, EMPTY, ops);
      AttemptsCountClaims(cfg, ops[..n]);
      Conservation(cfg, ops[..n]);
      StepFollows(cfg, before, ops[n]);
      LastEvent(cfg, EMPTY, ops);
      ClaimedIsQueued(cfg, before, ops[n]);
      CountsAfterStep(cfg, before, db, events);
    }
  }

  lemma ClaimedIsQueued(cfg: Config, db: Db, op: Op)
    requires WellFormed(db)
    ensures var (next, event) := Execute(cfg, db, op); event.Claimed? ==> event.batch.id < db.nextId
  {
    match op
    case ClaimOp(now) =>
      var q := OldestReady(db.spool, now, cfg.maxAttempts);
      if q.Some? {
        var i :| 0 <= i < |db.spool| && db.spool[i] == q.value;
      }
    case _ =>
  }

  lemma CountsAfterStep(cfg: Config, before: Db, db: Db, events: seq<Event>)
    requires events != [] && WellFormed(before)
    requires var event := events[|events| - 1];
             Follows(cfg, before, db, event) && (event.Claimed? ==> event.batch.id < before.nextId)
    requires var past := events[..|events| - 1];
             && (forall i :: 0 <= i < |before.spool| ==>
                   before.spool[i].attempts == Claims(past, before.spool[i].id) && before.spool[i].attempts <= cfg.maxAttempts)
             && (forall id :: before.nextId <= id ==> Claims(past, id) == 0)
    ensures forall i :: 0 <= i < |db.spool| ==>
              db.spool[i].attempts == Claims(events, db.spool[i].id) && db.spool[i].attempts <= cfg.maxAttempts
    ensures forall id :: db.nextId <= id ==> Claims(events, id) == 0
  {
    var event := events[|events| - 1];
    forall i | 0 <= i < |db.spool|
      ensures db.spool[i].attempts == Claims(events, db.spool[i].id) && db.spool[i].attempts <= cfg.maxAttempts
    {
      var r := db.spool[i];
      assert Stems(cfg, before, event, r);
      if !(event == Queued(r.id) && r.id == before.nextId && r.attempts == 0) {
        var j :| 0 <= j < |before.spool| && StemsFrom(cfg, event, before.spool[j], r);
      }
    }
  }

  // ---- Claims and leases ----

  // Row `k` is the ready row that every other ready row is newer than.
  ghost predicate IsOldestReady(rows: seq<SpoolRow>, k: nat, nowMs: int, maxAttempts: nat) {
    && k < |rows| && Ready(rows[k], nowMs, maxAttempts)
    && forall i :: 0 <= i < |rows| && i != k && Ready(rows[i], nowMs, maxAttempts) ==> Older(rows[k], rows[i])
  }

  lemma OldestReadyIndex(db: Db, nowMs: int, maxAttempts: nat) returns (k: nat)
    requires WellFormed(db) && OldestReady(db.spool, nowMs, maxAttempts).Some?
    ensures IsOldestReady(db.spool, k, nowMs, maxAttempts)
    ensures OldestReady(db.spool, nowMs, maxAttempts).value == db.spool[k]
  {
    var oldest := OldestReady(db.spool, nowMs, maxAttempts).value;
    k :| 0 <= k < |db.spool| && db.spool[k] == oldest;
    forall i | 0 <= i < |db.spool| && i != k && Ready(db.spool[i], nowMs, maxAttempts)
      ensures Older(db.spool[k], db.spool[i])
    {
      assert db.spool[i] in db.spool;
      assert !Older(db.spool[i], oldest);
    }
  }

  lemma NothingReady(db: Db, nowMs: int, maxAttempts: nat)
    ensures OldestReady(db.spool, nowMs, maxAttempts).None?
            <==> forall i :: 0 <= i < |db.spool| ==> !Ready(db.spool[i], nowMs, maxAttempts)
  {
    var oldest := OldestReady(db.spool, nowMs, maxAttempts);
    if oldest.Some? {
      var k :| 0 <= k < |db.spool| && db.spool[k] == oldest.value;
    } else {
      assert forall i :: 0 <= i < |db.spool| ==> db.spool[i] in db.spool;
    }
  }

  // What leasing row `k` at `nowMs` makes of it.
  function Leased(cfg: Config, r: SpoolRow, nowMs: int): SpoolRow {
    r.(attempts := r.attempts + 1, nextAttemptMs := nowMs + cfg.inflightMs)
  }

  // Row `k` was the oldest ready one, a look shows it, and the claim leased it and touched nothing else.
  ghost predicate LeasesRow(cfg: Config, db: Db, k: nat, nowMs: int) {
    && IsOldestReady(db.spool, k, nowMs, cfg.maxAttempts)
    && OldestReady(db.spool, nowMs, cfg.maxAttempts) == Some(db.spool[k])
    && ClaimOldest(cfg, db, nowMs)
       == Reply(db.(spool := db.spool[k := Leased(cfg, db.spool[k], nowMs)]), Ok(Some(Leased(cfg, db.spool[k], nowMs))))
  }

  /** A claim leases the oldest ready row, which a look would show: one attempt up, due again after the lease. */
  lemma ClaimLeasesOldest(cfg: Config, db: Db, nowMs: int)
    requires WellFormed(db) && cfg.Valid() && 0 <= nowMs
    ensures if exists i :: 0 <= i < |db.spool| && Ready(db.spool[i], nowMs, cfg.maxAttempts) then
              exists k: nat :: LeasesRow(cfg, db, k, nowMs)
            else
              ClaimOldest(cfg, db, nowMs) == Reply(db, Ok(None))
  {
    NothingReady(db, nowMs, cfg.maxAttempts);
    if OldestReady(db.spool, nowMs, cfg.maxAttempts).Some? {
      var k := OldestReadyIndex(db, nowMs, cfg.maxAttempts);
      LeasesThatRow(cfg, db, k, nowMs);
      hide LeasesRow;
      assert 0 <= k < |db.spool| && Ready(db.spool[k], nowMs, cfg.maxAttempts);
    }
  }

  lemma LeasesThatRow(cfg: Config, db: Db, k: nat, nowMs: int)
    requires WellFormed(db) && cfg.Valid() && 0 <= nowMs
    requires IsOldestReady(db.spool, k, nowMs, cfg.maxAttempts)
    requires OldestReady(db.spool, nowMs, cfg.maxAttempts) == Some(db.spool[k])
    ensures LeasesRow(cfg, db, k, nowMs)
  {
    LeasedInPlace(cfg, db, k, nowMs);
    hide WellFormed, OldestReady, Rescheduled, IsOldestReady;
  }

  lemma LeasedInPlace(cfg: Config, db: Db, k: nat, nowMs: int)
    requires WellFormed(db) && k < |db.spool|
    ensures Rescheduled(db.spool, db.spool[k].id, db.spool[k].attempts + 1, nowMs + cfg.inflightMs)
            == db.spool[k := Leased(cfg, db.spool[k], nowMs)]
  {
    OtherIdsDiffer(db, k);
    hide WellFormed, Rescheduled;
    var q := db.spool[k];
    var rows := Rescheduled(db.spool, q.id, q.attempts + 1, nowMs + cfg.inflightMs);
    var leased := db.spool[k := Leased(cfg, q, nowMs)];
    forall i | 0 <= i < |rows|
      ensures rows[i] == leased[i]
    {
      assert i != k ==> db.spool[i].id != q.id;
    }
    assert rows == leased;
  }

  lemma OtherIdsDiffer(db: Db, k: nat)
    requires WellFormed(db) && k < |db.spool|
    ensures forall i :: 0 <= i < |db.spool| && i != k ==> db.spool[i].id != db.spool[k].id
  {
  }

  predicate Present(db: Db, id: nat) {
    Find(db.spool, id).Some?
  }

  // Row `id`, as long as it is queued, is not due before `untilMs`.
  ghost predicate LeasedUntil(db: Db, id: nat, untilMs: int) {
    && id < db.nextId
    && forall i :: 0 <= i < |db.spool| && db.spool[i].id == id ==> untilMs <= db.spool[i].nextAttemptMs
  }

  // Claims in the run are made before `untilMs`, and no retry of `id` is recorded.
  ghost predicate WithinLease(ops: seq<Op>, id: nat, untilMs: int) {
    forall k :: 0 <= k < |ops| ==>
      (ops[k].ClaimOp? ==> ops[k].nowMs < untilMs) && (ops[k].RetryOp? ==> ops[k].id != id)
  }

  lemma LeaseStep(cfg: Config, db: Db, op: Op, id: nat, untilMs: int)
    requires WellFormed(db) && LeasedUntil(db, id, untilMs) && WithinLease([op], id, untilMs)
    ensures var (next, event) := Execute(cfg, db, op);
            LeasedUntil(next, id, untilMs) && !(event.Claimed? && event.batch.id == id)
  {
    var (next, event) := Execute(cfg, db, op);
    StepFollows(cfg, db, op);
    assert op == [op][0];
    NotClaimedInLease(cfg, db, op, id, untilMs);
    forall i | 0 <= i < |next.spool| && next.spool[i].id == id
      ensures untilMs <= next.spool[i].nextAttemptMs
    {
      assert Stems(cfg, db, event, next.spool[i]);
      var j :| 0 <= j < |db.spool| && StemsFrom(cfg, event, db.spool[j], next.spool[i]);
    }
  }

  lemma NotClaimedInLease(cfg: Config, db: Db, op: Op, id: nat, untilMs: int)
    requires LeasedUntil(db, id, untilMs) && (op.ClaimOp? ==> op.nowMs < untilMs) && (op.RetryOp? ==> op.id != id)
    ensures var event := Execute(cfg, db, op).1;
            !(event.Claimed? && event.batch.id == id) && event != Requeued(id)
  {
    match op
    case ClaimOp(now) =>
      var q := OldestReady(db.spool, now, cfg.maxAttempts);
      if q.Some? {
        var i :| 0 <= i < |db.spool| && db.spool[i] == q.value;
      }
    case _ =>
  }

  /** While a lease runs, the row is claimed by nobody else, whatever else happens, unless a retry of it is recorded. */
  lemma {:induction false} LeaseIsExclusive(cfg: Config, db: Db, id: nat, untilMs: int, ops: seq<Op>)
    requires WellFormed(db) && LeasedUntil(db, id, untilMs) && WithinLease(ops, id, untilMs)
    ensures WellFormed(After(cfg, db, ops)) && LeasedUntil(After(cfg, db, ops), id, untilMs)
    ensures Claims(Events(cfg, db, ops), id) == 0
  {
    if ops != [] {
      var n := |ops| - 1;
      LeaseIsExclusive(cfg, db, id, untilMs, ops[..n]);
      LeaseStep(cfg, After(cfg, db, ops[..n]), ops[n], id, untilMs);
      StepFollows(cfg, After(cfg, db, ops[..n]), ops[n]);
      LastEvent(cfg, db, ops);
    }
  }

  /** The claim itself starts such a lease, of the configured length. */
  lemma ClaimStartsLease(cfg: Config, db: Db, nowMs: int)
    requires WellFormed(db) && cfg.Valid() && 0 <= nowMs
    ensures var r := ClaimOldest(cfg, db, nowMs);
            r.result.Ok? && (r.result.value.Some? ==> LeasedUntil(r.db, r.result.value.value.id, nowMs + cfg.inflightMs))
  {
    ClaimLeasesOldest(cfg, db, nowMs);
    if exists k: nat :: LeasesRow(cfg, db, k, nowMs) {
      var k: nat :| LeasesRow(cfg, db, k, nowMs);
    }
  }

  // Row `leased`, as long as it is queued, is still as its claim left it.
  ghost predicate KeptAs(db: Db, leased: SpoolRow) {
    && leased.id < db.nextId
    && forall i :: 0 <= i < |db.spool| && db.spool[i].id == leased.id ==> db.spool[i] == leased
  }

  lemma KeptStep(cfg: Config, db: Db, op: Op, leased: SpoolRow)
    requires WellFormed(db) && KeptAs(db, leased) && WithinLease([op], leased.id, leased.nextAttemptMs)
    ensures KeptAs(Execute(cfg, db, op).0, leased)
  {
    var (next, event) := Execute(cfg, db, op);
    StepFollows(cfg, db, op);
    assert op == [op][0];
    NotClaimedInLease(cfg, db, op, leased.id, leased.nextAttemptMs);
    hide Execute, WellFormed;
    forall i | 0 <= i < |next.spool| && next.spool[i].id == leased.id
      ensures next.spool[i] == leased
    {
      assert Stems(cfg, db, event, next.spool[i]);
      var j :| 0 <= j < |db.spool| && StemsFrom(cfg, event, db.spool[j], next.spool[i]);
    }
  }

  lemma {:induction false} KeptOverRun(cfg: Config, db: Db, leased: SpoolRow, ops: seq<Op>)
    requires WellFormed(db) && KeptAs(db, leased) && WithinLease(ops, leased.id, leased.nextAttemptMs)
    ensures WellFormed(After(cfg, db, ops)) && KeptAs(After(cfg, db, ops), leased)
  {
    hide Execute, KeptAs, WellFormed;
    if ops != [] {
      var n := |ops| - 1;
      KeptOverRun(cfg, db, leased, ops[..n]);
      KeptStep(cfg, After(cfg, db, ops[..n]), ops[n], leased);
      StepFollows(cfg, After(cfg, db, ops[..n]), ops[n]);
    }
  }

  // The batch a claim at `nowMs` leased from `db`.
  predicate ClaimGives(cfg: Config, db: Db, nowMs: int, leased: SpoolRow) {
    ClaimOldest(cfg, db, nowMs).result == Ok(Some(leased))
  }

  lemma ClaimKeeps(cfg: Config, db: Db, nowMs: int, leased: SpoolRow)
    requires WellFormed(db) && cfg.Valid() && 0 <= nowMs && ClaimGives(cfg, db, nowMs, leased)
    ensures var next := ClaimOldest(cfg, db, nowMs).db; WellFormed(next) && KeptAs(next, leased)
    ensures leased.nextAttemptMs == nowMs + cfg.inflightMs && 1 <= leased.attempts <= cfg.maxAttempts
    ensures Find(db.spool, leased.id) == Some(leased.(attempts := leased.attempts - 1,
                                                      nextAttemptMs := Find(db.spool, leased.id).value.nextAttemptMs))
  {
    hide WellFormed, KeptAs, ClaimOldest, OldestReady, Find;
    ClaimLeasesOldest(cfg, db, nowMs);
    var k: nat :| LeasesRow(cfg, db, k, nowMs);
    FoundAt(db, k);
    LeasedRowIsKept(cfg, db, k, nowMs);
  }

  lemma LeasedRowIsKept(cfg: Config, db: Db, k: nat, nowMs: int)
    requires WellFormed(db) && k < |db.spool|
    ensures var leased := Leased(cfg, db.spool[k], nowMs);
            var next := db.(spool := db.spool[k := leased]);
            WellFormed(next) && KeptAs(next, leased)
  {
  }

  lemma FoundAt(db: Db, k: nat)
    requires WellFormed(db) && k < |db.spool|
    ensures Find(db.spool, db.spool[k].id) == Some(db.spool[k])
  {
    var found := Find(db.spool, db.spool[k].id).value;
    var j :| 0 <= j < |db.spool| && db.spool[j] == found;
    assert j == k;
  }

  /**
    Between a claim and the end of its lease, whatever else happens, a surviving row stays exactly as the claim left it:
    due when the lease ends, and one attempt up.
   */
  lemma LeasedRowIsUnchanged(cfg: Config, db: Db, nowMs: int, leased: SpoolRow, ops: seq<Op>)
    requires WellFormed(db) && cfg.Valid() && 0 <= nowMs && ClaimGives(cfg, db, nowMs, leased)
    requires WithinLease(ops, leased.id, nowMs + cfg.inflightMs)
    ensures var end := After(cfg, ClaimOldest(cfg, db, nowMs).db, ops);
            && WellFormed(end)
            && (Present(end, leased.id) ==> Find(end.spool, leased.id) == Some(leased))
            && leased.nextAttemptMs == nowMs + cfg.inflightMs
            && Find(db.spool, leased.id).Some? && leased.attempts == Find(db.spool, leased.id).value.attempts + 1
  {
    hide WellFormed, ClaimOldest, LeasesRow;
    ClaimKeeps(cfg, db, nowMs, leased);
    var claimed := ClaimOldest(cfg, db, nowMs).db;
    KeptOverRun(cfg, claimed, leased, ops);
    KeptIsFound(After(cfg, claimed, ops), leased);
  }

  lemma KeptIsFound(db: Db, leased: SpoolRow)
    requires KeptAs(db, leased)
    ensures Present(db, leased.id) ==> Find(db.spool, leased.id) == Some(leased)
  {
    if Present(db, leased.id) {
      var j :| 0 <= j < |db.spool| && db.spool[j] == Find(db.spool, leased.id).value;
    }
  }

  /**
    A claimant that dies loses nothing. Whatever happens after its claim, as long as no retry of its row is recorded, a
    surviving row with budget left goes to the first claim made once the lease has ended, or an older row does; and the
    row is ready for a claim exactly from that moment on.
   */
  lemma CrashedLeaseIsRecovered(cfg: Config, db: Db, nowMs: int, leased: SpoolRow, ops: seq<Op>, laterMs: int)
    requires WellFormed(db) && cfg.Valid() && 0 <= nowMs && ClaimGives(cfg, db, nowMs, leased)
    requires WithinLease(ops, leased.id, nowMs + cfg.inflightMs) && 0 <= laterMs
    requires Present(After(cfg, ClaimOldest(cfg, db, nowMs).db, ops), leased.id)
    ensures var end := After(cfg, ClaimOldest(cfg, db, nowMs).db, ops);
            var row := Find(end.spool, leased.id).value;
            && (Ready(row, laterMs, cfg.maxAttempts)
                <==> nowMs + cfg.inflightMs <= laterMs && leased.attempts < cfg.maxAttempts)
            && (nowMs + cfg.inflightMs <= laterMs && leased.attempts < cfg.maxAttempts ==>
                  var r := ClaimOldest(cfg, end, laterMs).result;
                  r.Ok? && r.value.Some? && (r.value.value.id == leased.id || Older(r.value.value, row)))
  {
    hide WellFormed, ClaimOldest, LeasesRow, Older, Leased, KeptAs;
    LeasedRowIsUnchanged(cfg, db, nowMs, leased, ops);
    var end := After(cfg, ClaimOldest(cfg, db, nowMs).db, ops);
    if nowMs + cfg.inflightMs <= laterMs && leased.attempts < cfg.maxAttempts {
      ReadyRowIsReached(cfg, end, leased.id, laterMs);
    }
  }

  // A ready row is claimed, or an older one is.
  lemma ReadyRowIsReached(cfg: Config, db: Db, id: nat, nowMs: int)
    requires WellFormed(db) && cfg.Valid() && 0 <= nowMs
    requires Present(db, id) && Ready(Find(db.spool, id).value, nowMs, cfg.maxAttempts)
    ensures var r := ClaimOldest(cfg, db, nowMs).result;
            r.Ok? && r.value.Some? && (r.value.value.id == id || Older(r.value.value, Find(db.spool, id).value))
  {
    var i :| 0 <= i < |db.spool| && db.spool[i] == Find(db.spool, id).value;
    ClaimLeasesOldest(cfg, db, nowMs);
    var k: nat :| LeasesRow(cfg, db, k, nowMs);
  }

  /** Batches are claimed in the order they were created, those created at the same time in the order they were queued. */
  lemma ClaimsFollowCreation(cfg: Config, db: Db, nowMs: int, leased: SpoolRow, other: SpoolRow)
    requires WellFormed(db) && ClaimGives(cfg, db, nowMs, leased)
    requires other in db.spool && other.nextAttemptMs <= nowMs && other.attempts < cfg.maxAttempts
    ensures leased.createdMs < other.createdMs || (leased.createdMs == other.createdMs && leased.id <= other.id)
  {
    hide WellFormed, Rescheduled;
  }

  // ---- A row whose budget is spent ----

  ghost predicate Spent(cfg: Config, db: Db, id: nat) {
    id < db.nextId && forall i :: 0 <= i < |db.spool| && db.spool[i].id == id ==> cfg.maxAttempts <= db.spool[i].attempts
  }

  // Operations that name `id`, and the pruning of the whole table.
  predicate Removes(op: Op, id: nat) {
    op.PruneOp? || (op.DeliveredOp? && op.id == id) || (op.DropOp? && op.id == id) || (op.RetryOp? && op.id == id)
  }

  /**
    A row whose last permitted claim was interrupted is never claimed again, and stays queued until it is pruned or
    completed, dropped or retried by id.
   */
  lemma {:induction false} SpentRowStays(cfg: Config, db: Db, id: nat, ops: seq<Op>)
    requires WellFormed(db) && Spent(cfg, db, id) && Present(db, id)
    requires forall k :: 0 <= k < |ops| ==> !Removes(ops[k], id)
    ensures var end := After(cfg, db, ops); WellFormed(end) && Spent(cfg, end, id) && Present(end, id)
    ensures Claims(Events(cfg, db, ops), id) == 0
  {
    if ops != [] {
      var n := |ops| - 1;
      SpentRowStays(cfg, db, id, ops[..n]);
      SpentStep(cfg, After(cfg, db, ops[..n]), ops[n], id);
      LastEvent(cfg, db, ops);
    }
  }

  lemma SpentStep(cfg: Config, db: Db, op: Op, id: nat)
    requires WellFormed(db) && Spent(cfg, db, id) && Present(db, id) && !Removes(op, id)
    ensures var (next, event) := Execute(cfg, db, op);
            WellFormed(next) && Spent(cfg, next, id) && Present(next, id) && !(event.Claimed? && event.batch.id == id)
  {
    var (next, event) := Execute(cfg, db, op);
    StepFollows(cfg, db, op);
    forall i | 0 <= i < |next.spool| && next.spool[i].id == id
      ensures cfg.maxAttempts <= next.spool[i].attempts
    {
      assert Stems(cfg, db, event, next.spool[i]);
      var j :| 0 <= j < |db.spool| && StemsFrom(cfg, event, db.spool[j], next.spool[i]);
    }
    SpentRowSurvives(cfg, db, op, id);
  }

  lemma SpentRowSurvives(cfg: Config, db: Db, op: Op, id: nat)
    requires WellFormed(db) && Spent(cfg, db, id) && Present(db, id) && !Removes(op, id)
    ensures var (next, event) := Execute(cfg, db, op);
            Present(next, id) && !(event.Claimed? && event.batch.id == id)
  {
    hide WellFormed, Spent;
    var (next, event) := Execute(cfg, db, op);
    if op.ClaimOp? {
      SpentRowIsNotClaimed(cfg, db, op.nowMs, id);
    }
    hide Execute;
    if event.Claimed? || event.Requeued? {
      RescheduledStaysPresent(cfg, db, op, id);
    } else {
      var row := Find(db.spool, id).value;
      UntouchedRowStays(cfg, db, op, row);
      assert row in next.spool;
    }
  }

  lemma RescheduledStaysPresent(cfg: Config, db: Db, op: Op, id: nat)
    requires Present(db, id)
    requires var event := Execute(cfg, db, op).1; event.Claimed? || event.Requeued?
    ensures Present(Execute(cfg, db, op).0, id)
  {
    hide OldestReady, RetryDelay, Saturated, Find, Prune, Integrate;
    StillPresent(db, Execute(cfg, db, op).0, id);
  }

  // An operation that reschedules nothing and does not name a row leaves it as it is.
  lemma UntouchedRowStays(cfg: Config, db: Db, op: Op, row: SpoolRow)
    requires row in db.spool && !Removes(op, row.id)
    requires var event := Execute(cfg, db, op).1; !event.Claimed? && !event.Requeued?
    ensures row in Execute(cfg, db, op).0.spool
  {
    hide Integrate, RetryDelay, Saturated, OldestReady, Rescheduled;
    if op.IntegrateOp? {
      IntegrateSparesSpool(cfg, db, op.device, op.power, op.sampleMs);
    }
  }

  lemma SpentRowIsNotClaimed(cfg: Config, db: Db, nowMs: int, id: nat)
    requires Spent(cfg, db, id)
    ensures var q := OldestReady(db.spool, nowMs, cfg.maxAttempts); q.Some? ==> q.value.id != id
  {
    var q := OldestReady(db.spool, nowMs, cfg.maxAttempts);
    if q.Some? {
      var i :| 0 <= i < |db.spool| && db.spool[i] == q.value;
    }
  }

  lemma StillPresent(db: Db, next: Db, id: nat)
    requires Present(db, id) && |next.spool| == |db.spool|
    requires forall i :: 0 <= i < |db.spool| ==> next.spool[i].id == db.spool[i].id
    ensures Present(next, id)
  {
    var k :| 0 <= k < |db.spool| && db.spool[k] == Find(db.spool, id).value;
    assert next.spool[k] in next.spool;
  }
}
