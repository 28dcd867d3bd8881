/**
  Delivering claimed batches and draining the spool, over arbitrary clocks, delivery results, storage failures and
  shutdown requests.
 */
module Delivery {
  import opened Wrappers
  import Database
  import Storage
  import SpoolRuns
  import Collectors
  import Health

  datatype Attempt = Accepted | Retryable | Permanent

  // What the world answers during one turn of the drain loop.
  datatype Turn = Turn(
    shutdownFirst: bool, shutdownAgain: bool,
    claimAt: int, claimFails: bool,
    attempt: Attempt, bookkeepingFails: bool, retryAt: int, wallMs: int)

  datatype DeliveryError = Io | Schema | Time(error: Collectors.PortError) | Store(reason: Database.StorageError)

  datatype DeliveryStatus = Delivered | Queued(attempts: nat) | Dropped(attempts: nat) | Failed(error: DeliveryError)

  datatype DrainResult = Empty | Drained(delivered: nat) | StoppedGracefully | Error(error: DeliveryError)

  // ---- What settling a claim does to the database ----

  function Completed(r: Database.Reply<bool>, ok: DeliveryStatus): (Database.Db, DeliveryStatus) {
    (r.db, match r.result case Ok(changed) => (if changed then ok else Failed(Io)) case Err(e) => Failed(Store(e)))
  }

  function Settle(cfg: Database.Config, budget: nat, db: Database.Db, claim: Database.SpoolRow, turn: Turn)
    : (Database.Db, DeliveryStatus)
  {
    if turn.bookkeepingFails then (db, Failed(Io))
    else match turn.attempt
      case Accepted => Completed(Database.MarkDelivered(db, claim.id, turn.wallMs), Delivered)
      case Permanent => Completed(Database.DropBatch(db, claim.id, turn.wallMs), Dropped(claim.attempts))
      case Retryable =>
        if claim.attempts >= budget then
          Completed(Database.DropBatch(db, claim.id, turn.wallMs), Dropped(claim.attempts))
        else match Collectors.TimeToMs(turn.retryAt)
          case Err(e) => (db, Failed(Time(e)))
          case Ok(now) =>
            var r := Database.RecordRetry(cfg, db, claim.id, now);
            (r.db, match r.result
                   case Ok(Retried(_, attempts)) => Queued(attempts)
                   case Ok(Dropped(attempts)) => Dropped(attempts)
                   case Err(e) => Failed(Store(e)))
  }

  // ---- The termination measure: claims still permitted ----

  function Left(maxAttempts: nat, r: Database.SpoolRow): nat {
    if r.attempts < maxAttempts then maxAttempts - r.attempts else 0
  }

  function Potential(maxAttempts: nat, rows: seq<Database.SpoolRow>): nat {
    if rows == [] then 0 else Left(maxAttempts, rows[0]) + Potential(maxAttempts, rows[1..])
  }

  lemma {:induction false} PotentialOfUpdate(maxAttempts: nat, rows: seq<Database.SpoolRow>, k: nat, r: Database.SpoolRow)
    requires k < |rows|
    ensures Potential(maxAttempts, rows[k := r])
            == Potential(maxAttempts, rows) - Left(maxAttempts, rows[k]) + Left(maxAttempts, r)
  {
    if k == 0 {
      assert rows[0 := r][1..] == rows[1..];
    } else {
      PotentialOfUpdate(maxAttempts, rows[1..], k - 1, r);
      assert rows[k := r][1..] == rows[1..][k - 1 := r];
    }
  }

  lemma {:induction false} PotentialOfWhere(maxAttempts: nat, rows: seq<Database.SpoolRow>, c: Database.Condition)
    ensures Potential(maxAttempts, Database.Where(rows, c)) <= Potential(maxAttempts, rows)
  {
    if rows != [] {
      PotentialOfWhere(maxAttempts, rows[1..], c);
      var kept := Database.Where(rows[1..], c);
      if Database.Holds(c, rows[0]) {
        assert ([rows[0]] + kept)[1..] == kept;
      } else {
        assert [] + kept == kept;
      }
    }
  }

  lemma {:induction false} PotentialOfRescheduled(maxAttempts: nat, rows: seq<Database.SpoolRow>, q: Database.SpoolRow,
                                                  nextMs: int)
    requires forall r <- rows :: r.id == q.id ==> r.attempts == q.attempts
    ensures Potential(maxAttempts, Database.Rescheduled(rows, q.id, q.attempts, nextMs)) == Potential(maxAttempts, rows)
  {
    if rows != [] {
      PotentialOfRescheduled(maxAttempts, rows[1..], q, nextMs);
      assert Database.Rescheduled(rows, q.id, q.attempts, nextMs)[1..]
          == Database.Rescheduled(rows[1..], q.id, q.attempts, nextMs);
    }
  }

  lemma ClaimKeepsTable(cfg: Database.Config, db: Database.Db, nowMs: int)
    requires SpoolRuns.WellFormed(db)
    ensures SpoolRuns.WellFormed(Database.ClaimOldest(cfg, db, nowMs).db)
  {
    hide SpoolRuns.WellFormed, SpoolRuns.Accounts, SpoolRuns.Stems;
    SpoolRuns.StepFollows(cfg, db, SpoolRuns.ClaimOp(nowMs));
  }

  /** Every claim spends exactly one unit of the potential. */
  lemma ClaimSpendsOne(cfg: Database.Config, db: Database.Db, nowMs: int)
    requires SpoolRuns.WellFormed(db) && cfg.Valid() && 0 <= nowMs
    ensures var r := Database.ClaimOldest(cfg, db, nowMs);
            && r.result.Ok? && SpoolRuns.WellFormed(r.db) && r.db == db.(spool := r.db.spool) && |r.db.spool| == |db.spool|
            && Potential(cfg.maxAttempts, r.db.spool) + (if r.result.value.Some? then 1 else 0)
               == Potential(cfg.maxAttempts, db.spool)
            && (r.result.value.Some? ==>
                  r.result.value.value in r.db.spool && r.result.value.value.attempts <= cfg.maxAttempts)
  {
    hide Potential, SpoolRuns.WellFormed;
    ClaimKeepsTable(cfg, db, nowMs);
    SpoolRuns.ClaimLeasesOldest(cfg, db, nowMs);
    if exists k: nat :: SpoolRuns.LeasesRow(cfg, db, k, nowMs) {
      var k: nat :| SpoolRuns.LeasesRow(cfg, db, k, nowMs);
      PotentialOfUpdate(cfg.maxAttempts, db.spool, k, SpoolRuns.Leased(cfg, db.spool[k], nowMs));
      var leased := db.spool[k := SpoolRuns.Leased(cfg, db.spool[k], nowMs)];
      assert leased[k] in leased;
    }
  }

  // The row left the table or stayed, and one counter moved, as the status says; a failure changed nothing.
  ghost predicate Settled(cfg: Database.Config, db: Database.Db, id: nat, next: Database.Db, status: DeliveryStatus) {
    && SpoolRuns.WellFormed(next)
    && Potential(cfg.maxAttempts, next.spool) <= Potential(cfg.maxAttempts, db.spool)
    && next == db.(spool := next.spool,
                   deliveredTotal := db.deliveredTotal + (if status.Delivered? then 1 else 0),
                   droppedTotal := db.droppedTotal + (if status.Dropped? then 1 else 0))
    && |next.spool| == |db.spool| - (if status.Delivered? || status.Dropped? then 1 else 0)
    && (status.Delivered? || status.Dropped? ==> !SpoolRuns.Present(next, id))
    && (status.Failed? ==> next == db)
  }

  lemma FailureSettles(cfg: Database.Config, db: Database.Db, id: nat, error: DeliveryError)
    requires SpoolRuns.WellFormed(db)
    ensures Settled(cfg, db, id, db, Failed(error))
  {
  }

  lemma DeletionSettles(cfg: Database.Config, db: Database.Db, id: nat, next: Database.Db, status: DeliveryStatus)
    requires SpoolRuns.WellFormed(db) && SpoolRuns.Present(db, id) && (status.Delivered? || status.Dropped?)
    requires next == db.(spool := Database.Where(db.spool, Database.OtherThan(id)),
                         deliveredTotal := db.deliveredTotal + (if status.Delivered? then 1 else 0),
                         droppedTotal := db.droppedTotal + (if status.Dropped? then 1 else 0))
    ensures Settled(cfg, db, id, next, status)
  {
    DeletedRow(cfg, db, next, id);
    hide Potential, SpoolRuns.WellFormed, SpoolRuns.Present;
  }

  lemma RetrySettles(cfg: Database.Config, db: Database.Db, claim: Database.SpoolRow, nextMs: int)
    requires SpoolRuns.WellFormed(db) && claim in db.spool
    ensures Settled(cfg, db, claim.id,
                    db.(spool := Database.Rescheduled(db.spool, claim.id, claim.attempts, nextMs)), Queued(claim.attempts))
  {
    RequeuedRow(cfg, db, claim, nextMs);
    hide Potential, SpoolRuns.WellFormed;
  }

  /** Settling a claim does what its status says, and never adds potential. */
  lemma SettleIsWhatItSays(cfg: Database.Config, budget: nat, db: Database.Db, claim: Database.SpoolRow, turn: Turn)
    requires SpoolRuns.WellFormed(db) && cfg.Valid() && claim in db.spool
    ensures var (next, status) := Settle(cfg, budget, db, claim, turn); Settled(cfg, db, claim.id, next, status)
  {
    hide Settled, SpoolRuns.WellFormed, Database.RetryDelay, Database.Saturated;
    FoundIsClaim(db, claim);
    var (next, status) := Settle(cfg, budget, db, claim, turn);
    match status {
      case Failed(e) => FailureSettles(cfg, db, claim.id, e);
      case Delivered => DeletionSettles(cfg, db, claim.id, next, status);
      case Dropped(_) => DeletionSettles(cfg, db, claim.id, next, status);
      case Queued(_) =>
        var now := Collectors.TimeToMs(turn.retryAt).value;
        RetrySettles(cfg, db, claim, Database.Saturated(now + Database.RetryDelay(cfg, claim.attempts)));
    }
  }

  lemma FoundIsClaim(db: Database.Db, claim: Database.SpoolRow)
    requires SpoolRuns.WellFormed(db) && claim in db.spool
    ensures Database.Find(db.spool, claim.id) == Some(claim)
    ensures forall r <- db.spool :: r.id == claim.id ==> r == claim
  {
    var i :| 0 <= i < |db.spool| && db.spool[i] == claim;
    forall r | r in db.spool && r.id == claim.id
      ensures r == claim
    {
      var j :| 0 <= j < |db.spool| && db.spool[j] == r;
      assert j == i;
    }
  }

  // When a row retried at `nowMs` is due again.
  function DueAgain(cfg: Database.Config, nowMs: int, attempts: nat): int {
    Database.Min(nowMs + Database.RetryDelay(cfg, attempts), Database.I64_MAX)
  }

  // Row `claim` is still there with its attempts, due later than `nowMs`; every other row is as it was.
  ghost predicate PutBack(cfg: Database.Config, db: Database.Db, next: Database.Db, claim: Database.SpoolRow, nowMs: int) {
    && |next.spool| == |db.spool|
    && (nowMs < DueAgain(cfg, nowMs, claim.attempts) || nowMs == Database.I64_MAX)
    && forall i :: 0 <= i < |db.spool| ==>
         next.spool[i] == if db.spool[i].id == claim.id then claim.(nextAttemptMs := DueAgain(cfg, nowMs, claim.attempts))
                          else db.spool[i]
  }

  /**
    What becomes of a claim is decided by its attempt. Only an accepted one is reported delivered; it is dropped only when
    it was refused for good or its attempts are spent; and a retryable one with attempts left goes back to the queue.
   */
  lemma StatusFollowsAttempt(cfg: Database.Config, budget: nat, db: Database.Db, claim: Database.SpoolRow, turn: Turn)
    requires SpoolRuns.WellFormed(db) && cfg.Valid() && claim in db.spool
    ensures var (next, status) := Settle(cfg, budget, db, claim, turn);
            var retryAt := Collectors.TimeToMs(turn.retryAt);
            var settles := !turn.bookkeepingFails;
            var spent := claim.attempts >= budget || (claim.attempts >= cfg.maxAttempts && retryAt.Ok?);
            && (status.Delivered? <==> settles && turn.attempt.Accepted? && 0 < turn.wallMs)
            && (status.Dropped? ==> settles && (turn.attempt.Permanent? || (turn.attempt.Retryable? && spent)))
            && (settles && 0 < turn.wallMs && (turn.attempt.Permanent? || (turn.attempt.Retryable? && spent)) ==>
                  status == Dropped(claim.attempts))
            && (status.Queued? <==> settles && turn.attempt.Retryable? && !spent && retryAt.Ok?)
            && (status.Queued? ==>
                  status.attempts == claim.attempts && PutBack(cfg, db, next, claim, retryAt.value))
  {
    hide SpoolRuns.WellFormed, Database.RetryDelay;
    FoundIsClaim(db, claim);
    if Collectors.TimeToMs(turn.retryAt).Ok? {
      DelayIsPositive(cfg, claim.attempts);
    }
  }

  // ---- The backoff ----

  // The longest a retry waits.
  function Ceiling(cfg: Database.Config): int {
    Database.Min(Database.I64_MAX, cfg.retryMaxMs)
  }

  lemma DelayIsPositive(cfg: Database.Config, attempts: nat)
    requires cfg.Valid()
    ensures 0 < Database.RetryDelay(cfg, attempts) <= cfg.retryMaxMs
  {
    var exponent := Database.Min(if attempts == 0 then 0 else attempts - 1, 20);
    PowerIsPositive(exponent);
    AtLeastBase(cfg.retryBaseMs, Database.Power2(exponent));
  }

  lemma {:induction false} PowerIsPositive(n: nat)
    ensures Database.Power2(n) >= 1
  {
    if n > 0 {
      PowerIsPositive(n - 1);
    }
  }

  lemma AtLeastBase(base: int, power: nat)
    requires 0 < base && 1 <= power
    ensures base <= base * power
  {
  }

  /** The first retry waits for the base, each further one twice as long, up to the ceiling and to the twenty-first. */
  lemma BackoffDoubles(cfg: Database.Config, attempts: nat)
    requires cfg.Valid()
    ensures Database.RetryDelay(cfg, 0) == Database.RetryDelay(cfg, 1) == Database.Min(cfg.retryBaseMs, Ceiling(cfg))
    ensures 1 <= attempts <= 20 ==>
              Database.RetryDelay(cfg, attempts + 1) == Database.Min(2 * Database.RetryDelay(cfg, attempts), Ceiling(cfg))
    ensures 21 <= attempts ==> Database.RetryDelay(cfg, attempts) == Database.RetryDelay(cfg, 21)
  {
    assert Database.Power2(0) == 1;
    if 1 <= attempts <= 20 {
      assert Database.Power2(attempts) == 2 * Database.Power2(attempts - 1);
      PowerIsPositive(attempts - 1);
      DoubledDelay(cfg, attempts, Database.Power2(attempts - 1));
    }
  }

  lemma DoubledDelay(cfg: Database.Config, attempts: nat, power: nat)
    requires cfg.Valid() && 1 <= attempts <= 20 && 1 <= power
    requires Database.Power2(attempts - 1) == power && Database.Power2(attempts) == 2 * power
    ensures Database.RetryDelay(cfg, attempts + 1) == Database.Min(2 * Database.RetryDelay(cfg, attempts), Ceiling(cfg))
  {
    hide Database.Power2;
    AtLeastBase(cfg.retryBaseMs, power);
    assert cfg.retryBaseMs * (2 * power) == 2 * (cfg.retryBaseMs * power);
  }

  // What deleting row `id` does, whichever counter it moves.
  ghost predicate Deletes(cfg: Database.Config, db: Database.Db, next: Database.Db, id: nat) {
    && SpoolRuns.WellFormed(next) && !SpoolRuns.Present(next, id) && |next.spool| == |db.spool| - 1
    && Potential(cfg.maxAttempts, next.spool) <= Potential(cfg.maxAttempts, db.spool)
  }

  lemma DeletedRow(cfg: Database.Config, db: Database.Db, next: Database.Db, id: nat)
    requires SpoolRuns.WellFormed(db) && SpoolRuns.Present(db, id)
    requires next.spool == Database.Where(db.spool, Database.OtherThan(id)) && next.nextId == db.nextId
    ensures Deletes(cfg, db, next, id)
  {
    SpoolRuns.WhereKeepsOrder(db.spool, Database.OtherThan(id));
    SpoolRuns.DeletesOne(db.spool, id);
    SpoolRuns.SubtableIsWellFormed(db, next);
    PotentialOfWhere(cfg.maxAttempts, db.spool, Database.OtherThan(id));
    hide Potential, SpoolRuns.WellFormed;
  }

  lemma RequeuedRow(cfg: Database.Config, db: Database.Db, claim: Database.SpoolRow, nextMs: int)
    requires SpoolRuns.WellFormed(db) && claim in db.spool
    ensures var rows := Database.Rescheduled(db.spool, claim.id, claim.attempts, nextMs);
            && SpoolRuns.WellFormed(db.(spool := rows)) && |rows| == |db.spool|
            && Potential(cfg.maxAttempts, rows) == Potential(cfg.maxAttempts, db.spool)
  {
    hide Potential, SpoolRuns.WellFormed, SpoolRuns.Stems;
    FoundIsClaim(db, claim);
    PotentialOfRescheduled(cfg.maxAttempts, db.spool, claim, nextMs);
    SpoolRuns.RescheduleFollows(cfg, db, claim, claim.attempts, nextMs, SpoolRuns.Requeued(claim.id));
  }

  // ---- What a drain counts ----

  // The batch was accepted and its completion recorded.
  predicate Completes(turn: Turn) {
    turn.attempt.Accepted? && !turn.bookkeepingFails && 0 < turn.wallMs
  }

  // How many of the first `n` turns complete a batch.
  function Completions(world: nat -> Turn, n: nat): nat {
    if n == 0 then 0 else Completions(world, n - 1) + if Completes(world(n - 1)) then 1 else 0
  }

  // How many of the first `n` turns have their batch accepted.
  function Acceptances(world: nat -> Turn, n: nat): (accepted: nat)
    ensures accepted <= n
  {
    if n == 0 then 0 else Acceptances(world, n - 1) + if world(n - 1).attempt.Accepted? then 1 else 0
  }

  /** No batch is completed without being accepted; where nothing is accepted, nothing is completed. */
  lemma {:induction false} CompletedAreAccepted(world: nat -> Turn, n: nat)
    ensures Completions(world, n) <= Acceptances(world, n)
    ensures (forall k :: 0 <= k < n ==> !world(k).attempt.Accepted?) ==> Completions(world, n) == Acceptances(world, n) == 0
  {
    if n > 0 {
      CompletedAreAccepted(world, n - 1);
    }
  }

  // ---- The service side ----

  class Courier {
    const store: Storage.Store
    const health: Health.Counters
    // The service's own view of the lease length and the attempt budget.
    const claimTtlMs: int
    const budget: nat

    constructor (store: Storage.Store, health: Health.Counters, claimTtlMs: int, budget: nat)
      ensures this.store == store && this.health == health && this.claimTtlMs == claimTtlMs && this.budget == budget
    {
      this.store, this.health, this.claimTtlMs, this.budget := store, health, claimTtlMs, budget;
    }

    method ClaimNext(turn: Turn) returns (r: Result<Option<Database.SpoolRow>, DeliveryError>)
      modifies store`spool
      ensures match Collectors.TimeToMs(turn.claimAt)
              case Ok(now) =>
                if turn.claimFails || claimTtlMs != store.cfg.inflightMs then
                  r.Err? && store.Snapshot() == old(store.Snapshot())
                else
                  var reply := Database.ClaimOldest(store.cfg, old(store.Snapshot()), now);
                  && store.Snapshot() == reply.db
                  && (reply.result.Ok? ==> r == Ok(reply.result.value)) && (reply.result.Err? ==> r.Err?)
              case Err(_) => r.Err? && store.Snapshot() == old(store.Snapshot())
    {
      var now := Collectors.TimeToMs(turn.claimAt);
      if now.Err? {
        return Err(Time(now.error));
      }
      if claimTtlMs != store.cfg.inflightMs {
        return Err(Schema);
      }
      if turn.claimFails {
        return Err(Io);
      }
      var claimed := store.ClaimOldestBatch(now.value);
      r := match claimed case Ok(batch) => Ok(batch) case Err(e) => Err(Store(e));
    }

    method DropClaim(claim: Database.SpoolRow, turn: Turn) returns (status: DeliveryStatus)
      requires !turn.bookkeepingFails
      modifies store`spool, store`droppedTotal, health
      ensures (store.Snapshot(), status)
              == Completed(Database.DropBatch(old(store.Snapshot()), claim.id, turn.wallMs), Dropped(claim.attempts))
      ensures health.snapshot
              == old(health.snapshot).(spoolDropped := old(health.snapshot).spoolDropped + if status.Dropped? then 1 else 0)
    {
      var changed := store.DropSpoolBatch(claim.id, turn.wallMs);
      if changed.Err? {
        return Failed(Store(changed.error));
      }
      if !changed.value {
        return Failed(Io);
      }
      health.RecordSpoolDropped();
      status := Dropped(claim.attempts);
    }

    method DeliverClaim(claim: Database.SpoolRow, turn: Turn) returns (status: DeliveryStatus)
      modifies store`spool, store`deliveredTotal, store`droppedTotal, health
      ensures (store.Snapshot(), status) == Settle(store.cfg, budget, old(store.Snapshot()), claim, turn)
      ensures health.snapshot
              == old(health.snapshot).(
                   deliveriesSucceeded := old(health.snapshot).deliveriesSucceeded + if turn.attempt.Accepted? then 1 else 0,
                   deliveriesFailed := old(health.snapshot).deliveriesFailed + if turn.attempt.Accepted? then 0 else 1,
                   spoolDropped := old(health.snapshot).spoolDropped + if status.Dropped? then 1 else 0)
    {
      if turn.attempt.Accepted? {
        health.RecordDelivery(true);
        if turn.bookkeepingFails {
          return Failed(Io);
        }
        var changed := store.MarkBatchDelivered(claim.id, turn.wallMs);
        return match changed case Ok(done) => (if done then Delivered else Failed(Io)) case Err(e) => Failed(Store(e));
      }
      health.RecordDelivery(false);
      if turn.bookkeepingFails {
        return Failed(Io);
      }
      if turn.attempt.Permanent? || claim.attempts >= budget {
        status := DropClaim(claim, turn);
        return;
      }
      var now := Collectors.TimeToMs(turn.retryAt);
      if now.Err? {
        return Failed(Time(now.error));
      }
      var retried := store.RecordBatchRetry(claim.id, now.value);
      if retried.Err? {
        return Failed(Store(retried.error));
      }
      if retried.value.Dropped? {
        health.RecordSpoolDropped();
        return Dropped(retried.value.attempts);
      }
      status := Queued(retried.value.attempts);
    }

    /** One claim and its delivery: the next due row is settled as its attempt says, or nothing changes. */
    method DrainOne(turn: Turn) returns (r: Result<Option<DeliveryStatus>, DeliveryError>)
      requires SpoolRuns.WellFormed(store.Snapshot()) && store.cfg.Valid()
      modifies store`spool, store`deliveredTotal, store`droppedTotal, health
      ensures SpoolRuns.WellFormed(store.Snapshot())
      ensures r == Ok(None) || r.Err? ==> store.Snapshot() == old(store.Snapshot()) && health.snapshot == old(health.snapshot)
      ensures r == Ok(None) ==>
                Collectors.TimeToMs(turn.claimAt).Ok? &&
                forall q <- store.spool :: !Database.Ready(q, Collectors.TimeToMs(turn.claimAt).value, store.cfg.maxAttempts)
      ensures r.Ok? && r.value.Some? ==> Moved(turn, r.value.value, old(store.Snapshot()), old(health.snapshot))
    {
      hide Settle, Database.ClaimOldest, SpoolRuns.WellFormed, Potential, Database.Ready, PutBack, Settled;
      ghost var before := store.Snapshot();
      var claim := ClaimNext(turn);
      if Collectors.TimeToMs(turn.claimAt).Ok? {
        ClaimSpendsOne(store.cfg, before, Collectors.TimeToMs(turn.claimAt).value);
        ClaimRefused(store.cfg, before, Collectors.TimeToMs(turn.claimAt).value);
      }
      if claim.Err? {
        return Err(claim.error);
      }
      if claim.value.None? {
        NothingDue(store.cfg, before, Collectors.TimeToMs(turn.claimAt).value);
        return Ok(None);
      }
      ghost var leased := store.Snapshot();
      SettleIsWhatItSays(store.cfg, budget, leased, claim.value.value, turn);
      StatusFollowsAttempt(store.cfg, budget, leased, claim.value.value, turn);
      var status := DeliverClaim(claim.value.value, turn);
      SettledMoves(store.cfg, leased, claim.value.value.id, store.Snapshot(), status);
      r := Ok(Some(status));
    }

    // What a settled claim moves, by its status and its attempt.
    ghost predicate Moved(turn: Turn, status: DeliveryStatus, db: Database.Db, h: Health.Snapshot)
      reads store, health
    {
      && Potential(store.cfg.maxAttempts, store.spool) < Potential(store.cfg.maxAttempts, db.spool)
      && (status.Delivered? <==> Completes(turn))
      && store.deliveredTotal == db.deliveredTotal + (if status.Delivered? then 1 else 0)
      && store.droppedTotal == db.droppedTotal + (if status.Dropped? then 1 else 0)
      && |store.spool| == |db.spool| - (if status.Delivered? || status.Dropped? then 1 else 0)
      && health.snapshot.deliveriesSucceeded == h.deliveriesSucceeded + (if turn.attempt.Accepted? then 1 else 0)
      && health.snapshot.deliveriesFailed == h.deliveriesFailed + (if turn.attempt.Accepted? then 0 else 1)
      && health.snapshot.spoolDropped == h.spoolDropped + (if status.Dropped? then 1 else 0)
    }

    /**
      Drains the spool. Whatever the world answers, it ends after at most as many claims as the queued rows have
      attempts left; the delivered figure counts exactly the claims whose batch was accepted and whose completion was
      recorded; and what left the table was delivered or dropped.
     */
    method DrainSpool(world: nat -> Turn) returns (result: DrainResult, delivered: nat, claims: nat)
      requires SpoolRuns.WellFormed(store.Snapshot()) && store.cfg.Valid()
      modifies store`spool, store`deliveredTotal, store`droppedTotal, health
      ensures SpoolRuns.WellFormed(store.Snapshot())
      ensures claims + Potential(store.cfg.maxAttempts, store.spool) <= old(Potential(store.cfg.maxAttempts, store.spool))
      ensures store.deliveredTotal == old(store.deliveredTotal) + delivered && delivered == Completions(world, claims)
      ensures store.droppedTotal - old(store.droppedTotal) == health.snapshot.spoolDropped - old(health.snapshot.spoolDropped)
      ensures health.snapshot.deliveriesSucceeded == old(health.snapshot.deliveriesSucceeded) + Acceptances(world, claims)
      ensures health.snapshot.deliveriesFailed == old(health.snapshot.deliveriesFailed) + claims - Acceptances(world, claims)
      ensures |store.spool| + store.deliveredTotal + store.droppedTotal
              == old(|store.spool| + store.deliveredTotal + store.droppedTotal)
      ensures result.Drained? ==> result.delivered == delivered > 0
      ensures result.Empty? ==> delivered == 0
      ensures result.Empty? || result.Drained? ==>
                && Collectors.TimeToMs(world(claims).claimAt).Ok?
                && forall r <- store.spool ::
                     !Database.Ready(r, Collectors.TimeToMs(world(claims).claimAt).value, store.cfg.maxAttempts)
    {
      hide SpoolRuns.WellFormed, Potential, Database.Ready, Completes, Collectors.TimeToMs;
      delivered, claims := 0, 0;
      while true
        invariant SpoolRuns.WellFormed(store.Snapshot())
        invariant claims + Potential(store.cfg.maxAttempts, store.spool) <= old(Potential(store.cfg.maxAttempts, store.spool))
        invariant store.deliveredTotal == old(store.deliveredTotal) + delivered && delivered == Completions(world, claims)
        invariant store.droppedTotal - old(store.droppedTotal) == health.snapshot.spoolDropped - old(health.snapshot.spoolDropped)
        invariant health.snapshot.deliveriesSucceeded == old(health.snapshot.deliveriesSucceeded) + Acceptances(world, claims)
        invariant health.snapshot.deliveriesFailed == old(health.snapshot.deliveriesFailed) + claims - Acceptances(world, claims)
        invariant |store.spool| + store.deliveredTotal + store.droppedTotal
                  == old(|store.spool| + store.deliveredTotal + store.droppedTotal)
        decreases Potential(store.cfg.maxAttempts, store.spool)
      {
        var turn := world(claims);
        if turn.shutdownFirst {
          result := StoppedGracefully;
          return;
        }
        if turn.shutdownAgain {
          result := StoppedGracefully;
          return;
        }
        var step := DrainOne(turn);
        if step.Err? {
          result := Error(step.error);
          return;
        }
        if step.value.None? {
          result := if delivered > 0 then Drained(delivered) else Empty;
          return;
        }
        claims := claims + 1;
        match step.value.value {
          case Delivered => delivered := delivered + 1;
          case Queued(_) =>
          case Dropped(_) =>
          case Failed(e) =>
            result := Error(e);
            return;
        }
      }
    }
  }

  // A claim that fails changes nothing.
  lemma ClaimRefused(cfg: Database.Config, db: Database.Db, nowMs: int)
    ensures Database.ClaimOldest(cfg, db, nowMs).result.Err? ==> Database.ClaimOldest(cfg, db, nowMs).db == db
  {
  }

  lemma SettledMoves(cfg: Database.Config, db: Database.Db, id: nat, next: Database.Db, status: DeliveryStatus)
    requires Settled(cfg, db, id, next, status)
    ensures Potential(cfg.maxAttempts, next.spool) <= Potential(cfg.maxAttempts, db.spool) && SpoolRuns.WellFormed(next)
    ensures next.deliveredTotal == db.deliveredTotal + (if status.Delivered? then 1 else 0)
    ensures next.droppedTotal == db.droppedTotal + (if status.Dropped? then 1 else 0)
    ensures |next.spool| == |db.spool| - (if status.Delivered? || status.Dropped? then 1 else 0)
  {
  }

  lemma NothingDue(cfg: Database.Config, db: Database.Db, nowMs: int)
    requires Database.ClaimOldest(cfg, db, nowMs).result == Ok(None)
    ensures Database.ClaimOldest(cfg, db, nowMs).db == db
    ensures forall r <- db.spool :: !Database.Ready(r, nowMs, cfg.maxAttempts)
  {
  }
}
