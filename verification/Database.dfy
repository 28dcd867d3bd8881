/**
  The durable state as a value, and every storage transaction as a function from one state to the next.
  A transaction that fails leaves the state as it was. Times are Unix milliseconds.
 */
module Database {
  import opened Wrappers
  import opened Bytes

  datatype EnergyRow = EnergyRow(totalKwh: real, lastPower: Option<real>, lastSampleMs: Option<int>)

  datatype SpoolRow = SpoolRow(id: nat, device: string, createdMs: int, payload: seq<Byte>, attempts: nat, nextAttemptMs: int)

  datatype Config = Config(
    maxAttempts: nat, inflightMs: int, retryBaseMs: int, retryMaxMs: int, maxBatches: nat, maxAgeMs: int,
    gapThresholdMs: int, minPower: real, maxPower: Option<real>)
  {
    predicate Valid() {
      && 1 <= maxAttempts
      && 0 < inflightMs && 0 < retryBaseMs <= retryMaxMs
      && 1 <= maxBatches <= I64_MAX && 0 < maxAgeMs
      && 0 < gapThresholdMs && (maxPower.Some? ==> minPower < maxPower.value)
    }
  }

  const I64_MAX: int := 0x7fff_ffff_ffff_ffff
  const I64_MIN: int := -0x8000_0000_0000_0000
  const MAX_ENERGY_KWH: real := 1_000_000_000.0

  // The tables; `nextId` is the AUTOINCREMENT sequence of `spool_batch`.
  datatype Db = Db(
    energy: map<string, EnergyRow>, lastSuccess: map<string, int>,
    spool: seq<SpoolRow>, nextId: nat, deliveredTotal: nat, droppedTotal: nat)

  const EMPTY: Db := Db(map[], map[], [], 1, 0, 0)

  datatype StorageError = InvalidArgument | Inconsistent | EnergyAnchorConflict | ConstraintViolation

  datatype Reply<+T> = Reply(db: Db, result: Result<T, StorageError>)

  // ---- Selecting and deleting spool rows ----

  // The WHERE clauses the spool uses.
  datatype Condition =
    | OtherThan(id: nat)
    | CreatedFrom(cutoffMs: int)
    | AttemptsBelow(bound: nat)
    | IdAmong(ids: set<nat>)

  predicate Holds(c: Condition, r: SpoolRow) {
    match c
    case OtherThan(id) => r.id != id
    case CreatedFrom(cutoff) => cutoff <= r.createdMs
    case AttemptsBelow(bound) => r.attempts < bound
    case IdAmong(ids) => r.id in ids
  }

  function Where(rows: seq<SpoolRow>, c: Condition): (kept: seq<SpoolRow>)
    ensures forall r :: r in kept <==> r in rows && Holds(c, r)
  {
    if rows == [] then []
    else (if Holds(c, rows[0]) then [rows[0]] else []) + Where(rows[1..], c)
  }

  function Find(rows: seq<SpoolRow>, id: nat): (found: Option<SpoolRow>)
    ensures found.Some? ==> found.value in rows && found.value.id == id
    ensures found.None? ==> forall r <- rows :: r.id != id
  {
    if rows == [] then None
    else if rows[0].id == id then Some(rows[0])
    else Find(rows[1..], id)
  }

  // UPDATE spool_batch SET attempts, next_attempt_at_ms WHERE id.
  function Rescheduled(rows: seq<SpoolRow>, id: nat, attempts: nat, nextMs: int): (updated: seq<SpoolRow>)
    ensures |updated| == |rows|
    ensures forall i :: 0 <= i < |rows| ==>
              updated[i] == if rows[i].id == id then rows[i].(attempts := attempts, nextAttemptMs := nextMs) else rows[i]
  {
    if rows == [] then []
    else
      [if rows[0].id == id then rows[0].(attempts := attempts, nextAttemptMs := nextMs) else rows[0]]
      + Rescheduled(rows[1..], id, attempts, nextMs)
  }

  // Delivery order: creation time, then id.
  predicate Older(a: SpoolRow, b: SpoolRow) {
    a.createdMs < b.createdMs || (a.createdMs == b.createdMs && a.id < b.id)
  }

  predicate Ready(r: SpoolRow, nowMs: int, maxAttempts: nat) {
    r.nextAttemptMs <= nowMs && r.attempts < maxAttempts
  }

  function OldestReady(rows: seq<SpoolRow>, nowMs: int, maxAttempts: nat): (oldest: Option<SpoolRow>)
    ensures oldest.Some? ==>
              && oldest.value in rows && Ready(oldest.value, nowMs, maxAttempts)
              && forall r <- rows :: Ready(r, nowMs, maxAttempts) ==> !Older(r, oldest.value)
    ensures oldest.None? ==> forall r <- rows :: !Ready(r, nowMs, maxAttempts)
  {
    if rows == [] then None
    else
      var rest := OldestReady(rows[1..], nowMs, maxAttempts);
      if !Ready(rows[0], nowMs, maxAttempts) then rest
      else if rest.Some? && Older(rest.value, rows[0]) then rest
      else Some(rows[0])
  }

  // ---- ORDER BY created_at_ms DESC, id DESC ----

  function InsertNewest(r: SpoolRow, sorted: seq<SpoolRow>): seq<SpoolRow> {
    if sorted == [] || Older(sorted[0], r) then [r] + sorted
    else [sorted[0]] + InsertNewest(r, sorted[1..])
  }

  function NewestFirst(rows: seq<SpoolRow>): seq<SpoolRow> {
    if rows == [] then [] else InsertNewest(rows[0], NewestFirst(rows[1..]))
  }

  function Ids(rows: seq<SpoolRow>): (ids: set<nat>) {
    set r <- rows :: r.id
  }

  // DELETE the rows after the first `limit` in that order.
  function KeepNewest(rows: seq<SpoolRow>, limit: nat): seq<SpoolRow> {
    var sorted := NewestFirst(rows);
    if |sorted| <= limit then rows else Where(rows, IdAmong(Ids(sorted[..limit])))
  }

  // ---- Spool transactions ----

  function Enqueue(db: Db, device: string, payload: seq<Byte>, nowMs: int): Reply<nat> {
    if device == "" || payload == [] || nowMs <= 0 then Reply(db, Err(InvalidArgument))
    else
      Reply(db.(spool := db.spool + [SpoolRow(db.nextId, device, nowMs, payload, 0, nowMs)], nextId := db.nextId + 1),
            Ok(db.nextId))
  }

  function ClaimOldest(cfg: Config, db: Db, nowMs: int): Reply<Option<SpoolRow>> {
    match OldestReady(db.spool, nowMs, cfg.maxAttempts)
    case None => Reply(db, Ok(None))
    case Some(r) =>
      var next := nowMs + cfg.inflightMs;
      if next < 0 then Reply(db, Err(ConstraintViolation))
      else
        Reply(db.(spool := Rescheduled(db.spool, r.id, r.attempts + 1, next)),
              Ok(Some(r.(attempts := r.attempts + 1, nextAttemptMs := next))))
  }

  function MarkDelivered(db: Db, id: nat, nowMs: int): Reply<bool> {
    if Find(db.spool, id).None? then Reply(db, Ok(false))
    else if nowMs <= 0 then Reply(db, Err(InvalidArgument))
    else Reply(db.(spool := Where(db.spool, OtherThan(id)), deliveredTotal := db.deliveredTotal + 1), Ok(true))
  }

  function DropBatch(db: Db, id: nat, nowMs: int): Reply<bool> {
    if Find(db.spool, id).None? then Reply(db, Ok(false))
    else if nowMs <= 0 then Reply(db, Err(InvalidArgument))
    else Reply(db.(spool := Where(db.spool, OtherThan(id)), droppedTotal := db.droppedTotal + 1), Ok(true))
  }

  datatype RetryOutcome = Retried(nextAttemptMs: int, attempts: nat) | Dropped(attempts: nat)

  function Min(a: int, b: int): int {
    if a <= b then a else b
  }

  function Saturated(n: int): int {
    if n > I64_MAX then I64_MAX else if n < I64_MIN then I64_MIN else n
  }

  function Power2(n: nat): nat {
    if n == 0 then 1 else 2 * Power2(n - 1)
  }

  // base * 2^(attempts - 1), the exponent capped at 20 and the product at the configured ceiling.
  function RetryDelay(cfg: Config, attempts: nat): int {
    var exponent := Min(if attempts == 0 then 0 else attempts - 1, 20);
    Min(Saturated(cfg.retryBaseMs * Power2(exponent)), cfg.retryMaxMs)
  }

  function RecordRetry(cfg: Config, db: Db, id: nat, nowMs: int): Reply<RetryOutcome> {
    match Find(db.spool, id)
    case None => Reply(db, Err(Inconsistent))
    case Some(r) =>
      if r.attempts >= cfg.maxAttempts then
        if nowMs <= 0 then Reply(db, Err(InvalidArgument))
        else
          Reply(db.(spool := Where(db.spool, OtherThan(id)), droppedTotal := db.droppedTotal + 1), Ok(Dropped(r.attempts)))
      else
        var next := Saturated(nowMs + RetryDelay(cfg, r.attempts));
        if next < 0 then Reply(db, Err(ConstraintViolation))
        else Reply(db.(spool := Rescheduled(db.spool, id, r.attempts, next)), Ok(Retried(next, r.attempts)))
  }

  datatype PruneStats = PruneStats(removed: int, remaining: nat)

  function Prune(cfg: Config, db: Db, nowMs: int): Reply<PruneStats> {
    var young := Where(db.spool, CreatedFrom(Saturated(nowMs - cfg.maxAgeMs)));
    var live := Where(young, AttemptsBelow(cfg.maxAttempts));
    var kept := KeepNewest(live, cfg.maxBatches);
    var removed := (|db.spool| - |young|) + (|young| - |live|) + (|live| - |kept|);
    Reply(db.(spool := kept), Ok(PruneStats(removed, |kept|)))
  }

  // ---- The acquisition commit ----

  datatype Commit = Commit(
    device: string, observedMs: int, expected: Option<EnergyRow>, next: EnergyRow, payload: seq<Byte>)

  datatype CommitOutcome = Committed(batchId: nat) | AlreadyCommitted

  predicate ValidEnergy(e: EnergyRow, observedMs: int) {
    && 0.0 <= e.totalKwh <= MAX_ENERGY_KWH
    && (e.lastSampleMs.Some? ==> 0 < e.lastSampleMs.value <= observedMs)
  }

  function StoredEnergy(db: Db, device: string): Option<EnergyRow> {
    if device in db.energy then Some(db.energy[device]) else None
  }

  predicate Superseded(db: Db, device: string, observedMs: int) {
    device in db.lastSuccess && db.lastSuccess[device] >= observedMs
  }

  function CommitAcquisition(db: Db, c: Commit): Reply<CommitOutcome> {
    if c.device == "" || c.observedMs <= 0 then Reply(db, Err(InvalidArgument))
    else if Superseded(db, c.device, c.observedMs) then Reply(db, Ok(AlreadyCommitted))
    else if c.payload == [] || (c.expected.Some? && !ValidEnergy(c.expected.value, c.observedMs))
            || !ValidEnergy(c.next, c.observedMs) then Reply(db, Err(InvalidArgument))
    else if StoredEnergy(db, c.device) != c.expected then Reply(db, Err(EnergyAnchorConflict))
    else
      var recorded := db.(energy := db.energy[c.device := c.next], lastSuccess := db.lastSuccess[c.device := c.observedMs]);
      var queued := Enqueue(recorded, c.device, c.payload, c.observedMs);
      if queued.result.Err? then Reply(db, Err(queued.result.error))
      else Reply(queued.db, Ok(Committed(queued.result.value)))
  }

  // ---- The stand-alone integrator ----

  datatype SkipReason = FirstSample | InvalidPower | BackwardTime | GapTooLarge(gapMs: int, thresholdMs: int)

  datatype IntegrateOutcome =
    | Integrated(deltaKwh: real, totalKwh: real, elapsedMs: int)
    | Skipped(reason: SkipReason)

  predicate PowerInBounds(cfg: Config, power: real) {
    cfg.minPower <= power && (cfg.maxPower.Some? ==> power <= cfg.maxPower.value)
  }

  function DeltaKwh(previous: real, current: real, gapMs: int): real {
    (previous + current) / 2.0 * (gapMs as real / 1000.0) / 3_600_000.0
  }

  function Integrate(cfg: Config, db: Db, device: string, power: real, sampleMs: int): Reply<IntegrateOutcome> {
    if device == "" || sampleMs <= 0 then Reply(db, Err(InvalidArgument))
    else if !PowerInBounds(cfg, power) then Reply(db, Ok(Skipped(InvalidPower)))
    else match StoredEnergy(db, device)
      case None =>
        Reply(db.(energy := db.energy[device := EnergyRow(0.0, Some(power), Some(sampleMs))]), Ok(Skipped(FirstSample)))
      case Some(e) =>
        var anchored := e.(lastPower := Some(power), lastSampleMs := Some(sampleMs));
        if e.lastSampleMs.None? then
          Reply(db.(energy := db.energy[device := anchored]), Ok(Skipped(FirstSample)))
        else if sampleMs <= e.lastSampleMs.value then Reply(db, Ok(Skipped(BackwardTime)))
        else
          var gap := sampleMs - e.lastSampleMs.value;
          if gap > cfg.gapThresholdMs then
            Reply(db.(energy := db.energy[device := anchored]), Ok(Skipped(GapTooLarge(gap, cfg.gapThresholdMs))))
          else
            var previous := if e.lastPower.Some? then e.lastPower.value else power;
            var delta := DeltaKwh(previous, power, gap);
            var total := e.totalKwh + delta;
            if !(0.0 <= total <= MAX_ENERGY_KWH) then Reply(db, Err(ConstraintViolation))
            else
              Reply(db.(energy := db.energy[device := anchored.(totalKwh := total)]), Ok(Integrated(delta, total, gap)))
  }

  function ResetEnergy(db: Db, device: string, totalKwh: real, nowMs: int): Reply<()> {
    if device == "" || totalKwh < 0.0 || nowMs <= 0 then Reply(db, Err(InvalidArgument))
    else if totalKwh > MAX_ENERGY_KWH then Reply(db, Err(ConstraintViolation))
    else Reply(db.(energy := db.energy[device := EnergyRow(totalKwh, None, None)]), Ok(()))
  }
}
