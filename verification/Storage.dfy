/**
  The persistence facade: one connection's tables as mutable fields, every method one transaction, each proved
  against the function of the same name on the state it starts from.
 */
module Storage {
  import opened Wrappers
  import opened Bytes
  import opened Database

  // Devices other than `device` keep their rows and their last success.
  ghost predicate SameElsewhere(before: Db, after: Db, device: string) {
    forall other :: other != device ==>
      && StoredEnergy(after, other) == StoredEnergy(before, other)
      && (other in after.lastSuccess <==> other in before.lastSuccess)
      && (other in after.lastSuccess ==> after.lastSuccess[other] == before.lastSuccess[other])
  }

  lemma KeptAreThere(rows: seq<SpoolRow>, limit: nat)
    ensures forall q <- KeepNewest(rows, limit) :: q in rows
  {
  }

  class Store {
    const cfg: Config
    var energy: map<string, EnergyRow>
    var lastSuccess: map<string, int>
    var spool: seq<SpoolRow>
    var nextId: nat
    var deliveredTotal: nat
    var droppedTotal: nat

    function Snapshot(): Db
      reads this
    {
      Db(energy, lastSuccess, spool, nextId, deliveredTotal, droppedTotal)
    }

    // A database file created by this store.
    constructor (cfg: Config)
      requires cfg.Valid()
      ensures this.cfg == cfg && Snapshot() == EMPTY
    {
      this.cfg := cfg;
      energy, lastSuccess, spool, nextId, deliveredTotal, droppedTotal := map[], map[], [], 1, 0, 0;
    }

    method EnqueueBatch(device: string, payload: seq<Byte>, nowMs: int) returns (r: Result<nat, StorageError>)
      modifies this`spool, this`nextId
      ensures Enqueue(old(Snapshot()), device, payload, nowMs) == Reply(Snapshot(), r)
      ensures r.Ok? <==> device != "" && payload != [] && 0 < nowMs
      ensures r.Ok? ==>
                && r.value == old(nextId) && nextId == old(nextId) + 1
                && spool == old(spool) + [SpoolRow(r.value, device, nowMs, payload, 0, nowMs)]
      ensures r.Err? ==> r.error == InvalidArgument && Snapshot() == old(Snapshot())
    {
      if device == "" {
        return Err(InvalidArgument);
      }
      if payload == [] {
        return Err(InvalidArgument);
      }
      if nowMs <= 0 {
        return Err(InvalidArgument);
      }
      r := Ok(nextId);
      spool := spool + [SpoolRow(nextId, device, nowMs, payload, 0, nowMs)];
      nextId := nextId + 1;
    }

    // A look at the row the next claim would lease.
    method PeekOldestBatch(nowMs: int) returns (r: Option<SpoolRow>)
      ensures r == OldestReady(spool, nowMs, cfg.maxAttempts)
      ensures r.None? ==> forall q <- spool :: !Ready(q, nowMs, cfg.maxAttempts)
      ensures r.Some? ==> r.value in spool && Ready(r.value, nowMs, cfg.maxAttempts)
      ensures r.Some? ==> forall q <- spool :: Ready(q, nowMs, cfg.maxAttempts) ==>
                            r.value.createdMs < q.createdMs || (r.value.createdMs == q.createdMs && r.value.id <= q.id)
    {
      r := OldestReady(spool, nowMs, cfg.maxAttempts);
    }

    method ClaimOldestBatch(nowMs: int) returns (r: Result<Option<SpoolRow>, StorageError>)
      modifies this`spool
      ensures ClaimOldest(cfg, old(Snapshot()), nowMs) == Reply(Snapshot(), r)
      ensures |spool| == |old(spool)|
      ensures forall i :: 0 <= i < |spool| ==>
                spool[i] == old(spool)[i] || (r.Ok? && r.value.Some? && old(spool)[i].id == r.value.value.id)
    {
      var candidate := OldestReady(spool, nowMs, cfg.maxAttempts);
      if candidate.None? {
        return Ok(None);
      }
      var batch := candidate.value;
      var next := nowMs + cfg.inflightMs;
      if next < 0 {
        return Err(ConstraintViolation);
      }
      spool := Rescheduled(spool, batch.id, batch.attempts + 1, next);
      r := Ok(Some(batch.(attempts := batch.attempts + 1, nextAttemptMs := next)));
    }

    method MarkBatchDelivered(id: nat, nowMs: int) returns (r: Result<bool, StorageError>)
      modifies this`spool, this`deliveredTotal
      ensures MarkDelivered(old(Snapshot()), id, nowMs) == Reply(Snapshot(), r)
      ensures r == Ok(true) <==> (exists q <- old(spool) :: q.id == id) && 0 < nowMs
      ensures r == Ok(false) <==> !exists q <- old(spool) :: q.id == id
      ensures if r == Ok(true) then
                deliveredTotal == old(deliveredTotal) + 1 && forall q :: q in spool <==> q in old(spool) && q.id != id
              else Snapshot() == old(Snapshot())
    {
      var changed := Find(spool, id).Some?;
      if changed {
        if nowMs <= 0 {
          return Err(InvalidArgument);
        }
        spool := Where(spool, OtherThan(id));
        deliveredTotal := deliveredTotal + 1;
      }
      r := Ok(changed);
    }

    method DropSpoolBatch(id: nat, nowMs: int) returns (r: Result<bool, StorageError>)
      modifies this`spool, this`droppedTotal
      ensures DropBatch(old(Snapshot()), id, nowMs) == Reply(Snapshot(), r)
      ensures r == Ok(true) <==> (exists q <- old(spool) :: q.id == id) && 0 < nowMs
      ensures r == Ok(false) <==> !exists q <- old(spool) :: q.id == id
      ensures if r == Ok(true) then
                droppedTotal == old(droppedTotal) + 1 && forall q :: q in spool <==> q in old(spool) && q.id != id
              else Snapshot() == old(Snapshot())
    {
      var changed := Find(spool, id).Some?;
      if changed {
        if nowMs <= 0 {
          return Err(InvalidArgument);
        }
        spool := Where(spool, OtherThan(id));
        droppedTotal := droppedTotal + 1;
      }
      r := Ok(changed);
    }

    method RecordBatchRetry(id: nat, nowMs: int) returns (r: Result<RetryOutcome, StorageError>)
      modifies this`spool, this`droppedTotal
      ensures RecordRetry(cfg, old(Snapshot()), id, nowMs) == Reply(Snapshot(), r)
      ensures r.Err? ==> Snapshot() == old(Snapshot())
      ensures r == Err(Inconsistent) <==> !exists q <- old(spool) :: q.id == id
      ensures r.Ok? && r.value.Dropped? ==>
                && droppedTotal == old(droppedTotal) + 1 && cfg.maxAttempts <= r.value.attempts
                && forall q :: q in spool <==> q in old(spool) && q.id != id
      ensures r.Ok? && r.value.Retried? ==>
                && droppedTotal == old(droppedTotal) && r.value.attempts < cfg.maxAttempts
                && r.value.nextAttemptMs == Saturated(nowMs + RetryDelay(cfg, r.value.attempts))
                && |spool| == |old(spool)|
                && forall i :: 0 <= i < |spool| ==>
                     spool[i] == if old(spool)[i].id == id
                                 then old(spool)[i].(attempts := r.value.attempts, nextAttemptMs := r.value.nextAttemptMs)
                                 else old(spool)[i]
    {
      hide Saturated, RetryDelay, Find, Where, Rescheduled;
      var row := Find(spool, id);
      if row.None? {
        return Err(Inconsistent);
      }
      var attempts := row.value.attempts;
      if attempts >= cfg.maxAttempts {
        if nowMs <= 0 {
          return Err(InvalidArgument);
        }
        spool := Where(spool, OtherThan(id));
        droppedTotal := droppedTotal + 1;
        return Ok(Dropped(attempts));
      }
      var next := Saturated(nowMs + RetryDelay(cfg, attempts));
      if next < 0 {
        return Err(ConstraintViolation);
      }
      spool := Rescheduled(spool, id, attempts, next);
      r := Ok(Retried(next, attempts));
    }

    method PruneSpool(nowMs: int) returns (r: Result<PruneStats, StorageError>)
      modifies this`spool
      ensures Prune(cfg, old(Snapshot()), nowMs) == Reply(Snapshot(), r)
      ensures forall q <- spool :: q in old(spool)
    {
      hide Saturated, KeepNewest;
      var removed := 0;
      var before := |spool|;
      spool := Where(spool, CreatedFrom(Saturated(nowMs - cfg.maxAgeMs)));
      removed, before := removed + before - |spool|, |spool|;
      spool := Where(spool, AttemptsBelow(cfg.maxAttempts));
      removed, before := removed + before - |spool|, |spool|;
      KeptAreThere(spool, cfg.maxBatches);
      spool := KeepNewest(spool, cfg.maxBatches);
      removed := removed + before - |spool|;
      r := Ok(PruneStats(removed, |spool|));
    }

    method CommitAcquisitionBatch(c: Commit) returns (r: Result<CommitOutcome, StorageError>)
      modifies this
      ensures CommitAcquisition(old(Snapshot()), c) == Reply(Snapshot(), r)
      ensures if r.Ok? && r.value.Committed? then
                && SameElsewhere(old(Snapshot()), Snapshot(), c.device)
                && c.device in lastSuccess && lastSuccess[c.device] == c.observedMs
                && c.device in energy && energy[c.device] == c.next && StoredEnergy(old(Snapshot()), c.device) == c.expected
                && spool == old(spool) + [SpoolRow(r.value.batchId, c.device, c.observedMs, c.payload, 0, c.observedMs)]
              else Snapshot() == old(Snapshot())
      ensures r == Ok(AlreadyCommitted) <==>
                && c.device != "" && 0 < c.observedMs
                && c.device in old(lastSuccess) && c.observedMs <= old(lastSuccess)[c.device]
    {
      if c.device == "" || c.observedMs <= 0 {
        return Err(InvalidArgument);
      }
      if c.device in lastSuccess && lastSuccess[c.device] >= c.observedMs {
        return Ok(AlreadyCommitted);
      }
      if c.payload == [] {
        return Err(InvalidArgument);
      }
      if c.expected.Some? && !ValidEnergy(c.expected.value, c.observedMs) {
        return Err(InvalidArgument);
      }
      if !ValidEnergy(c.next, c.observedMs) {
        return Err(InvalidArgument);
      }
      if StoredEnergy(Snapshot(), c.device) != c.expected {
        return Err(EnergyAnchorConflict);
      }
      energy := energy[c.device := c.next];
      lastSuccess := lastSuccess[c.device := c.observedMs];
      var queued := EnqueueBatch(c.device, c.payload, c.observedMs);
      r := match queued case Ok(id) => Ok(Committed(id)) case Err(e) => Err(e);
    }

    method IntegrateEnergy(device: string, power: real, sampleMs: int) returns (r: Result<IntegrateOutcome, StorageError>)
      modifies this`energy
      ensures Integrate(cfg, old(Snapshot()), device, power, sampleMs) == Reply(Snapshot(), r)
      ensures SameElsewhere(old(Snapshot()), Snapshot(), device) && (r.Err? ==> Snapshot() == old(Snapshot()))
    {
      if device == "" || sampleMs <= 0 {
        return Err(InvalidArgument);
      }
      if !PowerInBounds(cfg, power) {
        return Ok(Skipped(InvalidPower));
      }
      if device !in energy {
        energy := energy[device := EnergyRow(0.0, Some(power), Some(sampleMs))];
        return Ok(Skipped(FirstSample));
      }
      var e := energy[device];
      if e.lastSampleMs.None? {
        energy := energy[device := e.(lastPower := Some(power), lastSampleMs := Some(sampleMs))];
        return Ok(Skipped(FirstSample));
      }
      if sampleMs <= e.lastSampleMs.value {
        return Ok(Skipped(BackwardTime));
      }
      var gap := sampleMs - e.lastSampleMs.value;
      if gap > cfg.gapThresholdMs {
        energy := energy[device := e.(lastPower := Some(power), lastSampleMs := Some(sampleMs))];
        return Ok(Skipped(GapTooLarge(gap, cfg.gapThresholdMs)));
      }
      var previous := if e.lastPower.Some? then e.lastPower.value else power;
      var delta := DeltaKwh(previous, power, gap);
      var total := e.totalKwh + delta;
      if total < 0.0 || total > MAX_ENERGY_KWH {
        return Err(ConstraintViolation);
      }
      energy := energy[device := EnergyRow(total, Some(power), Some(sampleMs))];
      r := Ok(Integrated(delta, total, gap));
    }

    method ResetDeviceEnergy(device: string, totalKwh: real, nowMs: int) returns (r: Result<(), StorageError>)
      modifies this`energy
      ensures ResetEnergy(old(Snapshot()), device, totalKwh, nowMs) == Reply(Snapshot(), r)
      ensures SameElsewhere(old(Snapshot()), Snapshot(), device) && (r.Err? ==> Snapshot() == old(Snapshot()))
      ensures r.Ok? <==> device != "" && 0 < nowMs && 0.0 <= totalKwh <= MAX_ENERGY_KWH
      ensures r.Ok? ==> device in energy && energy[device] == EnergyRow(totalKwh, None, None)
    {
      if device == "" {
        return Err(InvalidArgument);
      }
      if totalKwh < 0.0 || nowMs <= 0 {
        return Err(InvalidArgument);
      }
      if totalKwh > MAX_ENERGY_KWH {
        return Err(ConstraintViolation);
      }
      energy := energy[device := EnergyRow(totalKwh, None, None)];
      r := Ok(());
    }
  }
}
