/**
  The two energy integrators of the collector: the transactional one of the store and the policy of the service. They
  reach the same row, except where a stored anchor carries a time but no power, or the store refuses the reading.
 */
module Integrators {
  import opened Wrappers
  import opened Energy
  import Database

  datatype PowerReading = PowerReading(watts: real, atMs: int)

  // The sample the service would build from the same reading.
  function AsSample(p: PowerReading): Sample {
    Sample(p.atMs * NS_PER_MS, Some(Reading(p.watts, ConfirmedNative)), None)
  }

  // The service's view of a row, without the adapter's checks.
  function Lifted(row: Option<Database.EnergyRow>): Option<EnergyState> {
    match row
    case None => None
    case Some(r) =>
      Some(EnergyState(r.totalKwh, r.lastPower,
                       if r.lastSampleMs.Some? then Some(r.lastSampleMs.value * NS_PER_MS) else None))
  }

  predicate Usable(cfg: Database.Config, p: PowerReading) {
    0 < p.atMs && Database.PowerInBounds(cfg, p.watts)
  }

  // A reading no later than the stored anchor, which neither takes.
  predicate Backward(row: Option<Database.EnergyRow>, p: PowerReading) {
    row.Some? && row.value.lastSampleMs.Some? && p.atMs <= row.value.lastSampleMs.value
  }

  // The store integrates and finds the total out of the column's bounds.
  predicate Refused(cfg: Database.Config, row: Option<Database.EnergyRow>, p: PowerReading) {
    && row.Some? && row.value.lastSampleMs.Some?
    && 0 < p.atMs - row.value.lastSampleMs.value <= cfg.gapThresholdMs
    && var previous := if row.value.lastPower.Some? then row.value.lastPower.value else p.watts;
       var delta := Database.DeltaKwh(previous, p.watts, p.atMs - row.value.lastSampleMs.value);
       !(0.0 <= row.value.totalKwh + delta <= Database.MAX_ENERGY_KWH)
  }

  // A timed row without power, within the gap limit, which the store bridges and the policy does not.
  predicate Unpowered(cfg: Database.Config, row: Option<Database.EnergyRow>, p: PowerReading) {
    && row.Some? && row.value.lastSampleMs.Some? && row.value.lastPower.None?
    && 0 < p.atMs - row.value.lastSampleMs.value <= cfg.gapThresholdMs
  }

  lemma SameTrapezoid(a: real, b: real, gapMs: int)
    ensures Database.DeltaKwh(a, b, gapMs) == Trapezoid(a, b, gapMs * NS_PER_MS)
  {
    assert (gapMs * NS_PER_MS) as real / 1_000_000_000.0 == gapMs as real / 1000.0;
  }

  lemma DeltaOfEqual(watts: real, gapMs: int)
    requires 0 < gapMs
    ensures Database.DeltaKwh(watts, watts, gapMs) == 0.0 <==> watts == 0.0
  {
    var held := gapMs as real / 1000.0;
    assert Database.DeltaKwh(watts, watts, gapMs) == watts * held / 3_600_000.0;
    if watts != 0.0 {
      assert watts * held != 0.0;
    }
  }

  /**
    One step from any row: the two agree exactly when neither takes the reading, or the store takes it, its total stays
    within the column's bounds, and the row is not unpowered unless the reading is zero watts.
   */
  lemma AgreeExactly(cfg: Database.Config, maxGap: nat, db: Database.Db, device: string, p: PowerReading)
    requires maxGap == cfg.gapThresholdMs * NS_PER_MS
    ensures var next := Database.Integrate(cfg, db, device, p.watts, p.atMs).db;
            var row := Database.StoredEnergy(db, device);
            Lifted(Database.StoredEnergy(next, device)) == Some(Apply(maxGap, Lifted(row), AsSample(p)).next)
            <==> || Backward(row, p)
                 || (device != "" && Usable(cfg, p) && !Refused(cfg, row, p) && !(Unpowered(cfg, row, p) && p.watts != 0.0))
  {
    var row := Database.StoredEnergy(db, device);
    if row.Some? && row.value.lastSampleMs.Some? {
      var gap := p.atMs - row.value.lastSampleMs.value;
      SameTrapezoid(if row.value.lastPower.Some? then row.value.lastPower.value else p.watts, p.watts, gap);
      if 0 < gap {
        DeltaOfEqual(p.watts, gap);
      }
      assert AsSample(p).observedAt - row.value.lastSampleMs.value * NS_PER_MS == gap * NS_PER_MS;
      assert gap <= cfg.gapThresholdMs <==> gap * NS_PER_MS <= maxGap;
      hide Trapezoid, Database.DeltaKwh;
    }
  }

  // ---- Whole runs ----

  function IntegrateAll(cfg: Database.Config, device: string, readings: seq<PowerReading>): Database.Db {
    if readings == [] then Database.EMPTY
    else
      var n := |readings| - 1;
      Database.Integrate(cfg, IntegrateAll(cfg, device, readings[..n]), device, readings[n].watts, readings[n].atMs).db
  }

  function Samples(readings: seq<PowerReading>): (samples: seq<Sample>)
    ensures |samples| == |readings|
  {
    seq(|readings|, i requires 0 <= i < |readings| => AsSample(readings[i]))
  }

  /**
    From an empty state, on any readings within the bounds, in any order of time, the two integrators hold the same
    row, as long as the policy's total stays within the column's limit.
   */
  lemma {:induction false} IntegratorsAgree(cfg: Database.Config, maxGap: nat, device: string, readings: seq<PowerReading>)
    requires device != "" && maxGap == cfg.gapThresholdMs * NS_PER_MS
    requires forall p <- readings :: Usable(cfg, p) && ValidSample(AsSample(p))
    requires readings != [] ==>
               Accumulate(maxGap, Samples(readings)).value.totalKwh <= Database.MAX_ENERGY_KWH
    ensures Lifted(Database.StoredEnergy(IntegrateAll(cfg, device, readings), device)) == Accumulate(maxGap, Samples(readings))
    ensures var state := Accumulate(maxGap, Samples(readings));
            state.Some? ==> state.value.lastPower.Some? && state.value.lastSampleAt.Some?
  {
    if readings != [] {
      var n := |readings| - 1;
      var samples, before := Samples(readings), readings[..n];
      assert samples[..n] == Samples(before);
      SamplesAreValid(readings);
      if before != [] {
        TotalNeverDecreases(maxGap, samples, n);
      }
      IntegratorsAgree(cfg, maxGap, device, before);
      var db := IntegrateAll(cfg, device, before);
      NewReading(cfg, maxGap, db, device, readings[n], samples);
    }
  }

  lemma SamplesAreValid(readings: seq<PowerReading>)
    requires forall p <- readings :: ValidSample(AsSample(p))
    ensures forall s <- Samples(readings) :: ValidSample(s)
  {
    forall i | 0 <= i < |readings|
      ensures ValidSample(Samples(readings)[i])
    {
      assert readings[i] in readings;
    }
  }

  lemma NewReading(cfg: Database.Config, maxGap: nat, db: Database.Db, device: string, p: PowerReading, samples: seq<Sample>)
    requires device != "" && Usable(cfg, p) && maxGap == cfg.gapThresholdMs * NS_PER_MS
    requires samples != [] && samples[|samples| - 1] == AsSample(p) && forall s <- samples :: ValidSample(s)
    requires var past := Accumulate(maxGap, samples[..|samples| - 1]);
             && Lifted(Database.StoredEnergy(db, device)) == past
             && (past.Some? ==> past.value.lastPower.Some? && past.value.lastSampleAt.Some?)
    requires Accumulate(maxGap, samples).value.totalKwh <= Database.MAX_ENERGY_KWH
    ensures var next := Database.Integrate(cfg, db, device, p.watts, p.atMs).db;
            Lifted(Database.StoredEnergy(next, device)) == Accumulate(maxGap, samples)
    ensures var state := Accumulate(maxGap, samples).value; state.lastPower.Some? && state.lastSampleAt.Some?
  {
    hide Apply, Database.Integrate, ValidSample, Usable;
    var past := Accumulate(maxGap, samples[..|samples| - 1]);
    TotalNeverDecreases(maxGap, samples, |samples|);
    WholeStep(maxGap, past, p);
    assert Accumulate(maxGap, samples) == Some(Apply(maxGap, past, AsSample(p)).next);
    NotRefused(cfg, maxGap, db, device, p);
    AgreeExactly(cfg, maxGap, db, device, p);
  }

  // Readings on whole milliseconds are stored as they are.
  lemma WholeStep(maxGap: nat, past: Option<EnergyState>, p: PowerReading)
    requires past.Some? ==>
               past.value.lastPower.Some? && past.value.lastSampleAt.Some? && past.value.lastSampleAt.value % NS_PER_MS == 0
    ensures var out := Apply(maxGap, past, AsSample(p)).next;
            StoredState(out) == out && out.lastPower.Some? && out.lastSampleAt.Some?
  {
    StoredTwice(AsSample(p).observedAt);
    if past.Some? {
      StoredTwice(past.value.lastSampleAt.value);
    }
    hide Trapezoid;
  }

  lemma NotRefused(cfg: Database.Config, maxGap: nat, db: Database.Db, device: string, p: PowerReading)
    requires device != "" && Usable(cfg, p) && maxGap == cfg.gapThresholdMs * NS_PER_MS
    requires var row := Database.StoredEnergy(db, device);
             row.Some? ==> row.value.lastPower.Some? && row.value.lastSampleMs.Some?
    requires 0.0 <= Apply(maxGap, Lifted(Database.StoredEnergy(db, device)), AsSample(p)).next.totalKwh <= Database.MAX_ENERGY_KWH
    ensures !Refused(cfg, Database.StoredEnergy(db, device), p)
  {
    var row := Database.StoredEnergy(db, device);
    if row.Some? {
      var gap := p.atMs - row.value.lastSampleMs.value;
      SameTrapezoid(row.value.lastPower.value, p.watts, gap);
      assert AsSample(p).observedAt - row.value.lastSampleMs.value * NS_PER_MS == gap * NS_PER_MS;
      assert gap <= cfg.gapThresholdMs <==> gap * NS_PER_MS <= maxGap;
      hide Trapezoid, Database.DeltaKwh;
    }
  }

  // ---- What the store reports ----

  // The row of a device after a reading, as it was before but for the new anchor.
  predicate Anchored(before: Database.EnergyRow, after: Option<Database.EnergyRow>, p: PowerReading) {
    after == Some(Database.EnergyRow(before.totalKwh, Some(p.watts), Some(p.atMs)))
  }

  /**
    What the store reports of a reading is what it did: the energy added, the new total and the time bridged, or why
    nothing was added, and whether the reading became the anchor.
   */
  lemma ReportIsTrue(cfg: Database.Config, db: Database.Db, device: string, p: PowerReading)
    requires device != "" && 0 < p.atMs
    ensures var r := Database.Integrate(cfg, db, device, p.watts, p.atMs);
            var row, after := Database.StoredEnergy(db, device), Database.StoredEnergy(r.db, device);
            var inBounds := cfg.minPower <= p.watts && (cfg.maxPower.Some? ==> p.watts <= cfg.maxPower.value);
            match r.result
            case Ok(Integrated(delta, total, elapsed)) =>
              && inBounds && row.Some? && row.value.lastSampleMs.Some? && 0 < elapsed <= cfg.gapThresholdMs
              && elapsed == p.atMs - row.value.lastSampleMs.value
              && total == row.value.totalKwh + delta && Anchored(row.value.(totalKwh := total), after, p)
              && delta == Trapezoid(if row.value.lastPower.Some? then row.value.lastPower.value else p.watts, p.watts,
                                    elapsed * NS_PER_MS)
            case Ok(Skipped(InvalidPower)) => !inBounds && after == row
            case Ok(Skipped(BackwardTime)) => inBounds && Backward(row, p) && after == row
            case Ok(Skipped(FirstSample)) =>
              && inBounds && (row.Some? ==> row.value.lastSampleMs.None?)
              && Anchored(if row.Some? then row.value else Database.EnergyRow(0.0, None, None), after, p)
            case Ok(Skipped(GapTooLarge(gap, threshold))) =>
              && inBounds && row.Some? && row.value.lastSampleMs.Some?
              && gap == p.atMs - row.value.lastSampleMs.value > threshold == cfg.gapThresholdMs
              && Anchored(row.value, after, p)
            case Err(_) => inBounds && Refused(cfg, row, p) && after == row
  {
    var row := Database.StoredEnergy(db, device);
    if row.Some? && row.value.lastSampleMs.Some? {
      SameTrapezoid(if row.value.lastPower.Some? then row.value.lastPower.value else p.watts, p.watts,
                    p.atMs - row.value.lastSampleMs.value);
    }
    hide Trapezoid, Database.DeltaKwh;
  }

  /** After a reset the device has the total and no anchor: the next usable reading starts afresh from that total. */
  lemma ResetStartsAfresh(cfg: Database.Config, db: Database.Db, device: string, totalKwh: real, nowMs: int, p: PowerReading)
    ensures var reset := Database.ResetEnergy(db, device, totalKwh, nowMs);
            && (reset.result.Ok? <==> device != "" && 0 < nowMs && 0.0 <= totalKwh <= Database.MAX_ENERGY_KWH)
            && (reset.result.Ok? && Usable(cfg, p) ==>
                  var next := Database.Integrate(cfg, reset.db, device, p.watts, p.atMs);
                  && next.result == Ok(Database.Skipped(Database.FirstSample))
                  && Anchored(Database.EnergyRow(totalKwh, None, None), Database.StoredEnergy(next.db, device), p))
  {
  }
}
