/**
  Collectors over one database: each reads the energy anchor, applies the policy, and commits, while others do the same,
  replay, crash, and drain the spool in between. The adapter between service and store keeps whole milliseconds.
 */
module Collectors {
  import opened Wrappers
  import opened Bytes
  import opened Energy
  import Database
  import SpoolRuns

  type Row = Database.EnergyRow

  datatype PortError = InvalidTimestamp | Corrupt | Refused(reason: Database.StorageError)

  // ---- The adapter ----

  function TimeToMs(t: int): Result<int, PortError> {
    if t < 0 then Err(InvalidTimestamp)
    else
      var ms := t / NS_PER_MS;
      if ms > Database.I64_MAX || ms <= 0 then Err(InvalidTimestamp) else Ok(ms)
  }

  function MsToTime(ms: int): Result<int, PortError> {
    if ms <= 0 then Err(Corrupt) else Ok(ms * NS_PER_MS)
  }

  function ToRow(e: EnergyState): Result<Row, PortError> {
    if e.lastSampleAt.None? then Ok(Database.EnergyRow(e.totalKwh, e.lastPower, None))
    else
      var ms :- TimeToMs(e.lastSampleAt.value);
      Ok(Database.EnergyRow(e.totalKwh, e.lastPower, Some(ms)))
  }

  function FromRow(r: Row): Result<EnergyState, PortError> {
    if r.lastSampleMs.None? then Ok(EnergyState(r.totalKwh, r.lastPower, None))
    else
      var at :- MsToTime(r.lastSampleMs.value);
      Ok(EnergyState(r.totalKwh, r.lastPower, Some(at)))
  }

  function ReadEnergy(db: Database.Db, device: string): Result<Option<EnergyState>, PortError> {
    match Database.StoredEnergy(db, device)
    case None => Ok(None)
    case Some(row) =>
      var e :- FromRow(row);
      Ok(Some(e))
  }

  function ExpectedRow(anchor: Option<EnergyState>): Result<Option<Row>, PortError> {
    if anchor.None? then Ok(None)
    else
      var row :- ToRow(anchor.value);
      Ok(Some(row))
  }

  // One policy step committed through the port.
  function CommitSample(maxGap: nat, db: Database.Db, device: string, anchor: Option<EnergyState>, s: Sample,
                        payload: seq<Byte>): (Database.Db, Result<Database.CommitOutcome, PortError>)
  {
    match TimeToMs(s.observedAt)
    case Err(e) => (db, Err(e))
    case Ok(ms) =>
      match ExpectedRow(anchor)
      case Err(e) => (db, Err(e))
      case Ok(expected) =>
        match ToRow(Apply(maxGap, anchor, s).next)
        case Err(e) => (db, Err(e))
        case Ok(next) =>
          var r := Database.CommitAcquisition(db, Database.Commit(device, ms, expected, next, payload));
          (r.db, if r.result.Ok? then Ok(r.result.value) else Err(Refused(r.result.error)))
  }

  // The cycle's own test before it renders anything.
  predicate EarlyDuplicate(db: Database.Db, device: string, observedAt: int) {
    device in db.lastSuccess && db.lastSuccess[device] > 0 && observedAt <= db.lastSuccess[device] * NS_PER_MS
  }

  // ---- Runs of many collectors ----

  // What collector processes remember between their reads and their commits.
  datatype World = World(db: Database.Db, anchors: map<nat, (string, Option<EnergyState>)>)

  datatype Step =
    | ReadAnchor(collector: nat, device: string)
    | TryCommit(collector: nat, sample: Sample, payload: seq<Byte>)
    | Crash(collector: nat)
    | Spool(op: SpoolRuns.Op)

  // The operations that leave acquisition state alone.
  predicate SpoolOnly(step: Step) {
    step.Spool? ==> !step.op.CommitOp? && !step.op.IntegrateOp? && !step.op.ResetOp?
  }

  const START: World := World(Database.EMPTY, map[])

  function TakeStep(cfg: Database.Config, maxGap: nat, w: World, step: Step): World {
    match step
    case ReadAnchor(c, device) =>
      var r := ReadEnergy(w.db, device);
      if r.Ok? then w.(anchors := w.anchors[c := (device, r.value)]) else w
    case TryCommit(c, s, payload) =>
      if c !in w.anchors then w
      else w.(db := CommitSample(maxGap, w.db, w.anchors[c].0, w.anchors[c].1, s, payload).0)
    case Crash(c) => w.(anchors := w.anchors - {c})
    case Spool(op) => w.(db := SpoolRuns.Execute(cfg, w.db, op).0)
  }

  function Run(cfg: Database.Config, maxGap: nat, steps: seq<Step>): World {
    if steps == [] then START else TakeStep(cfg, maxGap, Run(cfg, maxGap, steps[..|steps| - 1]), steps[|steps| - 1])
  }

  predicate Commits(maxGap: nat, w: World, step: Step, device: string) {
    && step.TryCommit? && step.collector in w.anchors && w.anchors[step.collector].0 == device
    && var r := CommitSample(maxGap, w.db, device, w.anchors[step.collector].1, step.sample, step.payload).1;
       r.Ok? && r.value.Committed?
  }

  // The samples of `device` that were reported committed, in order.
  function CommittedSamples(cfg: Database.Config, maxGap: nat, steps: seq<Step>, device: string): seq<Sample> {
    if steps == [] then []
    else
      var n := |steps| - 1;
      CommittedSamples(cfg, maxGap, steps[..n], device)
      + if Commits(maxGap, Run(cfg, maxGap, steps[..n]), steps[n], device) then [steps[n].sample] else []
  }

  // ---- Round trips of the adapter ----

  lemma RowRoundTrip(e: EnergyState)
    requires ToRow(e).Ok?
    ensures FromRow(ToRow(e).value) == Ok(StoredState(e))
    ensures ToRow(StoredState(e)) == ToRow(e)
  {
  }

  // ---- What every state keeps ----

  // The row that stands for a policy state.
  ghost predicate Holds(db: Database.Db, device: string, state: Option<EnergyState>) {
    if state.None? then Database.StoredEnergy(db, device) == None
    else ToRow(state.value).Ok? && Database.StoredEnergy(db, device) == Some(ToRow(state.value).value)
  }

  // The acquisition state of `device` is exactly what its committed samples make it.
  ghost predicate Agrees(maxGap: nat, db: Database.Db, device: string, committed: seq<Sample>) {
    && Increasing(committed)
    && Holds(db, device, Accumulate(maxGap, committed))
    && (device in db.lastSuccess <==> committed != [])
    && (committed != [] ==> TimeToMs(committed[|committed| - 1].observedAt) == Ok(db.lastSuccess[device]))
  }

  ghost predicate WholeMilliseconds(anchor: Option<EnergyState>) {
    anchor.Some? ==> StoredState(anchor.value) == anchor.value
  }

  ghost predicate AnchorsStored(w: World) {
    forall c <- w.anchors :: WholeMilliseconds(w.anchors[c].1)
  }

  lemma ReadIsStored(db: Database.Db, device: string)
    ensures ReadEnergy(db, device).Ok? ==> WholeMilliseconds(ReadEnergy(db, device).value)
  {
  }

  lemma CommitTouchesOneDevice(maxGap: nat, db: Database.Db, device: string, anchor: Option<EnergyState>, s: Sample,
                               payload: seq<Byte>, other: string)
    requires var r := CommitSample(maxGap, db, device, anchor, s, payload).1;
             other != device || r.Err? || !r.value.Committed?
    ensures var next := CommitSample(maxGap, db, device, anchor, s, payload).0;
            && Database.StoredEnergy(next, other) == Database.StoredEnergy(db, other)
            && (other in next.lastSuccess <==> other in db.lastSuccess)
            && (other in db.lastSuccess ==> next.lastSuccess[other] == db.lastSuccess[other])
  {
    hide Apply;
  }

  lemma SpoolKeepsAcquisitions(cfg: Database.Config, db: Database.Db, step: Step)
    requires step.Spool? && SpoolOnly(step)
    ensures var next := SpoolRuns.Execute(cfg, db, step.op).0;
            next.energy == db.energy && next.lastSuccess == db.lastSuccess
  {
  }

  lemma AnchorMatches(maxGap: nat, db: Database.Db, device: string, anchor: Option<EnergyState>, committed: seq<Sample>)
    requires Holds(db, device, Accumulate(maxGap, committed)) && WholeMilliseconds(anchor)
    requires ExpectedRow(anchor) == Ok(Database.StoredEnergy(db, device))
    ensures anchor == Accumulate(maxGap, committed)
  {
    AccumulateIsStored(maxGap, committed);
    var state := Accumulate(maxGap, committed);
    hide Accumulate;
    if state.Some? {
      RowRoundTrip(state.value);
      RowRoundTrip(anchor.value);
    }
  }

  lemma AccumulateIsStored(maxGap: nat, committed: seq<Sample>)
    ensures WholeMilliseconds(Accumulate(maxGap, committed))
    ensures Accumulate(maxGap, committed).None? <==> committed == []
  {
    if committed != [] {
      var n := |committed| - 1;
      var next := Apply(maxGap, Accumulate(maxGap, committed[..n]), committed[n]).next;
      hide Apply;
      if next.lastSampleAt.Some? {
        StoredTwice(next.lastSampleAt.value);
      }
    }
  }

  // The state a commit leaves, when it commits.
  lemma CommitRecords(maxGap: nat, db: Database.Db, device: string, anchor: Option<EnergyState>, s: Sample,
                      payload: seq<Byte>)
    requires var r := CommitSample(maxGap, db, device, anchor, s, payload).1; r.Ok? && r.value.Committed?
    ensures var next := CommitSample(maxGap, db, device, anchor, s, payload).0;
            && TimeToMs(s.observedAt).Ok?
            && !Database.Superseded(db, device, TimeToMs(s.observedAt).value)
            && ExpectedRow(anchor) == Ok(Database.StoredEnergy(db, device))
            && ToRow(Apply(maxGap, anchor, s).next).Ok?
            && Database.StoredEnergy(next, device) == Some(ToRow(Apply(maxGap, anchor, s).next).value)
            && next.lastSuccess == db.lastSuccess[device := TimeToMs(s.observedAt).value]
  {
    hide Apply;
  }

  lemma CommitAgrees(maxGap: nat, db: Database.Db, device: string, anchor: Option<EnergyState>, s: Sample,
                     payload: seq<Byte>, committed: seq<Sample>)
    requires Agrees(maxGap, db, device, committed) && WholeMilliseconds(anchor)
    requires var r := CommitSample(maxGap, db, device, anchor, s, payload).1; r.Ok? && r.value.Committed?
    ensures Agrees(maxGap, CommitSample(maxGap, db, device, anchor, s, payload).0, device, committed + [s])
  {
    hide Apply, Accumulate, CommitSample, Increasing, StoredState, ToRow, FromRow, ExpectedRow, Database.StoredEnergy;
    CommitRecords(maxGap, db, device, anchor, s, payload);
    AnchorMatches(maxGap, db, device, anchor, committed);
    AccumulateMore(maxGap, committed, s);
    RowRoundTrip(Apply(maxGap, anchor, s).next);
    LaterIdentity(committed, s, db.lastSuccess, device);
  }

  lemma AccumulateMore(maxGap: nat, committed: seq<Sample>, s: Sample)
    ensures Accumulate(maxGap, committed + [s]) == Some(StoredState(Apply(maxGap, Accumulate(maxGap, committed), s).next))
  {
    hide Apply;
    assert (committed + [s])[..|committed|] == committed;
  }

  lemma LaterIdentity(committed: seq<Sample>, s: Sample, lastSuccess: map<string, int>, device: string)
    requires Increasing(committed) && TimeToMs(s.observedAt).Ok?
    requires committed != [] ==>
               && device in lastSuccess && TimeToMs(committed[|committed| - 1].observedAt) == Ok(lastSuccess[device])
               && lastSuccess[device] < TimeToMs(s.observedAt).value
    ensures Increasing(committed + [s])
  {
    if committed != [] {
      var last := committed[|committed| - 1];
      assert Stored(last.observedAt) < Stored(s.observedAt);
      forall i | 0 <= i < |committed|
        ensures Stored(committed[i].observedAt) < Stored(s.observedAt)
      {
      }
    }
  }

  /**
    Exactly once, for any interleaving of collectors with replays and crashes: per device the committed times strictly
    increase, the identity is the last of them, and the stored energy is the policy folded over exactly those samples.
   */
  lemma {:induction false} ExactlyOnce(cfg: Database.Config, maxGap: nat, steps: seq<Step>, device: string)
    requires forall step <- steps :: SpoolOnly(step)
    ensures var w := Run(cfg, maxGap, steps);
            AnchorsStored(w) && Agrees(maxGap, w.db, device, CommittedSamples(cfg, maxGap, steps, device))
  {
    if steps != [] {
      var n := |steps| - 1;
      ExactlyOnce(cfg, maxGap, steps[..n], device);
      StepAgrees(cfg, maxGap, Run(cfg, maxGap, steps[..n]), steps[n], device,
                 CommittedSamples(cfg, maxGap, steps[..n], device));
    }
  }

  lemma StepAgrees(cfg: Database.Config, maxGap: nat, w: World, step: Step, device: string, committed: seq<Sample>)
    requires SpoolOnly(step) && AnchorsStored(w) && Agrees(maxGap, w.db, device, committed)
    ensures var next := TakeStep(cfg, maxGap, w, step);
            && AnchorsStored(next)
            && Agrees(maxGap, next.db, device, committed + if Commits(maxGap, w, step, device) then [step.sample] else [])
  {
    assert committed + [] == committed;
    match step
    case ReadAnchor(c, d) => ReadIsStored(w.db, d);
    case TryCommit(c, s, payload) =>
      hide CommitSample, Increasing;
      if c in w.anchors {
        if Commits(maxGap, w, step, device) {
          CommitAgrees(maxGap, w.db, device, w.anchors[c].1, s, payload, committed);
        } else {
          CommitTouchesOneDevice(maxGap, w.db, w.anchors[c].0, w.anchors[c].1, s, payload, device);
        }
      }
    case Crash(_) =>
    case Spool(_) => SpoolKeepsAcquisitions(cfg, w.db, step);
  }

  // ---- One batch per commit ----

  function CommitCount(cfg: Database.Config, maxGap: nat, steps: seq<Step>): nat {
    if steps == [] then 0
    else
      var n := |steps| - 1;
      var w, step := Run(cfg, maxGap, steps[..n]), steps[n];
      CommitCount(cfg, maxGap, steps[..n])
      + if step.TryCommit? && step.collector in w.anchors && Commits(maxGap, w, step, w.anchors[step.collector].0) then 1 else 0
  }

  /** A commit queues exactly its own batch, ready at once; any other outcome changes nothing at all. */
  lemma CommitQueuesOneBatch(maxGap: nat, db: Database.Db, device: string, anchor: Option<EnergyState>, s: Sample,
                             payload: seq<Byte>)
    ensures var (next, r) := CommitSample(maxGap, db, device, anchor, s, payload);
            if r.Ok? && r.value.Committed? then
              && TimeToMs(s.observedAt).Ok? && payload != []
              && var ms := TimeToMs(s.observedAt).value;
              && r.value.batchId == db.nextId && next.nextId == db.nextId + 1
              && next.spool == db.spool + [Database.SpoolRow(db.nextId, device, ms, payload, 0, ms)]
              && next.deliveredTotal == db.deliveredTotal && next.droppedTotal == db.droppedTotal
            else next == db
  {
    hide Apply;
  }

  /** Over a run in which only collectors queue batches, batches queued and samples committed are equally many. */
  lemma {:induction false} OneBatchPerCommit(cfg: Database.Config, maxGap: nat, steps: seq<Step>)
    requires forall step <- steps :: SpoolOnly(step) && (step.Spool? ==> !step.op.EnqueueOp?)
    ensures Run(cfg, maxGap, steps).db.nextId == 1 + CommitCount(cfg, maxGap, steps)
    ensures SpoolRuns.WellFormed(Run(cfg, maxGap, steps).db)
  {
    if steps != [] {
      var n := |steps| - 1;
      OneBatchPerCommit(cfg, maxGap, steps[..n]);
      var w, step := Run(cfg, maxGap, steps[..n]), steps[n];
      assert SpoolOnly(step);
      StepQueues(cfg, maxGap, w, step);
    }
  }

  lemma StepQueues(cfg: Database.Config, maxGap: nat, w: World, step: Step)
    requires SpoolRuns.WellFormed(w.db) && SpoolOnly(step) && (step.Spool? ==> !step.op.EnqueueOp?)
    ensures var next := TakeStep(cfg, maxGap, w, step);
            && SpoolRuns.WellFormed(next.db)
            && next.db.nextId == w.db.nextId
               + if step.TryCommit? && step.collector in w.anchors && Commits(maxGap, w, step, w.anchors[step.collector].0)
                 then 1 else 0
  {
    if step.TryCommit? && step.collector in w.anchors {
      CommitQueuesOneBatch(maxGap, w.db, w.anchors[step.collector].0, w.anchors[step.collector].1, step.sample, step.payload);
      hide CommitSample;
    } else if step.Spool? {
      SpoolRuns.StepFollows(cfg, w.db, step.op);
      hide SpoolRuns.WellFormed;
    }
  }

  // ---- The early duplicate test ----

  /**
    The cycle's early test never skips a sample the store would have committed. It misses exactly those duplicates that
    differ from the recorded success by a fraction of a millisecond, and the store catches them.
   */
  lemma EarlyTestIsSound(maxGap: nat, db: Database.Db, device: string, anchor: Option<EnergyState>, s: Sample,
                         payload: seq<Byte>)
    requires device != "" && TimeToMs(s.observedAt).Ok?
    ensures var r := CommitSample(maxGap, db, device, anchor, s, payload).1;
            var known := if device in db.lastSuccess then db.lastSuccess[device] else 0;
            && (EarlyDuplicate(db, device, s.observedAt) ==> !(r.Ok? && r.value.Committed?))
            && (ExpectedRow(anchor).Ok? && ToRow(Apply(maxGap, anchor, s).next).Ok? && 0 < known ==>
                  (r == Ok(Database.AlreadyCommitted)
                   <==> EarlyDuplicate(db, device, s.observedAt)
                        || known * NS_PER_MS < s.observedAt < (known + 1) * NS_PER_MS))
  {
    hide Apply;
    if device in db.lastSuccess && db.lastSuccess[device] > 0 {
      TruncatedOrder(s.observedAt, db.lastSuccess[device]);
    }
  }

  lemma TruncatedOrder(t: int, ms: int)
    requires 0 <= t
    ensures t / NS_PER_MS <= ms <==> t < (ms + 1) * NS_PER_MS
  {
  }

  // ---- No collector wedges ----

  // The stored anchor is never later than the last success, and the total is within its bounds.
  ghost predicate Anchored(db: Database.Db, device: string) {
    device in db.energy ==>
      var row := db.energy[device];
      && 0.0 <= row.totalKwh <= Database.MAX_ENERGY_KWH
      && (row.lastPower.Some? ==> 0.0 <= row.lastPower.value)
      && (row.lastSampleMs.Some? ==>
            device in db.lastSuccess && 0 < row.lastSampleMs.value <= db.lastSuccess[device] <= Database.I64_MAX)
  }

  lemma CommitKeepsAnchored(maxGap: nat, db: Database.Db, device: string, anchor: Option<EnergyState>, s: Sample,
                            payload: seq<Byte>, other: string)
    requires Anchored(db, other) && ValidSample(s) && ReadEnergyMatches(anchor)
    ensures Anchored(CommitSample(maxGap, db, device, anchor, s, payload).0, other)
  {
    StepNeverLowersTotal(maxGap, anchor, s);
    hide Apply;
  }

  // Anchors come from rows whose power is a confirmed one.
  ghost predicate ReadEnergyMatches(anchor: Option<EnergyState>) {
    anchor.Some? && anchor.value.lastPower.Some? ==> 0.0 <= anchor.value.lastPower.value
  }

  ghost predicate ValidStep(step: Step) {
    SpoolOnly(step) && (step.TryCommit? ==> ValidSample(step.sample))
  }

  /** In every reachable state the anchor is no later than the last success. */
  lemma {:induction false} AnchorNeverAhead(cfg: Database.Config, maxGap: nat, steps: seq<Step>, device: string)
    requires forall step <- steps :: ValidStep(step)
    ensures var w := Run(cfg, maxGap, steps);
            Anchored(w.db, device) && forall c <- w.anchors :: ReadEnergyMatches(w.anchors[c].1)
    decreases |steps|
  {
    if steps != [] {
      var n := |steps| - 1;
      AnchorNeverAhead(cfg, maxGap, steps[..n], device);
      var w, step := Run(cfg, maxGap, steps[..n]), steps[n];
      hide Run, CommitSample, Anchored;
      assert ValidStep(step);
      match step
      case ReadAnchor(_, d) =>
        AnchorNeverAhead(cfg, maxGap, steps[..n], d);
        ReadMatches(w.db, d);
      case TryCommit(c, s, payload) =>
        if c in w.anchors {
          CommitKeepsAnchored(maxGap, w.db, w.anchors[c].0, w.anchors[c].1, s, payload, device);
        }
      case Crash(_) =>
      case Spool(_) =>
        SpoolKeepsAcquisitions(cfg, w.db, step);
        SameAnchored(w.db, SpoolRuns.Execute(cfg, w.db, step.op).0, device);
    }
  }

  lemma ReadMatches(db: Database.Db, device: string)
    requires Anchored(db, device)
    ensures ReadEnergy(db, device).Ok? ==> ReadEnergyMatches(ReadEnergy(db, device).value)
  {
  }

  lemma SameAnchored(db: Database.Db, next: Database.Db, device: string)
    requires Anchored(db, device) && next.energy == db.energy && next.lastSuccess == db.lastSuccess
    ensures Anchored(next, device)
  {
  }

  /**
    A collector never wedges: from any reachable state, reading the anchor and committing a valid sample newer than the
    last success succeeds exactly when the new total is still within its bound. Draining the spool in between does not
    matter, nor do other devices.
   */
  lemma FreshSampleCommits(cfg: Database.Config, maxGap: nat, steps: seq<Step>, device: string, s: Sample,
                           payload: seq<Byte>, later: Database.Db)
    requires forall step <- steps :: ValidStep(step)
    requires device != "" && payload != [] && ValidSample(s) && TimeToMs(s.observedAt).Ok?
    requires var db := Run(cfg, maxGap, steps).db;
             && !Database.Superseded(db, device, TimeToMs(s.observedAt).value)
             && later.energy == db.energy && later.lastSuccess == db.lastSuccess
    ensures var anchor := ReadEnergy(Run(cfg, maxGap, steps).db, device);
            && anchor.Ok?
            && var r := CommitSample(maxGap, later, device, anchor.value, s, payload).1;
               r == Ok(Database.Committed(later.nextId))
               <==> Apply(maxGap, anchor.value, s).next.totalKwh <= Database.MAX_ENERGY_KWH
  {
    AnchorNeverAhead(cfg, maxGap, steps, device);
    SameAnchored(Run(cfg, maxGap, steps).db, later, device);
    FreshCommit(maxGap, later, device, s, payload);
  }

  lemma FreshCommit(maxGap: nat, db: Database.Db, device: string, s: Sample, payload: seq<Byte>)
    requires device != "" && payload != [] && ValidSample(s) && TimeToMs(s.observedAt).Ok? && Anchored(db, device)
    requires !Database.Superseded(db, device, TimeToMs(s.observedAt).value)
    ensures var anchor := ReadEnergy(db, device);
            && anchor.Ok?
            && var r := CommitSample(maxGap, db, device, anchor.value, s, payload).1;
               r == Ok(Database.Committed(db.nextId))
               <==> Apply(maxGap, anchor.value, s).next.totalKwh <= Database.MAX_ENERGY_KWH
  {
    var anchor := ReadEnergy(db, device).value;
    StepNeverLowersTotal(maxGap, anchor, s);
    AnchorTime(maxGap, anchor, s);
    ReadBack(db, device);
    hide Apply;
  }

  lemma AnchorTime(maxGap: nat, anchor: Option<EnergyState>, s: Sample)
    ensures var at := Apply(maxGap, anchor, s).next.lastSampleAt;
            at == Some(s.observedAt) || (anchor.Some? && at == anchor.value.lastSampleAt)
  {
  }

  lemma ReadBack(db: Database.Db, device: string)
    requires Anchored(db, device)
    ensures ReadEnergy(db, device).Ok?
    ensures ExpectedRow(ReadEnergy(db, device).value) == Ok(Database.StoredEnergy(db, device))
  {
  }

  // ---- Time through the adapter ----

  /** A time is stored as the last whole millisecond not after it, if that is positive and fits the column. */
  lemma MillisecondOf(t: int, ms: int)
    ensures TimeToMs(t) == Ok(ms) <==> ms * NS_PER_MS <= t < (ms + 1) * NS_PER_MS && 0 < ms <= Database.I64_MAX
    ensures MsToTime(ms) == Ok(t) <==> t == ms * NS_PER_MS && 0 < ms
  {
  }
}
