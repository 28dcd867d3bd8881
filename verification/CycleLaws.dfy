/**
  What a cycle's outcome says about its ports: when a sample is durable, what a replay leaves alone, where and why a cycle
  fails and which counter that moves, and that the cycle's own duplicate test is the one the store's laws are about.
 */
module CycleLaws {
  import opened Wrappers
  import opened Bytes
  import opened Cycle
  import Collectors
  import Database
  import Energy
  import Health

  // ---- The graph of phases ----

  // The place of a phase in a cycle that succeeds.
  function Place(p: CyclePhase): nat {
    match p
    case Idle => 0
    case Discovering => 1
    case Connecting => 2
    case Negotiating => 3
    case Subscribing => 4
    case Requesting => 5
    case Collecting => 6
    case Persisting => 7
    case Delivering => 8
    case Disconnecting => 9
    case Backoff | ShuttingDown => 10
  }

  /**
    A cycle only moves on to the next phase. From every phase on the way it may also break off, a broken-off cycle starts
    over, and shutting down is possible from everywhere and final.
   */
  lemma GraphIsOneWay(a: CyclePhase, b: CyclePhase)
    ensures a.CanTransitionTo(b) <==>
              && a != ShuttingDown
              && (|| b == ShuttingDown
                  || Place(b) == Place(a) + 1 <= 9
                  || (1 <= Place(a) <= 8 && (b == Disconnecting || b == Backoff))
                  || (a == Disconnecting && (b == Idle || b == Backoff))
                  || (a == Backoff && (b == Idle || b == Discovering)))
  {
  }

  // ---- Durable samples and replays ----

  // Everything up to the test for a replay went well.
  predicate Acquired(s: Script) {
    && s.discovers && s.connects && s.plans && s.negotiates && s.subscribes && s.answers
    && s.parses && s.translates && !s.sampleEmpty && 0 < s.observedAt && s.readsEnergy && s.readsSuccess
  }

  /**
    A sample later than the last success lets a cycle succeed, or end in a graceful shutdown, only through its own commit,
    and as new only if the store took it; an older one succeeds as a duplicate.
   */
  lemma CommitDecides(s: Script)
    ensures var o := Expected(s);
            var reached := s.readsSpool && s.renders && !s.commit.CommitFailed?;
            && (o.Success? && !o.duplicate <==>
                  Acquired(s) && IsNews(s) && reached && s.commit.CommitDone? && !s.shutdown && s.finishes)
            && (o.Success? && o.duplicate <==>
                  Acquired(s) && (IsNews(s) ==> reached && s.commit.CommitDuplicate?) && !s.shutdown && s.finishes)
            && (o.ShutdownGraceful? <==> Acquired(s) && (IsNews(s) ==> reached) && s.shutdown)
            && (o.ShutdownGraceful? ==> o.phase == Delivering)
            && (o.Success? || o.ShutdownGraceful? ==> o.observedAt == s.observedAt)
            && (SkipsGap(s) <==>
                  Acquired(s) && IsNews(s) && reached && s.commit.CommitDone? && s.skippedGap.Some?)
  {
  }

  /** A replay is recognised before the spool, the renderer or the commit is asked, whatever they would answer. */
  lemma ReplayTouchesNothing(s: Script, h: Health.Snapshot, readsSpool: bool, renders: bool, commit: CommitReply)
    requires !IsNews(s)
    ensures Expected(s.(readsSpool := readsSpool, renders := renders, commit := commit)) == Expected(s)
    ensures Noted(h, s) == h
  {
  }

  // ---- Failures ----

  /** A cycle fails in the phase of the first port that fails it, after everything before that went well. */
  lemma FailsAtFirstPort(s: Script)
    ensures var o := Expected(s);
            var planned := s.discovers && s.connects && s.plans && s.negotiates;
            var collected := planned && s.subscribes && s.answers && s.parses && s.translates && !s.sampleEmpty;
            var persisted := Acquired(s) && (IsNews(s) ==> s.readsSpool && s.renders && !s.commit.CommitFailed?);
            && (o == Failure(Discovering, DiscoverError) <==> !s.discovers)
            && (o == Failure(Connecting, ConnectError) <==> s.discovers && !s.connects)
            && (o == Failure(Negotiating, PlanError) <==> s.discovers && s.connects && !s.plans)
            && (o == Failure(Negotiating, NegotiateError) <==> s.discovers && s.connects && s.plans && !s.negotiates)
            && (o == Failure(Subscribing, SubscribeError) <==> planned && !s.subscribes)
            && (o == Failure(Requesting, RequestError) <==> planned && s.subscribes && !s.answers)
            && (o == Failure(Collecting, ParseError) <==>
                  planned && s.subscribes && s.answers && (!s.parses || !s.translates || s.sampleEmpty))
            && (o == Failure(Persisting, RenderError) <==> Acquired(s) && IsNews(s) && s.readsSpool && !s.renders)
            && (o == Failure(Persisting, PersistError) <==>
                  collected && (!Acquired(s) || (IsNews(s) && (!s.readsSpool || (s.renders && s.commit.CommitFailed?)))))
            && (o == Failure(Disconnecting, DisconnectError) <==> persisted && !s.shutdown && !s.finishes)
            && (o.Failure? <==> !persisted || (!s.shutdown && !s.finishes))
  {
  }

  // `after` is `before` with one failure more, counted where the phase says; planning failures are protocol errors.
  predicate CountedByPhase(before: Health.Snapshot, after: Health.Snapshot, phase: CyclePhase, plans: bool) {
    match phase
    case Discovering => after == before.(discoverFailures := before.discoverFailures + 1)
    case Connecting => after == before.(connectFailures := before.connectFailures + 1)
    case Negotiating =>
      if plans then after == before.(sessionFailures := before.sessionFailures + 1)
      else after == before.(protocolErrors := before.protocolErrors + 1)
    case Subscribing | Requesting | Disconnecting => after == before.(sessionFailures := before.sessionFailures + 1)
    case Collecting => after == before.(protocolErrors := before.protocolErrors + 1)
    case Persisting => after == before.(samplesDropped := before.samplesDropped + 1)
    case _ => false
  }

  /** What a failed cycle is charged to is decided by the phase it failed in. */
  lemma ChargedByPhase(before: Health.Snapshot, after: Health.Snapshot, s: Script)
    requires Expected(s).Failure? && ChargedOnce(before, after, Expected(s).error)
    ensures CountedByPhase(before, after, Expected(s).phase, s.plans)
  {
    var e := Expected(s).error;
    assert Reading(after, DiscoverCounter) == Reading(before, DiscoverCounter) + if Charge(e) == Some(DiscoverCounter) then 1 else 0;
    assert Reading(after, ConnectCounter) == Reading(before, ConnectCounter) + if Charge(e) == Some(ConnectCounter) then 1 else 0;
    assert Reading(after, SessionCounter) == Reading(before, SessionCounter) + if Charge(e) == Some(SessionCounter) then 1 else 0;
    assert Reading(after, ProtocolCounter) == Reading(before, ProtocolCounter) + if Charge(e) == Some(ProtocolCounter) then 1 else 0;
    assert Reading(after, DroppedCounter) == Reading(before, DroppedCounter) + if Charge(e) == Some(DroppedCounter) then 1 else 0;
  }

  // ---- The cycle and the store ----

  // The last success as the adapter reads it.
  function ReadLastSuccess(db: Database.Db, device: string): Result<Option<int>, Collectors.PortError> {
    if device !in db.lastSuccess then Ok(None)
    else
      var at :- Collectors.MsToTime(db.lastSuccess[device]);
      Ok(Some(at))
  }

  // The script reads what the store holds.
  predicate ReadsStored(s: Script, db: Database.Db, device: string) {
    match ReadLastSuccess(db, device)
    case Ok(at) => s.readsSuccess && s.lastSuccess == at
    case Err(_) => !s.readsSuccess
  }

  // What the commit port makes of the store's answer.
  function ReplyOf(r: Result<Database.CommitOutcome, Collectors.PortError>): CommitReply {
    match r
    case Ok(Committed(_)) => CommitDone
    case Ok(AlreadyCommitted) => CommitDuplicate
    case Err(_) => CommitFailed
  }

  /** The cycle's test for a replay is the early test the store's laws speak of. */
  lemma CycleTestIsEarlyTest(s: Script, db: Database.Db, device: string)
    requires ReadsStored(s, db, device) && s.readsSuccess
    ensures KnownDuplicate(s) <==> Collectors.EarlyDuplicate(db, device, s.observedAt)
  {
  }

  /**
    Against the store, a cycle succeeds with a new sample only if the store commits it, and whenever the store would and
    no other port fails; it succeeds with a duplicate only if the store would not commit it.
   */
  lemma CycleCommitsWhatStoreCommits(s: Script, maxGap: nat, db: Database.Db, device: string,
                                     anchor: Option<Energy.EnergyState>, sample: Energy.Sample, payload: seq<Byte>)
    requires device != "" && sample.observedAt == s.observedAt && Collectors.TimeToMs(s.observedAt).Ok?
    requires ReadsStored(s, db, device)
    requires s.commit == ReplyOf(Collectors.CommitSample(maxGap, db, device, anchor, sample, payload).1)
    ensures var r := Collectors.CommitSample(maxGap, db, device, anchor, sample, payload).1;
            var commits := r.Ok? && r.value.Committed?;
            var o := Expected(s);
            && (o.Success? ==> (o.duplicate <==> !commits))
            && (commits && Acquired(s) && s.readsSpool && s.renders && !s.shutdown && s.finishes ==>
                  o == Success(s.observedAt, false))
  {
    hide Collectors.CommitSample, FirstFailure;
    Collectors.EarlyTestIsSound(maxGap, db, device, anchor, sample, payload);
    CommitDecides(s);
    if s.readsSuccess {
      CycleTestIsEarlyTest(s, db, device);
    }
  }
}
