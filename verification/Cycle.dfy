/**
  The phase machine, one acquisition cycle over arbitrary port results, and the run loop around it.
 */
module Cycle {
  import opened Wrappers
  import Health

  datatype CyclePhase =
    | Idle | Discovering | Connecting | Negotiating | Subscribing | Requesting | Collecting
    | Persisting | Delivering | Disconnecting | Backoff | ShuttingDown
  {
    predicate CanTransitionTo(next: CyclePhase) {
      match this
      case Idle => next in {Discovering, ShuttingDown}
      case Discovering => next in {Connecting, Disconnecting, Backoff, ShuttingDown}
      case Connecting => next in {Negotiating, Disconnecting, Backoff, ShuttingDown}
      case Negotiating => next in {Subscribing, Disconnecting, Backoff, ShuttingDown}
      case Subscribing => next in {Requesting, Disconnecting, Backoff, ShuttingDown}
      case Requesting => next in {Collecting, Disconnecting, Backoff, ShuttingDown}
      case Collecting => next in {Persisting, Disconnecting, Backoff, ShuttingDown}
      case Persisting => next in {Delivering, Disconnecting, Backoff, ShuttingDown}
      case Delivering => next in {Disconnecting, Backoff, ShuttingDown}
      case Disconnecting => next in {Idle, Backoff, ShuttingDown}
      case Backoff => next in {Idle, Discovering, ShuttingDown}
      case ShuttingDown => false
    }
  }

  class StateMachine {
    var current: CyclePhase
    var transitions: nat

    constructor ()
      ensures current == Idle && transitions == 0
    {
      current, transitions := Idle, 0;
    }

    method Transition(next: CyclePhase) returns (ok: bool)
      modifies this
      ensures ok <==> old(current) != next && old(current).CanTransitionTo(next)
      ensures current == if ok then next else old(current)
      ensures transitions == old(transitions) + if ok then 1 else 0
    {
      if current == next || !current.CanTransitionTo(next) {
        return false;
      }
      current := next;
      transitions := transitions + 1;
      ok := true;
    }
  }

  datatype CycleError =
    | DiscoverError | ConnectError | PlanError | NegotiateError | SubscribeError | RequestError
    | ParseError | PersistError | RenderError | DisconnectError | StateError

  datatype CommitReply = CommitFailed | CommitDone | CommitDuplicate

  // Everything the ports, the clock and the shutdown channel answer during one cycle.
  datatype Script = Script(
    discovers: bool, connects: bool, plans: bool, negotiates: bool, subscribes: bool, answers: bool,
    parses: bool, translates: bool, sampleEmpty: bool, observedAt: int,
    readsEnergy: bool, skippedGap: Option<nat>, readsSuccess: bool, lastSuccess: Option<int>,
    readsSpool: bool, renders: bool, commit: CommitReply, shutdown: bool,
    delivery: DeliveryEffect, finishes: bool)

  // What delivering batches adds to the delivery counters.
  datatype DeliveryEffect = DeliveryEffect(succeeded: nat, failed: nat, dropped: nat)

  datatype CycleOutcome =
    | Success(observedAt: int, duplicate: bool)
    | Failure(phase: CyclePhase, error: CycleError)
    | ShutdownGraceful(phase: CyclePhase, observedAt: int)

  // ---- What a cycle must do, read off its script ----

  predicate KnownDuplicate(s: Script) {
    s.lastSuccess.Some? && s.observedAt <= s.lastSuccess.value
  }

  // Later than the last success, or the first of all.
  predicate IsNews(s: Script) {
    s.lastSuccess.None? || s.observedAt > s.lastSuccess.value
  }

  predicate IsDuplicate(s: Script) {
    KnownDuplicate(s) || s.commit.CommitDuplicate?
  }

  // The first step of the script that fails, with the phase it fails in.
  function FirstFailure(s: Script): Option<(CyclePhase, CycleError)> {
    if !s.discovers then Some((Discovering, DiscoverError))
    else if !s.connects then Some((Connecting, ConnectError))
    else if !s.plans then Some((Negotiating, PlanError))
    else if !s.negotiates then Some((Negotiating, NegotiateError))
    else if !s.subscribes then Some((Subscribing, SubscribeError))
    else if !s.answers then Some((Requesting, RequestError))
    else if !s.parses || !s.translates || s.sampleEmpty then Some((Collecting, ParseError))
    else if s.observedAt <= 0 || !s.readsEnergy || !s.readsSuccess then Some((Persisting, PersistError))
    else if KnownDuplicate(s) then None
    else if !s.readsSpool then Some((Persisting, PersistError))
    else if !s.renders then Some((Persisting, RenderError))
    else if s.commit.CommitFailed? then Some((Persisting, PersistError))
    else None
  }

  function Expected(s: Script): CycleOutcome {
    match FirstFailure(s)
    case Some((phase, error)) => Failure(phase, error)
    case None =>
      if s.shutdown then ShutdownGraceful(Delivering, s.observedAt)
      else if !s.finishes then Failure(Disconnecting, DisconnectError)
      else Success(s.observedAt, IsDuplicate(s))
  }

  // ---- Walks through the phase graph ----

  // Every step of `path`, starting from `from`, is a legal transition.
  predicate Walk(from: CyclePhase, path: seq<CyclePhase>) {
    path == [] ||
    var n := |path| - 1;
    Walk(from, path[..n]) && End(from, path[..n]).CanTransitionTo(path[n])
  }

  function End(from: CyclePhase, path: seq<CyclePhase>): CyclePhase {
    if path == [] then from else path[|path| - 1]
  }

  lemma WalkExtends(from: CyclePhase, path: seq<CyclePhase>, next: CyclePhase)
    requires Walk(from, path) && End(from, path).CanTransitionTo(next)
    ensures Walk(from, path + [next]) && End(from, path + [next]) == next
  {
    assert (path + [next])[..|path|] == path;
  }

  datatype Counter = DiscoverCounter | ConnectCounter | SessionCounter | ProtocolCounter | DroppedCounter

  function Reading(h: Health.Snapshot, c: Counter): nat {
    match c
    case DiscoverCounter => h.discoverFailures
    case ConnectCounter => h.connectFailures
    case SessionCounter => h.sessionFailures
    case ProtocolCounter => h.protocolErrors
    case DroppedCounter => h.samplesDropped
  }

  // The counter a failed cycle is charged to; a state failure is charged to none.
  function Charge(e: CycleError): Option<Counter> {
    match e
    case DiscoverError => Some(DiscoverCounter)
    case ConnectError => Some(ConnectCounter)
    case NegotiateError | SubscribeError | RequestError | DisconnectError => Some(SessionCounter)
    case PlanError | ParseError => Some(ProtocolCounter)
    case PersistError | RenderError => Some(DroppedCounter)
    case StateError => None
  }

  // `after` is `before` with only failure counters moved: the one `e` is charged to, by one.
  ghost predicate ChargedOnce(before: Health.Snapshot, after: Health.Snapshot, e: CycleError) {
    && (forall c: Counter :: Reading(after, c) == Reading(before, c) + if Charge(e) == Some(c) then 1 else 0)
    && after == before.(discoverFailures := after.discoverFailures, connectFailures := after.connectFailures,
                        sessionFailures := after.sessionFailures, protocolErrors := after.protocolErrors,
                        samplesDropped := after.samplesDropped)
  }

  // A cycle that made a sample durable across a gap too long to integrate.
  predicate SkipsGap(s: Script) {
    FirstFailure(s).None? && !IsDuplicate(s) && s.skippedGap.Some?
  }

  // The whole seconds of that gap.
  function GapSeconds(s: Script): nat {
    if SkipsGap(s) then s.skippedGap.value / Health.NS_PER_S else 0
  }

  // The counters once a durable sample's gap is noted.
  function Noted(h: Health.Snapshot, s: Script): Health.Snapshot {
    if !SkipsGap(s) then h else h.(gapSkippedSeconds := Health.Capped64(h.gapSkippedSeconds + GapSeconds(s)))
  }

  // Nothing but delivery counters moved.
  predicate OnlyDelivered(before: Health.Snapshot, after: Health.Snapshot) {
    after == before.(deliveriesSucceeded := after.deliveriesSucceeded, deliveriesFailed := after.deliveriesFailed,
                     spoolDropped := after.spoolDropped)
    && before.deliveriesSucceeded <= after.deliveriesSucceeded && before.deliveriesFailed <= after.deliveriesFailed
    && before.spoolDropped <= after.spoolDropped
  }

  datatype Ending = Done(observedAt: int, duplicate: bool) | Interrupted(phase: CyclePhase, observedAt: int)

  class Context {
    const state: StateMachine
    const health: Health.Counters
    // What a recording observer has seen.
    var phases: seq<CyclePhase>

    constructor ()
      ensures fresh(state) && fresh(health)
      ensures Consistent() && state.current == Idle && phases == [] && health.snapshot == Health.ZERO
    {
      state := new StateMachine();
      health := new Health.Counters();
      phases := [];
    }

    // The observer saw a legal walk that ends where the machine is.
    predicate Consistent()
      reads this, state
    {
      Walk(Idle, phases) && End(Idle, phases) == state.current
    }

    method Goto(phase: CyclePhase) returns (ok: bool)
      requires Consistent()
      modifies this`phases, state
      ensures Consistent()
      ensures ok <==> old(state.current) != phase && old(state.current).CanTransitionTo(phase)
      ensures if ok then phases == old(phases) + [phase] && state.current == phase
              else phases == old(phases) && state.current == old(state.current)
    {
      ok := state.Transition(phase);
      if ok {
        WalkExtends(Idle, phases, phase);
        phases := phases + [phase];
      }
    }

    method AddDeliveries(effect: DeliveryEffect)
      modifies health
      ensures OnlyDelivered(old(health.snapshot), health.snapshot)
    {
      health.snapshot := health.snapshot.(
        deliveriesSucceeded := health.snapshot.deliveriesSucceeded + effect.succeeded,
        deliveriesFailed := health.snapshot.deliveriesFailed + effect.failed,
        spoolDropped := health.snapshot.spoolDropped + effect.dropped);
    }

    // One BLE exchange that succeeds or ends the cycle in `phase`.
    static function Exchange(succeeds: bool, phase: CyclePhase, error: CycleError): Outcome<(CyclePhase, CycleError)> {
      if succeeds then Pass else Fail((phase, error))
    }

    // The acquisition half: up to the collected sample.
    method Acquire(s: Script) returns (r: Result<(), (CyclePhase, CycleError)>)
      requires Consistent() && state.current == Idle
      modifies this`phases, state
      ensures Consistent()
      ensures r.Ok? ==> state.current == Collecting
                        && s.discovers && s.connects && s.plans && s.negotiates && s.subscribes && s.answers
                        && s.parses && s.translates && !s.sampleEmpty
      ensures r.Err? ==> FirstFailure(s) == Some(r.error) && state.current == r.error.0
    {
      hide Walk, End;
      var moved := Goto(Discovering);
      if !moved {
        return Err((Discovering, StateError));
      }
      :- Exchange(s.discovers, Discovering, DiscoverError);
      moved := Goto(Connecting);
      if !moved {
        return Err((Connecting, StateError));
      }
      :- Exchange(s.connects, Connecting, ConnectError);
      moved := Goto(Negotiating);
      if !moved {
        return Err((Negotiating, StateError));
      }
      if !s.plans {
        return Err((Negotiating, PlanError));
      }
      :- Exchange(s.negotiates, Negotiating, NegotiateError);
      moved := Goto(Subscribing);
      if !moved {
        return Err((Subscribing, StateError));
      }
      :- Exchange(s.subscribes, Subscribing, SubscribeError);
      moved := Goto(Requesting);
      if !moved {
        return Err((Requesting, StateError));
      }
      :- Exchange(s.answers, Requesting, RequestError);
      moved := Goto(Collecting);
      if !moved {
        return Err((Collecting, StateError));
      }
      if !s.parses {
        return Err((Collecting, ParseError));
      }
      if !s.translates {
        return Err((Collecting, ParseError));
      }
      if s.sampleEmpty {
        return Err((Collecting, ParseError));
      }
      r := Ok(());
    }

    // Reads, rendering and the atomic commit.
    method Persist(s: Script) returns (r: Result<bool, (CyclePhase, CycleError)>)
      requires Consistent() && state.current == Collecting
      requires s.discovers && s.connects && s.plans && s.negotiates && s.subscribes && s.answers
               && s.parses && s.translates && !s.sampleEmpty
      modifies this`phases, state, health
      ensures Consistent() && state.current == Persisting
      ensures r == match FirstFailure(s) case Some(e) => Err(e) case None => Ok(IsDuplicate(s))
      ensures r.Ok? && IsNews(s) ==> s.readsSpool && s.renders && !s.commit.CommitFailed?
      ensures r == Ok(false) ==> IsNews(s) && s.commit.CommitDone?
      ensures health.snapshot == Noted(old(health.snapshot), s)
    {
      var moved := Goto(Persisting);
      if !moved {
        return Err((Persisting, StateError));
      }
      if s.observedAt <= 0 {
        return Err((Persisting, PersistError));
      }
      if !s.readsEnergy {
        return Err((Persisting, PersistError));
      }
      if !s.readsSuccess {
        return Err((Persisting, PersistError));
      }
      var duplicate := s.lastSuccess.Some? && s.observedAt <= s.lastSuccess.value;
      if !duplicate {
        if !s.readsSpool {
          return Err((Persisting, PersistError));
        }
        if !s.renders {
          return Err((Persisting, RenderError));
        }
        match s.commit {
          case CommitFailed => return Err((Persisting, PersistError));
          case CommitDone =>
            if s.skippedGap.Some? {
              health.RecordEnergyGap(s.skippedGap.value);
            }
          case CommitDuplicate => duplicate := true;
        }
      }
      r := Ok(duplicate);
    }

    method CycleStates(s: Script) returns (r: Result<Ending, (CyclePhase, CycleError)>)
      requires Consistent() && state.current == Idle
      modifies this`phases, state, health
      ensures Consistent() && OnlyDelivered(Noted(old(health.snapshot), s), health.snapshot)
      ensures r.Ok? ==> match r.value
                        case Done(at, duplicate) => Expected(s) == Success(at, duplicate) && state.current == Idle
                        case Interrupted(phase, at) => Expected(s) == ShutdownGraceful(phase, at) && state.current == Persisting
      ensures r.Err? ==> Expected(s) == Failure(r.error.0, r.error.1) && state.current == r.error.0
      ensures r.Err? ==> state.current.CanTransitionTo(Disconnecting) || state.current == Disconnecting
    {
      hide Walk, End;
      var _ :- Acquire(s);
      var duplicate :- Persist(s);
      var moved := true;
      if s.shutdown {
        return Ok(Interrupted(Delivering, s.observedAt));
      }
      if !duplicate {
        moved := Goto(Delivering);
        if !moved {
          return Err((Delivering, StateError));
        }
        AddDeliveries(s.delivery);
      }
      moved := Goto(Disconnecting);
      if !moved {
        return Err((Disconnecting, StateError));
      }
      :- Exchange(s.finishes, Disconnecting, DisconnectError);
      moved := Goto(Idle);
      if !moved {
        return Err((Idle, StateError));
      }
      r := Ok(Done(s.observedAt, duplicate));
    }

    method RecordFailure(e: CycleError)
      modifies health
      ensures ChargedOnce(old(health.snapshot), health.snapshot, e)
    {
      var h := health.snapshot;
      match e {
        case DiscoverError => health.snapshot := h.(discoverFailures := h.discoverFailures + 1);
        case ConnectError => health.snapshot := h.(connectFailures := h.connectFailures + 1);
        case NegotiateError | SubscribeError | RequestError | DisconnectError =>
          health.snapshot := h.(sessionFailures := h.sessionFailures + 1);
        case PlanError | ParseError => health.snapshot := h.(protocolErrors := h.protocolErrors + 1);
        case PersistError | RenderError => health.snapshot := h.(samplesDropped := h.samplesDropped + 1);
        case StateError =>
      }
    }

    method TeardownAfterFailure() returns (ok: bool)
      requires Consistent()
      modifies this`phases, state
      ensures Consistent()
      ensures old(state.current) == Disconnecting || old(state.current).CanTransitionTo(Disconnecting) ==>
                ok && state.current == Backoff
    {
      if state.current != Disconnecting {
        var reached := Goto(Disconnecting);
        if !reached {
          return false;
        }
      }
      ok := Goto(Backoff);
    }

    method TeardownToShutdown() returns (ok: bool)
      requires Consistent()
      modifies this`phases, state
      ensures Consistent()
      ensures old(state.current) != Disconnecting && old(state.current).CanTransitionTo(Disconnecting) ==>
                ok && state.current == ShuttingDown
    {
      ok := Goto(Disconnecting);
      if ok {
        ok := Goto(ShuttingDown);
      }
    }

    /** A cycle ends as its script says, in the phase that goes with it, charged to exactly one counter if it failed. */
    method RunCycle(s: Script) returns (outcome: CycleOutcome)
      requires Consistent() && state.current == Idle
      modifies this`phases, state, health
      ensures Consistent()
      ensures outcome == Expected(s)
      ensures !outcome.Failure? && IsNews(s) ==> s.readsSpool && s.renders && !s.commit.CommitFailed?
      ensures outcome.Success? && !outcome.duplicate ==> IsNews(s) && s.commit.CommitDone?
      ensures match outcome
              case Success(_, _) =>
                state.current == Idle && OnlyDelivered(Noted(old(health.snapshot), s), health.snapshot)
              case ShutdownGraceful(_, _) =>
                state.current == ShuttingDown && OnlyDelivered(Noted(old(health.snapshot), s), health.snapshot)
              case Failure(_, error) =>
                && state.current == Backoff
                && exists h :: OnlyDelivered(Noted(old(health.snapshot), s), h) && ChargedOnce(h, health.snapshot, error)
    {
      var step := CycleStates(s);
      if step.Err? {
        var (phase, error) := step.error;
        RecordFailure(error);
        var ok := TeardownAfterFailure();
        return if ok then Failure(phase, error) else Failure(phase, StateError);
      }
      match step.value {
        case Done(at, duplicate) => outcome := Success(at, duplicate);
        case Interrupted(phase, at) =>
          var ok := TeardownToShutdown();
          outcome := if ok then ShutdownGraceful(phase, at) else Failure(phase, StateError);
      }
    }

    // Leaves for good, unless already there.
    method GotoShutdown() returns (ok: bool)
      requires Consistent()
      modifies this`phases, state
      ensures Consistent() && ok && state.current == ShuttingDown
    {
      ok := true;
      if state.current != ShuttingDown {
        ok := Goto(ShuttingDown);
      }
    }
  }
}
