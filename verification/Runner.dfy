/**
  The run loop: drain, check for shutdown, wait, run a cycle, until shutdown is requested.
 */
module Runner {
  import opened Wrappers
  import Health
  import opened Cycle

  // What the world answers during one iteration of the loop.
  datatype Iteration = Iteration(
    drained: DeliveryEffect, shutdownAfterDrain: bool, waits: bool, shutdownAfterWait: bool, script: Script)

  datatype RunEnd =
    | Finished(cycles: nat, cyclesSucceeded: nat, graceful: bool)
    // The iterations given are used up and no shutdown has been requested yet.
    | StillRunning(cycles: nat, cyclesSucceeded: nat)

  // ---- What the cycles of a run must have counted ----

  function Succeeded(scripts: seq<Script>): nat {
    if scripts == [] then 0
    else Succeeded(scripts[..|scripts| - 1]) + if Expected(scripts[|scripts| - 1]).Failure? then 0 else 1
  }

  function FailuresOf(scripts: seq<Script>, c: Counter): nat {
    if scripts == [] then 0
    else
      var e := Expected(scripts[|scripts| - 1]);
      FailuresOf(scripts[..|scripts| - 1], c) + if e.Failure? && Charge(e.error) == Some(c) then 1 else 0
  }

  // Failed cycles since the last success.
  function FailingStreak(scripts: seq<Script>): nat {
    if scripts == [] || !Expected(scripts[|scripts| - 1]).Failure? then 0
    else FailingStreak(scripts[..|scripts| - 1]) + 1
  }

  // The latest observation time among the successful cycles.
  function LatestSuccess(scripts: seq<Script>): Option<int> {
    if scripts == [] then None
    else
      var before := LatestSuccess(scripts[..|scripts| - 1]);
      var s := scripts[|scripts| - 1];
      if Expected(s).Failure? || (before.Some? && s.observedAt <= before.value) then before else Some(s.observedAt)
  }

  // The whole seconds of all gaps skipped by cycles whose sample became durable.
  function SkippedSeconds(scripts: seq<Script>): nat {
    if scripts == [] then 0 else SkippedSeconds(scripts[..|scripts| - 1]) + GapSeconds(scripts[|scripts| - 1])
  }

  ghost predicate Tallies(h: Health.Snapshot, scripts: seq<Script>) {
    && h.cyclesTotal == |scripts|
    && h.cyclesSucceeded == Succeeded(scripts)
    && (forall c: Counter :: Reading(h, c) == FailuresOf(scripts, c))
    && h.consecutiveFailures == (if FailingStreak(scripts) <= Health.U32_MAX then FailingStreak(scripts) else Health.U32_MAX)
    && h.lastSuccess == LatestSuccess(scripts)
    && h.gapSkippedSeconds == Health.Capped64(SkippedSeconds(scripts))
  }

  /** Every cycle is a success or charged to exactly one failure counter. */
  lemma {:induction false} CyclesArePartitioned(h: Health.Snapshot, scripts: seq<Script>)
    requires Tallies(h, scripts)
    ensures h.cyclesTotal == h.cyclesSucceeded + h.CycleFailures()
  {
    assert Reading(h, DiscoverCounter) == FailuresOf(scripts, DiscoverCounter);
    assert Reading(h, ConnectCounter) == FailuresOf(scripts, ConnectCounter);
    assert Reading(h, SessionCounter) == FailuresOf(scripts, SessionCounter);
    assert Reading(h, ProtocolCounter) == FailuresOf(scripts, ProtocolCounter);
    assert Reading(h, DroppedCounter) == FailuresOf(scripts, DroppedCounter);
    FailuresAddUp(scripts);
  }

  lemma {:induction false} FailuresAddUp(scripts: seq<Script>)
    ensures |scripts| == Succeeded(scripts) + FailuresOf(scripts, DiscoverCounter) + FailuresOf(scripts, ConnectCounter)
                         + FailuresOf(scripts, SessionCounter) + FailuresOf(scripts, ProtocolCounter)
                         + FailuresOf(scripts, DroppedCounter)
  {
    if scripts != [] {
      FailuresAddUp(scripts[..|scripts| - 1]);
    }
  }

  // ---- Which cycles a run performs ----

  predicate StopsBefore(iterations: seq<Iteration>, k: nat)
    requires k < |iterations|
  {
    iterations[k].shutdownAfterDrain || (0 < k && iterations[k].waits && iterations[k].shutdownAfterWait)
  }

  // `ran` are the cycles of the first iterations, none of them stopped before or after.
  ghost predicate Performed(iterations: seq<Iteration>, ran: seq<Script>) {
    && |ran| <= |iterations|
    && forall k :: 0 <= k < |ran| ==> ran[k] == iterations[k].script && !StopsBefore(iterations, k)
  }

  predicate LastStopped(ran: seq<Script>) {
    ran != [] && Expected(ran[|ran| - 1]).ShutdownGraceful?
  }

  // What recording the outcome of a cycle over `s` makes of the counters.
  ghost predicate Recorded(h: Health.Snapshot, next: Health.Snapshot, e: CycleOutcome, at: int) {
    if e.Failure? then
      next == h.(cyclesTotal := h.cyclesTotal + 1,
                 consecutiveFailures := if h.consecutiveFailures < Health.U32_MAX then h.consecutiveFailures + 1
                                        else h.consecutiveFailures)
    else
      next == h.(cyclesTotal := h.cyclesTotal + 1, cyclesSucceeded := h.cyclesSucceeded + 1, consecutiveFailures := 0,
                 lastSuccess := if h.lastSuccess.None? || at > h.lastSuccess.value then Some(at) else h.lastSuccess)
  }

  lemma TalliesKept(before: Health.Snapshot, after: Health.Snapshot, ran: seq<Script>)
    requires Tallies(before, ran) && OnlyDelivered(before, after)
    ensures Tallies(after, ran)
  {
    forall c: Counter
      ensures Reading(after, c) == FailuresOf(ran, c)
    {
      assert Reading(before, c) == FailuresOf(ran, c);
    }
  }

  lemma OneMore(h: Health.Snapshot, delivered: Health.Snapshot, charged: Health.Snapshot, next: Health.Snapshot,
                ran: seq<Script>, s: Script)
    requires Tallies(h, ran) && OnlyDelivered(Noted(h, s), delivered)
    requires if Expected(s).Failure? then ChargedOnce(delivered, charged, Expected(s).error) else charged == delivered
    requires Recorded(charged, next, Expected(s), s.observedAt)
    ensures Tallies(next, ran + [s])
  {
    var e, longer := Expected(s), ran + [s];
    assert longer[..|ran|] == ran;
    hide Expected, SkipsGap;
    assert SkippedSeconds(longer) == SkippedSeconds(ran) + GapSeconds(s);
    forall c: Counter
      ensures Reading(next, c) == FailuresOf(longer, c)
    {
      assert Reading(h, c) == FailuresOf(ran, c);
      assert Reading(charged, c) == Reading(h, c) + if e.Failure? && Charge(e.error) == Some(c) then 1 else 0;
    }
  }

  // One cycle and the counting of it.
  method RunOne(ctx: Context, s: Script, ghost ran: seq<Script>) returns (outcome: CycleOutcome)
    requires ctx.Consistent() && ctx.state.current == Idle && Tallies(ctx.health.snapshot, ran)
    modifies ctx`phases, ctx.state, ctx.health
    ensures ctx.Consistent() && outcome == Expected(s) && Tallies(ctx.health.snapshot, ran + [s])
    ensures ctx.state.current == match outcome
                                 case Success(_, _) => Idle
                                 case Failure(_, _) => Backoff
                                 case ShutdownGraceful(_, _) => ShuttingDown
  {
    ghost var before := ctx.health.snapshot;
    outcome := ctx.RunCycle(s);
    hide Tallies;
    ghost var charged := ctx.health.snapshot;
    ghost var delivered := before;
    if outcome.Failure? {
      delivered :| OnlyDelivered(Noted(before, s), delivered) && ChargedOnce(delivered, charged, outcome.error);
    } else {
      delivered := charged;
    }
    OutcomeTime(s);
    match outcome {
      case Success(at, _) =>
        ctx.health.RecordCycle(true);
        ctx.health.SetLastSuccess(at);
      case Failure(_, _) =>
        ctx.health.RecordCycle(false);
      case ShutdownGraceful(_, at) =>
        ctx.health.RecordCycle(true);
        ctx.health.SetLastSuccess(at);
    }
    OneMore(before, delivered, charged, ctx.health.snapshot, ran, s);
  }

  lemma OutcomeTime(s: Script)
    ensures Expected(s).Success? ==> Expected(s).observedAt == s.observedAt
    ensures Expected(s).ShutdownGraceful? ==> Expected(s).observedAt == s.observedAt
  {
  }

  lemma PerformedMore(iterations: seq<Iteration>, ran: seq<Script>)
    requires Performed(iterations, ran) && |ran| < |iterations| && !StopsBefore(iterations, |ran|)
    ensures Performed(iterations, ran + [iterations[|ran|].script])
  {
  }

  // The part of an iteration before its cycle: drain, heed a shutdown, become idle, and wait unless it is the first.
  method Prepare(ctx: Context, it: Iteration, first: bool, ghost ran: seq<Script>) returns (r: Result<bool, CycleError>)
    requires ctx.Consistent() && (ctx.state.current == Idle || ctx.state.current == Backoff)
    requires Tallies(ctx.health.snapshot, ran)
    modifies ctx`phases, ctx.state, ctx.health
    ensures ctx.Consistent() && Tallies(ctx.health.snapshot, ran)
    ensures r == Ok(it.shutdownAfterDrain || (!first && it.waits && it.shutdownAfterWait))
    ensures ctx.state.current == if r.value then ShuttingDown else Idle
  {
    hide Tallies, Walk, End;
    ghost var before := ctx.health.snapshot;
    ctx.AddDeliveries(it.drained);
    TalliesKept(before, ctx.health.snapshot, ran);
    if it.shutdownAfterDrain {
      var stopped := ctx.GotoShutdown();
      return if stopped then Ok(true) else Err(StateError);
    }
    if ctx.state.current != Idle {
      var idle := ctx.Goto(Idle);
      if !idle {
        return Err(StateError);
      }
    }
    if !first && it.waits && it.shutdownAfterWait {
      var stopped := ctx.GotoShutdown();
      return if stopped then Ok(true) else Err(StateError);
    }
    r := Ok(false);
  }

  lemma SucceededMore(ran: seq<Script>, s: Script)
    ensures Succeeded(ran + [s]) == Succeeded(ran) + if Expected(s).Failure? then 0 else 1
  {
    hide Expected;
    assert (ran + [s])[..|ran|] == ran;
  }

  /**
    Whatever the ports answer and whenever shutdown comes, the run never meets an illegal transition; it performs the
    cycles of the iterations up to the first stop, every phase change is a legal step, and the counters tally them.
   */
  method Run(ctx: Context, iterations: seq<Iteration>) returns (r: Result<RunEnd, CycleError>, ran: seq<Script>)
    requires ctx.Consistent() && ctx.state.current == Idle && ctx.health.snapshot == Health.ZERO
    modifies ctx`phases, ctx.state, ctx.health
    ensures r.Ok? && ctx.Consistent()
    ensures Performed(iterations, ran) && Tallies(ctx.health.snapshot, ran)
    ensures r.value.cycles == |ran| && r.value.cyclesSucceeded == Succeeded(ran)
    ensures forall k :: 0 <= k < |ran| - 1 ==> !Expected(ran[k]).ShutdownGraceful?
    ensures iterations != [] && !iterations[0].shutdownAfterDrain ==> ran != []
    ensures |ran| < |iterations| && !LastStopped(ran) ==>
              var it := iterations[|ran|];
              it.shutdownAfterDrain || (ran != [] && it.waits && it.shutdownAfterWait)
    ensures match r.value
            case Finished(_, _, graceful) =>
              && graceful && ctx.state.current == ShuttingDown
              && (LastStopped(ran) || (|ran| < |iterations| && StopsBefore(iterations, |ran|)))
            case StillRunning(_, _) =>
              && (ctx.state.current == Idle || ctx.state.current == Backoff)
              && |ran| == |iterations| && !LastStopped(ran)
  {
    var cycles, succeeded := 0, 0;
    ran := [];
    for k := 0 to |iterations|
      invariant ctx.Consistent()
      invariant ctx.state.current == Idle || ctx.state.current == Backoff
      invariant |ran| == k == cycles && succeeded == Succeeded(ran)
      invariant Performed(iterations, ran) && Tallies(ctx.health.snapshot, ran)
      invariant forall i :: 0 <= i < |ran| ==> !Expected(ran[i]).ShutdownGraceful?
    {
      hide Expected, Tallies, Walk, End, Succeeded, Performed;
      var it := iterations[k];
      var stopped := Prepare(ctx, it, cycles == 0, ran);
      if stopped.Err? {
        return Err(StateError), ran;
      }
      if stopped.value {
        return Ok(Finished(cycles, succeeded, true)), ran;
      }
      var outcome := RunOne(ctx, it.script, ran);
      cycles := cycles + 1;
      if !outcome.Failure? {
        succeeded := succeeded + 1;
      }
      SucceededMore(ran, it.script);
      PerformedMore(iterations, ran);
      ran := ran + [it.script];
      if outcome.ShutdownGraceful? {
        return Ok(Finished(cycles, succeeded, true)), ran;
      }
    }
    r := Ok(StillRunning(cycles, succeeded));
  }
}
