/** The health counters the runner owns. */
module Health {
  import opened Wrappers

  const U32_MAX: nat := 0xffff_ffff
  const U64_MAX: nat := 0xffff_ffff_ffff_ffff
  const NS_PER_S: int := 1_000_000_000

  datatype Snapshot = Snapshot(
    cyclesTotal: nat, cyclesSucceeded: nat,
    discoverFailures: nat, connectFailures: nat, sessionFailures: nat, protocolErrors: nat, samplesDropped: nat,
    deliveriesSucceeded: nat, deliveriesFailed: nat, spoolDropped: nat,
    gapSkippedSeconds: nat, consecutiveFailures: nat, lastSuccess: Option<int>)
  {
    // Failures that end a cycle, over all causes.
    function CycleFailures(): nat {
      discoverFailures + connectFailures + sessionFailures + protocolErrors + samplesDropped
    }
  }

  // A saturating 64-bit counter.
  function Capped64(n: nat): nat {
    if n <= U64_MAX then n else U64_MAX
  }

  const ZERO: Snapshot := Snapshot(0, 0, 0, 0, 0, 0, 0, 0, 0, 0, 0, 0, None)

  class Counters {
    var snapshot: Snapshot

    constructor ()
      ensures snapshot == ZERO
    {
      snapshot := ZERO;
    }

    method SetLastSuccess(at: int)
      modifies this
      ensures snapshot == old(snapshot).(lastSuccess := snapshot.lastSuccess)
      ensures snapshot.lastSuccess.Some? && at <= snapshot.lastSuccess.value
      ensures old(snapshot).lastSuccess.Some? ==> old(snapshot).lastSuccess.value <= snapshot.lastSuccess.value
      ensures snapshot.lastSuccess == Some(at) || snapshot.lastSuccess == old(snapshot).lastSuccess
    {
      if snapshot.lastSuccess.None? || at > snapshot.lastSuccess.value {
        snapshot := snapshot.(lastSuccess := Some(at));
      }
    }

    method RecordCycle(ok: bool)
      modifies this
      ensures snapshot == old(snapshot).(
                cyclesTotal := old(snapshot).cyclesTotal + 1,
                cyclesSucceeded := old(snapshot).cyclesSucceeded + if ok then 1 else 0,
                consecutiveFailures := snapshot.consecutiveFailures)
      ensures ok ==> snapshot.consecutiveFailures == 0
      ensures !ok ==> snapshot.consecutiveFailures
                      == if old(snapshot).consecutiveFailures < U32_MAX then old(snapshot).consecutiveFailures + 1
                         else old(snapshot).consecutiveFailures
    {
      snapshot := snapshot.(cyclesTotal := snapshot.cyclesTotal + 1);
      if ok {
        snapshot := snapshot.(cyclesSucceeded := snapshot.cyclesSucceeded + 1, consecutiveFailures := 0);
      } else if snapshot.consecutiveFailures < U32_MAX {
        snapshot := snapshot.(consecutiveFailures := snapshot.consecutiveFailures + 1);
      }
    }

    method RecordDelivery(ok: bool)
      modifies this
      ensures snapshot == if ok then old(snapshot).(deliveriesSucceeded := old(snapshot).deliveriesSucceeded + 1)
                          else old(snapshot).(deliveriesFailed := old(snapshot).deliveriesFailed + 1)
    {
      if ok {
        snapshot := snapshot.(deliveriesSucceeded := snapshot.deliveriesSucceeded + 1);
      } else {
        snapshot := snapshot.(deliveriesFailed := snapshot.deliveriesFailed + 1);
      }
    }

    method RecordSpoolDropped()
      modifies this
      ensures snapshot == old(snapshot).(spoolDropped := old(snapshot).spoolDropped + 1)
    {
      snapshot := snapshot.(spoolDropped := snapshot.spoolDropped + 1);
    }

    // Whole seconds of a skipped gap given in nanoseconds, saturating.
    method RecordEnergyGap(gap: nat)
      modifies this
      ensures snapshot == old(snapshot).(gapSkippedSeconds := snapshot.gapSkippedSeconds)
      ensures snapshot.gapSkippedSeconds == Capped64(old(snapshot).gapSkippedSeconds + gap / NS_PER_S)
    {
      snapshot := snapshot.(gapSkippedSeconds := Capped64(snapshot.gapSkippedSeconds + gap / NS_PER_S));
    }
  }
}
