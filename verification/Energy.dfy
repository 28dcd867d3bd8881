/**
  The energy policy of the service: which samples anchor the accumulator, when an interval is
  integrated, and what a whole run of samples adds up to.

  Times are nanoseconds since the Unix epoch (the resolution of `SystemTime`); power and energy are reals.
 */
module Energy {
  import opened Wrappers

  datatype Quality = ConfirmedNative | Candidate | Derived | LocallyIntegrated

  datatype Reading = Reading(value: real, quality: Quality)

  datatype Sample = Sample(observedAt: int, pvPower: Option<Reading>, yieldTotal: Option<Reading>)

  datatype EnergyState = EnergyState(totalKwh: real, lastPower: Option<real>, lastSampleAt: Option<int>)

  datatype EnergyKind = Native | Integrated | Started | Skipped

  datatype EnergyOutcome = EnergyOutcome(kind: EnergyKind, totalKwh: real, skippedGap: Option<nat>, next: EnergyState)

  // The domain builder admits PV power in this interval only.
  const MAX_PV_POWER: real := 30_000.0

  predicate ValidSample(s: Sample) {
    s.pvPower.Some? ==> 0.0 <= s.pvPower.value.value <= MAX_PV_POWER
  }

  predicate IsNative(s: Sample) {
    s.yieldTotal.Some? && s.yieldTotal.value.quality == ConfirmedNative
  }

  function ConfirmedPower(s: Sample): Option<real> {
    if s.pvPower.Some? && s.pvPower.value.quality == ConfirmedNative then Some(s.pvPower.value.value) else None
  }

  function UpdatedState(prev: Option<EnergyState>, s: Sample): EnergyState {
    EnergyState(if prev.Some? then prev.value.totalKwh else 0.0, ConfirmedPower(s), Some(s.observedAt))
  }

  function Apply(maxGap: nat, prev: Option<EnergyState>, s: Sample): EnergyOutcome {
    if IsNative(s) then
      EnergyOutcome(Native, s.yieldTotal.value.value, None, UpdatedState(prev, s))
    else if prev.None? then
      EnergyOutcome(Started, 0.0, None, UpdatedState(None, s))
    else
      var p := prev.value;
      if p.lastSampleAt.None? then
        EnergyOutcome(Started, p.totalKwh, None, UpdatedState(prev, s))
      else if s.observedAt <= p.lastSampleAt.value then
        EnergyOutcome(Skipped, p.totalKwh, None, p)
      else if ConfirmedPower(s).None? then
        EnergyOutcome(Skipped, p.totalKwh, None, p)
      else if p.lastPower.None? then
        EnergyOutcome(Started, p.totalKwh, None, UpdatedState(prev, s))
      else
        var gap := s.observedAt - p.lastSampleAt.value;
        if gap > maxGap then
          EnergyOutcome(Skipped, p.totalKwh, Some(gap), UpdatedState(prev, s))
        else
          var total := p.totalKwh + Trapezoid(p.lastPower.value, ConfirmedPower(s).value, gap);
          EnergyOutcome(Integrated, total, None, UpdatedState(prev, s).(totalKwh := total))
  }

  // (previous + current) / 2 watts held for `gap` nanoseconds, in kWh.
  function Trapezoid(previous: real, current: real, gap: int): real {
    (previous + current) / 2.0 * (gap as real / 1_000_000_000.0) / 3_600_000.0
  }

  // ---- Persistence through the millisecond columns of the store ----

  const NS_PER_MS: int := 1_000_000

  // What a stored time reads back as: whole milliseconds.
  function Stored(t: int): int {
    t / NS_PER_MS * NS_PER_MS
  }

  function StoredState(e: EnergyState): EnergyState {
    e.(lastSampleAt := if e.lastSampleAt.Some? then Some(Stored(e.lastSampleAt.value)) else None)
  }

  // The state after committing `samples` in order, each computed from the state stored by its predecessor.
  function Accumulate(maxGap: nat, samples: seq<Sample>): Option<EnergyState> {
    if samples == [] then None
    else
      var n := |samples| - 1;
      Some(StoredState(Apply(maxGap, Accumulate(maxGap, samples[..n]), samples[n]).next))
  }

  // ---- What a run adds up to ----

  // Committed samples carry strictly increasing millisecond identities.
  predicate Increasing(samples: seq<Sample>) {
    forall i, j :: 0 <= i < j < |samples| ==> Stored(samples[i].observedAt) < Stored(samples[j].observedAt)
  }

  // The samples the accumulator measures from: the first one, every native one, every one with confirmed power.
  function Anchors(samples: seq<Sample>): seq<Sample> {
    if samples == [] then []
    else
      var n := |samples| - 1;
      var before := Anchors(samples[..n]);
      if n == 0 || IsNative(samples[n]) || ConfirmedPower(samples[n]).Some? then before + [samples[n]] else before
  }

  predicate Bridged(maxGap: nat, a: Sample, b: Sample) {
    !IsNative(b) && ConfirmedPower(a).Some? && ConfirmedPower(b).Some?
    && b.observedAt - Stored(a.observedAt) <= maxGap
  }

  // The kWh between two neighbouring anchors.
  function Contribution(maxGap: nat, a: Sample, b: Sample): real {
    if Bridged(maxGap, a, b) then
      Trapezoid(ConfirmedPower(a).value, ConfirmedPower(b).value, b.observedAt - Stored(a.observedAt))
    else 0.0
  }

  function SumOfTrapezoids(maxGap: nat, anchors: seq<Sample>): real {
    if |anchors| < 2 then 0.0
    else
      var n := |anchors| - 1;
      SumOfTrapezoids(maxGap, anchors[..n]) + Contribution(maxGap, anchors[n - 1], anchors[n])
  }

  lemma {:induction false} LastAnchor(samples: seq<Sample>)
    requires samples != []
    ensures Anchors(samples) != []
    ensures Anchors(samples)[|Anchors(samples)| - 1] in samples
  {
    var n := |samples| - 1;
    if n > 0 {
      LastAnchor(samples[..n]);
    }
  }

  lemma FirstStep(maxGap: nat, s: Sample)
    ensures var out := Apply(maxGap, None, s);
            out.next == EnergyState(0.0, ConfirmedPower(s), Some(s.observedAt)) && Accounted(maxGap, None, s) == 0
  {
  }

  // One step from a state anchored at `a`, for a later sample.
  lemma StepFromAnchor(maxGap: nat, total: real, a: Sample, s: Sample)
    requires Stored(a.observedAt) < s.observedAt
    ensures var prev := EnergyState(total, ConfirmedPower(a), Some(Stored(a.observedAt)));
            var out := Apply(maxGap, Some(prev), s);
            && (IsNative(s) || ConfirmedPower(s).Some? ==>
                  out.next == EnergyState(total + Contribution(maxGap, a, s), ConfirmedPower(s), Some(s.observedAt)))
            && (!IsNative(s) && ConfirmedPower(s).None? ==> out.next == prev)
            && (!IsNative(s) ==>
                  Accounted(maxGap, Some(prev), s)
                  == if ConfirmedPower(a).Some? && ConfirmedPower(s).Some? then s.observedAt - Stored(a.observedAt) else 0)
  {
  }

  lemma LaterThanAnchor(samples: seq<Sample>, a: Sample)
    requires Increasing(samples) && samples != [] && a in samples[..|samples| - 1]
    ensures Stored(a.observedAt) < samples[|samples| - 1].observedAt
    ensures Increasing(samples[..|samples| - 1])
  {
    assert forall t :: Stored(t) <= t;
    var i :| 0 <= i < |samples| - 1 && samples[i] == a;
    assert Stored(samples[i].observedAt) < Stored(samples[|samples| - 1].observedAt);
  }

  lemma StoredTwice(t: int)
    ensures Stored(Stored(t)) == Stored(t) == t - t % NS_PER_MS
  {
  }

  /** The stored total of any committed run is the sum of the trapezoids between neighbouring anchors. */
  lemma {:induction false} TotalIsSumOfTrapezoids(maxGap: nat, samples: seq<Sample>)
    requires Increasing(samples) && samples != []
    ensures var anchors := Anchors(samples);
            anchors != [] &&
            var last := anchors[|anchors| - 1];
            Accumulate(maxGap, samples)
            == Some(EnergyState(SumOfTrapezoids(maxGap, anchors), ConfirmedPower(last), Some(Stored(last.observedAt))))
  {
    hide Apply, Contribution;
    var n := |samples| - 1;
    if n > 0 {
      var before, s := samples[..n], samples[n];
      LastAnchor(before);
      var anchors := Anchors(before);
      var last := anchors[|anchors| - 1];
      LaterThanAnchor(samples, last);
      TotalIsSumOfTrapezoids(maxGap, before);
      StepFromAnchor(maxGap, SumOfTrapezoids(maxGap, anchors), last, s);
      StoredTwice(last.observedAt);
      assert (anchors + [s])[..|anchors|] == anchors;
    } else {
      assert samples[..0] == [];
      FirstStep(maxGap, samples[0]);
    }
  }

  /** A step never lowers the stored total. */
  lemma StepNeverLowersTotal(maxGap: nat, prev: Option<EnergyState>, s: Sample)
    requires ValidSample(s)
    requires prev.Some? && prev.value.lastPower.Some? ==> 0.0 <= prev.value.lastPower.value
    ensures var next := Apply(maxGap, prev, s).next;
            (if prev.Some? then prev.value.totalKwh else 0.0) <= next.totalKwh
            && (next.lastPower.Some? ==> 0.0 <= next.lastPower.value)
  {
    if prev.Some? && prev.value.lastPower.Some? && prev.value.lastSampleAt.Some? && ConfirmedPower(s).Some? {
      TrapezoidSign(prev.value.lastPower.value, ConfirmedPower(s).value, s.observedAt - prev.value.lastSampleAt.value);
    }
  }

  lemma TrapezoidSign(previous: real, current: real, gap: int)
    requires 0.0 <= previous && 0.0 <= current
    ensures 0 <= gap ==> 0.0 <= Trapezoid(previous, current, gap)
  {
    if 0 <= gap {
      var mean, held := (previous + current) / 2.0, gap as real / 1_000_000_000.0;
      assert 0.0 <= mean && 0.0 <= held;
      assert 0.0 <= mean * held;
    }
  }

  /** Over any run of valid samples the stored total never decreases and never becomes negative. */
  lemma {:induction false} TotalNeverDecreases(maxGap: nat, samples: seq<Sample>, k: nat)
    requires forall s <- samples :: ValidSample(s)
    requires 0 < k <= |samples|
    ensures Accumulate(maxGap, samples[..k]).Some? && Accumulate(maxGap, samples).Some?
    ensures 0.0 <= Accumulate(maxGap, samples[..k]).value.totalKwh <= Accumulate(maxGap, samples).value.totalKwh
    ensures var last := Accumulate(maxGap, samples).value.lastPower; last.Some? ==> 0.0 <= last.value
    decreases |samples|
  {
    var n := |samples| - 1;
    var before := Accumulate(maxGap, samples[..n]);
    if n > 0 {
      TotalNeverDecreases(maxGap, samples[..n], if k <= n then k else n);
    }
    StepNeverLowersTotal(maxGap, before, samples[n]);
    if k <= n {
      assert samples[..n][..k] == samples[..k];
    } else {
      assert samples[..k] == samples;
    }
  }

  // ---- Accounting for time ----

  // The nanoseconds one step integrated or reported as a skipped gap.
  function Accounted(maxGap: nat, prev: Option<EnergyState>, s: Sample): int {
    var out := Apply(maxGap, prev, s);
    if out.kind == Integrated && prev.Some? && prev.value.lastSampleAt.Some? then
      s.observedAt - prev.value.lastSampleAt.value
    else if out.skippedGap.Some? then out.skippedGap.value
    else 0
  }

  function TotalAccounted(maxGap: nat, samples: seq<Sample>): int {
    if samples == [] then 0
    else
      var n := |samples| - 1;
      TotalAccounted(maxGap, samples[..n]) + Accounted(maxGap, Accumulate(maxGap, samples[..n]), samples[n])
  }

  function Confirmed(samples: seq<Sample>): seq<Sample> {
    if samples == [] then []
    else
      var n := |samples| - 1;
      Confirmed(samples[..n]) + if ConfirmedPower(samples[n]).Some? then [samples[n]] else []
  }

  // What storing each sample but the last cut off its observation time.
  function Remainders(samples: seq<Sample>): int {
    if |samples| < 2 then 0
    else
      var n := |samples| - 1;
      Remainders(samples[..n]) + samples[n - 1].observedAt % NS_PER_MS
  }

  lemma {:induction false} AnchorsWithoutNative(samples: seq<Sample>)
    requires samples != [] && forall s <- samples :: !IsNative(s)
    ensures Anchors(samples) == (if ConfirmedPower(samples[0]).Some? then [] else [samples[0]]) + Confirmed(samples)
  {
    var n := |samples| - 1;
    if n > 0 {
      AnchorsWithoutNative(samples[..n]);
    } else {
      assert samples[..0] == [];
    }
  }

  /**
    Without a native yield, integrated plus reported time is exactly the span from the first to the last confirmed
    sample, plus the sub-millisecond remainders that storing the anchors cut off.
   */
  lemma {:induction false} TimeIsAccountedFor(maxGap: nat, samples: seq<Sample>)
    requires Increasing(samples) && forall s <- samples :: !IsNative(s)
    ensures var c := Confirmed(samples);
            TotalAccounted(maxGap, samples)
            == if c == [] then 0 else c[|c| - 1].observedAt - c[0].observedAt + Remainders(c)
  {
    hide Apply, Accounted, Contribution;
    if samples == [] {
    } else if |samples| == 1 {
      assert samples[..0] == [];
      FirstStep(maxGap, samples[0]);
    } else {
      var n := |samples| - 1;
      var before, s := samples[..n], samples[n];
      LastAnchor(before);
      var anchors, c := Anchors(before), Confirmed(before);
      var last := anchors[|anchors| - 1];
      LaterThanAnchor(samples, last);
      TimeIsAccountedFor(maxGap, before);
      TotalIsSumOfTrapezoids(maxGap, before);
      StepFromAnchor(maxGap, SumOfTrapezoids(maxGap, anchors), last, s);
      AnchorsWithoutNative(before);
      ConfirmedAreConfirmed(before);
      StoredTwice(last.observedAt);
      if c == [] {
        assert last == samples[0];
        assert TotalAccounted(maxGap, samples) == 0;
      } else {
        assert last == c[|c| - 1];
        assert (c + [s])[..|c|] == c;
        if ConfirmedPower(s).Some? {
          assert Confirmed(samples) == c + [s];
          assert Remainders(c + [s]) == Remainders(c) + last.observedAt % NS_PER_MS;
        } else {
          assert Confirmed(samples) == c;
        }
      }
    }
  }

  lemma {:induction false} ConfirmedAreConfirmed(samples: seq<Sample>)
    ensures forall s <- Confirmed(samples) :: ConfirmedPower(s).Some? && s in samples
  {
    if samples != [] {
      ConfirmedAreConfirmed(samples[..|samples| - 1]);
    }
  }

  /** Samples taken on whole milliseconds lose nothing: the accounting is exact. */
  lemma {:induction false} WholeMillisecondsAreExact(maxGap: nat, samples: seq<Sample>)
    requires Increasing(samples) && forall s <- samples :: !IsNative(s) && s.observedAt % NS_PER_MS == 0
    ensures var c := Confirmed(samples);
            c != [] ==> TotalAccounted(maxGap, samples) == c[|c| - 1].observedAt - c[0].observedAt
  {
    TimeIsAccountedFor(maxGap, samples);
    ConfirmedAreConfirmed(samples);
    NoRemainders(Confirmed(samples));
  }

  lemma {:induction false} NoRemainders(samples: seq<Sample>)
    requires forall s <- samples :: s.observedAt % NS_PER_MS == 0
    ensures Remainders(samples) == 0
  {
    if |samples| >= 2 {
      NoRemainders(samples[..|samples| - 1]);
    }
  }

  /**
    The published figure, unlike the stored total, can fall: a native counter that disappears hands over to the
    local accumulator, which starts from zero.
   */
  lemma PublishedYieldCanFall()
    ensures var a := Sample(1_000_000, None, Some(Reading(42.5, ConfirmedNative)));
            var b := Sample(2_000_000, None, None);
            var first := Apply(0, None, a);
            ValidSample(a) && ValidSample(b)
            && Apply(0, Some(StoredState(first.next)), b).totalKwh < first.totalKwh
  {
  }

  /**
    Exactly when the published figure holds over two steps: a native successor must not report less; otherwise
    either the first figure was local too, or the native figure is covered by the accumulator.
   */
  lemma PublishedYieldHolds(maxGap: nat, prev: Option<EnergyState>, a: Sample, b: Sample)
    requires ValidSample(a) && ValidSample(b) && Stored(a.observedAt) < b.observedAt
    requires prev.Some? && prev.value.lastPower.Some? ==> 0.0 <= prev.value.lastPower.value
    ensures var first := Apply(maxGap, prev, a);
            var second := Apply(maxGap, Some(StoredState(first.next)), b);
            var stored := if prev.Some? then prev.value.totalKwh else 0.0;
            first.totalKwh <= second.totalKwh
            <==> if IsNative(b) then first.totalKwh <= b.yieldTotal.value.value
                 else !IsNative(a) || a.yieldTotal.value.value <= stored + Contribution(maxGap, a, b)
  {
    var first := Apply(maxGap, prev, a);
    StepNeverLowersTotal(maxGap, prev, a);
    StepNeverLowersTotal(maxGap, Some(StoredState(first.next)), b);
  }

  /** What a step publishes: the native counter, or else the total it stores; a gap is reported only when it is too long. */
  lemma PublishedIsStored(maxGap: nat, prev: Option<EnergyState>, s: Sample)
    ensures var out := Apply(maxGap, prev, s);
            && (out.kind == Native <==> IsNative(s))
            && out.totalKwh == (if IsNative(s) then s.yieldTotal.value.value else out.next.totalKwh)
            && (out.skippedGap.Some? <==>
                  && !IsNative(s) && ConfirmedPower(s).Some? && prev.Some? && prev.value.lastPower.Some?
                  && prev.value.lastSampleAt.Some? && s.observedAt - prev.value.lastSampleAt.value > maxGap)
            && (out.skippedGap.Some? ==> out.skippedGap.value == s.observedAt - prev.value.lastSampleAt.value)
            && (out.kind == Started <==>
                  !IsNative(s) && (prev.None? || prev.value.lastSampleAt.None?
                    || (s.observedAt > prev.value.lastSampleAt.value && ConfirmedPower(s).Some? && prev.value.lastPower.None?)))
            && (out.kind == Integrated ==> out.next.lastSampleAt == Some(s.observedAt) && out.skippedGap.None?)
  {
    hide Trapezoid;
  }
}
