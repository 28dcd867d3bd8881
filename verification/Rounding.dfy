/**
  Rounding hundredths to whole units, ties to even, and how far it can move the energy total of a run.
 */
module Rounding {
  import opened Wrappers
  import opened Energy

  // Division that truncates toward zero, and its remainder, which has the sign of the dividend.
  function Quotient(v: int): int {
    if v >= 0 then v / 100 else -(-v / 100)
  }

  function Remainder(v: int): int {
    v - 100 * Quotient(v)
  }

  function Abs(x: int): nat {
    if x < 0 then -x else x
  }

  function Signum(v: int): int {
    if v > 0 then 1 else if v < 0 then -1 else 0
  }

  function RoundHundredths(v: int): int {
    var q, r := Quotient(v), Remainder(v);
    if r == 0 then q
    else if Abs(r) < 50 then q
    else if Abs(r) > 50 then q + Signum(v)
    else if Abs(q) % 2 == 0 then q
    else q + Signum(v)
  }

  /** The result is the nearest integer, the even one of two equally near, and no other integer is both. */
  lemma NearestTiesToEven(v: int, n: int)
    ensures n == RoundHundredths(v) <==> Abs(100 * n - v) < 50 || (Abs(100 * n - v) == 50 && n % 2 == 0)
  {
    var q, r := Quotient(v), Remainder(v);
    assert -100 < r < 100 && (v >= 0 ==> r >= 0) && (v <= 0 ==> r <= 0);
    assert Abs(q) % 2 == 0 <==> q % 2 == 0;
  }

  lemma RoundingIsOdd(v: int)
    ensures RoundHundredths(-v) == -RoundHundredths(v)
  {
    NearestTiesToEven(v, RoundHundredths(v));
    NearestTiesToEven(-v, -RoundHundredths(v));
  }

  lemma RoundingIsMonotone(v: int, w: int)
    requires v <= w
    ensures RoundHundredths(v) <= RoundHundredths(w)
  {
    NearestTiesToEven(v, RoundHundredths(v));
    NearestTiesToEven(w, RoundHundredths(w));
  }

  /** No input of 64 bits overflows on the way. */
  lemma RoundingStaysInRange(v: int)
    requires -0x8000_0000_0000_0000 <= v < 0x8000_0000_0000_0000
    ensures -92_233_720_368_547_758 <= RoundHundredths(v) <= 92_233_720_368_547_758
  {
    RoundingIsMonotone(-0x8000_0000_0000_0000, v);
    RoundingIsMonotone(v, 0x7fff_ffff_ffff_ffff);
  }

  // ---- Energy from rounded and from raw power ----

  // A sample as the device reports its power: in hundredths of a watt, confirmed when present.
  datatype WireSample = WireSample(observedAt: int, hundredths: Option<int>, yieldTotal: Option<Reading>)

  function WithPower(s: WireSample, watts: real): Sample {
    Sample(s.observedAt, if s.hundredths.Some? then Some(Reading(watts, ConfirmedNative)) else None, s.yieldTotal)
  }

  function RawPower(s: WireSample): real {
    if s.hundredths.Some? then s.hundredths.value as real / 100.0 else 0.0
  }

  function RoundedPower(s: WireSample): real {
    if s.hundredths.Some? then RoundHundredths(s.hundredths.value) as real else 0.0
  }

  function Raw(samples: seq<WireSample>): (r: seq<Sample>)
    ensures |r| == |samples|
    ensures forall i :: 0 <= i < |samples| ==> r[i] == WithPower(samples[i], RawPower(samples[i]))
  {
    seq(|samples|, i requires 0 <= i < |samples| => WithPower(samples[i], RawPower(samples[i])))
  }

  function Rounded(samples: seq<WireSample>): (r: seq<Sample>)
    ensures |r| == |samples|
    ensures forall i :: 0 <= i < |samples| ==> r[i] == WithPower(samples[i], RoundedPower(samples[i]))
  {
    seq(|samples|, i requires 0 <= i < |samples| => WithPower(samples[i], RoundedPower(samples[i])))
  }

  // The nanoseconds a step integrates.
  function Integrated(maxGap: nat, prev: Option<EnergyState>, s: Sample): (ns: int)
    ensures ns >= 0
  {
    if Apply(maxGap, prev, s).kind == EnergyKind.Integrated && prev.Some? && prev.value.lastSampleAt.Some?
       && prev.value.lastSampleAt.value <= s.observedAt
    then s.observedAt - prev.value.lastSampleAt.value else 0
  }

  function IntegratedTime(maxGap: nat, samples: seq<Sample>): (ns: int)
    ensures ns >= 0
  {
    if samples == [] then 0
    else
      var n := |samples| - 1;
      IntegratedTime(maxGap, samples[..n]) + Integrated(maxGap, Accumulate(maxGap, samples[..n]), samples[n])
  }

  // Half a watt held for so many nanoseconds, in kWh.
  function HalfWatt(ns: int): real {
    0.5 * (ns as real / 1_000_000_000.0) / 3_600_000.0
  }

  predicate Near(a: real, b: real, bound: real) {
    -bound <= a - b <= bound
  }

  // Two accumulator states that differ by rounding only.
  predicate Alike(a: EnergyState, b: EnergyState, bound: real) {
    && a.lastSampleAt == b.lastSampleAt && (a.lastPower.Some? <==> b.lastPower.Some?)
    && (a.lastPower.Some? ==> Near(a.lastPower.value, b.lastPower.value, 0.5))
    && Near(a.totalKwh, b.totalKwh, bound)
  }

  predicate BothAlike(a: Option<EnergyState>, b: Option<EnergyState>, bound: real) {
    (a.None? && b.None?) || (a.Some? && b.Some? && Alike(a.value, b.value, bound))
  }

  lemma HalfWattAtMost(s: WireSample)
    ensures Near(RoundedPower(s), RawPower(s), 0.5)
  {
    if s.hundredths.Some? {
      var v := s.hundredths.value;
      var n := RoundHundredths(v);
      NearestTiesToEven(v, n);
      assert -50 <= 100 * n - v <= 50;
      assert n as real - v as real / 100.0 == (100 * n - v) as real / 100.0;
    }
  }

  lemma TrapezoidsAreNear(p: real, q: real, p': real, q': real, gap: int)
    requires Near(p, p', 0.5) && Near(q, q', 0.5) && gap >= 0
    ensures Near(Trapezoid(p, q, gap), Trapezoid(p', q', gap), HalfWatt(gap))
  {
    var mean, held := (p + q) / 2.0 - (p' + q') / 2.0, gap as real / 1_000_000_000.0;
    assert -0.5 <= mean <= 0.5 && held >= 0.0;
    ScaleBound(mean, held);
    assert Trapezoid(p, q, gap) - Trapezoid(p', q', gap) == mean * held / 3_600_000.0;
  }

  lemma ScaleBound(x: real, y: real)
    requires -0.5 <= x <= 0.5 && y >= 0.0
    ensures -0.5 * y <= x * y <= 0.5 * y
  {
  }

  lemma HalfWattAdds(a: int, b: int)
    ensures HalfWatt(a + b) == HalfWatt(a) + HalfWatt(b)
  {
  }

  // One step keeps the states alike, and moves the totals apart by half a watt of the time it integrates at most.
  lemma StepKeepsAlike(maxGap: nat, a: Option<EnergyState>, b: Option<EnergyState>, s: WireSample, bound: real)
    requires BothAlike(a, b, bound) && bound >= 0.0
    ensures var x, y := WithPower(s, RoundedPower(s)), WithPower(s, RawPower(s));
            Alike(Apply(maxGap, a, x).next, Apply(maxGap, b, y).next, bound + HalfWatt(Integrated(maxGap, a, x)))
  {
    hide Trapezoid, HalfWatt, RoundedPower, RawPower;
    HalfWattAtMost(s);
    NoTime();
    var x, y := WithPower(s, RoundedPower(s)), WithPower(s, RawPower(s));
    if Apply(maxGap, a, x).kind == EnergyKind.Integrated {
      var gap := s.observedAt - a.value.lastSampleAt.value;
      TrapezoidsAreNear(a.value.lastPower.value, RoundedPower(s), b.value.lastPower.value, RawPower(s), gap);
    }
  }

  lemma NoTime()
    ensures HalfWatt(0) == 0.0
  {
  }

  /**
    Over any run the total integrated from rounded watts differs from the total integrated from raw hundredths by at
    most half a watt over the integrated time, and both integrate the same time.
   */
  lemma {:induction false} RoundingErrorIsBounded(maxGap: nat, samples: seq<WireSample>)
    ensures BothAlike(Accumulate(maxGap, Rounded(samples)), Accumulate(maxGap, Raw(samples)),
                      HalfWatt(IntegratedTime(maxGap, Rounded(samples))))
    ensures IntegratedTime(maxGap, Raw(samples)) == IntegratedTime(maxGap, Rounded(samples))
  {
    hide Apply, HalfWatt, Integrated, StoredState;
    if samples == [] {
    } else {
      var n := |samples| - 1;
      RoundingErrorIsBounded(maxGap, samples[..n]);
      assert Rounded(samples)[..n] == Rounded(samples[..n]) && Raw(samples)[..n] == Raw(samples[..n]);
      var time := IntegratedTime(maxGap, Rounded(samples[..n]));
      HalfWattIsPositive(time);
      var a, b := Accumulate(maxGap, Rounded(samples[..n])), Accumulate(maxGap, Raw(samples[..n]));
      StepKeepsAlike(maxGap, a, b, samples[n], HalfWatt(time));
      SameTime(maxGap, a, b, samples[n], HalfWatt(time));
      HalfWattAdds(time, Integrated(maxGap, a, Rounded(samples)[n]));
      StoringKeepsAlike(Apply(maxGap, a, Rounded(samples)[n]).next, Apply(maxGap, b, Raw(samples)[n]).next,
                        HalfWatt(IntegratedTime(maxGap, Rounded(samples))));
    }
  }

  lemma HalfWattIsPositive(ns: nat)
    ensures HalfWatt(ns) >= 0.0
  {
  }

  lemma SameTime(maxGap: nat, a: Option<EnergyState>, b: Option<EnergyState>, s: WireSample, bound: real)
    requires BothAlike(a, b, bound)
    ensures Integrated(maxGap, a, WithPower(s, RoundedPower(s))) == Integrated(maxGap, b, WithPower(s, RawPower(s)))
  {
    hide Trapezoid, RoundedPower, RawPower;
  }

  lemma StoringKeepsAlike(a: EnergyState, b: EnergyState, bound: real)
    requires Alike(a, b, bound)
    ensures Alike(StoredState(a), StoredState(b), bound)
  {
  }
}
