/** What a sample says to the scan, in plain terms: the limits and thresholds of
    firmware/src/heater_supply_scan.rs written out over the fields of the sample and of the scan. The
    theorems about runs speak this language, and the lemmas here tie the model's tests to it. */
module ScanSample {
  import opened Arithmetic
  import opened BoundaryData
  import opened ScanModel

  // ---------------------------------------------------------------------------------------------
  // Which samples are observations.

  predicate Running(s: Scan) { !s.phase.Complete? && !s.phase.Failed? }

  /** The calibrated WiFi state and plausible readings. */
  predicate Clean(s: Scan, i: Input)
  {
    && i.wifiStarted == s.boundary.wifiStarted
    && 0 < i.rtdMv && 0 < i.vinMv && i.rtdCode <= 4_095 && i.vinCode <= 4_095
  }

  /** A 3 A probe has lasted ten seconds. */
  predicate ProbeOverdue(s: Scan, i: Input) { s.normalProbe && i.nowMs >= s.normalProbeStartedMs + 10_000 }

  /** A stage has lasted more than fifteen minutes. */
  predicate StageOverdue(s: Scan, i: Input) { i.nowMs > s.stageStartedMs + 900_000 }

  /** No 3 A probe yet, or the last one started at least ten degrees below. */
  predicate BandClear(s: Scan, centiC: i16)
  {
    s.lastNormalProbeCentiC.None? || centiC - s.lastNormalProbeCentiC.value >= 1_000
  }

  /** A sweep below 3 A has reached 60 C in a new ten-degree band. */
  predicate CoverageDue(s: Scan, i: Input)
  {
    && i.temperatureCentiC >= 6_000 && s.requestMa < 3_000 && !s.normalProbe
    && (s.phase.Sweep? || s.phase.TemperatureSettle?)
    && BandClear(s, i.temperatureCentiC)
  }

  /** The request has been in force for one settle interval. */
  predicate Waited(s: Scan, i: Input)
  {
    i.nowMs >= s.changedAtMs + (if s.mode.Rapid? && !s.phase.TemperatureSettle? then 500 else 1_000)
  }

  /** The sample passes every guard and is a settled observation. */
  predicate Observes(s: Scan, i: Input)
  {
    && Running(s) && Clean(s, i) && i.temperatureCentiC < 22_000
    && !ProbeOverdue(s, i) && !StageOverdue(s, i) && !CoverageDue(s, i)
    && i.confirmed && Waited(s, i)
  }

  /** The low-pass filter: a quarter of the way to the raw reading, rounded towards where it was. */
  function Filtered(s: Scan, i: Input): i16
  {
    var raw := i.temperatureCentiC;
    if s.stabilityCentiC.None? then raw
    else
      var before := s.stabilityCentiC.value;
      var next := if raw >= before then before + (raw - before) / 4 else before - (before - raw) / 4;
      if next < -0x8000 then -0x8000 else if next > 0x7fff then 0x7fff else next
  }

  // ---------------------------------------------------------------------------------------------
  // What an observation says about the source.

  /** The loaded reading is within 5 % of the last tracking point in proportion, and within 10 % of the
      unloaded baseline in proportion. */
  predicate Holds(s: Scan, i: Input)
  {
    && (s.lastTracking.Some? ==>
          var p := s.lastTracking.value;
          i.vinMv * p.trackingRequestMv * 100 >= p.vinMv * s.requestMv * 95)
    && (s.baselineVinMv > 0 && s.baselineRequestMv > 0 ==>
          var expected := (s.baselineVinMv * s.requestMv + s.baselineRequestMv - 1) / s.baselineRequestMv;
          i.vinMv * 100 >= expected * 90)
  }

  /** By how much a 100 mV step should raise the reading, rounded up. */
  function ExpectedRise(s: Scan): nat
  {
    if s.baselineRequestMv == 0 then s.baselineVinMv * 100
    else (s.baselineVinMv * 100 + s.baselineRequestMv - 1) / s.baselineRequestMv
  }

  function Rise(previous: Input, i: Input): nat { if i.vinMv >= previous.vinMv then i.vinMv - previous.vinMv else 0 }

  /** The reading rose by at least 80 % of the step. */
  predicate Follows(s: Scan, previous: Input, i: Input) { Rise(previous, i) * 100 >= ExpectedRise(s) * 80 }

  /** The temperature moved by more than one degree. */
  predicate Drifts(previous: Input, centiC: i16)
  {
    centiC - previous.temperatureCentiC > 100 || previous.temperatureCentiC - centiC > 100
  }

  /** The reading rose by at most 25 % of the step. */
  predicate Stalls(s: Scan, previous: Input, i: Input) { Rise(previous, i) * 100 <= ExpectedRise(s) * 25 }

  /** The readings of the sample under the request in force. */
  function Observation(s: Scan, i: Input): Point
  {
    DEFAULT_POINT.(
      elapsedMs := i.nowMs, rtdCode := i.rtdCode, rtdMv := i.rtdMv, vinCode := i.vinCode, vinMv := i.vinMv,
      requestCurrentMa := s.requestMa, trackingRequestMv := s.requestMv, flatRequestMv := s.flatRequestMv,
      trackingOnly := s.normalProbe)
  }

  /** Twenty bins of ten degrees from 20 C, the outer ones open-ended. */
  function BinAt(centiC: i16): (k: nat)
    ensures k < 20
    ensures (k > 0 ==> centiC >= 2_000 + 1_000 * k) && (k < 19 ==> centiC < 3_000 + 1_000 * k)
  {
    if centiC < 3_000 then 0 else if centiC >= 21_000 then 19 else (centiC - 2_000) / 1_000
  }

  // ---------------------------------------------------------------------------------------------
  // The model's tests mean just that.

  lemma GuardsMean(s: Scan, i: Input)
    ensures BadReading(i) <==> !(0 < i.rtdMv && 0 < i.vinMv && i.rtdCode <= 4_095 && i.vinCode <= 4_095)
    ensures ProbeTimedOut(s, i) <==> ProbeOverdue(s, i)
    ensures StageTimedOut(s, i) <==> StageOverdue(s, i)
    ensures CoverageProbeDue(s, i) <==> CoverageDue(s, i)
    ensures ProbeBandClear(s, i) <==> BandClear(s, i.temperatureCentiC)
    ensures SatSub(i.nowMs, s.changedAtMs) >= SettleMs(s) <==> Waited(s, i)
  {
  }

  lemma FilteredMeans(s: Scan, i: Input)
    ensures SmoothedInput(s, i) == i.(temperatureCentiC := Filtered(s, i))
  {
  }

  lemma HoldsMeans(s: Scan, i: Input)
    ensures VoltageTracksRequest(s, i) <==> Holds(s, i)
  {
    ProductExact(s.baselineVinMv, s.requestMv);
    hide SatMul32;
  }

  /** A product of 16-bit words fits 32 bits. */
  lemma ProductExact(a: u16, b: u16)
    ensures SatMul32(a, b) == a * b
  {
    MulMonotone(a, b, 0xffff);
    MulMonotone(0xffff, a, 0xffff);
  }

  lemma AnswerMeans(s: Scan, previous: Input, i: Input)
    ensures Classify(s, previous, i).Tracking? <==> Follows(s, previous, i)
    ensures Classify(s, previous, i).Ramp? <==>
            !Follows(s, previous, i) && Drifts(previous, i.temperatureCentiC)
    ensures Classify(s, previous, i).Flat? <==>
            !Follows(s, previous, i) && !Drifts(previous, i.temperatureCentiC) && Stalls(s, previous, i)
  {
    assert ExpectedDeltaMv(s) == ExpectedRise(s);
  }

  lemma ObservationMeans(s: Scan, i: Input)
    ensures PointOf(s, i) == Observation(s, i)
  {
  }

  lemma BinMeans(centiC: i16)
    ensures BinOf(centiC) == BinAt(centiC)
  {
  }

  /** The observation reaches the step of its phase, with the filtered temperature. */
  lemma ObservedUpdate(s: Scan, i: Input)
    requires Observes(s, i)
    ensures Update(s, i) == Advance(Smoothed(s, i), i.(temperatureCentiC := Filtered(s, i)))
  {
    GuardsMean(Smoothed(s, i), i);
    FilteredMeans(s, i);
    hide Advance, CutOff, FinishNormalProbe, HandleStageTimeout, BeginThreeAmpProbe, Smooth, CoverageProbeDue,
         ProbeTimedOut, StageTimedOut, BadReading, SettleMs, Filtered, SmoothedInput;
  }

  /** Any other sample is refused by the first guard it meets. */
  lemma RefusedUpdate(s: Scan, i: Input)
    requires !Observes(s, i)
    ensures var t := Smoothed(s, i);
            Update(s, i) ==
              if !Running(s) then s
              else if i.wifiStarted != s.boundary.wifiStarted then Fail(t, WifiChanged)
              else if !Clean(s, i) then Fail(t, InvalidSample)
              else if i.temperatureCentiC >= 22_000 then CutOff(t)
              else if ProbeOverdue(s, i) then FinishNormalProbe(t, i)
              else if StageOverdue(s, i) then HandleStageTimeout(t, i)
              else if CoverageDue(s, i) then BeginThreeAmpProbe(t, i)
              else if !i.confirmed then Hold(t, i)
              else t
  {
    GuardsMean(Smoothed(s, i), i);
    hide Advance, CutOff, FinishNormalProbe, HandleStageTimeout, BeginThreeAmpProbe, Smooth, CoverageProbeDue,
         ProbeTimedOut, StageTimedOut, BadReading, SettleMs, Filtered, SmoothedInput;
  }

  /** Which step an observation reaches. Heated phases wait for the full load; unloaded ones look at the
      load themselves. */
  lemma AdvanceMeans(s: Scan, i: Input)
    ensures Advance(s, i) ==
            match s.phase
            case Baseline => BaselineStep(s, i)
            case Preflight => PreflightStep(s, i)
            case PreflightRecovery => PreflightRecoveryStep(s, i)
            case ProbeRecovery => ProbeRecoveryStep(s, i)
            case SourceBoundaryRecovery => SourceBoundaryRecoveryStep(s, i)
            case Sweep => if i.physicalPercent != 100 then Hold(s, i) else SweepStep(s, i)
            case RapidWarmup => if i.physicalPercent != 100 then Hold(s, i) else RapidWarmupStep(s, i)
            case TerminalProbe => if i.physicalPercent != 100 then Hold(s, i) else TerminalProbeStep(s, i)
            case TemperatureSettle => if i.physicalPercent != 100 then Hold(s, i) else TemperatureSettleStep(s, i)
            case Equilibrium => if i.physicalPercent != 100 then Hold(s, i) else EquilibriumStep(s, i)
            case _ => if i.physicalPercent != 100 then Hold(s, i) else s
  {
    hide BaselineStep, PreflightStep, ProbeRecoveryStep, SourceBoundaryRecoveryStep, SweepStep, RapidWarmupStep,
         TerminalProbeStep, EquilibriumStep, PreflightRecoveryStep, TemperatureSettleStep;
  }

  /** The filter state and the temperature do not matter to what a reading says about the source. */
  lemma FilterIrrelevant(s: Scan, i: Input, previous: Input)
    ensures var t, j := Smoothed(s, i), i.(temperatureCentiC := Filtered(s, i));
            && (Holds(t, j) <==> Holds(s, i)) && Observation(t, j) == Observation(s, i)
            && (Follows(t, previous, j) <==> Follows(s, previous, i))
            && (Stalls(t, previous, j) <==> Stalls(s, previous, i))
  {
    hide Filtered, Smooth;
  }
}
