/** The supply-boundary scan of firmware/src/heater_supply_scan.rs as a transition function on
    values. `ScanMachine.SupplyScan` is the same scan updated in place, and is proved equal to it. */
module ScanModel {
  import opened Arithmetic
  import opened BoundaryData
  import opened EquilibriumBand

  const SETTLE_MS := 1_000
  const RAPID_SETTLE_MS := 500
  const STAGE_TIMEOUT_MS := 900_000
  const CUTOFF_CENTI_C := 22_000
  const RAPID_REPROBE_STEP_CENTI_C := 1_000
  const RAPID_COARSE_STEP_MV := 500
  const RAPID_FINE_STEP_MV := 100
  const RAPID_SOURCE_CEILING_CONFIRMATIONS := 2
  const PROBE_RECOVERY_STEP_MV := 500
  const NORMAL_PROBE_FLAT_CONFIRMATIONS := 5
  const NORMAL_PROBE_AMBIGUOUS_CONFIRMATIONS := 8
  const NORMAL_PROBE_TIMEOUT_MS := 10_000
  const NORMAL_PROBE_MIN_TEMPERATURE_STEP_CENTI_C := 1_000
  const RAPID_FINE_RETEST_WINDOW_MV := 500
  const RAPID_MIN_BOUNDARY_SPAN_MV := 500
  const THREE_AMP_COVERAGE_START_CENTI_C := 6_000
  const BIN_COUNT := 20

  datatype Phase =
    | Baseline | Preflight | PreflightRecovery | Sweep | SourceBoundaryRecovery | RapidWarmup
    | TerminalProbe | TemperatureSettle | Equilibrium | ProbeRecovery | Complete | Failed

  datatype Mode = Detailed | Rapid

  datatype Failure = WifiChanged | SupplyUnstable | AmbiguousResponse | StageTimeout | InvalidSample

  datatype Input = Input(
    nowMs: u32,
    temperatureCentiC: i16,
    wifiStarted: bool,
    confirmed: bool,
    physicalPercent: u8,
    rtdCode: u16,
    rtdMv: u16,
    vinCode: u16,
    vinMv: u16)

  datatype Output = Output(requestMv: u16, requestMa: u16, heaterEnabled: bool)

  /** One optional tracking point per 10 degree temperature bin. */
  type Bins = s: seq<Option<Point>> | |s| == BIN_COUNT witness seq(BIN_COUNT, _ => None)

  datatype Scan = Scan(
    boundary: Boundary,
    phase: Phase,
    failure: Option<Failure>,
    cutoffReached: bool,
    requestMv: u16,
    requestMa: u16,
    changedAtMs: u32,
    stageStartedMs: u32,
    baselineVinMv: u16,
    baselineRequestMv: u16,
    previous: Option<Input>,
    lastTracking: Option<Point>,
    flatRequestMv: u16,
    flatCount: nat,
    ambiguousCount: u8,
    equilibrium: Window,
    stabilityCentiC: Option<int>,
    normalProbe: bool,
    normalProbeStartedMs: u32,
    lastNormalProbeCentiC: Option<i16>,
    returnCurrentMa: u16,
    returnRequestMv: u16,
    normalBins: Bins,
    rapidTrackingConfirmations: u8,
    lastRapidProbeCentiC: Option<i16>,
    rapidBoundaryReached: bool,
    rapidProbeSinceBoundary: bool,
    rapidFailedProbeMv: Option<u16>,
    rapidFailedProbeCount: u8,
    terminalProbeConfirmations: u8,
    hotBoundaryReached: bool,
    mode: Mode)

  function EmptyTable(b: Boundary): Boundary
  {
    b.(pointCount := 0, cutoffReached := false, points := seq(MAX_BOUNDARY_POINTS, _ => DEFAULT_POINT))
  }

  function New(b: Boundary, mode: Mode): Option<Scan>
  {
    if b.sourceMinMv < 5_500 || b.sourceMinMv >= b.sourceMaxMv || b.sourceMaxMv > 21_000 || b.sourceMaxMa < 3_000
    then None
    else Some(Scan(
                boundary := EmptyTable(b), phase := Baseline, failure := None, cutoffReached := false,
                requestMv := b.sourceMaxMv, requestMa := 3_000, changedAtMs := 0, stageStartedMs := 0,
                baselineVinMv := 0, baselineRequestMv := b.sourceMaxMv, previous := None,
                lastTracking := None, flatRequestMv := 0, flatCount := 0, ambiguousCount := 0,
                equilibrium := EMPTY_WINDOW, stabilityCentiC := None, normalProbe := false,
                normalProbeStartedMs := 0, lastNormalProbeCentiC := None, returnCurrentMa := 3_000,
                returnRequestMv := b.sourceMinMv, normalBins := seq(BIN_COUNT, _ => None),
                rapidTrackingConfirmations := 0, lastRapidProbeCentiC := None,
                rapidBoundaryReached := false, rapidProbeSinceBoundary := false,
                rapidFailedProbeMv := None, rapidFailedProbeCount := 0,
                terminalProbeConfirmations := 0, hotBoundaryReached := false, mode := mode))
  }

  function SettleMs(s: Scan): u32
  {
    if s.mode.Rapid? && !s.phase.TemperatureSettle? then RAPID_SETTLE_MS else SETTLE_MS
  }

  /** Rapid recovery keeps the 3 A contract and the heater on. */
  predicate SameCurrentRecovery(s: Scan)
  {
    s.mode.Rapid? && (s.phase.ProbeRecovery? || s.phase.SourceBoundaryRecovery?)
  }

  predicate HeaterOn(s: Scan)
  {
    || s.phase.Sweep? || s.phase.RapidWarmup? || s.phase.TerminalProbe?
    || s.phase.TemperatureSettle? || s.phase.Equilibrium? || SameCurrentRecovery(s)
  }

  predicate PastPreflight(phase: Phase)
  {
    !phase.Baseline? && !phase.Preflight?
  }

  /** A control step leaves the table, the bins, the filter and the mode alone and never goes back to
      the unheated start. */
  predicate ControlStep(s: Scan, r: Scan)
  {
    && r.boundary == s.boundary && r.normalBins == s.normalBins && r.mode == s.mode
    && r.stabilityCentiC == s.stabilityCentiC && r.cutoffReached == s.cutoffReached
    && (PastPreflight(s.phase) ==> PastPreflight(r.phase))
  }

  function OutputOf(s: Scan): Output
  {
    Output(s.requestMv, s.requestMa, HeaterOn(s))
  }

  predicate Ended(s: Scan)
  {
    s.phase.Complete? || s.phase.Failed?
  }

  function Fail(s: Scan, reason: Failure): Scan
  {
    s.(phase := Failed, failure := Some(reason))
  }

  function Change(s: Scan, i: Input, mv: u16, ma: u16): Scan
  {
    s.(requestMv := mv, requestMa := ma, changedAtMs := i.nowMs)
  }

  /** Wait for one more settled sample at the same request. */
  function Hold(s: Scan, i: Input): Scan
  {
    s.(changedAtMs := i.nowMs)
  }

  /** The truncating quarter-step low-pass filter. */
  function Smooth(previous: Option<int>, raw: i16): int
  {
    if previous.None? then raw else previous.value + Quarter(raw - previous.value)
  }

  function ClampI16(x: int): i16 { Max(-0x8000, Min(0x7fff, x)) }

  function PointOf(s: Scan, i: Input): Point
  {
    Point(i.nowMs, i.rtdCode, i.rtdMv, i.vinCode, i.vinMv, s.requestMa, s.requestMv, s.flatRequestMv, s.normalProbe)
  }

  // ---------------------------------------------------------------------------------------------
  // The update: guards on the raw sample, then one settled observation.

  predicate BadReading(i: Input)
  {
    i.rtdMv == 0 || i.vinMv == 0 || i.rtdCode > 4_095 || i.vinCode > 4_095
  }

  predicate ProbeTimedOut(s: Scan, i: Input)
  {
    s.normalProbe && SatSub(i.nowMs, s.normalProbeStartedMs) >= NORMAL_PROBE_TIMEOUT_MS
  }

  predicate StageTimedOut(s: Scan, i: Input)
  {
    SatSub(i.nowMs, s.stageStartedMs) > STAGE_TIMEOUT_MS
  }

  /** Ten degrees above the previous 3 A probe, or no probe yet. */
  predicate ProbeBandClear(s: Scan, i: Input)
  {
    s.lastNormalProbeCentiC.None? ||
    SatSubI16(i.temperatureCentiC, s.lastNormalProbeCentiC.value) >= NORMAL_PROBE_MIN_TEMPERATURE_STEP_CENTI_C
  }

  predicate CoverageProbeDue(s: Scan, i: Input)
  {
    && i.temperatureCentiC >= THREE_AMP_COVERAGE_START_CENTI_C
    && s.requestMa < 3_000
    && !s.normalProbe
    && (s.phase.Sweep? || s.phase.TemperatureSettle?)
    && ProbeBandClear(s, i)
  }

  function Smoothed(s: Scan, i: Input): Scan
  {
    s.(stabilityCentiC := Some(Smooth(s.stabilityCentiC, i.temperatureCentiC)))
  }

  function SmoothedInput(s: Scan, i: Input): Input
  {
    i.(temperatureCentiC := ClampI16(Smooth(s.stabilityCentiC, i.temperatureCentiC)))
  }

  function Update(s: Scan, i: Input): (r: Scan)
    ensures !Ended(s) ==> r.stabilityCentiC == Some(Smooth(s.stabilityCentiC, i.temperatureCentiC))
    ensures PastPreflight(s.phase) ==> PastPreflight(r.phase)
  {
    if Ended(s) then s else Guarded(Smoothed(s, i), i, SmoothedInput(s, i))
  }

  /** The guards on the raw sample `i`, then one settled observation `j`. */
  function Guarded(t: Scan, i: Input, j: Input): (r: Scan)
    ensures r.stabilityCentiC == t.stabilityCentiC
    ensures PastPreflight(t.phase) ==> PastPreflight(r.phase)
  {
    if i.wifiStarted != t.boundary.wifiStarted then Fail(t, WifiChanged)
    else if BadReading(i) then Fail(t, InvalidSample)
    else if i.temperatureCentiC >= CUTOFF_CENTI_C then CutOff(t)
    else if ProbeTimedOut(t, i) then FinishNormalProbe(t, i)
    else if StageTimedOut(t, i) then HandleStageTimeout(t, i)
    else if CoverageProbeDue(t, i) then BeginThreeAmpProbe(t, i)
    else if !i.confirmed then Hold(t, i)
    else if SatSub(i.nowMs, t.changedAtMs) >= SettleMs(t) then Advance(t, j)
    else t
  }

  function CutOff(s: Scan): (r: Scan)
    ensures r.phase.Complete? && r.cutoffReached && r.mode == s.mode && r.normalBins == s.normalBins
    ensures r.stabilityCentiC == s.stabilityCentiC
    ensures r.requestMv == s.requestMv && r.requestMa == s.requestMa
  {
    var marked := s.(cutoffReached := true, boundary := s.boundary.(cutoffReached := true));
    RetainTracking(marked).(phase := Complete)
  }

  function Advance(s: Scan, i: Input): (r: Scan)
    ensures r.stabilityCentiC == s.stabilityCentiC && r.cutoffReached == s.cutoffReached
    ensures PastPreflight(s.phase) ==> PastPreflight(r.phase)
  {
    if !(s.phase.Baseline? || s.phase.Preflight? || s.phase.PreflightRecovery? ||
         s.phase.ProbeRecovery? || s.phase.SourceBoundaryRecovery?) && i.physicalPercent != 100
    then Hold(s, i)
    else
      match s.phase
      case Baseline => BaselineStep(s, i)
      case Preflight => PreflightStep(s, i)
      case PreflightRecovery => PreflightRecoveryStep(s, i)
      case ProbeRecovery => ProbeRecoveryStep(s, i)
      case SourceBoundaryRecovery => SourceBoundaryRecoveryStep(s, i)
      case Sweep => SweepStep(s, i)
      case RapidWarmup => RapidWarmupStep(s, i)
      case TerminalProbe => TerminalProbeStep(s, i)
      case TemperatureSettle => TemperatureSettleStep(s, i)
      case Equilibrium => EquilibriumStep(s, i)
      case Complete => s
      case Failed => s
  }

  // Two phases that no step enters.

  function PreflightRecoveryStep(s: Scan, i: Input): (r: Scan)
    ensures ControlStep(s, r)
  {
    if i.physicalPercent != 0 || i.vinMv < PreflightMinVinMv(s) then Fail(s, SupplyUnstable)
    else s.(phase := Sweep, changedAtMs := i.nowMs)
  }

  function TemperatureSettleStep(s: Scan, i: Input): (r: Scan)
    ensures ControlStep(s, r)
  {
    var seen := Observe(s.equilibrium, i.nowMs, i.temperatureCentiC);
    if seen.stable then s.(equilibrium := seen.window, phase := Sweep, previous := None)
    else s.(equilibrium := seen.window)
  }

  // ---------------------------------------------------------------------------------------------
  // Unheated start.

  function BaselineStep(s: Scan, i: Input): (r: Scan)
    ensures r.normalBins == s.normalBins && r.stabilityCentiC == s.stabilityCentiC && r.boundary == s.boundary
    ensures r.cutoffReached == s.cutoffReached
  {
    if i.physicalPercent != 0 then Fail(s, SupplyUnstable)
    else s.(baselineVinMv := i.vinMv, baselineRequestMv := s.requestMv, phase := Preflight, changedAtMs := i.nowMs)
  }

  /** 90 % of the baseline reading scaled to the lowest source voltage, rounded up. */
  function ScaledFloorMv(baselineVinMv: u16, baselineRequestMv: u16, sourceMinMv: u16): u16
  {
    var scaled: u32 := SatMul32(baselineVinMv, sourceMinMv) / Max(baselineRequestMv, 1);
    Min(DivCeil(SatMul32(scaled, 90), 100), 0xffff)
  }

  function PreflightMinVinMv(s: Scan): u16
  {
    ScaledFloorMv(s.baselineVinMv, s.baselineRequestMv, s.boundary.sourceMinMv)
  }

  function PreflightStep(s: Scan, i: Input): (r: Scan)
    ensures ControlStep(s, r)
  {
    if i.vinMv < PreflightMinVinMv(s) then Fail(s, SupplyUnstable)
    else if s.previous.None? then s.(previous := Some(i), changedAtMs := i.nowMs)
    else if i.vinMv * 100 < s.previous.value.vinMv * 99 then Fail(s, SupplyUnstable)
    else FirstStage(s, i)
  }

  /** The first heated stage, from the lowest source voltage. */
  function FirstStage(s: Scan, i: Input): (r: Scan)
    ensures ControlStep(s, r)
  {
    var first := s.(
      phase := Sweep, previous := None, normalProbe := false, returnRequestMv := s.boundary.sourceMinMv,
      lastTracking := None, flatRequestMv := 0, flatCount := 0, ambiguousCount := 0,
      equilibrium := EMPTY_WINDOW, stageStartedMs := i.nowMs);
    Change(first, i, s.boundary.sourceMinMv, if s.mode.Rapid? then 3_000 else MIN_HEATED_CURRENT_MA)
  }

  // ---------------------------------------------------------------------------------------------
  // The voltage sweep.

  /** The loaded reading follows the last tracking point within 5 % and the unloaded baseline
      within 10 %. */
  predicate VoltageTracksRequest(s: Scan, i: Input)
  {
    && (s.lastTracking.Some? ==> VoltageResponseMatches(s.lastTracking.value, s.requestMv, i.vinMv))
    && (s.baselineVinMv != 0 && s.baselineRequestMv != 0 ==>
          i.vinMv * 100 >= DivCeil(SatMul32(s.baselineVinMv, s.requestMv), s.baselineRequestMv) * 90)
  }

  function ExpectedDeltaMv(s: Scan): nat
  {
    DivCeil(s.baselineVinMv * 100, Max(s.baselineRequestMv, 1))
  }

  datatype Response = Tracking | Ramp | Flat | Ambiguous

  /** How the reading answered the last voltage step. */
  function Classify(s: Scan, previous: Input, i: Input): Response
  {
    var observed := SatSub(i.vinMv, previous.vinMv);
    var drift := i.temperatureCentiC - previous.temperatureCentiC;
    if observed * 100 >= ExpectedDeltaMv(s) * 80 then Tracking
    else if drift > 100 || drift < -100 then Ramp
    else if observed * 100 <= ExpectedDeltaMv(s) * 25 then Flat
    else Ambiguous
  }

  /** In rapid mode a request that sags, or one at the source ceiling, is not judged by its step. */
  predicate RapidDiverts(s: Scan, i: Input)
  {
    s.mode.Rapid? && (!VoltageTracksRequest(s, i) || s.requestMv >= s.boundary.sourceMaxMv)
  }

  /** The sample proves that the source holds the request. */
  predicate SweepTracks(s: Scan, i: Input)
  {
    s.previous.None? || (!RapidDiverts(s, i) && Classify(s, s.previous.value, i).Tracking?)
  }

  function SweepStep(s: Scan, i: Input): (r: Scan)
    ensures r.stabilityCentiC == s.stabilityCentiC && r.cutoffReached == s.cutoffReached
    ensures PastPreflight(s.phase) ==> PastPreflight(r.phase)
  {
    if s.previous.None? then
      ProbeNextVoltage(RecordTracking(s, i).(previous := Some(i)), i)
    else if RapidDiverts(s, i) then
      if VoltageTracksRequest(s, i) then
        s.(phase := RapidWarmup, previous := Some(i), rapidTrackingConfirmations := 0,
           lastRapidProbeCentiC := None, changedAtMs := i.nowMs)
      else BeginSourceBoundaryRecovery(s, i)
    else JudgeStep(s, s.previous.value, i)
  }

  /** A sweep sample judged by the answer to its voltage step. */
  function JudgeStep(s: Scan, previous: Input, i: Input): (r: Scan)
    ensures r.stabilityCentiC == s.stabilityCentiC && r.cutoffReached == s.cutoffReached
    ensures PastPreflight(s.phase) ==> PastPreflight(r.phase)
  {
    match Classify(s, previous, i)
    case Tracking =>
      ProbeNextVoltage(RecordTracking(s, i).(flatCount := 0, ambiguousCount := 0, previous := Some(i)), i)
    case Ramp =>
      ProbeNextVoltage(s.(flatCount := 0, ambiguousCount := 0, previous := Some(i)), i)
    case Flat =>
      var counted := s.(flatCount := s.flatCount + 1, previous := Some(i));
      if counted.flatCount >= (if s.normalProbe then NORMAL_PROBE_FLAT_CONFIRMATIONS else 2)
      then HandleFlatConfirmation(counted, i)
      else ProbeNextVoltage(counted, i)
    case Ambiguous =>
      var counted := s.(ambiguousCount := SatAdd8(s.ambiguousCount, 1), previous := Some(i), changedAtMs := i.nowMs);
      if counted.ambiguousCount >= (if s.normalProbe then NORMAL_PROBE_AMBIGUOUS_CONFIRMATIONS else 5)
      then HandleAmbiguousConfirmation(counted, i)
      else counted
  }

  /** The sample becomes the last tracking point and, at 3 A, competes for its temperature bin. */
  function RecordTracking(s: Scan, i: Input): Scan
  {
    RetainNormalTracking(s.(lastTracking := Some(PointOf(s, i))), i)
  }

  predicate FlatBoundaryReady(s: Scan, i: Input)
  {
    s.mode.Detailed? ||
    (&& s.lastTracking.Some?
     && (SatSub(s.requestMv, s.lastTracking.value.trackingRequestMv) >= RAPID_MIN_BOUNDARY_SPAN_MV ||
         !VoltageResponseMatches(s.lastTracking.value, s.requestMv, i.vinMv)))
  }

  function HandleAmbiguousConfirmation(s: Scan, i: Input): (r: Scan)
    ensures ControlStep(s, r)
  {
    if FlatBoundaryReady(s, i) then BeginEquilibrium(s.(flatRequestMv := s.requestMv), i)
    else ProbeNextVoltage(s.(ambiguousCount := 0), i)
  }

  function HandleFlatConfirmation(s: Scan, i: Input): (r: Scan)
    ensures ControlStep(s, r)
  {
    if !FlatBoundaryReady(s, i) then ProbeNextVoltage(s.(flatCount := 0), i)
    else
      var flat := s.(flatRequestMv := s.requestMv);
      BeginEquilibrium(
        if s.lastTracking.None? then flat
        else flat.(lastTracking := Some(s.lastTracking.value.(flatRequestMv := s.requestMv))), i)
  }

  function ProbeNextVoltage(s: Scan, i: Input): (r: Scan)
    ensures ControlStep(s, r)
  {
    if s.requestMv >= s.boundary.sourceMaxMv then
      if s.mode.Rapid? then
        s.(phase := RapidWarmup, previous := None, lastRapidProbeCentiC := None, changedAtMs := i.nowMs)
      else BeginEquilibrium(s, i)
    else
      var step := if s.mode.Rapid? then RapidProbeStepMv(s) else 100;
      Change(s, i, Min(SatAdd16(s.requestMv, step), s.boundary.sourceMaxMv), s.requestMa)
  }

  function RapidProbeStepMv(s: Scan): (step: u16)
    ensures step == RAPID_COARSE_STEP_MV || step == RAPID_FINE_STEP_MV
  {
    if !s.rapidBoundaryReached then RAPID_COARSE_STEP_MV
    else
      match s.rapidFailedProbeMv
      case None => RAPID_FINE_STEP_MV
      case Some(failed) =>
        if SatAdd16(s.requestMv, RAPID_FINE_RETEST_WINDOW_MV) < failed then RAPID_COARSE_STEP_MV
        else if s.requestMv < failed then RAPID_FINE_STEP_MV
        else if SatAdd16(s.requestMv, RAPID_COARSE_STEP_MV) >= s.boundary.sourceMaxMv then RAPID_FINE_STEP_MV
        else RAPID_COARSE_STEP_MV
  }

  // ---------------------------------------------------------------------------------------------
  // Detailed mode: equilibrium stages and bounded 3 A probes.

  function BeginEquilibrium(s: Scan, i: Input): (r: Scan)
    ensures ControlStep(s, r)
  {
    if s.lastTracking.None? then Fail(s, AmbiguousResponse)
    else if s.normalProbe then FinishNormalProbe(s, i)
    else if s.mode.Rapid? then WarmAt(s, i, s.lastTracking.value.trackingRequestMv)
    else EquilibrateAt(s, i, Max(SatSub(s.lastTracking.value.trackingRequestMv, 100), s.boundary.sourceMinMv))
  }

  /** Hold the 3 A contract at the last tracking voltage. */
  function WarmAt(s: Scan, i: Input, mv: u16): (r: Scan)
    ensures ControlStep(s, r)
  {
    s.(phase := RapidWarmup, previous := None, lastRapidProbeCentiC := None, changedAtMs := i.nowMs, requestMv := mv)
  }

  /** Wait for thermal balance one step inside the tracking region. */
  function EquilibrateAt(s: Scan, i: Input, mv: u16): (r: Scan)
    ensures ControlStep(s, r)
  {
    Change(s.(phase := Equilibrium, equilibrium := EMPTY_WINDOW, previous := Some(i)), i, mv, s.requestMa)
  }

  function EquilibriumStep(s: Scan, i: Input): (r: Scan)
    ensures r.stabilityCentiC == s.stabilityCentiC && r.cutoffReached == s.cutoffReached
    ensures PastPreflight(s.phase) ==> PastPreflight(r.phase)
    ensures r.normalBins == s.normalBins
  {
    var seen := Observe(s.equilibrium, i.nowMs, i.temperatureCentiC);
    var t := s.(equilibrium := seen.window);
    if seen.stable then
      var kept := RetainTracking(t.(lastTracking := Some(PointOf(t, i))));
      if kept.requestMa == 3_000 then FinishThreeAmpEquilibrium(kept, i) else BeginThreeAmpProbe(kept, i)
    else if s.previous.Some? && i.temperatureCentiC - s.previous.value.temperatureCentiC > 100 then
      ProbeNextVoltage(
        t.(phase := Sweep, previous := Some(i), flatCount := 0, flatRequestMv := 0, equilibrium := EMPTY_WINDOW), i)
    else t
  }

  function FinishThreeAmpEquilibrium(s: Scan, i: Input): (r: Scan)
    ensures ControlStep(s, r)
  {
    if i.temperatureCentiC >= CUTOFF_CENTI_C ||
       (s.lastTracking.Some? &&
        SatAdd16(s.lastTracking.value.trackingRequestMv, 100) >= s.boundary.sourceMaxMv)
    then s.(phase := Complete)
    else
      ProbeNextVoltage(
        s.(phase := Sweep, previous := None, lastTracking := None, flatCount := 0, ambiguousCount := 0,
           flatRequestMv := 0, equilibrium := EMPTY_WINDOW), i)
  }

  function NextStageMa(ma: u16): u16 { Min(ma + 100, 3_000) }

  function BeginThreeAmpProbe(s: Scan, i: Input): (r: Scan)
    ensures ControlStep(s, r)
  {
    if !ProbeBandClear(s, i) then
      NextStage(s, i)
    else
      var from := Max(s.requestMv, s.boundary.sourceMinMv);
      var probing := s.(
        returnRequestMv := from, normalProbe := true,
        lastNormalProbeCentiC := Some(i.temperatureCentiC),
        returnCurrentMa := if s.phase.Equilibrium? then NextStageMa(s.requestMa) else s.requestMa,
        phase := Sweep, previous := None, lastTracking := None, flatCount := 0, ambiguousCount := 0,
        flatRequestMv := 0, stageStartedMs := i.nowMs, normalProbeStartedMs := i.nowMs);
      Change(probing, i, from, 3_000)
  }

  /** Skip to the next current stage, from the lowest source voltage. */
  function NextStage(s: Scan, i: Input): (r: Scan)
    ensures ControlStep(s, r)
  {
    var skipped := s.(
      normalProbe := false, phase := Sweep, previous := None, lastTracking := None, flatCount := 0,
      ambiguousCount := 0, flatRequestMv := 0, equilibrium := EMPTY_WINDOW, stageStartedMs := i.nowMs);
    Change(skipped, i, s.boundary.sourceMinMv, NextStageMa(s.requestMa))
  }

  function HandleStageTimeout(s: Scan, i: Input): (r: Scan)
    ensures ControlStep(s, r)
  {
    if s.requestMa >= 3_000 then Fail(s, StageTimeout) else NextStage(s, i)
  }

  function FinishNormalProbe(s: Scan, i: Input): (r: Scan)
    ensures ControlStep(s, r)
  {
    var unloaded := s.(
      normalProbe := false, phase := ProbeRecovery, previous := None, lastTracking := None,
      flatCount := 0, flatRequestMv := 0, stageStartedMs := i.nowMs);
    Change(unloaded, i, s.requestMv, s.returnCurrentMa)
  }

  /** The load state a recovery expects: on in rapid mode, off in detailed mode. */
  predicate RecoveryLoadSettled(s: Scan, i: Input)
  {
    i.confirmed && i.physicalPercent == (if SameCurrentRecovery(s) then 100 else 0)
  }

  function ProbeRecoveryStep(s: Scan, i: Input): (r: Scan)
    ensures ControlStep(s, r)
  {
    if !RecoveryLoadSettled(s, i) then Hold(s, i)
    else
      var target := Max(s.returnRequestMv, s.boundary.sourceMinMv);
      if s.requestMv == target then s.(phase := Sweep, changedAtMs := i.nowMs)
      else Change(s, i, Max(SatSub(s.requestMv, PROBE_RECOVERY_STEP_MV), target), s.returnCurrentMa)
  }

  // ---------------------------------------------------------------------------------------------
  // Rapid mode: warm-up at 3 A, boundary recovery and the terminal probe.

  /** The stored point of current `ma` with the highest request below `mv`, the last of equals. */
  function StrongestBelow(s: seq<Point>, ma: u16, mv: u16): (r: Option<Point>)
    ensures r.Some? ==> r.value in s && r.value.requestCurrentMa == ma && r.value.trackingRequestMv < mv
    ensures forall k :: 0 <= k < |s| && s[k].requestCurrentMa == ma && s[k].trackingRequestMv < mv ==>
              r.Some? && s[k].trackingRequestMv <= r.value.trackingRequestMv
  {
    if s == [] then None
    else
      var n := |s| - 1;
      var best := StrongestBelow(s[..n], ma, mv);
      if s[n].requestCurrentMa == ma && s[n].trackingRequestMv < mv &&
         (best.None? || best.value.trackingRequestMv <= s[n].trackingRequestMv)
      then Some(s[n]) else best
  }

  /** Where a failed request falls back to: the last safe voltage, at least one coarse step down. */
  function RecoveryRequestMv(s: Scan): u16
  {
    var lastSafe :=
      if s.lastTracking.Some? && s.lastTracking.value.trackingRequestMv < s.requestMv then s.lastTracking
      else StrongestBelow(Stored(s.boundary), s.requestMa, s.requestMv);
    var coarse := Max(SatSub(s.requestMv, if s.mode.Rapid? then RAPID_COARSE_STEP_MV else PROBE_RECOVERY_STEP_MV),
                      s.boundary.sourceMinMv);
    if lastSafe.None? then coarse
    else Max(Min(lastSafe.value.trackingRequestMv, coarse), s.boundary.sourceMinMv)
  }

  /** A failed rapid request is counted while hot, and starts the count over while cold. */
  function FailureCounted(s: Scan, i: Input): (r: Scan)
    ensures ControlStep(s, r)
  {
    var hot := i.temperatureCentiC >= MIN_BOUNDARY_COVERAGE_CENTI_C;
    if !s.mode.Rapid? then s else s.(
      rapidBoundaryReached := true,
      rapidFailedProbeCount := if hot then SatAdd8(s.rapidFailedProbeCount, 1) else 0,
      rapidFailedProbeMv := Some(s.requestMv),
      hotBoundaryReached := hot)
  }

  /** Leave the failed request for the voltage to return to, at the same current. */
  function FallBack(s: Scan, i: Input): (r: Scan)
    ensures ControlStep(s, r)
  {
    var recovering := s.(
      returnCurrentMa := s.requestMa, normalProbe := false, lastTracking := None,
      rapidTrackingConfirmations := 0, phase := SourceBoundaryRecovery, previous := None,
      flatCount := 0, ambiguousCount := 0, flatRequestMv := s.requestMv);
    Change(recovering, i, s.returnRequestMv, s.requestMa)
  }

  function BeginSourceBoundaryRecovery(s: Scan, i: Input): (r: Scan)
    ensures ControlStep(s, r)
  {
    var t := s.(returnRequestMv := RecoveryRequestMv(s));
    if t.returnRequestMv >= s.requestMv then Fail(t, SupplyUnstable) else FallBack(FailureCounted(t, i), i)
  }

  function SourceBoundaryRecoveryStep(s: Scan, i: Input): (r: Scan)
    ensures ControlStep(s, r)
  {
    if !RecoveryLoadSettled(s, i) then Hold(s, i)
    else if SatSub(i.nowMs, s.changedAtMs) < SettleMs(s) then s
    else s.(phase := RapidWarmup, previous := None, flatRequestMv := 0, rapidTrackingConfirmations := 0,
            lastRapidProbeCentiC := if s.rapidProbeSinceBoundary then s.lastRapidProbeCentiC else None,
            changedAtMs := i.nowMs)
  }

  /** One more tracking sample in the warm-up, before it is judged. */
  function WarmupConfirmation(s: Scan, i: Input): (r: Scan)
    ensures ControlStep(s, r)
  {
    s.(lastRapidProbeCentiC :=
         if s.lastRapidProbeCentiC.None? then Some(i.temperatureCentiC) else s.lastRapidProbeCentiC,
       rapidTrackingConfirmations := SatAdd8(s.rapidTrackingConfirmations, 1))
  }

  /** The second consecutive tracking sample of a warm-up, or a later one. */
  predicate WarmupTracks(s: Scan, i: Input)
  {
    && i.confirmed && i.physicalPercent == 100
    && VoltageTracksRequest(s, i)
    && WarmupConfirmation(s, i).rapidTrackingConfirmations >= 2
  }

  function RapidWarmupStep(s: Scan, i: Input): (r: Scan)
    ensures r.stabilityCentiC == s.stabilityCentiC && r.cutoffReached == s.cutoffReached
    ensures PastPreflight(s.phase) ==> PastPreflight(r.phase)
  {
    if !i.confirmed || i.physicalPercent != 100 then Hold(s, i)
    else if !VoltageTracksRequest(s, i) then BeginSourceBoundaryRecovery(s, i)
    else if WarmupTracks(s, i) then WarmupDecision(RetainNormalTracking(WarmupConfirmation(s, i), i), i)
    else Hold(WarmupConfirmation(s, i), i)
  }

  predicate HotHoldReady(s: Scan, i: Input)
  {
    s.lastRapidProbeCentiC.Some? &&
    SatSubI16(i.temperatureCentiC, s.lastRapidProbeCentiC.value) >= RAPID_REPROBE_STEP_CENTI_C
  }

  predicate ReprobeDue(s: Scan, i: Input)
  {
    if s.rapidBoundaryReached then
      || !s.rapidProbeSinceBoundary
      || HotHoldReady(s, i)
      || (s.rapidFailedProbeMv.Some? && s.requestMv >= s.rapidFailedProbeMv.value)
    else HotHoldReady(s, i)
  }

  predicate AtHotBoundary(s: Scan, i: Input)
  {
    s.hotBoundaryReached && i.temperatureCentiC >= MIN_BOUNDARY_COVERAGE_CENTI_C
  }

  function WarmupDecision(s: Scan, i: Input): (r: Scan)
    ensures ControlStep(s, r)
  {
    if AtHotBoundary(s, i) && s.rapidFailedProbeCount >= RAPID_SOURCE_CEILING_CONFIRMATIONS then
      BeginTerminalProbeOrComplete(s, i)
    else if AtHotBoundary(s, i) && s.rapidFailedProbeMv.Some? && s.requestMv < s.rapidFailedProbeMv.value then
      BeginRapidVoltageReprobe(s, i)
    else if ReprobeDue(s, i) && s.requestMv < s.boundary.sourceMaxMv then
      BeginRapidVoltageReprobe(s, i)
    else if i.temperatureCentiC >= MIN_BOUNDARY_COVERAGE_CENTI_C && s.requestMv >= s.boundary.sourceMaxMv &&
            HotHoldReady(s, i) then
      BeginTerminalProbeOrComplete(s, i)
    else if !s.rapidBoundaryReached && s.requestMv < s.boundary.sourceMaxMv && HotHoldReady(s, i) then
      BeginRapidVoltageReprobe(s, i)
    else Hold(s, i)
  }

  function ReprobeRequestMv(s: Scan): u16
  {
    var next :=
      if s.rapidFailedProbeMv.Some? && s.rapidFailedProbeMv.value > s.requestMv &&
         SatSub(s.rapidFailedProbeMv.value, s.requestMv) <= RAPID_FINE_RETEST_WINDOW_MV
      then s.rapidFailedProbeMv.value
      else SatAdd16(s.requestMv, RapidProbeStepMv(s));
    Min(next, s.boundary.sourceMaxMv)
  }

  function BeginRapidVoltageReprobe(s: Scan, i: Input): (r: Scan)
    ensures ControlStep(s, r)
  {
    var next := ReprobeRequestMv(s);
    if next <= s.requestMv then s.(phase := Complete)
    else
      var t := s.(phase := Sweep, normalProbe := false, previous := Some(i));
      var probing := t.(
        lastTracking := Some(PointOf(t, i)), flatRequestMv := 0, flatCount := 0, ambiguousCount := 0,
        equilibrium := EMPTY_WINDOW, stageStartedMs := i.nowMs, rapidTrackingConfirmations := 0,
        lastRapidProbeCentiC := Some(i.temperatureCentiC), rapidProbeSinceBoundary := true);
      Change(probing, i, next, 3_000)
  }

  /** The advertised ceiling above the 3 A range, with the current its power limit allows. */
  function TerminalTarget(b: Boundary): Option<(u16, u16)>
  {
    var mv := Min(b.advertisedMaxMv, 21_000) / 100 * 100;
    var ma := TerminalTrackingCurrentMa(b.sourcePowerLimitMw, mv);
    if mv <= b.sourceMaxMv || ma.None? then None else Some((mv, ma.value))
  }

  function BeginTerminalProbeOrComplete(s: Scan, i: Input): (r: Scan)
    ensures ControlStep(s, r)
  {
    var target := TerminalTarget(s.boundary);
    if target.None? then s.(phase := Complete)
    else s.(requestMv := target.value.0, requestMa := target.value.1, terminalProbeConfirmations := 0,
            phase := TerminalProbe, previous := None, changedAtMs := i.nowMs, stageStartedMs := i.nowMs)
  }

  /** The terminal request sags: return to the 3 A ceiling and go on. */
  function RetreatFromTerminal(s: Scan, i: Input): (r: Scan)
    ensures ControlStep(s, r)
  {
    var recovering := s.(
      terminalProbeConfirmations := 0, phase := SourceBoundaryRecovery, previous := None,
      returnRequestMv := s.boundary.sourceMaxMv, returnCurrentMa := 3_000,
      rapidTrackingConfirmations := 0, rapidProbeSinceBoundary := true,
      lastRapidProbeCentiC := Some(i.temperatureCentiC));
    Change(recovering, i, s.boundary.sourceMaxMv, 3_000)
  }

  function TerminalProbeStep(s: Scan, i: Input): (r: Scan)
    ensures r.stabilityCentiC == s.stabilityCentiC && r.cutoffReached == s.cutoffReached
    ensures PastPreflight(s.phase) ==> PastPreflight(r.phase)
    ensures r.normalBins == s.normalBins
  {
    if !i.confirmed || i.physicalPercent != 100 then Hold(s, i)
    else if !VoltageTracksRequest(s, i) then RetreatFromTerminal(s, i)
    else
      var t := s.(terminalProbeConfirmations := SatAdd8(s.terminalProbeConfirmations, 1));
      if t.terminalProbeConfirmations < 2 then Hold(t, i)
      else
        var kept := Retain(t.boundary, PointOf(t, i).(flatRequestMv := 0, trackingOnly := true));
        if kept.accepted then t.(boundary := kept.boundary, phase := Complete)
        else Fail(t.(boundary := kept.boundary), SupplyUnstable)
  }

  // ---------------------------------------------------------------------------------------------
  // Retention.

  /** Ten-degree bins from 20 C, the outer ones open-ended. */
  function BinOf(centiC: i16): (bin: nat)
    ensures bin < BIN_COUNT
  {
    Min(Max(centiC - 2_000, 0) / 1_000, BIN_COUNT - 1)
  }

  function RetainNormalTracking(s: Scan, i: Input): (r: Scan)
    ensures r == s.(boundary := r.boundary, normalBins := r.normalBins)
  {
    if s.requestMa != 3_000 then s
    else
      var bin := BinOf(i.temperatureCentiC);
      var point := PointOf(s, i).(trackingOnly := true);
      if s.normalBins[bin].None? || point.trackingRequestMv > s.normalBins[bin].value.trackingRequestMv then
        var bins := s.normalBins[bin := Some(point)];
        s.(normalBins := bins, boundary := RebuildNormalPoints(s.boundary, bins))
      else s
  }

  /** The equilibrium points of `s`, in order. */
  function Equilibria(s: seq<Point>): (r: seq<Point>)
    ensures |r| <= |s|
  {
    if s == [] then []
    else
      var n := |s| - 1;
      Equilibria(s[..n]) + (if s[n].trackingOnly then [] else [s[n]])
  }

  /** The points of the filled bins, in bin order. */
  function Filled(bins: seq<Option<Point>>): (r: seq<Point>)
    ensures |r| <= |bins|
  {
    if bins == [] then []
    else
      var n := |bins| - 1;
      Filled(bins[..n]) + (if bins[n].None? then [] else [bins[n].value])
  }

  function RetainAll(b: Boundary, s: seq<Point>): Boundary
  {
    if s == [] then b else Retain(RetainAll(b, s[..|s| - 1]), s[|s| - 1]).boundary
  }

  /** Compact the equilibrium points in place, then append the filled bins. */
  function RebuildNormalPoints(b: Boundary, bins: Bins): Boundary
  {
    var kept := Equilibria(Stored(b));
    RetainAll(b.(points := kept + b.points[|kept|..], pointCount := |kept|), Filled(bins))
  }

  function RetainTracking(s: Scan): (r: Scan)
    ensures r == s.(boundary := r.boundary)
  {
    if s.lastTracking.Some? && !s.normalProbe
    then s.(boundary := Retain(s.boundary, s.lastTracking.value).boundary)
    else s
  }

  // ---------------------------------------------------------------------------------------------
  // Runs.

  /** The state after the inputs of `h`, in order. */
  function After(s: Scan, h: seq<Input>): Scan
  {
    if h == [] then s else Update(After(s, h[..|h| - 1]), h[|h| - 1])
  }
}
