/** The scan as the firmware runs it: an object that each sample updates step by step. Every method
    is proved to have exactly the effect of its counterpart in `ScanModel`. The scalar fields are the
    components of one record-valued field; the point table is searched, compacted and extended in
    place. */
module ScanMachine {
  import opened Arithmetic
  import opened BoundaryData
  import opened BoundaryStore
  import opened EquilibriumBand
  import opened ScanModel
  import opened ScanTable
  import opened ScanShape
  import opened ScanInvariant
  import opened ScanRuns
  import opened ScanPreflight

  class SupplyScan {
    var state: Scan
    ghost const source: Boundary
    ghost const scanMode: Mode
    /** Every sample so far, in order. */
    ghost var history: seq<Input>

    /** The scan is where its samples have taken it, so every theorem about runs is about it. */
    ghost predicate Valid()
      reads this
    {
      New(source, scanMode).Some? && state == After(New(source, scanMode).value, history)
    }

    ghost predicate Fits()
      reads this
    {
      state.boundary.pointCount <= MAX_BOUNDARY_POINTS
    }

    constructor (b: Boundary, mode: Mode)
      requires New(b, mode).Some?
      ensures Valid() && source == b && scanMode == mode && history == []
    {
      state := New(b, mode).value;
      source, scanMode, history := b, mode, [];
    }

    static method Create(b: Boundary, mode: Mode) returns (scan: SupplyScan?)
      ensures scan != null <==> New(b, mode).Some?
      ensures scan != null ==>
                fresh(scan) && scan.Valid() && scan.source == b && scan.scanMode == mode && scan.history == []
    {
      if b.sourceMinMv < 5_500 || b.sourceMinMv >= b.sourceMaxMv || b.sourceMaxMv > 21_000 || b.sourceMaxMa < 3_000 {
        return null;
      }
      scan := new SupplyScan(b, mode);
    }

    method CurrentOutput() returns (o: Output)
      ensures o == OutputOf(state)
    {
      var continuous := state.mode.Rapid? && (state.phase.ProbeRecovery? || state.phase.SourceBoundaryRecovery?);
      o := Output(state.requestMv, state.requestMa,
                  state.phase.Sweep? || state.phase.RapidWarmup? || state.phase.TerminalProbe? ||
                  state.phase.TemperatureSettle? || state.phase.Equilibrium? || continuous);
    }

    method Abort(reason: Failure)
      modifies this`state
      ensures state == Fail(old(state), reason)
    {
      state := state.(phase := Failed);
      state := state.(failure := Some(reason));
    }

    method SetRequest(i: Input, mv: u16, ma: u16)
      modifies this`state
      ensures state == Change(old(state), i, mv, ma)
    {
      state := state.(requestMv := mv);
      state := state.(requestMa := ma);
      state := state.(changedAtMs := i.nowMs);
    }

    method Wait(i: Input)
      modifies this`state
      ensures state == Hold(old(state), i)
    {
      state := state.(changedAtMs := i.nowMs);
    }

    method Filter(raw: i16) returns (centiC: i16)
      modifies this`state
      ensures state == old(state).(stabilityCentiC := Some(Smooth(old(state).stabilityCentiC, raw)))
      ensures centiC == ClampI16(Smooth(old(state).stabilityCentiC, raw))
    {
      var filtered: int := raw;
      if state.stabilityCentiC.Some? {
        var before := state.stabilityCentiC.value;
        filtered := before + Quarter(raw - before);
      }
      state := state.(stabilityCentiC := Some(filtered));
      centiC := ClampI16(filtered);
    }

    // -------------------------------------------------------------------------------------------
    // Retention: the embedded table is updated in place and written back.

    method RetainPoint(p: Point) returns (accepted: bool)
      requires Fits()
      modifies this`state
      ensures Fits() && Retained(state.boundary, accepted) == Retain(old(state).boundary, p)
      ensures state == old(state).(boundary := state.boundary)
    {
      hide BoundaryData.Retain;
      var table := new SupplyBoundary(state.boundary);
      accepted := table.Retain(p);
      var kept := table.Value();
      state := state.(boundary := kept);
    }

    method RetainLastTracking()
      requires Fits()
      modifies this`state
      ensures Fits() && state == RetainTracking(old(state))
    {
      hide BoundaryData.Retain;
      if state.lastTracking.Some? && !state.normalProbe {
        var _ := RetainPoint(state.lastTracking.value);
      }
    }

    method RetainBin(i: Input)
      requires Fits()
      modifies this`state
      ensures Fits() && state == RetainNormalTracking(old(state), i)
    {
      hide RebuildNormalPoints;
      if state.requestMa != 3_000 {
        return;
      }
      var bin := Min(Max(i.temperatureCentiC - 2_000, 0) / 1_000, BIN_COUNT - 1);
      var point := PointOf(state, i).(trackingOnly := true);
      if state.normalBins[bin].None? || point.trackingRequestMv > state.normalBins[bin].value.trackingRequestMv {
        state := state.(normalBins := state.normalBins[bin := Some(point)]);
        RebuildTable();
      }
    }

    method RebuildTable()
      requires Fits()
      modifies this`state
      ensures Fits() &&
              state == old(state).(boundary := RebuildNormalPoints(old(state).boundary, old(state).normalBins))
    {
      hide RebuildNormalPoints;
      var table := new SupplyBoundary(state.boundary);
      RebuildPoints(table, state.normalBins);
      var rebuilt := table.Value();
      state := state.(boundary := rebuilt);
    }

    // -------------------------------------------------------------------------------------------
    // Unheated start.

    method StepBaseline(i: Input)
      modifies this`state
      ensures state == BaselineStep(old(state), i)
    {
      if i.physicalPercent != 0 {
        Abort(SupplyUnstable);
        return;
      }
      state := state.(baselineVinMv := i.vinMv);
      state := state.(baselineRequestMv := state.requestMv);
      state := state.(phase := Preflight);
      state := state.(changedAtMs := i.nowMs);
    }

    method StepPreflight(i: Input)
      modifies this`state
      ensures state == PreflightStep(old(state), i)
    {
      hide PreflightMinVinMv, FirstStage;
      if i.vinMv < PreflightMinVinMv(state) {
        Abort(SupplyUnstable);
        return;
      }
      if state.previous.Some? {
        if i.vinMv * 100 < state.previous.value.vinMv * 99 {
          Abort(SupplyUnstable);
          return;
        }
        BeginHeating(i);
      } else {
        state := state.(previous := Some(i));
        state := state.(changedAtMs := i.nowMs);
      }
    }

    method BeginHeating(i: Input)
      modifies this`state
      ensures state == FirstStage(old(state), i)
    {
      state := state.(requestMa := if state.mode.Rapid? then 3_000 else MIN_HEATED_CURRENT_MA);
      state := state.(phase := Sweep, previous := None, normalProbe := false);
      state := state.(returnRequestMv := state.boundary.sourceMinMv);
      state := state.(lastTracking := None);
      state := state.(flatRequestMv := 0, flatCount := 0, ambiguousCount := 0);
      state := state.(equilibrium := EMPTY_WINDOW);
      state := state.(stageStartedMs := i.nowMs);
      SetRequest(i, state.boundary.sourceMinMv, state.requestMa);
    }

    // -------------------------------------------------------------------------------------------
    // Detailed stages.

    method UnloadProbe(i: Input)
      modifies this`state
      ensures state == FinishNormalProbe(old(state), i)
    {
      state := state.(normalProbe := false);
      state := state.(phase := ProbeRecovery);
      state := state.(previous := None, lastTracking := None);
      state := state.(flatCount := 0, flatRequestMv := 0);
      state := state.(stageStartedMs := i.nowMs);
      SetRequest(i, state.requestMv, state.returnCurrentMa);
    }

    method EnterEquilibrium(i: Input)
      modifies this`state
      ensures state == BeginEquilibrium(old(state), i)
    {
      hide FinishNormalProbe;
      if state.lastTracking.None? {
        Abort(AmbiguousResponse);
        return;
      }
      var point := state.lastTracking.value;
      if state.normalProbe {
        UnloadProbe(i);
      } else if state.mode.Rapid? {
        state := state.(phase := RapidWarmup, previous := None, lastRapidProbeCentiC := None);
        state := state.(changedAtMs := i.nowMs);
        state := state.(requestMv := point.trackingRequestMv);
      } else {
        state := state.(phase := Phase.Equilibrium);
        state := state.(equilibrium := EMPTY_WINDOW);
        state := state.(previous := Some(i));
        SetRequest(i, Max(SatSub(point.trackingRequestMv, 100), state.boundary.sourceMinMv), state.requestMa);
      }
    }

    method SkipStage(i: Input)
      modifies this`state
      ensures state == NextStage(old(state), i)
    {
      state := state.(phase := Sweep, previous := None, lastTracking := None);
      state := state.(flatRequestMv := 0, flatCount := 0, ambiguousCount := 0);
      state := state.(normalProbe := false);
      state := state.(equilibrium := EMPTY_WINDOW);
      state := state.(stageStartedMs := i.nowMs);
      SetRequest(i, state.boundary.sourceMinMv, Min(state.requestMa + 100, 3_000));
    }

    method TimeoutStage(i: Input)
      modifies this`state
      ensures state == HandleStageTimeout(old(state), i)
    {
      hide NextStage;
      if state.requestMa >= 3_000 {
        Abort(StageTimeout);
        return;
      }
      SkipStage(i);
    }

    method StartProbe(i: Input)
      modifies this`state
      ensures state == BeginThreeAmpProbe(old(state), i)
    {
      hide NextStage;
      if !ProbeBandClear(state, i) {
        SkipStage(i);
        return;
      }
      state := state.(returnRequestMv := Max(state.requestMv, state.boundary.sourceMinMv));
      state := state.(normalProbe := true);
      state := state.(lastNormalProbeCentiC := Some(i.temperatureCentiC));
      state := state.(
        returnCurrentMa := if state.phase.Equilibrium? then Min(state.requestMa + 100, 3_000) else state.requestMa);
      state := state.(phase := Sweep, previous := None, lastTracking := None);
      state := state.(flatCount := 0, ambiguousCount := 0, flatRequestMv := 0);
      state := state.(stageStartedMs := i.nowMs);
      state := state.(normalProbeStartedMs := i.nowMs);
      SetRequest(i, state.returnRequestMv, 3_000);
    }

    method StepProbeRecovery(i: Input)
      modifies this`state
      ensures state == ProbeRecoveryStep(old(state), i)
    {
      var continuous := SameCurrentRecovery(state);
      if !i.confirmed || (continuous && i.physicalPercent != 100) || (!continuous && i.physicalPercent != 0) {
        Wait(i);
        return;
      }
      var target := Max(state.returnRequestMv, state.boundary.sourceMinMv);
      if state.requestMv == target {
        state := state.(phase := Sweep);
        state := state.(changedAtMs := i.nowMs);
      } else {
        SetRequest(i, Max(SatSub(state.requestMv, PROBE_RECOVERY_STEP_MV), target), state.returnCurrentMa);
      }
    }

    // -------------------------------------------------------------------------------------------
    // The sweep.

    method RaiseRequest(i: Input)
      modifies this`state
      ensures state == ProbeNextVoltage(old(state), i)
    {
      hide BeginEquilibrium, RapidProbeStepMv;
      if state.requestMv >= state.boundary.sourceMaxMv {
        if state.mode.Rapid? {
          state := state.(phase := RapidWarmup, previous := None, lastRapidProbeCentiC := None);
          state := state.(changedAtMs := i.nowMs);
        } else {
          EnterEquilibrium(i);
        }
      } else {
        var step: u16 := if state.mode.Rapid? then RapidProbeStepMv(state) else 100;
        SetRequest(i, Min(SatAdd16(state.requestMv, step), state.boundary.sourceMaxMv), state.requestMa);
      }
    }

    method ConfirmAmbiguous(i: Input)
      modifies this`state
      ensures state == HandleAmbiguousConfirmation(old(state), i)
    {
      hide FlatBoundaryReady, BeginEquilibrium, ProbeNextVoltage;
      if FlatBoundaryReady(state, i) {
        state := state.(flatRequestMv := state.requestMv);
        EnterEquilibrium(i);
        return;
      }
      state := state.(ambiguousCount := 0);
      RaiseRequest(i);
    }

    method ConfirmFlat(i: Input)
      modifies this`state
      ensures state == HandleFlatConfirmation(old(state), i)
    {
      hide FlatBoundaryReady, BeginEquilibrium, ProbeNextVoltage;
      if !FlatBoundaryReady(state, i) {
        state := state.(flatCount := 0);
        RaiseRequest(i);
        return;
      }
      state := state.(flatRequestMv := state.requestMv);
      if state.lastTracking.Some? {
        state := state.(lastTracking := Some(state.lastTracking.value.(flatRequestMv := state.flatRequestMv)));
      }
      EnterEquilibrium(i);
    }

    method NoteTracking(i: Input)
      requires Fits()
      modifies this`state
      ensures Fits() && state == RecordTracking(old(state), i)
    {
      hide RetainNormalTracking;
      state := state.(lastTracking := Some(PointOf(state, i)));
      RetainBin(i);
    }

    method StepSweep(i: Input)
      requires Fits()
      modifies this`state
      ensures Fits() && state == SweepStep(old(state), i)
    {
      hide RecordTracking, ProbeNextVoltage, VoltageTracksRequest, BeginSourceBoundaryRecovery, JudgeStep;
      if state.previous.None? {
        NoteTracking(i);
        state := state.(previous := Some(i));
        RaiseRequest(i);
        return;
      }
      var tracks := VoltageTracksRequest(state, i);
      if state.mode.Rapid? && !tracks {
        RecoverBoundary(i);
      } else if state.mode.Rapid? && state.requestMv >= state.boundary.sourceMaxMv {
        state := state.(phase := RapidWarmup);
        state := state.(previous := Some(i), rapidTrackingConfirmations := 0, lastRapidProbeCentiC := None);
        state := state.(changedAtMs := i.nowMs);
      } else {
        Judge(state.previous.value, i);
      }
    }

    /** Classify the answer to the last voltage step and act on it. */
    method Judge(before: Input, i: Input)
      requires Fits()
      modifies this`state
      ensures Fits() && state == JudgeStep(old(state), before, i)
    {
      hide RecordTracking, ProbeNextVoltage, HandleFlatConfirmation, HandleAmbiguousConfirmation, ExpectedDeltaMv;
      var expected := ExpectedDeltaMv(state);
      var observed := SatSub(i.vinMv, before.vinMv);
      var drift := i.temperatureCentiC - before.temperatureCentiC;
      if observed * 100 >= expected * 80 {
        NoteTracking(i);
        state := state.(flatCount := 0, ambiguousCount := 0, previous := Some(i));
        RaiseRequest(i);
      } else if drift > 100 || drift < -100 {
        state := state.(flatCount := 0, ambiguousCount := 0, previous := Some(i));
        RaiseRequest(i);
      } else if observed * 100 <= expected * 25 {
        CountFlat(i);
      } else {
        CountAmbiguous(i);
      }
    }

    method CountFlat(i: Input)
      modifies this`state
      ensures var counted := old(state).(flatCount := old(state).flatCount + 1, previous := Some(i));
              state == if counted.flatCount >= (if old(state).normalProbe then NORMAL_PROBE_FLAT_CONFIRMATIONS else 2)
                       then HandleFlatConfirmation(counted, i) else ProbeNextVoltage(counted, i)
    {
      hide ProbeNextVoltage, HandleFlatConfirmation;
      state := state.(flatCount := state.flatCount + 1);
      state := state.(previous := Some(i));
      if state.flatCount >= (if state.normalProbe then NORMAL_PROBE_FLAT_CONFIRMATIONS else 2) {
        ConfirmFlat(i);
      } else {
        RaiseRequest(i);
      }
    }

    method CountAmbiguous(i: Input)
      modifies this`state
      ensures var counted := old(state).(ambiguousCount := SatAdd8(old(state).ambiguousCount, 1), previous := Some(i),
                                         changedAtMs := i.nowMs);
              var enough := if old(state).normalProbe then NORMAL_PROBE_AMBIGUOUS_CONFIRMATIONS else 5;
              state == if counted.ambiguousCount >= enough
                       then HandleAmbiguousConfirmation(counted, i) else counted
    {
      hide HandleAmbiguousConfirmation;
      state := state.(ambiguousCount := SatAdd8(state.ambiguousCount, 1));
      state := state.(previous := Some(i));
      state := state.(changedAtMs := i.nowMs);
      if state.ambiguousCount >= (if state.normalProbe then NORMAL_PROBE_AMBIGUOUS_CONFIRMATIONS else 5) {
        ConfirmAmbiguous(i);
      }
    }

    /** The embedded window is updated in place and written back. */
    method NoteTemperature(i: Input) returns (stable: bool)
      modifies this`state
      ensures var seen := Observe(old(state).equilibrium, i.nowMs, i.temperatureCentiC);
              state == old(state).(equilibrium := seen.window) && stable == seen.stable
    {
      hide Observe;
      var window := new EquilibriumWindow.Of(state.equilibrium);
      stable := window.Note(i.nowMs, i.temperatureCentiC);
      var noted := window.Value();
      state := state.(equilibrium := noted);
    }

    method StepEquilibrium(i: Input)
      requires Fits()
      modifies this`state
      ensures Fits() && state == EquilibriumStep(old(state), i)
    {
      hide Observe, RetainTracking, FinishThreeAmpEquilibrium, BeginThreeAmpProbe, ProbeNextVoltage;
      var stable := NoteTemperature(i);
      if stable {
        state := state.(lastTracking := Some(PointOf(state, i)));
        RetainLastTracking();
        if state.requestMa == 3_000 {
          FinishEquilibrium(i);
        } else {
          StartProbe(i);
        }
      } else if state.previous.Some? && i.temperatureCentiC - state.previous.value.temperatureCentiC > 100 {
        state := state.(phase := Sweep, previous := Some(i));
        state := state.(flatCount := 0, flatRequestMv := 0);
        state := state.(equilibrium := EMPTY_WINDOW);
        RaiseRequest(i);
      }
    }

    method FinishEquilibrium(i: Input)
      modifies this`state
      ensures state == FinishThreeAmpEquilibrium(old(state), i)
    {
      hide ProbeNextVoltage;
      var ceiling := state.lastTracking.Some? &&
                     SatAdd16(state.lastTracking.value.trackingRequestMv, 100) >= state.boundary.sourceMaxMv;
      if i.temperatureCentiC >= CUTOFF_CENTI_C || ceiling {
        state := state.(phase := Complete);
        return;
      }
      state := state.(phase := Sweep, previous := None, lastTracking := None);
      state := state.(flatCount := 0, ambiguousCount := 0, flatRequestMv := 0);
      state := state.(equilibrium := EMPTY_WINDOW);
      RaiseRequest(i);
    }

    // -------------------------------------------------------------------------------------------
    // Rapid mode.

    /** The strongest stored point of the present current below the present request. */
    method FindStrongestBelow() returns (r: Option<Point>)
      requires Fits()
      ensures r == StrongestBelow(Stored(state.boundary), state.requestMa, state.requestMv)
    {
      var stored := Stored(state.boundary);
      r := None;
      for k := 0 to |stored|
        invariant r == StrongestBelow(stored[..k], state.requestMa, state.requestMv)
      {
        assert stored[..k + 1][..k] == stored[..k];
        var p := stored[k];
        if p.requestCurrentMa == state.requestMa && p.trackingRequestMv < state.requestMv &&
           (r.None? || r.value.trackingRequestMv <= p.trackingRequestMv) {
          r := Some(p);
        }
      }
      assert stored[..|stored|] == stored;
    }

    method RecoveryRequest() returns (mv: u16)
      requires Fits()
      ensures mv == RecoveryRequestMv(state)
    {
      hide StrongestBelow;
      var lastSafe := state.lastTracking;
      if lastSafe.None? || lastSafe.value.trackingRequestMv >= state.requestMv {
        lastSafe := FindStrongestBelow();
      }
      var step := if state.mode.Rapid? then RAPID_COARSE_STEP_MV else PROBE_RECOVERY_STEP_MV;
      var coarse := Max(SatSub(state.requestMv, step), state.boundary.sourceMinMv);
      mv := if lastSafe.None? then coarse
            else Max(Min(lastSafe.value.trackingRequestMv, coarse), state.boundary.sourceMinMv);
    }

    method RecoverBoundary(i: Input)
      requires Fits()
      modifies this`state
      ensures Fits() && state == BeginSourceBoundaryRecovery(old(state), i)
    {
      hide RecoveryRequestMv, FailureCounted, FallBack;
      var target := RecoveryRequest();
      state := state.(returnRequestMv := target);
      if state.returnRequestMv >= state.requestMv {
        Abort(SupplyUnstable);
        return;
      }
      CountFailure(i);
      LeaveFailed(i);
    }

    method CountFailure(i: Input)
      modifies this`state
      ensures state == FailureCounted(old(state), i)
    {
      if state.mode.Rapid? {
        var hot := i.temperatureCentiC >= MIN_BOUNDARY_COVERAGE_CENTI_C;
        state := state.(rapidBoundaryReached := true);
        state := state.(rapidFailedProbeCount := if hot then SatAdd8(state.rapidFailedProbeCount, 1) else 0);
        state := state.(rapidFailedProbeMv := Some(state.requestMv));
        state := state.(hotBoundaryReached := hot);
      }
    }

    method LeaveFailed(i: Input)
      modifies this`state
      ensures state == FallBack(old(state), i)
    {
      state := state.(returnCurrentMa := state.requestMa);
      state := state.(normalProbe := false, lastTracking := None);
      state := state.(rapidTrackingConfirmations := 0);
      state := state.(phase := SourceBoundaryRecovery, previous := None);
      state := state.(flatCount := 0, ambiguousCount := 0);
      state := state.(flatRequestMv := state.requestMv);
      SetRequest(i, state.returnRequestMv, state.returnCurrentMa);
    }

    method StepSourceBoundaryRecovery(i: Input)
      modifies this`state
      ensures state == SourceBoundaryRecoveryStep(old(state), i)
    {
      var continuous := SameCurrentRecovery(state);
      if !i.confirmed || (continuous && i.physicalPercent != 100) || (!continuous && i.physicalPercent != 0) {
        Wait(i);
        return;
      }
      if SatSub(i.nowMs, state.changedAtMs) < SettleMs(state) {
        return;
      }
      state := state.(phase := RapidWarmup, previous := None);
      state := state.(flatRequestMv := 0, rapidTrackingConfirmations := 0);
      if !state.rapidProbeSinceBoundary {
        state := state.(lastRapidProbeCentiC := None);
      }
      state := state.(changedAtMs := i.nowMs);
    }

    method StartTerminalProbe(i: Input)
      modifies this`state
      ensures state == BeginTerminalProbeOrComplete(old(state), i)
    {
      hide TerminalTarget;
      var target := TerminalTarget(state.boundary);
      if target.None? {
        state := state.(phase := Complete);
        return;
      }
      state := state.(requestMv := target.value.0, requestMa := target.value.1);
      state := state.(terminalProbeConfirmations := 0);
      state := state.(phase := TerminalProbe, previous := None);
      state := state.(changedAtMs := i.nowMs);
      state := state.(stageStartedMs := i.nowMs);
    }

    method Reprobe(i: Input)
      modifies this`state
      ensures state == BeginRapidVoltageReprobe(old(state), i)
    {
      hide ReprobeRequestMv;
      var next := ReprobeRequestMv(state);
      if next <= state.requestMv {
        state := state.(phase := Complete);
        return;
      }
      state := state.(phase := Sweep, normalProbe := false, previous := Some(i));
      state := state.(lastTracking := Some(PointOf(state, i)));
      state := state.(flatRequestMv := 0, flatCount := 0, ambiguousCount := 0);
      state := state.(equilibrium := EMPTY_WINDOW);
      state := state.(stageStartedMs := i.nowMs);
      state := state.(rapidTrackingConfirmations := 0);
      state := state.(lastRapidProbeCentiC := Some(i.temperatureCentiC));
      state := state.(rapidProbeSinceBoundary := true);
      SetRequest(i, next, 3_000);
    }

    method CountTracking(i: Input)
      modifies this`state
      ensures state == WarmupConfirmation(old(state), i)
    {
      if state.lastRapidProbeCentiC.None? {
        state := state.(lastRapidProbeCentiC := Some(i.temperatureCentiC));
      }
      state := state.(rapidTrackingConfirmations := SatAdd8(state.rapidTrackingConfirmations, 1));
    }

    method StepRapidWarmup(i: Input)
      requires Fits()
      modifies this`state
      ensures Fits() && state == RapidWarmupStep(old(state), i)
    {
      hide VoltageTracksRequest, BeginSourceBoundaryRecovery, RetainNormalTracking, WarmupDecision, WarmupConfirmation;
      if !i.confirmed || i.physicalPercent != 100 {
        Wait(i);
        return;
      }
      if !VoltageTracksRequest(state, i) {
        RecoverBoundary(i);
        return;
      }
      CountTracking(i);
      if state.rapidTrackingConfirmations >= 2 {
        RetainBin(i);
        DecideWarmup(i);
      } else {
        Wait(i);
      }
    }

    /** The source tests one more reprobe condition last, which the reprobe that is due subsumes. */
    method DecideWarmup(i: Input)
      modifies this`state
      ensures state == WarmupDecision(old(state), i)
    {
      hide BeginTerminalProbeOrComplete, BeginRapidVoltageReprobe;
      var hot := state.hotBoundaryReached && i.temperatureCentiC >= MIN_BOUNDARY_COVERAGE_CENTI_C;
      var ready := state.lastRapidProbeCentiC.Some? &&
                   SatSubI16(i.temperatureCentiC, state.lastRapidProbeCentiC.value) >= RAPID_REPROBE_STEP_CENTI_C;
      var reconfirmed := state.rapidFailedProbeMv.Some? && state.requestMv >= state.rapidFailedProbeMv.value;
      var due := if state.rapidBoundaryReached then !state.rapidProbeSinceBoundary || ready || reconfirmed else ready;
      if hot && state.rapidFailedProbeCount >= RAPID_SOURCE_CEILING_CONFIRMATIONS {
        StartTerminalProbe(i);
      } else if hot && state.rapidFailedProbeMv.Some? && state.requestMv < state.rapidFailedProbeMv.value {
        Reprobe(i);
      } else if due && state.requestMv < state.boundary.sourceMaxMv {
        Reprobe(i);
      } else if i.temperatureCentiC >= MIN_BOUNDARY_COVERAGE_CENTI_C &&
                state.requestMv >= state.boundary.sourceMaxMv && ready {
        StartTerminalProbe(i);
      } else {
        Wait(i);
      }
    }

    method Retreat(i: Input)
      modifies this`state
      ensures state == RetreatFromTerminal(old(state), i)
    {
      state := state.(terminalProbeConfirmations := 0);
      state := state.(phase := SourceBoundaryRecovery, previous := None);
      state := state.(returnRequestMv := state.boundary.sourceMaxMv, returnCurrentMa := 3_000);
      state := state.(rapidTrackingConfirmations := 0);
      state := state.(rapidProbeSinceBoundary := true);
      state := state.(lastRapidProbeCentiC := Some(i.temperatureCentiC));
      SetRequest(i, state.boundary.sourceMaxMv, 3_000);
    }

    method StepTerminalProbe(i: Input)
      requires Fits()
      modifies this`state
      ensures Fits() && state == TerminalProbeStep(old(state), i)
    {
      hide VoltageTracksRequest, BoundaryData.Retain, RetreatFromTerminal;
      if !i.confirmed || i.physicalPercent != 100 {
        Wait(i);
        return;
      }
      if !VoltageTracksRequest(state, i) {
        Retreat(i);
        return;
      }
      state := state.(terminalProbeConfirmations := SatAdd8(state.terminalProbeConfirmations, 1));
      if state.terminalProbeConfirmations >= 2 {
        var kept := RetainPoint(PointOf(state, i).(flatRequestMv := 0, trackingOnly := true));
        if kept {
          state := state.(phase := Complete);
        } else {
          Abort(SupplyUnstable);
        }
      } else {
        Wait(i);
      }
    }

    // -------------------------------------------------------------------------------------------
    // The update.

    method StepPreflightRecovery(i: Input)
      modifies this`state
      ensures state == PreflightRecoveryStep(old(state), i)
    {
      hide PreflightMinVinMv;
      if i.physicalPercent != 0 || i.vinMv < PreflightMinVinMv(state) {
        Abort(SupplyUnstable);
      } else {
        state := state.(phase := Sweep);
        state := state.(changedAtMs := i.nowMs);
      }
    }

    method StepTemperatureSettle(i: Input)
      modifies this`state
      ensures state == TemperatureSettleStep(old(state), i)
    {
      hide Observe;
      var stable := NoteTemperature(i);
      if stable {
        state := state.(phase := Sweep);
        state := state.(previous := None);
      }
    }

    method Step(i: Input)
      requires Fits()
      modifies this`state
      ensures Fits() && state == Advance(old(state), i)
    {
      hide BaselineStep, PreflightStep, ProbeRecoveryStep, SourceBoundaryRecoveryStep, SweepStep, RapidWarmupStep,
           TerminalProbeStep, EquilibriumStep, PreflightRecoveryStep, TemperatureSettleStep;
      var phase := state.phase;
      if !(phase.Baseline? || phase.Preflight? || phase.PreflightRecovery? || phase.ProbeRecovery? ||
           phase.SourceBoundaryRecovery?) && i.physicalPercent != 100 {
        Wait(i);
        return;
      }
      match phase {
        case Baseline => StepBaseline(i);
        case Preflight => StepPreflight(i);
        case PreflightRecovery => StepPreflightRecovery(i);
        case ProbeRecovery => StepProbeRecovery(i);
        case SourceBoundaryRecovery => StepSourceBoundaryRecovery(i);
        case Sweep => StepSweep(i);
        case RapidWarmup => StepRapidWarmup(i);
        case TerminalProbe => StepTerminalProbe(i);
        case TemperatureSettle => StepTemperatureSettle(i);
        case Equilibrium => StepEquilibrium(i);
        case Complete =>
        case Failed =>
      }
    }

    method CutOffHere()
      requires Fits()
      modifies this`state
      ensures Fits() && state == CutOff(old(state))
    {
      hide RetainTracking;
      state := state.(cutoffReached := true);
      state := state.(boundary := state.boundary.(cutoffReached := true));
      RetainLastTracking();
      state := state.(phase := Complete);
    }

    /** One sample: the guards on the raw reading, then one settled observation. */
    method Update(i: Input) returns (o: Output)
      requires Valid()
      modifies this
      ensures Valid() && history == old(history) + [i]
      ensures state == ScanModel.Update(old(state), i) && o == OutputOf(state)
      // No heat before the preflight has passed, and none from an abort on.
      ensures o.heaterEnabled ==> Proven(source, scanMode, history, Chronological(history))
      ensures Aborts(old(state), i) || Ended(old(state)) ==>
                Ended(state) && o == Output(old(state).requestMv, old(state).requestMa, false)
      // The table keeps its shape, and a rapid scan completes before the cutoff only with coverage.
      ensures Shaped(state)
      ensures scanMode.Rapid? && state.phase.Complete? && !state.cutoffReached ==> HotBin(state.normalBins)
      // The request keeps to the slew bound, and to the envelope until the scan escapes.
      ensures o.heaterEnabled && (state.phase.TerminalProbe? ==> old(state).phase.TerminalProbe?) ==>
                o.requestMv <= old(state).requestMv + (if scanMode.Detailed? then 100 else 500)
      ensures NoEscape(New(source, scanMode).value, history) ==> InEnvelope(state)
      // What a well-formed scan completes with is valid unless this sample stranded a point.
      ensures WellFormed() && !Ended(old(state)) && state.phase.Complete? && state.boundary.pointCount >= 1 ==>
                (IsValid(state.boundary) <==> !Strands(old(state), i))
    {
      hide After, ScanModel.Update, New, Proven, Chronological, Aborts, Ended, Shaped, HotBin, HeaterOn,
           WellFormedHeader, WellFormedRun, NoEscape, InEnvelope, IsValid, Strands;
      RunShaped(source, scanMode, history);
      ShapedFits(state);
      Sample(i);
      AfterSnoc(New(source, scanMode).value, history, i);
      UpdatePromises(source, scanMode, history, i);
      history := history + [i];
      o := CurrentOutput();
    }

    ghost predicate WellFormed()
      reads this
    {
      WellFormedHeader(source) && WellFormedRun(history)
    }

    method Sample(i: Input)
      requires Fits()
      modifies this`state
      ensures Fits() && state == ScanModel.Update(old(state), i)
    {
      hide Guarded, Smooth;
      if !state.phase.Complete? && !state.phase.Failed? {
        var centiC := Filter(i.temperatureCentiC);
        Guard(i, i.(temperatureCentiC := centiC));
      }
    }

    method Guard(i: Input, smoothed: Input)
      requires Fits()
      modifies this`state
      ensures Fits() && state == Guarded(old(state), i, smoothed)
    {
      hide Advance, CutOff, FinishNormalProbe, HandleStageTimeout, BeginThreeAmpProbe, CoverageProbeDue;
      if i.wifiStarted != state.boundary.wifiStarted {
        Abort(WifiChanged);
      } else if i.rtdMv == 0 || i.vinMv == 0 || i.rtdCode > 4_095 || i.vinCode > 4_095 {
        Abort(InvalidSample);
      } else if i.temperatureCentiC >= CUTOFF_CENTI_C {
        CutOffHere();
      } else if state.normalProbe && SatSub(i.nowMs, state.normalProbeStartedMs) >= NORMAL_PROBE_TIMEOUT_MS {
        UnloadProbe(i);
      } else if SatSub(i.nowMs, state.stageStartedMs) > STAGE_TIMEOUT_MS {
        TimeoutStage(i);
      } else if CoverageProbeDue(state, i) {
        StartProbe(i);
      } else if !i.confirmed {
        Wait(i);
      } else if SatSub(i.nowMs, state.changedAtMs) >= SettleMs(state) {
        Step(smoothed);
      }
    }
  }

  lemma ShapedFits(s: Scan)
    requires Shaped(s)
    ensures s.boundary.pointCount <= MAX_BOUNDARY_POINTS
  {
  }

  lemma AfterSnoc(s: Scan, h: seq<Input>, i: Input)
    ensures After(s, h + [i]) == ScanModel.Update(After(s, h), i)
  {
    hide ScanModel.Update;
    assert (h + [i])[..|h|] == h;
  }

  /** The theorems about runs, for the update that sample `i` causes after `h`. */
  lemma UpdatePromises(b: Boundary, mode: Mode, h: seq<Input>, i: Input)
    requires New(b, mode).Some?
    ensures var s, g := After(New(b, mode).value, h), h + [i];
            var r := ScanModel.Update(s, i);
            && (HeaterOn(r) ==> Proven(b, mode, g, Chronological(g)))
            && (Aborts(s, i) || Ended(s) ==> Ended(r) && OutputOf(r) == Output(s.requestMv, s.requestMa, false))
            && Shaped(r) && (mode.Rapid? && r.phase.Complete? && !r.cutoffReached ==> HotBin(r.normalBins))
            && (HeaterOn(r) && (r.phase.TerminalProbe? ==> s.phase.TerminalProbe?) ==>
                  r.requestMv <= s.requestMv + (if mode.Detailed? then 100 else 500))
            && (NoEscape(New(b, mode).value, g) ==> InEnvelope(r))
            && (WellFormedHeader(b) && WellFormedRun(g) ==>
                  !Ended(s) && r.phase.Complete? && r.boundary.pointCount >= 1 ==>
                    (IsValid(r.boundary) <==> !Strands(s, i)))
  {
    hide After, ScanModel.Update, New, Proven, Chronological, Aborts, Ended, Shaped, HotBin, HeaterOn,
         WellFormedHeader, WellFormedRun, NoEscape, InEnvelope, IsValid, Strands, Inv;
    var s, g := After(New(b, mode).value, h), h + [i];
    AfterSnoc(New(b, mode).value, h, i);
    NoHeatBeforePreflight(b, mode, g);
    RunShaped(b, mode, g);
    CoverageOfShape(After(New(b, mode).value, g));
    AbortPromise(s, i);
    SlewBound(b, mode, h, i);
    if NoEscape(New(b, mode).value, g) {
      RunKeeps(b, mode, g, UNESCAPED);
      StrictIsInEnvelope(After(New(b, mode).value, g), UNESCAPED);
    }
    if WellFormedHeader(b) && WellFormedRun(g) {
      ValidityPromise(b, mode, h, i);
    }
  }

  lemma CoverageOfShape(s: Scan)
    requires Shaped(s)
    ensures s.mode.Rapid? && s.phase.Complete? && !s.cutoffReached ==> HotBin(s.normalBins)
  {
  }

  lemma AbortPromise(s: Scan, i: Input)
    ensures var r := ScanModel.Update(s, i);
            Aborts(s, i) || Ended(s) ==> Ended(r) && OutputOf(r) == Output(s.requestMv, s.requestMa, false)
  {
    hide ScanModel.Update, Aborts;
    if Aborts(s, i) {
      AbortEnds(s, i);
    } else if Ended(s) {
      EndedStays(s, i);
    }
  }

  lemma ValidityPromise(b: Boundary, mode: Mode, h: seq<Input>, i: Input)
    requires New(b, mode).Some? && WellFormedHeader(b) && WellFormedRun(h + [i])
    ensures var s := After(New(b, mode).value, h);
            var r := ScanModel.Update(s, i);
            !Ended(s) && r.phase.Complete? && r.boundary.pointCount >= 1 ==> (IsValid(r.boundary) <==> !Strands(s, i))
  {
    hide After, ScanModel.Update, WellFormedRun, WellFormedHeader, New, IsValid, Strands, Ended, Inv;
    var s, g := After(New(b, mode).value, h), h + [i];
    AfterSnoc(New(b, mode).value, h, i);
    WellFormedPrefix(g, |h|);
    assert g[..|h|] == h;
    RunKeeps(b, mode, h, WELL_FORMED);
    RunKeeps(b, mode, g, WELL_FORMED);
    var r := ScanModel.Update(s, i);
    if !Ended(s) && r.phase.Complete? && r.boundary.pointCount >= 1 {
      CompletionIsValid(s, i);
    }
  }

  /** Compact the equilibrium points of the table in place, then append the filled bins. */
  method RebuildPoints(table: SupplyBoundary, bins: Bins)
    requires table.Valid()
    modifies table, table.points
    ensures table.Valid() && table.View() == RebuildNormalPoints(old(table.View()), bins)
  {
    hide BoundaryData.Retain, RetainAll, Filled, Equilibria;
    ghost var b := table.View();
    Compact(table);
    NothingRetained(Compacted(b), bins);
    for k := 0 to BIN_COUNT
      invariant table.Valid()
      invariant table.View() == RetainAll(Compacted(b), Filled(bins[..k]))
    {
      OneMoreBin(Compacted(b), bins, k);
      if bins[k].Some? {
        var _ := table.Retain(bins[k].value);
      }
    }
    assert bins[..BIN_COUNT] == bins;
  }

  lemma NothingRetained(b: Boundary, bins: Bins)
    ensures RetainAll(b, Filled(bins[..0])) == b
  {
  }

  lemma OneMoreBin(b: Boundary, bins: Bins, k: nat)
    requires k < BIN_COUNT
    ensures RetainAll(b, Filled(bins[..k + 1])) ==
            if bins[k].None? then RetainAll(b, Filled(bins[..k]))
            else Retain(RetainAll(b, Filled(bins[..k])), bins[k].value).boundary
  {
    hide BoundaryData.Retain;
    assert bins[..k + 1][..k] == bins[..k];
    var front := Filled(bins[..k]);
    if bins[k].Some? {
      assert (front + [bins[k].value])[..|front|] == front;
    } else {
      assert front + [] == front;
    }
  }

  /** The table with its tracking points dropped; the slots behind the kept points are stale. */
  function Compacted(b: Boundary): Boundary
  {
    var kept := Equilibria(Stored(b));
    b.(points := kept + b.points[|kept|..], pointCount := |kept|)
  }

  method Compact(table: SupplyBoundary)
    requires table.Valid()
    modifies table, table.points
    ensures table.Valid() && table.View() == Compacted(old(table.View()))
  {
    hide Equilibria;
    ghost var stored := Stored(table.View());
    var count := table.pointCount;
    var keep := 0;
    NoEquilibria(stored);
    for index := 0 to count
      invariant unchanged(table) && keep <= index
      invariant table.points[..keep] == Equilibria(stored[..index])
      invariant forall j :: keep <= j < MAX_BOUNDARY_POINTS ==> table.points[j] == old(table.points[j])
    {
      OneMorePoint(stored, index);
      assert stored[index] == table.points[index];
      if !table.points[index].trackingOnly {
        ghost var front := table.points[..keep];
        table.points[keep] := table.points[index];
        assert table.points[..keep] == front;
        assert table.points[..keep + 1] == front + [stored[index]];
        keep := keep + 1;
      }
    }
    assert stored[..count] == stored;
    table.pointCount := keep;
    assert table.points[..] == table.points[..keep] + table.points[keep..];
    assert table.points[keep..] == old(table.points[..])[keep..];
    assert table.points[..] == Equilibria(stored) + old(table.View()).points[|Equilibria(stored)|..];
  }

  lemma NoEquilibria(s: seq<Point>)
    ensures Equilibria(s[..0]) == []
  {
  }

  lemma OneMorePoint(s: seq<Point>, k: nat)
    requires k < |s|
    ensures Equilibria(s[..k + 1]) == Equilibria(s[..k]) + (if s[k].trackingOnly then [] else [s[k]])
  {
    assert s[..k + 1][..k] == s[..k];
  }
}
