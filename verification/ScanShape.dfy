/** What holds in every run of every scan that can be constructed, whatever its header and samples:
    the shape of the point table, room for every retained point, and the coverage of a rapid run. */
module ScanShape {
  import opened Arithmetic
  import opened BoundaryData
  import EquilibriumBand
  import opened ScanModel
  import opened ScanTable

  /** A bin at or above 100 C holds a tracking point. */
  predicate HotBin(bins: Bins)
  {
    exists k :: 8 <= k < BIN_COUNT && bins[k].Some?
  }

  predicate AtTerminalTarget(s: Scan)
  {
    s.mode.Rapid? && TerminalTarget(s.boundary) == Some((s.requestMv, s.requestMa))
  }

  /** Which phases a mode visits; two phases are visited by neither. */
  predicate ModePhase(s: Scan)
  {
    && !s.phase.PreflightRecovery? && !s.phase.TemperatureSettle?
    && (s.mode.Detailed? ==> !s.phase.RapidWarmup? && !s.phase.TerminalProbe? && !s.phase.SourceBoundaryRecovery?)
    && (s.mode.Rapid? ==> !s.phase.Equilibrium?)
  }

  /** Detailed mode stays on the eleven stage currents. */
  predicate DetailedCurrents(s: Scan)
  {
    && RegularCurrent(s.requestMa) && RegularCurrent(s.returnCurrentMa)
    && (s.lastTracking.Some? ==> RegularCurrent(s.lastTracking.value.requestCurrentMa))
  }

  /** Rapid mode leaves 3 A, and completes before the cutoff, only with a hot bin filled. */
  predicate RapidFlow(s: Scan)
  {
    && ((s.requestMa == 3_000 && s.returnCurrentMa == 3_000) || HotBin(s.normalBins))
    && (s.phase.TerminalProbe? ==> HotBin(s.normalBins) && AtTerminalTarget(s))
    && (s.phase.Complete? && !s.cutoffReached ==> HotBin(s.normalBins))
  }

  /** The part that does not look at the stored points. */
  predicate Flow(s: Scan)
  {
    && s.boundary.sourceMaxMv <= 21_000
    && ModePhase(s)
    && (s.cutoffReached ==> s.phase.Complete?)
    && (s.lastTracking.Some? ==> s.lastTracking.value.trackingOnly == s.normalProbe)
    && (if s.mode.Detailed? then DetailedCurrents(s) else RapidFlow(s))
  }

  /** The table while the scan runs: a rapid scan stores no equilibrium point yet. */
  predicate RunningTable(s: Scan)
  {
    && TableShaped(s.boundary, s.normalBins, [])
    && (if s.mode.Detailed? then AllRegular(Equilibria(Stored(s.boundary))) else Equilibria(Stored(s.boundary)) == [])
  }

  /** The last slot holds the terminal point of a completed rapid scan. */
  predicate EndsWithTerminal(s: Scan)
  {
    && s.mode.Rapid? && s.phase.Complete? && !s.cutoffReached && 0 < s.boundary.pointCount <= MAX_BOUNDARY_POINTS
    && var last := s.boundary.points[s.boundary.pointCount - 1];
       TerminalTracking(s.boundary, last) && TableShaped(s.boundary, s.normalBins, [last])
  }

  predicate Shaped(s: Scan)
  {
    && Flow(s)
    && if Ended(s) then TableShaped(s.boundary, s.normalBins, []) || EndsWithTerminal(s) else RunningTable(s)
  }

  /** A step to `r` that leaves the table alone and keeps the flow. */
  predicate Flows(s: Scan, r: Scan)
  {
    Flow(r) && r.boundary == s.boundary && r.normalBins == s.normalBins && r.mode == s.mode
  }

  lemma FlowsKeepsShape(s: Scan, r: Scan)
    requires RunningTable(s) && Flows(s, r)
    ensures Shaped(r)
  {
    hide TableShaped, Flow, Equilibria;
  }

  lemma NewShaped(b: Boundary, mode: Mode)
    requires New(b, mode).Some?
    ensures Shaped(New(b, mode).value)
  {
    var s := New(b, mode).value;
    NoneFilled(s.normalBins);
    assert Stored(s.boundary) == [];
  }

  lemma {:induction false} NoneFilled(bins: seq<Option<Point>>)
    requires forall k :: 0 <= k < |bins| ==> bins[k].None?
    ensures Filled(bins) == []
  {
    if bins != [] {
      NoneFilled(bins[..|bins| - 1]);
    }
  }

  lemma HotBinStays(bins: Bins, k: nat, p: Point)
    requires k < BIN_COUNT
    ensures HotBin(bins) || k >= 8 ==> HotBin(bins[k := Some(p)])
  {
    var news := bins[k := Some(p)];
    assert news[k].Some?;
    assert forall j :: 0 <= j < BIN_COUNT && bins[j].Some? ==> news[j].Some?;
  }

  /** The two boundaries differ in their points and cutoff flag at most. */
  predicate SameHeader(b: Boundary, c: Boundary)
  {
    c == b.(cutoffReached := c.cutoffReached, pointCount := c.pointCount, points := c.points)
  }

  lemma TargetFrame(b: Boundary, c: Boundary)
    requires SameHeader(b, c)
    ensures TerminalTarget(c) == TerminalTarget(b)
  {
  }

  // ---------------------------------------------------------------------------------------------
  // Retention.

  lemma RunningIsRegular(s: Scan)
    requires RunningTable(s)
    ensures TableShaped(s.boundary, s.normalBins, []) && AllRegular(Equilibria(Stored(s.boundary)))
    ensures s.boundary.pointCount <= 31
  {
    hide TableShaped, Equilibria;
    ShapeHasRoom(s.boundary, s.normalBins);
  }

  /** A tracking sample keeps the shape; at 3 A its bin is filled afterwards. */
  lemma RetainNormalTrackingShaped(s: Scan, i: Input)
    requires Flow(s) && RunningTable(s)
    ensures var r := RetainNormalTracking(s, i);
            && r == s.(boundary := r.boundary, normalBins := r.normalBins)
            && Flow(r) && RunningTable(r)
            && (s.requestMa == 3_000 ==> r.normalBins[BinOf(i.temperatureCentiC)].Some?)
            && (HotBin(s.normalBins) ==> HotBin(r.normalBins))
  {
    hide TableShaped, RebuildNormalPoints, HotBin, Equilibria, TerminalTarget, Flow, Stored;
    var bin := BinOf(i.temperatureCentiC);
    var p := PointOf(s, i).(trackingOnly := true);
    if s.requestMa == 3_000 &&
       (s.normalBins[bin].None? || p.trackingRequestMv > s.normalBins[bin].value.trackingRequestMv) {
      RunningIsRegular(s);
      RebuildShaped(s.boundary, s.normalBins, bin, p);
      HotBinStays(s.normalBins, bin, p);
      RebinnedFlows(s, RetainNormalTracking(s, i));
    }
  }

  /** The flow looks at the header and at whether a hot bin is filled. */
  lemma RebinnedFlows(s: Scan, r: Scan)
    requires Flow(s) && r == s.(boundary := r.boundary, normalBins := r.normalBins)
    requires SameHeader(s.boundary, r.boundary) && (HotBin(s.normalBins) ==> HotBin(r.normalBins))
    ensures Flow(r)
  {
    hide HotBin, TerminalTarget;
    TargetFrame(s.boundary, r.boundary);
  }

  // ---------------------------------------------------------------------------------------------
  // Handlers that leave the table alone.

  predicate Running(s: Scan) { Flow(s) && !s.cutoffReached }

  lemma QuietFlows(s: Scan, i: Input)
    requires Running(s) && !Ended(s)
    ensures Flows(s, Hold(s, i)) && Flows(s, s)
    ensures forall reason :: Flows(s, Fail(s, reason))
  {
    hide TerminalTarget, HotBin;
  }

  lemma StageFlows(s: Scan, i: Input)
    requires Running(s) && !Ended(s)
    ensures s.requestMa < 3_000 ==> Flows(s, NextStage(s, i))
    ensures Flows(s, FinishNormalProbe(s, i)) && Flows(s, HandleStageTimeout(s, i))
  {
    hide TerminalTarget, HotBin;
  }

  lemma ProbeFlows(s: Scan, i: Input)
    requires Running(s) && !Ended(s) && s.requestMa < 3_000
    ensures Flows(s, BeginThreeAmpProbe(s, i))
  {
    hide TerminalTarget, HotBin, NextStage;
    StageFlows(s, i);
  }

  lemma EquilibriumFlows(s: Scan, i: Input)
    requires Running(s) && s.phase.Sweep?
    ensures Flows(s, BeginEquilibrium(s, i))
  {
    hide AtTerminalTarget, HotBin, FinishNormalProbe;
    StageFlows(s, i);
  }

  lemma RaiseFlows(s: Scan, i: Input)
    requires Running(s) && s.phase.Sweep?
    ensures Flows(s, ProbeNextVoltage(s, i))
  {
    hide TerminalTarget, HotBin, RapidProbeStepMv, BeginEquilibrium;
    EquilibriumFlows(s, i);
  }

  lemma ConfirmationFlows(s: Scan, i: Input)
    requires Running(s) && s.phase.Sweep?
    ensures Flows(s, HandleFlatConfirmation(s, i)) && Flows(s, HandleAmbiguousConfirmation(s, i))
  {
    hide TerminalTarget, HotBin, BeginEquilibrium, ProbeNextVoltage, FlatBoundaryReady;
    RaiseFlows(s.(flatCount := 0), i);
    RaiseFlows(s.(ambiguousCount := 0), i);
    var flat := s.(flatRequestMv := s.requestMv);
    EquilibriumFlows(flat, i);
    EquilibriumFlows(
      if s.lastTracking.None? then flat
      else flat.(lastTracking := Some(s.lastTracking.value.(flatRequestMv := s.requestMv))), i);
  }

  lemma BoundaryFlows(s: Scan, i: Input)
    requires Running(s) && s.mode.Rapid? && (s.phase.Sweep? || s.phase.RapidWarmup?)
    ensures Flows(s, BeginSourceBoundaryRecovery(s, i))
  {
    hide TerminalTarget, HotBin, RecoveryRequestMv;
  }

  lemma BaselineFlows(s: Scan, i: Input)
    requires Running(s) && s.phase.Baseline?
    ensures Flows(s, BaselineStep(s, i))
  {
    hide AtTerminalTarget, HotBin;
  }

  lemma PreflightFlows(s: Scan, i: Input)
    requires Running(s) && s.phase.Preflight?
    ensures Flows(s, PreflightStep(s, i))
  {
    hide AtTerminalTarget, HotBin, PreflightMinVinMv, FirstStage, Flows;
    FirstStageFlows(s, i);
    QuietFlows(s, i);
    FirstReadingFlows(s, i);
  }

  lemma FirstReadingFlows(s: Scan, i: Input)
    requires Running(s) && s.phase.Preflight?
    ensures Flows(s, s.(previous := Some(i), changedAtMs := i.nowMs))
  {
    hide AtTerminalTarget, HotBin;
  }

  lemma FirstStageFlows(s: Scan, i: Input)
    requires Running(s) && s.phase.Preflight?
    ensures Flows(s, FirstStage(s, i))
  {
    hide AtTerminalTarget, HotBin;
  }

  lemma ProbeRecoveryFlows(s: Scan, i: Input)
    requires Running(s) && s.phase.ProbeRecovery?
    ensures Flows(s, ProbeRecoveryStep(s, i))
  {
    hide AtTerminalTarget, HotBin, RecoveryLoadSettled, Flows;
    QuietFlows(s, i);
    var target := Max(s.returnRequestMv, s.boundary.sourceMinMv);
    LowerFlows(s, i, Max(SatSub(s.requestMv, PROBE_RECOVERY_STEP_MV), target));
    ResumeFlows(s, i);
  }

  lemma LowerFlows(s: Scan, i: Input, mv: u16)
    requires Running(s) && s.phase.ProbeRecovery?
    ensures Flows(s, Change(s, i, mv, s.returnCurrentMa))
  {
    hide AtTerminalTarget, HotBin;
  }

  lemma ResumeFlows(s: Scan, i: Input)
    requires Running(s) && s.phase.ProbeRecovery?
    ensures Flows(s, s.(phase := Sweep, changedAtMs := i.nowMs))
  {
    hide AtTerminalTarget, HotBin;
  }

  lemma BoundaryRecoveryFlows(s: Scan, i: Input)
    requires Running(s) && s.phase.SourceBoundaryRecovery?
    ensures Flows(s, SourceBoundaryRecoveryStep(s, i))
  {
    hide AtTerminalTarget, HotBin, RecoveryLoadSettled, SettleMs;
  }

  lemma TerminalFlows(s: Scan, i: Input)
    requires Running(s) && s.phase.RapidWarmup? && s.mode.Rapid? && HotBin(s.normalBins)
    ensures Flows(s, BeginTerminalProbeOrComplete(s, i))
  {
    hide TerminalTarget, HotBin;
  }

  /** A reprobe below the ceiling always raises the request, so it never completes the scan. */
  lemma ReprobeFlows(s: Scan, i: Input)
    requires Running(s) && s.phase.RapidWarmup? && s.mode.Rapid?
    requires HotBin(s.normalBins) || s.requestMv < s.boundary.sourceMaxMv
    ensures Flows(s, BeginRapidVoltageReprobe(s, i))
  {
    hide TerminalTarget, HotBin, RapidProbeStepMv;
  }

  /** The warm-up leaves 3 A or completes only while hot, and its sample has then filled a hot bin. */
  lemma WarmupDecisionFlows(s: Scan, i: Input)
    requires Running(s) && s.phase.RapidWarmup? && s.mode.Rapid?
    requires i.temperatureCentiC >= MIN_BOUNDARY_COVERAGE_CENTI_C ==> HotBin(s.normalBins)
    ensures Flows(s, WarmupDecision(s, i))
  {
    hide TerminalTarget, HotBin, BeginTerminalProbeOrComplete, BeginRapidVoltageReprobe;
    if HotBin(s.normalBins) {
      TerminalFlows(s, i);
      ReprobeFlows(s, i);
    }
    if s.requestMv < s.boundary.sourceMaxMv {
      ReprobeFlows(s, i);
    }
    QuietFlows(s, i);
  }

  // ---------------------------------------------------------------------------------------------
  // Whole phase steps.

  lemma RecordTrackingShaped(s: Scan, i: Input)
    requires Running(s) && RunningTable(s)
    ensures var r := RecordTracking(s, i);
            && r == s.(lastTracking := r.lastTracking, boundary := r.boundary, normalBins := r.normalBins)
            && Running(r) && RunningTable(r)
  {
    hide TableShaped, TerminalTarget, HotBin, RetainNormalTracking;
    RetainNormalTrackingShaped(s.(lastTracking := Some(PointOf(s, i))), i);
  }

  lemma JudgeStepShaped(s: Scan, previous: Input, i: Input)
    requires Running(s) && RunningTable(s) && s.phase.Sweep?
    ensures Shaped(JudgeStep(s, previous, i)) && JudgeStep(s, previous, i).mode == s.mode
  {
    hide TableShaped, HotBin, Flow, RecordTracking, ProbeNextVoltage, HandleFlatConfirmation, RunningTable,
         HandleAmbiguousConfirmation, Classify;
    match Classify(s, previous, i) {
      case Tracking =>
        RecordTrackingShaped(s, i);
        var t := RecordTracking(s, i).(flatCount := 0, ambiguousCount := 0, previous := Some(i));
        SameFlow(RecordTracking(s, i), t);
        RaiseFlows(t, i);
        FlowsKeepsShape(t, ProbeNextVoltage(t, i));
      case Ramp =>
        var t := s.(flatCount := 0, ambiguousCount := 0, previous := Some(i));
        SameFlow(s, t);
        RaiseFlows(t, i);
        FlowsKeepsShape(t, ProbeNextVoltage(t, i));
      case Flat =>
        var t := s.(flatCount := s.flatCount + 1, previous := Some(i));
        SameFlow(s, t);
        RaiseFlows(t, i);
        ConfirmationFlows(t, i);
        FlowsKeepsShape(t, JudgeStep(s, previous, i));
      case Ambiguous =>
        var t := s.(ambiguousCount := SatAdd8(s.ambiguousCount, 1), previous := Some(i), changedAtMs := i.nowMs);
        SameFlow(s, t);
        ConfirmationFlows(t, i);
        FlowsKeepsShape(t, JudgeStep(s, previous, i));
    }
  }

  /** Counters, samples and times do not matter to the flow. */
  lemma SameFlow(s: Scan, t: Scan)
    requires Running(s) && RunningTable(s)
    requires t == s.(flatCount := t.flatCount, ambiguousCount := t.ambiguousCount, previous := t.previous,
                     changedAtMs := t.changedAtMs, stabilityCentiC := t.stabilityCentiC, equilibrium := t.equilibrium)
    ensures Running(t) && RunningTable(t) && Flows(t, t)
  {
    hide TableShaped, TerminalTarget, HotBin;
  }

  lemma SweepStepShaped(s: Scan, i: Input)
    requires Running(s) && RunningTable(s) && s.phase.Sweep?
    ensures Shaped(SweepStep(s, i)) && SweepStep(s, i).mode == s.mode
  {
    hide TableShaped, HotBin, Flow, RecordTracking, ProbeNextVoltage, RunningTable, JudgeStep, VoltageTracksRequest,
         BeginSourceBoundaryRecovery;
    if s.previous.None? {
      RecordTrackingShaped(s, i);
      var t := RecordTracking(s, i).(previous := Some(i));
      SameFlow(RecordTracking(s, i), t);
      RaiseFlows(t, i);
      FlowsKeepsShape(t, ProbeNextVoltage(t, i));
    } else if !RapidDiverts(s, i) {
      JudgeStepShaped(s, s.previous.value, i);
    } else {
      if !VoltageTracksRequest(s, i) {
        BoundaryFlows(s, i);
      } else {
        CeilingFlows(s, i);
      }
      FlowsKeepsShape(s, SweepStep(s, i));
    }
  }

  lemma CeilingFlows(s: Scan, i: Input)
    requires Running(s) && s.phase.Sweep? && s.mode.Rapid?
    ensures Flows(s, s.(phase := RapidWarmup, previous := Some(i), rapidTrackingConfirmations := 0,
                        lastRapidProbeCentiC := None, changedAtMs := i.nowMs))
  {
    hide AtTerminalTarget, HotBin;
  }

  lemma WarmupStepShaped(s: Scan, i: Input)
    requires Running(s) && RunningTable(s) && s.phase.RapidWarmup?
    ensures Shaped(RapidWarmupStep(s, i)) && RapidWarmupStep(s, i).mode == s.mode
  {
    hide TableShaped, HotBin, RunningTable, VoltageTracksRequest, RetainNormalTracking, WarmupDecision,
         BeginSourceBoundaryRecovery, AtTerminalTarget;
    var c := WarmupConfirmation(s, i);
    assert Flow(c) && RunningTable(c) by {
      ConfirmationKeepsTable(s, i);
    }
    if i.confirmed && i.physicalPercent == 100 && WarmupTracks(s, i) {
      RetainNormalTrackingShaped(c, i);
      var kept := RetainNormalTracking(c, i);
      if i.temperatureCentiC >= MIN_BOUNDARY_COVERAGE_CENTI_C && s.requestMa == 3_000 {
        FilledIsHot(kept.normalBins, i);
      }
      WarmupDecisionFlows(kept, i);
      FlowsKeepsShape(kept, WarmupDecision(kept, i));
    } else {
      BoundaryFlows(s, i);
      QuietFlows(s, i);
      QuietFlows(c, i);
      FlowsKeepsShape(s, Hold(s, i));
      FlowsKeepsShape(c, Hold(c, i));
      FlowsKeepsShape(s, BeginSourceBoundaryRecovery(s, i));
    }
  }

  lemma ConfirmationKeepsTable(s: Scan, i: Input)
    requires Flow(s) && RunningTable(s)
    ensures Flow(WarmupConfirmation(s, i)) && RunningTable(WarmupConfirmation(s, i))
  {
    hide TableShaped, TerminalTarget, HotBin;
  }

  lemma FilledIsHot(bins: Bins, i: Input)
    requires bins[BinOf(i.temperatureCentiC)].Some? && i.temperatureCentiC >= MIN_BOUNDARY_COVERAGE_CENTI_C
    ensures HotBin(bins)
  {
    assert BinOf(i.temperatureCentiC) >= 8;
  }

  /** The confirmed terminal point takes a free slot behind the bins. */
  lemma TerminalCompletes(s: Scan, i: Input, t: Scan)
    requires Running(s) && RunningTable(s) && s.phase.TerminalProbe?
    requires t == s.(terminalProbeConfirmations := t.terminalProbeConfirmations)
    ensures var kept := Retain(t.boundary, PointOf(t, i).(flatRequestMv := 0, trackingOnly := true));
            && kept.accepted && Shaped(t.(boundary := kept.boundary, phase := Complete))
  {
    hide TableShaped, HotBin, Retain, Equilibria, TerminalTrackingCurrentMa;
    var p := PointOf(t, i).(flatRequestMv := 0, trackingOnly := true);
    RunningIsRegular(s);
    RetainTerminalShaped(s.boundary, s.normalBins, p);
    RetainHeader(s.boundary, p);
  }

  lemma TerminalStepShaped(s: Scan, i: Input)
    requires Running(s) && RunningTable(s) && s.phase.TerminalProbe?
    ensures Shaped(TerminalProbeStep(s, i)) && TerminalProbeStep(s, i).mode == s.mode
  {
    hide TableShaped, HotBin, RunningTable, VoltageTracksRequest, Retain, TerminalTarget, EndsWithTerminal;
    var t := s.(terminalProbeConfirmations := SatAdd8(s.terminalProbeConfirmations, 1));
    TerminalCompletes(s, i, t);
    assert RunningTable(t) by {
      ConfirmationFrame(s, t);
    }
    QuietFlows(s, i);
    QuietFlows(t, i);
    FlowsKeepsShape(s, Hold(s, i));
    FlowsKeepsShape(t, Hold(t, i));
    FlowsKeepsShape(s, RetreatFromTerminal(s, i));
  }

  lemma ConfirmationFrame(s: Scan, t: Scan)
    requires RunningTable(s) && t == s.(terminalProbeConfirmations := t.terminalProbeConfirmations)
    ensures RunningTable(t)
  {
  }

  lemma EquilibriumStepShaped(s: Scan, i: Input)
    requires Running(s) && RunningTable(s) && s.phase.Equilibrium?
    ensures Shaped(EquilibriumStep(s, i)) && EquilibriumStep(s, i).mode == s.mode
  {
    hide TableShaped, RunningTable, Retain, FinishThreeAmpEquilibrium, BeginThreeAmpProbe, ProbeNextVoltage,
         EquilibriumBand.Observe;
    var seen := EquilibriumBand.Observe(s.equilibrium, i.nowMs, i.temperatureCentiC);
    var t := s.(equilibrium := seen.window);
    SameFlow(s, t);
    if seen.stable {
      StablePointKept(t, i);
      var kept := RetainTracking(t.(lastTracking := Some(PointOf(t, i))));
      if kept.requestMa == 3_000 {
        FinishFlows(kept, i);
      } else {
        ProbeFlows(kept, i);
      }
      FlowsKeepsShape(kept, EquilibriumStep(s, i));
    } else if s.previous.Some? && i.temperatureCentiC - s.previous.value.temperatureCentiC > 100 {
      RaiseFlows(
        t.(phase := Sweep, previous := Some(i), flatCount := 0, flatRequestMv := 0,
           equilibrium := EquilibriumBand.EMPTY_WINDOW), i);
      FlowsKeepsShape(t, EquilibriumStep(s, i));
    } else {
      FlowsKeepsShape(t, t);
    }
  }

  lemma FinishFlows(s: Scan, i: Input)
    requires Running(s) && s.phase.Equilibrium?
    ensures Flows(s, FinishThreeAmpEquilibrium(s, i))
  {
    hide ProbeNextVoltage;
    RaiseFlows(
      s.(phase := Sweep, previous := None, lastTracking := None, flatCount := 0, ambiguousCount := 0,
         flatRequestMv := 0, equilibrium := EquilibriumBand.EMPTY_WINDOW), i);
  }

  /** A stable detailed stage keeps its equilibrium point at a regular current. */
  lemma StablePointKept(s: Scan, i: Input)
    requires Running(s) && RunningTable(s) && s.phase.Equilibrium?
    ensures var kept := RetainTracking(s.(lastTracking := Some(PointOf(s, i))));
            Running(kept) && RunningTable(kept)
  {
    hide TableShaped, Retain, Equilibria, Stored, TerminalTarget;
    var p := PointOf(s, i);
    RunningIsRegular(s);
    RetainHeader(s.boundary, p);
    if !s.normalProbe {
      RetainPlainKeeps(s.boundary, s.normalBins, p);
      RegularStays(Equilibria(Stored(s.boundary)), Equilibria(Stored(Retain(s.boundary, p).boundary)), p);
    }
  }

  lemma RegularStays(s: seq<Point>, t: seq<Point>, p: Point)
    requires AllRegular(s) && RegularCurrent(p.requestCurrentMa) && forall q :: q in t ==> q == p || q in s
    ensures AllRegular(t)
  {
    forall k | 0 <= k < |t|
      ensures RegularCurrent(t[k].requestCurrentMa)
    {
      assert t[k] in t;
    }
  }

  /** The cutoff retains the last tracking point, at whatever current, in a table with room. */
  lemma CutOffShaped(s: Scan)
    requires Running(s) && RunningTable(s)
    ensures Shaped(CutOff(s)) && CutOff(s).mode == s.mode
  {
    hide TableShaped, Retain, Equilibria, TerminalTarget, HotBin;
    var marked := s.(cutoffReached := true, boundary := s.boundary.(cutoffReached := true));
    RunningIsRegular(s);
    MarkedShaped(s.boundary, s.normalBins);
    if s.lastTracking.Some? && !s.normalProbe {
      RetainPlainKeeps(marked.boundary, s.normalBins, s.lastTracking.value);
      RetainHeader(marked.boundary, s.lastTracking.value);
    }
  }

  lemma MarkedShaped(b: Boundary, bins: Bins)
    requires TableShaped(b, bins, [])
    ensures TableShaped(b.(cutoffReached := true), bins, [])
  {
    assert Stored(b.(cutoffReached := true)) == Stored(b);
  }

  // ---------------------------------------------------------------------------------------------
  // The update and whole runs.

  lemma AdvanceShaped(s: Scan, i: Input)
    requires Running(s) && RunningTable(s) && !Ended(s)
    ensures Shaped(Advance(s, i)) && Advance(s, i).mode == s.mode
  {
    hide Flow, RunningTable, BaselineStep, PreflightStep, ProbeRecoveryStep, SourceBoundaryRecoveryStep, SweepStep,
         RapidWarmupStep, TerminalProbeStep, EquilibriumStep;
    QuietFlows(s, i);
    FlowsKeepsShape(s, Hold(s, i));
    match s.phase {
      case Baseline =>
        BaselineFlows(s, i);
        FlowsKeepsShape(s, BaselineStep(s, i));
      case Preflight =>
        PreflightFlows(s, i);
        FlowsKeepsShape(s, PreflightStep(s, i));
      case ProbeRecovery =>
        ProbeRecoveryFlows(s, i);
        FlowsKeepsShape(s, ProbeRecoveryStep(s, i));
      case SourceBoundaryRecovery =>
        BoundaryRecoveryFlows(s, i);
        FlowsKeepsShape(s, SourceBoundaryRecoveryStep(s, i));
      case Sweep => SweepStepShaped(s, i);
      case RapidWarmup => WarmupStepShaped(s, i);
      case TerminalProbe => TerminalStepShaped(s, i);
      case Equilibrium => EquilibriumStepShaped(s, i);
      case _ => NoIdlePhases(s);
    }
  }

  lemma NoIdlePhases(s: Scan)
    requires Flow(s)
    ensures !s.phase.TemperatureSettle? && !s.phase.PreflightRecovery?
  {
  }

  lemma GuardedShaped(t: Scan, i: Input, j: Input)
    requires Running(t) && RunningTable(t) && !Ended(t)
    ensures Shaped(Guarded(t, i, j)) && Guarded(t, i, j).mode == t.mode
  {
    hide Flow, RunningTable, Advance, CutOff, FinishNormalProbe, HandleStageTimeout, BeginThreeAmpProbe,
         ProbeBandClear;
    NoIdlePhases(t);
    QuietFlows(t, i);
    FlowsKeepsShape(t, Fail(t, WifiChanged));
    FlowsKeepsShape(t, Fail(t, InvalidSample));
    FlowsKeepsShape(t, Hold(t, i));
    FlowsKeepsShape(t, t);
    CutOffShaped(t);
    AdvanceShaped(t, j);
    StageFlows(t, i);
    FlowsKeepsShape(t, FinishNormalProbe(t, i));
    FlowsKeepsShape(t, HandleStageTimeout(t, i));
    if t.requestMa < 3_000 {
      ProbeFlows(t, i);
      FlowsKeepsShape(t, BeginThreeAmpProbe(t, i));
    }
  }

  lemma UpdateShaped(s: Scan, i: Input)
    requires Shaped(s)
    ensures Shaped(Update(s, i)) && Update(s, i).mode == s.mode
  {
    hide Guarded, Smooth, TableShaped, HotBin, TerminalTarget;
    if !Ended(s) {
      SameFlow(s, Smoothed(s, i));
      GuardedShaped(Smoothed(s, i), i, SmoothedInput(s, i));
    }
  }

  lemma {:induction false} RunShaped(b: Boundary, mode: Mode, h: seq<Input>)
    requires New(b, mode).Some?
    ensures Shaped(After(New(b, mode).value, h)) && After(New(b, mode).value, h).mode == mode
  {
    hide Shaped, Update;
    NewShaped(b, mode);
    if h != [] {
      RunShaped(b, mode, h[..|h| - 1]);
      UpdateShaped(After(New(b, mode).value, h[..|h| - 1]), h[|h| - 1]);
    }
  }

  /** In every state of every run the stored tracking points are the filled bins in order, followed by
      the terminal point of a completed rapid scan; equilibrium points have distinct currents, and free
      slots are untouched. */
  lemma TableShape(b: Boundary, mode: Mode, h: seq<Input>)
    requires New(b, mode).Some?
    ensures var s := After(New(b, mode).value, h);
            && s.boundary.pointCount <= MAX_BOUNDARY_POINTS
            && DistinctCurrents(Equilibria(Stored(s.boundary)))
            && FreeSlotsDefault(s.boundary)
            && (mode.Rapid? && !Ended(s) ==> Stored(s.boundary) == Filled(s.normalBins))
            && (Tracked(Stored(s.boundary)) == Filled(s.normalBins) ||
                (&& mode.Rapid? && s.phase.Complete? && !s.cutoffReached && s.boundary.pointCount > 0
                 && var last := s.boundary.points[s.boundary.pointCount - 1];
                    && TerminalTracking(s.boundary, last)
                    && Tracked(Stored(s.boundary)) == Filled(s.normalBins) + [last]))
  {
    hide After, Flow, Equilibria, Tracked, TerminalTracking;
    RunShaped(b, mode, h);
    var s := After(New(b, mode).value, h);
    assert Filled(s.normalBins) + [] == Filled(s.normalBins);
    if mode.Rapid? && !Ended(s) {
      OnlyTracked(Stored(s.boundary));
    }
  }

  lemma {:induction false} OnlyTracked(s: seq<Point>)
    requires Equilibria(s) == []
    ensures Tracked(s) == s
  {
    if s != [] {
      var n := |s| - 1;
      OnlyTracked(s[..n]);
      assert s == s[..n] + [s[n]];
    }
  }

  /** While a scan runs its table is never full: whatever single point it retains is accepted. */
  lemma RetainNeverRefused(b: Boundary, mode: Mode, h: seq<Input>, p: Point)
    requires New(b, mode).Some? && !Ended(After(New(b, mode).value, h))
    ensures Retain(After(New(b, mode).value, h).boundary, p).accepted
  {
    hide After, Flow, RunningTable;
    RunShaped(b, mode, h);
    RunningIsRegular(After(New(b, mode).value, h));
  }

  /** The retain call for the `k`-th filled bin of a rebuild succeeds. */
  predicate RebuildAccepts(b: Boundary, bins: Bins, k: nat)
    requires k < |Filled(bins)|
  {
    var kept := Equilibria(Stored(b));
    var compact := b.(points := kept + b.points[|kept|..], pointCount := |kept|);
    Retain(RetainAll(compact, Filled(bins)[..k]), Filled(bins)[k]).accepted
  }

  /** Neither does any retain of the rebuild that a new point of a bin causes meet a full table. */
  lemma RebuildNeverRefused(b: Boundary, mode: Mode, h: seq<Input>, bin: nat, p: Point, k: nat)
    requires New(b, mode).Some? && !Ended(After(New(b, mode).value, h))
    requires bin < BIN_COUNT && p.trackingOnly && p.requestCurrentMa == 3_000
    requires k < |Filled(After(New(b, mode).value, h).normalBins[bin := Some(p)])|
    ensures var s := After(New(b, mode).value, h);
            RebuildAccepts(s.boundary, s.normalBins[bin := Some(p)], k)
  {
    hide After, Flow, RunningTable;
    RunShaped(b, mode, h);
    var s := After(New(b, mode).value, h);
    RunningIsRegular(s);
    RebuildHasRoom(s.boundary, s.normalBins[bin := Some(p)], k);
  }

  lemma RebuildHasRoom(b: Boundary, bins: Bins, k: nat)
    requires AllRegular(Equilibria(Stored(b))) && DistinctCurrents(Equilibria(Stored(b))) && BinsTrack(bins)
    requires k < |Filled(bins)|
    ensures RebuildAccepts(b, bins, k)
  {
    var kept := Equilibria(Stored(b));
    FewEquilibria(kept);
    FilledTrack(bins);
    hide Equilibria, Filled, RetainAll, Retain;
    RetainAllAccepts(b.(points := kept + b.points[|kept|..], pointCount := |kept|), Filled(bins), k);
  }

  /** A rapid run that completes other than by the 220 C cutoff has stored a 3 A tracking point from a
      bin at or above 100 C, whichever way it completed and whatever its header and samples. */
  lemma RapidCoverage(b: Boundary, h: seq<Input>) returns (bin: nat, k: nat)
    requires New(b, Rapid).Some?
    requires After(New(b, Rapid).value, h).phase.Complete? && !After(New(b, Rapid).value, h).cutoffReached
    ensures var s := After(New(b, Rapid).value, h);
            && 8 <= bin < BIN_COUNT && k < s.boundary.pointCount <= MAX_BOUNDARY_POINTS
            && s.normalBins[bin] == Some(s.boundary.points[k])
            && s.boundary.points[k].trackingOnly && s.boundary.points[k].requestCurrentMa == 3_000
  {
    hide After, Equilibria, Tracked, TerminalTracking, AtTerminalTarget, Filled;
    RunShaped(b, Rapid, h);
    var s := After(New(b, Rapid).value, h);
    bin :| 8 <= bin < BIN_COUNT && s.normalBins[bin].Some?;
    FilledHas(s.normalBins, bin);
    k := TrackedMember(Stored(s.boundary), s.normalBins[bin].value);
  }
}
