/** The bounded 3 A probes of a detailed scan: how long they last, how they unload, and how many
    there can be. */
module ScanProbes {
  import opened Arithmetic
  import opened BoundaryData
  import EquilibriumBand
  import opened ScanModel
  import opened ScanTable
  import opened ScanShape
  import opened ScanInvariant
  import opened ScanRuns

  /** What a probe remembers until it ends. */
  predicate ProbeFrame(s: Scan, r: Scan)
  {
    && r.normalProbeStartedMs == s.normalProbeStartedMs
    && r.lastNormalProbeCentiC == s.lastNormalProbeCentiC
    && r.returnRequestMv == s.returnRequestMv
    && r.returnCurrentMa == s.returnCurrentMa
  }

  /** The step carries a probe on, or ends it by unloading at the request it reached. */
  predicate Carries(s: Scan, r: Scan)
  {
    && ProbeFrame(s, r)
    && (r.normalProbe != s.normalProbe ==> s.normalProbe && r.phase.ProbeRecovery? && r.requestMv == s.requestMv)
  }

  lemma RaiseCarries(s: Scan, i: Input)
    requires s.mode.Detailed?
    ensures Carries(s, BeginEquilibrium(s, i)) && Carries(s, ProbeNextVoltage(s, i))
  {
  }

  lemma ConfirmationCarries(s: Scan, i: Input)
    requires s.mode.Detailed?
    ensures Carries(s, HandleFlatConfirmation(s, i)) && Carries(s, HandleAmbiguousConfirmation(s, i))
  {
    hide VoltageResponseMatches, ProbeNextVoltage, BeginEquilibrium;
    var flat := s.(flatRequestMv := s.requestMv);
    RaiseCarries(flat, i);
    if s.lastTracking.Some? {
      RaiseCarries(flat.(lastTracking := Some(s.lastTracking.value.(flatRequestMv := s.requestMv))), i);
    }
  }

  lemma SweepCarries(s: Scan, i: Input)
    requires s.mode.Detailed? && s.phase.Sweep?
    ensures Carries(s, SweepStep(s, i))
  {
    hide ProbeNextVoltage, RetainNormalTracking, JudgeStep;
    RaiseCarries(RecordTracking(s, i).(previous := Some(i)), i);
    if s.previous.Some? {
      JudgeCarries(s, s.previous.value, i);
    }
  }

  lemma JudgeCarries(s: Scan, previous: Input, i: Input)
    requires s.mode.Detailed? && s.phase.Sweep?
    ensures Carries(s, JudgeStep(s, previous, i))
  {
    hide ProbeNextVoltage, RetainNormalTracking, HandleFlatConfirmation, HandleAmbiguousConfirmation, Classify;
    match Classify(s, previous, i) {
      case Tracking =>
        RaiseCarries(RecordTracking(s, i).(flatCount := 0, ambiguousCount := 0, previous := Some(i)), i);
      case Ramp =>
        RaiseCarries(s.(flatCount := 0, ambiguousCount := 0, previous := Some(i)), i);
      case Flat =>
        var counted := s.(flatCount := s.flatCount + 1, previous := Some(i));
        RaiseCarries(counted, i);
        ConfirmationCarries(counted, i);
      case Ambiguous =>
        ConfirmationCarries(
          s.(ambiguousCount := SatAdd8(s.ambiguousCount, 1), previous := Some(i), changedAtMs := i.nowMs), i);
    }
  }

  /** A probe begins: at the present request, which it will return to, at least ten degrees above
      the previous probe. */
  predicate Begins(s: Scan, i: Input, r: Scan)
  {
    && r.normalProbe && r.phase.Sweep? && r.requestMa == 3_000
    && r.normalProbeStartedMs == i.nowMs
    && r.requestMv == r.returnRequestMv == s.requestMv
    && r.lastNormalProbeCentiC.Some?
    && (s.lastNormalProbeCentiC.Some? ==>
          r.lastNormalProbeCentiC.value - s.lastNormalProbeCentiC.value >= 1_000)
  }

  /** How one update treats the probe. */
  predicate ProbeStep(s: Scan, i: Input, r: Scan)
  {
    && (!s.normalProbe && r.normalProbe ==> Begins(s, i, r))
    && (!s.normalProbe && !r.normalProbe ==> r.lastNormalProbeCentiC == s.lastNormalProbeCentiC)
    && (s.normalProbe ==> Carries(s, r))
  }

  lemma BeginThreeAmpProbeStep(s: Scan, i: Input)
    requires !s.normalProbe && s.boundary.sourceMinMv <= s.requestMv
    ensures ProbeStep(s, i, BeginThreeAmpProbe(s, i))
    ensures BeginThreeAmpProbe(s, i).normalProbe ==>
              BeginThreeAmpProbe(s, i).lastNormalProbeCentiC == Some(i.temperatureCentiC)
  {
  }

  lemma EquilibriumProbeStep(s: Scan, i: Input)
    requires !s.normalProbe && s.mode.Detailed? && s.phase.Equilibrium? && s.boundary.sourceMinMv <= s.requestMv
    ensures ProbeStep(s, i, EquilibriumStep(s, i))
    ensures EquilibriumStep(s, i).normalProbe ==>
              EquilibriumStep(s, i).lastNormalProbeCentiC == Some(i.temperatureCentiC)
  {
    hide EquilibriumBand.Observe, RetainTracking, BeginThreeAmpProbe, ProbeNextVoltage;
    var seen := EquilibriumBand.Observe(s.equilibrium, i.nowMs, i.temperatureCentiC);
    var t := s.(equilibrium := seen.window);
    var kept := RetainTracking(t.(lastTracking := Some(PointOf(t, i))));
    RetainHeader(t.boundary, PointOf(t, i));
    if seen.stable {
      if kept.requestMa == 3_000 {
        RaiseCarries(kept.(phase := Sweep, previous := None, lastTracking := None, flatCount := 0, ambiguousCount := 0,
                           flatRequestMv := 0, equilibrium := EquilibriumBand.EMPTY_WINDOW), i);
      } else {
        SameSource(t, PointOf(t, i));
        BeginThreeAmpProbeStep(kept, i);
      }
    } else {
      RaiseCarries(t.(phase := Sweep, previous := Some(i), flatCount := 0, flatRequestMv := 0,
                      equilibrium := EquilibriumBand.EMPTY_WINDOW), i);
    }
  }

  lemma SameSource(s: Scan, p: Point)
    ensures RetainTracking(s.(lastTracking := Some(p))).boundary.sourceMinMv == s.boundary.sourceMinMv
  {
  }

  lemma SweepProbeStep(s: Scan, i: Input)
    requires s.mode.Detailed? && s.phase.Sweep?
    ensures ProbeStep(s, i, SweepStep(s, i)) && (!s.normalProbe ==> !SweepStep(s, i).normalProbe)
  {
    hide SweepStep;
    SweepCarries(s, i);
  }

  lemma UnloadedSteps(s: Scan, i: Input)
    requires !s.normalProbe
    ensures ProbeStep(s, i, BaselineStep(s, i)) && !BaselineStep(s, i).normalProbe
    ensures ProbeStep(s, i, PreflightStep(s, i)) && !PreflightStep(s, i).normalProbe
  {
    hide PreflightMinVinMv, FirstStage;
    FirstStageStep(s, i);
  }

  lemma FirstStageStep(s: Scan, i: Input)
    requires !s.normalProbe
    ensures ProbeStep(s, i, FirstStage(s, i)) && !FirstStage(s, i).normalProbe
  {
  }

  lemma RecoveringSteps(s: Scan, i: Input)
    requires !s.normalProbe
    ensures ProbeStep(s, i, ProbeRecoveryStep(s, i)) && !ProbeRecoveryStep(s, i).normalProbe
  {
    hide RecoveryLoadSettled;
  }

  lemma AdvanceProbeStep(s: Scan, i: Input)
    requires Control(s, UNESCAPED) && s.mode.Detailed? && !Ended(s)
    ensures ProbeStep(s, i, Advance(s, i))
    ensures !s.normalProbe && Advance(s, i).normalProbe ==>
              Advance(s, i).lastNormalProbeCentiC == Some(i.temperatureCentiC)
  {
    hide SweepStep, EquilibriumStep, RapidWarmupStep, TerminalProbeStep, SourceBoundaryRecoveryStep, BaselineStep,
         PreflightStep, ProbeRecoveryStep, PreflightMinVinMv, TerminalTarget, ObservedPoint, ProbeStep,
         EquilibriumBand.Observe;
    QuietSteps(s, i);
    if !s.normalProbe {
      UnloadedSteps(s, i);
      RecoveringSteps(s, i);
    }
    if s.phase.Sweep? {
      SweepProbeStep(s, i);
    } else if s.phase.Equilibrium? {
      EquilibriumProbeStep(s, i);
    }
  }

  lemma ControlBounds(s: Scan)
    requires Control(s, UNESCAPED) && s.mode.Detailed?
    ensures s.boundary.sourceMinMv <= s.requestMv && (s.normalProbe ==> s.phase.Sweep? || Ended(s))
    ensures s.normalProbe && s.phase.Sweep? ==> s.requestMa == 3_000
  {
    hide TerminalTarget, ObservedPoint;
  }

  lemma SmoothedControl(s: Scan, i: Input)
    requires Control(s, UNESCAPED)
    ensures Control(Smoothed(s, i), UNESCAPED)
  {
    hide TerminalTarget, ObservedPoint, Smooth;
  }

  lemma QuietSteps(s: Scan, i: Input)
    ensures s.normalProbe ==> ProbeStep(s, i, FinishNormalProbe(s, i)) && !FinishNormalProbe(s, i).normalProbe
    ensures s.normalProbe && s.requestMa >= 3_000 ==> Ended(HandleStageTimeout(s, i))
    ensures !s.normalProbe ==> ProbeStep(s, i, HandleStageTimeout(s, i)) && !HandleStageTimeout(s, i).normalProbe
    ensures ProbeStep(s, i, Hold(s, i)) && ProbeStep(s, i, s)
  {
  }

  /** Only the bookkeeping of the probe matters to a probe step, not the filter. */
  lemma SameProbeStep(s: Scan, i: Input, r: Scan)
    requires ProbeStep(Smoothed(s, i), i, r)
    ensures ProbeStep(s, i, r)
  {
    hide Smooth;
  }

  /** The probe step of the update, on the smoothed state. */
  lemma GuardedProbeStep(s: Scan, i: Input)
    requires Control(s, UNESCAPED) && s.mode.Detailed? && !Ended(s) && !Ended(Update(s, i))
    ensures ProbeStep(Smoothed(s, i), i, Update(s, i))
    ensures i.temperatureCentiC < 22_000
    ensures s.normalProbe && Update(s, i).normalProbe ==> !ProbeTimedOut(s, i)
    ensures var r := Update(s, i);
            !s.normalProbe && r.normalProbe ==>
              || r.lastNormalProbeCentiC == Some(i.temperatureCentiC)
              || r.lastNormalProbeCentiC == Some(SmoothedInput(s, i).temperatureCentiC)
  {
    hide Control, Advance, CutOff, BeginThreeAmpProbe, FinishNormalProbe, HandleStageTimeout, Smooth, ProbeStep,
         CoverageProbeDue, StageTimedOut;
    var t := Smoothed(s, i);
    var j := SmoothedInput(s, i);
    SmoothedControl(s, i);
    ControlBounds(t);
    QuietSteps(t, i);
    if !t.normalProbe {
      BeginThreeAmpProbeStep(t, i);
    } else {
      NoCoverageProbe(t, i);
    }
    AdvanceProbeStep(t, j);
    SameTimeProbeStep(t, i, j);
  }

  lemma NoCoverageProbe(s: Scan, i: Input)
    requires s.normalProbe
    ensures !CoverageProbeDue(s, i)
  {
  }

  lemma SameTimeProbeStep(s: Scan, i: Input, j: Input)
    requires j.nowMs == i.nowMs && ProbeStep(s, j, Advance(s, j))
    ensures ProbeStep(s, i, Advance(s, j))
  {
    hide Advance;
  }

  /** One update of a running detailed scan: a probe begins, is carried on, or ends unloaded; a live
      one began less than ten seconds ago. */
  lemma UpdateProbeStep(s: Scan, i: Input)
    requires Control(s, UNESCAPED) && s.mode.Detailed? && !Ended(s) && !Ended(Update(s, i))
    ensures ProbeStep(s, i, Update(s, i))
    ensures Update(s, i).normalProbe ==> i.nowMs - Update(s, i).normalProbeStartedMs < 10_000
  {
    hide Control, Update, Ended, Smooth;
    GuardedProbeStep(s, i);
    SameProbeStep(s, i, Update(s, i));
  }

  // ---------------------------------------------------------------------------------------------
  // Unloading.

  /** A recovery step: the request falls by at most 500 mV with the heater off, or the heater comes
      back at or below the voltage the probe started from, or the scan ends. */
  predicate Unloads(s: Scan, r: Scan)
  {
    || (r.phase.ProbeRecovery? && r.returnRequestMv == s.returnRequestMv &&
        r.requestMv <= s.requestMv <= r.requestMv + 500)
    || (r.phase.Sweep? && r.requestMv <= s.returnRequestMv)
    || (Ended(r) && r.requestMv == s.requestMv)
  }

  lemma TimeoutUnloads(s: Scan, i: Input)
    requires Control(s, UNESCAPED) && s.mode.Detailed? && s.phase.ProbeRecovery?
    ensures Unloads(s, HandleStageTimeout(s, i))
  {
    hide TerminalTarget, ObservedPoint;
  }

  lemma RecoveryStepUnloads(s: Scan, i: Input)
    requires Control(s, UNESCAPED) && s.mode.Detailed? && s.phase.ProbeRecovery?
    ensures Unloads(s, ProbeRecoveryStep(s, i))
  {
    hide TerminalTarget, ObservedPoint, RecoveryLoadSettled;
  }

  lemma AdvanceRecovers(s: Scan, i: Input)
    requires s.phase.ProbeRecovery?
    ensures Advance(s, i) == ProbeRecoveryStep(s, i)
  {
    hide ProbeRecoveryStep, SweepStep, EquilibriumStep, RapidWarmupStep, TerminalProbeStep, SourceBoundaryRecoveryStep,
         BaselineStep, PreflightStep;
  }

  /** Smoothing, failing, waiting and the cutoff leave the request of a recovery alone. */
  lemma QuietUnloads(s: Scan, t: Scan, i: Input, r: Scan)
    requires s.phase.ProbeRecovery? && t == s.(stabilityCentiC := t.stabilityCentiC)
    ensures Unloads(s, Fail(t, WifiChanged)) && Unloads(s, Fail(t, InvalidSample)) && Unloads(s, CutOff(t))
    ensures Unloads(s, Hold(t, i)) && Unloads(s, t)
    ensures Unloads(t, r) ==> Unloads(s, r)
  {
    hide CutOff;
  }

  lemma RecoveryUnloads(s: Scan, i: Input)
    requires Control(s, UNESCAPED) && s.mode.Detailed? && s.phase.ProbeRecovery?
    ensures Unloads(s, Update(s, i))
  {
    hide CutOff, Smooth, Control, HandleStageTimeout, ProbeRecoveryStep, FinishNormalProbe, BeginThreeAmpProbe, Advance,
         Unloads, Fail, Hold, StageTimedOut, BadReading;
    var t := Smoothed(s, i);
    var j := SmoothedInput(s, i);
    AdvanceRecovers(t, j);
    SmoothedControl(s, i);
    ControlBounds(t);
    TimeoutUnloads(t, i);
    RecoveryStepUnloads(t, j);
    QuietUnloads(s, t, i, HandleStageTimeout(t, i));
    QuietUnloads(s, t, i, ProbeRecoveryStep(t, j));
  }

  /** The heater is off and the request confirmed and settled. */
  predicate SettledUnloaded(s: Scan, i: Input)
  {
    i.confirmed && i.physicalPercent == 0 && SatSub(i.nowMs, s.changedAtMs) >= SettleMs(s)
  }

  /** Full steps that the request is above the return voltage, rounded up. */
  function StepsToReturn(s: Scan): nat
  {
    DivCeil(SatSub(s.requestMv, s.returnRequestMv), 500)
  }

  lemma StepLowers(s: Scan, i: Input)
    requires Control(s, UNESCAPED) && s.mode.Detailed? && s.phase.ProbeRecovery? && RecoveryLoadSettled(s, i)
    ensures var r := ProbeRecoveryStep(s, i);
            r.phase.Sweep? || (r.phase.ProbeRecovery? && StepsToReturn(r) == StepsToReturn(s) - 1)
  {
    hide AtTerminalTarget, ObservedPoint;
  }

  /** A settled, unloaded sample always makes progress: the recovery ends, or is one step shorter. */
  lemma RecoveryProgress(s: Scan, i: Input)
    requires Control(s, UNESCAPED) && s.mode.Detailed? && s.phase.ProbeRecovery? && SettledUnloaded(s, i)
    ensures var r := Update(s, i);
            r.phase.Sweep? || Ended(r) || (r.phase.ProbeRecovery? && StepsToReturn(r) == StepsToReturn(s) - 1)
  {
    hide CutOff, Smooth, Control, ProbeRecoveryStep, FinishNormalProbe, BeginThreeAmpProbe, Advance, BadReading,
         NextStage, StepsToReturn;
    var t, j := Smoothed(s, i), SmoothedInput(s, i);
    AdvanceRecovers(t, j);
    SmoothedControl(s, i);
    ControlBounds(t);
    StepLowers(t, j);
    SameDistance(s, t);
    NextStageSweeps(t, i);
  }

  lemma NextStageSweeps(s: Scan, i: Input)
    ensures NextStage(s, i).phase.Sweep?
  {
  }

  lemma SameDistance(s: Scan, t: Scan)
    requires t.requestMv == s.requestMv && t.returnRequestMv == s.returnRequestMv
    ensures StepsToReturn(t) == StepsToReturn(s)
  {
  }

  lemma LowerIsNearer(s: Scan, r: Scan)
    requires r.requestMv <= s.requestMv && r.returnRequestMv == s.returnRequestMv
    ensures StepsToReturn(r) <= StepsToReturn(s)
  {
  }

  /** The state of a detailed run after its first `k` samples. */
  function At(b: Boundary, h: seq<Input>, k: nat): Scan
    requires New(b, Detailed).Some? && k <= |h|
  {
    After(Start(b, Detailed), h[..k])
  }

  lemma AtStep(b: Boundary, h: seq<Input>, k: nat)
    requires New(b, Detailed).Some? && k < |h|
    ensures At(b, h, k + 1) == Update(At(b, h, k), h[k])
    ensures Control(At(b, h, k), UNESCAPED) && At(b, h, k).mode == Detailed
  {
    hide Control, Table, Update, New;
    assert h[..k + 1][..k] == h[..k];
    DetailedKeeps(b, h[..k]);
  }

  /** How many of the samples from `start` to `n` are settled and unloaded. */
  function SettledCount(b: Boundary, h: seq<Input>, start: nat, n: nat): nat
    requires New(b, Detailed).Some? && start <= n <= |h|
    decreases n
  {
    if n == start then 0
    else SettledCount(b, h, start, n - 1) + (if SettledUnloaded(At(b, h, n - 1), h[n - 1]) then 1 else 0)
  }

  /** While a recovery lasts, the settled samples so far and the steps still to go are bounded by the
      steps at its start. */
  lemma {:induction false} RecoveryMeasure(b: Boundary, h: seq<Input>, start: nat, n: nat)
    requires New(b, Detailed).Some? && start <= n <= |h|
    requires forall j :: start <= j <= n ==> At(b, h, j).phase.ProbeRecovery?
    ensures SettledCount(b, h, start, n) + StepsToReturn(At(b, h, n)) <= StepsToReturn(At(b, h, start))
    decreases n
  {
    hide Control, Update, New, At, StepsToReturn, SettledUnloaded;
    if n > start {
      RecoveryMeasure(b, h, start, n - 1);
      AtStep(b, h, n - 1);
      var s := At(b, h, n - 1);
      if SettledUnloaded(s, h[n - 1]) {
        RecoveryProgress(s, h[n - 1]);
      } else {
        RecoveryUnloads(s, h[n - 1]);
        LowerIsNearer(s, At(b, h, n));
      }
    }
  }

  /** After one settled, unloaded sample per 500 mV step and one more, the sweep has resumed or the
      scan has ended. */
  lemma RecoveryEnds(b: Boundary, h: seq<Input>, start: nat, n: nat) returns (j: nat)
    requires New(b, Detailed).Some? && start <= n <= |h| && At(b, h, start).phase.ProbeRecovery?
    requires SettledCount(b, h, start, n) >= StepsToReturn(At(b, h, start)) + 1
    ensures start < j <= n && (At(b, h, j).phase.Sweep? || Ended(At(b, h, j)))
    ensures forall m :: start <= m < j ==> At(b, h, m).phase.ProbeRecovery?
  {
    hide Control, Update, New, At, StepsToReturn, SettledCount;
    j := start;
    while j <= n && At(b, h, j).phase.ProbeRecovery?
      invariant start <= j <= n + 1
      invariant forall m :: start <= m < j ==> At(b, h, m).phase.ProbeRecovery?
    {
      j := j + 1;
    }
    if j == n + 1 {
      RecoveryMeasure(b, h, start, n);
      assert false;
    }
    AtStep(b, h, j - 1);
    RecoveryUnloads(At(b, h, j - 1), h[j - 1]);
  }

  predicate Live(s: Scan)
  {
    s.normalProbe && s.phase.Sweep?
  }

  /** A probe that is live after an update began less than ten seconds before it. */
  lemma LiveProbeIsBrief(b: Boundary, h: seq<Input>, k: nat)
    requires New(b, Detailed).Some? && k < |h| && Live(At(b, h, k + 1))
    ensures h[k].nowMs - At(b, h, k + 1).normalProbeStartedMs < 10_000
  {
    hide Control, Update, New, At;
    AtStep(b, h, k);
    StillRunning(At(b, h, k), h[k]);
    UpdateProbeStep(At(b, h, k), h[k]);
  }

  lemma StillRunning(s: Scan, i: Input)
    requires !Ended(Update(s, i))
    ensures !Ended(s)
  {
  }

  /** From the update that begins a probe to the one that ends it, the probe remembers the voltage
      it started from. */
  lemma {:induction false} ProbeRemembersStart(b: Boundary, h: seq<Input>, start: nat, k: nat)
    requires New(b, Detailed).Some? && start < k <= |h|
    requires !At(b, h, start).normalProbe
    requires forall j :: start < j <= k ==> Live(At(b, h, j))
    ensures At(b, h, k).returnRequestMv == At(b, h, start + 1).requestMv
  {
    hide Control, Update, New, At;
    AtStep(b, h, k - 1);
    StillRunning(At(b, h, k - 1), h[k - 1]);
    UpdateProbeStep(At(b, h, k - 1), h[k - 1]);
    if k > start + 1 {
      ProbeRemembersStart(b, h, start, k - 1);
    }
  }

  /** The window of a run in which one probe begins, is live, ends, and the heater has not come back. */
  predicate ProbeThenUnload(b: Boundary, h: seq<Input>, start: nat, end: nat, n: nat)
    requires New(b, Detailed).Some?
  {
    && start + 1 < end <= n <= |h|
    && !At(b, h, start).normalProbe
    && (forall j :: start < j < end ==> Live(At(b, h, j)))
    && !Live(At(b, h, end))
    && (forall j :: end < j < n ==> !HeaterOn(At(b, h, j)))
  }

  /** While it is unloaded, the scan is recovering towards the start voltage or has ended. */
  predicate Recovering(s: Scan, startMv: u16)
  {
    Ended(s) || (s.phase.ProbeRecovery? && s.returnRequestMv == startMv)
  }

  lemma EndsUnloaded(b: Boundary, h: seq<Input>, start: nat, end: nat)
    requires New(b, Detailed).Some? && start + 1 < end <= |h|
    requires ProbeThenUnload(b, h, start, end, end)
    ensures Recovering(At(b, h, end), At(b, h, start + 1).requestMv) && !HeaterOn(At(b, h, end))
    ensures At(b, h, end).requestMv == At(b, h, end - 1).requestMv || Ended(At(b, h, end))
  {
    hide Control, Update, New, At;
    var s := At(b, h, end - 1);
    AtStep(b, h, end - 1);
    ProbeRemembersStart(b, h, start, end - 1);
    if !Ended(At(b, h, end)) {
      UpdateProbeStep(s, h[end - 1]);
      AtControl(b, h, end);
      ControlBounds(At(b, h, end));
    }
  }

  lemma AtControl(b: Boundary, h: seq<Input>, k: nat)
    requires New(b, Detailed).Some? && k <= |h|
    ensures Control(At(b, h, k), UNESCAPED) && At(b, h, k).mode == Detailed
  {
    hide Control, Table, New;
    DetailedKeeps(b, h[..k]);
  }

  /** The update that ends a 3 A probe turns the heater off at the request reached or ends the scan. From
      then on the request falls in steps of at most 500 mV and never rises while the heater is off, and
      the heater comes back no higher than the voltage the probe started from. */
  lemma {:induction false} UnloadsToStart(b: Boundary, h: seq<Input>, start: nat, end: nat, n: nat)
    requires New(b, Detailed).Some? && end < n <= |h| && start + 1 < end
    requires ProbeThenUnload(b, h, start, end, n)
    ensures var p, s := At(b, h, n - 1), At(b, h, n);
            && Recovering(p, At(b, h, start + 1).requestMv)
            && s.requestMv <= p.requestMv
            && (!HeaterOn(s) ==> p.requestMv <= s.requestMv + 500)
            && (HeaterOn(s) ==> s.requestMv <= At(b, h, start + 1).requestMv)
    ensures !HeaterOn(At(b, h, end))
    ensures At(b, h, end).requestMv == At(b, h, end - 1).requestMv || Ended(At(b, h, end))
  {
    hide Control, Update, New, At;
    EndsUnloaded(b, h, start, end);
    if n - 1 > end {
      UnloadsToStart(b, h, start, end, n - 1);
      AtStep(b, h, n - 2);
      RecoverOn(At(b, h, n - 2), h[n - 2]);
    }
    AtStep(b, h, n - 1);
    RecoverOn(At(b, h, n - 1), h[n - 1]);
    AtControl(b, h, n);
    if At(b, h, n - 1).phase.ProbeRecovery? {
      ControlReturn(At(b, h, n - 1));
    }
  }

  lemma ControlReturn(s: Scan)
    requires Control(s, UNESCAPED) && s.phase.ProbeRecovery?
    ensures s.returnRequestMv <= s.requestMv
  {
  }

  lemma RecoverOn(s: Scan, i: Input)
    requires Control(s, UNESCAPED) && s.mode.Detailed? && (Ended(s) || s.phase.ProbeRecovery?)
    ensures Ended(s) ==> Update(s, i) == s
    ensures s.phase.ProbeRecovery? ==> Unloads(s, Update(s, i))
  {
    hide Control;
    if s.phase.ProbeRecovery? {
      RecoveryUnloads(s, i);
    }
  }

  // ---------------------------------------------------------------------------------------------
  // How many probes a run can hold.

  /** The truncating filter step lands between the previous value and the reading. */
  lemma SmoothBetween(previous: int, raw: i16)
    ensures Min(previous, raw) <= Smooth(Some(previous), raw) <= Max(previous, raw)
  {
  }

  /** The filtered temperature always lies between the least and the greatest raw reading so far. */
  lemma {:induction false} FilterWithinReadings(s: Scan, h: seq<Input>, lo: i16, hi: i16)
    requires s.stabilityCentiC.None? && !Ended(After(s, h)) && h != []
    requires forall k :: 0 <= k < |h| ==> lo <= h[k].temperatureCentiC <= hi
    ensures After(s, h).stabilityCentiC.Some? && lo <= After(s, h).stabilityCentiC.value <= hi
  {
    hide Update, Ended, Smooth;
    var n := |h| - 1;
    var before := After(s, h[..n]);
    StillRunning(before, h[n]);
    if n > 0 {
      FilterWithinReadings(s, h[..n], lo, hi);
      SmoothBetween(before.stabilityCentiC.value, h[n].temperatureCentiC);
    } else {
      FirstSmooth(h[n].temperatureCentiC);
    }
  }

  lemma FirstSmooth(raw: i16)
    ensures Smooth(None, raw) == raw
  {
  }

  /** The temperatures at which the probes of the first `k` updates started. */
  function ProbeStarts(b: Boundary, h: seq<Input>, k: nat): seq<Option<i16>>
    requires New(b, Detailed).Some? && k <= |h|
  {
    if k == 0 then []
    else
      var s, r := At(b, h, k - 1), At(b, h, k);
      ProbeStarts(b, h, k - 1) + (if !s.normalProbe && Live(r) then [r.lastNormalProbeCentiC] else [])
  }

  /** Every probe has recorded where it started, ten degrees above the one before. */
  predicate Spaced(starts: seq<Option<i16>>)
  {
    && (forall k :: 0 <= k < |starts| ==> starts[k].Some?)
    && (forall k :: 0 < k < |starts| ==>
          starts[k].value as int - starts[k - 1].value as int >= 1_000)
  }

  predicate StartsSound(starts: seq<Option<i16>>)
  {
    Spaced(starts) && forall k :: 0 <= k < |starts| ==> starts[k].value < 22_000
  }

  /** The scan remembers the last of the starts. */
  predicate RemembersLast(s: Scan, starts: seq<Option<i16>>)
  {
    s.lastNormalProbeCentiC == if starts == [] then None else starts[|starts| - 1]
  }

  lemma StartsExtend(s: Scan, i: Input, r: Scan, starts: seq<Option<i16>>)
    requires StartsSound(starts) && RemembersLast(s, starts) && ProbeStep(s, i, r) && Control(r, UNESCAPED)
    requires !s.normalProbe && r.normalProbe ==>
               r.lastNormalProbeCentiC.Some? && r.lastNormalProbeCentiC.value < 22_000
    requires !Ended(r) && r.mode.Detailed?
    ensures var more := starts + (if !s.normalProbe && Live(r) then [r.lastNormalProbeCentiC] else []);
            StartsSound(more) && RemembersLast(r, more)
  {
    hide Control, Ended;
    EndedPhases();
    ControlBounds(r);
  }

  lemma EndedPhases()
    ensures forall s: Scan {:trigger Ended(s)} :: Ended(s) <==> s.phase.Complete? || s.phase.Failed?
  {
  }

  lemma AllBelowCutoff(b: Boundary, h: seq<Input>, k: nat)
    requires New(b, Detailed).Some? && k <= |h| && !Ended(At(b, h, k))
    ensures forall j :: 0 <= j < k ==> h[j].temperatureCentiC < 22_000
  {
    hide Control, Update, New, At, Ended;
    if k > 0 {
      AtStep(b, h, k - 1);
      StillRunning(At(b, h, k - 1), h[k - 1]);
      GuardedProbeStep(At(b, h, k - 1), h[k - 1]);
      AllBelowCutoff(b, h, k - 1);
    }
  }

  /** The filtered temperature that the next settled sample is judged by stays below the cutoff. */
  lemma SmoothedBelowCutoff(b: Boundary, h: seq<Input>, k: nat)
    requires New(b, Detailed).Some? && k < |h| && !Ended(At(b, h, k + 1))
    ensures SmoothedInput(At(b, h, k), h[k]).temperatureCentiC < 22_000
  {
    hide Update, New, Ended, Smooth;
    AllBelowCutoff(b, h, k + 1);
    AtStep(b, h, k);
    StillRunning(At(b, h, k), h[k]);
    NewUnfiltered(b);
    FilterWithinReadings(Start(b, Detailed), h[..k + 1], -0x8000, 22_000 - 1);
  }

  lemma NewUnfiltered(b: Boundary)
    requires New(b, Detailed).Some?
    ensures Start(b, Detailed).stabilityCentiC.None? && Start(b, Detailed).lastNormalProbeCentiC.None?
  {
  }

  lemma {:induction false} StartsKept(b: Boundary, h: seq<Input>, k: nat)
    requires New(b, Detailed).Some? && k <= |h|
    ensures StartsSound(ProbeStarts(b, h, k))
    ensures RemembersLast(At(b, h, k), ProbeStarts(b, h, k)) || Ended(At(b, h, k))
  {
    hide Control, Update, New, StartsSound, ProbeStep;
    if k == 0 {
      assert h[..0] == [];
      NewUnfiltered(b);
      NoStarts();
    } else {
      StartsKept(b, h, k - 1);
      AtStep(b, h, k - 1);
      AtControl(b, h, k);
      var s, r := At(b, h, k - 1), At(b, h, k);
      if !Ended(r) {
        StillRunning(s, h[k - 1]);
        UpdateProbeStep(s, h[k - 1]);
        GuardedProbeStep(s, h[k - 1]);
        SmoothedBelowCutoff(b, h, k - 1);
        BeginsRecorded(s, h[k - 1], r);
        StartsExtend(s, h[k - 1], r, ProbeStarts(b, h, k - 1));
      } else {
        assert ProbeStarts(b, h, k - 1) + [] == ProbeStarts(b, h, k - 1);
      }
    }
  }

  lemma NoStarts()
    ensures StartsSound([])
  {
  }

  lemma BeginsRecorded(s: Scan, i: Input, r: Scan)
    requires ProbeStep(s, i, r)
    ensures !s.normalProbe && r.normalProbe ==> r.lastNormalProbeCentiC.Some?
  {
  }

  lemma {:induction false} SpacedReach(starts: seq<Option<i16>>, k: nat)
    requires Spaced(starts) && k < |starts|
    ensures starts[k].value >= starts[0].value + 1_000 * k
  {
    if k > 0 {
      SpacedReach(starts, k - 1);
    }
  }

  /** Successive 3 A probes start at least ten degrees apart and rising, so a run holds at most 55. */
  lemma AtMost55Probes(b: Boundary, h: seq<Input>)
    requires New(b, Detailed).Some?
    ensures Spaced(ProbeStarts(b, h, |h|)) && |ProbeStarts(b, h, |h|)| <= 55
  {
    hide ProbeStarts, At, New;
    StartsKept(b, h, |h|);
    var starts := ProbeStarts(b, h, |h|);
    if starts != [] {
      SpacedReach(starts, |starts| - 1);
    }
  }
}
