/** The one way out of the rapid scan's envelope: a terminal probe that times out below 2.9 A. It is
    reachable, and what the scan then stores may be invalid; confirmed in time, the same scan completes
    within the envelope. */
module ScanEscape {
  import opened Arithmetic
  import opened BoundaryData
  import opened ScanModel
  import opened ScanTable
  import opened ScanShape
  import opened ScanInvariant
  import opened ScanRuns

  /** A stage below 3 A that is settled and too cold for a 3 A probe. */
  predicate ColdStage(s: Scan)
  {
    && s.phase.Sweep? && s.previous.None? && !s.normalProbe && s.requestMa < 3_000
  }

  /** A usable reading under the calibrated WiFi state. */
  predicate Clean(s: Scan, i: Input) { i.wifiStarted == s.boundary.wifiStarted && !BadReading(i) }

  /** A settled, loaded sample below 60 C that arrives in time. */
  predicate ColdSample(s: Scan, i: Input)
  {
    && Clean(s, i) && i.temperatureCentiC < THREE_AMP_COVERAGE_START_CENTI_C && i.confirmed && i.physicalPercent == 100
    && !StageTimedOut(s, i) && SatSub(i.nowMs, s.changedAtMs) >= SettleMs(s)
  }

  lemma EscapeEntersColdStage(s: Scan, i: Input)
    requires TerminalEscape(s, i) && !s.normalProbe
    ensures var r := Update(s, i);
            && ColdStage(r) && r.requestMa == NextStageMa(s.requestMa) && r.mode == s.mode
            && r.boundary == s.boundary && r.changedAtMs == i.nowMs && r.stageStartedMs == i.nowMs
  {
    hide Smooth, Advance, CutOff, FinishNormalProbe, BeginThreeAmpProbe, CoverageProbeDue;
  }

  lemma ColdSampleTracks(s: Scan, i: Input)
    requires ColdStage(s) && ColdSample(s, i) && s.mode.Rapid?
    ensures var r := Update(s, i);
            && r.lastTracking.Some? && r.lastTracking.value.requestCurrentMa == s.requestMa
            && !r.lastTracking.value.trackingOnly
            && !r.normalProbe && !Ended(r) && r.boundary == s.boundary
  {
    hide Smooth, Advance, CutOff, FinishNormalProbe, BeginThreeAmpProbe, HandleStageTimeout;
    var t, j := Smoothed(s, i), SmoothedInput(s, i);
    assert Update(s, i) == Advance(t, j);
    ColdStageAdvances(t, j);
  }

  lemma ColdStageAdvances(s: Scan, i: Input)
    requires ColdStage(s) && s.mode.Rapid? && i.physicalPercent == 100
    ensures var r := Advance(s, i);
            && r.lastTracking == Some(PointOf(s, i)) && !r.normalProbe && !Ended(r) && r.boundary == s.boundary
  {
    hide RapidProbeStepMv, JudgeStep, RapidDiverts;
  }

  lemma CutOffStores(s: Scan, i: Input)
    requires !Ended(s) && Clean(s, i) && i.temperatureCentiC >= 22_000
    requires s.lastTracking.Some? && !s.normalProbe && s.boundary.pointCount < MAX_BOUNDARY_POINTS
    ensures var r := Update(s, i);
            && r.phase.Complete? && 1 <= r.boundary.pointCount <= MAX_BOUNDARY_POINTS
            && s.lastTracking.value in Stored(r.boundary)
  {
    hide Smooth, Advance, Retain, FinishNormalProbe, BeginThreeAmpProbe, HandleStageTimeout, Stored;
    RetainStores(s.boundary.(cutoffReached := true), s.lastTracking.value);
    RetainHeader(s.boundary.(cutoffReached := true), s.lastTracking.value);
  }

  lemma IrregularIsInvalid(b: Boundary, p: Point)
    requires p in Stored(b) && !p.trackingOnly && !RegularCurrent(p.requestCurrentMa)
    ensures !IsValid(b)
  {
    hide TerminalTrackingCurrentMa;
    var k :| 0 <= k < |Stored(b)| && Stored(b)[k] == p;
    assert !PointValid(b, b.points[k]);
  }

  /** After the escape one cold sample and the 220 C cutoff complete the scan with a boundary that is
      not valid, whenever the skipped-to current is not a regular stage current. */
  lemma EscapeStoresInvalid(s: Scan, i: Input, j: Input, k: Input)
    requires Inv(s, UNESCAPED) && TerminalEscape(s, i) && !RegularCurrent(NextStageMa(s.requestMa))
    requires ColdSample(Update(s, i), j)
    requires Clean(s, k) && k.temperatureCentiC >= 22_000
    ensures var r := Update(Update(Update(s, i), j), k);
            r.phase.Complete? && r.boundary.pointCount >= 1 && !IsValid(r.boundary)
  {
    hide Update, TerminalEscape, NextStageMa, IsValid, Stored, Clean;
    assert !s.normalProbe && s.mode.Rapid? && s.boundary.pointCount < MAX_BOUNDARY_POINTS by {
      RoomInProbe(s, i);
    }
    var t := Update(s, i);
    EscapeEntersColdStage(s, i);
    var u := Update(t, j);
    ColdSampleTracks(t, j);
    assert Clean(u, k) by {
      CleanFrame(s, u, k);
    }
    CutOffStores(u, k);
    IrregularIsInvalid(Update(u, k).boundary, u.lastTracking.value);
  }

  lemma CleanFrame(s: Scan, t: Scan, i: Input)
    requires Clean(s, i) && t.boundary == s.boundary
    ensures Clean(t, i)
  {
  }

  lemma RoomInProbe(s: Scan, i: Input)
    requires Inv(s, UNESCAPED) && TerminalEscape(s, i)
    ensures !s.normalProbe && s.mode.Rapid? && s.boundary.pointCount < MAX_BOUNDARY_POINTS
  {
    hide TerminalTarget;
    TableHasRoom(s.boundary, s.normalBins, UNESCAPED);
  }

  // ---------------------------------------------------------------------------------------------
  // A run that gets there: a 60 W source with a narrow 3 A range and a 21 V ceiling.

  function NoPoints(): Slots { seq(MAX_BOUNDARY_POINTS, _ => DEFAULT_POINT) }

  function Source(): (b: Boundary)
    ensures WellFormedHeader(b) && New(b, Rapid).Some?
  {
    Boundary(AdcMetadata(3_300, 0, 0, 0, 0, 0), false, false, 19_900, 20_000, 3_000, 60_000, 5_000, 21_000, 0,
             NoPoints())
  }

  function Sample(nowMs: u32, centiC: i16, percent: u8): Input
  {
    Input(nowMs, centiC, false, true, percent, 1_000, 1_000, 1_000, 2_000)
  }

  const RUN: seq<Input> := [
    Sample(500, 10_500, 0), Sample(1_000, 10_500, 0), Sample(1_500, 10_500, 0), Sample(2_000, 10_500, 100),
    Sample(2_500, 10_500, 100), Sample(3_000, 10_500, 100), Sample(3_500, 21_900, 100)]

  const TIMEOUT: Input := Sample(903_550, 5_000, 100)
  const COLD: Input := Sample(904_050, 5_000, 100)
  const HOT: Input := Sample(1_500_000, 22_000, 100)

  /** What the run knows of every state: the source, the mode and the loaded reading so far. */
  predicate OnCourse(s: Scan, changedAtMs: u32, phase: Phase, mv: u16)
  {
    && SameHeader(Source(), s.boundary) && s.mode.Rapid? && s.stabilityCentiC == Some(10_500)
    && s.changedAtMs == changedAtMs && s.phase == phase && s.requestMv == mv && s.requestMa == 3_000
    && !s.normalProbe && !s.rapidBoundaryReached && !s.hotBoundaryReached && s.rapidFailedProbeMv.None?
    && s.baselineVinMv == 2_000 && s.baselineRequestMv == 20_000
    && s.stageStartedMs <= s.changedAtMs
    && (s.lastTracking.Some? ==>
          s.lastTracking.value.vinMv == 2_000 && s.lastTracking.value.trackingRequestMv == 19_900)
  }

  /** A settled 3 A sample of the run reaches the phase's own step. */
  lemma Settles(s: Scan, i: Input)
    requires !Ended(s) && Clean(s, i) && i.temperatureCentiC < 22_000 && !s.normalProbe && s.requestMa == 3_000
    requires s.mode.Rapid? && s.stageStartedMs <= s.changedAtMs
    requires i.confirmed && RAPID_SETTLE_MS <= i.nowMs - s.changedAtMs <= SETTLE_MS && i.nowMs <= 10_000
    requires !s.phase.TemperatureSettle?
    ensures Update(s, i) == Advance(Smoothed(s, i), SmoothedInput(s, i))
  {
    hide Smooth, Advance, CutOff, FinishNormalProbe, HandleStageTimeout, BeginThreeAmpProbe;
  }

  /** The terminal probe as the run enters it, and keeps it until it is confirmed. */
  predicate AtProbe(s: Scan, changedAtMs: u32, confirmations: u8)
  {
    && SameHeader(Source(), s.boundary) && s.mode.Rapid? && s.phase.TerminalProbe? && !s.normalProbe
    && s.requestMv == 21_000 && s.requestMa == 2_850 && s.stageStartedMs == 3_500 && s.changedAtMs == changedAtMs
    && s.terminalProbeConfirmations == confirmations && s.baselineVinMv == 2_000 && s.baselineRequestMv == 20_000
    && (s.lastTracking.Some? ==>
          s.lastTracking.value.vinMv == 2_000 && s.lastTracking.value.trackingRequestMv == 19_900)
  }

  lemma Arrives()
    ensures AtProbe(After(Start(Source(), Rapid), RUN), 3_500, 0)
  {
    hide After, Update;
    var s0 := Start(Source(), Rapid);
    var s1 := Measured(s0);
    var s2 := Checked(s1);
    var s3 := Heated(s2);
    var s4 := Swept(s3);
    var s5 := Reached(s4);
    var s6 := Confirmed(s5);
    Probed(s6);
    RunIs(s0);
  }

  lemma RunIs(s: Scan)
    ensures After(s, RUN) ==
            Update(Update(Update(Update(Update(Update(Update(
              s, RUN[0]), RUN[1]), RUN[2]), RUN[3]), RUN[4]), RUN[5]), RUN[6])
  {
    hide Update, After, Sample;
    AfterStep(s, RUN, 7);
    AfterStep(s, RUN, 6);
    AfterStep(s, RUN, 5);
    AfterStep(s, RUN, 4);
    AfterStep(s, RUN, 3);
    AfterStep(s, RUN, 2);
    AfterStep(s, RUN, 1);
    assert RUN[..7] == RUN;
  }

  lemma AfterStep(s: Scan, h: seq<Input>, n: nat)
    requires 0 < n <= |h|
    ensures After(s, h[..n]) == Update(After(s, h[..n - 1]), h[n - 1])
    ensures After(s, h[..0]) == s
  {
    hide Update;
    assert h[..n][..n - 1] == h[..n - 1];
  }

  lemma Measured(s: Scan) returns (r: Scan)
    requires s == Start(Source(), Rapid)
    ensures r == Update(s, RUN[0])
    ensures OnCourse(r, 500, Preflight, 20_000) && r.previous.None? && r.lastTracking.None?
  {
    hide Update;
    Settles(s, RUN[0]);
    r := Update(s, RUN[0]);
  }

  lemma Checked(s: Scan) returns (r: Scan)
    requires OnCourse(s, 500, Preflight, 20_000) && s.previous.None? && s.lastTracking.None?
    ensures r == Update(s, RUN[1])
    ensures OnCourse(r, 1_000, Preflight, 20_000) && r.lastTracking.None?
    ensures r.previous.Some? && r.previous.value.vinMv == 2_000
  {
    hide Update;
    Settles(s, RUN[1]);
    r := Update(s, RUN[1]);
  }

  lemma Heated(s: Scan) returns (r: Scan)
    requires OnCourse(s, 1_000, Preflight, 20_000) && s.previous.Some? && s.previous.value.vinMv == 2_000
    ensures r == Update(s, RUN[2])
    ensures OnCourse(r, 1_500, Sweep, 19_900) && r.previous.None?
  {
    hide Update;
    Settles(s, RUN[2]);
    r := Update(s, RUN[2]);
  }

  lemma Swept(s: Scan) returns (r: Scan)
    requires OnCourse(s, 1_500, Sweep, 19_900) && s.previous.None?
    ensures r == Update(s, RUN[3])
    ensures OnCourse(r, 2_000, Sweep, 20_000) && r.previous.Some?
  {
    hide Update, JudgeStep, RebuildNormalPoints;
    Settles(s, RUN[3]);
    r := Update(s, RUN[3]);
    RecordFrame(Smoothed(s, RUN[3]), SmoothedInput(s, RUN[3]));
  }

  /** Recording a point leaves the header alone. */
  lemma RecordFrame(s: Scan, i: Input)
    ensures SameHeader(s.boundary, RetainNormalTracking(s, i).boundary)
    ensures SameHeader(s.boundary, RecordTracking(s, i).boundary)
  {
    hide RebuildNormalPoints;
    RebuildFrame(s.boundary, RetainNormalTracking(s, i).normalBins);
    RebuildFrame(s.boundary, RecordTracking(s, i).normalBins);
  }

  lemma RebuildFrame(b: Boundary, bins: Bins)
    ensures SameHeader(b, RebuildNormalPoints(b, bins))
  {
    hide Equilibria, Filled, RetainAll;
    var kept := Equilibria(Stored(b));
    RetainAllFrame(b.(points := kept + b.points[|kept|..], pointCount := |kept|), Filled(bins));
  }

  lemma {:induction false} RetainAllFrame(b: Boundary, s: seq<Point>)
    ensures SameHeader(b, RetainAll(b, s))
  {
    if s != [] {
      RetainAllFrame(b, s[..|s| - 1]);
    }
  }

  lemma Reached(s: Scan) returns (r: Scan)
    requires OnCourse(s, 2_000, Sweep, 20_000) && s.previous.Some?
    ensures r == Update(s, RUN[4])
    ensures OnCourse(r, 2_500, RapidWarmup, 20_000) && r.rapidTrackingConfirmations == 0 && r.lastRapidProbeCentiC.None?
  {
    hide Update, JudgeStep;
    Settles(s, RUN[4]);
    r := Update(s, RUN[4]);
  }

  lemma Confirmed(s: Scan) returns (r: Scan)
    requires OnCourse(s, 2_500, RapidWarmup, 20_000)
    requires s.rapidTrackingConfirmations == 0 && s.lastRapidProbeCentiC.None?
    ensures r == Update(s, RUN[5])
    ensures OnCourse(r, 3_000, RapidWarmup, 20_000) && r.rapidTrackingConfirmations == 1
    ensures r.lastRapidProbeCentiC == Some(10_500)
  {
    hide Update, RetainNormalTracking, WarmupDecision;
    Settles(s, RUN[5]);
    r := Update(s, RUN[5]);
  }

  lemma Probed(s: Scan)
    requires OnCourse(s, 3_000, RapidWarmup, 20_000) && s.rapidTrackingConfirmations == 1
    requires s.lastRapidProbeCentiC == Some(10_500)
    ensures AtProbe(Update(s, RUN[6]), 3_500, 0)
  {
    hide Update, RebuildNormalPoints;
    Settles(s, RUN[6]);
    var t, j := Smoothed(s, RUN[6]), SmoothedInput(s, RUN[6]);
    assert j.temperatureCentiC == 13_350 && WarmupTracks(t, j);
    hide RetainNormalTracking, WarmupDecision;
    assert Advance(t, j) == WarmupDecision(RetainNormalTracking(WarmupConfirmation(t, j), j), j);
    var u := WarmupConfirmation(t, j);
    RecordFrame(u, j);
    ProbeBegins(RetainNormalTracking(u, j), j);
  }

  lemma ProbeBegins(s: Scan, i: Input)
    requires SameHeader(Source(), s.boundary) && s.requestMv == 20_000 && !s.hotBoundaryReached
    requires i.temperatureCentiC == 13_350 && s.lastRapidProbeCentiC == Some(10_500) && i.nowMs == 3_500
    requires s.mode.Rapid? && !s.normalProbe && s.baselineVinMv == 2_000 && s.baselineRequestMv == 20_000
    requires s.lastTracking.Some? ==>
               s.lastTracking.value.vinMv == 2_000 && s.lastTracking.value.trackingRequestMv == 19_900
    ensures AtProbe(WarmupDecision(s, i), 3_500, 0)
  {
    hide BeginRapidVoltageReprobe, TerminalTarget, ReprobeDue;
    TargetOfSource(s.boundary);
  }

  lemma TargetOfSource(b: Boundary)
    requires SameHeader(Source(), b)
    ensures TerminalTarget(b) == Some((21_000, 2_850))
  {
  }

  /** The scan of this source, run into the timeout, heats outside the envelope; cooled below 60 C and
      heated to the cutoff it completes with an invalid boundary. */
  lemma EscapeHappens()
    ensures WellFormedHeader(Source()) && WellFormedRun(RUN + [TIMEOUT, COLD, HOT])
    ensures var s := After(Start(Source(), Rapid), RUN);
            && TerminalEscape(s, TIMEOUT) && !InEnvelope(Update(s, TIMEOUT)) && HeaterOn(Update(s, TIMEOUT))
    ensures var r := After(Start(Source(), Rapid), RUN + [TIMEOUT, COLD, HOT]);
            r.phase.Complete? && r.boundary.pointCount >= 1 && !IsValid(r.boundary)
  {
    WellFormedWitness();
    hide After, Update, Inv, InEnvelope, IsValid;
    var s := After(Start(Source(), Rapid), RUN);
    Arrives();
    ArrivesSafely();
    var t := Update(s, TIMEOUT);
    EscapeLeavesEnvelope(s, TIMEOUT, UNESCAPED);
    assert !s.normalProbe && s.mode.Rapid? by {
      RoomInProbe(s, TIMEOUT);
    }
    EscapeEntersColdStage(s, TIMEOUT);
    EscapeStoresInvalid(s, TIMEOUT, COLD, HOT);
    ThreeMore(Start(Source(), Rapid), RUN, TIMEOUT, COLD, HOT);
  }

  lemma WellFormedWitness()
    ensures WellFormedHeader(Source()) && WellFormedRun(RUN) && WellFormedRun(RUN + [TIMEOUT, COLD, HOT])
  {
  }

  lemma ThreeMore(s: Scan, h: seq<Input>, i: Input, j: Input, k: Input)
    ensures After(s, h + [i, j, k]) == Update(Update(Update(After(s, h), i), j), k)
  {
    hide Update;
    var all := h + [i, j, k];
    AfterStep(s, all, |all|);
    AfterStep(s, all, |all| - 1);
    AfterStep(s, all, |all| - 2);
    assert all[..|h|] == h && all[..|all|] == all;
  }

  /** Nothing escapes before the probe is reached, so the invariant holds there. */
  lemma ArrivesSafely()
    ensures var s := After(Start(Source(), Rapid), RUN); Inv(s, UNESCAPED) && SameHeader(Source(), s.boundary)
  {
    hide After, Update, Inv;
    WellFormedWitness();
    EarlyRunsStay(Start(Source(), Rapid), RUN);
    RunKeeps(Source(), Rapid, RUN, UNESCAPED);
  }

  // ---------------------------------------------------------------------------------------------
  // The same run, confirmed in time, completes within the envelope.

  /** A loaded sample that holds the terminal request. */
  function Holding(nowMs: u32): Input { Sample(nowMs, 12_000, 100).(vinMv := 2_100) }

  lemma ProbeSettles(s: Scan, nowMs: u32)
    requires 4_000 <= nowMs <= 10_000 && (AtProbe(s, nowMs - 500, 0) || AtProbe(s, nowMs - 500, 1))
    ensures var i := Holding(nowMs); Update(s, i) == TerminalProbeStep(Smoothed(s, i), SmoothedInput(s, i))
  {
    hide Smooth, CutOff, FinishNormalProbe, HandleStageTimeout, BeginThreeAmpProbe, TerminalProbeStep, SweepStep,
         RapidWarmupStep, EquilibriumStep, BaselineStep, PreflightStep, ProbeRecoveryStep, SourceBoundaryRecoveryStep;
  }

  lemma ProbeConfirmed(s: Scan)
    requires AtProbe(s, 3_500, 0)
    ensures AtProbe(Update(s, Holding(4_000)), 4_000, 1) && Update(s, Holding(4_000)).boundary == s.boundary
    ensures Update(s, Holding(4_000)).cutoffReached == s.cutoffReached
  {
    hide Update, Smooth, Retain;
    ProbeSettles(s, 4_000);
  }

  lemma ProbeCompletes(s: Scan)
    requires AtProbe(s, 4_000, 1) && s.boundary.pointCount < MAX_BOUNDARY_POINTS
    ensures var r := Update(s, Holding(4_500));
            r.phase.Complete? && r.cutoffReached == s.cutoffReached && r.boundary.pointCount >= 1
  {
    hide Update, Smooth, Retain, Stored;
    ProbeSettles(s, 4_500);
    var t, j := Smoothed(s, Holding(4_500)), SmoothedInput(s, Holding(4_500));
    var p := PointOf(t, j).(flatRequestMv := 0, trackingOnly := true);
    RetainStores(t.boundary, p);
  }

  /** A well-formed rapid run without the escape that completes before the cutoff with a point. */
  lemma CompletionHappens()
    ensures WellFormedRun(RUN + [Holding(4_000), Holding(4_500)])
    ensures NoEscape(Start(Source(), Rapid), RUN + [Holding(4_000), Holding(4_500)])
    ensures var r := After(Start(Source(), Rapid), RUN + [Holding(4_000), Holding(4_500)]);
            r.phase.Complete? && !r.cutoffReached && r.boundary.pointCount >= 1
  {
    var start, h := Start(Source(), Rapid), RUN + [Holding(4_000), Holding(4_500)];
    HoldingWellFormed(h);
    EarlyRunsStay(start, h);
    hide After, Update, Inv, NoEscape, WellFormedInput, Start, Sample, Holding;
    var s := After(start, RUN);
    Arrives();
    ArrivesSafely();
    ProbeHasRoom(s);
    ProbeConfirmed(s);
    ProbeCompletes(Update(s, Holding(4_000)));
    AfterStep(start, h, |h|);
    AfterStep(start, h, |h| - 1);
    assert h[..|RUN|] == RUN && h[..|h|] == h;
  }

  lemma HoldingWellFormed(h: seq<Input>)
    requires h == RUN + [Holding(4_000), Holding(4_500)]
    ensures forall k :: 0 <= k < |h| ==> WellFormedInput(h[k]) && h[k].nowMs <= 4_500
  {
  }

  /** No stage can time out in the first fifteen minutes. */
  lemma EarlyRunsStay(s: Scan, h: seq<Input>)
    requires forall k :: 0 <= k < |h| ==> h[k].nowMs <= 900_000
    ensures NoEscape(s, h)
  {
    hide After;
  }

  lemma ProbeHasRoom(s: Scan)
    requires Inv(s, UNESCAPED) && s.phase.TerminalProbe?
    ensures s.boundary.pointCount < MAX_BOUNDARY_POINTS && !s.cutoffReached
  {
    hide TerminalTarget;
    TableHasRoom(s.boundary, s.normalBins, UNESCAPED);
  }
}
