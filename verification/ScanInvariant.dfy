/** The invariant of the scan. In its weakest form it holds in every state of every run of every scan that
    can be constructed; a `Claim` adds the request envelope, the 100 mV grid and the readings, each under
    its own hypothesis. */
module ScanInvariant {
  import opened Arithmetic
  import opened BoundaryData
  import opened EquilibriumBand
  import opened ScanModel
  import opened ScanTable
  import opened ScanShape

  /** What the caller of a scan supplies: a header that `IsValid` accepts, with a non-empty range
      of request voltages on the 100 mV grid. */
  predicate WellFormedHeader(b: Boundary)
  {
    HeaderValid(b) && b.sourceMinMv < b.sourceMaxMv && b.sourceMinMv % 100 == 0 && b.sourceMaxMv % 100 == 0
  }

  /** ADC readings in millivolts and a 50 ms sample clock that fit the stored point. */
  predicate WellFormedInput(i: Input)
  {
    i.rtdMv <= 4_095 && i.vinMv <= 4_095 && i.nowMs % 50 == 0 && i.nowMs / 50 < 0x8_0000
  }

  predicate Usable(i: Input, claim: Claim)
  {
    !BadReading(i) && (claim.fit ==> WellFormedInput(i))
  }

  /** The header of a scan that could be constructed. */
  predicate Header(b: Boundary, claim: Claim)
  {
    && 5_500 <= b.sourceMinMv < b.sourceMaxMv <= 21_000
    && (claim.grid ==> WellFormedHeader(b))
  }

  predicate InRange(b: Boundary, mv: u16) { b.sourceMinMv <= mv <= b.sourceMaxMv }

  predicate Regular(b: Boundary, mv: u16, claim: Claim) { InRange(b, mv) && OnGrid(mv, claim) }

  /** A stage current; a rapid scan that has left 3 A may be at any current below it. */
  predicate StageCurrent(mode: Mode, lax: bool, ma: u16)
  {
    if mode.Detailed? then RegularCurrent(ma) else if lax then ma <= 3_000 else ma == 3_000
  }

  /** The request envelope: a regular stage request, or exactly the terminal target, the latter only
      in the terminal probe and after a scan that ended in it. */
  predicate InEnvelope(s: Scan)
  {
    && (s.phase.TerminalProbe? ==> AtTerminalTarget(s))
    && ((InRange(s.boundary, s.requestMv) && StageCurrent(s.mode, false, s.requestMa)) ||
        ((s.phase.TerminalProbe? || Ended(s)) && AtTerminalTarget(s)))
  }

  /** Where the request lies in each phase. Only a rapid probe recovery, which follows an escape, may
      start above the source range. */
  predicate Placed(s: Scan, claim: Claim)
  {
    && (!claim.lax ==> InEnvelope(s))
    && OnGrid(s.requestMv, claim)
    && (s.phase.TerminalProbe? ==> AtTerminalTarget(s))
    && (!Ended(s) && !s.phase.TerminalProbe? ==>
          && StageCurrent(s.mode, claim.lax, s.requestMa)
          && s.boundary.sourceMinMv <= s.requestMv
          && (s.requestMv <= s.boundary.sourceMaxMv || (s.phase.ProbeRecovery? && s.mode.Rapid?)))
  }

  /** The phase-independent part of the invariant. */
  predicate Base(s: Scan, claim: Claim)
  {
    && Header(s.boundary, claim)
    && (s.normalProbe ==> s.mode.Detailed? || claim.lax)
    && (s.normalProbe && !Ended(s) ==> s.returnRequestMv <= s.requestMv)
    && (s.lastTracking.Some? ==>
          && ObservedPoint(s.boundary.sourceMinMv, s.boundary.sourceMaxMv, s.lastTracking.value, claim)
          && StageCurrent(s.mode, claim.lax, s.lastTracking.value.requestCurrentMa)
          && s.lastTracking.value.trackingOnly == s.normalProbe)
    && StageCurrent(s.mode, claim.lax, s.returnCurrentMa)
    && Regular(s.boundary, s.returnRequestMv, claim)
    && (s.rapidFailedProbeMv.Some? ==> Regular(s.boundary, s.rapidFailedProbeMv.value, claim))
  }

  /** In a sweep no flat voltage is pending, the last tracking voltage is at most the request and,
      once a flat answer is counted, below it. */
  predicate SweepOk(s: Scan)
  {
    && s.flatRequestMv == 0
    && s.flatCount <= 4
    && (s.lastTracking.Some? ==> s.lastTracking.value.trackingRequestMv <= s.requestMv)
    && (s.lastTracking.Some? && s.flatCount > 0 ==> s.lastTracking.value.trackingRequestMv < s.requestMv)
    && (s.previous.Some? ==> s.boundary.sourceMinMv < s.requestMv)
    && (s.previous.None? ==> s.flatCount == 0)
    && (s.normalProbe ==> s.requestMa == 3_000)
  }

  predicate PhaseOk(s: Scan, claim: Claim)
  {
    && Placed(s, claim)
    && ModePhase(s)
    && (s.phase.ProbeRecovery? ==> s.mode.Detailed? || claim.lax)
    && (s.cutoffReached ==> s.phase.Complete?)
    && (s.normalProbe ==> !s.phase.ProbeRecovery? && (s.mode.Detailed? ==> s.phase.Sweep? || Ended(s)))
    && (s.phase.Sweep? ==> SweepOk(s))
    && (s.phase.Equilibrium? ==>
          && FlatAbove(s.flatRequestMv, s.requestMv, s.boundary.sourceMaxMv, claim)
          && s.requestMv < s.boundary.sourceMaxMv
          && (s.lastTracking.Some? ==> s.lastTracking.value.trackingRequestMv <= s.requestMv + 100))
    && (s.phase.RapidWarmup? ==> FlatAbove(s.flatRequestMv, s.requestMv, s.boundary.sourceMaxMv, claim))
    && (s.phase.ProbeRecovery? ==>
          s.returnRequestMv <= s.requestMv && s.flatRequestMv == 0 && s.flatCount == 0 && s.previous.None? &&
          s.lastTracking.None?)
  }

  /** The terminal point a rapid scan may end with. */
  predicate TerminalPoint(b: Boundary, p: Point, claim: Claim)
  {
    && TerminalTracking(b, p) && p.trackingRequestMv % 100 == 0 && p.trackingRequestMv <= 21_000
    && p.flatRequestMv == 0 && (claim.fit ==> ReadingsFit(p))
  }

  predicate TerminalStored(s: Scan, claim: Claim)
  {
    && s.mode.Rapid? && s.phase.Complete? && !s.cutoffReached && s.boundary.pointCount > 0
    && s.boundary.pointCount <= MAX_BOUNDARY_POINTS
    && var last := s.boundary.points[s.boundary.pointCount - 1];
       TerminalPoint(s.boundary, last, claim) && TableOk(s.boundary, s.normalBins, [last], claim)
  }

  /** The last tracking point is not a probe's and its current is no stage current. */
  predicate IrregularLast(s: Scan)
  {
    s.lastTracking.Some? && !s.normalProbe && !RegularCurrent(s.lastTracking.value.requestCurrentMa)
  }

  /** The cutoff has stored a point of irregular current, as it may after an escape. */
  predicate Stranded(s: Scan)
  {
    && s.phase.Complete? && s.cutoffReached && IrregularLast(s)
    && s.lastTracking.value in Stored(s.boundary) && s.boundary.pointCount <= MAX_BOUNDARY_POINTS
  }

  predicate Table(s: Scan, claim: Claim)
  {
    TableOk(s.boundary, s.normalBins, [], claim) || TerminalStored(s, claim) || Stranded(s)
  }

  /** The part of the invariant that does not look at the stored points. */
  predicate Control(s: Scan, claim: Claim)
  {
    Base(s, claim) && PhaseOk(s, claim)
  }

  predicate Inv(s: Scan, claim: Claim)
  {
    Control(s, claim) && Table(s, claim)
  }

  /** How far one update may raise the request while the heater is on. */
  predicate Slew(s: Scan, r: Scan)
  {
    HeaterOn(r) ==>
      || r.requestMv <= s.requestMv + (if s.mode.Detailed? then 100 else 500)
      || (r.phase.TerminalProbe? && !s.phase.TerminalProbe?)
  }

  /** A step to `r` that keeps the control invariant, the mode and the points, within the slew bound. */
  predicate Steers(s: Scan, r: Scan, claim: Claim)
  {
    && Control(r, claim) && Slew(s, r)
    && r.mode == s.mode && r.cutoffReached == s.cutoffReached
    && r.boundary == s.boundary && r.normalBins == s.normalBins
  }

  /** A step to `r` that keeps the whole invariant, the mode and the header, within the slew bound. */
  predicate Keeps(s: Scan, r: Scan, claim: Claim)
  {
    && Inv(r, claim) && Slew(s, r)
    && r.mode == s.mode && SameHeader(s.boundary, r.boundary)
  }

  /** The one update that breaks the envelope: a terminal probe below 2.9 A is allowed to time out
      and is then treated as a skippable low-current stage. */
  predicate TerminalEscape(s: Scan, i: Input)
  {
    && s.phase.TerminalProbe?
    && i.wifiStarted == s.boundary.wifiStarted
    && 0 < i.rtdMv && 0 < i.vinMv && i.rtdCode <= 4_095 && i.vinCode <= 4_095
    && i.temperatureCentiC < 22_000
    && i.nowMs > s.stageStartedMs + 900_000
    && s.requestMa < 2_900
  }

  lemma NewKeeps(b: Boundary, mode: Mode, claim: Claim)
    requires New(b, mode).Some? && (claim.grid ==> WellFormedHeader(b))
    ensures Inv(New(b, mode).value, claim)
  {
    var s := New(b, mode).value;
    NoneFilled(s.normalBins);
    assert Stored(s.boundary) == [];
  }

  // ---------------------------------------------------------------------------------------------
  // Retention.

  /** A tracking sample keeps the table; at 3 A its bin is filled afterwards. */
  lemma RetainNormalTrackingKeeps(s: Scan, i: Input, claim: Claim)
    requires Header(s.boundary, claim) && TableOk(s.boundary, s.normalBins, [], claim) && Usable(i, claim)
    requires Regular(s.boundary, s.requestMv, claim) && StageCurrent(s.mode, claim.lax, s.requestMa)
    requires FlatAbove(s.flatRequestMv, s.requestMv, s.boundary.sourceMaxMv, claim)
    ensures var r := RetainNormalTracking(s, i);
            && r == s.(boundary := r.boundary, normalBins := r.normalBins)
            && r.boundary == s.boundary.(pointCount := r.boundary.pointCount, points := r.boundary.points)
            && TableOk(r.boundary, r.normalBins, [], claim)
  {
    hide TableOk, RebuildNormalPoints;
    var bin := BinOf(i.temperatureCentiC);
    var p := PointOf(s, i).(trackingOnly := true);
    if s.requestMa == 3_000 &&
       (s.normalBins[bin].None? || p.trackingRequestMv > s.normalBins[bin].value.trackingRequestMv) {
      RebuildKeeps(s.boundary, s.normalBins, bin, p, claim);
    }
  }

  // ---------------------------------------------------------------------------------------------
  // Handlers that leave the table alone.

  /** A regular request, from which a handler may start. */
  predicate AtStage(s: Scan, claim: Claim)
  {
    && Base(s, claim) && !s.cutoffReached
    && Regular(s.boundary, s.requestMv, claim) && StageCurrent(s.mode, claim.lax, s.requestMa)
  }

  predicate ProbeAtThreeAmps(s: Scan)
  {
    s.normalProbe ==> s.requestMa == 3_000
  }

  /** A sweep state about to raise its request. */
  predicate ReadyToRaise(s: Scan, claim: Claim)
  {
    && AtStage(s, claim) && s.phase.Sweep? && ProbeAtThreeAmps(s)
    && s.flatRequestMv == 0 && s.flatCount <= 4
    && (s.lastTracking.Some? ==> s.lastTracking.value.trackingRequestMv <= s.requestMv + 100)
    && (s.lastTracking.Some? && (s.flatCount > 0 || s.requestMv == s.boundary.sourceMaxMv) ==>
          s.lastTracking.value.trackingRequestMv <= s.requestMv)
    && (s.previous.None? ==> s.flatCount == 0)
  }

  /** A probe may end in any phase, in rapid mode even in the terminal probe. */
  lemma FinishNormalProbeSteers(s: Scan, i: Input, claim: Claim)
    requires Base(s, claim) && !s.cutoffReached && !Ended(s) && s.normalProbe && OnGrid(s.requestMv, claim)
    requires s.mode.Detailed? ==> s.requestMv <= s.boundary.sourceMaxMv
    ensures Steers(s, FinishNormalProbe(s, i), claim)
  {
    hide TerminalTarget, ObservedPoint;
  }

  lemma BeginEquilibriumSteers(s: Scan, i: Input, claim: Claim)
    requires AtStage(s, claim) && ProbeAtThreeAmps(s) && s.phase.Sweep?
    requires s.lastTracking.Some? ==>
               && s.lastTracking.value.trackingRequestMv <= s.requestMv
               && (s.mode.Rapid? ==>
                     FlatAbove(s.flatRequestMv, s.lastTracking.value.trackingRequestMv, s.boundary.sourceMaxMv, claim))
    requires s.mode.Detailed? ==> s.flatRequestMv == 0 || (s.flatRequestMv == s.requestMv > s.boundary.sourceMinMv)
    ensures Steers(s, BeginEquilibrium(s, i), claim)
  {
    hide TerminalTarget, WarmAt, EquilibrateAt, FinishNormalProbe;
    if s.lastTracking.Some? {
      if s.normalProbe {
        FinishNormalProbeSteers(s, i, claim);
      } else if s.mode.Rapid? {
        WarmAtSteers(s, i, claim);
      } else {
        EquilibrateAtSteers(s, i, claim);
      }
    }
  }

  lemma WarmAtSteers(s: Scan, i: Input, claim: Claim)
    requires AtStage(s, claim) && s.mode.Rapid? && s.lastTracking.Some? && !s.normalProbe
    requires s.lastTracking.value.trackingRequestMv <= s.requestMv
    requires FlatAbove(s.flatRequestMv, s.lastTracking.value.trackingRequestMv, s.boundary.sourceMaxMv, claim)
    ensures Steers(s, WarmAt(s, i, s.lastTracking.value.trackingRequestMv), claim)
  {
    hide TerminalTarget;
  }

  lemma EquilibrateAtSteers(s: Scan, i: Input, claim: Claim)
    requires AtStage(s, claim) && s.mode.Detailed? && s.lastTracking.Some? && !s.normalProbe
    requires s.lastTracking.value.trackingRequestMv <= s.requestMv
    requires s.flatRequestMv == 0 || (s.flatRequestMv == s.requestMv > s.boundary.sourceMinMv)
    ensures var mv := Max(SatSub(s.lastTracking.value.trackingRequestMv, 100), s.boundary.sourceMinMv);
            Steers(s, EquilibrateAt(s, i, mv), claim)
  {
    hide TerminalTarget;
  }

  lemma ProbeNextVoltageSteers(s: Scan, i: Input, claim: Claim)
    requires ReadyToRaise(s, claim)
    ensures Steers(s, ProbeNextVoltage(s, i), claim)
  {
    if s.requestMv >= s.boundary.sourceMaxMv && s.mode.Detailed? {
      BeginEquilibriumSteers(s, i, claim);
    }
  }

  lemma BeginSourceBoundaryRecoverySteers(s: Scan, i: Input, claim: Claim)
    requires AtStage(s, claim) && s.mode.Rapid? && Regular(s.boundary, RecoveryRequestMv(s), claim)
    ensures Steers(s, BeginSourceBoundaryRecovery(s, i), claim)
  {
    hide TerminalTarget, RecoveryRequestMv;
  }

  lemma HandleFlatConfirmationSteers(s: Scan, i: Input, claim: Claim)
    requires ReadyToRaise(s.(flatCount := 0), claim) && s.previous.Some? && s.requestMv > s.boundary.sourceMinMv
    requires s.lastTracking.Some? ==> s.lastTracking.value.trackingRequestMv < s.requestMv
    requires s.mode.Rapid? ==> VoltageTracksRequest(s, i)
    ensures Steers(s, HandleFlatConfirmation(s, i), claim)
  {
    hide TerminalTarget, BeginEquilibrium, ProbeNextVoltage;
    if FlatBoundaryReady(s, i) {
      var flat := s.(flatRequestMv := s.requestMv);
      BeginEquilibriumSteers(
        if s.lastTracking.None? then flat
        else flat.(lastTracking := Some(s.lastTracking.value.(flatRequestMv := s.requestMv))), i, claim);
    } else {
      ProbeNextVoltageSteers(s.(flatCount := 0), i, claim);
    }
  }

  lemma HandleAmbiguousConfirmationSteers(s: Scan, i: Input, claim: Claim)
    requires Control(s, claim) && s.phase.Sweep? && s.previous.Some?
    requires s.mode.Rapid? ==> VoltageTracksRequest(s, i)
    ensures Steers(s, HandleAmbiguousConfirmation(s, i), claim)
  {
    hide TerminalTarget, BeginEquilibrium, ProbeNextVoltage;
    if FlatBoundaryReady(s, i) {
      BeginEquilibriumSteers(s.(flatRequestMv := s.requestMv), i, claim);
    } else {
      ProbeNextVoltageSteers(s.(ambiguousCount := 0), i, claim);
    }
  }

  lemma NextStageSteers(s: Scan, i: Input, claim: Claim)
    requires Base(s, claim) && StageCurrent(s.mode, claim.lax, NextStageMa(s.requestMa))
    requires s.boundary.sourceMinMv <= s.requestMv
    requires !s.cutoffReached
    ensures Steers(s, NextStage(s, i), claim)
  {
  }

  lemma BeginThreeAmpProbeSteers(s: Scan, i: Input, claim: Claim)
    requires AtStage(s, claim) && (s.mode.Detailed? || claim.lax) && !Ended(s) && s.requestMa < 3_000
    ensures Steers(s, BeginThreeAmpProbe(s, i), claim)
  {
    if !ProbeBandClear(s, i) {
      NextStageSteers(s, i, claim);
    }
  }

  lemma FinishThreeAmpEquilibriumSteers(s: Scan, i: Input, claim: Claim)
    requires AtStage(s, claim) && s.mode.Detailed? && s.requestMa == 3_000 && !s.normalProbe
    requires s.requestMv < s.boundary.sourceMaxMv
    ensures Steers(s, FinishThreeAmpEquilibrium(s, i), claim)
  {
    hide TerminalTarget, ProbeNextVoltage;
    ProbeNextVoltageSteers(
      s.(phase := Sweep, previous := None, lastTracking := None, flatCount := 0, ambiguousCount := 0,
         flatRequestMv := 0, equilibrium := EMPTY_WINDOW), i, claim);
  }

  /** The terminal target lies above the 3 A range, on the grid, at the current its power allows. */
  lemma TerminalTargetFacts(b: Boundary)
    requires TerminalTarget(b).Some?
    ensures var (mv, ma) := TerminalTarget(b).value;
            && b.sourceMaxMv < mv <= 21_000 && mv % 100 == 0 && mv <= b.advertisedMaxMv
            && ma >= 1_000 && ma % 50 == 0
            && TerminalTrackingCurrentMa(b.sourcePowerLimitMw, mv) == Some(ma)
  {
    hide TerminalTrackingCurrentMa;
  }

  lemma BeginTerminalProbeOrCompleteSteers(s: Scan, i: Input, claim: Claim)
    requires AtStage(s, claim) && s.mode.Rapid? && s.phase.RapidWarmup?
    ensures Steers(s, BeginTerminalProbeOrComplete(s, i), claim)
  {
    hide TerminalTarget, ObservedPoint, TerminalTrackingCurrentMa;
    if TerminalTarget(s.boundary).Some? {
      TerminalTargetFacts(s.boundary);
    }
  }

  lemma BeginRapidVoltageReprobeSteers(s: Scan, i: Input, claim: Claim)
    requires AtStage(s, claim) && s.mode.Rapid? && Usable(i, claim)
    requires FlatAbove(s.flatRequestMv, s.requestMv, s.boundary.sourceMaxMv, claim)
    requires s.requestMv < s.boundary.sourceMaxMv
    ensures Steers(s, BeginRapidVoltageReprobe(s, i), claim)
    ensures BeginRapidVoltageReprobe(s, i).phase.Sweep?
  {
    hide TerminalTarget, RapidProbeStepMv;
  }

  lemma WarmupDecisionSteers(s: Scan, i: Input, claim: Claim)
    requires Control(s, claim) && s.phase.RapidWarmup? && Usable(i, claim)
    ensures Steers(s, WarmupDecision(s, i), claim)
  {
    hide TerminalTarget, BeginTerminalProbeOrComplete, BeginRapidVoltageReprobe;
    BeginTerminalProbeOrCompleteSteers(s, i, claim);
    if s.requestMv < s.boundary.sourceMaxMv {
      BeginRapidVoltageReprobeSteers(s, i, claim);
    }
  }

  // ---------------------------------------------------------------------------------------------
  // Whole phase steps.

  lemma StoredOnGrid(b: Boundary, bins: Bins, p: Point, claim: Claim)
    requires TableOk(b, bins, [], claim) && p in Stored(b)
    ensures StagePoint(b.sourceMinMv, b.sourceMaxMv, p, claim)
  {
    var k :| 0 <= k < |Stored(b)| && Stored(b)[k] == p;
    SplitMember(Stored(b), k);
    FilledAreBinPoints(b.sourceMinMv, b.sourceMaxMv, bins, claim);
  }

  lemma RecoveryRequestInRange(s: Scan, claim: Claim)
    requires AtStage(s, claim) && TableOk(s.boundary, s.normalBins, [], claim)
    ensures Regular(s.boundary, RecoveryRequestMv(s), claim)
  {
    hide TableOk, TerminalTarget;
    var strongest := StrongestBelow(Stored(s.boundary), s.requestMa, s.requestMv);
    if strongest.Some? {
      StoredOnGrid(s.boundary, s.normalBins, strongest.value, claim);
    }
  }

  lemma RecordTrackingReady(s: Scan, i: Input, claim: Claim)
    requires Inv(s, claim) && s.phase.Sweep? && Usable(i, claim)
    ensures var r := RecordTracking(s, i);
            && ReadyToRaise(r.(flatCount := 0, previous := Some(i)), claim)
            && r == s.(lastTracking := r.lastTracking, boundary := r.boundary, normalBins := r.normalBins)
            && SameHeader(s.boundary, r.boundary)
            && TableOk(r.boundary, r.normalBins, [], claim)
  {
    hide TableOk, TerminalTarget, RetainNormalTracking;
    RetainNormalTrackingKeeps(s.(lastTracking := Some(PointOf(s, i))), i, claim);
  }

  /** A steering step from a state with an intact table keeps the whole invariant. */
  lemma SteersKeeps(s: Scan, r: Scan, claim: Claim)
    requires Steers(s, r, claim) && TableOk(s.boundary, s.normalBins, [], claim)
    ensures Keeps(s, r, claim)
  {
    hide TableOk, Control;
  }

  lemma SweepSampleKeeps(s: Scan, i: Input, r: Scan, claim: Claim)
    requires Inv(s, claim) && s.phase.Sweep? && Usable(i, claim)
    requires r == RecordTracking(s, i).(flatCount := 0, ambiguousCount := r.ambiguousCount, previous := Some(i))
    ensures Keeps(s, ProbeNextVoltage(r, i), claim)
  {
    hide TableOk, TerminalTarget, RecordTracking, ProbeNextVoltage, Control;
    RecordTrackingReady(s, i, claim);
    ProbeNextVoltageSteers(r, i, claim);
    SteersKeeps(r, ProbeNextVoltage(r, i), claim);
  }

  lemma SweepStepKeeps(s: Scan, i: Input, claim: Claim)
    requires Inv(s, claim) && s.phase.Sweep? && Usable(i, claim)
    ensures Keeps(s, SweepStep(s, i), claim)
  {
    hide TableOk, TerminalTarget, RecordTracking, ProbeNextVoltage, BeginSourceBoundaryRecovery,
         HandleFlatConfirmation, HandleAmbiguousConfirmation, VoltageTracksRequest;
    if s.previous.None? {
      SweepSampleKeeps(s, i, RecordTracking(s, i).(flatCount := 0, previous := Some(i)), claim);
      RecordTrackingReady(s, i, claim);
    } else if RapidDiverts(s, i) {
      if !VoltageTracksRequest(s, i) {
        RecoveryRequestInRange(s, claim);
        BeginSourceBoundaryRecoverySteers(s, i, claim);
        SteersKeeps(s, BeginSourceBoundaryRecovery(s, i), claim);
      }
    } else if Classify(s, s.previous.value, i).Tracking? {
      SweepSampleKeeps(s, i, RecordTracking(s, i).(flatCount := 0, ambiguousCount := 0, previous := Some(i)), claim);
    } else {
      SweepAnswerSteers(s, i, claim);
      SteersKeeps(s, SweepStep(s, i), claim);
    }
  }

  /** A sample that neither tracks nor diverts. */
  lemma SweepAnswerSteers(s: Scan, i: Input, claim: Claim)
    requires Control(s, claim) && s.phase.Sweep? && s.previous.Some? && !RapidDiverts(s, i)
    requires !Classify(s, s.previous.value, i).Tracking?
    ensures Steers(s, SweepStep(s, i), claim)
  {
    hide AtTerminalTarget, ProbeNextVoltage, HandleFlatConfirmation, HandleAmbiguousConfirmation, Classify,
         VoltageResponseMatches, RecordTracking, ObservedPoint;
    match Classify(s, s.previous.value, i) {
      case Ramp =>
        ProbeNextVoltageSteers(s.(flatCount := 0, ambiguousCount := 0, previous := Some(i)), i, claim);
      case Flat => FlatAnswerSteers(s, i, claim);
      case Ambiguous =>
        HandleAmbiguousConfirmationSteers(
          s.(ambiguousCount := SatAdd8(s.ambiguousCount, 1), previous := Some(i), changedAtMs := i.nowMs), i, claim);
    }
  }

  lemma FlatAnswerSteers(s: Scan, i: Input, claim: Claim)
    requires Control(s, claim) && s.phase.Sweep? && s.previous.Some? && (s.mode.Rapid? ==> VoltageTracksRequest(s, i))
    ensures var counted := s.(flatCount := s.flatCount + 1, previous := Some(i));
            Steers(s, if counted.flatCount >= (if s.normalProbe then NORMAL_PROBE_FLAT_CONFIRMATIONS else 2)
                      then HandleFlatConfirmation(counted, i) else ProbeNextVoltage(counted, i), claim)
  {
    hide AtTerminalTarget, ProbeNextVoltage, HandleFlatConfirmation, VoltageResponseMatches, ObservedPoint;
    var counted := s.(flatCount := s.flatCount + 1, previous := Some(i));
    if counted.flatCount >= (if s.normalProbe then NORMAL_PROBE_FLAT_CONFIRMATIONS else 2) {
      HandleFlatConfirmationSteers(counted, i, claim);
    } else {
      ProbeNextVoltageSteers(counted, i, claim);
    }
  }

  lemma EquilibriumStepKeeps(s: Scan, i: Input, claim: Claim)
    requires Inv(s, claim) && s.phase.Equilibrium? && Usable(i, claim)
    ensures Keeps(s, EquilibriumStep(s, i), claim)
  {
    hide TableOk, TerminalTarget, Retain, FinishThreeAmpEquilibrium, BeginThreeAmpProbe, ProbeNextVoltage, Observe;
    var seen := Observe(s.equilibrium, i.nowMs, i.temperatureCentiC);
    var t := s.(equilibrium := seen.window);
    if seen.stable {
      var p := PointOf(t, i);
      RetainEquilibriumKeeps(t.boundary, t.normalBins, p, claim);
      RetainHeader(t.boundary, p);
      var kept := RetainTracking(t.(lastTracking := Some(p)));
      if kept.requestMa == 3_000 {
        FinishThreeAmpEquilibriumSteers(kept, i, claim);
      } else {
        BeginThreeAmpProbeSteers(kept, i, claim);
      }
      SteersKeeps(kept, EquilibriumStep(s, i), claim);
    } else if s.previous.Some? && i.temperatureCentiC - s.previous.value.temperatureCentiC > 100 {
      ProbeNextVoltageSteers(
        t.(phase := Sweep, previous := Some(i), flatCount := 0, flatRequestMv := 0, equilibrium := EMPTY_WINDOW), i,
        claim);
    }
  }

  lemma RapidWarmupStepKeeps(s: Scan, i: Input, claim: Claim)
    requires Inv(s, claim) && s.phase.RapidWarmup? && Usable(i, claim)
    ensures Keeps(s, RapidWarmupStep(s, i), claim)
  {
    hide TableOk, TerminalTarget, VoltageTracksRequest, BeginSourceBoundaryRecovery, RetainNormalTracking,
         WarmupDecision, ObservedPoint, Keeps, Table, WarmupConfirmation;
    var c := WarmupConfirmation(s, i);
    if !i.confirmed || i.physicalPercent != 100 {
      HoldKeeps(s, i, claim);
    } else if !VoltageTracksRequest(s, i) {
      TableOfRunning(s, claim);
      RecoveryRequestInRange(s, claim);
      BeginSourceBoundaryRecoverySteers(s, i, claim);
      SteersKeeps(s, BeginSourceBoundaryRecovery(s, i), claim);
    } else if WarmupTracks(s, i) {
      WarmupSampleKeeps(s, i, claim);
    } else {
      ConfirmationKeeps(s, i, claim);
    }
  }

  lemma TableOfRunning(s: Scan, claim: Claim)
    requires Inv(s, claim) && !Ended(s)
    ensures TableOk(s.boundary, s.normalBins, [], claim)
  {
    hide TableOk;
  }

  lemma ConfirmationKeeps(s: Scan, i: Input, claim: Claim)
    requires Inv(s, claim) && s.phase.RapidWarmup?
    ensures Keeps(s, Hold(WarmupConfirmation(s, i), i), claim)
  {
    hide TableOk, AtTerminalTarget, ObservedPoint;
  }

  /** A confirmed warm-up sample is retained, and then decides how to go on. */
  lemma WarmupSampleKeeps(s: Scan, i: Input, claim: Claim)
    requires Inv(s, claim) && s.phase.RapidWarmup? && Usable(i, claim)
    ensures var kept := RetainNormalTracking(WarmupConfirmation(s, i), i); Keeps(s, WarmupDecision(kept, i), claim)
  {
    hide TableOk, AtTerminalTarget, RetainNormalTracking, WarmupDecision, ObservedPoint;
    var c := WarmupConfirmation(s, i);
    var kept := RetainNormalTracking(c, i);
    RetainNormalTrackingKeeps(c, i, claim);
    WarmupDecisionSteers(kept, i, claim);
    SteersKeeps(kept, WarmupDecision(kept, i), claim);
  }

  /** The second tracking sample of a terminal probe stores its point and completes the scan. */
  lemma TerminalConfirmationKeeps(s: Scan, i: Input, t: Scan, claim: Claim)
    requires Inv(s, claim) && s.phase.TerminalProbe? && Usable(i, claim)
    requires t == s.(terminalProbeConfirmations := t.terminalProbeConfirmations)
    ensures var kept := Retain(t.boundary, PointOf(t, i).(flatRequestMv := 0, trackingOnly := true));
            kept.accepted && Keeps(s, t.(boundary := kept.boundary, phase := Complete), claim)
  {
    hide TableOk, TerminalTarget, Retain, TerminalPoint, ObservedPoint, TerminalTrackingCurrentMa;
    var p := PointOf(t, i).(flatRequestMv := 0, trackingOnly := true);
    assert TableOk(s.boundary, s.normalBins, [], claim) && AtTerminalTarget(s);
    RetainTerminalKeeps(s.boundary, s.normalBins, p, claim);
    RetainHeader(s.boundary, p);
    TargetFrame(s.boundary, Retain(s.boundary, p).boundary);
    TerminalPointStored(s, i, p, Retain(s.boundary, p).boundary, claim);
  }

  lemma TerminalPointStored(s: Scan, i: Input, p: Point, b: Boundary, claim: Claim)
    requires AtTerminalTarget(s) && Usable(i, claim) && SameHeader(s.boundary, b)
    requires p == PointOf(s, i).(flatRequestMv := 0, trackingOnly := true)
    ensures TerminalPoint(b, p, claim)
  {
    hide TerminalTarget, TerminalTrackingCurrentMa;
    TerminalTargetFacts(s.boundary);
  }

  /** The sample completes a terminal probe. */
  predicate TerminalConfirmed(s: Scan, i: Input)
  {
    i.confirmed && i.physicalPercent == 100 && VoltageTracksRequest(s, i) &&
    SatAdd8(s.terminalProbeConfirmations, 1) >= 2
  }

  lemma TerminalWaitSteers(s: Scan, i: Input, claim: Claim)
    requires Control(s, claim) && s.phase.TerminalProbe? && s.boundary.sourceMaxMv < s.requestMv
    requires !TerminalConfirmed(s, i)
    ensures Steers(s, TerminalProbeStep(s, i), claim)
  {
    hide TerminalTarget, VoltageTracksRequest, Retain, ObservedPoint, RetreatFromTerminal;
    RetreatSteers(s, i, claim);
  }

  lemma RetreatSteers(s: Scan, i: Input, claim: Claim)
    requires Control(s, claim) && s.phase.TerminalProbe? && s.boundary.sourceMaxMv < s.requestMv
    ensures Steers(s, RetreatFromTerminal(s, i), claim)
  {
    hide TerminalTarget, ObservedPoint;
  }

  lemma TerminalProbeStepKeeps(s: Scan, i: Input, claim: Claim)
    requires Inv(s, claim) && s.phase.TerminalProbe? && Usable(i, claim)
    ensures Keeps(s, TerminalProbeStep(s, i), claim)
  {
    hide TableOk, TerminalTarget, VoltageTracksRequest, Retain, Control, TerminalPoint;
    if TerminalConfirmed(s, i) {
      var t := s.(terminalProbeConfirmations := SatAdd8(s.terminalProbeConfirmations, 1));
      TerminalConfirmationKeeps(s, i, t, claim);
    } else {
      AboveRange(s, claim);
      TerminalWaitSteers(s, i, claim);
      SteersKeeps(s, TerminalProbeStep(s, i), claim);
    }
  }

  lemma AboveRange(s: Scan, claim: Claim)
    requires Control(s, claim) && s.phase.TerminalProbe?
    ensures s.boundary.sourceMaxMv < s.requestMv
  {
    TerminalTargetFacts(s.boundary);
  }

  lemma CutOffKeeps(s: Scan, claim: Claim)
    requires Inv(s, claim) && !Ended(s)
    ensures Keeps(s, CutOff(s), claim)
    ensures if IrregularLast(s) then Stranded(CutOff(s)) else TableOk(CutOff(s).boundary, s.normalBins, [], claim)
  {
    hide TerminalTarget, ObservedPoint, TableOk, CutOff, Stored, Placed, Base, ModePhase, SweepOk;
    CutOffFrame(s);
    CutOffTable(s, claim);
    CutOffControl(s, claim);
  }

  /** The cutoff freezes the request and touches the points and two flags. */
  lemma CutOffFrame(s: Scan)
    ensures var r := CutOff(s);
            && r == s.(phase := Complete, cutoffReached := true, boundary := r.boundary)
            && SameHeader(s.boundary, r.boundary)
  {
    hide Retain;
    if s.lastTracking.Some? {
      RetainHeader(s.boundary.(cutoffReached := true), s.lastTracking.value);
    }
  }

  lemma CutOffControl(s: Scan, claim: Claim)
    requires Control(s, claim) && !Ended(s)
    ensures Control(CutOff(s), claim)
  {
    hide TerminalTarget, ObservedPoint, CutOff;
    CutOffFrame(s);
    TargetFrame(s.boundary, CutOff(s).boundary);
  }

  lemma CutOffTable(s: Scan, claim: Claim)
    requires Inv(s, claim) && !Ended(s)
    ensures if IrregularLast(s) then Stranded(CutOff(s)) else TableOk(CutOff(s).boundary, s.normalBins, [], claim)
  {
    hide TerminalTarget, Retain, ObservedPoint, TableOk, Stored, Placed, ModePhase, SweepOk;
    var b := s.boundary.(cutoffReached := true);
    TableOfRunning(s, claim);
    MarkedTable(s.boundary, s.normalBins, claim);
    if s.lastTracking.Some? && !s.normalProbe {
      var p := s.lastTracking.value;
      RetainStores(b, p);
      if RegularCurrent(p.requestCurrentMa) {
        RetainEquilibriumKeeps(b, s.normalBins, p, claim);
      }
    }
  }

  lemma MarkedTable(b: Boundary, bins: Bins, claim: Claim)
    requires TableOk(b, bins, [], claim)
    ensures TableOk(b.(cutoffReached := true), bins, [], claim) && b.pointCount < MAX_BOUNDARY_POINTS
  {
    TableHasRoom(b, bins, claim);
    assert Stored(b.(cutoffReached := true)) == Stored(b);
  }

  // ---------------------------------------------------------------------------------------------
  // The update.

  lemma BaselineStepSteers(s: Scan, i: Input, claim: Claim)
    requires Control(s, claim) && s.phase.Baseline?
    ensures Steers(s, BaselineStep(s, i), claim)
  {
    hide AtTerminalTarget, ObservedPoint;
  }

  lemma FirstStageSteers(s: Scan, i: Input, claim: Claim)
    requires Control(s, claim) && s.phase.Preflight?
    ensures Steers(s, FirstStage(s, i), claim)
  {
    hide AtTerminalTarget, ObservedPoint;
  }

  lemma PreflightStepSteers(s: Scan, i: Input, claim: Claim)
    requires Control(s, claim) && s.phase.Preflight?
    ensures Steers(s, PreflightStep(s, i), claim)
  {
    hide AtTerminalTarget, ObservedPoint, PreflightMinVinMv, FirstStage, Steers;
    FirstStageSteers(s, i, claim);
    FailSteers(s, SupplyUnstable, claim);
    FirstReadingSteers(s, i, claim);
  }

  lemma FirstReadingSteers(s: Scan, i: Input, claim: Claim)
    requires Control(s, claim) && s.phase.Preflight?
    ensures Steers(s, s.(previous := Some(i), changedAtMs := i.nowMs), claim)
  {
    hide AtTerminalTarget, ObservedPoint;
  }

  lemma FailSteers(s: Scan, reason: Failure, claim: Claim)
    requires Control(s, claim) && !Ended(s)
    ensures Steers(s, Fail(s, reason), claim)
  {
    hide TerminalTarget, ObservedPoint;
  }

  lemma LowerSteers(s: Scan, i: Input, mv: u16, claim: Claim)
    requires Control(s, claim) && s.phase.ProbeRecovery?
    requires s.returnRequestMv <= mv <= s.requestMv && OnGrid(mv, claim)
    ensures Steers(s, Change(s, i, mv, s.returnCurrentMa), claim)
  {
    hide AtTerminalTarget, ObservedPoint;
  }

  lemma ResumeSteers(s: Scan, i: Input, claim: Claim)
    requires Control(s, claim) && s.phase.ProbeRecovery? && s.requestMv == s.returnRequestMv
    ensures Steers(s, s.(phase := Sweep, changedAtMs := i.nowMs), claim)
  {
    hide AtTerminalTarget, ObservedPoint;
  }

  lemma ProbeRecoveryStepSteers(s: Scan, i: Input, claim: Claim)
    requires Control(s, claim) && s.phase.ProbeRecovery?
    ensures Steers(s, ProbeRecoveryStep(s, i), claim)
  {
    hide AtTerminalTarget, ObservedPoint, RecoveryLoadSettled, Steers;
    HoldSteers(s, i, claim);
    if s.requestMv == s.returnRequestMv {
      ResumeSteers(s, i, claim);
    } else {
      LowerSteers(s, i, Max(SatSub(s.requestMv, PROBE_RECOVERY_STEP_MV), s.returnRequestMv), claim);
    }
  }

  lemma HoldSteers(s: Scan, i: Input, claim: Claim)
    requires Control(s, claim)
    ensures Steers(s, Hold(s, i), claim)
  {
    hide TerminalTarget, ObservedPoint;
  }

  lemma SourceBoundaryRecoveryStepSteers(s: Scan, i: Input, claim: Claim)
    requires Control(s, claim) && s.phase.SourceBoundaryRecovery?
    ensures Steers(s, SourceBoundaryRecoveryStep(s, i), claim)
  {
    hide TerminalTarget, ObservedPoint;
  }

  lemma HoldKeeps(s: Scan, i: Input, claim: Claim)
    requires Inv(s, claim)
    ensures Keeps(s, Hold(s, i), claim) && Keeps(s, s, claim)
  {
    hide TableOk, TerminalTarget, ObservedPoint;
  }

  lemma AdvanceKeeps(s: Scan, i: Input, claim: Claim)
    requires Inv(s, claim) && !Ended(s) && Usable(i, claim)
    ensures Keeps(s, Advance(s, i), claim)
  {
    hide Keeps, Control, TableOk, TerminalPoint, BaselineStep, PreflightStep, ProbeRecoveryStep,
         SourceBoundaryRecoveryStep, SweepStep, RapidWarmupStep, TerminalProbeStep, EquilibriumStep;
    HoldKeeps(s, i, claim);
    match s.phase {
      case Baseline =>
        BaselineStepSteers(s, i, claim);
        SteersKeeps(s, BaselineStep(s, i), claim);
      case Preflight =>
        PreflightStepSteers(s, i, claim);
        SteersKeeps(s, PreflightStep(s, i), claim);
      case ProbeRecovery =>
        ProbeRecoveryStepSteers(s, i, claim);
        SteersKeeps(s, ProbeRecoveryStep(s, i), claim);
      case SourceBoundaryRecovery =>
        SourceBoundaryRecoveryStepSteers(s, i, claim);
        SteersKeeps(s, SourceBoundaryRecoveryStep(s, i), claim);
      case Sweep => SweepStepKeeps(s, i, claim);
      case RapidWarmup => RapidWarmupStepKeeps(s, i, claim);
      case TerminalProbe => TerminalProbeStepKeeps(s, i, claim);
      case Equilibrium => EquilibriumStepKeeps(s, i, claim);
      case _ => NoIdlePhases(s, claim);
    }
  }

  lemma FailKeeps(s: Scan, reason: Failure, claim: Claim)
    requires Inv(s, claim) && !Ended(s)
    ensures Keeps(s, Fail(s, reason), claim)
  {
    hide TableOk, TerminalTarget, ObservedPoint;
  }

  lemma StageTimeoutKeeps(s: Scan, i: Input, claim: Claim)
    requires Inv(s, claim) && !Ended(s) && (s.phase.TerminalProbe? ==> s.requestMa >= 2_900 || claim.lax)
    ensures Keeps(s, HandleStageTimeout(s, i), claim)
  {
    hide TableOk, TerminalTarget, ObservedPoint, NextStage;
    FailKeeps(s, StageTimeout, claim);
    if s.requestMa < 3_000 {
      if s.phase.TerminalProbe? {
        AboveRange(s, claim);
      }
      NextStageSteers(s, i, claim);
      SteersKeeps(s, NextStage(s, i), claim);
    }
  }

  lemma ProbeBoundsKeep(s: Scan, i: Input, claim: Claim)
    requires Inv(s, claim) && !Ended(s)
    ensures s.normalProbe ==> Keeps(s, FinishNormalProbe(s, i), claim)
    ensures s.phase.Sweep? && s.requestMa < 3_000 ==> Keeps(s, BeginThreeAmpProbe(s, i), claim)
  {
    hide TableOk, TerminalTarget, ObservedPoint, FinishNormalProbe, BeginThreeAmpProbe;
    if s.normalProbe {
      if s.phase.TerminalProbe? {
        TerminalTargetFacts(s.boundary);
      }
      FinishNormalProbeSteers(s, i, claim);
      SteersKeeps(s, FinishNormalProbe(s, i), claim);
    }
    if s.phase.Sweep? && s.requestMa < 3_000 {
      BeginThreeAmpProbeSteers(s, i, claim);
      SteersKeeps(s, BeginThreeAmpProbe(s, i), claim);
    }
  }

  lemma SmoothedKeeps(s: Scan, i: Input, claim: Claim)
    requires Inv(s, claim)
    ensures Inv(Smoothed(s, i), claim)
  {
    hide TableOk, TerminalTarget, ObservedPoint, Smooth;
  }

  /** The guards of a running scan, then the settled step, keep the invariant. */
  lemma GuardedKeeps(t: Scan, i: Input, j: Input, claim: Claim)
    requires Inv(t, claim) && !Ended(t) && (claim.fit ==> WellFormedInput(i)) && (claim.lax || !TerminalEscape(t, i))
    requires j == i.(temperatureCentiC := j.temperatureCentiC)
    ensures Keeps(t, Guarded(t, i, j), claim)
  {
    hide Base, PhaseOk, Table, Advance, CutOff, FinishNormalProbe, HandleStageTimeout, BeginThreeAmpProbe, Keeps,
         ProbeBandClear;
    NoIdlePhases(t, claim);
    FailKeeps(t, WifiChanged, claim);
    FailKeeps(t, InvalidSample, claim);
    CutOffKeeps(t, claim);
    HoldKeeps(t, i, claim);
    ProbeBoundsKeep(t, i, claim);
    if !BadReading(i) {
      AdvanceKeeps(t, j, claim);
      if !t.phase.TerminalProbe? || t.requestMa >= 2_900 || claim.lax {
        StageTimeoutKeeps(t, i, claim);
      }
    }
  }

  /** Every update keeps the invariant, except the escape from a timed-out terminal probe. */
  lemma UpdateKeeps(s: Scan, i: Input, claim: Claim)
    requires Inv(s, claim) && (claim.fit ==> WellFormedInput(i)) && (claim.lax || !TerminalEscape(s, i))
    ensures Keeps(s, Update(s, i), claim)
  {
    hide Base, PhaseOk, Table, Guarded, Smooth;
    HoldKeeps(s, i, claim);
    if !Ended(s) {
      SmoothedKeeps(s, i, claim);
      GuardedKeeps(Smoothed(s, i), i, SmoothedInput(s, i), claim);
    }
  }

  lemma NoIdlePhases(s: Scan, claim: Claim)
    requires Inv(s, claim)
    ensures !s.phase.TemperatureSettle? && !s.phase.PreflightRecovery?
  {
  }
}
