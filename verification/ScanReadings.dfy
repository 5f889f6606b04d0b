/** Where the points come from: every point a scan holds, in its table, its bins or as its last tracking
    point, is one sample of the run, read under the request that was in force when it arrived. */
module ScanReadings {
  import opened Arithmetic
  import opened BoundaryData
  import EquilibriumBand
  import opened ScanModel
  import opened ScanTable

  datatype Reading = Reading(
    elapsedMs: u32, rtdCode: u16, rtdMv: u16, vinCode: u16, vinMv: u16, requestMa: u16, requestMv: u16)

  function ReadingOf(p: Point): Reading
  {
    Reading(p.elapsedMs, p.rtdCode, p.rtdMv, p.vinCode, p.vinMv, p.requestCurrentMa, p.trackingRequestMv)
  }

  /** What sample `i` shows under the request of `s`. */
  function Taken(s: Scan, i: Input): Reading
  {
    Reading(i.nowMs, i.rtdCode, i.rtdMv, i.vinCode, i.vinMv, s.requestMa, s.requestMv)
  }

  predicate InTable(b: Boundary, x: Reading)
  {
    exists k :: 0 <= k < |Stored(b)| && ReadingOf(Stored(b)[k]) == x
  }

  predicate InBins(bins: Bins, x: Reading)
  {
    exists k :: 0 <= k < BIN_COUNT && bins[k].Some? && ReadingOf(bins[k].value) == x
  }

  predicate IsLast(s: Scan, x: Reading) { s.lastTracking.Some? && ReadingOf(s.lastTracking.value) == x }

  predicate Held(s: Scan, x: Reading)
  {
    InTable(s.boundary, x) || InBins(s.normalBins, x) || IsLast(s, x)
  }

  /** Whatever `r` holds, `s` held or is the reading `x`. */
  ghost predicate Adds(s: Scan, r: Scan, x: Reading)
  {
    forall y :: Held(r, y) ==> Held(s, y) || y == x
  }

  /** Table and bins are untouched, and the last tracking point is gone, the same reading or `x`. */
  predicate OnlyLast(s: Scan, r: Scan, x: Reading)
  {
    && r.boundary == s.boundary && r.normalBins == s.normalBins
    && (r.lastTracking.Some? ==>
          ReadingOf(r.lastTracking.value) == x ||
          (s.lastTracking.Some? && ReadingOf(r.lastTracking.value) == ReadingOf(s.lastTracking.value)))
  }

  lemma OnlyLastAdds(s: Scan, r: Scan, x: Reading)
    requires OnlyLast(s, r, x)
    ensures Adds(s, r, x)
  {
    hide InTable, InBins;
  }

  // ---------------------------------------------------------------------------------------------
  // The table.

  lemma RetainAdds(b: Boundary, p: Point, y: Reading)
    requires InTable(Retain(b, p).boundary, y)
    ensures InTable(b, y) || y == ReadingOf(p)
  {
    hide ReplacedIndex;
    var r := Retain(b, p).boundary;
    var i := ReplacedIndex(Stored(b), p);
    var k :| 0 <= k < |Stored(r)| && ReadingOf(Stored(r)[k]) == y;
    if Stored(r)[k] != p {
      assert k < |Stored(b)| && Stored(b)[k] == Stored(r)[k];
    }
  }

  lemma {:induction false} EquilibriaFrom(s: seq<Point>, p: Point)
    requires p in Equilibria(s)
    ensures p in s
  {
    var n := |s| - 1;
    if p in Equilibria(s[..n]) {
      EquilibriaFrom(s[..n], p);
    }
  }

  lemma {:induction false} FilledFrom(bins: seq<Option<Point>>, p: Point)
    requires p in Filled(bins)
    ensures Some(p) in bins
  {
    var n := |bins| - 1;
    if p in Filled(bins[..n]) {
      FilledFrom(bins[..n], p);
    }
  }

  lemma {:induction false} RetainAllAdds(b: Boundary, s: seq<Point>, y: Reading)
    requires InTable(RetainAll(b, s), y)
    ensures InTable(b, y) || exists k :: 0 <= k < |s| && ReadingOf(s[k]) == y
  {
    hide InTable, Retain;
    if s != [] {
      var n := |s| - 1;
      RetainAdds(RetainAll(b, s[..n]), s[n], y);
      if y != ReadingOf(s[n]) {
        RetainAllAdds(b, s[..n], y);
        if !InTable(b, y) {
          var k :| 0 <= k < |s[..n]| && ReadingOf(s[..n][k]) == y;
          assert s[k] == s[..n][k];
        }
      }
    }
  }

  lemma RebuildAdds(b: Boundary, bins: Bins, y: Reading)
    requires InTable(RebuildNormalPoints(b, bins), y)
    ensures InTable(b, y) || InBins(bins, y)
  {
    var kept := Equilibria(Stored(b));
    var compact := b.(points := kept + b.points[|kept|..], pointCount := |kept|);
    assert Stored(compact) == kept;
    hide RetainAll, Equilibria, Filled;
    RetainAllAdds(compact, Filled(bins), y);
    if InTable(compact, y) {
      var k :| 0 <= k < |kept| && ReadingOf(kept[k]) == y;
      EquilibriaFrom(Stored(b), kept[k]);
      var j :| 0 <= j < |Stored(b)| && Stored(b)[j] == kept[k];
    } else {
      var k :| 0 <= k < |Filled(bins)| && ReadingOf(Filled(bins)[k]) == y;
      FilledFrom(bins, Filled(bins)[k]);
      var j :| 0 <= j < BIN_COUNT && bins[j] == Some(Filled(bins)[k]);
    }
  }

  lemma RetainNormalTrackingAdds(s: Scan, i: Input)
    ensures Adds(s, RetainNormalTracking(s, i), Taken(s, i))
    ensures var r := RetainNormalTracking(s, i); r == s.(boundary := r.boundary, normalBins := r.normalBins)
  {
    hide RebuildNormalPoints, InTable;
    var x, r := Taken(s, i), RetainNormalTracking(s, i);
    forall y | Held(r, y)
      ensures Held(s, y) || y == x
    {
      if InTable(r.boundary, y) && r.boundary != s.boundary {
        RebuildAdds(s.boundary, r.normalBins, y);
      }
      if InBins(r.normalBins, y) {
        var k :| 0 <= k < BIN_COUNT && r.normalBins[k].Some? && ReadingOf(r.normalBins[k].value) == y;
        assert r.normalBins[k] != s.normalBins[k] ==> y == x;
      }
    }
  }

  lemma RetainTrackingAdds(s: Scan, x: Reading)
    ensures Adds(s, RetainTracking(s), x)
  {
    hide Retain, InTable, InBins;
    forall y | Held(RetainTracking(s), y)
      ensures Held(s, y)
    {
      if s.lastTracking.Some? && InTable(RetainTracking(s).boundary, y) && !InTable(s.boundary, y) {
        RetainAdds(s.boundary, s.lastTracking.value, y);
      }
    }
  }

  lemma AddsThen(s: Scan, t: Scan, r: Scan, x: Reading)
    requires Adds(s, t, x) && Adds(t, r, x)
    ensures Adds(s, r, x)
  {
    hide Held;
  }

  // ---------------------------------------------------------------------------------------------
  // Handlers that leave the table alone.

  lemma RaiseOnly(s: Scan, i: Input, x: Reading)
    ensures OnlyLast(s, BeginEquilibrium(s, i), x) && OnlyLast(s, ProbeNextVoltage(s, i), x)
  {
    hide RapidProbeStepMv;
  }

  lemma ConfirmationOnly(s: Scan, i: Input, x: Reading)
    ensures OnlyLast(s, HandleFlatConfirmation(s, i), x) && OnlyLast(s, HandleAmbiguousConfirmation(s, i), x)
  {
    hide FlatBoundaryReady, BeginEquilibrium, ProbeNextVoltage;
    RaiseOnly(s.(flatCount := 0), i, x);
    RaiseOnly(s.(ambiguousCount := 0), i, x);
    var flat := s.(flatRequestMv := s.requestMv);
    RaiseOnly(flat, i, x);
    RaiseOnly(
      if s.lastTracking.None? then flat
      else flat.(lastTracking := Some(s.lastTracking.value.(flatRequestMv := s.requestMv))), i, x);
  }

  lemma StageOnly(s: Scan, i: Input, x: Reading)
    ensures OnlyLast(s, NextStage(s, i), x) && OnlyLast(s, HandleStageTimeout(s, i), x)
    ensures OnlyLast(s, FinishNormalProbe(s, i), x) && OnlyLast(s, BeginThreeAmpProbe(s, i), x)
    ensures OnlyLast(s, Hold(s, i), x) && forall reason :: OnlyLast(s, Fail(s, reason), x)
  {
  }

  lemma FallBackOnly(s: Scan, i: Input, x: Reading)
    ensures OnlyLast(s, BeginSourceBoundaryRecovery(s, i), x)
  {
    hide RecoveryRequestMv, ReadingOf;
  }

  lemma RecoveryOnly(s: Scan, i: Input, x: Reading)
    ensures OnlyLast(s, SourceBoundaryRecoveryStep(s, i), x) && OnlyLast(s, ProbeRecoveryStep(s, i), x)
  {
    hide RecoveryLoadSettled, ReadingOf, SettleMs;
  }

  lemma BaselineOnly(s: Scan, i: Input, x: Reading)
    ensures OnlyLast(s, BaselineStep(s, i), x) && OnlyLast(s, FirstStage(s, i), x)
  {
    hide ReadingOf;
  }

  lemma PreflightOnly(s: Scan, i: Input, x: Reading)
    ensures OnlyLast(s, PreflightStep(s, i), x)
  {
    hide ReadingOf, PreflightMinVinMv, FirstStage;
    BaselineOnly(s, i, x);
  }

  lemma IdleOnly(s: Scan, i: Input, x: Reading)
    ensures OnlyLast(s, PreflightRecoveryStep(s, i), x) && OnlyLast(s, TemperatureSettleStep(s, i), x)
  {
    hide PreflightMinVinMv, EquilibriumBand.Observe, ReadingOf;
  }

  lemma ReprobeOnly(s: Scan, i: Input)
    ensures OnlyLast(s, BeginRapidVoltageReprobe(s, i), Taken(s, i))
  {
    hide ReprobeRequestMv;
  }

  lemma TerminalOnly(s: Scan, i: Input, x: Reading)
    ensures OnlyLast(s, BeginTerminalProbeOrComplete(s, i), x) && OnlyLast(s, RetreatFromTerminal(s, i), x)
  {
    hide TerminalTarget, ReadingOf;
  }

  lemma DecisionOnly(s: Scan, i: Input)
    ensures OnlyLast(s, WarmupDecision(s, i), Taken(s, i))
  {
    hide AtHotBoundary, ReprobeDue, HotHoldReady, BeginTerminalProbeOrComplete, BeginRapidVoltageReprobe, OnlyLast,
         Hold;
    ReprobeOnly(s, i);
    TerminalOnly(s, i, Taken(s, i));
    StageOnly(s, i, Taken(s, i));
  }

  lemma FinishOnly(s: Scan, i: Input, x: Reading)
    ensures OnlyLast(s, FinishThreeAmpEquilibrium(s, i), x)
  {
    hide ProbeNextVoltage;
    RaiseOnly(
      s.(phase := Sweep, previous := None, lastTracking := None, flatCount := 0, ambiguousCount := 0,
         flatRequestMv := 0, equilibrium := EquilibriumBand.EMPTY_WINDOW), i, x);
  }

  // ---------------------------------------------------------------------------------------------
  // Whole steps.

  /** Steps that differ in counters, samples, times and phase only hold the same. */
  lemma SameHeld(s: Scan, t: Scan, r: Scan, x: Reading)
    requires t.boundary == s.boundary && t.normalBins == s.normalBins && t.lastTracking == s.lastTracking
    requires Adds(t, r, x)
    ensures Adds(s, r, x)
  {
    hide InTable, InBins;
  }

  lemma RecordAdds(s: Scan, i: Input)
    ensures Adds(s, RecordTracking(s, i), Taken(s, i))
    ensures var r := RecordTracking(s, i);
            r == s.(lastTracking := r.lastTracking, boundary := r.boundary, normalBins := r.normalBins)
  {
    hide RetainNormalTracking, Held;
    var t := s.(lastTracking := Some(PointOf(s, i)));
    assert OnlyLast(s, t, Taken(s, i));
    OnlyLastAdds(s, t, Taken(s, i));
    RetainNormalTrackingAdds(t, i);
    AddsThen(s, t, RetainNormalTracking(t, i), Taken(s, i));
  }

  lemma JudgeAdds(s: Scan, previous: Input, i: Input)
    ensures Adds(s, JudgeStep(s, previous, i), Taken(s, i))
  {
    hide RecordTracking, ProbeNextVoltage, HandleFlatConfirmation, HandleAmbiguousConfirmation, Classify, Adds,
         OnlyLast;
    var x := Taken(s, i);
    match Classify(s, previous, i) {
      case Tracking =>
        var r := RecordTracking(s, i);
        var t := r.(flatCount := 0, ambiguousCount := 0, previous := Some(i));
        RecordAdds(s, i);
        RaiseOnly(t, i, x);
        OnlyLastAdds(t, ProbeNextVoltage(t, i), x);
        SameHeld(r, t, ProbeNextVoltage(t, i), x);
        AddsThen(s, r, ProbeNextVoltage(t, i), x);
      case Ramp =>
        var t := s.(flatCount := 0, ambiguousCount := 0, previous := Some(i));
        RaiseOnly(t, i, x);
        OnlyLastAdds(t, ProbeNextVoltage(t, i), x);
        SameHeld(s, t, ProbeNextVoltage(t, i), x);
      case Flat =>
        var t := s.(flatCount := s.flatCount + 1, previous := Some(i));
        RaiseOnly(t, i, x);
        ConfirmationOnly(t, i, x);
        OnlyLastAdds(t, JudgeStep(s, previous, i), x);
        SameHeld(s, t, JudgeStep(s, previous, i), x);
      case Ambiguous =>
        var t := s.(ambiguousCount := SatAdd8(s.ambiguousCount, 1), previous := Some(i), changedAtMs := i.nowMs);
        ConfirmationOnly(t, i, x);
        Nothing(t, x);
        OnlyLastAdds(t, JudgeStep(s, previous, i), x);
        SameHeld(s, t, JudgeStep(s, previous, i), x);
    }
  }

  lemma Nothing(s: Scan, x: Reading)
    ensures OnlyLast(s, s, x) && Adds(s, s, x)
  {
  }

  lemma SweepAdds(s: Scan, i: Input)
    ensures Adds(s, SweepStep(s, i), Taken(s, i))
  {
    hide RecordTracking, ProbeNextVoltage, JudgeStep, VoltageTracksRequest, BeginSourceBoundaryRecovery, Adds, OnlyLast;
    var x := Taken(s, i);
    if s.previous.None? {
      var r := RecordTracking(s, i);
      var t := r.(previous := Some(i));
      RecordAdds(s, i);
      RaiseOnly(t, i, x);
      OnlyLastAdds(t, ProbeNextVoltage(t, i), x);
      SameHeld(r, t, ProbeNextVoltage(t, i), x);
      AddsThen(s, r, ProbeNextVoltage(t, i), x);
    } else if !RapidDiverts(s, i) {
      JudgeAdds(s, s.previous.value, i);
    } else {
      FallBackOnly(s, i, x);
      CeilingOnly(s, i, x);
      OnlyLastAdds(s, SweepStep(s, i), x);
    }
  }

  lemma CeilingOnly(s: Scan, i: Input, x: Reading)
    ensures OnlyLast(s, s.(phase := RapidWarmup, previous := Some(i), rapidTrackingConfirmations := 0,
                           lastRapidProbeCentiC := None, changedAtMs := i.nowMs), x)
  {
  }

  lemma WarmupAdds(s: Scan, i: Input)
    ensures Adds(s, RapidWarmupStep(s, i), Taken(s, i))
  {
    hide VoltageTracksRequest, RetainNormalTracking, WarmupDecision, BeginSourceBoundaryRecovery, Adds, OnlyLast;
    var x, c := Taken(s, i), WarmupConfirmation(s, i);
    FallBackOnly(s, i, x);
    StageOnly(s, i, x);
    StageOnly(c, i, x);
    OnlyLastAdds(s, Hold(s, i), x);
    OnlyLastAdds(s, BeginSourceBoundaryRecovery(s, i), x);
    OnlyLastAdds(c, Hold(c, i), x);
    SameHeld(s, c, Hold(c, i), x);
    var kept := RetainNormalTracking(c, i);
    RetainNormalTrackingAdds(c, i);
    SameHeld(s, c, kept, x);
    DecisionOnly(kept, i);
    OnlyLastAdds(kept, WarmupDecision(kept, i), x);
    AddsThen(s, kept, WarmupDecision(kept, i), x);
  }

  lemma TerminalAdds(s: Scan, i: Input)
    ensures Adds(s, TerminalProbeStep(s, i), Taken(s, i))
  {
    hide VoltageTracksRequest, Retain, RetreatFromTerminal, Adds, OnlyLast;
    var x := Taken(s, i);
    var t := s.(terminalProbeConfirmations := SatAdd8(s.terminalProbeConfirmations, 1));
    StageOnly(s, i, x);
    StageOnly(t, i, x);
    TerminalOnly(s, i, x);
    OnlyLastAdds(s, Hold(s, i), x);
    OnlyLastAdds(s, RetreatFromTerminal(s, i), x);
    OnlyLastAdds(t, Hold(t, i), x);
    SameHeld(s, t, Hold(t, i), x);
    TerminalPointAdds(s, i, t);
  }

  lemma TerminalPointAdds(s: Scan, i: Input, t: Scan)
    requires t == s.(terminalProbeConfirmations := t.terminalProbeConfirmations)
    ensures var kept := Retain(t.boundary, PointOf(t, i).(flatRequestMv := 0, trackingOnly := true)).boundary;
            && Adds(s, t.(boundary := kept, phase := Complete), Taken(s, i))
            && Adds(s, Fail(t.(boundary := kept), SupplyUnstable), Taken(s, i))
  {
    hide Retain, InTable, InBins;
    var p := PointOf(t, i).(flatRequestMv := 0, trackingOnly := true);
    forall y | InTable(Retain(t.boundary, p).boundary, y)
      ensures InTable(s.boundary, y) || y == Taken(s, i)
    {
      RetainAdds(t.boundary, p, y);
    }
  }

  lemma EquilibriumAdds(s: Scan, i: Input)
    ensures Adds(s, EquilibriumStep(s, i), Taken(s, i))
  {
    hide RetainTracking, FinishThreeAmpEquilibrium, BeginThreeAmpProbe, ProbeNextVoltage, EquilibriumBand.Observe, Adds,
         Held;
    var x := Taken(s, i);
    var seen := EquilibriumBand.Observe(s.equilibrium, i.nowMs, i.temperatureCentiC);
    var t := s.(equilibrium := seen.window);
    if seen.stable {
      var u := t.(lastTracking := Some(PointOf(t, i)));
      OnlyLastAdds(s, u, x);
      var kept := RetainTracking(u);
      RetainTrackingAdds(u, x);
      AddsThen(s, u, kept, x);
      FinishOnly(kept, i, x);
      StageOnly(kept, i, x);
      OnlyLastAdds(kept, EquilibriumStep(s, i), x);
      AddsThen(s, kept, EquilibriumStep(s, i), x);
    } else if s.previous.Some? && i.temperatureCentiC - s.previous.value.temperatureCentiC > 100 {
      var u := t.(phase := Sweep, previous := Some(i), flatCount := 0, flatRequestMv := 0,
                  equilibrium := EquilibriumBand.EMPTY_WINDOW);
      RaiseOnly(u, i, x);
      OnlyLastAdds(s, EquilibriumStep(s, i), x);
    } else {
      OnlyLastAdds(s, t, x);
    }
  }

  lemma AdvanceAdds(s: Scan, i: Input)
    ensures Adds(s, Advance(s, i), Taken(s, i))
  {
    hide BaselineStep, PreflightStep, ProbeRecoveryStep, SourceBoundaryRecoveryStep, SweepStep, RapidWarmupStep,
         TerminalProbeStep, EquilibriumStep, PreflightRecoveryStep, TemperatureSettleStep, Adds, OnlyLast;
    var x := Taken(s, i);
    StageOnly(s, i, x);
    OnlyLastAdds(s, Hold(s, i), x);
    Nothing(s, x);
    match s.phase {
      case Baseline =>
        BaselineOnly(s, i, x);
        OnlyLastAdds(s, BaselineStep(s, i), x);
      case Preflight =>
        PreflightOnly(s, i, x);
        OnlyLastAdds(s, PreflightStep(s, i), x);
      case PreflightRecovery =>
        IdleOnly(s, i, x);
        OnlyLastAdds(s, PreflightRecoveryStep(s, i), x);
      case ProbeRecovery =>
        RecoveryOnly(s, i, x);
        OnlyLastAdds(s, ProbeRecoveryStep(s, i), x);
      case SourceBoundaryRecovery =>
        RecoveryOnly(s, i, x);
        OnlyLastAdds(s, SourceBoundaryRecoveryStep(s, i), x);
      case Sweep => SweepAdds(s, i);
      case RapidWarmup => WarmupAdds(s, i);
      case TerminalProbe => TerminalAdds(s, i);
      case TemperatureSettle =>
        IdleOnly(s, i, x);
        OnlyLastAdds(s, TemperatureSettleStep(s, i), x);
      case Equilibrium => EquilibriumAdds(s, i);
      case Complete =>
      case Failed =>
    }
  }

  lemma CutOffAdds(s: Scan, x: Reading)
    ensures Adds(s, CutOff(s), x)
  {
    hide Retain, InBins;
    var marked := s.(cutoffReached := true, boundary := s.boundary.(cutoffReached := true));
    assert Stored(marked.boundary) == Stored(s.boundary);
    hide InTable;
    RetainTrackingAdds(marked, x);
    forall y | Held(CutOff(s), y)
      ensures Held(s, y) || y == x
    {
      assert Held(RetainTracking(marked), y);
      MarkedHolds(s, y);
    }
  }

  lemma MarkedHolds(s: Scan, y: Reading)
    ensures InTable(s.boundary.(cutoffReached := true), y) == InTable(s.boundary, y)
  {
    assert Stored(s.boundary.(cutoffReached := true)) == Stored(s.boundary);
  }

  /** One update holds nothing new but the reading of its own sample under the request in force. */
  lemma UpdateAdds(s: Scan, i: Input)
    ensures Adds(s, Update(s, i), Taken(s, i))
  {
    hide Advance, CutOff, FinishNormalProbe, HandleStageTimeout, BeginThreeAmpProbe, Smooth, CoverageProbeDue, Adds,
         ProbeTimedOut, StageTimedOut, BadReading, SettleMs, OnlyLast;
    var t, x := Smoothed(s, i), Taken(s, i);
    Nothing(s, x);
    Nothing(t, x);
    StageOnly(t, i, x);
    CutOffAdds(t, x);
    AdvanceAdds(t, SmoothedInput(s, i));
    if !Ended(s) {
      if !Adds(t, Update(s, i), x) {
        OnlyLastAdds(t, Update(s, i), x);
      }
      SameHeld(s, t, Update(s, i), x);
    }
  }

  // ---------------------------------------------------------------------------------------------
  // Whole runs.

  /** Some sample of the run shows exactly this, under the request then in force. */
  predicate Shown(s: Scan, h: seq<Input>, x: Reading)
  {
    exists k :: 0 <= k < |h| && Taken(After(s, h[..k]), h[k]) == x
  }

  lemma {:induction false} RunAdds(s: Scan, h: seq<Input>, x: Reading)
    requires Held(After(s, h), x)
    ensures Held(s, x) || Shown(s, h, x)
  {
    hide Update, Held, Taken;
    if h != [] {
      var n := |h| - 1;
      UpdateAdds(After(s, h[..n]), h[n]);
      if Held(After(s, h[..n]), x) {
        RunAdds(s, h[..n], x);
        if !Held(s, x) {
          var k :| 0 <= k < n && Taken(After(s, h[..n][..k]), h[..n][k]) == x;
          assert h[..n][..k] == h[..k];
        }
      }
    }
  }

  /** Every point that a run has stored or binned is one of its samples: time, both codes and both
      millivolts are those of the sample, and the request pair is the one in force when it arrived. */
  lemma PointsAreSamples(b: Boundary, mode: Mode, h: seq<Input>, p: Point) returns (k: nat)
    requires New(b, mode).Some?
    requires var s := After(New(b, mode).value, h);
             p in Stored(s.boundary) || Some(p) in s.normalBins || s.lastTracking == Some(p)
    ensures k < |h|
    ensures p.elapsedMs == h[k].nowMs && p.rtdCode == h[k].rtdCode && p.rtdMv == h[k].rtdMv
    ensures p.vinCode == h[k].vinCode && p.vinMv == h[k].vinMv
    ensures var atSample := After(New(b, mode).value, h[..k]);
            p.requestCurrentMa == atSample.requestMa && p.trackingRequestMv == atSample.requestMv
  {
    var start := New(b, mode).value;
    var s := After(start, h);
    HoldsPoint(s, p);
    NewHoldsNothing(b, mode, ReadingOf(p));
    hide After, New, Held;
    RunAdds(start, h, ReadingOf(p));
    k :| 0 <= k < |h| && Taken(After(start, h[..k]), h[k]) == ReadingOf(p);
  }

  lemma HoldsPoint(s: Scan, p: Point)
    requires p in Stored(s.boundary) || Some(p) in s.normalBins || s.lastTracking == Some(p)
    ensures Held(s, ReadingOf(p))
  {
    if p in Stored(s.boundary) {
      var k :| 0 <= k < |Stored(s.boundary)| && Stored(s.boundary)[k] == p;
    } else if Some(p) in s.normalBins {
      var k :| 0 <= k < BIN_COUNT && s.normalBins[k] == Some(p);
    }
  }

  lemma NewHoldsNothing(b: Boundary, mode: Mode, x: Reading)
    requires New(b, mode).Some?
    ensures !Held(New(b, mode).value, x)
  {
  }
}
