/** What one update does, phase by phase, in terms of the sample and the fields of the scan. Every
    threshold, step and limit of the source is written out here once more, independently of the
    handlers, and proved of the update as a whole. */
module ScanSteps {
  import opened Arithmetic
  import opened BoundaryData
  import EquilibriumBand
  import opened ScanModel
  import opened ScanTable
  import ScanShape
  import opened ScanSample
  import opened ScanBins

  // ---------------------------------------------------------------------------------------------
  // Vocabulary.

  /** 500 mV until a request has failed; then 100 mV close below the failed one, and close below the
      ceiling beyond it. */
  function RapidStepMv(s: Scan): u16
  {
    if !s.rapidBoundaryReached then 500
    else if s.rapidFailedProbeMv.None? then 100
    else
      var failed := s.rapidFailedProbeMv.value;
      if s.requestMv < failed then (if s.requestMv + 500 < failed then 500 else 100)
      else if s.requestMv + 500 >= s.boundary.sourceMaxMv then 100 else 500
  }

  function RaisedMv(s: Scan): u16
  {
    Min(s.requestMv + (if s.mode.Rapid? then RapidStepMv(s) else 100), s.boundary.sourceMaxMv)
  }

  /** The sample with its filtered temperature. */
  function At(s: Scan, i: Input): Input { i.(temperatureCentiC := Filtered(s, i)) }

  /** The request goes up by one step, and the sweep waits for it. Apart from the counts and what has been
      learnt nothing else changes. */
  predicate Raises(s: Scan, i: Input, r: Scan)
  {
    && r.previous == Some(At(s, i))
    && r == s.(phase := Sweep, requestMv := RaisedMv(s), changedAtMs := i.nowMs, previous := r.previous,
               flatCount := r.flatCount, ambiguousCount := r.ambiguousCount, flatRequestMv := r.flatRequestMv,
               equilibrium := r.equilibrium, lastTracking := r.lastTracking, boundary := r.boundary,
               normalBins := r.normalBins, stabilityCentiC := r.stabilityCentiC)
  }

  /** The request, the phase and everything known stay as they are; only the settle interval restarts, the
      filter moves on, and a count may go up. */
  predicate Waits(s: Scan, i: Input, r: Scan)
  {
    r == s.(changedAtMs := i.nowMs, stabilityCentiC := r.stabilityCentiC, previous := r.previous,
            ambiguousCount := r.ambiguousCount, rapidTrackingConfirmations := r.rapidTrackingConfirmations,
            lastRapidProbeCentiC := r.lastRapidProbeCentiC, terminalProbeConfirmations := r.terminalProbeConfirmations)
  }

  /** Nothing new is known of the source: no bin changes, and the last tracking point may only be cleared
      or marked with a flat voltage. */
  predicate LearnsNothing(s: Scan, r: Scan)
  {
    && r.normalBins == s.normalBins && r.boundary == s.boundary
    && (r.lastTracking.Some? ==>
          && s.lastTracking.Some?
          && r.lastTracking.value == s.lastTracking.value.(flatRequestMv := r.lastTracking.value.flatRequestMv))
  }

  /** The observation becomes the last tracking point, unless a probe ends at the ceiling with it, and is
      offered to its bin at 3 A. */
  predicate Learns(s: Scan, i: Input, r: Scan)
  {
    && r.normalBins == (if s.requestMa != 3_000 then s.normalBins
                        else Offer(s.normalBins, Some(Sighting(BinAt(Filtered(s, i)),
                                                               Observation(s, i).(trackingOnly := true)))))
    && if s.normalProbe && s.mode.Detailed? && s.requestMv >= s.boundary.sourceMaxMv
       then r.lastTracking.None? && r.phase.ProbeRecovery?
       else r.lastTracking == Some(Observation(s, i))
  }

  // ---------------------------------------------------------------------------------------------
  // The sweep.

  /** The sample is judged by the answer to its voltage step. */
  predicate Judged(s: Scan, i: Input)
  {
    && Observes(s, i) && s.phase.Sweep? && i.physicalPercent == 100 && s.previous.Some?
    && (s.mode.Rapid? ==> Holds(s, i) && s.requestMv < s.boundary.sourceMaxMv)
  }

  lemma JudgedUpdate(s: Scan, i: Input)
    requires Judged(s, i)
    ensures Update(s, i) == JudgeStep(Smoothed(s, i), s.previous.value, At(s, i))
  {
    hide Observes, Update, Advance, JudgeStep, VoltageTracksRequest, Filtered, Smooth, Holds;
    var t, j := Smoothed(s, i), At(s, i);
    ObservedUpdate(s, i);
    AdvanceMeans(t, j);
    HoldsMeans(t, j);
    FilterIrrelevant(s, i, i);
  }

  lemma RaiseMeans(s: Scan, i: Input)
    requires s.phase.Sweep? && s.requestMv < s.boundary.sourceMaxMv
    ensures ProbeNextVoltage(s, i) == s.(requestMv := RaisedMv(s), changedAtMs := i.nowMs)
  {
  }

  /** An answer counts as tracking exactly when the reading rose by 80 % of what the step should give;
      otherwise nothing is learnt from it. */
  lemma SweepLearns(s: Scan, i: Input)
    requires Judged(s, i)
    ensures var r := Update(s, i);
            if Follows(s, s.previous.value, i) then
              && Learns(s, i, r)
              && (s.requestMv < s.boundary.sourceMaxMv ==>
                    Raises(s, i, r) && r.flatCount == 0 && r.ambiguousCount == 0)
            else LearnsNothing(s, r)
  {
    hide Update, Observes, Classify, Follows, Drifts, Stalls, Holds, Filtered, Smooth;
    var t, p, j := Smoothed(s, i), s.previous.value, At(s, i);
    JudgedUpdate(s, i);
    FilterIrrelevant(s, i, p);
    AnswerMeans(t, p, j);
    if Follows(s, p, i) {
      RecordLearns(t, j);
      var u := RecordTracking(t, j).(flatCount := 0, ambiguousCount := 0, previous := Some(j));
      RaiseKeeps(u, j);
      if s.requestMv < s.boundary.sourceMaxMv {
        RaiseMeans(u, j);
      }
    } else {
      UnfollowedLearnsNothing(t, p, j);
    }
  }

  lemma RecordLearns(s: Scan, i: Input)
    ensures var r := RecordTracking(s, i);
            && r == s.(lastTracking := Some(Observation(s, i)), boundary := r.boundary, normalBins := r.normalBins)
            && r.normalBins == (if s.requestMa != 3_000 then s.normalBins
                                else Offer(s.normalBins, Some(Sighting(BinAt(i.temperatureCentiC),
                                                                       Observation(s, i).(trackingOnly := true)))))
            && r.boundary.sourceMaxMv == s.boundary.sourceMaxMv
  {
    hide RetainNormalTracking, Offer;
    ObservationMeans(s, i);
    RetainOffers(s.(lastTracking := Some(PointOf(s, i))), i);
    OfferNothing(s.normalBins);
    BinsKeepHeader(s.(lastTracking := Some(PointOf(s, i))), i);
  }

  lemma {:induction false} RetainAllKeepsHeader(b: Boundary, s: seq<Point>)
    ensures ScanShape.SameHeader(b, RetainAll(b, s))
  {
    if s != [] {
      RetainAllKeepsHeader(b, s[..|s| - 1]);
    }
  }

  lemma RaiseKeeps(s: Scan, i: Input)
    requires s.lastTracking.Some?
    ensures var r := ProbeNextVoltage(s, i);
            && r.normalBins == s.normalBins && r.boundary == s.boundary
            && if s.normalProbe && s.mode.Detailed? && s.requestMv >= s.boundary.sourceMaxMv
               then r.lastTracking.None? && r.phase.ProbeRecovery?
               else r.lastTracking == s.lastTracking
  {
  }

  lemma UnfollowedLearnsNothing(s: Scan, previous: Input, i: Input)
    requires !Classify(s, previous, i).Tracking?
    ensures LearnsNothing(s, JudgeStep(s, previous, i))
  {
    hide Classify, FlatBoundaryReady, ProbeNextVoltage, BeginEquilibrium, LearnsNothing;
    RaiseLearnsNothing(s.(flatCount := 0, ambiguousCount := 0, previous := Some(i)), i);
    var flat := s.(flatCount := s.flatCount + 1, previous := Some(i));
    RaiseLearnsNothing(flat, i);
    ConfirmationLearnsNothing(flat, i);
    var held := s.(ambiguousCount := SatAdd8(s.ambiguousCount, 1), previous := Some(i), changedAtMs := i.nowMs);
    ConfirmationLearnsNothing(held, i);
    SameKnowledge(s, held, held);
    SameKnowledge(s, held, JudgeStep(s, previous, i));
    SameKnowledge(s, flat, JudgeStep(s, previous, i));
    SameKnowledge(s, s.(flatCount := 0, ambiguousCount := 0, previous := Some(i)), JudgeStep(s, previous, i));
  }

  lemma RaiseLearnsNothing(s: Scan, i: Input)
    ensures LearnsNothing(s, ProbeNextVoltage(s, i)) && LearnsNothing(s, BeginEquilibrium(s, i))
  {
    hide RapidProbeStepMv, BeginEquilibrium;
    EquilibriumLearnsNothing(s, i);
  }

  lemma EquilibriumLearnsNothing(s: Scan, i: Input)
    ensures LearnsNothing(s, BeginEquilibrium(s, i))
  {
  }

  lemma ConfirmationLearnsNothing(s: Scan, i: Input)
    ensures LearnsNothing(s, HandleFlatConfirmation(s, i)) && LearnsNothing(s, HandleAmbiguousConfirmation(s, i))
  {
    hide FlatBoundaryReady, ProbeNextVoltage, BeginEquilibrium;
    RaiseLearnsNothing(s.(flatCount := 0), i);
    RaiseLearnsNothing(s.(ambiguousCount := 0), i);
    var flat := s.(flatRequestMv := s.requestMv);
    RaiseLearnsNothing(flat, i);
    RaiseLearnsNothing(
      if s.lastTracking.None? then flat
      else flat.(lastTracking := Some(s.lastTracking.value.(flatRequestMv := s.requestMv))), i);
  }

  lemma SameKnowledge(s: Scan, t: Scan, r: Scan)
    requires t.boundary == s.boundary && t.normalBins == s.normalBins && t.lastTracking == s.lastTracking
    ensures LearnsNothing(t, t) && (LearnsNothing(t, r) ==> LearnsNothing(s, r))
  {
  }

  /** A temperature that moved by more than a degree clears the counts and goes on to the next voltage. */
  lemma SweepRamps(s: Scan, i: Input)
    requires Judged(s, i) && s.requestMv < s.boundary.sourceMaxMv
    requires !Follows(s, s.previous.value, i) && Drifts(s.previous.value, Filtered(s, i))
    ensures var r := Update(s, i); Raises(s, i, r) && r.flatCount == 0 && r.ambiguousCount == 0
  {
    hide Update, Observes, Classify, Follows, Drifts, Stalls, Holds, Filtered, Smooth, ProbeNextVoltage;
    var t, p, j := Smoothed(s, i), s.previous.value, At(s, i);
    JudgedUpdate(s, i);
    FilterIrrelevant(s, i, p);
    AnswerMeans(t, p, j);
    RaiseMeans(t.(flatCount := 0, ambiguousCount := 0, previous := Some(j)), j);
  }

  /** A rise of at most 25 % of the step is counted flat; the sweep goes on until the second, or the fifth
      of a probe. */
  lemma SweepCountsFlat(s: Scan, i: Input)
    requires Judged(s, i) && s.requestMv < s.boundary.sourceMaxMv
    requires !Follows(s, s.previous.value, i) && !Drifts(s.previous.value, Filtered(s, i))
    requires Stalls(s, s.previous.value, i) && s.flatCount + 1 < (if s.normalProbe then 5 else 2)
    ensures var r := Update(s, i); Raises(s, i, r) && r.flatCount == s.flatCount + 1
  {
    hide Update, Observes, Classify, Follows, Drifts, Stalls, Holds, Filtered, Smooth, ProbeNextVoltage;
    var t, p, j := Smoothed(s, i), s.previous.value, At(s, i);
    JudgedUpdate(s, i);
    FilterIrrelevant(s, i, p);
    AnswerMeans(t, p, j);
    RaiseMeans(t.(flatCount := s.flatCount + 1, previous := Some(j)), j);
  }

  /** Anything between 25 and 80 % is ambiguous: the request is held, until the fifth, or the eighth of a
      probe. */
  lemma SweepHoldsAmbiguous(s: Scan, i: Input)
    requires Judged(s, i)
    requires !Follows(s, s.previous.value, i) && !Drifts(s.previous.value, Filtered(s, i))
    requires !Stalls(s, s.previous.value, i) && s.ambiguousCount + 1 < (if s.normalProbe then 8 else 5)
    ensures var r := Update(s, i);
            Waits(s, i, r) && r.ambiguousCount == s.ambiguousCount + 1 && r.previous == Some(At(s, i))
  {
    hide Update, Observes, Classify, Follows, Drifts, Stalls, Holds, Filtered, Smooth;
    var t, p, j := Smoothed(s, i), s.previous.value, At(s, i);
    JudgedUpdate(s, i);
    FilterIrrelevant(s, i, p);
    AnswerMeans(t, p, j);
  }

  /** The electrical boundary is bracketed: always in detailed mode; in rapid mode once the request is
      500 mV above the last tracking point, or sags by more than 5 % against it. */
  predicate Bracketed(s: Scan, i: Input)
  {
    || s.mode.Detailed?
    || (&& s.lastTracking.Some?
        && var p := s.lastTracking.value;
           || s.requestMv >= p.trackingRequestMv + 500
           || i.vinMv * p.trackingRequestMv * 100 < p.vinMv * s.requestMv * 95)
  }

  /** The sweep ends with the last tracking point, which `flat` marks: a probe unloads; a rapid scan holds
      its tracking voltage; a detailed one waits for balance 100 mV inside it. Without one it fails. */
  predicate Settles(s: Scan, i: Input, flat: u16, r: Scan)
  {
    if s.lastTracking.None? then r.phase.Failed? && r.failure == Some(AmbiguousResponse) && r.requestMv == s.requestMv
    else
      var mv := s.lastTracking.value.trackingRequestMv;
      if s.normalProbe then
        && r.phase.ProbeRecovery? && !r.normalProbe && r.requestMv == s.requestMv && r.requestMa == s.returnCurrentMa
        && r.stageStartedMs == i.nowMs && r.changedAtMs == i.nowMs
      else
        && r.requestMa == s.requestMa && r.flatRequestMv == flat && r.changedAtMs == i.nowMs
        && if s.mode.Rapid? then r.phase.RapidWarmup? && r.requestMv == mv && r.lastRapidProbeCentiC.None?
           else && r.phase.Equilibrium? && r.equilibrium == EquilibriumBand.EMPTY_WINDOW
                && r.requestMv == Max(mv - 100, s.boundary.sourceMinMv)
  }

  lemma SettlesMeans(s: Scan, i: Input)
    ensures Settles(s, i, s.flatRequestMv, BeginEquilibrium(s, i))
  {
  }

  lemma BracketedMeans(s: Scan, i: Input)
    ensures FlatBoundaryReady(s, i) <==> Bracketed(s, i)
  {
  }

  /** The second flat answer, or the fifth of a probe, ends the sweep at a bracketed boundary and marks the
      last tracking point with the flat voltage. */
  lemma SweepConfirmsFlat(s: Scan, i: Input)
    requires Judged(s, i)
    requires !Follows(s, s.previous.value, i) && !Drifts(s.previous.value, Filtered(s, i))
    requires Stalls(s, s.previous.value, i) && s.flatCount + 1 >= (if s.normalProbe then 5 else 2)
    ensures var r := Update(s, i);
            if Bracketed(s, i) then
              && Settles(s, i, s.requestMv, r)
              && (r.lastTracking.Some? ==> r.lastTracking.value.flatRequestMv == s.requestMv)
            else Raises(s, i, r) && r.flatCount == 0
  {
    hide Update, Observes, Classify, Follows, Drifts, Stalls, Holds, Filtered, Smooth, ProbeNextVoltage,
         HandleFlatConfirmation;
    var t, p, j := Smoothed(s, i), s.previous.value, At(s, i);
    JudgedUpdate(s, i);
    FilterIrrelevant(s, i, p);
    AnswerMeans(t, p, j);
    var counted := t.(flatCount := s.flatCount + 1, previous := Some(j));
    FlatMeans(counted, j);
    if !Bracketed(s, i) {
      RaiseMeans(counted.(flatCount := 0), j);
    }
  }

  lemma FlatMeans(s: Scan, i: Input)
    ensures var r := HandleFlatConfirmation(s, i);
            if Bracketed(s, i) then
              && Settles(s, i, s.requestMv, r)
              && (r.lastTracking.Some? ==> r.lastTracking.value.flatRequestMv == s.requestMv)
            else r == ProbeNextVoltage(s.(flatCount := 0), i)
  {
    hide ProbeNextVoltage, BeginEquilibrium, FlatBoundaryReady;
    BracketedMeans(s, i);
    var flat := s.(flatRequestMv := s.requestMv);
    var marked := if s.lastTracking.None? then flat
                  else flat.(lastTracking := Some(s.lastTracking.value.(flatRequestMv := s.requestMv)));
    SettlesMeans(marked, i);
    MarkKept(marked, i);
  }

  lemma MarkKept(s: Scan, i: Input)
    ensures var r := BeginEquilibrium(s, i); r.lastTracking.Some? ==> r.lastTracking == s.lastTracking
  {
  }

  /** The fifth ambiguous answer, or the eighth of a probe, is taken for flat on the safe side. */
  lemma SweepConfirmsAmbiguous(s: Scan, i: Input)
    requires Judged(s, i)
    requires !Follows(s, s.previous.value, i) && !Drifts(s.previous.value, Filtered(s, i))
    requires !Stalls(s, s.previous.value, i) && s.ambiguousCount + 1 >= (if s.normalProbe then 8 else 5)
    ensures var r := Update(s, i);
            if Bracketed(s, i) then Settles(s, i, s.requestMv, r)
            else Raises(s, i, r) && r.ambiguousCount == 0
  {
    hide Update, Observes, Classify, Follows, Drifts, Stalls, Holds, Filtered, Smooth, ProbeNextVoltage,
         BeginEquilibrium, FlatBoundaryReady;
    var t, p, j := Smoothed(s, i), s.previous.value, At(s, i);
    JudgedUpdate(s, i);
    FilterIrrelevant(s, i, p);
    AnswerMeans(t, p, j);
    var held := t.(ambiguousCount := SatAdd8(s.ambiguousCount, 1), previous := Some(j), changedAtMs := j.nowMs);
    BracketedMeans(held, j);
    SettlesMeans(held.(flatRequestMv := s.requestMv), j);
    if !Bracketed(s, i) {
      RaiseMeans(held.(ambiguousCount := 0), j);
    }
  }

  /** The first sample of a stage is a tracking observation, and the request goes up. */
  lemma SweepOpens(s: Scan, i: Input)
    requires Observes(s, i) && s.phase.Sweep? && i.physicalPercent == 100 && s.previous.None?
    ensures Learns(s, i, Update(s, i))
    ensures s.requestMv < s.boundary.sourceMaxMv ==>
              Raises(s, i, Update(s, i)) && Update(s, i).flatCount == s.flatCount
  {
    hide Update, Observes, Advance, Filtered, Smooth, ProbeNextVoltage, RecordTracking;
    var t, j := Smoothed(s, i), At(s, i);
    ObservedUpdate(s, i);
    AdvanceMeans(t, j);
    FilterIrrelevant(s, i, i);
    RecordLearns(t, j);
    var u := RecordTracking(t, j).(previous := Some(j));
    RaiseKeeps(u, j);
    if s.requestMv < s.boundary.sourceMaxMv {
      RaiseMeans(u, j);
    }
  }

  /** At full settle but without full load a heated phase waits. */
  lemma LoadMissing(s: Scan, i: Input)
    requires Observes(s, i) && i.physicalPercent != 100
    requires s.phase.Sweep? || s.phase.RapidWarmup? || s.phase.TerminalProbe? || s.phase.Equilibrium?
    ensures Waits(s, i, Update(s, i))
  {
    hide Update, Observes, Advance, Filtered, Smooth;
    ObservedUpdate(s, i);
    AdvanceMeans(Smoothed(s, i), At(s, i));
  }

  // ---------------------------------------------------------------------------------------------
  // Rapid mode.

  /** Where a failed request falls back to: at least 500 mV down, and no higher than the last tracking point
      below it or else the strongest stored one of its current, but never below the range. */
  predicate FallBackMv(s: Scan, mv: u16)
  {
    var coarse := Max(SatSub(s.requestMv, 500), s.boundary.sourceMinMv);
    if s.lastTracking.Some? && s.lastTracking.value.trackingRequestMv < s.requestMv
    then mv == Max(Min(s.lastTracking.value.trackingRequestMv, coarse), s.boundary.sourceMinMv)
    else if forall p :: p in Stored(s.boundary) && p.requestCurrentMa == s.requestMa ==>
                          p.trackingRequestMv >= s.requestMv
    then mv == coarse
    else exists p :: && p in Stored(s.boundary) && p.requestCurrentMa == s.requestMa
                     && p.trackingRequestMv < s.requestMv
                     && (forall q :: q in Stored(s.boundary) && q.requestCurrentMa == s.requestMa &&
                                     q.trackingRequestMv < s.requestMv ==>
                                       q.trackingRequestMv <= p.trackingRequestMv)
                     && mv == Max(Min(p.trackingRequestMv, coarse), s.boundary.sourceMinMv)
  }

  /** A sagging request is left for its fall-back at the same current, and counted as a failure at 100 C or
      more; without anywhere to fall back to the scan fails. */
  ghost predicate FallsBack(s: Scan, i: Input, r: Scan)
  {
    && FallBackMv(s, r.returnRequestMv)
    && if r.returnRequestMv >= s.requestMv then
         r.phase.Failed? && r.failure == Some(SupplyUnstable) && r.requestMv == s.requestMv
       else
         && r.phase.SourceBoundaryRecovery? && r.requestMv == r.returnRequestMv && r.requestMa == s.requestMa
         && r.changedAtMs == i.nowMs && !r.normalProbe && r.lastTracking.None?
         && r.rapidBoundaryReached && r.rapidFailedProbeMv == Some(s.requestMv)
         && r.hotBoundaryReached == (Filtered(s, i) >= 10_000)
         && r.rapidFailedProbeCount == (if Filtered(s, i) >= 10_000 then Min(s.rapidFailedProbeCount + 1, 255) else 0)
  }

  lemma FallBackMeans(s: Scan)
    requires s.mode.Rapid?
    ensures FallBackMv(s, RecoveryRequestMv(s))
  {
    hide StrongestBelow;
    var best := StrongestBelow(Stored(s.boundary), s.requestMa, s.requestMv);
    if best.Some? {
      assert best.value in Stored(s.boundary);
    }
    forall q | q in Stored(s.boundary) && q.requestCurrentMa == s.requestMa && q.trackingRequestMv < s.requestMv
      ensures best.Some? && q.trackingRequestMv <= best.value.trackingRequestMv
    {
      var k :| 0 <= k < |Stored(s.boundary)| && Stored(s.boundary)[k] == q;
    }
  }

  lemma RecoveryMeans(s: Scan, i: Input)
    requires s.mode.Rapid?
    ensures var r := BeginSourceBoundaryRecovery(s, i);
            && r.returnRequestMv == RecoveryRequestMv(s)
            && if r.returnRequestMv >= s.requestMv then
                 r.phase.Failed? && r.failure == Some(SupplyUnstable) && r.requestMv == s.requestMv
               else
                 && r.phase.SourceBoundaryRecovery? && r.requestMv == r.returnRequestMv && r.requestMa == s.requestMa
                 && r.changedAtMs == i.nowMs && !r.normalProbe && r.lastTracking.None?
                 && r.rapidBoundaryReached && r.rapidFailedProbeMv == Some(s.requestMv)
                 && r.hotBoundaryReached == (i.temperatureCentiC >= 10_000)
                 && r.rapidFailedProbeCount ==
                    (if i.temperatureCentiC >= 10_000 then Min(s.rapidFailedProbeCount + 1, 255) else 0)
  {
    hide RecoveryRequestMv;
  }

  /** A rapid sweep or warm-up that sags falls back, whatever the step gave. */
  lemma RapidSags(s: Scan, i: Input)
    requires Observes(s, i) && s.mode.Rapid? && i.physicalPercent == 100 && !Holds(s, i)
    requires (s.phase.Sweep? && s.previous.Some?) || s.phase.RapidWarmup?
    ensures FallsBack(s, i, Update(s, i))
  {
    hide Update, Observes, Advance, Filtered, Smooth, Holds, VoltageTracksRequest, BeginSourceBoundaryRecovery,
         JudgeStep, RecoveryRequestMv, FallBackMv;
    var t, j := Smoothed(s, i), At(s, i);
    assert j.confirmed by {
      ConfirmedSample(s, i);
    }
    ObservedUpdate(s, i);
    AdvanceMeans(t, j);
    FilterIrrelevant(s, i, i);
    HoldsMeans(t, j);
    RecoveryMeans(t, j);
    FallBackMeans(t);
    SameFallBack(s, t);
  }

  lemma ConfirmedSample(s: Scan, i: Input)
    requires Observes(s, i)
    ensures i.confirmed
  {
  }

  lemma SameFallBack(s: Scan, t: Scan)
    requires t == s.(stabilityCentiC := t.stabilityCentiC)
    ensures forall mv :: FallBackMv(t, mv) <==> FallBackMv(s, mv)
  {
  }

  /** At the ceiling a rapid sweep that holds is left to the warm-up. */
  lemma RapidCeiling(s: Scan, i: Input)
    requires Observes(s, i) && s.mode.Rapid? && s.phase.Sweep? && s.previous.Some? && i.physicalPercent == 100
    requires Holds(s, i) && s.requestMv >= s.boundary.sourceMaxMv
    ensures var r := Update(s, i);
            && r.phase.RapidWarmup? && r.requestMv == s.requestMv && r.requestMa == s.requestMa
            && r.rapidTrackingConfirmations == 0 && r.lastRapidProbeCentiC.None? && LearnsNothing(s, r)
  {
    hide Update, Observes, Advance, Filtered, Smooth, Holds, VoltageTracksRequest, BeginSourceBoundaryRecovery,
         JudgeStep;
    var t, j := Smoothed(s, i), At(s, i);
    ObservedUpdate(s, i);
    AdvanceMeans(t, j);
    FilterIrrelevant(s, i, i);
    HoldsMeans(t, j);
  }

  // The warm-up.

  /** The temperature the present ten-degree interval started from. */
  function IntervalStart(s: Scan, i: Input): i16
  {
    if s.lastRapidProbeCentiC.Some? then s.lastRapidProbeCentiC.value else Filtered(s, i)
  }

  predicate TenDegreesOn(s: Scan, i: Input) { Filtered(s, i) - IntervalStart(s, i) >= 1_000 }

  predicate HotBoundary(s: Scan, i: Input) { s.hotBoundaryReached && Filtered(s, i) >= 10_000 }

  /** Two failures at 100 C or more: the ceiling of the source is known. */
  predicate CeilingKnown(s: Scan, i: Input) { HotBoundary(s, i) && s.rapidFailedProbeCount >= 2 }

  /** A failed request above is tried again while hot. Below the ceiling the request is also raised after ten
      degrees, and after a failure at once for the first time or when the failed voltage holds again. */
  predicate TriesHigher(s: Scan, i: Input)
  {
    || (HotBoundary(s, i) && s.rapidFailedProbeMv.Some? && s.requestMv < s.rapidFailedProbeMv.value)
    || (&& s.requestMv < s.boundary.sourceMaxMv
        && (|| TenDegreesOn(s, i)
            || (s.rapidBoundaryReached && !s.rapidProbeSinceBoundary)
            || (s.rapidBoundaryReached && s.rapidFailedProbeMv.Some? && s.requestMv >= s.rapidFailedProbeMv.value)))
  }

  /** At the ceiling, ten degrees on and at 100 C or more, the scan is done at 3 A. */
  predicate CeilingHeld(s: Scan, i: Input)
  {
    Filtered(s, i) >= 10_000 && s.requestMv >= s.boundary.sourceMaxMv && TenDegreesOn(s, i)
  }

  /** The failed voltage if it is at most 500 mV above, else one step up; never above the ceiling. */
  function HigherMv(s: Scan): int
  {
    var next :=
      if s.rapidFailedProbeMv.Some? && s.requestMv < s.rapidFailedProbeMv.value <= s.requestMv + 500
      then s.rapidFailedProbeMv.value else s.requestMv + RapidStepMv(s);
    Min(next, s.boundary.sourceMaxMv)
  }

  /** The next voltage is probed at 3 A from this observation, or the scan is complete if there is none. */
  predicate Reprobes(s: Scan, i: Input, r: Scan)
  {
    if HigherMv(s) <= s.requestMv then r.phase.Complete? && r.requestMv == s.requestMv && r.requestMa == s.requestMa
    else
      && r.phase.Sweep? && r.requestMv == HigherMv(s) && r.requestMa == 3_000
      && r.lastTracking == Some(Observation(s, i).(trackingOnly := false)) && !r.normalProbe
      && r.stageStartedMs == i.nowMs && r.changedAtMs == i.nowMs && r.rapidProbeSinceBoundary
      && r.lastRapidProbeCentiC == Some(Filtered(s, i))
      && r.flatCount == 0 && r.ambiguousCount == 0 && r.flatRequestMv == 0
  }

  /** The advertised ceiling, at most 21 V and on the grid, if it lies above the 3 A range and the power limit
      allows 1 A there. */
  predicate TerminalPair(b: Boundary, mv: u16, ma: u16)
  {
    && mv == Min(b.advertisedMaxMv, 21_000) - Min(b.advertisedMaxMv, 21_000) % 100 && mv > b.sourceMaxMv
    && TerminalTrackingCurrentMa(b.sourcePowerLimitMw, mv) == Some(ma)
  }

  /** The scan goes to its terminal pair, or is complete if there is none. */
  predicate Finishes(s: Scan, i: Input, r: Scan)
  {
    || (&& r.phase.TerminalProbe? && TerminalPair(s.boundary, r.requestMv, r.requestMa)
        && r.terminalProbeConfirmations == 0 && r.stageStartedMs == i.nowMs && r.changedAtMs == i.nowMs)
    || (&& r.phase.Complete? && r.requestMv == s.requestMv && r.requestMa == s.requestMa
        && forall mv: u16, ma: u16 :: !TerminalPair(s.boundary, mv, ma))
  }

  /** The first sample of a warm-up that holds is counted, and the next one awaited. */
  lemma WarmupCounts(s: Scan, i: Input)
    requires Observes(s, i) && s.phase.RapidWarmup? && i.physicalPercent == 100 && Holds(s, i)
    requires s.rapidTrackingConfirmations == 0
    ensures var r := Update(s, i);
            Waits(s, i, r) && r.rapidTrackingConfirmations == 1 && r.lastRapidProbeCentiC == Some(IntervalStart(s, i))
  {
    hide Update, Observes, Advance, Filtered, Smooth, Holds, VoltageTracksRequest, BeginSourceBoundaryRecovery,
         RetainNormalTracking, WarmupDecision;
    var t, j := Smoothed(s, i), At(s, i);
    ConfirmedSample(s, i);
    ObservedUpdate(s, i);
    AdvanceMeans(t, j);
    FilterIrrelevant(s, i, i);
    HoldsMeans(t, j);
  }

  /** A further one is offered to its bin and decides how to go on: finish at a known or held ceiling, try
      higher, or wait. */
  lemma WarmupDecides(s: Scan, i: Input)
    requires Observes(s, i) && s.phase.RapidWarmup? && i.physicalPercent == 100 && Holds(s, i)
    requires s.rapidTrackingConfirmations >= 1
    ensures var r := Update(s, i);
            && r.normalBins == (if s.requestMa != 3_000 then s.normalBins
                                else Offer(s.normalBins, Some(Sighting(BinAt(Filtered(s, i)),
                                                                       Observation(s, i).(trackingOnly := true)))))
            && if CeilingKnown(s, i) then Finishes(s, i, r)
               else if TriesHigher(s, i) then Reprobes(s, i, r)
               else if CeilingHeld(s, i) then Finishes(s, i, r)
               else r.phase.RapidWarmup? && r.requestMv == s.requestMv && r.requestMa == s.requestMa &&
                    r.changedAtMs == i.nowMs && r.lastTracking == s.lastTracking
  {
    hide Update, Observes, Advance, Filtered, Smooth, Holds, VoltageTracksRequest, BeginSourceBoundaryRecovery,
         RetainNormalTracking, WarmupDecision, Offer, Finishes, Reprobes, CeilingKnown, TriesHigher, CeilingHeld;
    var t, j := Smoothed(s, i), At(s, i);
    ConfirmedSample(s, i);
    ObservedUpdate(s, i);
    AdvanceMeans(t, j);
    FilterIrrelevant(s, i, i);
    HoldsMeans(t, j);
    var c := WarmupConfirmation(t, j);
    RetainOffers(c, j);
    OfferNothing(s.normalBins);
    var kept := RetainNormalTracking(c, j);
    BinsKeepHeader(c, j);
    DecisionMeans(s, i, kept);
  }

  lemma BinsKeepHeader(s: Scan, i: Input)
    ensures var r := RetainNormalTracking(s, i);
            r == s.(boundary := r.boundary, normalBins := r.normalBins) && ScanShape.SameHeader(s.boundary, r.boundary)
  {
    hide RebuildNormalPoints;
    RebuildKeepsHeader(s.boundary, RetainNormalTracking(s, i).normalBins);
  }

  lemma RebuildKeepsHeader(b: Boundary, bins: Bins)
    ensures ScanShape.SameHeader(b, RebuildNormalPoints(b, bins))
  {
    hide Equilibria, Filled, RetainAll;
    var kept := Equilibria(Stored(b));
    RetainAllKeepsHeader(b.(points := kept + b.points[|kept|..], pointCount := |kept|), Filled(bins));
  }

  /** The decision of the model on a state that differs from `s` in what the sample itself changed. */
  lemma DecisionMeans(s: Scan, i: Input, kept: Scan)
    requires s.phase.RapidWarmup? && ScanShape.SameHeader(s.boundary, kept.boundary)
    requires kept == s.(stabilityCentiC := kept.stabilityCentiC, boundary := kept.boundary,
                        normalBins := kept.normalBins, lastRapidProbeCentiC := Some(IntervalStart(s, i)),
                        rapidTrackingConfirmations := kept.rapidTrackingConfirmations)
    ensures var r := WarmupDecision(kept, At(s, i));
            && r.normalBins == kept.normalBins
            && if CeilingKnown(s, i) then Finishes(s, i, r)
               else if TriesHigher(s, i) then Reprobes(s, i, r)
               else if CeilingHeld(s, i) then Finishes(s, i, r)
               else r.phase.RapidWarmup? && r.requestMv == s.requestMv && r.requestMa == s.requestMa &&
                    r.changedAtMs == i.nowMs && r.lastTracking == s.lastTracking
  {
    hide Filtered, BeginTerminalProbeOrComplete, BeginRapidVoltageReprobe, Finishes, Reprobes;
    var j := At(s, i);
    FinishMeans(s, i, kept);
    ReprobeMeans(s, i, kept);
  }

  lemma FinishMeans(s: Scan, i: Input, kept: Scan)
    requires ScanShape.SameHeader(s.boundary, kept.boundary)
    requires kept.requestMv == s.requestMv && kept.requestMa == s.requestMa
    ensures Finishes(s, i, BeginTerminalProbeOrComplete(kept, At(s, i)))
  {
    hide Filtered, TerminalTrackingCurrentMa;
  }

  lemma ReprobeMeans(s: Scan, i: Input, kept: Scan)
    requires ScanShape.SameHeader(s.boundary, kept.boundary)
    requires kept == s.(stabilityCentiC := kept.stabilityCentiC, boundary := kept.boundary,
                        normalBins := kept.normalBins, lastRapidProbeCentiC := kept.lastRapidProbeCentiC,
                        rapidTrackingConfirmations := kept.rapidTrackingConfirmations)
    ensures Reprobes(s, i, BeginRapidVoltageReprobe(kept, At(s, i)))
  {
    hide Filtered, RapidStepMv, RapidProbeStepMv;
    assert RapidProbeStepMv(kept) == RapidStepMv(s) by {
      StepMeans(s, kept);
    }
  }

  lemma StepMeans(s: Scan, kept: Scan)
    requires kept.boundary.sourceMaxMv == s.boundary.sourceMaxMv && kept.requestMv == s.requestMv
    requires kept.rapidBoundaryReached == s.rapidBoundaryReached && kept.rapidFailedProbeMv == s.rapidFailedProbeMv
    ensures RapidProbeStepMv(kept) == RapidStepMv(s)
  {
  }

  // The terminal probe.

  /** A terminal request that sags goes back to the ceiling of the 3 A range. */
  lemma TerminalSags(s: Scan, i: Input)
    requires Observes(s, i) && s.phase.TerminalProbe? && i.physicalPercent == 100 && !Holds(s, i)
    ensures var r := Update(s, i);
            && r.phase.SourceBoundaryRecovery? && r.requestMv == s.boundary.sourceMaxMv && r.requestMa == 3_000
            && r.returnRequestMv == s.boundary.sourceMaxMv && r.returnCurrentMa == 3_000
            && r.terminalProbeConfirmations == 0 && r.lastRapidProbeCentiC == Some(Filtered(s, i))
            && r.changedAtMs == i.nowMs && r.boundary == s.boundary && r.normalBins == s.normalBins
  {
    hide Update, Observes, Advance, Filtered, Smooth, Holds, VoltageTracksRequest, Retain;
    var t, j := Smoothed(s, i), At(s, i);
    ConfirmedSample(s, i);
    ObservedUpdate(s, i);
    AdvanceMeans(t, j);
    FilterIrrelevant(s, i, i);
    HoldsMeans(t, j);
  }

  /** The first sample that holds is counted; the second is stored as a tracking-only point under the
      terminal request, and completes the scan. */
  lemma TerminalConfirms(s: Scan, i: Input)
    requires Observes(s, i) && s.phase.TerminalProbe? && i.physicalPercent == 100 && Holds(s, i)
    ensures var r := Update(s, i);
            if s.terminalProbeConfirmations == 0 then Waits(s, i, r) && r.terminalProbeConfirmations == 1
            else
              var p := Observation(s, i).(flatRequestMv := 0, trackingOnly := true);
              && r.requestMv == s.requestMv && r.requestMa == s.requestMa && r.normalBins == s.normalBins
              && (if s.boundary.pointCount < 41 then r.phase.Complete? && p in Stored(r.boundary)
                  else r.phase.Failed? && r.failure == Some(SupplyUnstable))
  {
    hide Update, Observes, Advance, Filtered, Smooth, Holds, VoltageTracksRequest, Retain, Stored;
    var t, j := Smoothed(s, i), At(s, i);
    ConfirmedSample(s, i);
    ObservedUpdate(s, i);
    AdvanceMeans(t, j);
    FilterIrrelevant(s, i, i);
    HoldsMeans(t, j);
    var p := Observation(s, i).(flatRequestMv := 0, trackingOnly := true);
    ObservationMeans(t.(terminalProbeConfirmations := SatAdd8(s.terminalProbeConfirmations, 1)), j);
    RetainTrackingMeans(s.boundary, p);
  }

  lemma RetainTrackingMeans(b: Boundary, p: Point)
    requires p.trackingOnly
    ensures Retain(b, p).accepted <==> b.pointCount < 41
    ensures b.pointCount < 41 ==> p in Stored(Retain(b, p).boundary)
  {
    if b.pointCount < 41 {
      RetainStores(b, p);
    }
  }

  // ---------------------------------------------------------------------------------------------
  // Detailed mode.

  /** A 3 A probe starts at the present voltage, which it will return to. */
  predicate StartsProbe(s: Scan, centiC: i16, nowMs: u32, returnMa: int, r: Scan)
  {
    && r.phase.Sweep? && r.normalProbe && r.requestMa == 3_000
    && r.requestMv == Max(s.requestMv, s.boundary.sourceMinMv) && r.returnRequestMv == r.requestMv
    && r.returnCurrentMa == returnMa && r.lastNormalProbeCentiC == Some(centiC)
    && r.normalProbeStartedMs == nowMs && r.stageStartedMs == nowMs && r.changedAtMs == nowMs
    && r.previous.None? && r.lastTracking.None? && r.flatCount == 0 && r.ambiguousCount == 0
  }

  /** The next stage is 100 mA higher, at most 3 A, from the lowest voltage. */
  predicate SkipsStage(s: Scan, nowMs: u32, r: Scan)
  {
    && r.phase.Sweep? && !r.normalProbe && r.requestMv == s.boundary.sourceMinMv
    && r.requestMa == Min(s.requestMa + 100, 3_000)
    && r.stageStartedMs == nowMs && r.changedAtMs == nowMs
    && r.previous.None? && r.lastTracking.None? && r.flatCount == 0 && r.ambiguousCount == 0
  }

  lemma ProbeMeans(s: Scan, i: Input)
    ensures var r := BeginThreeAmpProbe(s, i);
            if BandClear(s, i.temperatureCentiC)
            then StartsProbe(s, i.temperatureCentiC, i.nowMs,
                             if s.phase.Equilibrium? then Min(s.requestMa + 100, 3_000) else s.requestMa, r)
            else SkipsStage(s, i.nowMs, r)
  {
    GuardsMean(s, i);
    hide ProbeBandClear, BandClear;
  }

  lemma SkipMeans(s: Scan, i: Input)
    ensures SkipsStage(s, i.nowMs, NextStage(s, i))
  {
  }

  /** Balance: ten seconds within one degree. The observation is stored as the equilibrium point of its
      current; below 3 A a probe follows, or the next stage if the last probe is too close; at 3 A the scan
      completes at the ceiling, and otherwise sweeps on. */
  lemma EquilibriumStored(s: Scan, i: Input)
    requires Observes(s, i) && s.phase.Equilibrium? && i.physicalPercent == 100 && !s.normalProbe
    requires EquilibriumBand.Observe(s.equilibrium, i.nowMs, Filtered(s, i)).stable && s.boundary.pointCount < 41
    ensures var r := Update(s, i);
            && Observation(s, i) in Stored(r.boundary) && r.normalBins == s.normalBins
            && if s.requestMa == 3_000 then
                 if Filtered(s, i) >= 22_000 || s.requestMv + 100 >= s.boundary.sourceMaxMv
                 then r.phase.Complete? && r.requestMv == s.requestMv
                 else r.phase.Sweep? && r.requestMv == RaisedMv(s) && r.requestMa == 3_000 && r.lastTracking.None?
               else if BandClear(s, Filtered(s, i))
               then StartsProbe(s, Filtered(s, i), i.nowMs, Min(s.requestMa + 100, 3_000), r)
               else SkipsStage(s, i.nowMs, r)
  {
    hide Update, Observes, Advance, Filtered, Smooth, Retain, Stored, EquilibriumBand.Observe, BeginThreeAmpProbe,
         FinishThreeAmpEquilibrium, BandClear;
    var t, j := Smoothed(s, i), At(s, i);
    ObservedUpdate(s, i);
    AdvanceMeans(t, j);
    FilterIrrelevant(s, i, i);
    var w := t.(equilibrium := EquilibriumBand.Observe(s.equilibrium, i.nowMs, Filtered(s, i)).window);
    ObservationMeans(w, j);
    RetainStores(s.boundary, Observation(s, i));
    RetainHeader(s.boundary, Observation(s, i));
    var kept := RetainTracking(w.(lastTracking := Some(Observation(s, i))));
    ProbeMeans(kept, j);
    SameBand(s, kept, Filtered(s, i));
    FinishedMeans(kept, j);
  }

  lemma SameBand(s: Scan, t: Scan, centiC: i16)
    requires t.lastNormalProbeCentiC == s.lastNormalProbeCentiC
    ensures BandClear(t, centiC) == BandClear(s, centiC)
  {
  }

  lemma FinishedMeans(s: Scan, i: Input)
    requires s.phase.Equilibrium? && s.lastTracking.Some? && s.lastTracking.value.trackingRequestMv == s.requestMv
    ensures var r := FinishThreeAmpEquilibrium(s, i);
            && r.boundary == s.boundary && r.normalBins == s.normalBins
            && if i.temperatureCentiC >= 22_000 || s.requestMv + 100 >= s.boundary.sourceMaxMv
               then r.phase.Complete? && r.requestMv == s.requestMv
               else r.phase.Sweep? && r.requestMv == RaisedMv(s) && r.requestMa == s.requestMa && r.lastTracking.None?
  {
    hide ProbeNextVoltage;
    if s.requestMv + 100 < s.boundary.sourceMaxMv {
      RaiseMeans(s.(phase := Sweep, previous := None, lastTracking := None, flatCount := 0, ambiguousCount := 0,
                    flatRequestMv := 0, equilibrium := EquilibriumBand.EMPTY_WINDOW), i);
    }
  }

  /** Short of balance, warming by more than a degree since the stage settled sends it back to the sweep, one
      step up; otherwise only the window moves on. */
  lemma EquilibriumWaits(s: Scan, i: Input)
    requires Observes(s, i) && s.phase.Equilibrium? && i.physicalPercent == 100
    requires !EquilibriumBand.Observe(s.equilibrium, i.nowMs, Filtered(s, i)).stable
    ensures var r := Update(s, i);
            && r.boundary == s.boundary && r.normalBins == s.normalBins
            && if s.previous.Some? && Filtered(s, i) - s.previous.value.temperatureCentiC > 100
               then s.requestMv < s.boundary.sourceMaxMv ==> Raises(s, i, r) && r.flatCount == 0
               else r == s.(equilibrium := r.equilibrium, stabilityCentiC := r.stabilityCentiC)
  {
    hide Update, Observes, Advance, Filtered, Smooth, EquilibriumBand.Observe, ProbeNextVoltage;
    var t, j := Smoothed(s, i), At(s, i);
    ObservedUpdate(s, i);
    AdvanceMeans(t, j);
    if s.requestMv < s.boundary.sourceMaxMv {
      RaiseMeans(t.(phase := Sweep, previous := Some(j), flatCount := 0, flatRequestMv := 0,
                    equilibrium := EquilibriumBand.EMPTY_WINDOW), j);
    }
  }

  // ---------------------------------------------------------------------------------------------
  // Recovery.

  /** Probe recovery waits for its load state, then steps down by 500 mV at the return current until it is at
      the return voltage, and sweeps on from there. */
  lemma ProbeRecovers(s: Scan, i: Input)
    requires Observes(s, i) && s.phase.ProbeRecovery?
    ensures var r := Update(s, i);
            var target := Max(s.returnRequestMv, s.boundary.sourceMinMv);
            && r.changedAtMs == i.nowMs && r.boundary == s.boundary
            && if i.physicalPercent != (if s.mode.Rapid? then 100 else 0) then Waits(s, i, r)
               else if s.requestMv == target
               then r.phase.Sweep? && r.requestMv == target && r.requestMa == s.requestMa
               else && r.phase.ProbeRecovery? && r.requestMv == Max(SatSub(s.requestMv, 500), target)
                    && r.requestMa == s.returnCurrentMa
  {
    hide Update, Observes, Advance, Filtered, Smooth;
    ConfirmedSample(s, i);
    ObservedUpdate(s, i);
    AdvanceMeans(Smoothed(s, i), At(s, i));
  }

  /** Boundary recovery waits for its load state and then warms up at the fall-back voltage; the ten-degree
      interval restarts unless a probe has been made since the boundary was met. */
  lemma BoundaryRecovers(s: Scan, i: Input)
    requires Observes(s, i) && s.phase.SourceBoundaryRecovery?
    ensures var r := Update(s, i);
            if i.physicalPercent != (if s.mode.Rapid? then 100 else 0) then Waits(s, i, r)
            else && r.phase.RapidWarmup? && r.requestMv == s.requestMv && r.requestMa == s.requestMa
                 && r.changedAtMs == i.nowMs && r.flatRequestMv == 0 && r.rapidTrackingConfirmations == 0
                 && r.lastRapidProbeCentiC == (if s.rapidProbeSinceBoundary then s.lastRapidProbeCentiC else None)
  {
    WaitedFor(s, i);
    hide Update, Observes, Advance, Filtered, Smooth;
    ConfirmedSample(s, i);
    ObservedUpdate(s, i);
    AdvanceMeans(Smoothed(s, i), At(s, i));
  }

  lemma WaitedFor(s: Scan, i: Input)
    requires Observes(s, i)
    ensures SatSub(i.nowMs, s.changedAtMs) >= SettleMs(s)
  {
  }

  // ---------------------------------------------------------------------------------------------
  // The unheated start.

  /** A new scan asks for the highest voltage at 3 A, unheated, and knows nothing yet. */
  lemma NewMeans(b: Boundary, mode: Mode)
    ensures New(b, mode).Some? <==>
            5_500 <= b.sourceMinMv < b.sourceMaxMv <= 21_000 && b.sourceMaxMa >= 3_000
    ensures New(b, mode).Some? ==>
              var s := New(b, mode).value;
              && s.phase.Baseline? && s.mode == mode && s.requestMv == b.sourceMaxMv && s.requestMa == 3_000
              && !HeaterOn(s) && s.boundary.pointCount == 0 && !s.boundary.cutoffReached && !s.cutoffReached
              && s.boundary == b.(pointCount := 0, cutoffReached := false, points := s.boundary.points)
              && (forall k :: 0 <= k < 41 ==> s.boundary.points[k] == DEFAULT_POINT)
              && (forall k :: 0 <= k < 20 ==> s.normalBins[k].None?)
              && s.lastTracking.None? && s.previous.None? && s.stabilityCentiC.None? && !s.normalProbe
              && s.changedAtMs == 0 && s.stageStartedMs == 0 && s.lastNormalProbeCentiC.None?
              && !s.rapidBoundaryReached && !s.hotBoundaryReached && s.rapidFailedProbeMv.None?
  {
  }

  /** The baseline is taken unloaded; a loaded one fails. */
  lemma BaselineTaken(s: Scan, i: Input)
    requires Observes(s, i) && s.phase.Baseline?
    ensures var r := Update(s, i);
            if i.physicalPercent != 0 then r.phase.Failed? && r.failure == Some(SupplyUnstable)
            else r.phase.Preflight? && r.baselineVinMv == i.vinMv && r.baselineRequestMv == s.requestMv &&
                 r.requestMv == s.requestMv && r.requestMa == s.requestMa && r.changedAtMs == i.nowMs
  {
    hide Update, Observes, Advance, Filtered, Smooth;
    ObservedUpdate(s, i);
    AdvanceMeans(Smoothed(s, i), At(s, i));
  }

  /** The preflight fails below the floor or below 99 % of its first reading, and else starts the first
      stage from the lowest voltage: at 3 A in rapid mode, at 2 A in detailed mode. */
  lemma PreflightPasses(s: Scan, i: Input)
    requires Observes(s, i) && s.phase.Preflight?
    ensures var r := Update(s, i);
            if i.vinMv < ScaledFloorMv(s.baselineVinMv, s.baselineRequestMv, s.boundary.sourceMinMv) ||
               (s.previous.Some? && i.vinMv * 100 < s.previous.value.vinMv * 99)
            then r.phase.Failed? && r.failure == Some(SupplyUnstable)
            else if s.previous.None?
            then && r.phase.Preflight? && r.previous == Some(At(s, i))
                 && r.requestMv == s.requestMv && r.changedAtMs == i.nowMs
            else && r.phase.Sweep? && r.requestMv == s.boundary.sourceMinMv
                 && r.requestMa == (if s.mode.Rapid? then 3_000 else 2_000)
                 && r.previous.None? && r.lastTracking.None? && !r.normalProbe && r.flatCount == 0
                 && r.stageStartedMs == i.nowMs && r.changedAtMs == i.nowMs
  {
    hide Update, Observes, Advance, Filtered, Smooth, ScaledFloorMv;
    ObservedUpdate(s, i);
    AdvanceMeans(Smoothed(s, i), At(s, i));
  }

  // ---------------------------------------------------------------------------------------------
  // Samples that are no observation.

  /** The sample is clean, below the cutoff, and meets a running scan. */
  predicate Plain(s: Scan, i: Input) { Running(s) && Clean(s, i) && i.temperatureCentiC < 22_000 }

  /** A probe of ten seconds unloads at the request it reached. */
  lemma ProbeTimesOut(s: Scan, i: Input)
    requires Plain(s, i) && ProbeOverdue(s, i)
    ensures var r := Update(s, i);
            && r.phase.ProbeRecovery? && !r.normalProbe
            && r.requestMv == s.requestMv && r.requestMa == s.returnCurrentMa
            && r.previous.None? && r.lastTracking.None? && r.stageStartedMs == i.nowMs && r.changedAtMs == i.nowMs
  {
    RefusedUpdate(s, i);
    hide Update, Smooth;
  }

  /** A stage of more than fifteen minutes fails at 3 A and is skipped below. */
  lemma StageTimesOut(s: Scan, i: Input)
    requires Plain(s, i) && !ProbeOverdue(s, i) && StageOverdue(s, i)
    ensures var r := Update(s, i);
            if s.requestMa >= 3_000 then r.phase.Failed? && r.failure == Some(StageTimeout)
            else SkipsStage(s, i.nowMs, r)
  {
    RefusedUpdate(s, i);
    hide Update, Smooth, NextStage;
    SkipMeans(Smoothed(s, i), i);
  }

  /** From 60 C on, every new ten-degree band of a sweep below 3 A is probed at 3 A, and the stage resumed. */
  lemma CoverageProbes(s: Scan, i: Input)
    requires Plain(s, i) && !ProbeOverdue(s, i) && !StageOverdue(s, i) && CoverageDue(s, i)
    ensures StartsProbe(s, i.temperatureCentiC, i.nowMs, s.requestMa, Update(s, i))
  {
    RefusedUpdate(s, i);
    ProbeMeans(Smoothed(s, i), i);
    hide Update, Smooth, BeginThreeAmpProbe;
  }

  /** An unconfirmed sample restarts the settle interval, and one that is too early changes nothing. */
  lemma NotYet(s: Scan, i: Input)
    requires Plain(s, i) && !ProbeOverdue(s, i) && !StageOverdue(s, i) && !CoverageDue(s, i)
    requires !i.confirmed || !Waited(s, i)
    ensures var r := Update(s, i);
            r == s.(stabilityCentiC := r.stabilityCentiC, changedAtMs := if i.confirmed then s.changedAtMs else i.nowMs)
  {
    RefusedUpdate(s, i);
    hide Update, Smooth;
  }

  /** The cutoff completes the scan, marks it, and stores the last tracking point unless it is a probe's. */
  lemma CutsOff(s: Scan, i: Input)
    requires Running(s) && Clean(s, i) && i.temperatureCentiC >= 22_000
    ensures var r := Update(s, i);
            && r.phase.Complete? && r.cutoffReached && r.boundary.cutoffReached
            && r.requestMv == s.requestMv && r.requestMa == s.requestMa && r.normalBins == s.normalBins
            && (s.lastTracking.Some? && !s.normalProbe && s.boundary.pointCount < 41 ==>
                  s.lastTracking.value in Stored(r.boundary))
            && (s.lastTracking.None? || s.normalProbe ==> r.boundary == s.boundary.(cutoffReached := true))
  {
    RefusedUpdate(s, i);
    hide Update, Smooth, Retain, Stored;
    if s.lastTracking.Some? {
      RetainHeader(s.boundary.(cutoffReached := true), s.lastTracking.value);
      if s.boundary.pointCount < 41 {
        RetainStores(s.boundary.(cutoffReached := true), s.lastTracking.value);
      }
    }
  }

  /** A change of the WiFi state and an implausible reading fail the scan for that reason. */
  lemma Fails(s: Scan, i: Input)
    requires Running(s) && !Clean(s, i)
    ensures var r := Update(s, i);
            && r.phase.Failed? && r.requestMv == s.requestMv && r.requestMa == s.requestMa && r.boundary == s.boundary
            && r.failure == Some(if i.wifiStarted != s.boundary.wifiStarted then WifiChanged else InvalidSample)
  {
    RefusedUpdate(s, i);
    hide Update, Smooth;
  }

  /** The heater is on in the sweep, the warm-up, the terminal probe, in balance, and in the recoveries of
      rapid mode; the output carries the request. */
  lemma OutputMeans(s: Scan)
    ensures var o := OutputOf(s);
            && o.requestMv == s.requestMv && o.requestMa == s.requestMa
            && (o.heaterEnabled <==>
                  match s.phase
                  case Sweep => true
                  case RapidWarmup => true
                  case TerminalProbe => true
                  case TemperatureSettle => true
                  case Equilibrium => true
                  case ProbeRecovery => s.mode.Rapid?
                  case SourceBoundaryRecovery => s.mode.Rapid?
                  case _ => false)
  {
  }
}
