/** The temperature bins over a run: each holds the strongest 3 A request recorded in it. */
module ScanBins {
  import opened Arithmetic
  import opened BoundaryData
  import opened ScanModel
  import opened ScanSample

  datatype Sighting = Sighting(bin: nat, point: Point)

  /** The loaded sample shows that the source holds the present request. In a sweep it is the first of its
      stage, or follows the last step where rapid mode does not rather judge by sag or ceiling; in a warm-up
      it is at least the second that holds. */
  predicate Tracks(s: Scan, i: Input)
  {
    && i.physicalPercent == 100
    && (match s.phase
        case Sweep =>
          s.previous.Some? ==>
            && Follows(s, s.previous.value, i)
            && (s.mode.Rapid? ==> Holds(s, i) && s.requestMv < s.boundary.sourceMaxMv)
        case RapidWarmup => i.confirmed && Holds(s, i) && s.rapidTrackingConfirmations >= 1
        case _ => false)
  }

  /** The 3 A tracking observation a settled sample offers, in the bin of its temperature. */
  function Sighted(s: Scan, i: Input): (r: Option<Sighting>)
    ensures r.Some? ==> r.value.bin < BIN_COUNT
  {
    if s.requestMa == 3_000 && Tracks(s, i)
    then Some(Sighting(BinAt(i.temperatureCentiC), Observation(s, i).(trackingOnly := true)))
    else None
  }

  /** The 3 A tracking observation an update records, in the bin of its filtered temperature. */
  function Recorded(s: Scan, i: Input): (r: Option<Sighting>)
    ensures r.Some? ==> r.value.bin < BIN_COUNT
  {
    if Observes(s, i) then Sighted(s, i.(temperatureCentiC := Filtered(s, i))) else None
  }

  lemma TracksMeans(s: Scan, i: Input)
    requires i.physicalPercent == 100
    ensures s.phase.Sweep? ==> (Tracks(s, i) <==> SweepTracks(s, i))
    ensures s.phase.RapidWarmup? ==> (Tracks(s, i) <==> WarmupTracks(s, i))
  {
    HoldsMeans(s, i);
    if s.previous.Some? {
      AnswerMeans(s, s.previous.value, i);
    }
    hide VoltageTracksRequest, Holds, Classify, Follows;
  }

  /** All observations recorded along a run. */
  function Sightings(s: Scan, h: seq<Input>): seq<Sighting>
  {
    if h == [] then []
    else
      var n := |h| - 1;
      var seen := Recorded(After(s, h[..n]), h[n]);
      Sightings(s, h[..n]) + (if seen.None? then [] else [seen.value])
  }

  /** A bin keeps the first of the strongest points offered to it. */
  function Offer(bins: Bins, o: Option<Sighting>): Bins
    requires o.Some? ==> o.value.bin < BIN_COUNT
  {
    if o.None? then bins
    else
      var k := o.value.bin;
      if bins[k].None? || o.value.point.trackingRequestMv > bins[k].value.trackingRequestMv
      then bins[k := Some(o.value.point)]
      else bins
  }

  lemma RetainOffers(s: Scan, i: Input)
    ensures RetainNormalTracking(s, i).normalBins ==
            Offer(s.normalBins, if s.requestMa == 3_000
                                then Some(Sighting(BinAt(i.temperatureCentiC),
                                                   Observation(s, i).(trackingOnly := true)))
                                else None)
  {
    hide RebuildNormalPoints;
    BinMeans(i.temperatureCentiC);
    ObservationMeans(s, i);
    hide BinOf, BinAt;
  }

  lemma JudgeStepBins(s: Scan, previous: Input, i: Input)
    ensures JudgeStep(s, previous, i).normalBins ==
            if Classify(s, previous, i).Tracking? then RecordTracking(s, i).normalBins else s.normalBins
  {
    hide ProbeNextVoltage, HandleFlatConfirmation, HandleAmbiguousConfirmation, Classify, RecordTracking;
  }

  lemma SweepBins(s: Scan, i: Input)
    requires s.phase.Sweep?
    ensures SweepStep(s, i).normalBins == if SweepTracks(s, i) then RecordTracking(s, i).normalBins else s.normalBins
  {
    hide ProbeNextVoltage, JudgeStep, Classify, RecordTracking, VoltageTracksRequest, BeginSourceBoundaryRecovery;
    if s.previous.Some? {
      JudgeStepBins(s, s.previous.value, i);
    }
  }

  lemma WarmupBins(s: Scan, i: Input)
    ensures RapidWarmupStep(s, i).normalBins ==
            if WarmupTracks(s, i) then RetainNormalTracking(WarmupConfirmation(s, i), i).normalBins else s.normalBins
  {
    hide VoltageTracksRequest, RetainNormalTracking, BeginSourceBoundaryRecovery, WarmupDecision;
  }

  lemma SweepOffers(s: Scan, i: Input)
    requires s.phase.Sweep? && i.physicalPercent == 100
    ensures SweepStep(s, i).normalBins == Offer(s.normalBins, Sighted(s, i))
  {
    hide SweepStep, RetainNormalTracking, SweepTracks, Tracks, BinAt, Offer;
    TracksMeans(s, i);
    OfferNothing(s.normalBins);
    SweepBins(s, i);
    RetainOffers(s.(lastTracking := Some(PointOf(s, i))), i);
  }

  lemma WarmupOffers(s: Scan, i: Input)
    requires s.phase.RapidWarmup? && i.physicalPercent == 100
    ensures RapidWarmupStep(s, i).normalBins == Offer(s.normalBins, Sighted(s, i))
  {
    hide RapidWarmupStep, RetainNormalTracking, WarmupTracks, Tracks, BinAt, Offer;
    TracksMeans(s, i);
    OfferNothing(s.normalBins);
    WarmupBins(s, i);
    RetainOffers(WarmupConfirmation(s, i), i);
  }

  lemma AdvanceBins(s: Scan, i: Input)
    ensures Advance(s, i).normalBins == Offer(s.normalBins, Sighted(s, i))
  {
    hide SweepStep, RapidWarmupStep, TerminalProbeStep, EquilibriumStep, BaselineStep, PreflightStep, ProbeRecoveryStep,
         SourceBoundaryRecoveryStep, Follows, Holds, Offer, PreflightRecoveryStep, TemperatureSettleStep;
    OfferNothing(s.normalBins);
    if s.phase.Sweep? && i.physicalPercent == 100 {
      SweepOffers(s, i);
    } else if s.phase.RapidWarmup? && i.physicalPercent == 100 {
      WarmupOffers(s, i);
    }
  }

  /** An update changes the bins only by offering them the observation it records. */
  lemma UpdateOffers(s: Scan, i: Input)
    ensures Update(s, i).normalBins == Offer(s.normalBins, Recorded(s, i))
  {
    hide Observes, Advance, CutOff, FinishNormalProbe, HandleStageTimeout, BeginThreeAmpProbe, Smooth, Offer, Sighted,
         Update, Filtered;
    OfferNothing(s.normalBins);
    if Observes(s, i) {
      ObservedUpdate(s, i);
      AdvanceBins(Smoothed(s, i), i.(temperatureCentiC := Filtered(s, i)));
      SmoothingKeeps(s, Smoothed(s, i), i.(temperatureCentiC := Filtered(s, i)));
    } else {
      RefusedUpdate(s, i);
    }
  }

  lemma OfferNothing(bins: Bins)
    ensures Offer(bins, None) == bins
  {
  }

  lemma SmoothingKeeps(s: Scan, t: Scan, j: Input)
    requires t == s.(stabilityCentiC := t.stabilityCentiC)
    ensures Sighted(t, j) == Sighted(s, j)
  {
  }

  /** Each bin is empty exactly when nothing was recorded in it, and otherwise holds a recorded point
      that no other recorded point of the bin exceeds. */
  lemma {:induction false} BinHoldsStrongest(s: Scan, h: seq<Input>, k: nat)
    requires k < BIN_COUNT && s.normalBins[k].None?
    ensures var bin := After(s, h).normalBins[k];
            var seen := Sightings(s, h);
            && (bin.None? <==> forall o :: o in seen ==> o.bin != k)
            && (bin.Some? ==> Sighting(k, bin.value) in seen)
            && (bin.Some? ==> forall o :: o in seen && o.bin == k ==>
                                o.point.trackingRequestMv <= bin.value.trackingRequestMv)
  {
    hide Update, Recorded;
    if h != [] {
      var n := |h| - 1;
      BinHoldsStrongest(s, h[..n], k);
      UpdateOffers(After(s, h[..n]), h[n]);
    }
  }
}
