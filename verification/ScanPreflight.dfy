/** No heat before the unheated preflight has passed, and none after an abort. These hold for every
    scan that can be constructed, whatever its header and samples; only that the preflight observations
    are a settle interval apart needs sample times that do not run backwards. */
module ScanPreflight {
  import opened Arithmetic
  import opened BoundaryData
  import opened ScanModel

  function SettleInterval(mode: Mode): nat { if mode.Rapid? then 500 else 1_000 }

  predicate Chronological(h: seq<Input>)
  {
    forall j, k :: 0 <= j < k < |h| ==> h[j].nowMs <= h[k].nowMs
  }

  /** Sample `a` can serve as the baseline: confirmed, unloaded and settled. */
  predicate BaselineObserved(mode: Mode, h: seq<Input>, a: nat)
  {
    a < |h| && h[a].confirmed && h[a].physicalPercent == 0 && h[a].nowMs >= SettleInterval(mode)
  }

  /** The reading is at least 90 % of the baseline scaled from the highest to the lowest source voltage. */
  predicate AboveFloor(b: Boundary, baselineVinMv: u16, vinMv: u16)
  {
    b.sourceMaxMv > 0 && vinMv * 100 >= 90 * (baselineVinMv * b.sourceMinMv / b.sourceMaxMv)
  }

  /** The saturating and rounding floor of the source is that floor. */
  lemma FloorMeans(b: Boundary, baselineVinMv: u16, vinMv: u16)
    requires 0 < b.sourceMinMv < b.sourceMaxMv
    ensures vinMv >= ScaledFloorMv(baselineVinMv, b.sourceMaxMv, b.sourceMinMv) <==> AboveFloor(b, baselineVinMv, vinMv)
  {
    var product := baselineVinMv * b.sourceMinMv;
    MulMonotone(baselineVinMv, b.sourceMinMv, 0xffff);
    MulMonotone(0xffff, baselineVinMv, 0xffff);
    assert 0 <= product <= 0xffff * 0xffff;
    MulMonotone(baselineVinMv, b.sourceMinMv, b.sourceMaxMv);
    var scaled := product / b.sourceMaxMv;
    QuotientBounds(product, b.sourceMaxMv);
    if scaled > baselineVinMv {
      MulMonotone(b.sourceMaxMv, baselineVinMv + 1, scaled);
    }
    assert scaled <= baselineVinMv <= 0xffff;
    assert ScaledFloorMv(baselineVinMv, b.sourceMaxMv, b.sourceMinMv) == (scaled * 90 + 99) / 100;
  }

  /** Sample `j` repeats the observation above the scaled floor; if `spaced`, one settle interval later. */
  predicate FirstReading(b: Boundary, mode: Mode, h: seq<Input>, a: nat, j: nat, spaced: bool)
  {
    && BaselineObserved(mode, h, a)
    && a < j < |h| && h[j].confirmed
    && (spaced ==> h[j].nowMs - h[a].nowMs >= SettleInterval(mode))
    && AboveFloor(b, h[a].vinMv, h[j].vinMv)
  }

  /** Sample `k` completes the preflight: settled again, above the floor, within 1 % of sample `j`. */
  predicate SecondReading(b: Boundary, mode: Mode, h: seq<Input>, a: nat, j: nat, k: nat, spaced: bool)
  {
    && FirstReading(b, mode, h, a, j, spaced)
    && j < k < |h| && h[k].confirmed
    && (spaced ==> h[k].nowMs - h[j].nowMs >= SettleInterval(mode))
    && AboveFloor(b, h[a].vinMv, h[k].vinMv)
    && h[k].vinMv * 100 >= h[j].vinMv * 99
  }

  predicate Proven(b: Boundary, mode: Mode, h: seq<Input>, spaced: bool)
  {
    exists a, j, k :: 0 <= a < j < k < |h| && SecondReading(b, mode, h, a, j, k, spaced)
  }

  predicate Unheated(b: Boundary, mode: Mode, s: Scan)
  {
    && s.mode == mode && s.requestMv == b.sourceMaxMv && s.requestMa == 3_000 && !s.normalProbe
    && s.boundary.sourceMinMv == b.sourceMinMv && 0 < b.sourceMinMv < b.sourceMaxMv
  }

  /** What the state remembers of the samples so far. */
  ghost predicate Remembers(b: Boundary, mode: Mode, h: seq<Input>, s: Scan, spaced: bool)
  {
    match s.phase
    case Baseline => Unheated(b, mode, s) && s.previous.None?
    case Preflight =>
      && Unheated(b, mode, s) && s.baselineRequestMv == b.sourceMaxMv
      && if s.previous.None? then
           exists a :: 0 <= a < |h| && BaselineObserved(mode, h, a) && h[a].vinMv == s.baselineVinMv &&
                       (spaced ==> h[a].nowMs <= s.changedAtMs)
         else
           exists a, j :: 0 <= a < j < |h| && FirstReading(b, mode, h, a, j, spaced) && h[a].vinMv == s.baselineVinMv &&
                          h[j].vinMv == s.previous.value.vinMv && (spaced ==> h[j].nowMs <= s.changedAtMs)
    case Complete => true
    case Failed => true
    case _ => Proven(b, mode, h, spaced)
  }

  /** A sample that leaves a preflight state as it is, but for the waiting time. */
  lemma StillRemembers(b: Boundary, mode: Mode, h: seq<Input>, s: Scan, i: Input, r: Scan, spaced: bool)
    requires (spaced ==> Chronological(h + [i])) && Remembers(b, mode, h, s, spaced)
    requires r == s.(stabilityCentiC := r.stabilityCentiC, changedAtMs := r.changedAtMs)
    requires r.changedAtMs == s.changedAtMs || r.changedAtMs == i.nowMs
    ensures Remembers(b, mode, h + [i], r, spaced)
  {
    hide ScaledFloorMv, AboveFloor;
    var g := h + [i];
    assert g[|h|] == i && forall k :: 0 <= k < |h| ==> g[k] == h[k];
    match s.phase {
      case Baseline =>
      case Preflight =>
        if s.previous.None? {
          var a :| 0 <= a < |h| && BaselineObserved(mode, h, a) && h[a].vinMv == s.baselineVinMv &&
                   (spaced ==> h[a].nowMs <= s.changedAtMs);
          assert BaselineObserved(mode, g, a) && (spaced ==> g[a].nowMs <= r.changedAtMs);
        } else {
          var a, j :| 0 <= a < j < |h| && FirstReading(b, mode, h, a, j, spaced) && h[a].vinMv == s.baselineVinMv &&
                      h[j].vinMv == s.previous.value.vinMv && (spaced ==> h[j].nowMs <= s.changedAtMs);
          assert FirstReading(b, mode, g, a, j, spaced) && (spaced ==> g[j].nowMs <= r.changedAtMs);
        }
      case Complete =>
      case Failed =>
      case _ => StillProven(b, mode, h, i, spaced);
    }
  }

  lemma StillProven(b: Boundary, mode: Mode, h: seq<Input>, i: Input, spaced: bool)
    requires Proven(b, mode, h, spaced)
    ensures Proven(b, mode, h + [i], spaced)
  {
    hide ScaledFloorMv, AboveFloor;
    var g := h + [i];
    var a, j, k :| 0 <= a < j < k < |h| && SecondReading(b, mode, h, a, j, k, spaced);
    assert forall k :: 0 <= k < |h| ==> g[k] == h[k];
    assert SecondReading(b, mode, g, a, j, k, spaced);
  }

  lemma BaselineRemembers(b: Boundary, mode: Mode, h: seq<Input>, s: Scan, i: Input, spaced: bool)
    requires Remembers(b, mode, h, s, spaced) && s.phase.Baseline?
    requires i.confirmed && SatSub(i.nowMs, s.changedAtMs) >= SettleInterval(mode)
    ensures Remembers(b, mode, h + [i], BaselineStep(s, i), spaced)
  {
    var g := h + [i];
    assert g[|h|] == i;
    if i.physicalPercent == 0 {
      assert BaselineObserved(mode, g, |h|);
    }
  }

  lemma FirstReadingRemembers(b: Boundary, mode: Mode, h: seq<Input>, s: Scan, i: Input, spaced: bool)
    requires Remembers(b, mode, h, s, spaced) && s.phase.Preflight? && s.previous.None?
    requires i.confirmed && SatSub(i.nowMs, s.changedAtMs) >= SettleInterval(mode)
    ensures Remembers(b, mode, h + [i], PreflightStep(s, i), spaced)
  {
    hide ScaledFloorMv, AboveFloor, FirstStage;
    var g := h + [i];
    var n := |h|;
    assert g[n] == i && forall k :: 0 <= k < n ==> g[k] == h[k];
    var a :| 0 <= a < |h| && BaselineObserved(mode, h, a) && h[a].vinMv == s.baselineVinMv &&
             (spaced ==> h[a].nowMs <= s.changedAtMs);
    assert BaselineObserved(mode, g, a);
    FloorMeans(b, h[a].vinMv, i.vinMv);
    if i.vinMv >= PreflightMinVinMv(s) {
      assert FirstReading(b, mode, g, a, n, spaced);
      assert g[n].nowMs <= PreflightStep(s, i).changedAtMs;
    }
  }

  lemma SecondReadingRemembers(b: Boundary, mode: Mode, h: seq<Input>, s: Scan, i: Input, spaced: bool)
    requires Remembers(b, mode, h, s, spaced) && s.phase.Preflight? && s.previous.Some?
    requires i.confirmed && SatSub(i.nowMs, s.changedAtMs) >= SettleInterval(mode)
    ensures Remembers(b, mode, h + [i], PreflightStep(s, i), spaced)
  {
    hide ScaledFloorMv, AboveFloor, FirstStage;
    FirstStageSweeps(s, i);
    var g := h + [i];
    var n := |h|;
    assert g[n] == i && forall k :: 0 <= k < n ==> g[k] == h[k];
    var a, j :| 0 <= a < j < |h| && FirstReading(b, mode, h, a, j, spaced) && h[a].vinMv == s.baselineVinMv &&
                h[j].vinMv == s.previous.value.vinMv && (spaced ==> h[j].nowMs <= s.changedAtMs);
    assert FirstReading(b, mode, g, a, j, spaced);
    FloorMeans(b, h[a].vinMv, i.vinMv);
    if !Ended(PreflightStep(s, i)) {
      assert SecondReading(b, mode, g, a, j, n, spaced);
    }
  }

  lemma FirstStageSweeps(s: Scan, i: Input)
    ensures FirstStage(s, i).phase.Sweep?
  {
  }

  lemma EndedRemembers(b: Boundary, mode: Mode, h: seq<Input>, s: Scan, spaced: bool)
    requires Ended(s) || (Proven(b, mode, h, spaced) && !s.phase.Baseline? && !s.phase.Preflight?)
    ensures Remembers(b, mode, h, s, spaced)
  {
    hide Proven;
  }

  lemma RememberedFacts(b: Boundary, mode: Mode, h: seq<Input>, s: Scan, spaced: bool)
    requires Remembers(b, mode, h, s, spaced)
    ensures s.phase.Baseline? || s.phase.Preflight? ==> Unheated(b, mode, s)
    ensures Ended(s) || s.phase.Baseline? || s.phase.Preflight? || Proven(b, mode, h, spaced)
  {
    hide Proven;
  }

  lemma UnheatedUpdateRemembers(b: Boundary, mode: Mode, h: seq<Input>, s: Scan, i: Input, spaced: bool)
    requires (spaced ==> Chronological(h + [i])) && Remembers(b, mode, h, s, spaced)
    requires s.phase.Baseline? || s.phase.Preflight?
    ensures Remembers(b, mode, h + [i], Update(s, i), spaced)
  {
    hide Advance, CutOff, BeginThreeAmpProbe, FinishNormalProbe, Smooth, NextStage, Remembers, Chronological;
    RememberedFacts(b, mode, h, s, spaced);
    var t := Smoothed(s, i);
    StillRemembers(b, mode, h, s, i, Hold(t, i), spaced);
    StillRemembers(b, mode, h, s, i, t, spaced);
    if Ended(Update(s, i)) {
      EndedRemembers(b, mode, h + [i], Update(s, i), spaced);
    } else if i.confirmed && SatSub(i.nowMs, t.changedAtMs) >= SettleMs(t) {
      SameButTemperature(b, mode, h, s, t, i, SmoothedInput(s, i), spaced);
    }
  }

  lemma UpdateRemembers(b: Boundary, mode: Mode, h: seq<Input>, s: Scan, i: Input, spaced: bool)
    requires (spaced ==> Chronological(h + [i])) && Remembers(b, mode, h, s, spaced)
    ensures Remembers(b, mode, h + [i], Update(s, i), spaced)
  {
    hide Remembers, Chronological, Proven, Update;
    RememberedFacts(b, mode, h, s, spaced);
    if s.phase.Baseline? || s.phase.Preflight? {
      UnheatedUpdateRemembers(b, mode, h, s, i, spaced);
    } else if Ended(s) {
      EndedStays(s, i);
      EndedRemembers(b, mode, h + [i], s, spaced);
    } else {
      StillProven(b, mode, h, i, spaced);
      EndedRemembers(b, mode, h + [i], Update(s, i), spaced);
    }
  }

  /** The advance of a smoothed preflight state, restated on the raw sample. */
  lemma SameButTemperature(b: Boundary, mode: Mode, h: seq<Input>, s: Scan, t: Scan, i: Input, j: Input, spaced: bool)
    requires Remembers(b, mode, h, s, spaced) && (s.phase.Baseline? || s.phase.Preflight?)
    requires t == s.(stabilityCentiC := t.stabilityCentiC) && j == i.(temperatureCentiC := j.temperatureCentiC)
    requires i.confirmed && SatSub(i.nowMs, t.changedAtMs) >= SettleInterval(mode)
    ensures Remembers(b, mode, h + [i], Advance(t, j), spaced)
  {
    hide SweepStep, RapidWarmupStep, TerminalProbeStep, EquilibriumStep, ProbeRecoveryStep, Proven,
         SourceBoundaryRecoveryStep, ScaledFloorMv, AboveFloor, BaselineObserved, FirstReading;
    if s.phase.Baseline? {
      BaselineRemembers(b, mode, h, t, i, spaced);
    } else {
      if t.previous.None? {
        FirstReadingRemembers(b, mode, h, t, i, spaced);
      } else {
        SecondReadingRemembers(b, mode, h, t, i, spaced);
      }
    }
  }

  lemma {:induction false} RunRemembers(b: Boundary, mode: Mode, h: seq<Input>, spaced: bool)
    requires New(b, mode).Some? && (spaced ==> Chronological(h))
    ensures Remembers(b, mode, h, After(New(b, mode).value, h), spaced)
  {
    hide Update, Proven, BaselineObserved, FirstReading;
    if h != [] {
      var n := |h| - 1;
      RunRemembers(b, mode, h[..n], spaced);
      assert h == h[..n] + [h[n]];
      UpdateRemembers(b, mode, h[..n], After(New(b, mode).value, h[..n]), h[n], spaced);
    }
  }

  /** No run enables the heater before three confirmed observations have passed the preflight. If the
      sample times do not run backwards, they are a settle interval apart. */
  lemma NoHeatBeforePreflight(b: Boundary, mode: Mode, h: seq<Input>)
    requires New(b, mode).Some?
    ensures HeaterOn(After(New(b, mode).value, h)) ==> Proven(b, mode, h, Chronological(h))
  {
    hide After, Proven, BaselineObserved, FirstReading;
    RunRemembers(b, mode, h, Chronological(h));
  }

  // ---------------------------------------------------------------------------------------------
  // Aborts.

  predicate Aborts(s: Scan, i: Input)
  {
    || i.wifiStarted != s.boundary.wifiStarted
    || i.rtdMv == 0 || i.vinMv == 0 || i.rtdCode > 4_095 || i.vinCode > 4_095
    || i.temperatureCentiC >= 22_000
  }

  lemma AbortEnds(s: Scan, i: Input)
    requires Aborts(s, i)
    ensures var r := Update(s, i); Ended(r) && r.requestMv == s.requestMv && r.requestMa == s.requestMa
  {
    hide CutOff, Smooth, Advance, FinishNormalProbe, HandleStageTimeout, BeginThreeAmpProbe;
    if Ended(s) {
      EndedStays(s, i);
    }
  }

  lemma EndedStays(s: Scan, i: Input)
    requires Ended(s)
    ensures Update(s, i) == s
  {
  }

  lemma {:induction false} EndedIsFinal(s: Scan, h: seq<Input>)
    requires Ended(s)
    ensures After(s, h) == s
  {
    hide Update;
    if h != [] {
      EndedIsFinal(s, h[..|h| - 1]);
      EndedStays(s, h[|h| - 1]);
    }
  }

  /** From a WiFi change, an invalid sample or 220 C on, the heater is off and the request frozen. */
  lemma FrozenAfterAbort(s: Scan, i: Input, h: seq<Input>)
    requires Aborts(s, i)
    ensures OutputOf(After(Update(s, i), h)) == Output(s.requestMv, s.requestMa, false)
  {
    hide Update;
    AbortEnds(s, i);
    EndedIsFinal(Update(s, i), h);
  }
}
