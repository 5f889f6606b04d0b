/** What holds over whole runs: the request envelope and its one escape and the slew bound, for every
    scan that can be constructed and any samples; and, for a well-formed scan, exactly when what it
    completes with is valid. */
module ScanRuns {
  import opened Arithmetic
  import opened BoundaryData
  import BoundaryCodec
  import opened ScanModel
  import opened ScanTable
  import opened ScanShape
  import opened ScanInvariant

  function Start(b: Boundary, mode: Mode): Scan
    requires New(b, mode).Some?
  {
    New(b, mode).value
  }

  lemma WellFormedStarts(b: Boundary, mode: Mode)
    requires WellFormedHeader(b)
    ensures New(b, mode).Some?
  {
  }

  predicate WellFormedRun(h: seq<Input>)
  {
    forall k :: 0 <= k < |h| ==> WellFormedInput(h[k])
  }

  /** No update of the run meets the escape from a timed-out terminal probe. */
  predicate NoEscape(s: Scan, h: seq<Input>)
  {
    forall k :: 0 <= k < |h| ==> !TerminalEscape(After(s, h[..k]), h[k])
  }

  lemma PrefixOfPrefix(h: seq<Input>, n: nat)
    requires n <= |h|
    ensures forall k :: 0 <= k <= n ==> h[..n][..k] == h[..k]
  {
  }

  lemma NoEscapePrefix(s: Scan, h: seq<Input>, n: nat)
    requires n <= |h| && NoEscape(s, h)
    ensures NoEscape(s, h[..n])
  {
    hide TerminalEscape, After;
    PrefixOfPrefix(h, n);
  }

  /** What a claim about the run `h` rests on. */
  predicate Warranted(b: Boundary, mode: Mode, h: seq<Input>, claim: Claim)
    requires New(b, mode).Some?
  {
    && (claim.grid ==> WellFormedHeader(b))
    && (claim.fit ==> WellFormedRun(h))
    && (!claim.lax ==> NoEscape(Start(b, mode), h))
  }

  lemma WarrantedPrefix(b: Boundary, mode: Mode, h: seq<Input>, n: nat, claim: Claim)
    requires New(b, mode).Some? && n <= |h| && Warranted(b, mode, h, claim)
    ensures Warranted(b, mode, h[..n], claim)
  {
    hide NoEscape, WellFormedHeader, WellFormedInput, New;
    if !claim.lax {
      NoEscapePrefix(Start(b, mode), h, n);
    }
  }

  const ANY_RUN := Claim(true, false, false)
  const UNESCAPED := Claim(false, false, false)
  const WELL_FORMED := Claim(true, true, true)

  /** The invariant holds in every state a run reaches, with as much as the run warrants. */
  lemma {:induction false} RunKeeps(b: Boundary, mode: Mode, h: seq<Input>, claim: Claim)
    requires New(b, mode).Some? && Warranted(b, mode, h, claim)
    ensures var s := After(Start(b, mode), h);
            Inv(s, claim) && s.mode == mode && SameHeader(b, s.boundary)
  {
    hide Inv, Update, TerminalEscape, WellFormedInput, WellFormedHeader;
    NewKeeps(b, mode, claim);
    if h != [] {
      var n := |h| - 1;
      WarrantedPrefix(b, mode, h, n, claim);
      RunKeeps(b, mode, h[..n], claim);
      UpdateKeeps(After(Start(b, mode), h[..n]), h[n], claim);
    }
  }

  /** A detailed scan never enters the terminal probe, so it never escapes. */
  lemma DetailedNeverEscapes(b: Boundary, h: seq<Input>)
    requires New(b, Detailed).Some?
    ensures NoEscape(Start(b, Detailed), h)
  {
    hide After, TableShaped, AllRegular;
    forall k | 0 <= k < |h|
      ensures !TerminalEscape(After(Start(b, Detailed), h[..k]), h[k])
    {
      RunShaped(b, Detailed, h[..k]);
    }
  }

  /** Every detailed run keeps the strict invariant. */
  lemma DetailedKeeps(b: Boundary, h: seq<Input>)
    requires New(b, Detailed).Some?
    ensures var s := After(Start(b, Detailed), h);
            Inv(s, UNESCAPED) && s.mode == Detailed && SameHeader(b, s.boundary)
  {
    hide Inv, After;
    DetailedNeverEscapes(b, h);
    RunKeeps(b, Detailed, h, UNESCAPED);
  }

  // ---------------------------------------------------------------------------------------------
  // The request envelope.

  /** A timed-out terminal probe below 2.9 A leaves the envelope: the scan heats below 3 A. */
  lemma EscapeLeavesEnvelope(s: Scan, i: Input, claim: Claim)
    requires Inv(s, claim) && !claim.lax && TerminalEscape(s, i)
    ensures !InEnvelope(Update(s, i)) && HeaterOn(Update(s, i))
  {
    hide Table, TerminalTarget, ObservedPoint;
    TerminalTargetFacts(s.boundary);
  }

  lemma {:induction false} EnvelopeExcludesEscape(b: Boundary, h: seq<Input>)
    requires New(b, Rapid).Some?
    requires forall k :: 0 <= k <= |h| ==> InEnvelope(After(Start(b, Rapid), h[..k]))
    ensures NoEscape(Start(b, Rapid), h)
  {
    hide Inv, Update, InEnvelope, TerminalEscape, New;
    if h != [] {
      var s := Start(b, Rapid);
      var n := |h| - 1;
      assert After(s, h) == Update(After(s, h[..n]), h[n]);
      hide After;
      PrefixOfPrefix(h, n);
      EnvelopeExcludesEscape(b, h[..n]);
      RunKeeps(b, Rapid, h[..n], UNESCAPED);
      assert h[..|h|] == h;
      if TerminalEscape(After(s, h[..n]), h[n]) {
        EscapeLeavesEnvelope(After(s, h[..n]), h[n], UNESCAPED);
      }
    }
  }

  lemma StrictIsInEnvelope(s: Scan, claim: Claim)
    requires Inv(s, claim) && !claim.lax
    ensures InEnvelope(s)
  {
  }

  /** Every rapid run stays in the envelope throughout exactly when no update meets the escape guard. */
  lemma RapidEnvelopeIff(b: Boundary, h: seq<Input>)
    requires New(b, Rapid).Some?
    ensures (forall k :: 0 <= k <= |h| ==> InEnvelope(After(Start(b, Rapid), h[..k]))) <==>
            NoEscape(Start(b, Rapid), h)
  {
    hide After, InEnvelope, TerminalEscape, Inv, New;
    var s := Start(b, Rapid);
    if NoEscape(s, h) {
      forall k | 0 <= k <= |h|
        ensures InEnvelope(After(s, h[..k]))
      {
        NoEscapePrefix(s, h, k);
        RunKeeps(b, Rapid, h[..k], UNESCAPED);
        StrictIsInEnvelope(After(s, h[..k]), UNESCAPED);
      }
    }
    if forall k :: 0 <= k <= |h| ==> InEnvelope(After(s, h[..k])) {
      EnvelopeExcludesEscape(b, h);
    }
  }

  /** Every detailed run stays in the envelope. */
  lemma DetailedEnvelope(b: Boundary, h: seq<Input>)
    requires New(b, Detailed).Some?
    ensures var s := After(Start(b, Detailed), h);
            b.sourceMinMv <= s.requestMv <= b.sourceMaxMv && RegularCurrent(s.requestMa)
  {
    hide After, Table, SweepOk, ObservedPoint, TerminalTarget;
    DetailedKeeps(b, h);
  }

  /** With a well-formed header, the request of every reachable state lies in the source range on the
      100 mV grid, or is exactly the terminal target, whose power is within the source limit and whose
      arithmetic is exact. The samples are arbitrary. */
  lemma RequestEnvelope(b: Boundary, mode: Mode, h: seq<Input>)
    requires WellFormedHeader(b)
    requires mode.Rapid? ==> NoEscape(Start(b, mode), h)
    ensures var s := After(Start(b, mode), h);
            var o := OutputOf(s);
            || (b.sourceMinMv <= o.requestMv <= b.sourceMaxMv && o.requestMv % 100 == 0 &&
                2_000 <= o.requestMa <= 3_000 && o.requestMa % 100 == 0 && (mode.Rapid? ==> o.requestMa == 3_000))
            || (&& mode.Rapid? && (s.phase.TerminalProbe? || s.phase.Complete? || s.phase.Failed?)
                && TerminalTarget(b) == Some((o.requestMv, o.requestMa))
                && o.requestMv * o.requestMa <= b.sourcePowerLimitMw * 1_000 < 0x1_0000_0000
                && b.sourcePowerLimitMw * 1_000 / o.requestMv < 0x1_0000)
    ensures var s := After(Start(b, mode), h);
            && !s.phase.PreflightRecovery? && !s.phase.TemperatureSettle?
            && (mode.Detailed? ==>
                  !s.phase.RapidWarmup? && !s.phase.TerminalProbe? && !s.phase.SourceBoundaryRecovery?)
  {
    hide After, TerminalTarget, WellFormedInput, NoEscape, Table, SweepOk, ObservedPoint, TerminalTrackingCurrentMa;
    if mode.Detailed? {
      DetailedNeverEscapes(b, h);
    }
    RunKeeps(b, mode, h, Claim(false, true, false));
    var s := After(Start(b, mode), h);
    TargetFrame(b, s.boundary);
    if TerminalTarget(b).Some? {
      TerminalTargetFacts(b);
      TerminalPowerBound(b.sourcePowerLimitMw, TerminalTarget(b).value.0);
    }
  }

  /** An update that ends with the heater on raises the request by at most 100 mV in detailed mode and
      500 mV in rapid mode, unless it enters the terminal probe. No run is excepted. */
  lemma SlewBound(b: Boundary, mode: Mode, h: seq<Input>, i: Input)
    requires New(b, mode).Some?
    ensures var s := After(Start(b, mode), h);
            var r := Update(s, i);
            HeaterOn(r) && !(r.phase.TerminalProbe? && !s.phase.TerminalProbe?) ==>
              r.requestMv <= s.requestMv + (if mode.Detailed? then 100 else 500)
  {
    hide Inv, After, Update, HeaterOn, TerminalEscape;
    RunKeeps(b, mode, h, ANY_RUN);
    UpdateKeeps(After(Start(b, mode), h), i, ANY_RUN);
  }

  // ---------------------------------------------------------------------------------------------
  // What a completed scan stores.

  /** Every stored point is a bin point, an equilibrium point or the terminal point, and packs. */
  lemma StoredPointValid(s: Scan, k: nat, claim: Claim)
    requires Inv(s, claim) && claim.grid && claim.fit && !Stranded(s) && k < s.boundary.pointCount
    ensures s.boundary.pointCount <= MAX_BOUNDARY_POINTS
    ensures PointValid(s.boundary, s.boundary.points[k]) && BoundaryCodec.PointPackable(s.boundary.points[k])
  {
    hide PhaseOk, TerminalTrackingCurrentMa, Base, Stranded;
    var b := s.boundary;
    assert WellFormedHeader(b) by {
      HeaderOfInv(s, claim);
    }
    SplitMember(Stored(b), k);
    FilledAreBinPoints(b.sourceMinMv, b.sourceMaxMv, s.normalBins, claim);
  }

  lemma HeaderOfInv(s: Scan, claim: Claim)
    requires Inv(s, claim) && claim.grid
    ensures WellFormedHeader(s.boundary)
  {
  }

  lemma InvStoresValid(s: Scan, claim: Claim)
    requires Inv(s, claim) && claim.grid && claim.fit && !Stranded(s) && s.boundary.pointCount >= 1
    ensures IsValid(s.boundary) && BoundaryCodec.Packable(s.boundary)
  {
    hide Control, PointValid, BoundaryCodec.PointPackable, AllStagePoints, AllBinPoints, DistinctCurrents, Stranded;
    HeaderOfInv(s, claim);
    forall k | 0 <= k < s.boundary.pointCount
      ensures PointValid(s.boundary, s.boundary.points[k]) && BoundaryCodec.PointPackable(s.boundary.points[k])
    {
      StoredPointValid(s, k, claim);
    }
  }

  lemma StrandedIsInvalid(s: Scan)
    requires Stranded(s) && !s.lastTracking.value.trackingOnly
    ensures !IsValid(s.boundary)
  {
    hide TerminalTrackingCurrentMa;
    var p := s.lastTracking.value;
    var k :| 0 <= k < |Stored(s.boundary)| && Stored(s.boundary)[k] == p;
    assert !PointValid(s.boundary, s.boundary.points[k]);
  }

  /** The sample is the 220 C cutoff, and what it makes the scan retain is no regular observation. */
  predicate Strands(s: Scan, i: Input)
  {
    i.temperatureCentiC >= 22_000 && IrregularLast(s)
  }

  /** An update that completes the scan strands a point exactly when its guard says so. */
  lemma CompletionStrands(s: Scan, i: Input, claim: Claim)
    requires Inv(s, claim) && !Ended(s) && Update(s, i).phase.Complete?
    ensures Stranded(Update(s, i)) <==> Strands(s, i)
  {
    hide Base, PhaseOk, Table, TableOk, Advance, CutOff, FinishNormalProbe, HandleStageTimeout, BeginThreeAmpProbe,
         Smooth, CoverageProbeDue;
    NotCutOff(s, claim);
    SmoothedKeeps(s, i, claim);
    CutOffKeeps(Smoothed(s, i), claim);
    CutOffLast(Smoothed(s, i));
  }

  lemma NotCutOff(s: Scan, claim: Claim)
    requires Inv(s, claim) && !Ended(s)
    ensures !s.cutoffReached
  {
  }

  lemma CutOffLast(s: Scan)
    ensures IrregularLast(CutOff(s)) == IrregularLast(s)
  {
  }

  /** What an update completes the scan with is valid exactly when it strands nothing, and then packs. */
  lemma CompletionIsValid(s: Scan, i: Input)
    requires Inv(s, WELL_FORMED) && !Ended(s) && Inv(Update(s, i), WELL_FORMED)
    requires Update(s, i).phase.Complete? && Update(s, i).boundary.pointCount >= 1
    ensures var done := Update(s, i).boundary;
            && (IsValid(done) <==> !Strands(s, i))
            && (IsValid(done) ==> done.pointCount <= MAX_BOUNDARY_POINTS && BoundaryCodec.Packable(done))
  {
    hide Update, Inv, IsValid, BoundaryCodec.Packable, Stranded, Strands;
    var r := Update(s, i);
    CompletionStrands(s, i, WELL_FORMED);
    if Stranded(r) {
      PlainLast(r);
      StrandedIsInvalid(r);
    } else {
      InvStoresValid(r, WELL_FORMED);
      assert r.boundary.pointCount <= MAX_BOUNDARY_POINTS by {
        ValidFits(r.boundary);
      }
    }
  }

  lemma ValidFits(b: Boundary)
    requires IsValid(b)
    ensures b.pointCount <= MAX_BOUNDARY_POINTS
  {
  }

  lemma WellFormedPrefix(h: seq<Input>, n: nat)
    requires n <= |h| && WellFormedRun(h)
    ensures WellFormedRun(h[..n])
  {
    hide WellFormedInput;
  }

  /** A run that has ended did so with one update of a running scan. */
  lemma {:induction false} EndingUpdate(s: Scan, h: seq<Input>) returns (k: nat)
    requires !Ended(s) && Ended(After(s, h))
    ensures k < |h| && !Ended(After(s, h[..k])) && After(s, h) == Update(After(s, h[..k]), h[k])
  {
    hide Guarded;
    var n := |h| - 1;
    if Ended(After(s, h[..n])) {
      k := EndingUpdate(s, h[..n]);
      assert h[..n][..k] == h[..k];
    } else {
      k := n;
    }
  }

  /** A completed well-formed scan with a point stores a valid boundary exactly when the sample that
      ended it did not strand one, and then its bytes decode to exactly that boundary, free slots
      included. Detailed scans never strand a point. */
  lemma CompletedScanPersists(b: Boundary, mode: Mode, h: seq<Input>) returns (k: nat)
    requires WellFormedHeader(b) && WellFormedRun(h)
    requires After(Start(b, mode), h).phase.Complete? && After(Start(b, mode), h).boundary.pointCount >= 1
    ensures k < |h| && !Ended(After(Start(b, mode), h[..k]))
    ensures After(Start(b, mode), h) == Update(After(Start(b, mode), h[..k]), h[k])
    ensures var done := After(Start(b, mode), h).boundary;
            && (IsValid(done) <==> !Strands(After(Start(b, mode), h[..k]), h[k]))
            && (IsValid(done) ==> BoundaryCodec.Decode(BoundaryCodec.Encode(done)) == Some(done))
    ensures mode.Detailed? ==> !Strands(After(Start(b, mode), h[..k]), h[k])
  {
    hide After, Update, Inv, IsValid, WellFormedRun, BoundaryCodec.Decode, BoundaryCodec.Encode,
         BoundaryCodec.Packable, Stranded, Strands;
    var s := Start(b, mode);
    k := EndingUpdate(s, h);
    var p, r := After(s, h[..k]), After(s, h);
    WellFormedPrefix(h, k);
    RunKeeps(b, mode, h[..k], WELL_FORMED);
    RunKeeps(b, mode, h, WELL_FORMED);
    CompletionIsValid(p, h[k]);
    if IsValid(r.boundary) {
      BoundaryCodec.RoundTrip(r.boundary);
    }
    DetailedNeverStrands(p, h[k]);
  }

  lemma PlainLast(s: Scan)
    requires Inv(s, WELL_FORMED) && Stranded(s)
    ensures !s.lastTracking.value.trackingOnly
  {
  }

  lemma DetailedNeverStrands(s: Scan, i: Input)
    requires Inv(s, WELL_FORMED)
    ensures s.mode.Detailed? ==> !Strands(s, i)
  {
  }

  /** Before the cutoff nothing is stranded, whether or not the run escaped. */
  lemma CompletedBeforeCutoff(b: Boundary, mode: Mode, h: seq<Input>)
    requires WellFormedHeader(b) && WellFormedRun(h)
    requires After(Start(b, mode), h).phase.Complete? && After(Start(b, mode), h).boundary.pointCount >= 1
    requires mode.Detailed? || !After(Start(b, mode), h).cutoffReached
    ensures var done := After(Start(b, mode), h).boundary;
            IsValid(done) && BoundaryCodec.Decode(BoundaryCodec.Encode(done)) == Some(done)
  {
    hide After, Update, Inv, IsValid, WellFormedRun, WellFormedHeader, BoundaryCodec.Decode, BoundaryCodec.Encode;
    var k := CompletedScanPersists(b, mode, h);
    WellFormedStarts(b, mode);
    WellFormedPrefix(h, k);
    RunKeeps(b, mode, h[..k], WELL_FORMED);
    CompletionStrands(After(Start(b, mode), h[..k]), h[k], WELL_FORMED);
  }
}
