/** From the scan through storage to the lookup: what a completed rapid scan lets the controller do. */
module ScanToLookup {
  import opened Arithmetic
  import opened BoundaryData
  import BoundaryCodec
  import opened BoundaryLookup
  import opened ScanModel
  import opened ScanShape
  import opened ScanInvariant
  import opened ScanRuns

  predicate ProjectsStored(b: Boundary, project: Projection)
  {
    forall k :: 0 <= k < |Stored(b)| ==> project(Stored(b)[k].rtdMv).Some?
  }

  /** The boundary of a rapid scan that completed before the cutoff comes back from storage, and
      every matching 3 A query on it is answered with an authorised point within its current. */
  lemma RapidScanServesThreeAmp(b: Boundary, h: seq<Input>, q: Query, project: Projection)
    requires WellFormedHeader(b) && WellFormedRun(h)
    requires After(Start(b, Rapid), h).phase.Complete? && !After(Start(b, Rapid), h).cutoffReached
    requires StrictlyIncreasing(project) && Consistent(q, project) && q.currentMa >= 3_000 && Matches(b, q)
    requires ProjectsStored(After(Start(b, Rapid), h).boundary, project)
    requires HasMinimumCoverage(After(Start(b, Rapid), h).boundary, project)
    ensures var done := After(Start(b, Rapid), h).boundary;
            && IsValid(done) && BoundaryCodec.Decode(BoundaryCodec.Encode(done)) == Some(done)
            && var r := SafePointOrColdStart(done, q, project);
               r.Some? && r.value.requestCurrentMa <= q.currentMa && Authorised(done, r.value)
  {
    hide After, Inv, IsValid, WellFormedInput, StrictlyIncreasing, Consistent,
         BoundaryCodec.Decode, BoundaryCodec.Encode, HasMinimumCoverage, SafePointOrColdStart, Authorised;
    var s := After(Start(b, Rapid), h);
    WellFormedStarts(b, Rapid);
    RunKeeps(b, Rapid, h, ANY_RUN);
    var bin, k := RapidCoverage(b, h);
    CompletedBeforeCutoff(b, Rapid, h);
    assert Stored(s.boundary)[k] == s.boundary.points[k];
    ThreeAmpAlwaysAnswered(s.boundary, q, project, s.boundary.points[k]);
  }
}
