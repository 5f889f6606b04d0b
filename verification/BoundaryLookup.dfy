/** The guarded lookup of firmware/src/heater_supply.rs: which stored observation authorises a
    request under the present operating conditions. */
module BoundaryLookup {
  import opened Arithmetic
  import opened BoundaryData

  const MAX_OBSERVED_LOOKUP_GAP_CENTI_C := 1_800
  const MAX_CONFIRMED_REQUEST_HANDOFF_GAP_CENTI_C := 300
  const MAX_TERMINAL_PRE_HANDOFF_GAP_CENTI_C := 1_200
  const TERMINAL_HANDOFF_REQUEST_STEP_MV := 500

  datatype Query = Query(
    temperatureCentiC: i16,
    currentRtdMv: Option<u16>,
    currentRequestMv: Option<u16>,
    currentMa: u16,
    wifiStarted: bool,
    sourceMinMv: u16,
    sourceMaxMv: u16,
    operationalSourceMinMv: u16,
    operationalSourceMaxMv: u16,
    sourceMaxMa: u16,
    sourcePowerLimitMw: u32)

  /** The temperature an RTD reading stands for, where it stands for one. */
  type Projection = u16 -> Option<i16>

  predicate HasMinimumCoverage(b: Boundary, project: Projection)
  {
    exists k :: 0 <= k < |Stored(b)| && project(Stored(b)[k].rtdMv).Some? &&
                project(Stored(b)[k].rtdMv).value >= MIN_BOUNDARY_COVERAGE_CENTI_C
  }

  /** The query comes from the calibrated source under the calibrated conditions. */
  predicate Matches(b: Boundary, q: Query)
  {
    && b.wifiStarted == q.wifiStarted
    && b.advertisedMinMv == q.sourceMinMv
    && b.advertisedMaxMv == q.sourceMaxMv
    && b.sourceMinMv == q.operationalSourceMinMv
    && b.sourceMaxMv == q.operationalSourceMaxMv
    && b.sourceMaxMa == q.sourceMaxMa
    && b.sourcePowerLimitMw == q.sourcePowerLimitMw
  }

  predicate Answerable(b: Boundary, q: Query, project: Projection)
  {
    IsValid(b) && Matches(b, q) && HasMinimumCoverage(b, project)
  }

  /** The greatest equilibrium current among the points of `s` that the query's contract covers. */
  function CurrentClass(s: seq<Point>, currentMa: u16): (r: Option<u16>)
    ensures r.Some? ==> exists k :: 0 <= k < |s| && !s[k].trackingOnly && s[k].requestCurrentMa == r.value <= currentMa
    ensures forall k :: 0 <= k < |s| && !s[k].trackingOnly && s[k].requestCurrentMa <= currentMa ==>
              r.Some? && s[k].requestCurrentMa <= r.value
  {
    if s == [] then None
    else
      var n := |s| - 1;
      var best := CurrentClass(s[..n], currentMa);
      if !s[n].trackingOnly && s[n].requestCurrentMa <= currentMa &&
         (best.None? || s[n].requestCurrentMa >= best.value)
      then Some(s[n].requestCurrentMa)
      else assert best.Some? ==> exists k :: 0 <= k < n && !s[..n][k].trackingOnly && s[..n][k] == s[k] &&
                                             s[k].requestCurrentMa == best.value; best
  }

  lemma ClassOfPrefix(s: seq<Point>, currentMa: u16, k: nat)
    requires k < |s|
    ensures var best := CurrentClass(s[..k], currentMa);
            CurrentClass(s[..k + 1], currentMa) ==
              if !s[k].trackingOnly && s[k].requestCurrentMa <= currentMa &&
                 (best.None? || s[k].requestCurrentMa >= best.value)
              then Some(s[k].requestCurrentMa) else best
  {
    assert s[..k + 1][..k] == s[..k];
  }

  predicate PowerSafe(b: Boundary, p: Point)
  {
    TerminalTrackingCurrentMa(b.sourcePowerLimitMw, p.trackingRequestMv) == Some(p.requestCurrentMa)
  }

  /** The point belongs to the contract asked for. */
  predicate InClass(b: Boundary, q: Query, p: Point)
  {
    if q.currentMa >= 3_000 then
      p.trackingOnly && p.requestCurrentMa <= q.currentMa && (p.requestCurrentMa == 3_000 || PowerSafe(b, p))
    else
      || (!p.trackingOnly && CurrentClass(Stored(b), q.currentMa) == Some(p.requestCurrentMa))
      || (p.trackingOnly && p.requestCurrentMa == q.currentMa && PowerSafe(b, p))
  }

  predicate IsTerminal(b: Boundary, p: Point)
  {
    p.trackingOnly && p.requestCurrentMa < 3_000 && PowerSafe(b, p)
  }

  /** The terminal request is still more than one controller step away. */
  predicate NeedsMargin(b: Boundary, q: Query, p: Point)
  {
    IsTerminal(b, p) &&
    (q.currentRequestMv.None? ||
     q.currentRequestMv.value < SatSub(p.trackingRequestMv, TERMINAL_HANDOFF_REQUEST_STEP_MV))
  }

  /** The live reading has reached the stored one. */
  predicate ReadingReached(q: Query, p: Point)
  {
    q.currentRtdMv.Some? && q.currentRtdMv.value >= p.rtdMv
  }

  predicate WithinCarryGap(b: Boundary, q: Query, p: Point, centiC: i16)
  {
    !NeedsMargin(b, q, p) && 0 <= q.temperatureCentiC - centiC <= MAX_OBSERVED_LOOKUP_GAP_CENTI_C
  }

  predicate TerminalHandoff(b: Boundary, q: Query, p: Point, centiC: i16)
  {
    IsTerminal(b, p) &&
    if NeedsMargin(b, q, p) then 1 <= centiC - q.temperatureCentiC <= MAX_TERMINAL_PRE_HANDOFF_GAP_CENTI_C
    else 0 <= centiC - q.temperatureCentiC <= MAX_OBSERVED_LOOKUP_GAP_CENTI_C
  }

  predicate ConfirmedHandoff(q: Query, p: Point, centiC: i16)
  {
    p.trackingOnly && q.currentRequestMv == Some(p.trackingRequestMv) &&
    0 <= centiC - q.temperatureCentiC <= MAX_CONFIRMED_REQUEST_HANDOFF_GAP_CENTI_C
  }

  /** One of the four windows admits the point. */
  predicate Eligible(b: Boundary, q: Query, project: Projection, p: Point): (r: bool)
    ensures r ==> project(p.rtdMv).Some?
  {
    && InClass(b, q, p)
    && project(p.rtdMv).Some?
    && var centiC := project(p.rtdMv).value;
       || ReadingReached(q, p)
       || WithinCarryGap(b, q, p, centiC)
       || TerminalHandoff(b, q, p, centiC)
       || ConfirmedHandoff(q, p, centiC)
  }

  /** Lexicographically greater in projected temperature, then request voltage. */
  predicate Above(project: Projection, p: Point, r: Point)
    requires project(p.rtdMv).Some? && project(r.rtdMv).Some?
  {
    var t, u := project(p.rtdMv).value, project(r.rtdMv).value;
    t > u || (t == u && p.trackingRequestMv > r.trackingRequestMv)
  }

  /** The first lexicographically greatest of the eligible points of `s`. */
  function Best(b: Boundary, q: Query, project: Projection, s: seq<Point>): (r: Option<Point>)
    ensures r.Some? ==> Eligible(b, q, project, r.value)
  {
    if s == [] then None
    else
      var n := |s| - 1;
      var best := Best(b, q, project, s[..n]);
      if Eligible(b, q, project, s[n]) && (best.None? || Above(project, s[n], best.value)) then Some(s[n]) else best
  }

  function SafePoint(b: Boundary, q: Query, project: Projection): (r: Option<Point>)
  {
    if Answerable(b, q, project) then Best(b, q, project, Stored(b)) else None
  }

  /** Some eligible point exists exactly when one is selected, and none is above the selection. */
  lemma {:induction false} BestIsGreatest(b: Boundary, q: Query, project: Projection, s: seq<Point>)
    ensures var r := Best(b, q, project, s);
            && (r.Some? ==> r.value in s)
            && (forall p :: p in s && Eligible(b, q, project, p) ==> r.Some? && !Above(project, p, r.value))
  {
    hide Eligible;
    if s != [] {
      var n := |s| - 1;
      BestIsGreatest(b, q, project, s[..n]);
      forall p | p in s && Eligible(b, q, project, p)
        ensures Best(b, q, project, s).Some? && !Above(project, p, Best(b, q, project, s).value)
      {
        assert p in s[..n] || p == s[n];
      }
    }
  }

  /** The query is for the very source, range, power limit and WiFi state that were calibrated. */
  predicate SameSource(b: Boundary, q: Query)
  {
    && q.wifiStarted == b.wifiStarted
    && q.sourceMinMv == b.advertisedMinMv && q.sourceMaxMv == b.advertisedMaxMv
    && q.operationalSourceMinMv == b.sourceMinMv && q.operationalSourceMaxMv == b.sourceMaxMv
    && q.sourceMaxMa == b.sourceMaxMa && q.sourcePowerLimitMw == b.sourcePowerLimitMw
  }

  /** Some stored reading stands for 100 C or more. */
  predicate Reaches100C(b: Boundary, project: Projection)
  {
    exists k :: 0 <= k < b.pointCount <= 41 && project(b.points[k].rtdMv).Some? &&
                project(b.points[k].rtdMv).value >= 10_000
  }

  lemma AnswerableMeans(b: Boundary, q: Query, project: Projection)
    ensures Answerable(b, q, project) <==> IsValid(b) && SameSource(b, q) && Reaches100C(b, project)
  {
    hide PointValid;
    if IsValid(b) {
      assert forall k :: 0 <= k < b.pointCount ==> Stored(b)[k] == b.points[k];
    }
  }

  /** The lookup answers exactly when the boundary is valid and reaches 100 C, the query is for its very
      source and some stored point is eligible; then with an eligible stored point that no eligible stored
      point is above. */
  lemma SafePointIsGreatest(b: Boundary, q: Query, project: Projection)
    ensures var r := SafePoint(b, q, project);
            && (r.Some? <==>
                  && IsValid(b) && SameSource(b, q) && Reaches100C(b, project)
                  && exists p :: p in Stored(b) && Eligible(b, q, project, p))
            && (r.Some? ==> r.value in Stored(b) && Eligible(b, q, project, r.value))
            && (r.Some? ==> forall p :: p in Stored(b) && Eligible(b, q, project, p) ==> !Above(project, p, r.value))
  {
    AnswerableMeans(b, q, project);
    hide Eligible, Answerable, Best, IsValid, SameSource, Reaches100C;
    BestIsGreatest(b, q, project, Stored(b));
  }

  // ---------------------------------------------------------------------------------------------
  // The windows, class by class.

  /** The live reading has reached the stored one, or the live temperature is at most 18 C above it. */
  predicate ReachedOrCarried(q: Query, p: Point, centiC: i16)
  {
    || (q.currentRtdMv.Some? && q.currentRtdMv.value >= p.rtdMv)
    || 0 <= q.temperatureCentiC - centiC <= 1_800
  }

  /** The request is confirmed already, and the live temperature at most 3 C below. */
  predicate Confirmed(q: Query, p: Point, centiC: i16)
  {
    q.currentRequestMv == Some(p.trackingRequestMv) && 0 <= centiC - q.temperatureCentiC <= 300
  }

  /** A 3 A tracking point serves queries of 3 A or more: reached, carried or confirmed. */
  lemma ThreeAmpWindows(b: Boundary, q: Query, project: Projection, p: Point)
    requires p.trackingOnly && p.requestCurrentMa == 3_000
    ensures Eligible(b, q, project, p) <==>
            && q.currentMa >= 3_000 && project(p.rtdMv).Some?
            && var t := project(p.rtdMv).value; ReachedOrCarried(q, p, t) || Confirmed(q, p, t)
  {
    hide TerminalTrackingCurrentMa, CurrentClass;
  }

  /** A terminal point serves queries of its own current and of 3 A or more. Within 500 mV of the confirmed
      request it is handed over from 18 C below; further away only from 1 to 1200 hundredths below. */
  lemma TerminalWindows(b: Boundary, q: Query, project: Projection, p: Point)
    requires p.trackingOnly && p.requestCurrentMa < 3_000
    ensures var near := q.currentRequestMv.Some? && q.currentRequestMv.value + 500 >= p.trackingRequestMv;
            Eligible(b, q, project, p) <==>
            && TerminalTrackingCurrentMa(b.sourcePowerLimitMw, p.trackingRequestMv) == Some(p.requestCurrentMa)
            && (q.currentMa >= 3_000 || q.currentMa == p.requestCurrentMa) && project(p.rtdMv).Some?
            && var t := project(p.rtdMv).value;
               || (q.currentRtdMv.Some? && q.currentRtdMv.value >= p.rtdMv)
               || (near && -1_800 <= q.temperatureCentiC - t <= 1_800)
               || (!near && 1 <= t - q.temperatureCentiC <= 1_200)
               || Confirmed(q, p, t)
  {
    hide TerminalTrackingCurrentMa, CurrentClass;
  }

  /** An equilibrium point serves queries below 3 A, if none stored at a greater current is covered. */
  lemma EquilibriumWindows(b: Boundary, q: Query, project: Projection, p: Point)
    requires p in Stored(b) && !p.trackingOnly
    ensures Eligible(b, q, project, p) <==>
            && q.currentMa < 3_000 && p.requestCurrentMa <= q.currentMa
            && (forall o :: o in Stored(b) && !o.trackingOnly && o.requestCurrentMa <= q.currentMa ==>
                  o.requestCurrentMa <= p.requestCurrentMa)
            && project(p.rtdMv).Some? && ReachedOrCarried(q, p, project(p.rtdMv).value)
  {
    hide TerminalTrackingCurrentMa, CurrentClass;
    GreatestClass(Stored(b), q.currentMa, p);
  }

  lemma GreatestClass(s: seq<Point>, currentMa: u16, p: Point)
    requires p in s && !p.trackingOnly
    ensures CurrentClass(s, currentMa) == Some(p.requestCurrentMa) <==>
            && p.requestCurrentMa <= currentMa
            && (forall o :: o in s && !o.trackingOnly && o.requestCurrentMa <= currentMa ==>
                  o.requestCurrentMa <= p.requestCurrentMa)
  {
    var r := CurrentClass(s, currentMa);
    if r.Some? {
      var k :| 0 <= k < |s| && !s[k].trackingOnly && s[k].requestCurrentMa == r.value <= currentMa;
      assert s[k] in s;
    }
  }

  /** A power-safe point above 3 A serves queries of its current or more, in the windows of a 3 A point. */
  lemma HighWindows(b: Boundary, q: Query, project: Projection, p: Point)
    requires p.trackingOnly && p.requestCurrentMa > 3_000
    ensures Eligible(b, q, project, p) <==>
            && p.requestCurrentMa <= q.currentMa && project(p.rtdMv).Some?
            && TerminalTrackingCurrentMa(b.sourcePowerLimitMw, p.trackingRequestMv) == Some(p.requestCurrentMa)
            && var t := project(p.rtdMv).value; ReachedOrCarried(q, p, t) || Confirmed(q, p, t)
  {
    hide TerminalTrackingCurrentMa, CurrentClass;
  }

  // ---------------------------------------------------------------------------------------------
  // Storage order does not matter.

  /** Two tables that hold the same points, in whatever order and multiplicity. */
  ghost predicate SamePoints(b: Boundary, c: Boundary)
  {
    c == b.(pointCount := c.pointCount, points := c.points) &&
    (forall p :: p in Stored(b) <==> p in Stored(c))
  }

  lemma SameClass(b: Boundary, c: Boundary, currentMa: u16)
    requires SamePoints(b, c)
    ensures CurrentClass(Stored(b), currentMa) == CurrentClass(Stored(c), currentMa)
  {
    ClassTransfers(Stored(b), Stored(c), currentMa);
    ClassTransfers(Stored(c), Stored(b), currentMa);
  }

  lemma ClassTransfers(s: seq<Point>, t: seq<Point>, currentMa: u16)
    requires forall p :: p in s ==> p in t
    ensures CurrentClass(s, currentMa).Some? ==>
              CurrentClass(t, currentMa).Some? && CurrentClass(s, currentMa).value <= CurrentClass(t, currentMa).value
  {
    var r := CurrentClass(s, currentMa);
    if r.Some? {
      var k :| 0 <= k < |s| && !s[k].trackingOnly && s[k].requestCurrentMa == r.value <= currentMa;
      assert s[k] in t;
      var j :| 0 <= j < |t| && t[j] == s[k];
    }
  }

  lemma SameEligible(b: Boundary, c: Boundary, q: Query, project: Projection, p: Point)
    requires SamePoints(b, c)
    ensures Eligible(b, q, project, p) == Eligible(c, q, project, p)
  {
    hide TerminalTrackingCurrentMa, CurrentClass;
    SameClass(b, c, q.currentMa);
  }

  lemma SameAnswerable(b: Boundary, c: Boundary, q: Query, project: Projection)
    requires SamePoints(b, c) && Answerable(b, q, project) && c.pointCount <= MAX_BOUNDARY_POINTS
    ensures Answerable(c, q, project)
  {
    hide TerminalTrackingCurrentMa;
    var k :| 0 <= k < |Stored(b)| && project(Stored(b)[k].rtdMv).Some? &&
             project(Stored(b)[k].rtdMv).value >= MIN_BOUNDARY_COVERAGE_CENTI_C;
    assert Stored(b)[k] in Stored(c);
    var j :| 0 <= j < |Stored(c)| && Stored(c)[j] == Stored(b)[k];
    forall i | 0 <= i < c.pointCount
      ensures PointValid(c, c.points[i])
    {
      assert Stored(c)[i] in Stored(b);
      var m :| 0 <= m < |Stored(b)| && Stored(b)[m] == Stored(c)[i];
      assert PointValid(b, b.points[m]);
    }
  }

  /** The selected voltage does not depend on the order in which the points are stored. */
  lemma OrderIndependent(b: Boundary, c: Boundary, q: Query, project: Projection)
    requires SamePoints(b, c) && b.pointCount <= MAX_BOUNDARY_POINTS && c.pointCount <= MAX_BOUNDARY_POINTS
    ensures SafePoint(b, q, project).Some? == SafePoint(c, q, project).Some?
    ensures SafePoint(b, q, project).Some? ==>
              SafePoint(b, q, project).value.trackingRequestMv == SafePoint(c, q, project).value.trackingRequestMv
  {
    hide Eligible, Answerable, Best;
    if Answerable(b, q, project) {
      SameAnswerable(b, c, q, project);
    }
    if Answerable(c, q, project) {
      SameAnswerable(c, b, q, project);
    }
    BestIsGreatest(b, q, project, Stored(b));
    BestIsGreatest(c, q, project, Stored(c));
    var r, t := Best(b, q, project, Stored(b)), Best(c, q, project, Stored(c));
    if r.Some? {
      SameEligible(b, c, q, project, r.value);
    }
    if t.Some? {
      SameEligible(b, c, q, project, t.value);
    }
  }

  // ---------------------------------------------------------------------------------------------
  // A warmer reading.

  ghost predicate StrictlyIncreasing(project: Projection)
  {
    forall x: u16, y: u16 :: x < y && project(x).Some? && project(y).Some? ==> project(x).value < project(y).value
  }

  /** The live temperature is the projection of the live reading. */
  predicate Consistent(q: Query, project: Projection)
  {
    q.currentRtdMv.Some? && project(q.currentRtdMv.value) == Some(q.temperatureCentiC)
  }

  /** Under a consistent reading, a point at or below the live temperature has been reached. */
  lemma ReachedIffNotWarmer(q: Query, project: Projection, p: Point)
    requires StrictlyIncreasing(project) && Consistent(q, project) && project(p.rtdMv).Some?
    ensures ReadingReached(q, p) <==> project(p.rtdMv).value <= q.temperatureCentiC
  {
    var live := q.currentRtdMv.value;
    assert project(live).Some?;
  }

  /** Eligibility is never lost by warming up. */
  lemma EligibleWhenWarmer(b: Boundary, q: Query, w: Query, project: Projection, p: Point)
    requires StrictlyIncreasing(project) && Consistent(q, project) && Consistent(w, project)
    requires w == q.(temperatureCentiC := w.temperatureCentiC, currentRtdMv := w.currentRtdMv)
    requires q.temperatureCentiC <= w.temperatureCentiC
    requires Eligible(b, q, project, p)
    ensures Eligible(b, w, project, p)
  {
    hide StrictlyIncreasing, PowerSafe, CurrentClass, ReadingReached;
    ReachedIffNotWarmer(q, project, p);
    ReachedIffNotWarmer(w, project, p);
  }

  /** With contract and confirmed request fixed, a warmer consistent reading never loses the result
      and never selects a colder point, whichever windows admitted them. */
  lemma WarmerNeverColder(b: Boundary, q: Query, w: Query, project: Projection)
    requires StrictlyIncreasing(project) && Consistent(q, project) && Consistent(w, project)
    requires w == q.(temperatureCentiC := w.temperatureCentiC, currentRtdMv := w.currentRtdMv)
    requires q.temperatureCentiC <= w.temperatureCentiC
    requires SafePoint(b, q, project).Some?
    ensures SafePoint(b, w, project).Some?
    ensures var p, r := SafePoint(b, q, project).value, SafePoint(b, w, project).value;
            && project(p.rtdMv).Some? && project(r.rtdMv).Some?
            && project(p.rtdMv).value <= project(r.rtdMv).value
            && !Above(project, p, r)
  {
    hide Eligible, StrictlyIncreasing, HasMinimumCoverage, IsValid, Best;
    var p := SafePoint(b, q, project).value;
    BestIsGreatest(b, q, project, Stored(b));
    BestIsGreatest(b, w, project, Stored(b));
    EligibleWhenWarmer(b, q, w, project, p);
  }

  // ---------------------------------------------------------------------------------------------
  // The cold start.

  predicate ThreeAmpTracking(p: Point) { p.requestCurrentMa == 3_000 && p.trackingOnly }

  /** The first of the 3 A tracking points least in projected temperature, then voltage. */
  function Coldest(project: Projection, s: seq<Point>): (r: Option<Point>)
    ensures r.Some? ==> r.value in s && ThreeAmpTracking(r.value) && project(r.value.rtdMv).Some?
  {
    if s == [] then None
    else
      var n := |s| - 1;
      var best := Coldest(project, s[..n]);
      if ThreeAmpTracking(s[n]) && project(s[n].rtdMv).Some? && (best.None? || Above(project, best.value, s[n]))
      then Some(s[n]) else best
  }

  lemma {:induction false} ColdestIsLeast(project: Projection, s: seq<Point>)
    ensures var r := Coldest(project, s);
            forall p :: p in s && ThreeAmpTracking(p) && project(p.rtdMv).Some? ==>
              r.Some? && !Above(project, r.value, p)
  {
    if s != [] {
      var n := |s| - 1;
      ColdestIsLeast(project, s[..n]);
      forall p | p in s && ThreeAmpTracking(p) && project(p.rtdMv).Some?
        ensures Coldest(project, s).Some? && !Above(project, Coldest(project, s).value, p)
      {
        assert p in s[..n] || p == s[n];
      }
    }
  }

  function SafePointOrColdStart(b: Boundary, q: Query, project: Projection): (r: Option<Point>)
  {
    if SafePoint(b, q, project).Some? then SafePoint(b, q, project)
    else if !Answerable(b, q, project) then None
    else
      var coldest := Coldest(project, Stored(b));
      if coldest.Some? && q.temperatureCentiC < project(coldest.value.rtdMv).value then coldest else None
  }

  /** Whatever the lookup or the cold start answers, it answers for the source that was calibrated. */
  lemma AnswerIsForThisSource(b: Boundary, q: Query, project: Projection)
    requires SafePointOrColdStart(b, q, project).Some?
    ensures IsValid(b) && SameSource(b, q) && Reaches100C(b, project) && 1 <= b.pointCount <= 41
  {
    AnswerableMeans(b, q, project);
    hide Eligible, Answerable, Best, PointValid, SameSource, Reaches100C;
  }

  /** Without an eligible point the cold start answers exactly below every 3 A tracking temperature of a
      boundary that matches, and then with a coldest 3 A tracking point, the one of lowest voltage. */
  lemma ColdStartMeans(b: Boundary, q: Query, project: Projection)
    requires SafePoint(b, q, project).None?
    ensures var r := SafePointOrColdStart(b, q, project);
            && (r.Some? <==>
                  && IsValid(b) && SameSource(b, q) && Reaches100C(b, project)
                  && (exists p :: p in Stored(b) && ThreeAmpTracking(p) && project(p.rtdMv).Some?)
                  && (forall p :: p in Stored(b) && ThreeAmpTracking(p) && project(p.rtdMv).Some? ==>
                        q.temperatureCentiC < project(p.rtdMv).value))
            && (r.Some? ==>
                  && r.value in Stored(b) && ThreeAmpTracking(r.value) && project(r.value.rtdMv).Some?
                  && forall p :: p in Stored(b) && ThreeAmpTracking(p) && project(p.rtdMv).Some? ==>
                       !Above(project, r.value, p))
  {
    AnswerableMeans(b, q, project);
    hide Answerable, SafePoint, Coldest, IsValid, SameSource, Reaches100C;
    ColdestIsLeast(project, Stored(b));
  }

  /** What the controller may do with a selected point: stay in the operational range, or draw no
      more than the source's power limit. */
  predicate Authorised(b: Boundary, p: Point)
  {
    || b.sourceMinMv <= p.trackingRequestMv <= b.sourceMaxMv
    || p.trackingRequestMv * p.requestCurrentMa <= b.sourcePowerLimitMw * 1_000
  }

  lemma ValidIsAuthorised(b: Boundary, p: Point)
    requires HeaderValid(b) && PointValid(b, p)
    ensures Authorised(b, p)
  {
    hide TerminalTrackingCurrentMa;
    if TerminalTracking(b, p) {
      TerminalPowerBound(b.sourcePowerLimitMw, p.trackingRequestMv);
    }
  }

  lemma StoredIsValid(b: Boundary, p: Point)
    requires IsValid(b) && p in Stored(b)
    ensures HeaderValid(b) && PointValid(b, p)
  {
    hide PointValid;
    var k :| 0 <= k < |Stored(b)| && Stored(b)[k] == p;
    assert PointValid(b, b.points[k]);
  }

  /** Every answer is a stored, authorised point. */
  lemma AnswerIsAuthorised(b: Boundary, q: Query, project: Projection)
    requires SafePointOrColdStart(b, q, project).Some?
    ensures var p := SafePointOrColdStart(b, q, project).value; p in Stored(b) && Authorised(b, p)
  {
    hide Eligible, HasMinimumCoverage, IsValid, Authorised;
    BestIsGreatest(b, q, project, Stored(b));
    StoredIsValid(b, SafePointOrColdStart(b, q, project).value);
    ValidIsAuthorised(b, SafePointOrColdStart(b, q, project).value);
  }

  /** An answer stays within the query's current exactly when a window admitted it or the query is
      for 3 A: the cold start hands a 3 A point to lower-current queries too. */
  lemma AnswerCurrent(b: Boundary, q: Query, project: Projection)
    requires SafePointOrColdStart(b, q, project).Some?
    ensures SafePointOrColdStart(b, q, project).value.requestCurrentMa <= q.currentMa <==>
            SafePoint(b, q, project).Some? || q.currentMa >= 3_000
  {
    hide HasMinimumCoverage, IsValid, PowerSafe, ReadingReached, WithinCarryGap, TerminalHandoff, ConfirmedHandoff;
  }

  /** A matching query of 3 A or more on a boundary with coverage and a projectable 3 A tracking
      point is always answered, within its current and authorised. */
  lemma ThreeAmpAlwaysAnswered(b: Boundary, q: Query, project: Projection, p: Point)
    requires StrictlyIncreasing(project) && Consistent(q, project)
    requires Answerable(b, q, project) && q.currentMa >= 3_000
    requires p in Stored(b) && ThreeAmpTracking(p) && project(p.rtdMv).Some?
    ensures var r := SafePointOrColdStart(b, q, project);
            r.Some? && r.value.requestCurrentMa <= q.currentMa && Authorised(b, r.value)
  {
    hide Answerable, StrictlyIncreasing, PowerSafe, Authorised, ReadingReached, Best, Coldest;
    BestIsGreatest(b, q, project, Stored(b));
    ColdestIsLeast(project, Stored(b));
    var c := Coldest(project, Stored(b)).value;
    ReachedIffNotWarmer(q, project, c);
    if c.requestCurrentMa == 3_000 && ReadingReached(q, c) {
      assert Eligible(b, q, project, c);
    }
    AnswerCurrent(b, q, project);
    AnswerIsAuthorised(b, q, project);
  }

  // ---------------------------------------------------------------------------------------------
  // A cold start above the contract asked for.

  function OneThreeAmpPoint(): Boundary
  {
    Boundary(AdcMetadata(3_300, 0, 0, 0, 0, 0), false, false, 6_000, 20_000, 3_000, 0, 5_000, 20_000, 1,
             [Point(0, 0, 2_000, 0, 1_000, 3_000, 12_000, 0, true)] + seq(MAX_BOUNDARY_POINTS - 1, _ => DEFAULT_POINT))
  }

  function TenPerMv(rtdMv: u16): Option<i16> { if rtdMv <= 3_000 then Some(rtdMv * 10) else None }

  /** A cold 2 A query on a boundary with one 3 A point is handed that 3 A point. */
  lemma ColdStartExceedsQuery()
    ensures var b := OneThreeAmpPoint();
            var q := Query(1_000, Some(100), None, 2_000, false, 5_000, 20_000, 6_000, 20_000, 3_000, 0);
            && StrictlyIncreasing(TenPerMv) && Consistent(q, TenPerMv) && Answerable(b, q, TenPerMv)
            && SafePointOrColdStart(b, q, TenPerMv).Some?
            && SafePointOrColdStart(b, q, TenPerMv).value.requestCurrentMa == 3_000 > q.currentMa
  {
    hide TerminalTrackingCurrentMa;
    var b := OneThreeAmpPoint();
    var q := Query(1_000, Some(100), None, 2_000, false, 5_000, 20_000, 6_000, 20_000, 3_000, 0);
    var p := b.points[0];
    assert Stored(b) == [p] && [p][..0] == [];
    assert PointValid(b, p);
    assert Stored(b)[0] == p && TenPerMv(p.rtdMv) == Some(20_000);
    hide CurrentClass;
    assert !Eligible(b, q, TenPerMv, p);
    assert Best(b, q, TenPerMv, [p]).None?;
    assert Coldest(TenPerMv, [p]) == Some(p);
  }
}
