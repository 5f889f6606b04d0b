/** The persisted supply boundary: its points, its validity predicate and the rule by which
    a new observation enters its bounded table (firmware/src/heater_supply.rs). */
module BoundaryData {
  import opened Arithmetic

  const MAX_BOUNDARY_POINTS := 41
  const MIN_HEATED_CURRENT_MA := 2_000
  const MIN_BOUNDARY_COVERAGE_CENTI_C := 10_000

  datatype AdcMetadata = AdcMetadata(
    dividerSupplyMv: u16,
    referenceMv: u16,
    referenceCode: u16,
    initCode: u16,
    efuseVersion: u8,
    attenuationDb: u8)

  datatype Point = Point(
    elapsedMs: u32,
    rtdCode: u16,
    rtdMv: u16,
    vinCode: u16,
    vinMv: u16,
    requestCurrentMa: u16,
    trackingRequestMv: u16,
    flatRequestMv: u16,
    trackingOnly: bool)

  const DEFAULT_POINT := Point(0, 0, 0, 0, 0, 0, 0, 0, false)

  /** The fixed array of point slots. */
  type Slots = s: seq<Point> | |s| == MAX_BOUNDARY_POINTS
    witness seq(MAX_BOUNDARY_POINTS, _ => DEFAULT_POINT)

  datatype Boundary = Boundary(
    adc: AdcMetadata,
    wifiStarted: bool,
    cutoffReached: bool,
    sourceMinMv: u16,
    sourceMaxMv: u16,
    sourceMaxMa: u16,
    sourcePowerLimitMw: u32,
    advertisedMinMv: u16,
    advertisedMaxMv: u16,
    pointCount: u8,
    points: Slots)

  /** The occupied prefix of the table. A count above the table size cannot arise from the
      operations below; it reads as a full table here. */
  function Stored(b: Boundary): (r: seq<Point>)
    ensures |r| <= MAX_BOUNDARY_POINTS
  {
    b.points[..Min(b.pointCount, MAX_BOUNDARY_POINTS)]
  }

  /** A 32-bit product divided into 16 bits. */
  function Quotient16(product: nat, divisor: nat): u16
    requires divisor > 0
  {
    product % 0x1_0000_0000 / divisor % 0x1_0000
  }

  /** The greatest multiple of 50 mA the source power allows at `requestMv`, if it is at least
      1 A. The products wrap and the quotient is truncated as on the 32- and 16-bit target. */
  function TerminalTrackingCurrentMa(sourcePowerLimitMw: u32, requestMv: u16): (r: Option<u16>)
    ensures r.Some? ==> r.value >= 1_000 && r.value % 50 == 0
  {
    if sourcePowerLimitMw == 0 || requestMv == 0 then None
    else
      var currentMa := Quotient16(sourcePowerLimitMw * 1_000, requestMv) / 50 * 50;
      if currentMa >= 1_000 then Some(currentMa) else None
  }

  /** A power-safe terminal request never draws more than the source's power limit: the wrapping
      and truncating arithmetic is exact for every limit a valid boundary may carry. */
  lemma TerminalPowerBound(sourcePowerLimitMw: u32, requestMv: u16)
    requires sourcePowerLimitMw <= 105_000 && requestMv > 5_500
    ensures sourcePowerLimitMw * 1_000 < 0x1_0000_0000
    ensures sourcePowerLimitMw * 1_000 / requestMv < 0x1_0000
    ensures TerminalTrackingCurrentMa(sourcePowerLimitMw, requestMv).Some? ==>
              requestMv * TerminalTrackingCurrentMa(sourcePowerLimitMw, requestMv).value
              <= sourcePowerLimitMw * 1_000
  {
    var power := sourcePowerLimitMw * 1_000;
    assert power < 0x1_0000 * requestMv;
    DivBelow(power, requestMv, 0x1_0000);
    ExactQuotient(power, requestMv);
    hide Quotient16;
    RoundedQuotient(power, requestMv);
  }

  /** The derived current is the greatest multiple of 50 mA within the power limit, if that is 1 A or
      more: both directions, for every limit and voltage a scan can meet. */
  lemma GreatestCurrent(sourcePowerLimitMw: u32, requestMv: u16, ma: u16)
    requires sourcePowerLimitMw <= 105_000 && requestMv > 5_500
    ensures TerminalTrackingCurrentMa(sourcePowerLimitMw, requestMv) == Some(ma) <==>
            && ma >= 1_000 && ma % 50 == 0
            && requestMv * ma <= sourcePowerLimitMw * 1_000 < requestMv * (ma + 50)
  {
    var power := sourcePowerLimitMw * 1_000;
    TerminalPowerBound(sourcePowerLimitMw, requestMv);
    ExactQuotient(power, requestMv);
    hide Quotient16;
    var q := power / requestMv;
    QuotientBounds(power, requestMv);
    if sourcePowerLimitMw > 0 {
      var steps := q / 50;
      assert 50 * steps <= q < 50 * steps + 50;
      MulMonotone(requestMv, 50 * steps, q);
      MulMonotone(requestMv, q + 1, 50 * steps + 50);
      if ma % 50 == 0 && requestMv * ma <= power < requestMv * (ma + 50) {
        SameMultiple(requestMv, power, ma, q);
      }
    } else if ma >= 1_000 {
      MulMonotone(requestMv, 1, ma);
    }
  }

  lemma QuotientBounds(a: nat, b: nat)
    requires b > 0
    ensures b * (a / b) <= a < b * (a / b + 1)
  {
  }

  lemma SameMultiple(mv: nat, power: nat, ma: nat, q: nat)
    requires mv > 0 && ma % 50 == 0 && mv * ma <= power < mv * (ma + 50) && mv * q <= power < mv * (q + 1)
    ensures ma == q / 50 * 50
  {
    if q < ma {
      MulMonotone(mv, q + 1, ma);
    } else if q >= ma + 50 {
      MulMonotone(mv, ma + 50, q);
    }
  }

  /** Where the product does not wrap and the quotient is not cut off, the division is exact. */
  lemma ExactQuotient(product: nat, divisor: nat)
    requires divisor > 0 && product < 0x1_0000_0000 && product / divisor < 0x1_0000
    ensures Quotient16(product, divisor) == product / divisor
  {
    ModSmall(product, 0x1_0000_0000);
    ModSmall(product / divisor, 0x1_0000);
  }

  predicate HeaderValid(b: Boundary)
  {
    && 3_000 <= b.adc.dividerSupplyMv <= 3_600
    && b.sourceMinMv >= 5_500
    && b.sourceMaxMv <= 21_000
    && b.sourceMinMv <= b.sourceMaxMv
    && b.advertisedMinMv > 0
    && b.advertisedMinMv <= b.sourceMinMv
    && b.advertisedMaxMv >= b.sourceMaxMv
    && b.sourceMaxMa == 3_000
    && (b.sourcePowerLimitMw == 0 ||
        (16_500 <= b.sourcePowerLimitMw <= 105_000 && b.sourcePowerLimitMw % 10 == 0))
  }

  predicate TerminalTracking(b: Boundary, p: Point)
  {
    && p.trackingOnly
    && p.trackingRequestMv > b.sourceMaxMv
    && p.trackingRequestMv <= b.advertisedMaxMv
    && TerminalTrackingCurrentMa(b.sourcePowerLimitMw, p.trackingRequestMv) == Some(p.requestCurrentMa)
  }

  predicate RegularCurrent(ma: u16)
  {
    MIN_HEATED_CURRENT_MA <= ma <= 3_000 && ma % 100 == 0
  }

  /** The raw readings fit the fields they are stored in. */
  predicate ReadingsFit(p: Point)
  {
    && p.rtdCode <= 4_095
    && p.vinCode <= 4_095
    && 0 < p.rtdMv <= 4_095
    && 0 < p.vinMv <= 4_095
    && p.elapsedMs / 50 < 0x8_0000
    && p.elapsedMs % 50 == 0
  }

  predicate PointValid(b: Boundary, p: Point)
  {
    && (TerminalTracking(b, p) ||
        (RegularCurrent(p.requestCurrentMa) && b.sourceMinMv <= p.trackingRequestMv <= b.sourceMaxMv))
    && p.trackingRequestMv % 100 == 0
    && (p.flatRequestMv == 0 || p.trackingRequestMv < p.flatRequestMv <= b.sourceMaxMv)
    && ReadingsFit(p)
    && (!p.trackingOnly || p.requestCurrentMa == 3_000 || TerminalTracking(b, p))
  }

  predicate IsValid(b: Boundary)
  {
    && 1 <= b.pointCount <= MAX_BOUNDARY_POINTS
    && HeaderValid(b)
    && forall i :: 0 <= i < b.pointCount ==> PointValid(b, b.points[i])
  }

  /** Validity, limit by limit. A stored point is a regular observation in the source range at a stage
      current, at 3 A if it is tracking-only; or a tracking-only terminal observation above the range, within
      the advertised ceiling, at the current its power allows. Its readings fit the stored fields. */
  lemma ValidMeans(b: Boundary)
    ensures IsValid(b) <==>
            && 1 <= b.pointCount <= 41
            && 3_000 <= b.adc.dividerSupplyMv <= 3_600
            && 5_500 <= b.sourceMinMv <= b.sourceMaxMv <= 21_000
            && 0 < b.advertisedMinMv <= b.sourceMinMv && b.sourceMaxMv <= b.advertisedMaxMv
            && b.sourceMaxMa == 3_000
            && (b.sourcePowerLimitMw == 0 ||
                (16_500 <= b.sourcePowerLimitMw <= 105_000 && b.sourcePowerLimitMw % 10 == 0))
            && forall k :: 0 <= k < b.pointCount ==>
                 var p := b.points[k];
                 && p.trackingRequestMv % 100 == 0
                 && (p.flatRequestMv == 0 || p.trackingRequestMv < p.flatRequestMv <= b.sourceMaxMv)
                 && p.rtdCode <= 4_095 && p.vinCode <= 4_095 && 1 <= p.rtdMv <= 4_095 && 1 <= p.vinMv <= 4_095
                 && p.elapsedMs % 50 == 0 && p.elapsedMs < 26_214_400
                 && if p.trackingRequestMv <= b.sourceMaxMv
                    then && b.sourceMinMv <= p.trackingRequestMv
                         && 2_000 <= p.requestCurrentMa <= 3_000 && p.requestCurrentMa % 100 == 0
                         && (p.trackingOnly ==> p.requestCurrentMa == 3_000)
                    else && p.trackingOnly && p.trackingRequestMv <= b.advertisedMaxMv
                         && TerminalTrackingCurrentMa(b.sourcePowerLimitMw, p.trackingRequestMv)
                            == Some(p.requestCurrentMa)
  {
    hide TerminalTrackingCurrentMa;
  }

  /** The relative sag guard: the reading is at least 95 % of what `p` predicts for `requestMv`. */
  predicate VoltageResponseMatches(p: Point, requestMv: u16, vinMv: u16)
  {
    vinMv * p.trackingRequestMv * 100 >= p.vinMv * requestMv * 95
  }

  /** Index of the first stored equilibrium point with the current of equilibrium point `p`,
      or the length of `s`. */
  function ReplacedIndex(s: seq<Point>, p: Point): (i: nat)
    ensures i <= |s|
    ensures i < |s| ==> !p.trackingOnly && !s[i].trackingOnly && s[i].requestCurrentMa == p.requestCurrentMa
    ensures forall k :: 0 <= k < i ==>
              p.trackingOnly || s[k].trackingOnly || s[k].requestCurrentMa != p.requestCurrentMa
  {
    if s == [] then 0
    else if !p.trackingOnly && !s[0].trackingOnly && s[0].requestCurrentMa == p.requestCurrentMa then 0
    else 1 + ReplacedIndex(s[1..], p)
  }

  datatype Retained = Retained(boundary: Boundary, accepted: bool)

  /** An equilibrium point replaces the stored one of its current; anything else takes the next
      free slot, if there is one. */
  function Retain(b: Boundary, p: Point): Retained
  {
    var i := ReplacedIndex(Stored(b), p);
    if i < |Stored(b)| then Retained(b.(points := b.points[i := p]), true)
    else if b.pointCount >= MAX_BOUNDARY_POINTS then Retained(b, false)
    else Retained(b.(points := b.points[b.pointCount := p], pointCount := b.pointCount + 1), true)
  }

  /** Retaining accepts exactly when an equilibrium point of the same current is stored or a slot is free;
      the stored points are then the old ones with that one replaced, or with the point added, and nothing
      else changes. */
  lemma RetainMeans(b: Boundary, p: Point)
    requires b.pointCount <= 41
    ensures var r := Retain(b, p);
            var known := !p.trackingOnly && exists k :: 0 <= k < b.pointCount && !b.points[k].trackingOnly &&
                                                          b.points[k].requestCurrentMa == p.requestCurrentMa;
            && (r.accepted <==> known || b.pointCount < 41)
            && r.boundary == b.(points := r.boundary.points, pointCount := r.boundary.pointCount)
            && (!r.accepted ==> r.boundary == b)
            && (r.accepted && !known ==>
                  r.boundary.pointCount == b.pointCount + 1 && r.boundary.points == b.points[b.pointCount := p])
            && (known ==>
                  && r.boundary.pointCount == b.pointCount
                  && exists k :: 0 <= k < b.pointCount && !b.points[k].trackingOnly &&
                                 b.points[k].requestCurrentMa == p.requestCurrentMa &&
                                 r.boundary.points == b.points[k := p])
  {
    var s := Stored(b);
    var i := ReplacedIndex(s, p);
    assert forall k :: 0 <= k < b.pointCount ==> s[k] == b.points[k];
    if i < |s| {
      assert b.points[i] == s[i];
    }
  }
}
