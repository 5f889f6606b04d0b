/** The supply boundary as the firmware keeps it: a record with a fixed array of point slots,
    updated in place, and proved equal to the value model at every operation. */
module BoundaryStore {
  import opened Arithmetic
  import opened BoundaryData
  import BitPacking
  import BoundaryCodec
  import BoundaryLookup

  /** Store `s` at `at`; the bytes before it and those from `keep` on stay. */
  method Put(out: array<u8>, at: nat, s: seq<u8>, ghost keep: nat)
    requires at + |s| <= keep <= out.Length
    modifies out
    ensures out[..at + |s|] == old(out[..at]) + s
    ensures out[keep..] == old(out[keep..])
  {
    for j := 0 to |s|
      invariant forall k :: 0 <= k < out.Length ==> out[k] == if at <= k < at + j then s[k - at] else old(out[k])
    {
      out[at + j] := s[j];
    }
  }

  class SupplyBoundary {
    var adc: AdcMetadata
    var wifiStarted: bool
    var cutoffReached: bool
    var sourceMinMv: u16
    var sourceMaxMv: u16
    var sourceMaxMa: u16
    var sourcePowerLimitMw: u32
    var advertisedMinMv: u16
    var advertisedMaxMv: u16
    var pointCount: u8
    const points: array<Point>

    ghost predicate Valid()
      reads this
    {
      points.Length == MAX_BOUNDARY_POINTS && pointCount <= MAX_BOUNDARY_POINTS
    }

    /** The boundary as a value. */
    ghost function View(): Boundary
      reads this, points
      requires points.Length == MAX_BOUNDARY_POINTS
    {
      Boundary(adc, wifiStarted, cutoffReached, sourceMinMv, sourceMaxMv, sourceMaxMa, sourcePowerLimitMw,
               advertisedMinMv, advertisedMaxMv, pointCount, points[..])
    }

    constructor (b: Boundary)
      requires b.pointCount <= MAX_BOUNDARY_POINTS
      ensures Valid() && View() == b && fresh(points)
    {
      adc, wifiStarted, cutoffReached := b.adc, b.wifiStarted, b.cutoffReached;
      sourceMinMv, sourceMaxMv, sourceMaxMa := b.sourceMinMv, b.sourceMaxMv, b.sourceMaxMa;
      sourcePowerLimitMw := b.sourcePowerLimitMw;
      advertisedMinMv, advertisedMaxMv := b.advertisedMinMv, b.advertisedMaxMv;
      pointCount := b.pointCount;
      points := new Point[MAX_BOUNDARY_POINTS](i requires 0 <= i < MAX_BOUNDARY_POINTS => b.points[i]);
      new;
      assert points[..] == b.points;
    }

    method Value() returns (b: Boundary)
      requires Valid()
      ensures b == View()
    {
      b := Boundary(adc, wifiStarted, cutoffReached, sourceMinMv, sourceMaxMv, sourceMaxMa, sourcePowerLimitMw,
                    advertisedMinMv, advertisedMaxMv, pointCount, points[..]);
    }

    /** An equilibrium point overwrites the stored one of its current; any other point is appended. */
    method Retain(p: Point) returns (accepted: bool)
      requires Valid()
      modifies this`pointCount, points
      ensures Valid() && Retained(View(), accepted) == BoundaryData.Retain(old(View()), p)
    {
      ghost var stored := Stored(View());
      var i := 0;
      while i < pointCount
        invariant 0 <= i <= pointCount == old(pointCount) && points[..] == old(points[..])
        invariant forall k :: 0 <= k < i ==>
                    p.trackingOnly || points[k].trackingOnly || points[k].requestCurrentMa != p.requestCurrentMa
      {
        if !p.trackingOnly && !points[i].trackingOnly && points[i].requestCurrentMa == p.requestCurrentMa {
          assert ReplacedIndex(stored, p) == i;
          points[i] := p;
          assert points[..] == old(points[..])[i := p];
          return true;
        }
        i := i + 1;
      }
      assert ReplacedIndex(stored, p) == |stored|;
      if pointCount >= MAX_BOUNDARY_POINTS {
        return false;
      }
      points[pointCount] := p;
      pointCount := pointCount + 1;
      assert points[..] == old(points[..])[old(pointCount) := p];
      return true;
    }

    method CheckValid() returns (ok: bool)
      requires Valid()
      ensures ok == IsValid(View())
    {
      ghost var b := View();
      if pointCount < 1 {
        return false;
      }
      var header := 3_000 <= adc.dividerSupplyMv <= 3_600 && sourceMinMv >= 5_500 && sourceMaxMv <= 21_000 &&
                    sourceMinMv <= sourceMaxMv && advertisedMinMv > 0 && advertisedMinMv <= sourceMinMv &&
                    advertisedMaxMv >= sourceMaxMv && sourceMaxMa == 3_000 &&
                    (sourcePowerLimitMw == 0 ||
                     (16_500 <= sourcePowerLimitMw <= 105_000 && sourcePowerLimitMw % 10 == 0));
      if !header {
        return false;
      }
      for k := 0 to pointCount
        invariant forall j :: 0 <= j < k ==> PointValid(b, b.points[j])
      {
        var p := points[k];
        var current := TerminalTrackingCurrentMa(sourcePowerLimitMw, p.trackingRequestMv);
        var terminal := p.trackingOnly && p.trackingRequestMv > sourceMaxMv &&
                        p.trackingRequestMv <= advertisedMaxMv && current == Some(p.requestCurrentMa);
        var regular := RegularCurrent(p.requestCurrentMa);
        var voltage := terminal || (regular && sourceMinMv <= p.trackingRequestMv <= sourceMaxMv);
        if !(voltage && p.trackingRequestMv % 100 == 0 &&
             (p.flatRequestMv == 0 || (p.flatRequestMv > p.trackingRequestMv && p.flatRequestMv <= sourceMaxMv)) &&
             ReadingsFit(p) && (!p.trackingOnly || p.requestCurrentMa == 3_000 || terminal)) {
          assert !PointValid(b, b.points[k]);
          return false;
        }
        assert PointValid(b, b.points[k]);
      }
      return true;
    }

    /** Refused, with the buffer untouched, exactly when the boundary is invalid or does not fit;
        otherwise the buffer starts with the encoding and keeps its other bytes. */
    method Encode(out: array<u8>) returns (len: Option<nat>)
      requires Valid()
      modifies out
      ensures len.Some? <==>
                IsValid(View()) &&
                BoundaryCodec.HEADER_BYTES + BoundaryCodec.POINT_BYTES * pointCount <= out.Length
      ensures len.None? ==> out[..] == old(out[..])
      ensures len.Some? ==>
                && len.value <= out.Length
                && out[..len.value] == BoundaryCodec.Encode(View())
                && out[len.value..] == old(out[len.value..])
    {
      hide PointValid, BoundaryCodec.HeaderBytes, BoundaryCodec.EncodePoints;
      ghost var b := View();
      var ok := CheckValid();
      if !ok {
        return None;
      }
      var total := BoundaryCodec.HEADER_BYTES + BoundaryCodec.POINT_BYTES * pointCount;
      if out.Length < total {
        return None;
      }
      PutHeader(out, total);
      PutPoints(out);
      return Some(total);
    }

    method PutHeader(out: array<u8>, ghost keep: nat)
      requires Valid() && sourcePowerLimitMw / 10 <= 0xffff && BoundaryCodec.HEADER_BYTES <= keep <= out.Length
      modifies out
      ensures out[..BoundaryCodec.HEADER_BYTES] == BoundaryCodec.HeaderBytes(View())
      ensures out[keep..] == old(out[keep..])
    {
      hide BitPacking.LeBytes;
      var scalars := [BoundaryCodec.FORMAT_VERSION, BoundaryCodec.Flag(wifiStarted), pointCount, adc.efuseVersion,
                      adc.attenuationDb, BoundaryCodec.Flag(cutoffReached)];
      var words := [adc.dividerSupplyMv, adc.referenceMv, adc.referenceCode, adc.initCode, sourceMinMv, sourceMaxMv,
                    sourceMaxMa, advertisedMinMv, advertisedMaxMv];
      Put(out, 0, scalars, keep);
      for k := 0 to |words|
        invariant out[..6 + 2 * k] == scalars + BoundaryCodec.Words(words[..k])
        invariant out[keep..] == old(out[keep..])
      {
        assert words[..k + 1][..k] == words[..k];
        Put(out, 6 + 2 * k, BitPacking.LeBytes(words[k], 2), keep);
      }
      assert words[..9] == BoundaryCodec.HeaderWords(View());
      Put(out, 24, BitPacking.LeBytes(sourcePowerLimitMw / 10, 2), keep);
    }

    method PutPoints(out: array<u8>)
      requires Valid() && IsValid(View())
      requires BoundaryCodec.HEADER_BYTES + BoundaryCodec.POINT_BYTES * pointCount <= out.Length
      requires out[..BoundaryCodec.HEADER_BYTES] == BoundaryCodec.HeaderBytes(View())
      modifies out
      ensures var total := BoundaryCodec.HEADER_BYTES + BoundaryCodec.POINT_BYTES * pointCount;
              out[..total] == BoundaryCodec.Encode(View()) && out[total..] == old(out[total..])
    {
      hide IsValid, BoundaryCodec.EncodePoint, BoundaryCodec.HeaderBytes;
      ghost var b := View();
      ghost var total := BoundaryCodec.HEADER_BYTES + BoundaryCodec.POINT_BYTES * pointCount;
      ghost var stored := b.points[..b.pointCount];
      BoundaryCodec.ValidIsEncodable(b);
      for k := 0 to pointCount
        invariant View() == b
        invariant out[..BoundaryCodec.HEADER_BYTES + BoundaryCodec.POINT_BYTES * k] ==
                  BoundaryCodec.HeaderBytes(b) + BoundaryCodec.EncodePoints(stored[..k])
        invariant out[total..] == old(out[total..])
      {
        assert stored[..k + 1][..k] == stored[..k] && stored[k] == points[k];
        var at := BoundaryCodec.HEADER_BYTES + BoundaryCodec.POINT_BYTES * k;
        Put(out, at, BoundaryCodec.EncodePoint(points[k]), total);
      }
      assert stored[..pointCount] == stored;
    }

    static method Decode(bytes: seq<u8>) returns (r: Option<Boundary>)
      ensures r == BoundaryCodec.Decode(bytes)
    {
      hide IsValid, BoundaryCodec.DecodePoint;
      if !BoundaryCodec.Framed(bytes) {
        return None;
      }
      var powerLimitMw := BoundaryCodec.U16At(bytes, 24) * 10;
      var slots := new Point[MAX_BOUNDARY_POINTS](_ => DEFAULT_POINT);
      for k := 0 to bytes[2]
        invariant BoundaryCodec.DecodePoints(bytes, powerLimitMw, k) == Some(slots[..k])
        invariant forall j :: k <= j < MAX_BOUNDARY_POINTS ==> slots[j] == DEFAULT_POINT
      {
        var p := BoundaryCodec.DecodePoint(powerLimitMw, BoundaryCodec.PointSlice(bytes, k));
        if p.None? {
          UndecodablePoint(bytes, powerLimitMw, bytes[2], k);
          return None;
        }
        slots[k] := p.value;
        assert slots[..k + 1] == slots[..k] + [p.value];
      }
      var n := bytes[2];
      var result := BoundaryCodec.FromHeader(bytes, slots[..n]);
      assert BoundaryCodec.DecodePoints(bytes, powerLimitMw, n) == Some(slots[..n]);
      if IsValid(result) {
        return Some(result);
      }
      return None;
    }

    // -------------------------------------------------------------------------------------------
    // Lookup.

    method CheckCoverage(project: BoundaryLookup.Projection) returns (ok: bool)
      requires Valid()
      ensures ok == BoundaryLookup.HasMinimumCoverage(View(), project)
    {
      ghost var stored := Stored(View());
      for k := 0 to pointCount
        invariant forall j :: 0 <= j < k ==>
                    project(stored[j].rtdMv).None? ||
                    project(stored[j].rtdMv).value < MIN_BOUNDARY_COVERAGE_CENTI_C
      {
        var t := project(points[k].rtdMv);
        if t.Some? && t.value >= MIN_BOUNDARY_COVERAGE_CENTI_C {
          assert stored[k] == points[k];
          return true;
        }
      }
      return false;
    }

    method CheckMatches(q: BoundaryLookup.Query) returns (ok: bool)
      requires Valid()
      ensures ok == BoundaryLookup.Matches(View(), q)
    {
      ok := wifiStarted == q.wifiStarted && advertisedMinMv == q.sourceMinMv && advertisedMaxMv == q.sourceMaxMv &&
            sourceMinMv == q.operationalSourceMinMv && sourceMaxMv == q.operationalSourceMaxMv &&
            sourceMaxMa == q.sourceMaxMa && sourcePowerLimitMw == q.sourcePowerLimitMw;
    }

    /** The greatest equilibrium current the query covers. */
    method FindClass(currentMa: u16) returns (r: Option<u16>)
      requires Valid()
      ensures r == BoundaryLookup.CurrentClass(Stored(View()), currentMa)
    {
      ghost var stored := Stored(View());
      assert BoundaryLookup.CurrentClass(stored[..0], currentMa) == None;
      hide BoundaryLookup.CurrentClass;
      r := None;
      for k := 0 to pointCount
        invariant r == BoundaryLookup.CurrentClass(stored[..k], currentMa)
      {
        BoundaryLookup.ClassOfPrefix(stored, currentMa, k);
        assert stored[k] == points[k];
        var p := points[k];
        if !p.trackingOnly && p.requestCurrentMa <= currentMa && (r.None? || p.requestCurrentMa >= r.value) {
          r := Some(p.requestCurrentMa);
        }
      }
      assert stored[..pointCount] == stored;
    }

    /** The first lexicographic maximum of projected temperature and request voltage over the
        eligible points. */
    method SafePoint(q: BoundaryLookup.Query, project: BoundaryLookup.Projection) returns (r: Option<Point>)
      requires Valid()
      ensures r == BoundaryLookup.SafePoint(View(), q, project)
    {
      hide IsValid, BoundaryLookup.HasMinimumCoverage, BoundaryLookup.CurrentClass, BoundaryLookup.Eligible;
      ghost var b := View();
      var ok := CheckValid();
      if !ok {
        return None;
      }
      var same := CheckMatches(q);
      if !same {
        return None;
      }
      var covered := CheckCoverage(project);
      if !covered {
        return None;
      }
      var currentClass: Option<u16> := None;
      if q.currentMa < 3_000 {
        currentClass := FindClass(q.currentMa);
      }
      var selected: Option<(Point, i16)> := None;
      ghost var stored := Stored(b);
      for k := 0 to pointCount
        invariant selected.Some? == BoundaryLookup.Best(b, q, project, stored[..k]).Some?
        invariant selected.Some? ==>
                    && BoundaryLookup.Best(b, q, project, stored[..k]) == Some(selected.value.0)
                    && project(selected.value.0.rtdMv) == Some(selected.value.1)
      {
        assert stored[..k + 1][..k] == stored[..k] && stored[k] == points[k];
        var p := points[k];
        var t := Qualifies(q, project, currentClass, p);
        if t.Some? && (selected.None? || t.value > selected.value.1 ||
                       (t.value == selected.value.1 && p.trackingRequestMv > selected.value.0.trackingRequestMv)) {
          selected := Some((p, t.value));
        }
      }
      assert stored[..pointCount] == stored;
      r := if selected.Some? then Some(selected.value.0) else None;
    }

    /** The projected temperature of an eligible point. */
    method Qualifies(q: BoundaryLookup.Query, project: BoundaryLookup.Projection, currentClass: Option<u16>, p: Point)
      returns (t: Option<i16>)
      requires Valid()
      requires q.currentMa < 3_000 ==> currentClass == BoundaryLookup.CurrentClass(Stored(View()), q.currentMa)
      ensures t.Some? <==> BoundaryLookup.Eligible(View(), q, project, p)
      ensures t.Some? ==> t == project(p.rtdMv)
    {
      hide BoundaryLookup.CurrentClass, TerminalTrackingCurrentMa, BoundaryLookup.ReadingReached,
           BoundaryLookup.WithinCarryGap, BoundaryLookup.TerminalHandoff, BoundaryLookup.ConfirmedHandoff;
      var powerSafe := TerminalTrackingCurrentMa(sourcePowerLimitMw, p.trackingRequestMv) == Some(p.requestCurrentMa);
      var inClass :=
        if q.currentMa >= 3_000 then
          p.trackingOnly && p.requestCurrentMa <= q.currentMa && (p.requestCurrentMa == 3_000 || powerSafe)
        else
          (!p.trackingOnly && Some(p.requestCurrentMa) == currentClass) ||
          (p.trackingOnly && p.requestCurrentMa == q.currentMa && powerSafe);
      t := project(p.rtdMv);
      if !inClass || t.None? {
        return None;
      }
      var admitted := Admits(q, p, t.value, powerSafe);
      if !admitted {
        return None;
      }
    }

    /** The four windows of the lookup loop. */
    method Admits(q: BoundaryLookup.Query, p: Point, centiC: i16, powerSafe: bool) returns (ok: bool)
      requires Valid() && powerSafe == BoundaryLookup.PowerSafe(View(), p)
      ensures ok <==>
                || BoundaryLookup.ReadingReached(q, p)
                || BoundaryLookup.WithinCarryGap(View(), q, p, centiC)
                || BoundaryLookup.TerminalHandoff(View(), q, p, centiC)
                || BoundaryLookup.ConfirmedHandoff(q, p, centiC)
    {
      var terminal := p.trackingOnly && p.requestCurrentMa < 3_000 && powerSafe;
      var margin := terminal &&
                    (q.currentRequestMv.None? ||
                     q.currentRequestMv.value <
                       SatSub(p.trackingRequestMv, BoundaryLookup.TERMINAL_HANDOFF_REQUEST_STEP_MV));
      var gap := q.temperatureCentiC - centiC;
      var reached := q.currentRtdMv.Some? && q.currentRtdMv.value >= p.rtdMv;
      var carried := !margin && 0 <= gap <= BoundaryLookup.MAX_OBSERVED_LOOKUP_GAP_CENTI_C;
      var handoff := terminal &&
                     if margin then 1 <= -gap <= BoundaryLookup.MAX_TERMINAL_PRE_HANDOFF_GAP_CENTI_C
                     else 0 <= -gap <= BoundaryLookup.MAX_OBSERVED_LOOKUP_GAP_CENTI_C;
      var confirmed := p.trackingOnly && q.currentRequestMv == Some(p.trackingRequestMv) &&
                       0 <= -gap <= BoundaryLookup.MAX_CONFIRMED_REQUEST_HANDOFF_GAP_CENTI_C;
      ok := reached || carried || handoff || confirmed;
    }

    /** The lookup, or the coldest 3 A tracking point below the first observed temperature. */
    method SafePointOrColdStart(q: BoundaryLookup.Query, project: BoundaryLookup.Projection)
      returns (r: Option<Point>)
      requires Valid()
      ensures r == BoundaryLookup.SafePointOrColdStart(View(), q, project)
    {
      hide IsValid, BoundaryLookup.HasMinimumCoverage, BoundaryLookup.Best;
      r := SafePoint(q, project);
      if r.Some? {
        return;
      }
      var covered := CheckCoverage(project);
      var ok := CheckValid();
      var same := CheckMatches(q);
      if !covered || !ok || !same {
        return None;
      }
      ghost var stored := Stored(View());
      var coldest: Option<Point> := None;
      for k := 0 to pointCount
        invariant coldest == BoundaryLookup.Coldest(project, stored[..k])
      {
        assert stored[..k + 1][..k] == stored[..k] && stored[k] == points[k];
        var p := points[k];
        if p.requestCurrentMa == 3_000 && p.trackingOnly && project(p.rtdMv).Some? &&
           (coldest.None? || BoundaryLookup.Above(project, coldest.value, p)) {
          coldest := Some(p);
        }
      }
      assert stored[..pointCount] == stored;
      if coldest.Some? && q.temperatureCentiC < project(coldest.value.rtdMv).value {
        return coldest;
      }
      return None;
    }
  }

  /** One undecodable point makes the whole table undecodable. */
  lemma {:induction false} UndecodablePoint(s: seq<u8>, limit: u32, n: nat, k: nat)
    requires BoundaryCodec.HEADER_BYTES + BoundaryCodec.POINT_BYTES * n <= |s| && k < n
    requires BoundaryCodec.DecodePoint(limit, BoundaryCodec.PointSlice(s, k)).None?
    ensures BoundaryCodec.DecodePoints(s, limit, n).None?
  {
    hide BoundaryCodec.DecodePoint;
    if k < n - 1 {
      UndecodablePoint(s, limit, n - 1, k);
    }
  }
}
