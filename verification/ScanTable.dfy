/** What the scan keeps of its point table: one equilibrium point per current, exactly the filled
    bins as tracking points, default values in the free slots, and room for every retained point. */
module ScanTable {
  import opened Arithmetic
  import opened BoundaryData
  import opened ScanModel

  /** How much is claimed of a run. The strict form of the invariant has `lax` off and holds until a
      terminal probe below 2.9 A times out. `grid` adds that requests lie on the 100 mV grid, for a
      well-formed header; `fit` adds that readings fit their stored fields, for well-formed samples. */
  datatype Claim = Claim(lax: bool, grid: bool, fit: bool)

  predicate OnGrid(mv: u16, claim: Claim) { claim.grid ==> mv % 100 == 0 }

  /** A flat observation is absent or lies above the tracking request. */
  predicate FlatAbove(flatMv: u16, mv: u16, hi: u16, claim: Claim)
  {
    flatMv == 0 || (mv < flatMv <= hi && OnGrid(flatMv, claim))
  }

  /** A point observed by a scan over `lo..hi` millivolts, at whatever current. */
  predicate ObservedPoint(lo: u16, hi: u16, p: Point, claim: Claim)
  {
    && lo <= p.trackingRequestMv <= hi
    && OnGrid(p.trackingRequestMv, claim)
    && FlatAbove(p.flatRequestMv, p.trackingRequestMv, hi, claim)
    && (claim.fit ==> ReadingsFit(p))
  }

  /** A point observed in a regular stage. */
  predicate StagePoint(lo: u16, hi: u16, p: Point, claim: Claim)
  {
    RegularCurrent(p.requestCurrentMa) && ObservedPoint(lo, hi, p, claim)
  }

  predicate BinPoint(lo: u16, hi: u16, p: Point, claim: Claim)
  {
    StagePoint(lo, hi, p, claim) && p.requestCurrentMa == 3_000 && p.trackingOnly
  }

  /** The tracking points of `s`, in order. */
  function Tracked(s: seq<Point>): (r: seq<Point>)
  {
    if s == [] then []
    else
      var n := |s| - 1;
      Tracked(s[..n]) + (if s[n].trackingOnly then [s[n]] else [])
  }

  predicate DistinctCurrents(s: seq<Point>)
  {
    forall i, j :: 0 <= i < j < |s| ==> s[i].requestCurrentMa != s[j].requestCurrentMa
  }

  predicate AllStagePoints(lo: u16, hi: u16, s: seq<Point>, claim: Claim)
  {
    forall i :: 0 <= i < |s| ==> StagePoint(lo, hi, s[i], claim)
  }

  predicate AllBinPoints(lo: u16, hi: u16, bins: seq<Option<Point>>, claim: Claim)
  {
    forall i :: 0 <= i < |bins| && bins[i].Some? ==> BinPoint(lo, hi, bins[i].value, claim)
  }

  predicate FreeSlotsDefault(b: Boundary)
  {
    forall i :: b.pointCount <= i < MAX_BOUNDARY_POINTS ==> b.points[i] == DEFAULT_POINT
  }

  /** Every filled bin holds a 3 A tracking point. */
  predicate BinsTrack(bins: seq<Option<Point>>)
  {
    forall i :: 0 <= i < |bins| && bins[i].Some? ==>
                  bins[i].value.trackingOnly && bins[i].value.requestCurrentMa == 3_000
  }

  /** The shape of the table, whatever its voltages; `extra` is the terminal point once it is stored,
      and empty before. */
  predicate TableShaped(b: Boundary, bins: Bins, extra: seq<Point>)
  {
    && b.pointCount <= MAX_BOUNDARY_POINTS
    && DistinctCurrents(Equilibria(Stored(b)))
    && Tracked(Stored(b)) == Filled(bins) + extra
    && BinsTrack(bins)
    && FreeSlotsDefault(b)
  }

  /** The table invariant of a well-formed scan. */
  predicate TableOk(b: Boundary, bins: Bins, extra: seq<Point>, claim: Claim)
  {
    && TableShaped(b, bins, extra)
    && AllStagePoints(b.sourceMinMv, b.sourceMaxMv, Equilibria(Stored(b)), claim)
    && AllBinPoints(b.sourceMinMv, b.sourceMaxMv, bins, claim)
  }

  predicate AllRegular(s: seq<Point>)
  {
    forall i :: 0 <= i < |s| ==> RegularCurrent(s[i].requestCurrentMa)
  }

  lemma {:induction false} SplitLength(s: seq<Point>)
    ensures |s| == |Equilibria(s)| + |Tracked(s)|
  {
    if s != [] {
      SplitLength(s[..|s| - 1]);
    }
  }

  /** Every stored point is one of the equilibrium points or one of the tracking points. */
  lemma {:induction false} SplitMember(s: seq<Point>, k: nat)
    requires k < |s|
    ensures if s[k].trackingOnly then s[k] in Tracked(s) else s[k] in Equilibria(s)
  {
    if k < |s| - 1 {
      SplitMember(s[..|s| - 1], k);
    }
  }

  lemma {:induction false} TrackedMember(s: seq<Point>, p: Point) returns (k: nat)
    requires p in Tracked(s)
    ensures k < |s| && s[k] == p && p.trackingOnly
  {
    var n := |s| - 1;
    if p in Tracked(s[..n]) {
      k := TrackedMember(s[..n], p);
    } else {
      k := n;
    }
  }

  lemma {:induction false} EquilibriaMember(s: seq<Point>, j: nat) returns (k: nat)
    requires j < |Equilibria(s)|
    ensures k < |s| && s[k] == Equilibria(s)[j] && !s[k].trackingOnly
  {
    var n := |s| - 1;
    if j < |Equilibria(s[..n])| {
      k := EquilibriaMember(s[..n], j);
    } else {
      k := n;
    }
  }

  lemma AppendSplits(s: seq<Point>, p: Point)
    ensures Equilibria(s + [p]) == Equilibria(s) + (if p.trackingOnly then [] else [p])
    ensures Tracked(s + [p]) == Tracked(s) + (if p.trackingOnly then [p] else [])
  {
    assert (s + [p])[..|s|] == s;
  }

  lemma {:induction false} ConcatSplits(s: seq<Point>, t: seq<Point>)
    requires forall k :: 0 <= k < |t| ==> t[k].trackingOnly
    ensures Equilibria(s + t) == Equilibria(s) && Tracked(s + t) == Tracked(s) + t
  {
    hide Equilibria, Tracked;
    if t == [] {
      assert s + t == s;
    } else {
      var n := |t| - 1;
      ConcatSplits(s, t[..n]);
      AppendSplits(s + t[..n], t[n]);
      assert s + t == s + t[..n] + [t[n]];
      assert t == t[..n] + [t[n]];
    }
  }

  /** Replacing one equilibrium point by another touches one equilibrium slot and no tracking point. */
  lemma {:induction false} ReplaceSplits(s: seq<Point>, i: nat, p: Point) returns (j: nat)
    requires i < |s| && !s[i].trackingOnly && !p.trackingOnly
    ensures j < |Equilibria(s)| && Equilibria(s)[j] == s[i]
    ensures Equilibria(s[i := p]) == Equilibria(s)[j := p]
    ensures Tracked(s[i := p]) == Tracked(s)
  {
    var n := |s| - 1;
    if i < n {
      j := ReplaceSplits(s[..n], i, p);
      assert s[i := p][..n] == s[..n][i := p];
    } else {
      j := |Equilibria(s[..n])|;
      assert s[i := p][..n] == s[..n];
    }
  }

  lemma {:induction false} PlainSplits(s: seq<Point>)
    requires forall k :: 0 <= k < |s| ==> !s[k].trackingOnly
    ensures Equilibria(s) == s && Tracked(s) == []
  {
    if s != [] {
      PlainSplits(s[..|s| - 1]);
      assert s == s[..|s| - 1] + [s[|s| - 1]];
    }
  }

  lemma EquilibriaIdempotent(s: seq<Point>)
    ensures Equilibria(Equilibria(s)) == Equilibria(s) && Tracked(Equilibria(s)) == []
  {
    var e := Equilibria(s);
    forall j | 0 <= j < |e|
      ensures !e[j].trackingOnly
    {
      var k := EquilibriaMember(s, j);
    }
    PlainSplits(e);
  }

  /** Eleven regular currents, so at most eleven equilibrium points. */
  lemma FewEquilibria(s: seq<Point>)
    requires AllRegular(s) && DistinctCurrents(s)
    ensures |s| <= 11
  {
    var stages := seq(|s|, i requires 0 <= i < |s| => (s[i].requestCurrentMa - 2_000) / 100);
    forall i, j | 0 <= i < j < |stages|
      ensures stages[i] != stages[j]
    {
      assert RegularCurrent(s[i].requestCurrentMa) && RegularCurrent(s[j].requestCurrentMa);
    }
    forall i | 0 <= i < |stages|
      ensures 0 <= stages[i] < 11
    {
      assert RegularCurrent(s[i].requestCurrentMa);
    }
    DistinctBelow(stages, 11);
  }

  /** Until the terminal point is stored at least ten slots are free. */
  lemma ShapeHasRoom(b: Boundary, bins: Bins)
    requires TableShaped(b, bins, []) && AllRegular(Equilibria(Stored(b)))
    ensures b.pointCount <= 31
  {
    SplitLength(Stored(b));
    FewEquilibria(Equilibria(Stored(b)));
  }

  lemma TableHasRoom(b: Boundary, bins: Bins, claim: Claim)
    requires TableOk(b, bins, [], claim)
    ensures b.pointCount <= 31 && AllRegular(Equilibria(Stored(b)))
  {
    assert forall i :: 0 <= i < |Equilibria(Stored(b))| ==>
        StagePoint(b.sourceMinMv, b.sourceMaxMv, Equilibria(Stored(b))[i], claim);
    ShapeHasRoom(b, bins);
  }

  lemma {:induction false} FilledAreBinPoints(lo: u16, hi: u16, bins: seq<Option<Point>>, claim: Claim)
    requires AllBinPoints(lo, hi, bins, claim)
    ensures forall k :: 0 <= k < |Filled(bins)| ==> BinPoint(lo, hi, Filled(bins)[k], claim)
  {
    if bins != [] {
      FilledAreBinPoints(lo, hi, bins[..|bins| - 1], claim);
    }
  }

  lemma {:induction false} FilledTrack(bins: seq<Option<Point>>)
    requires BinsTrack(bins)
    ensures forall k :: 0 <= k < |Filled(bins)| ==>
              Filled(bins)[k].trackingOnly && Filled(bins)[k].requestCurrentMa == 3_000
  {
    if bins != [] {
      FilledTrack(bins[..|bins| - 1]);
    }
  }

  lemma {:induction false} FilledHas(bins: seq<Option<Point>>, k: nat)
    requires k < |bins| && bins[k].Some?
    ensures bins[k].value in Filled(bins)
  {
    if k < |bins| - 1 {
      FilledHas(bins[..|bins| - 1], k);
    }
  }

  /** Filling or refilling a bin never shortens the list of filled bins. */
  lemma {:induction false} FilledGrows(bins: seq<Option<Point>>, k: nat, p: Point)
    requires k < |bins|
    ensures |Filled(bins)| <= |Filled(bins[k := Some(p)])|
  {
    var n := |bins| - 1;
    if k < n {
      FilledGrows(bins[..n], k, p);
      assert bins[k := Some(p)][..n] == bins[..n][k := Some(p)];
    } else {
      assert bins[k := Some(p)][..n] == bins[..n];
    }
  }

  lemma ReplaceKeeps(b: Boundary, bins: Bins, p: Point, i: nat)
    requires TableShaped(b, bins, []) && !p.trackingOnly
    requires i < b.pointCount && !b.points[i].trackingOnly && b.points[i].requestCurrentMa == p.requestCurrentMa
    ensures var r := b.(points := b.points[i := p]);
            && TableShaped(r, bins, [])
            && forall q :: q in Equilibria(Stored(r)) ==> q == p || q in Equilibria(Stored(b))
  {
    var s := Stored(b);
    var r := b.(points := b.points[i := p]);
    var j := ReplaceSplits(s, i, p);
    assert Stored(r) == s[i := p];
    assert DistinctCurrents(Equilibria(s)[j := p]);
  }

  lemma AppendKeeps(b: Boundary, bins: Bins, p: Point)
    requires TableShaped(b, bins, []) && !p.trackingOnly
    requires b.pointCount < MAX_BOUNDARY_POINTS && ReplacedIndex(Stored(b), p) == b.pointCount
    ensures var r := b.(points := b.points[b.pointCount := p], pointCount := b.pointCount + 1);
            && TableShaped(r, bins, [])
            && forall q :: q in Equilibria(Stored(r)) ==> q == p || q in Equilibria(Stored(b))
  {
    hide Equilibria, Tracked, ReplacedIndex;
    var s := Stored(b);
    var r := b.(points := b.points[b.pointCount := p], pointCount := b.pointCount + 1);
    assert Stored(r) == s + [p];
    AppendSplits(s, p);
    forall j | 0 <= j < |Equilibria(s)|
      ensures Equilibria(s)[j].requestCurrentMa != p.requestCurrentMa
    {
      var k := EquilibriaMember(s, j);
    }
    assert DistinctCurrents(Equilibria(s) + [p]);
  }

  /** Retaining an equilibrium point in a table with room keeps its shape and adds no other point. */
  lemma RetainPlainKeeps(b: Boundary, bins: Bins, p: Point)
    requires TableShaped(b, bins, []) && b.pointCount < MAX_BOUNDARY_POINTS && !p.trackingOnly
    ensures Retain(b, p).accepted && TableShaped(Retain(b, p).boundary, bins, [])
    ensures forall q :: q in Equilibria(Stored(Retain(b, p).boundary)) ==> q == p || q in Equilibria(Stored(b))
  {
    hide TableShaped;
    var i := ReplacedIndex(Stored(b), p);
    if i < b.pointCount {
      assert Stored(b)[i] == b.points[i];
      ReplaceKeeps(b, bins, p, i);
    } else {
      AppendKeeps(b, bins, p);
    }
  }

  /** Retaining an equilibrium point always succeeds and keeps the table invariant. */
  lemma RetainEquilibriumKeeps(b: Boundary, bins: Bins, p: Point, claim: Claim)
    requires TableOk(b, bins, [], claim) && StagePoint(b.sourceMinMv, b.sourceMaxMv, p, claim) && !p.trackingOnly
    ensures Retain(b, p).accepted && TableOk(Retain(b, p).boundary, bins, [], claim)
  {
    TableHasRoom(b, bins, claim);
    RetainPlainKeeps(b, bins, p);
    hide TableShaped, StagePoint, Retain, Stored, Equilibria;
    var r := Retain(b, p).boundary;
    assert r.sourceMinMv == b.sourceMinMv && r.sourceMaxMv == b.sourceMaxMv by {
      RetainHeader(b, p);
    }
    forall i | 0 <= i < |Equilibria(Stored(r))|
      ensures StagePoint(b.sourceMinMv, b.sourceMaxMv, Equilibria(Stored(r))[i], claim)
    {
      assert Equilibria(Stored(r))[i] in Equilibria(Stored(r));
    }
  }

  /** A point retained in a table with room is stored. */
  lemma RetainStores(b: Boundary, p: Point)
    requires b.pointCount < MAX_BOUNDARY_POINTS
    ensures Retain(b, p).accepted
    ensures 1 <= Retain(b, p).boundary.pointCount <= MAX_BOUNDARY_POINTS && p in Stored(Retain(b, p).boundary)
  {
    hide ReplacedIndex;
    var k := ReplacedIndex(Stored(b), p);
    var kept := Retain(b, p).boundary;
    assert Stored(kept)[if k < |Stored(b)| then k else b.pointCount] == p;
  }

  lemma RetainHeader(b: Boundary, p: Point)
    ensures var r := Retain(b, p).boundary; r == b.(pointCount := r.pointCount, points := r.points)
  {
  }

  /** A tracking point takes the next free slot. */
  lemma RetainTrackingAppends(b: Boundary, p: Point)
    requires b.pointCount < MAX_BOUNDARY_POINTS && p.trackingOnly
    ensures Retain(b, p) == Retained(b.(points := b.points[b.pointCount := p], pointCount := b.pointCount + 1), true)
  {
  }

  /** Appending tracking points that fit leaves the rest of the table untouched. */
  lemma {:induction false} RetainAllAppends(b: Boundary, s: seq<Point>)
    requires b.pointCount + |s| <= MAX_BOUNDARY_POINTS
    requires forall k :: 0 <= k < |s| ==> s[k].trackingOnly
    ensures RetainAll(b, s) == b.(pointCount := b.pointCount + |s|, points := RetainAll(b, s).points)
    ensures Stored(RetainAll(b, s)) == Stored(b) + s
    ensures RetainAll(b, s).points[b.pointCount + |s|..] == b.points[b.pointCount + |s|..]
  {
    if s == [] {
      assert Stored(b) + s == Stored(b);
    } else {
      var n := |s| - 1;
      RetainAllAppends(b, s[..n]);
      var m := RetainAll(b, s[..n]);
      RetainTrackingAppends(m, s[n]);
      AppendedSlot(m, s[n]);
      assert Stored(b) + s == Stored(b) + s[..n] + [s[n]];
      assert b.points[b.pointCount + n..][1..] == b.points[b.pointCount + |s|..];
    }
  }

  /** No retain call of a rebuild meets a full table. */
  lemma RetainAllAccepts(b: Boundary, s: seq<Point>, k: nat)
    requires b.pointCount + |s| <= MAX_BOUNDARY_POINTS && k < |s|
    requires forall k :: 0 <= k < |s| ==> s[k].trackingOnly
    ensures Retain(RetainAll(b, s[..k]), s[k]).accepted
  {
    RetainAllAppends(b, s[..k]);
    RetainTrackingAppends(RetainAll(b, s[..k]), s[k]);
  }

  lemma AppendedSlot(b: Boundary, p: Point)
    requires b.pointCount < MAX_BOUNDARY_POINTS
    ensures var r := b.(points := b.points[b.pointCount := p], pointCount := b.pointCount + 1);
            Stored(r) == Stored(b) + [p] && r.points[r.pointCount..] == b.points[b.pointCount..][1..]
  {
  }

  /** A rebuild stores the equilibrium points followed by the filled bins. */
  lemma RebuildStores(b: Boundary, bins: Bins)
    requires |Equilibria(Stored(b))| + |Filled(bins)| <= MAX_BOUNDARY_POINTS && BinsTrack(bins)
    ensures var r := RebuildNormalPoints(b, bins);
            && Stored(r) == Equilibria(Stored(b)) + Filled(bins)
            && r == b.(pointCount := |Stored(r)|, points := r.points)
            && r.points[r.pointCount..] == b.points[r.pointCount..]
  {
    var kept := Equilibria(Stored(b));
    var compact := b.(points := kept + b.points[|kept|..], pointCount := |kept|);
    FilledTrack(bins);
    assert Stored(compact) == kept && compact.points[|kept|..] == b.points[|kept|..];
    var n := |kept| + |Filled(bins)|;
    assert compact.points[n..] == b.points[n..];
    hide Equilibria, Filled, RetainAll, Stored;
    RetainAllAppends(compact, Filled(bins));
  }

  /** A stronger observation for bin `k` rebuilds the table into the new filled bins. */
  lemma RebuildShaped(b: Boundary, bins: Bins, k: nat, p: Point)
    requires TableShaped(b, bins, []) && AllRegular(Equilibria(Stored(b)))
    requires k < BIN_COUNT && p.trackingOnly && p.requestCurrentMa == 3_000
    ensures var r := RebuildNormalPoints(b, bins[k := Some(p)]);
            && TableShaped(r, bins[k := Some(p)], [])
            && Equilibria(Stored(r)) == Equilibria(Stored(b))
            && r == b.(pointCount := r.pointCount, points := r.points)
  {
    hide Equilibria, Tracked, Filled, RebuildNormalPoints;
    var news: Bins := bins[k := Some(p)];
    var fill := Filled(news);
    SplitLength(Stored(b));
    FewEquilibria(Equilibria(Stored(b)));
    FilledGrows(bins, k, p);
    assert BinsTrack(news);
    RebuildStores(b, news);
    RebuiltSplits(Stored(b), news);
    var r := RebuildNormalPoints(b, news);
    assert fill + [] == fill;
    assert b.pointCount <= r.pointCount;
    forall i | r.pointCount <= i < MAX_BOUNDARY_POINTS
      ensures r.points[i] == DEFAULT_POINT
    {
      assert r.points[i] == r.points[r.pointCount..][i - r.pointCount];
    }
  }

  lemma RebuiltSplits(s: seq<Point>, bins: Bins)
    requires BinsTrack(bins)
    ensures Equilibria(Equilibria(s) + Filled(bins)) == Equilibria(s)
    ensures Tracked(Equilibria(s) + Filled(bins)) == Filled(bins)
  {
    FilledTrack(bins);
    EquilibriaIdempotent(s);
    ConcatSplits(Equilibria(s), Filled(bins));
  }

  lemma RebuildKeeps(b: Boundary, bins: Bins, k: nat, p: Point, claim: Claim)
    requires TableOk(b, bins, [], claim) && k < BIN_COUNT && BinPoint(b.sourceMinMv, b.sourceMaxMv, p, claim)
    ensures TableOk(RebuildNormalPoints(b, bins[k := Some(p)]), bins[k := Some(p)], [], claim)
    ensures var r := RebuildNormalPoints(b, bins[k := Some(p)]);
            r == b.(pointCount := r.pointCount, points := r.points)
  {
    hide TableShaped, StagePoint, RebuildNormalPoints, Stored, Equilibria;
    TableHasRoom(b, bins, claim);
    RebuildShaped(b, bins, k, p);
  }

  /** The terminal point finds a free slot, and is the only tracking point outside the bins. */
  lemma RetainTerminalShaped(b: Boundary, bins: Bins, p: Point)
    requires TableShaped(b, bins, []) && b.pointCount < MAX_BOUNDARY_POINTS && p.trackingOnly
    ensures Retain(b, p).accepted
    ensures var r := Retain(b, p).boundary;
            && TableShaped(r, bins, [p]) && 0 < r.pointCount <= MAX_BOUNDARY_POINTS && r.points[r.pointCount - 1] == p
            && Equilibria(Stored(r)) == Equilibria(Stored(b))
  {
    hide Retain, Equilibria, Tracked;
    RetainTrackingAppends(b, p);
    AppendedSlot(b, p);
    AppendSplits(Stored(b), p);
  }

  lemma RetainTerminalKeeps(b: Boundary, bins: Bins, p: Point, claim: Claim)
    requires TableOk(b, bins, [], claim) && p.trackingOnly
    ensures Retain(b, p).accepted
    ensures var r := Retain(b, p).boundary;
            TableOk(r, bins, [p], claim) && 0 < r.pointCount <= MAX_BOUNDARY_POINTS && r.points[r.pointCount - 1] == p
  {
    hide TableShaped, StagePoint, Retain, Stored, Equilibria;
    TableHasRoom(b, bins, claim);
    RetainTerminalShaped(b, bins, p);
    RetainHeader(b, p);
  }
}
