/** The persisted byte format of the supply boundary: a 26-byte header and 11 bytes per point. */
module BoundaryCodec {
  import opened Arithmetic
  import opened BoundaryData
  import opened BitPacking

  const FORMAT_VERSION := 6
  const POINT_BYTES := 11
  const HEADER_BYTES := 26
  const TERMINAL_CODE := 30
  const THREE_AMP_CODE := 31

  // ---------------------------------------------------------------------------------------------
  // One point.

  function CurrentCode(p: Point): nat
    requires p.trackingOnly || p.requestCurrentMa >= 1_000
  {
    if !p.trackingOnly then (p.requestCurrentMa - 1_000) / 100
    else if p.requestCurrentMa == 3_000 then THREE_AMP_CODE
    else TERMINAL_CODE
  }

  function WireFields(p: Point): Fields
    requires p.trackingOnly || p.requestCurrentMa >= 1_000
  {
    Fields(p.elapsedMs / 50, p.rtdCode, p.rtdMv, p.vinCode, p.vinMv, p.trackingRequestMv / 100,
           p.flatRequestMv / 100, CurrentCode(p))
  }

  function EncodePoint(p: Point): (s: seq<u8>)
    requires p.trackingOnly || p.requestCurrentMa >= 1_000
    ensures |s| == POINT_BYTES
  {
    LeBytes(Pack(WireFields(p)), POINT_BYTES)
  }

  function PointOfFields(powerLimitMw: u32, f: Fields): Option<Point>
    requires Fit(f)
  {
    if f.current > 20 && f.current != TERMINAL_CODE && f.current != THREE_AMP_CODE then None
    else
      var trackingMv := f.tracking * 100;
      var terminalMa := TerminalTrackingCurrentMa(powerLimitMw, trackingMv);
      if f.current == TERMINAL_CODE && terminalMa.None? then None
      else
        var ma :=
          if f.current == THREE_AMP_CODE then 3_000
          else if f.current == TERMINAL_CODE then terminalMa.value
          else 1_000 + f.current * 100;
        Some(Point(f.elapsed * 50, f.rtdCode, f.rtdMv, f.vinCode, f.vinMv, ma, trackingMv, f.flat * 100,
                   f.current == TERMINAL_CODE || f.current == THREE_AMP_CODE))
  }

  function DecodePoint(powerLimitMw: u32, s: seq<u8>): Option<Point>
  {
    PointOfFields(powerLimitMw, Unpack(FromLe(s)))
  }

  /** What the packing can hold beyond what validity asks for. */
  predicate PointPackable(p: Point)
  {
    p.flatRequestMv % 100 == 0 && p.trackingRequestMv <= 25_500
  }

  /** A valid point survives the codec exactly when its flat request lies on the 100 mV grid and its
      tracking request fits eight bits of 100 mV. */
  lemma PointRoundTrip(b: Boundary, p: Point)
    requires HeaderValid(b) && PointValid(b, p)
    ensures DecodePoint(b.sourcePowerLimitMw, EncodePoint(p)) == Some(p) <==> PointPackable(p)
  {
    hide TerminalTrackingCurrentMa, Pack, LeBytes, FromLe, Unpack;
    if PointPackable(p) {
      var f := WireFields(p);
      UnpackPack(f);
      Pow256Values();
      FromLeBytes(Pack(f), POINT_BYTES);
      assert f.elapsed * 50 == p.elapsedMs && f.tracking * 100 == p.trackingRequestMv;
      assert f.flat * 100 == p.flatRequestMv;
    }
  }

  /** The wire point is the one code 30 whose derived current is exactly 3 A. */
  predicate Aliased(f: Fields, p: Point)
  {
    f.current == TERMINAL_CODE && p.requestCurrentMa == 3_000
  }

  /** A decoded point re-encodes to the bytes it came from unless those alias code 31. */
  lemma PointReencodes(b: Boundary, s: seq<u8>)
    requires |s| == POINT_BYTES
    requires DecodePoint(b.sourcePowerLimitMw, s).Some? && PointValid(b, DecodePoint(b.sourcePowerLimitMw, s).value)
    ensures var p := DecodePoint(b.sourcePowerLimitMw, s).value;
            && PointPackable(p)
            && (EncodePoint(p) == s <==> !Aliased(Unpack(FromLe(s)), p))
  {
    hide TerminalTrackingCurrentMa, Pack, LeBytes, FromLe, Unpack, Pow256;
    var x := FromLe(s);
    var f := Unpack(x);
    var p := DecodePoint(b.sourcePowerLimitMw, s).value;
    Pow256Values();
    LeBytesFrom(s);
    PackUnpack(x);
    var g := WireFields(p);
    assert g == f.(current := g.current);
    if !Aliased(f, p) {
      assert g == f;
    } else {
      UnpackPack(g);
      FromLeBytes(Pack(g), POINT_BYTES);
    }
  }

  // ---------------------------------------------------------------------------------------------
  // The whole boundary.

  predicate Encodable(s: seq<Point>)
  {
    forall k :: 0 <= k < |s| ==> s[k].trackingOnly || s[k].requestCurrentMa >= 1_000
  }

  function EncodePoints(s: seq<Point>): (r: seq<u8>)
    requires Encodable(s)
    ensures |r| == POINT_BYTES * |s|
  {
    if s == [] then [] else EncodePoints(s[..|s| - 1]) + EncodePoint(s[|s| - 1])
  }

  function Flag(b: bool): u8 { if b then 1 else 0 }

  /** Consecutive little-endian words. */
  function Words(s: seq<u16>): (r: seq<u8>)
    ensures |r| == 2 * |s|
  {
    if s == [] then [] else Words(s[..|s| - 1]) + LeBytes(s[|s| - 1], 2)
  }

  /** The 16-bit header fields in wire order. */
  function HeaderWords(b: Boundary): seq<u16>
  {
    [b.adc.dividerSupplyMv, b.adc.referenceMv, b.adc.referenceCode, b.adc.initCode, b.sourceMinMv, b.sourceMaxMv,
     b.sourceMaxMa, b.advertisedMinMv, b.advertisedMaxMv]
  }

  function HeaderBytes(b: Boundary): (r: seq<u8>)
    ensures |r| == HEADER_BYTES
  {
    [FORMAT_VERSION, Flag(b.wifiStarted), b.pointCount, b.adc.efuseVersion, b.adc.attenuationDb,
     Flag(b.cutoffReached)] +
    Words(HeaderWords(b)) + LeBytes(b.sourcePowerLimitMw / 10, 2)
  }

  function Encode(b: Boundary): (r: seq<u8>)
    requires IsValid(b)
    ensures |r| == HEADER_BYTES + POINT_BYTES * b.pointCount
  {
    HeaderBytes(b) + EncodePoints(b.points[..b.pointCount])
  }

  function U16At(s: seq<u8>, offset: nat): u16
    requires offset + 1 < |s|
  {
    var low: int, high: int := s[offset], s[offset + 1];
    low + 256 * high
  }

  function PointSlice(s: seq<u8>, k: nat): (r: seq<u8>)
    requires HEADER_BYTES + POINT_BYTES * (k + 1) <= |s|
    ensures |r| == POINT_BYTES
  {
    s[HEADER_BYTES + POINT_BYTES * k..HEADER_BYTES + POINT_BYTES * (k + 1)]
  }

  function DecodePoints(s: seq<u8>, powerLimitMw: u32, n: nat): (r: Option<seq<Point>>)
    requires HEADER_BYTES + POINT_BYTES * n <= |s|
    ensures r.Some? ==> |r.value| == n
  {
    if n == 0 then Some([])
    else
      var front := DecodePoints(s, powerLimitMw, n - 1);
      var last := DecodePoint(powerLimitMw, PointSlice(s, n - 1));
      if front.None? || last.None? then None else Some(front.value + [last.value])
  }

  predicate Framed(s: seq<u8>)
  {
    && |s| >= HEADER_BYTES && s[0] == FORMAT_VERSION && s[1] <= 1 && s[5] <= 1
    && s[2] <= MAX_BOUNDARY_POINTS && |s| == HEADER_BYTES + s[2] * POINT_BYTES
  }

  /** The boundary the header of `s` announces, with the given points and default free slots. */
  function FromHeader(s: seq<u8>, points: seq<Point>): Boundary
    requires |s| >= HEADER_BYTES && |points| <= MAX_BOUNDARY_POINTS
  {
    Boundary(
      AdcMetadata(U16At(s, 6), U16At(s, 8), U16At(s, 10), U16At(s, 12), s[3], s[4]),
      s[1] == 1, s[5] == 1, U16At(s, 14), U16At(s, 16), U16At(s, 18), U16At(s, 24) * 10, U16At(s, 20), U16At(s, 22),
      |points|, points + seq(MAX_BOUNDARY_POINTS - |points|, _ => DEFAULT_POINT))
  }

  function Decode(s: seq<u8>): (r: Option<Boundary>)
  {
    if !Framed(s) then None
    else
      var points := DecodePoints(s, U16At(s, 24) * 10, s[2]);
      if points.None? then None
      else
        var b := FromHeader(s, points.value);
        if IsValid(b) then Some(b) else None
  }

  predicate Packable(b: Boundary)
    requires b.pointCount <= MAX_BOUNDARY_POINTS
  {
    && (forall k :: 0 <= k < b.pointCount ==> PointPackable(b.points[k]))
    && (forall k :: b.pointCount <= k < MAX_BOUNDARY_POINTS ==> b.points[k] == DEFAULT_POINT)
  }

  lemma ValidIsEncodable(b: Boundary)
    requires IsValid(b)
    ensures Encodable(b.points[..b.pointCount])
  {
    hide TerminalTrackingCurrentMa;
  }

  lemma {:induction false} DecodedPoint(s: seq<u8>, limit: u32, n: nat, k: nat)
    requires HEADER_BYTES + POINT_BYTES * n <= |s| && k < n && DecodePoints(s, limit, n).Some?
    ensures DecodePoint(limit, PointSlice(s, k)) == Some(DecodePoints(s, limit, n).value[k])
  {
    hide DecodePoint;
    if k < n - 1 {
      DecodedPoint(s, limit, n - 1, k);
    }
  }

  lemma {:induction false} DecodesTo(s: seq<u8>, limit: u32, points: seq<Point>)
    requires HEADER_BYTES + POINT_BYTES * |points| <= |s|
    requires forall k :: 0 <= k < |points| ==> DecodePoint(limit, PointSlice(s, k)) == Some(points[k])
    ensures DecodePoints(s, limit, |points|) == Some(points)
  {
    hide DecodePoint;
    if points != [] {
      var n := |points| - 1;
      DecodesTo(s, limit, points[..n]);
      assert points == points[..n] + [points[n]];
    }
  }

  lemma {:induction false} EncodedSlice(header: seq<u8>, points: seq<Point>, k: nat)
    requires |header| == HEADER_BYTES && k < |points| && Encodable(points)
    ensures PointSlice(header + EncodePoints(points), k) == EncodePoint(points[k])
  {
    hide EncodePoint;
    var n := |points| - 1;
    var front := header + EncodePoints(points[..n]);
    assert header + EncodePoints(points) == front + EncodePoint(points[n]);
    if k < n {
      EncodedSlice(header, points[..n], k);
      SliceOfPrefix(front, EncodePoint(points[n]), k);
    }
  }

  lemma SliceOfPrefix(s: seq<u8>, t: seq<u8>, k: nat)
    requires HEADER_BYTES + POINT_BYTES * (k + 1) <= |s|
    ensures PointSlice(s + t, k) == PointSlice(s, k)
  {
  }

  lemma Le16(x: u16)
    ensures LeBytes(x, 2) == [x % 256, x / 256]
  {
    assert LeBytes(x / 256, 1) == [x / 256 % 256] + LeBytes(x / 256 / 256, 0);
  }

  lemma {:induction false} WordAt(pre: seq<u8>, words: seq<u16>, post: seq<u8>, k: nat)
    requires k < |words|
    ensures U16At(pre + Words(words) + post, |pre| + 2 * k) == words[k]
  {
    hide LeBytes;
    var n := |words| - 1;
    Le16(words[n]);
    if k < n {
      WordAt(pre, words[..n], LeBytes(words[n], 2) + post, k);
      assert pre + Words(words) + post == pre + Words(words[..n]) + (LeBytes(words[n], 2) + post);
    } else {
      var s := pre + Words(words) + post;
      assert s[|pre| + 2 * n] == words[n] % 256 && s[|pre| + 2 * n + 1] == words[n] / 256;
    }
  }

  /** The header fields read back as they were written. */
  lemma HeaderRoundTrip(b: Boundary, tail: seq<u8>, points: seq<Point>)
    requires HeaderValid(b) && b.pointCount == |points| <= MAX_BOUNDARY_POINTS
    ensures FromHeader(HeaderBytes(b) + tail, points) ==
            b.(points := points + seq(MAX_BOUNDARY_POINTS - |points|, _ => DEFAULT_POINT))
    ensures (HeaderBytes(b) + tail)[0] == FORMAT_VERSION && (HeaderBytes(b) + tail)[2] == b.pointCount
    ensures (HeaderBytes(b) + tail)[1] == Flag(b.wifiStarted) && (HeaderBytes(b) + tail)[5] == Flag(b.cutoffReached)
    ensures U16At(HeaderBytes(b) + tail, 24) * 10 == b.sourcePowerLimitMw
  {
    hide LeBytes, Words, U16At;
    var pre := [FORMAT_VERSION, Flag(b.wifiStarted), b.pointCount, b.adc.efuseVersion, b.adc.attenuationDb,
                Flag(b.cutoffReached)];
    var words := HeaderWords(b);
    var power: u16 := b.sourcePowerLimitMw / 10;
    var post := LeBytes(power, 2) + tail;
    assert HeaderBytes(b) + tail == pre + Words(words) + post;
    WordAt(pre, words, post, 0);
    WordAt(pre, words, post, 1);
    WordAt(pre, words, post, 2);
    WordAt(pre, words, post, 3);
    WordAt(pre, words, post, 4);
    WordAt(pre, words, post, 5);
    WordAt(pre, words, post, 6);
    WordAt(pre, words, post, 7);
    WordAt(pre, words, post, 8);
    SingleWord(power);
    WordAt(pre + Words(words), [power], tail, 0);
    assert pre + Words(words) + Words([power]) + tail == pre + Words(words) + post;
  }

  lemma SingleWord(x: u16)
    ensures Words([x]) == LeBytes(x, 2)
  {
    assert [x][..0] == [];
    assert Words([x]) == Words([x][..0]) + LeBytes(x, 2);
  }

  /** A valid boundary survives encode and decode exactly when it is packable. */
  lemma RoundTrip(b: Boundary)
    requires IsValid(b)
    ensures Decode(Encode(b)) == Some(b) <==> Packable(b)
  {
    hide PointValid, DecodePoint, EncodePoint, HeaderBytes;
    if Packable(b) {
      PackableRoundTrips(b);
    }
    if Decode(Encode(b)) == Some(b) {
      RoundTripPackable(b);
    }
  }

  lemma EncodedPointDecodes(b: Boundary, k: nat)
    requires IsValid(b) && k < b.pointCount
    ensures var s := Encode(b);
            && PointSlice(s, k) == EncodePoint(b.points[k])
            && (DecodePoint(b.sourcePowerLimitMw, PointSlice(s, k)) == Some(b.points[k]) <==>
                PointPackable(b.points[k]))
  {
    hide DecodePoint, EncodePoint, HeaderBytes, EncodePoints, PointSlice;
    EncodedSlice(HeaderBytes(b), b.points[..b.pointCount], k);
    assert PointValid(b, b.points[k]);
    PointRoundTrip(b, b.points[k]);
  }

  lemma PackableRoundTrips(b: Boundary)
    requires IsValid(b) && Packable(b)
    ensures Decode(Encode(b)) == Some(b)
  {
    hide DecodePoint, EncodePoint, HeaderBytes, EncodePoints, PointSlice, DecodePoints, FromHeader, PointValid;
    ValidIsEncodable(b);
    var points := b.points[..b.pointCount];
    var s := Encode(b);
    HeaderRoundTrip(b, EncodePoints(points), points);
    forall k | 0 <= k < |points|
      ensures DecodePoint(b.sourcePowerLimitMw, PointSlice(s, k)) == Some(points[k])
    {
      EncodedPointDecodes(b, k);
    }
    DecodesTo(s, b.sourcePowerLimitMw, points);
    assert points + seq(MAX_BOUNDARY_POINTS - |points|, _ => DEFAULT_POINT) == b.points;
  }

  lemma RoundTripPackable(b: Boundary)
    requires IsValid(b) && Decode(Encode(b)) == Some(b)
    ensures Packable(b)
  {
    hide DecodePoint, EncodePoint, HeaderBytes, EncodePoints, PointSlice, PointValid, PointPackable;
    ValidIsEncodable(b);
    var s := Encode(b);
    HeaderRoundTrip(b, EncodePoints(b.points[..b.pointCount]), b.points[..b.pointCount]);
    forall k | 0 <= k < b.pointCount
      ensures PointPackable(b.points[k])
    {
      DecodedPoint(s, b.sourcePowerLimitMw, b.pointCount, k);
      EncodedPointDecodes(b, k);
    }
  }

  /** Some point of `s` uses wire code 30 with a derived current of exactly 3 A. */
  predicate HasAlias(s: seq<u8>, b: Boundary)
    requires Framed(s) && s[2] == b.pointCount
  {
    exists k :: 0 <= k < b.pointCount && Aliased(Unpack(FromLe(PointSlice(s, k))), b.points[k])
  }

  lemma DecodeFacts(s: seq<u8>, k: nat)
    requires Decode(s).Some? && k < s[2]
    ensures var b := Decode(s).value;
            && Framed(s) && b.pointCount == s[2]
            && DecodePoint(b.sourcePowerLimitMw, PointSlice(s, k)) == Some(b.points[k])
            && PointValid(b, b.points[k])
            && PointPackable(b.points[k])
            && (EncodePoint(b.points[k]) == PointSlice(s, k) <==>
                !Aliased(Unpack(FromLe(PointSlice(s, k))), b.points[k]))
  {
    hide DecodePoint, EncodePoint, PointSlice, PointPackable, DecodePoints, PointValid;
    var b := Decode(s).value;
    var limit := U16At(s, 24) * 10;
    assert b.points[k] == DecodePoints(s, limit, s[2]).value[k];
    DecodedPoint(s, limit, s[2], k);
    assert PointValid(b, b.points[k]);
    PointReencodes(b, PointSlice(s, k));
  }

  lemma Le16At(s: seq<u8>, offset: nat)
    requires offset + 1 < |s|
    ensures LeBytes(U16At(s, offset), 2) == s[offset..offset + 2]
  {
    Le16(U16At(s, offset));
  }

  /** Words read from consecutive offsets write back the bytes they were read from. */
  lemma {:induction false} WordsReencode(s: seq<u8>, offset: nat, words: seq<u16>)
    requires offset + 2 * |words| <= |s|
    requires forall k :: 0 <= k < |words| ==> words[k] == U16At(s, offset + 2 * k)
    ensures Words(words) == s[offset..offset + 2 * |words|]
  {
    hide LeBytes, U16At;
    if words != [] {
      var n := |words| - 1;
      WordsReencode(s, offset, words[..n]);
      Le16At(s, offset + 2 * n);
    }
  }

  lemma HeaderReencodes(s: seq<u8>)
    requires Decode(s).Some?
    ensures HeaderBytes(Decode(s).value) == s[..HEADER_BYTES]
  {
    hide LeBytes, DecodePoints, IsValid, U16At, Words;
    WordsReencode(s, 6, HeaderWords(Decode(s).value));
    Le16At(s, 24);
    assert [s[0], s[1], s[2], s[3], s[4], s[5]] == s[..6];
  }

  /** Two byte strings of the same framing are equal when their headers and point slices are. */
  lemma SlicesDetermine(s: seq<u8>, t: seq<u8>, n: nat)
    requires |s| == |t| == HEADER_BYTES + POINT_BYTES * n && s[..HEADER_BYTES] == t[..HEADER_BYTES]
    requires forall k :: 0 <= k < n ==> PointSlice(s, k) == PointSlice(t, k)
    ensures s == t
  {
    forall j | 0 <= j < |s|
      ensures s[j] == t[j]
    {
      if j < HEADER_BYTES {
        assert s[j] == s[..HEADER_BYTES][j] && t[j] == t[..HEADER_BYTES][j];
      } else {
        var k := (j - HEADER_BYTES) / POINT_BYTES;
        var o := (j - HEADER_BYTES) % POINT_BYTES;
        assert s[j] == PointSlice(s, k)[o] && t[j] == PointSlice(t, k)[o];
      }
    }
  }

  /** Bytes that decode re-encode to the same length and decode to the same boundary again; they
      re-encode to themselves exactly when no point is aliased. */
  lemma Reencode(s: seq<u8>)
    requires Decode(s).Some?
    ensures var b := Decode(s).value;
            && IsValid(b) && Framed(s) && s[2] == b.pointCount
            && |Encode(b)| == |s|
            && Decode(Encode(b)) == Some(b)
            && (Encode(b) == s <==> !HasAlias(s, b))
  {
    hide DecodePoint, EncodePoint, PointSlice, PointPackable, DecodePoints, PointValid, HeaderBytes, HeaderValid,
         EncodePoints, Unpack, FromLe, Aliased;
    var b := Decode(s).value;
    var t := Encode(b);
    ValidIsEncodable(b);
    assert forall k :: 0 <= k < b.pointCount ==> b.points[..b.pointCount][k] == b.points[k];
    forall k | 0 <= k < b.pointCount
      ensures PointPackable(b.points[k]) && PointSlice(t, k) == EncodePoint(b.points[k])
      ensures PointSlice(t, k) == PointSlice(s, k) <==> !Aliased(Unpack(FromLe(PointSlice(s, k))), b.points[k])
    {
      DecodeFacts(s, k);
      EncodedPointDecodes(b, k);
    }
    PackableRoundTrips(b);
    HeaderReencodes(s);
    assert t[..HEADER_BYTES] == HeaderBytes(b);
    if !HasAlias(s, b) {
      SlicesDetermine(s, t, b.pointCount);
    }
  }

  // ---------------------------------------------------------------------------------------------
  // The layout, position by position.

  /** A little-endian 16-bit word at `at`. */
  predicate WordIs(s: seq<u8>, at: nat, value: u16) { at + 1 < |s| && s[at] == value % 256 && s[at + 1] == value / 256 }

  /** The 26 bytes in front of the points. */
  predicate HeaderLayout(s: seq<u8>, b: Boundary)
  {
    && |s| == 26 + 11 * b.pointCount
    && s[0] == 6
    && s[1] == (if b.wifiStarted then 1 else 0)
    && s[2] == b.pointCount
    && s[3] == b.adc.efuseVersion && s[4] == b.adc.attenuationDb
    && s[5] == (if b.cutoffReached then 1 else 0)
    && WordIs(s, 6, b.adc.dividerSupplyMv) && WordIs(s, 8, b.adc.referenceMv)
    && WordIs(s, 10, b.adc.referenceCode) && WordIs(s, 12, b.adc.initCode)
    && WordIs(s, 14, b.sourceMinMv) && WordIs(s, 16, b.sourceMaxMv) && WordIs(s, 18, b.sourceMaxMa)
    && WordIs(s, 20, b.advertisedMinMv) && WordIs(s, 22, b.advertisedMaxMv)
    && b.sourcePowerLimitMw / 10 < 0x1_0000 && WordIs(s, 24, b.sourcePowerLimitMw / 10)
  }

  /** The 88 bits of one point: time in 50 ms, codes and millivolts of both readings. */
  predicate ReadingsLayout(x: nat, p: Point)
  {
    && x % 0x8_0000 == p.elapsedMs / 50
    && x / 0x8_0000 % 4_096 == p.rtdCode
    && x / 0x8000_0000 % 4_096 == p.rtdMv
    && x / 0x800_0000_0000 % 4_096 == p.vinCode
    && x / 0x80_0000_0000_0000 % 4_096 == p.vinMv
  }

  /** Above them the requests in 100 mV and the current: 31 at 3 A and 30 at any other current for a
      tracking-only point, and 100 mA steps from 1 A for an equilibrium point. */
  predicate RequestLayout(x: nat, p: Point)
  {
    && x / 0x8_0000_0000_0000_0000 % 256 == p.trackingRequestMv / 100
    && x / 0x800_0000_0000_0000_0000 % 256 == p.flatRequestMv / 100
    && x / 0x8_0000_0000_0000_0000_0000 ==
       if !p.trackingOnly then (p.requestCurrentMa - 1_000) / 100 else if p.requestCurrentMa == 3_000 then 31 else 30
  }

  lemma EncodedHeader(b: Boundary)
    requires IsValid(b)
    ensures HeaderLayout(Encode(b), b)
  {
    hide PointValid, LeBytes, EncodePoints, Words;
    ValidIsEncodable(b);
    var words, tail := HeaderWords(b), EncodePoints(b.points[..b.pointCount]);
    var pre := [FORMAT_VERSION, Flag(b.wifiStarted), b.pointCount, b.adc.efuseVersion, b.adc.attenuationDb,
                Flag(b.cutoffReached)];
    var power: u16 := b.sourcePowerLimitMw / 10;
    var s := Encode(b);
    Le16(power);
    assert s == pre + Words(words) + (LeBytes(power, 2) + tail);
    forall k | 0 <= k < 9
      ensures WordIs(s, 6 + 2 * k, words[k])
    {
      WordIsAt(pre, words, LeBytes(power, 2) + tail, k);
    }
    assert s[24] == power % 256 && s[25] == power / 256;
    assert WordIs(s, 6 + 2 * 0, words[0]) && WordIs(s, 6 + 2 * 1, words[1]) && WordIs(s, 6 + 2 * 2, words[2]);
    assert WordIs(s, 6 + 2 * 3, words[3]) && WordIs(s, 6 + 2 * 4, words[4]) && WordIs(s, 6 + 2 * 5, words[5]);
    assert WordIs(s, 6 + 2 * 6, words[6]) && WordIs(s, 6 + 2 * 7, words[7]) && WordIs(s, 6 + 2 * 8, words[8]);
  }

  lemma {:induction false} WordIsAt(pre: seq<u8>, words: seq<u16>, post: seq<u8>, k: nat)
    requires k < |words|
    ensures WordIs(pre + Words(words) + post, |pre| + 2 * k, words[k])
  {
    hide LeBytes;
    var n := |words| - 1;
    Le16(words[n]);
    if k < n {
      WordIsAt(pre, words[..n], LeBytes(words[n], 2) + post, k);
      assert pre + Words(words) + post == pre + Words(words[..n]) + (LeBytes(words[n], 2) + post);
    } else {
      var s := pre + Words(words) + post;
      assert s[|pre| + 2 * n] == words[n] % 256 && s[|pre| + 2 * n + 1] == words[n] / 256;
    }
  }

  /** The encoding of a valid boundary, byte by byte and bit by bit. The readings stand where they should in
      any case; the requests and the current as long as the tracking request fits its eight bits. */
  lemma EncodedLayout(b: Boundary, k: nat)
    requires IsValid(b) && k < b.pointCount
    ensures HeaderLayout(Encode(b), b)
    ensures var x := FromLe(Encode(b)[26 + 11 * k..37 + 11 * k]);
            && ReadingsLayout(x, b.points[k])
            && (b.points[k].trackingRequestMv <= 25_500 ==> RequestLayout(x, b.points[k]))
  {
    EncodedHeader(b);
    EncodedPointDecodes(b, k);
    assert PointValid(b, b.points[k]);
    hide IsValid, HeaderLayout, EncodePoint, Encode, ReadingsLayout, RequestLayout;
    PointLayout(b, b.points[k]);
  }

  lemma PointLayout(b: Boundary, p: Point)
    requires HeaderValid(b) && PointValid(b, p)
    ensures var x := FromLe(EncodePoint(p));
            && ReadingsLayout(x, p)
            && (p.trackingRequestMv <= 25_500 ==> RequestLayout(x, p))
  {
    hide TerminalTrackingCurrentMa, Pack, LeBytes, FromLe, Or, Shl;
    var f := WireFields(p);
    var x := FromLe(EncodePoint(p));
    Pow256Values();
    FromLeLow(Pack(f), POINT_BYTES);
    assert x == Pack(f) % W88;
    ModOfMod(Pack(f), W67, 0x20_0000);
    LowOfPack(f);
    LowUnpack(x, f);
    if p.trackingRequestMv <= 25_500 {
      UnpackPack(f);
      ModSmall(Pack(f), W88);
      TopField(x);
    }
  }

  lemma TopField(x: nat)
    requires x < W88
    ensures x / W83 % 32 == x / W83
  {
  }

  /** What decoding reads, position by position: any accepted bytes are laid out as the boundary they
      decode to, but that the current code of a 3 A tracking point may be 30 instead of 31. */
  lemma DecodedLayout(s: seq<u8>, k: nat)
    requires Decode(s).Some? && k < Decode(s).value.pointCount
    ensures var b := Decode(s).value;
            && HeaderLayout(s, b) && k < |b.points|
            && var p, x := b.points[k], FromLe(s[26 + 11 * k..37 + 11 * k]);
               && ReadingsLayout(x, p)
               && p.trackingRequestMv == x / 0x8_0000_0000_0000_0000 % 256 * 100
               && p.flatRequestMv == x / 0x800_0000_0000_0000_0000 % 256 * 100
               && var code := x / 0x8_0000_0000_0000_0000_0000 % 32;
                  if code <= 20 then !p.trackingOnly && p.requestCurrentMa == 1_000 + 100 * code
                  else && p.trackingOnly && (code == 30 || code == 31)
                       && if code == 31 then p.requestCurrentMa == 3_000
                          else TerminalTrackingCurrentMa(b.sourcePowerLimitMw, p.trackingRequestMv)
                               == Some(p.requestCurrentMa)
  {
    hide Decode, IsValid, Unpack, FromLe, TerminalTrackingCurrentMa, HeaderLayout, DecodePoint, PointValid;
    var b := Decode(s).value;
    DecodedHeader(s);
    DecodeFacts(s, k);
    var x := FromLe(PointSlice(s, k));
    DecodedFields(b.sourcePowerLimitMw, PointSlice(s, k));
  }

  lemma DecodedHeader(s: seq<u8>)
    requires Decode(s).Some?
    ensures HeaderLayout(s, Decode(s).value)
    ensures Decode(s).value.pointCount <= 41 && |s| == 26 + 11 * Decode(s).value.pointCount
    ensures s[2] == Decode(s).value.pointCount
  {
    var b := Decode(s).value;
    Reencode(s);
    hide Decode, IsValid, HeaderLayout, HeaderBytes, EncodePoints;
    EncodedHeader(b);
    HeaderReencodes(s);
    assert Encode(b)[..26] == HeaderBytes(b);
    SameHeaderLayout(Encode(b), s, b);
  }

  lemma DecodedFields(powerLimitMw: u32, s: seq<u8>)
    requires DecodePoint(powerLimitMw, s).Some?
    ensures var p, x := DecodePoint(powerLimitMw, s).value, FromLe(s);
            && ReadingsLayout(x, p)
            && p.trackingRequestMv == x / 0x8_0000_0000_0000_0000 % 256 * 100
            && p.flatRequestMv == x / 0x800_0000_0000_0000_0000 % 256 * 100
            && var code := x / 0x8_0000_0000_0000_0000_0000 % 32;
               if code <= 20 then !p.trackingOnly && p.requestCurrentMa == 1_000 + 100 * code
               else && p.trackingOnly && (code == 30 || code == 31)
                    && if code == 31 then p.requestCurrentMa == 3_000
                       else TerminalTrackingCurrentMa(powerLimitMw, p.trackingRequestMv) == Some(p.requestCurrentMa)
  {
    hide Unpack, FromLe, TerminalTrackingCurrentMa, ReadingsLayout;
    UnpackedReadings(FromLe(s), powerLimitMw);
    UnpackedRequests(FromLe(s));
  }

  lemma SameHeaderLayout(s: seq<u8>, t: seq<u8>, b: Boundary)
    requires HeaderLayout(s, b) && |s| == |t| && s[..26] == t[..26]
    ensures HeaderLayout(t, b)
  {
    assert forall j :: 0 <= j < 26 ==> t[j] == t[..26][j] && s[j] == s[..26][j];
  }

  lemma UnpackedReadings(x: nat, powerLimitMw: u32)
    requires PointOfFields(powerLimitMw, Unpack(x)).Some?
    ensures ReadingsLayout(x, PointOfFields(powerLimitMw, Unpack(x)).value)
  {
    hide TerminalTrackingCurrentMa;
  }

  lemma UnpackedRequests(x: nat)
    ensures Unpack(x).tracking == x / 0x8_0000_0000_0000_0000 % 256
    ensures Unpack(x).flat == x / 0x800_0000_0000_0000_0000 % 256
    ensures Unpack(x).current == x / 0x8_0000_0000_0000_0000_0000 % 32
  {
  }

  // ---------------------------------------------------------------------------------------------
  // The alias is real.

  /** The point of `p` written with wire code 30. */
  function AliasBytes(p: Point): (s: seq<u8>)
    requires p.trackingOnly
    ensures |s| == POINT_BYTES
  {
    LeBytes(Pack(WireFields(p).(current := TERMINAL_CODE)), POINT_BYTES)
  }

  lemma AliasPointDecodes(b: Boundary, p: Point)
    requires HeaderValid(b) && PointValid(b, p) && PointPackable(p) && p.trackingOnly
    requires TerminalTrackingCurrentMa(b.sourcePowerLimitMw, p.trackingRequestMv) == Some(3_000)
    requires p.requestCurrentMa == 3_000
    ensures DecodePoint(b.sourcePowerLimitMw, AliasBytes(p)) == Some(p) && AliasBytes(p) != EncodePoint(p)
  {
    hide TerminalTrackingCurrentMa, Pack, LeBytes, FromLe, Unpack;
    var f, g := WireFields(p).(current := TERMINAL_CODE), WireFields(p);
    UnpackPack(f);
    UnpackPack(g);
    Pow256Values();
    FromLeBytes(Pack(f), POINT_BYTES);
    FromLeBytes(Pack(g), POINT_BYTES);
    assert f.elapsed * 50 == p.elapsedMs && f.tracking * 100 == p.trackingRequestMv && f.flat * 100 == p.flatRequestMv;
  }

  /** Every packable boundary with one 3 A tracking point at which the power limit allows exactly 3 A
      has two encodings. */
  lemma TwoEncodings(b: Boundary)
    requires IsValid(b) && Packable(b) && b.pointCount == 1
    requires b.points[0].trackingOnly && b.points[0].requestCurrentMa == 3_000
    requires TerminalTrackingCurrentMa(b.sourcePowerLimitMw, b.points[0].trackingRequestMv) == Some(3_000)
    ensures var s := HeaderBytes(b) + AliasBytes(b.points[0]);
            Decode(s) == Some(b) && Decode(Encode(b)) == Some(b) && s != Encode(b)
  {
    PackableRoundTrips(b);
    assert PointValid(b, b.points[0]) && PointPackable(b.points[0]);
    hide DecodePoint, EncodePoint, HeaderBytes, PointValid, AliasBytes, FromHeader, TerminalTrackingCurrentMa;
    var p, points := b.points[0], b.points[..1];
    AliasPointDecodes(b, p);
    var s := HeaderBytes(b) + AliasBytes(p);
    HeaderRoundTrip(b, AliasBytes(p), points);
    assert PointSlice(s, 0) == AliasBytes(p);
    DecodesTo(s, b.sourcePowerLimitMw, points);
    assert points + seq(MAX_BOUNDARY_POINTS - 1, _ => DEFAULT_POINT) == b.points;
    EncodedPointDecodes(b, 0);
  }

  // ---------------------------------------------------------------------------------------------
  // Boundaries that do not survive, and one with two encodings.

  /** A source with a 3 A range up to 20 V and one stored point. */
  function OnePoint(p: Point, powerLimitMw: u32, advertisedMaxMv: u16): Boundary
  {
    Boundary(AdcMetadata(3_300, 0, 0, 0, 0, 0), false, false, 6_000, 20_000, 3_000, powerLimitMw, 5_000,
             advertisedMaxMv, 1, [p] + seq(MAX_BOUNDARY_POINTS - 1, _ => DEFAULT_POINT))
  }

  lemma OnePointFacts(p: Point, powerLimitMw: u32, advertisedMaxMv: u16)
    requires HeaderValid(OnePoint(p, powerLimitMw, advertisedMaxMv))
    ensures var b := OnePoint(p, powerLimitMw, advertisedMaxMv);
            && (IsValid(b) <==> PointValid(b, p)) && (Packable(b) <==> PointPackable(p)) && b.points[0] == p
  {
    hide PointValid, PointPackable;
    var b := OnePoint(p, powerLimitMw, advertisedMaxMv);
    assert b.points[0] == p;
  }

  /** A flat request off the 100 mV grid is valid and is not read back. */
  lemma OffGridIsLost()
    ensures var b := OnePoint(Point(0, 0, 1, 0, 1, 2_000, 12_000, 12_050, false), 60_000, 21_000);
            IsValid(b) && Decode(Encode(b)) != Some(b)
  {
    hide Decode, Encode, TerminalTrackingCurrentMa;
    var p := Point(0, 0, 1, 0, 1, 2_000, 12_000, 12_050, false);
    OnePointFacts(p, 60_000, 21_000);
    RoundTrip(OnePoint(p, 60_000, 21_000));
  }

  /** A terminal request above eight bits of 100 mV is valid and is not read back. */
  lemma HighTerminalIsLost()
    ensures var b := OnePoint(Point(0, 0, 1, 0, 1, 4_100, 25_600, 0, true), 105_000, 26_000);
            IsValid(b) && Decode(Encode(b)) != Some(b)
  {
    hide Decode, Encode;
    var p := Point(0, 0, 1, 0, 1, 4_100, 25_600, 0, true);
    OnePointFacts(p, 105_000, 26_000);
    RoundTrip(OnePoint(p, 105_000, 26_000));
  }

  /** At 60 W and 20 V the derived current is exactly 3 A: bytes that decode and do not re-encode to
      themselves. */
  lemma AliasHappens()
    ensures var p := Point(0, 0, 1, 0, 1, 3_000, 20_000, 0, true);
            var b := OnePoint(p, 60_000, 21_000);
            var s := HeaderBytes(b) + AliasBytes(p);
            IsValid(b) && Decode(s) == Some(b) && Encode(b) != s
  {
    hide Decode, Encode, HeaderBytes, AliasBytes;
    var p := Point(0, 0, 1, 0, 1, 3_000, 20_000, 0, true);
    OnePointFacts(p, 60_000, 21_000);
    TwoEncodings(OnePoint(p, 60_000, 21_000));
  }
}
