/** The DNS-SD announcement (firmware/src/mdns.rs): writers that store into one bounded byte buffer
    at a moving index, and what a reader of RFC 1035 section 4.1.3 recovers from the result. */
module Mdns {
  import opened Arithmetic
  import opened DnsWire

  const TTL: u32 := 120
  const CLASS_IN: u16 := 0x0001
  const CLASS_IN_CACHE_FLUSH: u16 := 0x8001
  const HTTP_PORT: u16 := 80
  const LOCAL: seq<u8> := Ascii("local")
  const SERVICE: seq<u8> := Ascii("_http._tcp.local")
  const SERVICE_TXT: seq<seq<u8>> := [Ascii("api=v1"), Ascii("path=/api/v1"), Ascii("pairing=frontpanel")]

  type DeviceId = id: seq<u8> | |id| == 12 witness seq(12, _ => 0)
  type Ipv4 = ip: seq<u8> | |ip| == 4 witness seq(4, _ => 0)

  // ---------------------------------------------------------------------------------------------
  // What one writer does to the buffer.

  function Spliced(s: seq<u8>, at: nat, bytes: seq<u8>): (r: seq<u8>)
    requires at + |bytes| <= |s|
    ensures |r| == |s|
  {
    s[..at] + bytes + s[at + |bytes|..]
  }

  /** A writer asked for `bytes` at `at` (None: a malformed value): it answers the index behind them
      exactly when they are well formed and fit, and has then changed nothing else; otherwise it has
      at least left everything before `at` alone. */
  predicate Writes(before: seq<u8>, after: seq<u8>, at: nat, bytes: Option<seq<u8>>, r: Option<nat>)
  {
    && |after| == |before|
    && if bytes.Some? && at + |bytes.value| <= |before|
       then r == Some(at + |bytes.value|) && after == Spliced(before, at, bytes.value)
       else r == None && (at <= |before| ==> after[..at] == before[..at])
  }

  function Append(a: Option<seq<u8>>, b: Option<seq<u8>>): Option<seq<u8>>
  {
    if a.Some? && b.Some? then Some(a.value + b.value) else None
  }

  lemma ThenFails(before: seq<u8>, after: seq<u8>, at: nat, a: Option<seq<u8>>, b: Option<seq<u8>>)
    requires Writes(before, after, at, a, None)
    ensures Writes(before, after, at, Append(a, b), None)
  {
  }

  lemma Then(s0: seq<u8>, s1: seq<u8>, s2: seq<u8>, at: nat, a: Option<seq<u8>>, mid: nat, b: Option<seq<u8>>,
             r: Option<nat>)
    requires Writes(s0, s1, at, a, Some(mid)) && Writes(s1, s2, mid, b, r)
    ensures Writes(s0, s2, at, Append(a, b), r)
  {
    var w := a.value;
    assert s1[..at] == s0[..at];
    if r.Some? {
      var v := b.value;
      SplicedTwice(s0, at, w, v);
    } else {
      assert s2[..at] == s2[..mid][..at] == s1[..mid][..at];
    }
  }

  lemma SplicedTwice(s: seq<u8>, at: nat, a: seq<u8>, b: seq<u8>)
    requires at + |a| + |b| <= |s|
    ensures Spliced(Spliced(s, at, a), at + |a|, b) == Spliced(s, at, a + b)
  {
    var s1 := Spliced(s, at, a);
    assert s1[..at + |a|] == s[..at] + a;
    assert s1[at + |a| + |b|..] == s[at + |a| + |b|..];
  }

  /** Overwriting a part of what was just written. */
  lemma Patched(s: seq<u8>, at: nat, a: seq<u8>, x: seq<u8>, y: seq<u8>, b: seq<u8>)
    requires |x| == |y| && at + |a + x + b| <= |s|
    ensures Spliced(Spliced(s, at, a + x + b), at + |a|, y) == Spliced(s, at, a + y + b)
  {
  }

  method Store(buffer: array<u8>, at: nat, bytes: seq<u8>)
    requires at + |bytes| <= buffer.Length
    modifies buffer
    ensures buffer[..] == Spliced(old(buffer[..]), at, bytes)
  {
    forall k | 0 <= k < |bytes| {
      buffer[at + k] := bytes[k];
    }
  }

  // ---------------------------------------------------------------------------------------------
  // Names.

  function NameWire(name: seq<u8>): Option<seq<u8>>
  {
    if LabelsOk(Split(name)) then Some(NameBytes(Split(name))) else None
  }

  lemma {:induction false} PrefixIsShorter(labels: seq<seq<u8>>, k: nat)
    requires LabelsOk(labels) && k <= |labels|
    ensures LabelsOk(labels[..k]) && |LabelsBytes(labels[..k])| <= |LabelsBytes(labels)|
    decreases |labels| - k
  {
    if k == |labels| {
      assert labels[..k] == labels;
    } else {
      PrefixIsShorter(labels, k + 1);
      assert labels[..k + 1][..k] == labels[..k];
    }
  }

  lemma OneMoreLabel(labels: seq<seq<u8>>, k: nat)
    requires k < |labels| && LabelsOk(labels[..k]) && LabelOk(labels[k])
    ensures LabelsOk(labels[..k + 1])
    ensures LabelsBytes(labels[..k + 1]) == LabelsBytes(labels[..k]) + LabelBytes(labels[k])
  {
    var more := labels[..k + 1];
    assert more[..k] == labels[..k] && more[k] == labels[k];
    assert forall i :: 0 <= i < |more| ==> more[i] == if i < k then labels[..k][i] else labels[k];
  }

  /** A label that is malformed or does not fit rules the whole name out. */
  lemma NameRefused(name: seq<u8>, k: nat, room: int)
    requires k < |Split(name)| && LabelsOk(Split(name)[..k])
    requires !LabelOk(Split(name)[k]) || |LabelsBytes(Split(name)[..k])| + |Split(name)[k]| + 1 > room
    ensures NameWire(name).Some? ==> |NameWire(name).value| > room
  {
    hide LabelsBytes, Split;
    var labels := Split(name);
    if LabelsOk(labels) {
      OneMoreLabel(labels, k);
      PrefixIsShorter(labels, k + 1);
    }
  }

  /** A length octet and the bytes behind it. */
  method StoreCounted(buffer: array<u8>, at: nat, bytes: seq<u8>)
    requires |bytes| <= 255 && at + |bytes| + 1 <= buffer.Length
    modifies buffer
    ensures buffer[..] == Spliced(old(buffer[..]), at, [|bytes|] + bytes)
  {
    buffer[at] := |bytes|;
    Store(buffer, at + 1, bytes);
  }

  method DnsName(buffer: array<u8>, at: nat, name: seq<u8>) returns (r: Option<nat>)
    modifies buffer
    ensures Writes(old(buffer[..]), buffer[..], at, NameWire(name), r)
  {
    hide Split, LabelsBytes;
    var labels := Split(name);
    ghost var before := buffer[..];
    var end := at;
    NoLabels(labels);
    for k := 0 to |labels|
      invariant LabelsOk(labels[..k])
      invariant end == at + |LabelsBytes(labels[..k])|
      invariant if k == 0 then buffer[..] == before
                else Writes(before, buffer[..], at, Some(LabelsBytes(labels[..k])), Some(end))
    {
      var bytes := labels[k];
      if |bytes| == 0 || |bytes| > 63 || end + |bytes| + 1 > buffer.Length {
        NameRefused(name, k, buffer.Length - at);
        return None;
      }
      OneMoreLabel(labels, k);
      ghost var s1 := buffer[..];
      StoreCounted(buffer, end, bytes);
      if k > 0 {
        Then(before, s1, buffer[..], at, Some(LabelsBytes(labels[..k])), end, Some(LabelBytes(bytes)),
             Some(end + 1 + |bytes|));
      }
      end := end + 1 + |bytes|;
    }
    assert labels[..|labels|] == labels;
    if end >= buffer.Length {
      return None;
    }
    ghost var s1 := buffer[..];
    buffer[end] := 0;
    assert buffer[..] == Spliced(s1, end, [0]);
    Then(before, s1, buffer[..], at, Some(LabelsBytes(labels)), end, Some([0]), Some(end + 1));
    return Some(end + 1);
  }

  lemma NoLabels(labels: seq<seq<u8>>)
    ensures LabelsOk(labels[..0]) && LabelsBytes(labels[..0]) == []
  {
  }

  // ---------------------------------------------------------------------------------------------
  // Resource records.

  method DnsHeader(buffer: array<u8>, at: nat, ty: u16, rrClass: u16, length: u16) returns (r: Option<nat>)
    modifies buffer
    ensures Writes(old(buffer[..]), buffer[..], at, Some(FixedBytes(ty, rrClass, TTL, length)), r)
  {
    if at + 10 > buffer.Length {
      return None;
    }
    ghost var s0 := buffer[..];
    ghost var t, c, l, n := Be16(ty), Be16(rrClass), Be32(TTL), Be16(length);
    assert |t| == 2 && |c| == 2 && |l| == 4 && |n| == 2;
    hide Be16, Be32;
    Store(buffer, at, Be16(ty));
    Store(buffer, at + 2, Be16(rrClass));
    SplicedTwice(s0, at, t, c);
    Store(buffer, at + 4, Be32(TTL));
    SplicedTwice(s0, at, t + c, l);
    Store(buffer, at + 8, Be16(length));
    SplicedTwice(s0, at, t + c + l, n);
    return Some(at + 10);
  }

  /** The name and the fixed part, written one behind the other. */
  method DnsRecordHead(buffer: array<u8>, at: nat, name: seq<u8>, ty: u16, rrClass: u16, length: u16)
    returns (r: Option<nat>)
    modifies buffer
    ensures Writes(old(buffer[..]), buffer[..], at,
                   Append(NameWire(name), Some(FixedBytes(ty, rrClass, TTL, length))), r)
  {
    hide Writes, NameWire, FixedBytes;
    ghost var s0 := buffer[..];
    var at1 := DnsName(buffer, at, name);
    if at1.None? {
      ThenFails(s0, buffer[..], at, NameWire(name), Some(FixedBytes(ty, rrClass, TTL, length)));
      return None;
    }
    ghost var s1 := buffer[..];
    r := DnsHeader(buffer, at1.value, ty, rrClass, length);
    Then(s0, s1, buffer[..], at, NameWire(name), at1.value, Some(FixedBytes(ty, rrClass, TTL, length)), r);
  }

  function DataWire(d: RData): Option<seq<u8>>
  {
    if DataOk(d) then Some(DataBytes(d)) else None
  }

  /** What a record writer has stored before it patches RDLENGTH. */
  function Unpatched(name: seq<u8>, rrClass: u16, d: RData): Option<seq<u8>>
  {
    Append(Append(NameWire(name), Some(FixedBytes(DataType(d), rrClass, TTL, 0))), DataWire(d))
  }

  function RecordFor(name: seq<u8>, rrClass: u16, d: RData): Record { Record(Split(name), rrClass, TTL, d) }

  function RecordWire(r: Record): Option<seq<u8>>
  {
    if Encodable(r) then Some(RecordBytes(r)) else None
  }

  lemma UnpatchedShape(name: seq<u8>, rrClass: u16, d: RData)
    ensures Unpatched(name, rrClass, d).Some? == RecordWire(RecordFor(name, rrClass, d)).Some?
    ensures var u, r := Unpatched(name, rrClass, d), RecordWire(RecordFor(name, rrClass, d));
            u.Some? ==> |u.value| == |r.value|
  {
    hide Split, LabelsOk, DataOk, NameBytes, DataBytes;
  }

  lemma RecordFails(before: seq<u8>, after: seq<u8>, at: nat, name: seq<u8>, rrClass: u16, d: RData)
    requires Writes(before, after, at, Unpatched(name, rrClass, d), None)
    ensures Writes(before, after, at, RecordWire(RecordFor(name, rrClass, d)), None)
  {
    hide Unpatched, RecordWire;
    UnpatchedShape(name, rrClass, d);
  }

  /** Patching RDLENGTH, truncated to 16 bits, completes the record. */
  lemma RecordDone(s0: seq<u8>, s1: seq<u8>, s2: seq<u8>, at: nat, name: seq<u8>, rrClass: u16, d: RData,
                   data: nat, end: nat)
    requires Writes(s0, s1, at, Unpatched(name, rrClass, d), Some(end))
    requires NameWire(name).Some? && data == at + |NameWire(name).value| + 10
    requires data <= end <= |s1| && s2 == Spliced(s1, data - 2, Be16((end - data) % 0x1_0000))
    ensures Writes(s0, s2, at, RecordWire(RecordFor(name, rrClass, d)), Some(end))
  {
    hide Split, LabelsOk, DataOk, NameBytes, DataBytes;
    var n, b := NameWire(name).value, DataWire(d).value;
    var front := n + Be16(DataType(d)) + Be16(rrClass) + Be32(TTL);
    assert |b| == end - data;
    var len := |b| % 0x1_0000;
    assert Unpatched(name, rrClass, d).value == front + Be16(0) + b;
    assert RecordBytes(RecordFor(name, rrClass, d)) == front + Be16(len) + b;
    Patched(s0, at, front, Be16(0), Be16(len), b);
  }

  // The data of a service record: priority and weight zero, then the port and the host name.

  method DnsSrvData(buffer: array<u8>, at: nat, port: u16, target: seq<u8>) returns (r: Option<nat>)
    modifies buffer
    ensures Writes(old(buffer[..]), buffer[..], at, DataWire(Srv(0, 0, port, Split(target))), r)
  {
    hide Split, LabelsOk, NameBytes;
    if at + 6 > buffer.Length {
      return None;
    }
    ghost var s0 := buffer[..];
    ghost var fixed := Be16(0) + Be16(0) + Be16(port);
    Store(buffer, at, [0, 0, 0, 0, 0, 0]);
    Store(buffer, at + 4, Be16(port));
    ghost var s1 := buffer[..];
    assert s1 == Spliced(s0, at, fixed);
    hide Be16;
    r := DnsName(buffer, at + 6, target);
    Then(s0, s1, buffer[..], at, Some(fixed), at + 6, NameWire(target), r);
  }

  function TextWire(value: seq<u8>): Option<seq<u8>>
  {
    if |value| <= 255 then Some([|value|] + value) else None
  }

  method DnsTxt(buffer: array<u8>, at: nat, value: seq<u8>) returns (r: Option<nat>)
    modifies buffer
    ensures Writes(old(buffer[..]), buffer[..], at, TextWire(value), r)
  {
    if |value| > 255 || at + |value| + 1 > buffer.Length {
      return None;
    }
    StoreCounted(buffer, at, value);
    return Some(at + 1 + |value|);
  }

  function Strings(id: DeviceId): (s: seq<seq<u8>>)
    ensures |s| == 4 && TextOk(s)
  {
    [Ascii("api=v1"), Ascii("path=/api/v1"), Ascii("pairing=frontpanel"), Ascii("device=") + id]
  }

  lemma TextSnoc(strings: seq<seq<u8>>, value: seq<u8>)
    requires TextOk(strings) && |value| <= 255
    ensures TextOk(strings + [value])
    ensures Append(Some(TextBytes(strings)), TextWire(value)) == Some(TextBytes(strings + [value]))
  {
    var all := strings + [value];
    assert all[..|all| - 1] == strings;
    assert TextBytes(strings) + ([|value|] + value) == TextBytes(strings) + [|value|] + value;
  }

  lemma {:induction false} TextPrefix(strings: seq<seq<u8>>, k: nat)
    requires TextOk(strings) && k <= |strings|
    ensures TextOk(strings[..k]) && |TextBytes(strings[..k])| <= |TextBytes(strings)|
    decreases |strings| - k
  {
    if k == |strings| {
      assert strings[..k] == strings;
    } else {
      TextPrefix(strings, k + 1);
      assert strings[..k + 1][..k] == strings[..k];
    }
  }

  /** One more string written behind the first k: the longer text, or the failure of the whole. */
  lemma NextString(s0: seq<u8>, s1: seq<u8>, s2: seq<u8>, at: nat, strings: seq<seq<u8>>, k: nat, mid: nat,
                   r: Option<nat>)
    requires TextOk(strings) && k < |strings| && TextOk(strings[..k]) && TextOk(strings[..k + 1])
    requires Writes(s0, s1, at, Some(TextBytes(strings[..k])), Some(mid))
    requires Writes(s1, s2, mid, TextWire(strings[k]), r)
    ensures Writes(s0, s2, at, Some(TextBytes(strings[..k + 1])), r)
    ensures r.None? ==> Writes(s0, s2, at, Some(TextBytes(strings)), None)
  {
    hide TextBytes, Writes, TextWire;
    TextPrefix(strings, k + 1);
    TextNext(strings, k);
    StringWritten(s0, s1, s2, at, TextBytes(strings[..k]), mid, TextWire(strings[k]), TextBytes(strings[..k + 1]),
                  TextBytes(strings), r);
  }

  lemma TextNext(strings: seq<seq<u8>>, k: nat)
    requires TextOk(strings) && k < |strings| && TextOk(strings[..k]) && TextOk(strings[..k + 1])
    ensures Append(Some(TextBytes(strings[..k])), TextWire(strings[k])) == Some(TextBytes(strings[..k + 1]))
  {
    assert strings[..k] + [strings[k]] == strings[..k + 1];
    TextSnoc(strings[..k], strings[k]);
  }

  lemma StringWritten(s0: seq<u8>, s1: seq<u8>, s2: seq<u8>, at: nat, done: seq<u8>, mid: nat, next: Option<seq<u8>>,
                      more: seq<u8>, whole: seq<u8>, r: Option<nat>)
    requires Writes(s0, s1, at, Some(done), Some(mid)) && Writes(s1, s2, mid, next, r)
    requires Append(Some(done), next) == Some(more) && |more| <= |whole|
    ensures Writes(s0, s2, at, Some(more), r) && (r.None? ==> Writes(s0, s2, at, Some(whole), None))
  {
    hide Writes, Append;
    Then(s0, s1, s2, at, Some(done), mid, next, r);
    if r.None? {
      LongerFails(s0, s2, at, more, whole);
    }
  }

  lemma LongerFails(before: seq<u8>, after: seq<u8>, at: nat, bytes: seq<u8>, more: seq<u8>)
    requires Writes(before, after, at, Some(bytes), None) && |bytes| <= |more|
    ensures Writes(before, after, at, Some(more), None)
  {
  }

  lemma NoStrings(strings: seq<seq<u8>>)
    ensures TextOk(strings[..0]) && TextBytes(strings[..0]) == []
  {
  }

  lemma SomeStrings(strings: seq<seq<u8>>, k: nat)
    requires TextOk(strings) && k <= |strings|
    ensures TextOk(strings[..k])
  {
  }

  /** `idIsText` says whether the device id is valid UTF-8, which is checked only after the fixed entries. */
  method DnsTxtData(buffer: array<u8>, at: nat, id: DeviceId, idIsText: bool) returns (r: Option<nat>)
    requires at <= buffer.Length
    modifies buffer
    ensures Writes(old(buffer[..]), buffer[..], at, if idIsText then DataWire(Txt(Strings(id))) else None, r)
  {
    hide TextBytes, TextWire, TextOk, Writes;
    ghost var s0 := buffer[..];
    ghost var strings := Strings(id);
    var end := at;
    NoStrings(strings);
    NothingWritten(s0, at);
    for k := 0 to |SERVICE_TXT|
      invariant TextOk(strings[..k]) && Writes(s0, buffer[..], at, Some(TextBytes(strings[..k])), Some(end))
    {
      ghost var s1 := buffer[..];
      var next := DnsTxt(buffer, end, SERVICE_TXT[k]);
      SomeStrings(strings, k + 1);
      NextString(s0, s1, buffer[..], at, strings, k, end, next);
      if next.None? {
        Malformed(s0, buffer[..], at, Some(TextBytes(strings)), None);
        return None;
      }
      end := next.value;
    }
    if !idIsText {
      Malformed(s0, buffer[..], at, Some(TextBytes(strings[..3])), Some(end));
      return None;
    }
    // "device=" and the twelve characters always fit the source's 20-byte string.
    ghost var s1 := buffer[..];
    r := DnsTxt(buffer, end, Ascii("device=") + id);
    assert strings[..4] == strings;
    NextString(s0, s1, buffer[..], at, strings, 3, end, r);
  }

  lemma NothingWritten(s: seq<u8>, at: nat)
    requires at <= |s|
    ensures Writes(s, s, at, Some([]), Some(at))
  {
  }

  /** Whatever a writer did at `at`, it may stand for the failure to write a malformed value there. */
  lemma Malformed(before: seq<u8>, after: seq<u8>, at: nat, bytes: Option<seq<u8>>, r: Option<nat>)
    requires Writes(before, after, at, bytes, r)
    ensures Writes(before, after, at, None, None)
  {
  }

  method DnsRecordPtr(buffer: array<u8>, at: nat, name: seq<u8>, target: seq<u8>) returns (r: Option<nat>)
    modifies buffer
    ensures Writes(old(buffer[..]), buffer[..], at, RecordWire(RecordFor(name, CLASS_IN, Ptr(Split(target)))), r)
  {
    hide Writes, NameWire, DataWire, FixedBytes, Split, Be16, RecordWire, RecordFor;
    ghost var s0 := buffer[..];
    ghost var d := Ptr(Split(target));
    var data := DnsRecordHead(buffer, at, name, TYPE_PTR, CLASS_IN, 0);
    if data.None? {
      HeadFails(s0, buffer[..], at, name, CLASS_IN, d);
      return None;
    }
    ghost var s1 := buffer[..];
    PtrData(target);
    var end := DnsName(buffer, data.value, target);
    r := FinishRecord(buffer, s0, s1, at, name, CLASS_IN, d, data.value, end);
  }

  lemma PtrData(target: seq<u8>)
    ensures DataWire(Ptr(Split(target))) == NameWire(target)
  {
  }

  lemma HeadFails(before: seq<u8>, after: seq<u8>, at: nat, name: seq<u8>, rrClass: u16, d: RData)
    requires Writes(before, after, at, Append(NameWire(name), Some(FixedBytes(DataType(d), rrClass, TTL, 0))), None)
    ensures Writes(before, after, at, RecordWire(RecordFor(name, rrClass, d)), None)
  {
    hide Writes, NameWire, FixedBytes, DataWire, RecordWire;
    ThenFails(before, after, at, Append(NameWire(name), Some(FixedBytes(DataType(d), rrClass, TTL, 0))), DataWire(d));
    RecordFails(before, after, at, name, rrClass, d);
  }

  /** The end of every record with data of variable length: patch RDLENGTH, or report the failure. */
  method FinishRecord(buffer: array<u8>, ghost s0: seq<u8>, ghost s1: seq<u8>, at: nat, ghost name: seq<u8>,
                      ghost rrClass: u16, ghost d: RData, data: nat, end: Option<nat>) returns (r: Option<nat>)
    requires Writes(s0, s1, at, Append(NameWire(name), Some(FixedBytes(DataType(d), rrClass, TTL, 0))), Some(data))
    requires Writes(s1, buffer[..], data, DataWire(d), end)
    modifies buffer
    ensures Writes(s0, buffer[..], at, RecordWire(RecordFor(name, rrClass, d)), r)
  {
    hide Writes, NameWire, FixedBytes, DataWire, RecordWire, RecordFor;
    ghost var s2 := buffer[..];
    ghost var head := Append(NameWire(name), Some(FixedBytes(DataType(d), rrClass, TTL, 0)));
    Then(s0, s1, s2, at, head, data, DataWire(d), end);
    if end.None? {
      RecordFails(s0, s2, at, name, rrClass, d);
      return None;
    }
    Extent(s0, s1, at, head, data);
    Extent(s1, s2, data, DataWire(d), end.value);
    assert |Be16((end.value - data) % 0x1_0000)| == 2;
    hide Be16;
    Store(buffer, data - 2, Be16((end.value - data) % 0x1_0000));
    RecordDone(s0, s2, buffer[..], at, name, rrClass, d, data, end.value);
    return end;
  }

  lemma Extent(before: seq<u8>, after: seq<u8>, at: nat, bytes: Option<seq<u8>>, end: nat)
    requires Writes(before, after, at, bytes, Some(end))
    ensures bytes.Some? && end == at + |bytes.value| <= |before| && |after| == |before|
  {
  }

  method DnsRecordSrv(buffer: array<u8>, at: nat, name: seq<u8>, port: u16, target: seq<u8>) returns (r: Option<nat>)
    modifies buffer
    ensures Writes(old(buffer[..]), buffer[..], at,
                   RecordWire(RecordFor(name, CLASS_IN_CACHE_FLUSH, Srv(0, 0, port, Split(target)))), r)
  {
    hide Writes, NameWire, DataWire, FixedBytes, Split, Be16, RecordWire, RecordFor;
    ghost var s0 := buffer[..];
    ghost var d := Srv(0, 0, port, Split(target));
    var data := DnsRecordHead(buffer, at, name, TYPE_SRV, CLASS_IN_CACHE_FLUSH, 0);
    if data.None? {
      HeadFails(s0, buffer[..], at, name, CLASS_IN_CACHE_FLUSH, d);
      return None;
    }
    ghost var s1 := buffer[..];
    var end := DnsSrvData(buffer, data.value, port, target);
    r := FinishRecord(buffer, s0, s1, at, name, CLASS_IN_CACHE_FLUSH, d, data.value, end);
  }

  method DnsRecordTxt(buffer: array<u8>, at: nat, name: seq<u8>, id: DeviceId, idIsText: bool) returns (r: Option<nat>)
    modifies buffer
    ensures Writes(old(buffer[..]), buffer[..], at,
                   if idIsText then RecordWire(RecordFor(name, CLASS_IN_CACHE_FLUSH, Txt(Strings(id)))) else None, r)
  {
    hide Writes, NameWire, DataWire, FixedBytes, Split, Be16, RecordWire, RecordFor, Strings;
    ghost var s0 := buffer[..];
    ghost var d := Txt(Strings(id));
    ghost var record := RecordWire(RecordFor(name, CLASS_IN_CACHE_FLUSH, d));
    var data := DnsRecordHead(buffer, at, name, TYPE_TXT, CLASS_IN_CACHE_FLUSH, 0);
    if data.None? {
      HeadFails(s0, buffer[..], at, name, CLASS_IN_CACHE_FLUSH, d);
      Malformed(s0, buffer[..], at, record, None);
      return None;
    }
    ghost var s1 := buffer[..];
    ghost var head := Append(NameWire(name), Some(FixedBytes(TYPE_TXT, CLASS_IN_CACHE_FLUSH, TTL, 0)));
    Extent(s0, s1, at, head, data.value);
    var end := DnsTxtData(buffer, data.value, id, idIsText);
    if !idIsText {
      Then(s0, s1, buffer[..], at, head, data.value, None, end);
      MalformedAnswer(s0, buffer[..], at, end);
      return None;
    }
    r := FinishRecord(buffer, s0, s1, at, name, CLASS_IN_CACHE_FLUSH, d, data.value, end);
  }

  lemma MalformedAnswer(before: seq<u8>, after: seq<u8>, at: nat, r: Option<nat>)
    requires Writes(before, after, at, None, r)
    ensures r == None
  {
  }

  /** The address record knows its data length beforehand. */
  method DnsRecordA(buffer: array<u8>, at: nat, name: seq<u8>, ip: Ipv4) returns (r: Option<nat>)
    modifies buffer
    ensures Writes(old(buffer[..]), buffer[..], at, RecordWire(RecordFor(name, CLASS_IN_CACHE_FLUSH, Address(ip))), r)
  {
    hide Writes, NameWire, FixedBytes, RecordWire, RecordFor;
    ghost var s0 := buffer[..];
    var data := DnsRecordHead(buffer, at, name, TYPE_A, CLASS_IN_CACHE_FLUSH, 4);
    ghost var head := Append(NameWire(name), Some(FixedBytes(TYPE_A, CLASS_IN_CACHE_FLUSH, TTL, 4)));
    AddressShape(name, ip);
    if data.None? {
      ThenFails(s0, buffer[..], at, head, Some(ip));
      return None;
    }
    ghost var s1 := buffer[..];
    Extent(s0, s1, at, head, data.value);
    if data.value + 4 > buffer.Length {
      r := None;
    } else {
      Store(buffer, data.value, ip);
      r := Some(data.value + 4);
    }
    StoredOrNot(s1, buffer[..], data.value, ip, r);
    Then(s0, s1, buffer[..], at, head, data.value, Some(ip), r);
  }

  lemma StoredOrNot(before: seq<u8>, after: seq<u8>, at: nat, bytes: seq<u8>, r: Option<nat>)
    requires if at + |bytes| > |before| then r == None && after == before
             else r == Some(at + |bytes|) && after == Spliced(before, at, bytes)
    ensures Writes(before, after, at, Some(bytes), r)
  {
  }

  lemma AddressShape(name: seq<u8>, ip: Ipv4)
    ensures Append(Append(NameWire(name), Some(FixedBytes(TYPE_A, CLASS_IN_CACHE_FLUSH, TTL, 4))), Some(ip))
         == RecordWire(RecordFor(name, CLASS_IN_CACHE_FLUSH, Address(ip)))
  {
    hide FixedBytes, NameBytes, Split;
  }

  // ---------------------------------------------------------------------------------------------
  // The announcement.

  const HEADER: seq<u8> := [0, 0, 0x84, 0, 0, 0, 0, 4, 0, 0, 0, 0]

  function HostName(hostname: seq<u8>): seq<u8> { hostname + [DOT] + LOCAL }

  function InstanceName(hostname: seq<u8>): seq<u8> { hostname + [DOT] + SERVICE }

  /** The service's shared pointer and the three records unique to the device. */
  function Records(hostname: seq<u8>, id: DeviceId, ip: Ipv4): seq<Record>
  {
    var service := [Ascii("_http"), Ascii("_tcp"), Ascii("local")];
    var host, instance := Split(hostname) + [Ascii("local")], Split(hostname) + service;
    [ Record(service, 0x0001, 120, Ptr(instance)),
      Record(instance, 0x8001, 120, Srv(0, 0, 80, host)),
      Record(instance, 0x8001, 120, Txt(Strings(id))),
      Record(host, 0x8001, 120, Address(ip)) ]
  }

  lemma Names(hostname: seq<u8>)
    ensures Split(SERVICE) == [Ascii("_http"), Ascii("_tcp"), LOCAL]
    ensures Split(HostName(hostname)) == Split(hostname) + [LOCAL]
    ensures Split(InstanceName(hostname)) == Split(hostname) + [Ascii("_http"), Ascii("_tcp"), LOCAL]
  {
    hide Split;
    var http, tcp := Ascii("_http"), Ascii("_tcp");
    assert SERVICE == http + [DOT] + (tcp + [DOT] + LOCAL);
    SplitNone(http);
    SplitNone(tcp);
    SplitNone(LOCAL);
    SplitJoined(http, tcp + [DOT] + LOCAL);
    SplitJoined(tcp, LOCAL);
    SplitJoined(hostname, LOCAL);
    SplitJoined(hostname, SERVICE);
  }

  /** The whole message as the writers lay it out, None when a part is malformed. */
  function Wire(hostname: seq<u8>, id: DeviceId, ip: Ipv4, idIsText: bool): Option<seq<u8>>
  {
    var rs := Records(hostname, id, ip);
    Append(Append(Append(Append(Some(HEADER), RecordWire(rs[0])), RecordWire(rs[1])),
                  if idIsText then RecordWire(rs[2]) else None), RecordWire(rs[3]))
  }

  lemma NamesOk(hostname: seq<u8>)
    ensures LabelsOk(Split(SERVICE))
    ensures LabelsOk(Split(HostName(hostname))) == LabelsOk(Split(hostname))
    ensures LabelsOk(Split(InstanceName(hostname))) == LabelsOk(Split(hostname))
  {
    Names(hostname);
    hide Split;
    LabelsOkConcat(Split(hostname), [LOCAL]);
    LabelsOkConcat(Split(hostname), Split(SERVICE));
  }

  lemma LabelsOkConcat(a: seq<seq<u8>>, b: seq<seq<u8>>)
    requires LabelsOk(b)
    ensures LabelsOk(a + b) == LabelsOk(a)
  {
    assert forall k :: 0 <= k < |a| ==> (a + b)[k] == a[k];
    assert forall k :: |a| <= k < |a + b| ==> (a + b)[k] == b[k - |a|];
  }

  lemma TextLength(id: DeviceId)
    ensures |TextBytes(Strings(id))| == 59
  {
    hide TextBytes;
    var s := Strings(id);
    NoStrings(s);
    for k := 0 to 4
      invariant TextOk(s[..k]) && |TextBytes(s[..k])| == [0, 7, 20, 39, 59][k]
    {
      assert s[..k] + [s[k]] == s[..k + 1];
      TextSnoc(s[..k], s[k]);
    }
    assert s[..4] == s;
  }

  lemma NameSize(name: seq<u8>)
    requires LabelsOk(Split(name))
    ensures |NameBytes(Split(name))| == |name| + 2
  {
    NameLength(name);
  }

  /** Which records can be encoded, and their sizes. */
  lemma RecordSizes(hostname: seq<u8>, id: DeviceId, ip: Ipv4)
    requires |hostname| <= 42
    ensures var rs := Records(hostname, id, ip);
            if LabelsOk(Split(hostname)) then
              && (forall k :: 0 <= k < 4 ==> Encodable(rs[k]) && RecordOk(rs[k]))
              && |RecordBytes(rs[0])| == |hostname| + 47 && |RecordBytes(rs[1])| == 2 * |hostname| + 43
              && |RecordBytes(rs[2])| == |hostname| + 88 && |RecordBytes(rs[3])| == |hostname| + 22
            else !Encodable(rs[0])
  {
    Names(hostname);
    NamesOk(hostname);
    hide Split, LabelsOk, NameBytes, TextBytes, FixedBytes, Strings;
    var rs := Records(hostname, id, ip);
    if LabelsOk(Split(hostname)) {
      NameSize(SERVICE);
      NameSize(HostName(hostname));
      NameSize(InstanceName(hostname));
      TextLength(id);
      assert |DataBytes(rs[1].data)| == 6 + |hostname| + 8;
    }
  }

  lemma WireIs(hostname: seq<u8>, id: DeviceId, ip: Ipv4, idIsText: bool)
    requires |hostname| <= 42
    ensures var w, rs := Wire(hostname, id, ip, idIsText), Records(hostname, id, ip);
            if LabelsOk(Split(hostname)) && idIsText
            then && (forall k :: 0 <= k < |rs| ==> Encodable(rs[k]) && RecordOk(rs[k]))
                 && w == Some(HEADER + RecordsBytes(rs)) && |w.value| == 212 + 5 * |hostname|
            else w == None
  {
    RecordSizes(hostname, id, ip);
    hide Split, LabelsOk, RecordBytes, RecordsBytes, DataOk, DataBytes, Strings;
    if LabelsOk(Split(hostname)) && idIsText {
      FourRecords(Records(hostname, id, ip));
    }
  }

  lemma HeaderIs()
    ensures HEADER == HeaderBytes(0, 0x8400, 4)
  {
  }

  lemma WireReads(hostname: seq<u8>, id: DeviceId, ip: Ipv4, idIsText: bool)
    requires |hostname| <= 42
    ensures Wire(hostname, id, ip, idIsText).Some? <==> LabelsOk(Split(hostname)) && idIsText
    ensures var w := Wire(hostname, id, ip, idIsText);
            w.Some? ==> && |w.value| == 212 + 5 * |hostname|
                        && ReadMessage(w.value) == Some(Message(0, 0x8400, Records(hostname, id, ip)))
  {
    WireIs(hostname, id, ip, idIsText);
    if LabelsOk(Split(hostname)) && idIsText {
      RecordCount(hostname, id, ip);
      HeaderIs();
      hide Split, LabelsOk, RecordsBytes, Records, ReadMessage, DataOk, DataBytes, Wire, HeaderBytes;
      ReadsMessage(0, 0x8400, Records(hostname, id, ip));
    }
  }

  lemma RecordCount(hostname: seq<u8>, id: DeviceId, ip: Ipv4)
    ensures |Records(hostname, id, ip)| == 4
  {
  }

  lemma RecordsFrom(rs: seq<Record>, k: nat)
    requires k < |rs| && forall i :: 0 <= i < |rs| ==> Encodable(rs[i])
    ensures RecordsBytes(rs[k..]) == RecordBytes(rs[k]) + RecordsBytes(rs[k + 1..])
  {
    hide RecordBytes, Encodable;
    assert rs[k..][1..] == rs[k + 1..];
  }

  lemma FourRecords(rs: seq<Record>)
    requires |rs| == 4 && forall k :: 0 <= k < |rs| ==> Encodable(rs[k])
    ensures HEADER + RecordBytes(rs[0]) + RecordBytes(rs[1]) + RecordBytes(rs[2]) + RecordBytes(rs[3])
         == HEADER + RecordsBytes(rs)
  {
    assert RecordsBytes(rs[4..]) == [];
    hide RecordBytes, RecordsBytes, Encodable;
    RecordsFrom(rs, 3);
    RecordsFrom(rs, 2);
    RecordsFrom(rs, 1);
    RecordsFrom(rs, 0);
    assert rs[0..] == rs;
    Regroup(HEADER, RecordBytes(rs[0]), RecordBytes(rs[1]), RecordBytes(rs[2]), RecordBytes(rs[3]));
  }

  lemma Regroup(h: seq<u8>, a: seq<u8>, b: seq<u8>, c: seq<u8>, d: seq<u8>)
    ensures h + a + b + c + d == h + (a + (b + (c + (d + []))))
  {
  }

  /** Appends to a string of bounded capacity. */
  function PushStr(s: Option<seq<u8>>, more: seq<u8>, capacity: nat): Option<seq<u8>>
  {
    if s.Some? && |s.value| + |more| <= capacity then Some(s.value + more) else None
  }

  /** Succeeds exactly when the names are well formed and everything fits; what it leaves in the
      buffer then reads back as exactly the four records, and nothing behind it is touched. */
  method BuildHttpAnnouncement(buffer: array<u8>, hostname: seq<u8>, id: DeviceId, idIsText: bool, ip: Ipv4)
    returns (r: Option<nat>)
    modifies buffer
    ensures r.Some? <==> |hostname| <= 42 && LabelsOk(Split(hostname)) && idIsText
                         && 212 + 5 * |hostname| <= buffer.Length
    ensures r.Some? ==> r.value == 212 + 5 * |hostname| && buffer[r.value..] == old(buffer[r.value..])
    ensures r.Some? ==> ReadMessage(buffer[..r.value]) == Some(Message(0, 0x8400, Records(hostname, id, ip)))
  {
    var host := PushStr(PushStr(Some([]), hostname, 48), Ascii(".local"), 48);
    var instance := PushStr(PushStr(PushStr(Some([]), hostname, 80), [DOT], 80), SERVICE, 80);
    if host.None? || instance.None? {
      return None;
    }
    assert host.value == HostName(hostname) && instance.value == InstanceName(hostname);
    hide Ascii, HostName, InstanceName, PushStr;
    r := WriteRecords(buffer, hostname, host.value, instance.value, id, idIsText, ip);
    WireReads(hostname, id, ip, idIsText);
    hide ReadMessage, Records, Wire, Split, LabelsOk;
    if r.Some? {
      assert buffer[..r.value] == Wire(hostname, id, ip, idIsText).value;
    }
  }

  /** The header and the first two records. */
  method WriteService(buffer: array<u8>, host: seq<u8>, instance: seq<u8>) returns (r: Option<nat>)
    modifies buffer
    ensures Writes(old(buffer[..]), buffer[..], 0,
                   Append(Append(Some(HEADER), RecordWire(RecordFor(SERVICE, CLASS_IN, Ptr(Split(instance))))),
                          RecordWire(RecordFor(instance, CLASS_IN_CACHE_FLUSH, Srv(0, 0, HTTP_PORT, Split(host))))), r)
  {
    hide RecordWire, RecordFor, Split, Writes, Append, Ascii;
    ghost var s0, h := buffer[..], Some(HEADER);
    ghost var w1 := RecordWire(RecordFor(SERVICE, CLASS_IN, Ptr(Split(instance))));
    ghost var w2 := RecordWire(RecordFor(instance, CLASS_IN_CACHE_FLUSH, Srv(0, 0, HTTP_PORT, Split(host))));
    if buffer.Length < 12 {
      StoredOrNot(s0, s0, 0, HEADER, None);
      ThenFails(s0, s0, 0, h, w1);
      ThenFails(s0, s0, 0, Append(h, w1), w2);
      return None;
    }
    Store(buffer, 0, HEADER);
    ghost var s1 := buffer[..];
    StoredOrNot(s0, s1, 0, HEADER, Some(12));
    var at := DnsRecordPtr(buffer, 12, SERVICE, instance);
    ghost var s2 := buffer[..];
    Then(s0, s1, s2, 0, h, 12, w1, at);
    if at.None? {
      ThenFails(s0, s2, 0, Append(h, w1), w2);
      return None;
    }
    r := DnsRecordSrv(buffer, at.value, instance, HTTP_PORT, host);
    Then(s0, s2, buffer[..], 0, Append(h, w1), at.value, w2, r);
  }

  method WriteRecords(buffer: array<u8>, ghost hostname: seq<u8>, host: seq<u8>, instance: seq<u8>, id: DeviceId,
                      idIsText: bool, ip: Ipv4) returns (r: Option<nat>)
    requires host == HostName(hostname) && instance == InstanceName(hostname)
    modifies buffer
    ensures Writes(old(buffer[..]), buffer[..], 0, Wire(hostname, id, ip, idIsText), r)
  {
    NamedRecords(hostname, id, ip);
    ghost var service := Append(Append(Some(HEADER), RecordWire(RecordFor(SERVICE, CLASS_IN, Ptr(Split(instance))))),
                          RecordWire(RecordFor(instance, CLASS_IN_CACHE_FLUSH, Srv(0, 0, HTTP_PORT, Split(host)))));
    ghost var text :=
      if idIsText then RecordWire(RecordFor(instance, CLASS_IN_CACHE_FLUSH, Txt(Strings(id)))) else None;
    ghost var address := RecordWire(RecordFor(host, CLASS_IN_CACHE_FLUSH, Address(ip)));
    hide RecordWire, RecordFor, Split, Writes, Append, Ascii, HostName, InstanceName, Strings, Records;
    assert Wire(hostname, id, ip, idIsText) == Append(Append(service, text), address);
    hide Wire;
    ghost var s0 := buffer[..];
    var at := WriteService(buffer, host, instance);
    ghost var s1 := buffer[..];
    if at.None? {
      ThenFails(s0, s1, 0, service, text);
      ThenFails(s0, s1, 0, Append(service, text), address);
      return None;
    }
    var last := DnsRecordTxt(buffer, at.value, instance, id, idIsText);
    ghost var s2 := buffer[..];
    Then(s0, s1, s2, 0, service, at.value, text, last);
    if last.None? {
      ThenFails(s0, s2, 0, Append(service, text), address);
      return None;
    }
    r := DnsRecordA(buffer, last.value, host, ip);
    Then(s0, s2, buffer[..], 0, Append(service, text), last.value, address, r);
  }

  lemma NamedRecords(hostname: seq<u8>, id: DeviceId, ip: Ipv4)
    ensures var rs, host, instance := Records(hostname, id, ip), HostName(hostname), InstanceName(hostname);
            && rs[0] == RecordFor(SERVICE, CLASS_IN, Ptr(Split(instance)))
            && rs[1] == RecordFor(instance, CLASS_IN_CACHE_FLUSH, Srv(0, 0, HTTP_PORT, Split(host)))
            && rs[2] == RecordFor(instance, CLASS_IN_CACHE_FLUSH, Txt(Strings(id)))
            && rs[3] == RecordFor(host, CLASS_IN_CACHE_FLUSH, Address(ip))
  {
    Names(hostname);
    hide Split;
  }
}
