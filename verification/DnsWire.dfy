/** DNS wire format (RFC 1035 sections 3.1, 3.2.1, 3.3 and 4.1; RFC 2782 for SRV): what a message of
    uncompressed resource records looks like, and a reader that recovers the records from it. */
module DnsWire {
  import opened Arithmetic

  const DOT: u8 := 46
  const TYPE_A: u16 := 1
  const TYPE_PTR: u16 := 12
  const TYPE_TXT: u16 := 16
  const TYPE_SRV: u16 := 33

  /** One byte per character. */
  function Ascii(s: string): (r: seq<u8>)
    ensures |r| == |s| && forall i :: 0 <= i < |s| && s[i] as int < 256 ==> r[i] == s[i] as int
  {
    seq(|s|, i requires 0 <= i < |s| => s[i] as int % 256)
  }

  function Be16(x: u16): seq<u8> { [x / 256, x % 256] }

  function Be32(x: u32): seq<u8> { Be16(x / 0x1_0000) + Be16(x % 0x1_0000) }

  // ---------------------------------------------------------------------------------------------
  // Names.

  /** Index of the first dot, or the length. */
  function FirstDot(s: seq<u8>): (i: nat)
    ensures i <= |s| && (i < |s| ==> s[i] == DOT)
    ensures forall k :: 0 <= k < i ==> s[k] != DOT
  {
    if s == [] || s[0] == DOT then 0 else 1 + FirstDot(s[1..])
  }

  /** The labels between the dots; there is always at least one. */
  function Split(s: seq<u8>): (labels: seq<seq<u8>>)
    ensures labels != []
    decreases |s|
  {
    var i := FirstDot(s);
    if i == |s| then [s] else [s[..i]] + Split(s[i + 1..])
  }

  /** The labels joined by dots again. */
  function Joined(labels: seq<seq<u8>>): seq<u8>
    requires labels != []
  {
    if |labels| == 1 then labels[0] else labels[0] + [DOT] + Joined(labels[1..])
  }

  /** Splitting loses nothing and leaves no dot in a label. */
  lemma {:induction false} SplitMeans(s: seq<u8>)
    ensures Joined(Split(s)) == s
    ensures forall k :: 0 <= k < |Split(s)| ==> DOT !in Split(s)[k]
    decreases |s|
  {
    var i := FirstDot(s);
    if i < |s| {
      var rest, labels := Split(s[i + 1..]), Split(s);
      assert labels == [s[..i]] + rest;
      SplitMeans(s[i + 1..]);
      assert labels[1..] == rest && labels[0] == s[..i];
      assert Joined(labels) == s[..i] + [DOT] + Joined(rest);
      hide Split, Joined;
      assert s == s[..i] + [DOT] + s[i + 1..];
    }
  }

  lemma SplitAt(s: seq<u8>, i: nat)
    requires i < |s| && s[i] == DOT
    requires forall k :: 0 <= k < i ==> s[k] != DOT
    ensures Split(s) == [s[..i]] + Split(s[i + 1..])
  {
    assert FirstDot(s) == i;
  }

  lemma SplitNone(s: seq<u8>)
    requires forall k :: 0 <= k < |s| ==> s[k] != DOT
    ensures Split(s) == [s]
  {
    assert FirstDot(s) == |s|;
  }

  /** Splitting at an inserted dot splits both sides on their own. */
  lemma {:induction false} SplitJoined(s: seq<u8>, t: seq<u8>)
    ensures Split(s + [DOT] + t) == Split(s) + Split(t)
    decreases |s|
  {
    hide Split;
    var all, i := s + [DOT] + t, FirstDot(s);
    SplitAt(all, i);
    if i == |s| {
      SplitNone(s);
      assert all[..i] == s && all[i + 1..] == t;
    } else {
      SplitAt(s, i);
      SplitJoined(s[i + 1..], t);
      assert all[..i] == s[..i] && all[i + 1..] == s[i + 1..] + [DOT] + t;
      assert [s[..i]] + (Split(s[i + 1..]) + Split(t)) == [s[..i]] + Split(s[i + 1..]) + Split(t);
    }
  }

  predicate LabelOk(part: seq<u8>) { 0 < |part| <= 63 }

  predicate LabelsOk(labels: seq<seq<u8>>)
  {
    forall k :: 0 <= k < |labels| ==> LabelOk(labels[k])
  }

  function LabelBytes(part: seq<u8>): seq<u8>
    requires LabelOk(part)
  {
    [|part|] + part
  }

  function LabelsBytes(labels: seq<seq<u8>>): seq<u8>
    requires LabelsOk(labels)
  {
    if labels == [] then [] else LabelsBytes(labels[..|labels| - 1]) + LabelBytes(labels[|labels| - 1])
  }

  function NameBytes(labels: seq<seq<u8>>): seq<u8>
    requires LabelsOk(labels)
  {
    LabelsBytes(labels) + [0]
  }

  lemma {:induction false} LabelsBytesCons(part: seq<u8>, labels: seq<seq<u8>>)
    requires LabelOk(part) && LabelsOk(labels)
    ensures LabelsOk([part] + labels)
    ensures LabelsBytes([part] + labels) == LabelBytes(part) + LabelsBytes(labels)
  {
    var all := [part] + labels;
    assert forall k :: 0 <= k < |all| ==> LabelOk(all[k]);
    if labels == [] {
      assert all[..0] == [];
    } else {
      var n := |labels| - 1;
      LabelsBytesCons(part, labels[..n]);
      assert all[..n + 1] == [part] + labels[..n] && all[n + 1] == labels[n];
    }
  }

  /** A dotted name of n bytes takes n + 2 bytes on the wire. */
  lemma {:induction false} NameLength(s: seq<u8>)
    requires LabelsOk(Split(s))
    ensures |NameBytes(Split(s))| == |s| + 2
    decreases |s|
  {
    var i := FirstDot(s);
    if i == |s| {
      assert Split(s)[0] == s && LabelOk(Split(s)[0]);
      assert [s][..0] == [];
      assert LabelsBytes([s]) == LabelsBytes([s][..0]) + LabelBytes(s);
    } else {
      var rest := Split(s[i + 1..]);
      assert Split(s)[0] == s[..i] && Split(s)[1..] == rest;
      assert LabelOk(Split(s)[0]);
      assert forall k :: 0 <= k < |rest| ==> rest[k] == Split(s)[k + 1];
      NameLength(s[i + 1..]);
      LabelsBytesCons(s[..i], rest);
    }
  }

  datatype Parsed<T> = Parsed(value: T, next: nat)

  /** Labels up to the zero octet; a length octet above 63 is not an uncompressed label. */
  function ReadName(s: seq<u8>, at: nat): (r: Option<Parsed<seq<seq<u8>>>>)
    ensures r.Some? ==> at < r.value.next <= |s|
    decreases |s| - at
  {
    if at >= |s| || s[at] > 63 then None
    else if s[at] == 0 then Some(Parsed([], at + 1))
    else
      var end := at + 1 + s[at];
      if end > |s| then None
      else
        var rest := ReadName(s, end);
        if rest.None? then None else Some(Parsed([s[at + 1..end]] + rest.value.value, rest.value.next))
  }

  // Where something stands in a message.

  predicate At(s: seq<u8>, i: nat, x: seq<u8>) { i + |x| <= |s| && s[i..i + |x|] == x }

  lemma AtParts(s: seq<u8>, i: nat, a: seq<u8>, b: seq<u8>)
    requires At(s, i, a + b)
    ensures At(s, i, a) && At(s, i + |a|, b)
  {
    var whole := s[i..i + |a + b|];
    assert whole[..|a|] == a && whole[|a|..] == b;
    assert whole[..|a|] == s[i..i + |a|] && whole[|a|..] == s[i + |a|..i + |a| + |b|];
  }

  lemma NameBytesCons(part: seq<u8>, labels: seq<seq<u8>>)
    requires LabelOk(part) && LabelsOk(labels)
    ensures LabelsOk([part] + labels)
    ensures NameBytes([part] + labels) == LabelBytes(part) + NameBytes(labels)
  {
    LabelsBytesCons(part, labels);
    hide LabelsBytes, LabelBytes, LabelsOk;
    assert LabelBytes(part) + LabelsBytes(labels) + [0] == LabelBytes(part) + (LabelsBytes(labels) + [0]);
  }

  lemma ReadsLabel(s: seq<u8>, i: nat, part: seq<u8>, rest: seq<seq<u8>>, next: nat)
    requires LabelOk(part) && At(s, i, LabelBytes(part))
    requires ReadName(s, i + 1 + |part|) == Some(Parsed(rest, next))
    ensures ReadName(s, i) == Some(Parsed([part] + rest, next))
  {
    var n := 1 + |part|;
    assert s[i..i + n][0] == |part| && s[i..i + n][1..] == part;
    assert s[i + 1..i + n] == s[i..i + n][1..];
  }

  lemma {:induction false} ReadsName(s: seq<u8>, i: nat, labels: seq<seq<u8>>)
    requires LabelsOk(labels) && At(s, i, NameBytes(labels))
    ensures ReadName(s, i) == Some(Parsed(labels, i + |NameBytes(labels)|))
    decreases |labels|
  {
    if labels == [] {
      assert s[i..i + 1][0] == 0;
    } else {
      var first, rest := labels[0], labels[1..];
      assert LabelOk(first) && LabelsOk(rest) && [first] + rest == labels;
      hide NameBytes, ReadName, At, LabelsOk;
      NameBytesCons(first, rest);
      AtParts(s, i, LabelBytes(first), NameBytes(rest));
      ReadsName(s, i + 1 + |first|, rest);
      ReadsLabel(s, i, first, rest, i + |NameBytes(labels)|);
    }
  }

  // ---------------------------------------------------------------------------------------------
  // Resource records.

  datatype RData =
    | Ptr(target: seq<seq<u8>>)
    | Srv(priority: u16, weight: u16, port: u16, host: seq<seq<u8>>)
    | Txt(strings: seq<seq<u8>>)
    | Address(ip: seq<u8>)

  datatype Record = Record(name: seq<seq<u8>>, rrClass: u16, ttl: u32, data: RData)

  predicate TextOk(strings: seq<seq<u8>>)
  {
    forall k :: 0 <= k < |strings| ==> |strings[k]| <= 255
  }

  function TextBytes(strings: seq<seq<u8>>): seq<u8>
    requires TextOk(strings)
  {
    if strings == [] then []
    else TextBytes(strings[..|strings| - 1]) + [|strings[|strings| - 1]|] + strings[|strings| - 1]
  }

  predicate DataOk(d: RData)
  {
    match d
    case Ptr(target) => LabelsOk(target)
    case Srv(_, _, _, host) => LabelsOk(host)
    case Txt(strings) => TextOk(strings)
    case Address(ip) => |ip| == 4
  }

  function DataType(d: RData): u16
  {
    match d
    case Ptr(_) => TYPE_PTR
    case Srv(_, _, _, _) => TYPE_SRV
    case Txt(_) => TYPE_TXT
    case Address(_) => TYPE_A
  }

  function DataBytes(d: RData): seq<u8>
    requires DataOk(d)
  {
    match d
    case Ptr(target) => NameBytes(target)
    case Srv(priority, weight, port, host) => Be16(priority) + Be16(weight) + Be16(port) + NameBytes(host)
    case Txt(strings) => TextBytes(strings)
    case Address(ip) => ip
  }

  predicate Encodable(r: Record) { LabelsOk(r.name) && DataOk(r.data) }

  /** RDLENGTH has 16 bits, so longer data cannot be read back. */
  predicate RecordOk(r: Record) { Encodable(r) && |DataBytes(r.data)| < 0x1_0000 }

  function FixedBytes(ty: u16, rrClass: u16, ttl: u32, length: u16): (s: seq<u8>)
    ensures |s| == 10
  {
    Be16(ty) + Be16(rrClass) + Be32(ttl) + Be16(length)
  }

  function RecordBytes(r: Record): seq<u8>
    requires Encodable(r)
  {
    var data := DataBytes(r.data);
    NameBytes(r.name) + FixedBytes(DataType(r.data), r.rrClass, r.ttl, |data| % 0x1_0000) + data
  }

  function RecordsBytes(rs: seq<Record>): seq<u8>
    requires forall k :: 0 <= k < |rs| ==> Encodable(rs[k])
  {
    if rs == [] then [] else RecordBytes(rs[0]) + RecordsBytes(rs[1..])
  }

  // The reader.

  function Read16(s: seq<u8>, at: nat): u16
    requires at + 2 <= |s|
  {
    var high: int, low: int := s[at], s[at + 1];
    high * 256 + low
  }

  function Read32(s: seq<u8>, at: nat): u32
    requires at + 4 <= |s|
  {
    var high: int, low: int := Read16(s, at), Read16(s, at + 2);
    high * 0x1_0000 + low
  }

  function ReadText(s: seq<u8>): Option<seq<seq<u8>>>
    decreases |s|
  {
    if s == [] then Some([])
    else
      var end: nat := s[0] as int + 1;
      if end > |s| then None
      else
        var rest := ReadText(s[end..]);
        if rest.None? then None else Some([s[1..end]] + rest.value)
  }

  function ReadData(ty: u16, s: seq<u8>): Option<RData>
  {
    if ty == 12 then
      var name := ReadName(s, 0);
      if name.Some? && name.value.next == |s| then Some(Ptr(name.value.value)) else None
    else if ty == 33 then
      if |s| < 6 then None
      else
        var name := ReadName(s, 6);
        if name.Some? && name.value.next == |s|
        then Some(Srv(Read16(s, 0), Read16(s, 2), Read16(s, 4), name.value.value)) else None
    else if ty == 16 then
      var text := ReadText(s);
      if text.None? then None else Some(Txt(text.value))
    else if ty == 1 && |s| == 4 then Some(Address(s))
    else None
  }

  /** One record; RDLENGTH alone decides where the next one begins. */
  function ReadRecord(s: seq<u8>, at: nat): Option<Parsed<Record>>
  {
    var name := ReadName(s, at);
    if name.None? || name.value.next + 10 > |s| then None
    else
      var fixed := name.value.next;
      var end := fixed + 10 + Read16(s, fixed + 8);
      if end > |s| then None
      else
        var data := ReadData(Read16(s, fixed), s[fixed + 10..end]);
        if data.None? then None
        else Some(Parsed(Record(name.value.value, Read16(s, fixed + 2), Read32(s, fixed + 4), data.value), end))
  }

  function ReadRecords(s: seq<u8>, at: nat, n: nat): Option<Parsed<seq<Record>>>
    decreases n
  {
    if n == 0 then Some(Parsed([], at))
    else
      var first := ReadRecord(s, at);
      if first.None? then None
      else
        var rest := ReadRecords(s, first.value.next, n - 1);
        if rest.None? then None else Some(Parsed([first.value.value] + rest.value.value, rest.value.next))
  }

  datatype Message = Message(id: u16, flags: u16, answers: seq<Record>)

  /** A message of answers only: no questions, authority or additional records, and nothing after
      the last answer. */
  function ReadMessage(s: seq<u8>): Option<Message>
  {
    if |s| < 12 || Read16(s, 4) != 0 || Read16(s, 8) != 0 || Read16(s, 10) != 0 then None
    else
      var answers := ReadRecords(s, 12, Read16(s, 6));
      if answers.Some? && answers.value.next == |s|
      then Some(Message(Read16(s, 0), Read16(s, 2), answers.value.value)) else None
  }

  lemma {:induction false} TextBytesCons(first: seq<u8>, rest: seq<seq<u8>>)
    requires |first| <= 255 && TextOk(rest)
    ensures TextOk([first] + rest) && TextBytes([first] + rest) == [|first|] + first + TextBytes(rest)
  {
    var all := [first] + rest;
    assert forall k :: 0 <= k < |all| ==> |all[k]| <= 255;
    if rest == [] {
      assert all[..0] == [];
    } else {
      var n := |rest| - 1;
      TextBytesCons(first, rest[..n]);
      assert all[..n + 1] == [first] + rest[..n] && all[n + 1] == rest[n];
    }
  }

  lemma {:induction false} ReadsText(strings: seq<seq<u8>>)
    requires TextOk(strings)
    ensures ReadText(TextBytes(strings)) == Some(strings)
  {
    if strings != [] {
      var first, rest := strings[0], strings[1..];
      TextBytesCons(first, rest);
      assert [first] + rest == strings;
      ReadsText(rest);
      var s := TextBytes(strings);
      hide TextBytes;
      assert s[0] == |first| && s[1..1 + |first|] == first && s[1 + |first|..] == TextBytes(rest);
    }
  }

  /** A big-endian word reads back, wherever it stands. */
  lemma Reads16(s: seq<u8>, i: nat, x: u16)
    requires At(s, i, Be16(x))
    ensures i + 2 <= |s| && Read16(s, i) == x
  {
    assert s[i..i + 2][0] == x / 256 && s[i..i + 2][1] == x % 256;
  }

  lemma Reads32(s: seq<u8>, i: nat, x: u32)
    requires At(s, i, Be32(x))
    ensures i + 4 <= |s| && Read32(s, i) == x
  {
    var high, low := x / 0x1_0000, x % 0x1_0000;
    assert |Be16(high)| == 2 && |Be16(low)| == 2;
    hide Read16, Be16, At;
    AtParts(s, i, Be16(high), Be16(low));
    Reads16(s, i, high);
    Reads16(s, i + 2, low);
  }

  lemma ReadsData(d: RData)
    requires DataOk(d)
    ensures ReadData(DataType(d), DataBytes(d)) == Some(d)
  {
    hide ReadName, NameBytes, ReadText, TextBytes, LabelsOk;
    match d {
      case Ptr(target) => ReadsName(NameBytes(target), 0, target);
      case Srv(priority, weight, port, host) => ReadsSrv(priority, weight, port, host);
      case Txt(strings) => ReadsText(strings);
      case Address(_) =>
    }
  }

  lemma ReadsSrv(priority: u16, weight: u16, port: u16, host: seq<seq<u8>>)
    requires LabelsOk(host)
    ensures var d := Srv(priority, weight, port, host); ReadData(TYPE_SRV, DataBytes(d)) == Some(d)
  {
    var p, w, o, name := Be16(priority), Be16(weight), Be16(port), NameBytes(host);
    var s := DataBytes(Srv(priority, weight, port, host));
    assert At(s, 0, p + w + o + name) && |p| == 2 && |w| == 2 && |o| == 2;
    hide ReadName, NameBytes, Read16, Be16, LabelsOk, At;
    AtParts(s, 0, p + w + o, name);
    AtParts(s, 0, p + w, o);
    AtParts(s, 0, p, w);
    Reads16(s, 0, priority);
    Reads16(s, 2, weight);
    Reads16(s, 4, port);
    ReadsName(s, 6, host);
  }

  /** The fixed part of a record reads back, wherever it stands. */
  lemma ReadsFixed(s: seq<u8>, i: nat, ty: u16, rrClass: u16, ttl: u32, length: u16)
    requires At(s, i, FixedBytes(ty, rrClass, ttl, length))
    ensures i + 10 <= |s| && Read16(s, i) == ty && Read16(s, i + 2) == rrClass && Read32(s, i + 4) == ttl
    ensures Read16(s, i + 8) == length
  {
    var t, c, l, n := Be16(ty), Be16(rrClass), Be32(ttl), Be16(length);
    assert |t| == 2 && |c| == 2 && |l| == 4;
    hide Read16, Read32, Be16, Be32, At;
    AtParts(s, i, t + c + l, n);
    AtParts(s, i, t + c, l);
    AtParts(s, i, t, c);
    Reads16(s, i, ty);
    Reads16(s, i + 2, rrClass);
    Reads32(s, i + 4, ttl);
    Reads16(s, i + 8, length);
  }

  /** A record reads back, and the reader continues exactly behind it. */
  lemma ReadsRecord(s: seq<u8>, i: nat, r: Record)
    requires RecordOk(r) && At(s, i, RecordBytes(r))
    ensures ReadRecord(s, i) == Some(Parsed(r, i + |RecordBytes(r)|))
  {
    hide ReadName, NameBytes, DataBytes, FixedBytes, ReadData, Read16, Read32, At, LabelsOk, DataOk;
    var name, data := NameBytes(r.name), DataBytes(r.data);
    assert |data| % 0x1_0000 == |data|;
    var fixed := FixedBytes(DataType(r.data), r.rrClass, r.ttl, |data|);
    AtParts(s, i, name + fixed, data);
    AtParts(s, i, name, fixed);
    ReadsName(s, i, r.name);
    ReadsFixed(s, i + |name|, DataType(r.data), r.rrClass, r.ttl, |data|);
    AtSlice(s, i + |name| + 10, data);
    ReadsData(r.data);
  }

  lemma AtSlice(s: seq<u8>, i: nat, x: seq<u8>)
    requires At(s, i, x)
    ensures i + |x| <= |s| && s[i..i + |x|] == x
  {
  }

  lemma {:induction false} ReadsRecords(s: seq<u8>, i: nat, rs: seq<Record>)
    requires forall k :: 0 <= k < |rs| ==> Encodable(rs[k]) && RecordOk(rs[k])
    requires At(s, i, RecordsBytes(rs))
    ensures ReadRecords(s, i, |rs|) == Some(Parsed(rs, i + |RecordsBytes(rs)|))
    decreases |rs|
  {
    hide ReadRecord, RecordBytes, LabelsOk, DataOk, DataBytes, At;
    if rs == [] {
      return;
    }
    var first, rest := RecordBytes(rs[0]), RecordsBytes(rs[1..]);
    assert RecordsBytes(rs) == first + rest;
    AtParts(s, i, first, rest);
    ReadsRecord(s, i, rs[0]);
    ReadsRecords(s, i + |first|, rs[1..]);
    assert [rs[0]] + rs[1..] == rs;
  }

  function HeaderBytes(id: u16, flags: u16, answers: u16): (s: seq<u8>)
    ensures |s| == 12
  {
    Be16(id) + Be16(flags) + Be16(0) + Be16(answers) + Be16(0) + Be16(0)
  }

  lemma ReadsHeader(s: seq<u8>, id: u16, flags: u16, answers: u16)
    requires At(s, 0, HeaderBytes(id, flags, answers))
    ensures |s| >= 12 && Read16(s, 0) == id && Read16(s, 2) == flags && Read16(s, 4) == 0 && Read16(s, 6) == answers
    ensures Read16(s, 8) == 0 && Read16(s, 10) == 0
  {
    var i, f, a, z := Be16(id), Be16(flags), Be16(answers), Be16(0);
    assert |i| == 2 && |f| == 2 && |a| == 2 && |z| == 2;
    hide Read16, Be16, At;
    AtParts(s, 0, i + f + z + a + z, z);
    AtParts(s, 0, i + f + z + a, z);
    AtParts(s, 0, i + f + z, a);
    AtParts(s, 0, i + f, z);
    AtParts(s, 0, i, f);
    Reads16(s, 0, id);
    Reads16(s, 2, flags);
    Reads16(s, 4, 0);
    Reads16(s, 6, answers);
    Reads16(s, 8, 0);
    Reads16(s, 10, 0);
  }

  lemma AtWhole(s: seq<u8>)
    ensures At(s, 0, s)
  {
  }

  /** The reader recovers every record of a message and ends exactly at its last byte. */
  lemma ReadsMessage(id: u16, flags: u16, rs: seq<Record>)
    requires |rs| < 0x1_0000 && forall k :: 0 <= k < |rs| ==> Encodable(rs[k]) && RecordOk(rs[k])
    ensures ReadMessage(HeaderBytes(id, flags, |rs|) + RecordsBytes(rs)) == Some(Message(id, flags, rs))
  {
    hide ReadRecords, RecordsBytes, LabelsOk, DataOk, DataBytes, Read16, HeaderBytes, At;
    var header, body := HeaderBytes(id, flags, |rs|), RecordsBytes(rs);
    var s := header + body;
    AtWhole(s);
    AtParts(s, 0, header, body);
    ReadsHeader(s, id, flags, |rs|);
    ReadsRecords(s, 12, rs);
  }
}
