/** SUBSCRIBE packets: section 3.8 of MQTT 3.1.1. */
module Subscribes {
  import opened Bytes
  import opened Utf8
  import opened Wire
  import opened Cursors
  import opened Streams

  datatype SubscribeFilter = SubscribeFilter(path: str, qos: QoS) {
    function Len(): nat {
      2 + |path| + 1
    }
  }

  // ---- Wire form of a filter list ----

  function EncodeFilter(f: SubscribeFilter): (r: bytes)
    ensures |r| == f.Len()
  {
    EncodeBytes(f.path) + [QosByte(f.qos)]
  }

  function EncodeFilters(fs: seq<SubscribeFilter>): bytes {
    if fs == [] then [] else EncodeFilter(fs[0]) + EncodeFilters(fs[1..])
  }

  lemma EncodeNoFilters()
    ensures EncodeFilters([]) == []
  {
  }

  lemma EncodeFiltersCons(f: SubscribeFilter, rest: seq<SubscribeFilter>)
    ensures EncodeFilters([f] + rest) == EncodeFilter(f) + EncodeFilters(rest)
  {
    assert ([f] + rest)[1..] == rest;
  }

  /** One step of the lazy iterator: a filter and the bytes behind it, or nothing. */
  function NextFilter(s: bytes): (r: Option<(SubscribeFilter, bytes)>)
    ensures r.Some? ==> |r.value.0.path| <= U16_MAX && s == EncodeFilter(r.value.0) + r.value.1 && |r.value.1| < |s|
  {
    if |s| < 2 then
      None
    else
      var len := FromBigEndian(s[0], s[1]);
      var data := s[2..];
      if |data| < 1 + len || !Valid(data[..len]) then
        None
      else
        match QosOf(data[len])
        case Err(_) => None
        case Ok(qos) =>
          assert data == data[..len] + [data[len]] + data[len + 1..];
          Some((SubscribeFilter(data[..len], qos), data[len + 1..]))
  }

  /** Everything the lazy iterator yields. */
  function WireFilters(s: bytes): (fs: seq<SubscribeFilter>)
    decreases |s|
  {
    match NextFilter(s)
    case None => []
    case Some((f, rest)) => [f] + WireFilters(rest)
  }

  /** The bytes on which the lazy iterator gets stuck. */
  function Leftover(s: bytes): (rest: bytes)
    decreases |s|
  {
    match NextFilter(s)
    case None => s
    case Some((_, rest)) => Leftover(rest)
  }

  datatype Storage = Slice(filters: seq<SubscribeFilter>) | WireBytes(wire: bytes)

  /** The list a storage denotes. */
  function Filters(storage: Storage): seq<SubscribeFilter> {
    match storage
    case Slice(fs) => fs
    case WireBytes(s) => WireFilters(s)
  }

  lemma NextFilterOfEncoding(f: SubscribeFilter, rest: bytes)
    requires |f.path| <= U16_MAX
    ensures NextFilter(EncodeFilter(f) + rest) == Some((f, rest))
  {
    var s := EncodeFilter(f) + rest;
    var data := s[2..];
    assert s[0] == |f.path| / 256 && s[1] == |f.path| % 256;
    assert data == f.path + ([QosByte(f.qos)] + rest);
    assert data[..|f.path|] == f.path && data[|f.path| + 1..] == rest;
    assert QosOf(QosByte(f.qos)) == Ok(f.qos);
  }

  predicate ShortPaths(fs: seq<SubscribeFilter>) {
    forall i :: 0 <= i < |fs| ==> |fs[i].path| <= U16_MAX
  }

  lemma {:induction false} WireFiltersOfEncoding(fs: seq<SubscribeFilter>)
    requires ShortPaths(fs)
    ensures WireFilters(EncodeFilters(fs)) == fs && Leftover(EncodeFilters(fs)) == []
  {
    hide EncodeFilter, NextFilter, Utf8.Valid;
    if fs != [] {
      var tail := EncodeFilters(fs[1..]);
      NextFilterOfEncoding(fs[0], tail);
      WireFiltersOfEncoding(fs[1..]);
    }
  }

  /** The lazy iterator loses nothing: re-encoding its items and appending the rest gives the bytes back. */
  lemma {:induction false} WireFiltersFaithful(s: bytes)
    ensures s == EncodeFilters(WireFilters(s)) + Leftover(s)
    ensures ShortPaths(WireFilters(s)) && NextFilter(Leftover(s)).None?
    decreases |s|
  {
    hide EncodeFilter, NextFilter;
    match NextFilter(s)
    case None =>
    case Some((f, rest)) =>
      WireFiltersFaithful(rest);
      assert s == EncodeFilter(f) + (EncodeFilters(WireFilters(rest)) + Leftover(rest));
  }

  // ---- Lazy iterators ----

  class BytesIterator {
    var rest: bytes

    constructor (wire: bytes)
      ensures rest == wire
    {
      rest := wire;
    }

    /** A clone of the position is advanced and only written back when a whole filter was read. */
    method Next() returns (r: Option<SubscribeFilter>)
      modifies this
      ensures match NextFilter(old(rest))
              case None => r == None && rest == old(rest)
              case Some((f, tail)) => r == Some(f) && rest == tail
    {
      if |rest| < 2 {
        return None;
      }
      var len: nat := FromBigEndian(rest[0], rest[1]);
      var data := rest[2..];
      if |data| < 1 + len {
        return None;
      }
      if !Valid(data[..len]) {
        return None;
      }
      var qos := QosOf(data[len]);
      if qos.Err? {
        return None;
      }
      rest := data[len + 1..];
      return Some(SubscribeFilter(data[..len], qos.value));
    }

    /** `count()`: drains the iterator. */
    method Count() returns (n: nat)
      modifies this
      ensures n == |WireFilters(old(rest))| && rest == Leftover(old(rest))
    {
      n := 0;
      ghost var whole := rest;
      while true
        invariant n + |WireFilters(rest)| == |WireFilters(whole)| && Leftover(rest) == Leftover(whole)
        decreases |rest|
      {
        var f := Next();
        if f == None {
          return;
        }
        n := n + 1;
      }
    }
  }

  class StorageIter {
    const wire: bool
    const bytesIter: BytesIterator
    var slice: seq<SubscribeFilter>

    /** What is still to be yielded. */
    ghost function Pending(): seq<SubscribeFilter>
      reads this, bytesIter
    {
      if wire then WireFilters(bytesIter.rest) else slice
    }

    constructor (storage: Storage)
      ensures Pending() == Filters(storage) && fresh(bytesIter)
    {
      wire := storage.WireBytes?;
      bytesIter := new BytesIterator(if storage.WireBytes? then storage.wire else []);
      slice := if storage.Slice? then storage.filters else [];
    }

    method Next() returns (r: Option<SubscribeFilter>)
      modifies this, bytesIter
      ensures old(Pending()) == match r case None => [] case Some(f) => [f] + Pending()
      ensures r == None ==> Pending() == []
    {
      if wire {
        r := bytesIter.Next();
      } else if slice == [] {
        r := None;
      } else {
        r := Some(slice[0]);
        slice := slice[1..];
      }
    }
  }

  /** `PartialEq` of two storages: the iterators are compared item by item. */
  method StorageEquals(a: Storage, b: Storage) returns (equal: bool)
    ensures equal <==> Filters(a) == Filters(b)
  {
    hide StorageIter.Pending, Filters, SubscribeFilter.Len, Utf8.Valid;
    var left := new StorageIter(a);
    var right := new StorageIter(b);
    while true
      invariant fresh(left) && fresh(right) && fresh(left.bytesIter) && fresh(right.bytesIter)
      invariant left != right && left.bytesIter != right.bytesIter
      invariant Filters(a) == Filters(b) <==> left.Pending() == right.Pending()
      decreases |left.Pending()|
    {
      var x := left.Next();
      var y := right.Next();
      if x == None || y == None {
        return x == y;
      }
      SameFromFirst(x.value, left.Pending(), y.value, right.Pending());
      if x != y {
        return false;
      }
    }
  }

  // ---- The packet ----

  datatype Subscribe = Subscribe(pkid: u16, filters: Storage)

  function FiltersLen(fs: seq<SubscribeFilter>): (n: nat)
    ensures n == |EncodeFilters(fs)|
  {
    if fs == [] then 0 else fs[0].Len() + FiltersLen(fs[1..])
  }

  function SubscribeLen(s: Subscribe): nat {
    2 + FiltersLen(Filters(s.filters))
  }

  function SubscribeBody(s: Subscribe): bytes {
    BigEndian(s.pkid) + EncodeFilters(Filters(s.filters))
  }

  function EncodeSubscribe(s: Subscribe): bytes {
    [0x82] + VarInt(SubscribeLen(s)) + SubscribeBody(s)
  }

  function DecodeSubscribe(body: bytes): (r: Result<Subscribe, Error>)
    ensures r.Err? ==> !r.error.NeedMoreData?
  {
    var (pkid, rest) :- ParseU16(body);
    if WireFilters(rest) == [] then Err(EmptySubscription)
    else if Leftover(rest) != [] then Err(MalformedPacket)
    else Ok(Subscribe(pkid, WireBytes(rest)))
  }

  method ReadSubscribe(header: FixedHeader, data: bytes) returns (r: Result<Subscribe, Error>)
    requires header.fixedHeaderLen <= |data|
    ensures r == DecodeSubscribe(data[header.fixedHeaderLen..])
  {
    var stream := new Cursor(data);
    stream.Advance(header.fixedHeaderLen);
    var pkid :- ReadU16(stream);
    var iter := new BytesIterator(stream.rest);
    var count := iter.Count();
    if count == 0 {
      return Err(EmptySubscription);
    } else if iter.rest != [] {
      return Err(MalformedPacket);
    } else {
      return Ok(Subscribe(pkid, WireBytes(stream.rest)));
    }
  }

  method WriteFilter(f: SubscribeFilter, w: WriteCursor) returns (r: Result<(), WriteError>)
    requires w.Valid()
    modifies w`next, w.buffer
    ensures w.Valid()
    ensures r == if old(w.next) + f.Len() <= w.Capacity() then Ok(()) else Err(NotEnoughCapacity)
    ensures r.Ok? ==> w.Written() == old(w.Written()) + EncodeFilter(f)
  {
    hide EncodeBytes, WriteCursor.Written;
    var _ :- WriteMqttBytes(w, f.path);
    r := w.PutU8(QosByte(f.qos));
  }

  /** The loop of `Subscribe::write`. */
  method WriteFilters(storage: Storage, w: WriteCursor) returns (r: Result<(), WriteError>)
    requires w.Valid()
    modifies w`next, w.buffer
    ensures w.Valid()
    ensures r == if old(w.next) + |EncodeFilters(Filters(storage))| <= w.Capacity() then Ok(())
            else Err(NotEnoughCapacity)
    ensures r.Ok? ==> w.Written() == old(w.Written()) + EncodeFilters(Filters(storage))
  {
    hide EncodeFilter, EncodeFilters, WriteCursor.Valid, WriteCursor.Written, SubscribeFilter.Len, StorageIter.Pending,
      Filters, Utf8.Valid;
    EncodeNoFilters();
    ghost var before := w.Written();
    ghost var payload := EncodeFilters(Filters(storage));
    ghost var out: bytes := [];
    var iter := new StorageIter(storage);
    while true
      invariant fresh(iter) && fresh(iter.bytesIter) && w.Valid()
      invariant payload == out + EncodeFilters(iter.Pending())
      invariant w.Written() == before + out
      decreases |iter.Pending()|
    {
      var next := iter.Next();
      if next == None {
        assert out == payload;
        return Ok(());
      }
      EncodeFiltersCons(next.value, iter.Pending());
      assert payload == out + EncodeFilter(next.value) + EncodeFilters(iter.Pending());
      var _ :- WriteFilter(next.value, w);
      out := out + EncodeFilter(next.value);
    }
  }

  method WriteSubscribe(s: Subscribe, buffer: array<byte>) returns (r: Result<nat, WriteError>)
    modifies buffer
    ensures r == PrintOutcome(SubscribeLen(s), |EncodeSubscribe(s)|, buffer.Length)
    ensures r.Ok? ==> FillsFront(EncodeSubscribe(s), old(buffer[..]), buffer[..])
  {
    hide VarInt, BigEndian, EncodeFilters, SubscribeLen, WriteCursor.Valid, WriteCursor.Written, FillsFront, Filters;
    var w := new WriteCursor(buffer, 0);
    var len := SubscribeLen(s);
    assert EncodeSubscribe(s) == [0x82] + VarInt(len) + BigEndian(s.pkid) + EncodeFilters(Filters(s.filters));
    var _ :- w.PutU8(0x82);
    var _ :- WriteRemainingLength(w, len);
    var _ :- w.PutU16(s.pkid);
    var _ :- WriteFilters(s.filters, w);
    assert w.Written() == EncodeSubscribe(s);
    w.FillsBuffer();
    return Ok(w.BytesWritten());
  }

  predicate RepresentableSubscribe(s: Subscribe) {
    Filters(s.filters) != [] && ShortPaths(Filters(s.filters)) && SubscribeLen(s) <= MAX_REMAINING
  }

  /** What a reader gives back: the same list, held as wire bytes. */
  function NormalSubscribe(s: Subscribe): Subscribe {
    s.(filters := WireBytes(EncodeFilters(Filters(s.filters))))
  }

  lemma SubscribeRoundTrip(s: Subscribe)
    requires Filters(s.filters) != [] && ShortPaths(Filters(s.filters))
    ensures SubscribeLen(s) == |SubscribeBody(s)| && |SubscribeBody(s)| >= 2
    ensures DecodeSubscribe(SubscribeBody(s)) == Ok(NormalSubscribe(s))
    ensures Filters(NormalSubscribe(s).filters) == Filters(s.filters)
  {
    var fs := Filters(s.filters);
    WireFiltersOfEncoding(fs);
    assert SubscribeBody(s)[2..] == EncodeFilters(fs);
  }

  /** What is accepted is a non-empty list, and printing it again reproduces the bytes that were read. */
  lemma DecodedSubscribe(body: bytes)
    requires DecodeSubscribe(body).Ok?
    ensures var s := DecodeSubscribe(body).value;
            && Filters(s.filters) != [] && ShortPaths(Filters(s.filters))
            && NormalSubscribe(s) == s && SubscribeBody(s) == body && SubscribeLen(s) == |body|
  {
    hide NextFilter, EncodeFilter, Utf8.Valid;
    var (_, rest) := ParseU16(body).value;
    WireFiltersFaithful(rest);
  }

  // ---- Formatting a subscription in place ----

  method AddStr(buf: BorrowedBuf, topic: str, qos: QoS) returns (r: Result<(), WriteError>)
    requires buf.Valid()
    modifies buf`len, buf.buffer
    ensures buf.Valid() && old(buf.Contents()) <= buf.Contents()
    ensures r == if |topic| > U16_MAX then Err(PayloadTooLong)
                 else if old(buf.len) + SubscribeFilter(topic, qos).Len() > buf.Capacity() then Err(NotEnoughCapacity)
                 else Ok(())
    ensures r.Ok? ==> buf.Contents() == old(buf.Contents()) + EncodeFilter(SubscribeFilter(topic, qos))
  {
    hide BorrowedBuf.Contents, BorrowedBuf.Valid;
    if |topic| > U16_MAX {
      return Err(PayloadTooLong);
    }
    var _ :- buf.AddSlice(BigEndian(|topic|));
    var _ :- buf.AddSlice(topic);
    r := buf.AddSlice([QosByte(qos)]);
  }

  function Join(parts: seq<str>, separator: str): bytes {
    if parts == [] then []
    else if |parts| == 1 then parts[0]
    else parts[0] + separator + Join(parts[1..], separator)
  }

  lemma {:induction false} JoinIsText(parts: seq<str>, separator: str)
    ensures Valid(Join(parts, separator))
  {
    if |parts| > 1 {
      JoinIsText(parts[1..], separator);
      ValidConcat(parts[0], separator);
      ValidConcat(parts[0] + separator, Join(parts[1..], separator));
    }
  }

  /** Joining one part is that part, and lists are joined with one separator in between. */
  lemma {:induction false} JoinConcat(a: seq<str>, b: seq<str>, separator: str)
    requires a != [] && b != []
    ensures Join([], separator) == [] && Join([a[0]], separator) == a[0]
    ensures Join(a + b, separator) == Join(a, separator) + separator + Join(b, separator)
    decreases |a|
  {
    assert (a + b)[1..] == a[1..] + b;
    if |a| > 1 {
      JoinConcat(a[1..], b, separator);
      assert a[0] + separator + (Join(a[1..], separator) + separator + Join(b, separator))
        == (a[0] + separator + Join(a[1..], separator)) + separator + Join(b, separator);
    } else {
      assert a[1..] + b == b;
    }
  }

  lemma JoinOfNone(separator: str)
    ensures Join([], separator) == []
  {
  }

  lemma JoinStep(done: bytes, parts: seq<str>, i: nat, separator: str)
    requires i < |parts|
    ensures i == |parts| - 1 ==> parts[i + 1..] == []
    ensures done + Join(parts[i..], separator)
         == (done + if i == |parts| - 1 then parts[i] else parts[i] + separator) + Join(parts[i + 1..], separator)
  {
    assert parts[i..][1..] == parts[i + 1..];
  }

  method AddPart(buf: BorrowedBuf, part: str, separator: str, last: bool) returns (r: Result<(), WriteError>)
    requires buf.Valid()
    modifies buf`len, buf.buffer
    ensures buf.Valid() && old(buf.Contents()) <= buf.Contents()
    ensures var piece := if last then part else part + separator;
            && r == (if old(buf.len) + |piece| <= buf.Capacity() then Ok(()) else Err(NotEnoughCapacity))
            && (r.Ok? ==> buf.Contents() == old(buf.Contents()) + piece)
  {
    hide BorrowedBuf.Contents, BorrowedBuf.Valid, Utf8.Valid;
    r := buf.AddSlice(part);
    if r.Ok? && !last {
      r := buf.AddSlice(separator);
    }
  }

  /** The loop of `add_separated`: a separator after every part but the last. */
  method AddParts(buf: BorrowedBuf, parts: seq<str>, separator: str) returns (r: Result<(), WriteError>)
    requires buf.Valid()
    modifies buf`len, buf.buffer
    ensures buf.Valid() && old(buf.Contents()) <= buf.Contents()
    ensures r == if old(buf.len) + |Join(parts, separator)| <= buf.Capacity() then Ok(()) else Err(NotEnoughCapacity)
    ensures r.Ok? ==> buf.Contents() == old(buf.Contents()) + Join(parts, separator)
  {
    hide BorrowedBuf.Contents, BorrowedBuf.Valid, Utf8.Valid, Join;
    JoinOfNone(separator);
    ghost var before := buf.Contents();
    ghost var path := Join(parts, separator);
    assert parts[0..] == parts;
    ghost var done: bytes := [];
    for i := 0 to |parts|
      invariant buf.Valid()
      invariant buf.Contents() == before + done
      invariant path == done + Join(parts[i..], separator)
    {
      JoinStep(done, parts, i, separator);
      var last := i == |parts| - 1;
      ghost var more := done + if last then parts[i] else parts[i] + separator;
      var _ :- AddPart(buf, parts[i], separator, last);
      done := more;
    }
    assert parts[|parts|..] == [] && done == path;
    return Ok(());
  }

  /** The length is reserved first, the parts appended one by one, and the length filled in afterwards. */
  method AddSeparated(buf: BorrowedBuf, parts: seq<str>, separator: str, qos: QoS) returns (r: Result<(), WriteError>)
    requires buf.Valid()
    modifies buf`len, buf.buffer
    ensures buf.Valid() && old(buf.Contents()) <= buf.Contents()
    ensures var size := |Join(parts, separator)|;
            var room := buf.Capacity() - old(buf.len);
            r == if size <= U16_MAX && 3 + size <= room then Ok(())
                 else if 2 + size <= room && size > U16_MAX then Err(PayloadTooLong)
                 else Err(NotEnoughCapacity)
    ensures r.Ok? ==> buf.Contents() == old(buf.Contents()) + EncodeBytes(Join(parts, separator)) + [QosByte(qos)]
  {
    hide BorrowedBuf.Contents, BorrowedBuf.Valid, BigEndian, Utf8.Valid;
    ghost var before := buf.Contents();
    ghost var path := Join(parts, separator);
    var startLen := buf.len;
    var _ :- buf.AddSlice([0, 0]);
    var _ :- AddParts(buf, parts, separator);
    assert buf.Contents() == before + [0, 0] + path;
    var len := buf.len - startLen - 2;
    if len > U16_MAX {
      return Err(PayloadTooLong);
    }
    buf.PatchU16(startLen, len);
    assert buf.Contents() == before + BigEndian(len) + path;
    r := buf.AddSlice([QosByte(qos)]);
  }
}
