/** UNSUBSCRIBE packets: section 3.10 of MQTT 3.1.1. */
module Unsubscribes {
  import opened Bytes
  import opened Utf8
  import opened Wire
  import opened Cursors
  import opened Streams

  function EncodeTopics(topics: seq<str>): bytes {
    if topics == [] then [] else EncodeBytes(topics[0]) + EncodeTopics(topics[1..])
  }

  /** Everything the lazy iterator yields: topics up to the first one that does not read. */
  function WireTopics(s: bytes): seq<str>
    decreases |s|
  {
    match ParseString(s)
    case Err(_) => []
    case Ok((topic, rest)) => [topic] + WireTopics(rest)
  }

  /** What the reading loop reports. */
  function CheckTopics(s: bytes): (r: Result<(), Error>)
    ensures r.Err? ==> !r.error.NeedMoreData?
    decreases |s|
  {
    if s == [] then
      Ok(())
    else
      match ParseString(s)
      case Err(e) => Err(e)
      case Ok((_, rest)) => CheckTopics(rest)
  }

  datatype Storage = Slice(topics: seq<str>) | WireBytes(wire: bytes)

  function Topics(storage: Storage): seq<str> {
    match storage
    case Slice(topics) => topics
    case WireBytes(s) => WireTopics(s)
  }

  predicate ShortTopics(topics: seq<str>) {
    forall i :: 0 <= i < |topics| ==> |topics[i]| <= U16_MAX
  }

  lemma ParseEmpty()
    ensures ParseString([]).Err?
  {
  }

  lemma {:induction false} WireTopicsOfEncoding(topics: seq<str>)
    requires ShortTopics(topics)
    ensures WireTopics(EncodeTopics(topics)) == topics && CheckTopics(EncodeTopics(topics)).Ok?
  {
    hide EncodeBytes, ParseString, Utf8.Valid;
    if topics != [] {
      StringRoundTrip(topics[0], EncodeTopics(topics[1..]));
      WireTopicsOfEncoding(topics[1..]);
    } else {
      ParseEmpty();
    }
  }

  /** Bytes that pass the check are exactly the encoding of what the iterator yields. */
  lemma {:induction false} WireTopicsFaithful(s: bytes)
    requires CheckTopics(s).Ok?
    ensures s == EncodeTopics(WireTopics(s)) && ShortTopics(WireTopics(s))
    decreases |s|
  {
    hide EncodeBytes, ParseString, Utf8.Valid;
    if s == [] {
      ParseEmpty();
    } else {
      var (topic, rest) := ParseString(s).value;
      WireTopicsFaithful(rest);
    }
  }

  class WireBytesIter {
    var rest: bytes

    constructor (wire: bytes)
      ensures rest == wire
    {
      rest := wire;
    }

    method Next() returns (r: Option<str>)
      modifies this
      ensures match ParseString(old(rest))
              case Err(_) => r == None && rest == old(rest)
              case Ok((topic, tail)) => r == Some(topic) && rest == tail
    {
      var cursor := new Cursor(rest);
      var topic := ReadMqttString(cursor);
      if topic.Err? {
        return None;
      }
      rest := rest[2 + |topic.value|..];
      return Some(topic.value);
    }
  }

  class StorageIterator {
    const wire: bool
    const wireIter: WireBytesIter
    var slice: seq<str>

    /** What is still to be yielded. */
    ghost function Pending(): seq<str>
      reads this, wireIter
    {
      if wire then WireTopics(wireIter.rest) else slice
    }

    constructor (storage: Storage)
      ensures Pending() == Topics(storage) && fresh(wireIter)
    {
      wire := storage.WireBytes?;
      wireIter := new WireBytesIter(if storage.WireBytes? then storage.wire else []);
      slice := if storage.Slice? then storage.topics else [];
    }

    method Next() returns (r: Option<str>)
      modifies this, wireIter
      ensures old(Pending()) == match r case None => [] case Some(t) => [t] + Pending()
      ensures r == None ==> Pending() == []
    {
      if wire {
        r := wireIter.Next();
      } else if slice == [] {
        r := None;
      } else {
        r := Some(slice[0]);
        slice := slice[1..];
      }
    }
  }

  /** `PartialEq` of two storages: the iterators are compared item by item. */
  method StorageEquals(a: Storage, b: Storage) returns (equal: bool)
    ensures equal <==> Topics(a) == Topics(b)
  {
    hide StorageIterator.Pending, Topics, Utf8.Valid;
    var left := new StorageIterator(a);
    var right := new StorageIterator(b);
    while true
      invariant fresh(left) && fresh(right) && fresh(left.wireIter) && fresh(right.wireIter)
      invariant left != right && left.wireIter != right.wireIter
      invariant Topics(a) == Topics(b) <==> left.Pending() == right.Pending()
      decreases |left.Pending()|
    {
      var x := left.Next();
      var y := right.Next();
      if x == None || y == None {
        return x == y;
      }
      SameFromFirst(x.value, left.Pending(), y.value, right.Pending());
      if x != y {
        return false;
      }
    }
  }

  datatype Unsubscribe = Unsubscribe(pkid: u16, topics: Storage)

  function TopicsLen(topics: seq<str>): (n: nat)
    ensures n == |EncodeTopics(topics)|
  {
    if topics == [] then 0 else |topics[0]| + 2 + TopicsLen(topics[1..])
  }

  function UnsubscribeLen(u: Unsubscribe): nat {
    2 + TopicsLen(Topics(u.topics))
  }

  function UnsubscribeBody(u: Unsubscribe): bytes {
    BigEndian(u.pkid) + EncodeTopics(Topics(u.topics))
  }

  function EncodeUnsubscribe(u: Unsubscribe): bytes {
    [0xA2] + VarInt(UnsubscribeLen(u)) + UnsubscribeBody(u)
  }

  function DecodeUnsubscribe(body: bytes): (r: Result<Unsubscribe, Error>)
    ensures r.Err? ==> !r.error.NeedMoreData?
  {
    var (pkid, rest) :- ParseU16(body);
    var _ :- CheckTopics(rest);
    Ok(Unsubscribe(pkid, WireBytes(rest)))
  }

  method ReadUnsubscribe(header: FixedHeader, data: bytes) returns (r: Result<Unsubscribe, Error>)
    requires header.fixedHeaderLen <= |data|
    ensures r == DecodeUnsubscribe(data[header.fixedHeaderLen..])
  {
    hide ParseString, Utf8.Valid;
    var stream := new Cursor(data);
    stream.Advance(header.fixedHeaderLen);
    var pkid :- ReadU16(stream);
    var topics := stream.rest;
    while stream.rest != []
      invariant CheckTopics(topics) == CheckTopics(stream.rest)
      decreases |stream.rest|
    {
      var _ :- ReadMqttString(stream);
    }
    return Ok(Unsubscribe(pkid, WireBytes(topics)));
  }

  /** The loop of `Unsubscribe::write`. */
  method WriteTopics(storage: Storage, w: WriteCursor) returns (r: Result<(), WriteError>)
    requires w.Valid()
    modifies w`next, w.buffer
    ensures w.Valid()
    ensures r == if old(w.next) + |EncodeTopics(Topics(storage))| <= w.Capacity() then Ok(())
            else Err(NotEnoughCapacity)
    ensures r.Ok? ==> w.Written() == old(w.Written()) + EncodeTopics(Topics(storage))
  {
    hide EncodeBytes, WriteCursor.Valid, WriteCursor.Written, StorageIterator.Pending, Topics, Utf8.Valid;
    ghost var before := w.Written();
    ghost var payload := EncodeTopics(Topics(storage));
    ghost var out: bytes := [];
    var iter := new StorageIterator(storage);
    while true
      invariant fresh(iter) && fresh(iter.wireIter) && w.Valid()
      invariant payload == out + EncodeTopics(iter.Pending())
      invariant w.Written() == before + out
      decreases |iter.Pending()|
    {
      var next := iter.Next();
      if next == None {
        assert out == payload;
        return Ok(());
      }
      assert payload == out + EncodeBytes(next.value) + EncodeTopics(iter.Pending());
      var _ :- WriteMqttBytes(w, next.value);
      out := out + EncodeBytes(next.value);
    }
  }

  method WriteUnsubscribe(u: Unsubscribe, buffer: array<byte>) returns (r: Result<nat, WriteError>)
    modifies buffer
    ensures r == PrintOutcome(UnsubscribeLen(u), |EncodeUnsubscribe(u)|, buffer.Length)
    ensures r.Ok? ==> FillsFront(EncodeUnsubscribe(u), old(buffer[..]), buffer[..])
  {
    hide VarInt, BigEndian, EncodeTopics, UnsubscribeLen, WriteCursor.Valid, WriteCursor.Written, FillsFront, Topics;
    var w := new WriteCursor(buffer, 0);
    var len := UnsubscribeLen(u);
    assert EncodeUnsubscribe(u) == [0xA2] + VarInt(len) + BigEndian(u.pkid) + EncodeTopics(Topics(u.topics));
    var _ :- w.PutU8(0xA2);
    var _ :- WriteRemainingLength(w, len);
    var _ :- w.PutU16(u.pkid);
    var _ :- WriteTopics(u.topics, w);
    assert w.Written() == EncodeUnsubscribe(u);
    w.FillsBuffer();
    return Ok(w.BytesWritten());
  }

  predicate RepresentableUnsubscribe(u: Unsubscribe) {
    ShortTopics(Topics(u.topics)) && UnsubscribeLen(u) <= MAX_REMAINING
  }

  function NormalUnsubscribe(u: Unsubscribe): Unsubscribe {
    u.(topics := WireBytes(EncodeTopics(Topics(u.topics))))
  }

  lemma UnsubscribeRoundTrip(u: Unsubscribe)
    requires ShortTopics(Topics(u.topics))
    ensures UnsubscribeLen(u) == |UnsubscribeBody(u)| && |UnsubscribeBody(u)| >= 2
    ensures DecodeUnsubscribe(UnsubscribeBody(u)) == Ok(NormalUnsubscribe(u))
    ensures Topics(NormalUnsubscribe(u).topics) == Topics(u.topics)
  {
    var topics := Topics(u.topics);
    WireTopicsOfEncoding(topics);
    assert UnsubscribeBody(u)[2..] == EncodeTopics(topics);
  }

  /** What is accepted prints again as the bytes that were read. */
  lemma DecodedUnsubscribe(body: bytes)
    requires DecodeUnsubscribe(body).Ok?
    ensures var u := DecodeUnsubscribe(body).value;
            && ShortTopics(Topics(u.topics))
            && NormalUnsubscribe(u) == u && UnsubscribeBody(u) == body && UnsubscribeLen(u) == |body|
  {
    hide ParseString, Utf8.Valid;
    var (_, rest) := ParseU16(body).value;
    WireTopicsFaithful(rest);
  }
}
