/** PUBLISH packets: section 3.3 of MQTT 3.1.1. */
module Publishes {
  import opened Bytes
  import opened Utf8
  import opened Wire
  import opened Flags
  import opened Cursors
  import opened Streams

  datatype Publish = Publish(dup: bool, qos: QoS, retain: bool, topic: str, pkid: u16, payload: bytes)

  /** The declared remaining length. It leaves out the packet id when that is zero. */
  function PublishLen(p: Publish): nat {
    var len := 2 + |p.topic| + |p.payload|;
    if p.qos != AtMostOnce && p.pkid != 0 then len + 2 else len
  }

  function PublishBody(p: Publish): bytes {
    EncodeBytes(p.topic) + (if p.qos == AtMostOnce then [] else BigEndian(p.pkid)) + p.payload
  }

  function EncodePublish(p: Publish): bytes {
    [PublishByte1(p.dup, p.qos, p.retain)] + VarInt(PublishLen(p)) + PublishBody(p)
  }

  function DecodePublish(byte1: byte, body: bytes): (r: Result<Publish, Error>)
    ensures r.Err? ==> !r.error.NeedMoreData?
  {
    var qos :- QosOf(byte1 / 2 % 4);
    var (topic, rest) :- ParseString(body);
    if qos == AtMostOnce then
      Ok(Publish(Bit(byte1, 8), qos, Bit(byte1, 1), topic, 0, rest))
    else
      var (pkid, payload) :- ParseU16(rest);
      if pkid == 0 then
        Err(PacketIdZero)
      else
        Ok(Publish(Bit(byte1, 8), qos, Bit(byte1, 1), topic, pkid, payload))
  }

  method ReadPublish(header: FixedHeader, data: bytes) returns (r: Result<Publish, Error>)
    requires header.fixedHeaderLen <= |data|
    ensures r == DecodePublish(header.byte1, data[header.fixedHeaderLen..])
  {
    var number, dup, retain := MaskPublish(header.byte1);
    var qos :- QosOf(number);
    var stream := new Cursor(data);
    stream.Advance(header.fixedHeaderLen);
    var topic :- ReadMqttString(stream);
    var pkid: u16 := 0;
    if qos != AtMostOnce {
      pkid :- ReadU16(stream);
    }
    if qos != AtMostOnce && pkid == 0 {
      return Err(PacketIdZero);
    }
    return Ok(Publish(dup, qos, retain, topic, pkid, stream.rest));
  }

  method WritePublish(p: Publish, buffer: array<byte>) returns (r: Result<nat, WriteError>)
    modifies buffer
    ensures p.qos == AtMostOnce || p.pkid != 0 ==> r == PrintOutcome(PublishLen(p), |EncodePublish(p)|, buffer.Length)
    ensures !(p.qos == AtMostOnce || p.pkid != 0) ==>
              r == var prefix := PrintOutcome(PublishLen(p), |EncodePublish(p)| - 2 - |p.payload|, buffer.Length);
                   if prefix.Ok? then Err(MalformedWrite) else prefix
    ensures r.Ok? ==> FillsFront(EncodePublish(p), old(buffer[..]), buffer[..])
  {
    hide VarInt, EncodeBytes, BigEndian, PublishByte1, PublishLen, WriteCursor.Valid, WriteCursor.Written, FillsFront;
    var w := new WriteCursor(buffer, 0);
    var len := PublishLen(p);
    var byte1 := PublishFlags(p.dup, p.qos, p.retain);
    ghost var id := if p.qos == AtMostOnce then [] else BigEndian(p.pkid);
    assert EncodePublish(p) == [byte1] + VarInt(len) + EncodeBytes(p.topic) + id + p.payload;
    var _ :- w.PutU8(byte1);
    var _ :- WriteRemainingLength(w, len);
    var _ :- WriteMqttBytes(w, p.topic);
    assert w.Written() == [byte1] + VarInt(len) + EncodeBytes(p.topic);
    if p.qos != AtMostOnce {
      if p.pkid == 0 {
        return Err(MalformedWrite);
      }
      var _ :- w.PutU16(p.pkid);
    }
    assert w.Written() == [byte1] + VarInt(len) + EncodeBytes(p.topic) + id;
    var _ :- w.PutSlice(p.payload);
    assert w.Written() == EncodePublish(p);
    w.FillsBuffer();
    return Ok(w.BytesWritten());
  }

  /** What a reader can give back: no packet id on QoS 0. */
  function NormalPublish(p: Publish): Publish {
    if p.qos == AtMostOnce then p.(pkid := 0) else p
  }

  predicate RepresentablePublish(p: Publish) {
    && |p.topic| <= U16_MAX
    && (p.qos == AtMostOnce || p.pkid != 0)
    && PublishLen(p) <= MAX_REMAINING
  }

  lemma PublishRoundTrip(p: Publish)
    requires |p.topic| <= U16_MAX && (p.qos == AtMostOnce || p.pkid != 0)
    ensures PublishLen(p) == |PublishBody(p)| && |PublishBody(p)| >= 2
    ensures DecodePublish(PublishByte1(p.dup, p.qos, p.retain), PublishBody(p)) == Ok(NormalPublish(p))
  {
    hide PublishByte1, Bit, BigEndian, EncodeBytes, ParseString, ParseU16, Utf8.Valid;
    PublishByte1Reads(p.dup, p.qos, p.retain);
    if p.qos == AtMostOnce {
      StringRoundTrip(p.topic, p.payload);
      assert PublishBody(p) == EncodeBytes(p.topic) + p.payload;
    } else {
      var rest := BigEndian(p.pkid) + p.payload;
      StringRoundTrip(p.topic, rest);
      U16RoundTrip(p.pkid, p.payload);
      assert PublishBody(p) == EncodeBytes(p.topic) + rest;
    }
  }

  /** Whatever is accepted could have been printed, in exactly the bytes that were read. */
  lemma DecodedPublish(byte1: byte, body: bytes)
    requires DecodePublish(byte1, body).Ok?
    ensures var p := DecodePublish(byte1, body).value;
            |p.topic| <= U16_MAX && (p.qos == AtMostOnce || p.pkid != 0)
            && NormalPublish(p) == p && PublishBody(p) == body && PublishLen(p) == |body|
  {
    hide ParseString, ParseU16, EncodeBytes, BigEndian, Bit, QosOf;
    var p := DecodePublish(byte1, body).value;
    var (topic, rest) := ParseString(body).value;
    if p.qos == AtMostOnce {
      assert PublishBody(p) == EncodeBytes(topic) + rest;
    } else {
      assert PublishBody(p) == EncodeBytes(topic) + (BigEndian(p.pkid) + p.payload);
    }
  }
}
