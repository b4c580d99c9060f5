/**
 Fixed points of the wire format: packets and bytes as the repository's own tests and section 2 and 3 of MQTT 3.1.1
 give them.
 */
module Vectors {
  import opened Bytes
  import opened Wire
  import opened Connects
  import opened Publishes
  import opened Packets
  import S = Subscribes
  import A = SubAcks
  import Utf8

  const HELLO: bytes := [0x68, 0x65, 0x6C, 0x6C, 0x6F]
  const WORLD: bytes := [0x77, 0x6F, 0x72, 0x6C, 0x64]

  lemma Ascii(s: bytes)
    requires forall i :: 0 <= i < |s| ==> s[i] < 0x80
    ensures Utf8.Valid(s)
  {
    if s != [] {
      Ascii(s[1..]);
      assert Utf8.ValidFrom(s);
    }
  }

  /** A QoS 0 publish of "world" on "hello". */
  lemma PublishVector()
    ensures Utf8.Valid(HELLO)
    ensures Encode(PublishPacket(Publish(false, AtMostOnce, false, HELLO, 0, WORLD)))
         == [0x30, 0x0C, 0x00, 0x05] + HELLO + WORLD
  {
    hide Utf8.Valid;
    Ascii(HELLO);
    var p := Publish(false, AtMostOnce, false, HELLO, 0, WORLD);
    assert PublishBody(p) == [0x00, 0x05] + HELLO + WORLD;
    assert VarInt(12) == [0x0C];
  }

  const CLIENT_ID: bytes := [0x74, 0x65, 0x73, 0x74]
  const WILL_TOPIC: bytes := [0x2F, 0x61]
  const WILL_MESSAGE: bytes := [0x6F, 0x66, 0x66, 0x6C, 0x69, 0x6E, 0x65]
  const USERNAME: bytes := [0x72, 0x75, 0x73, 0x74]
  const PASSWORD: bytes := [0x6D, 0x71]

  /** The sample CONNECT: client "test", will "/a" with message "offline" at QoS 1, user "rust", password "mq". */
  lemma ConnectVector()
    ensures Utf8.Valid(CLIENT_ID) && Utf8.Valid(WILL_TOPIC) && Utf8.Valid(USERNAME)
    ensures Encode(ConnectPacket(Connect(V4, 10, CLIENT_ID, true,
            Some(LastWill(WILL_TOPIC, WILL_MESSAGE, AtLeastOnce, false)),
                                         Some(Login(USERNAME, PASSWORD)))))
         == [0x10, 39, 0x00, 0x04, 0x4D, 0x51, 0x54, 0x54, 0x04]
            + [0xCE, 0x00, 0x0A]
            + ([0x00, 0x04] + CLIENT_ID + [0x00, 0x02] + WILL_TOPIC + [0x00, 0x07] + WILL_MESSAGE
               + [0x00, 0x04] + USERNAME + [0x00, 0x02] + PASSWORD)
  {
    Ascii(CLIENT_ID);
    Ascii(WILL_TOPIC);
    Ascii(USERNAME);
    hide *;
    var c := Connect(V4, 10, CLIENT_ID, true, Some(LastWill(WILL_TOPIC, WILL_MESSAGE, AtLeastOnce, false)),
                     Some(Login(USERNAME, PASSWORD)));
    ConnectVectorHead(c);
    ConnectVectorFlags(c);
    ConnectVectorPayload(c);
    EncodedInTwo(c);
    PrintersEncode(ConnectPacket(c));
    assert ConnectTail(c) == [0xCE, 0x00, 0x0A] + ConnectPayload(c) by {
      ConnectVectorTail(c);
    }
  }

  lemma ConnectVectorTail(c: Connect)
    requires FlagsOf(c) == 0xCE && c.keepAlive == 10
    ensures ConnectTail(c) == [0xCE, 0x00, 0x0A] + ConnectPayload(c)
  {
    hide ConnectPayload, FlagsOf;
  }

  lemma ConnectVectorHead(c: Connect)
    requires c.clientId == CLIENT_ID && c.login == Some(Login(USERNAME, PASSWORD)) && c.protocol == V4
    requires c.lastWill.Some? && c.lastWill.value.topic == WILL_TOPIC && c.lastWill.value.message == WILL_MESSAGE
    ensures ConnectHead(c) == [0x10, 39, 0x00, 0x04, 0x4D, 0x51, 0x54, 0x54, 0x04]
  {
    hide ConnectBody, Utf8.Valid;
    assert ConnectLen(c) == 39 && VarInt(39) == [39];
  }

  lemma ConnectVectorFlags(c: Connect)
    requires c.cleanSession && c.login == Some(Login(USERNAME, PASSWORD))
    requires c.lastWill.Some? && c.lastWill.value.qos == AtLeastOnce && !c.lastWill.value.retain
    ensures FlagsOf(c) == 0xCE
  {
  }

  lemma ConnectVectorPayload(c: Connect)
    requires c.clientId == CLIENT_ID && c.login == Some(Login(USERNAME, PASSWORD))
    requires c.lastWill.Some? && c.lastWill.value.topic == WILL_TOPIC && c.lastWill.value.message == WILL_MESSAGE
    ensures ConnectPayload(c)
         == [0x00, 0x04] + CLIENT_ID + [0x00, 0x02] + WILL_TOPIC + [0x00, 0x07] + WILL_MESSAGE
            + [0x00, 0x04] + USERNAME + [0x00, 0x02] + PASSWORD
  {
    hide Utf8.Valid;
    assert EncodeBytes(CLIENT_ID) == [0x00, 0x04] + CLIENT_ID;
    assert EncodeBytes(WILL_TOPIC) == [0x00, 0x02] + WILL_TOPIC;
    assert EncodeBytes(WILL_MESSAGE) == [0x00, 0x07] + WILL_MESSAGE;
    assert EncodeBytes(USERNAME) == [0x00, 0x04] + USERNAME;
    assert EncodeBytes(PASSWORD) == [0x00, 0x02] + PASSWORD;
    hide EncodeBytes;
  }

  /** A QoS 1 success and a failure, with the id 15. */
  lemma SubAckVector()
    ensures Encode(SubAckPacket(A.SubAck(15, A.Slice([A.Success(AtLeastOnce), A.Failure]))))
            == [0x90, 4, 0x00, 0x0F, 0x01, 0x80]
  {
    var codes := [A.Success(AtLeastOnce), A.Failure];
    assert codes[1..] == [A.Failure] && codes[1..][1..] == [];
    assert A.EncodeCodes([A.Failure]) == [0x80] + A.EncodeCodes([]);
    assert A.EncodeCodes(codes) == [0x01] + [0x80];
    assert VarInt(4) == [4];
  }

  /** Two filters with the id 260: "a/+" at QoS 0 and "#" at QoS 1. */
  lemma SubscribeVector()
    ensures Utf8.Valid([0x61, 0x2F, 0x2B]) && Utf8.Valid([0x23])
    ensures Encode(SubscribePacket(S.Subscribe(260, S.Slice([S.SubscribeFilter([0x61, 0x2F, 0x2B], AtMostOnce),
                                                             S.SubscribeFilter([0x23], AtLeastOnce)]))))
         == [0x82, 12, 0x01, 0x04] + ([0x00, 0x03, 0x61, 0x2F, 0x2B, 0x00] + [0x00, 0x01, 0x23, 0x01])
  {
    Ascii([0x61, 0x2F, 0x2B]);
    Ascii([0x23]);
    hide Utf8.Valid;
    var f := S.SubscribeFilter([0x61, 0x2F, 0x2B], AtMostOnce);
    var g := S.SubscribeFilter([0x23], AtLeastOnce);
    assert S.EncodeFilter(f) == [0x00, 0x03, 0x61, 0x2F, 0x2B, 0x00];
    assert S.EncodeFilter(g) == [0x00, 0x01, 0x23, 0x01];
    assert VarInt(12) == [12];
    hide S.EncodeFilter, VarInt;
    TwoFilters(f, g);
    hide S.EncodeFilters, S.FiltersLen;
  }

  lemma TwoFilters(f: S.SubscribeFilter, g: S.SubscribeFilter)
    ensures S.EncodeFilters([f, g]) == S.EncodeFilter(f) + S.EncodeFilter(g)
    ensures S.FiltersLen([f, g]) == f.Len() + g.Len()
  {
    hide S.EncodeFilter, S.SubscribeFilter.Len, Utf8.Valid;
    assert [f, g][1..] == [g] && [g][1..] == [];
    assert S.EncodeFilters([g]) == S.EncodeFilter(g) + S.EncodeFilters([]);
    assert S.FiltersLen([g]) == g.Len() + S.FiltersLen([]);
  }

  /** The largest lengths of one, two and three bytes and the overall largest one (table 2.4). */
  lemma LengthVectors()
    ensures VarInt(127) == [0x7F] && VarInt(128) == [0x80, 0x01]
    ensures VarInt(16383) == [0xFF, 0x7F] && VarInt(16384) == [0x80, 0x80, 0x01]
    ensures VarInt(2097151) == [0xFF, 0xFF, 0x7F] && VarInt(2097152) == [0x80, 0x80, 0x80, 0x01]
    ensures VarInt(MAX_REMAINING) == [0xFF, 0xFF, 0xFF, 0x7F]
  {
  }

  /** A length in more bytes than needed is accepted, so printing does not always reproduce the header that was read. */
  lemma PaddedLengthIsAccepted()
    ensures Decode([0xD0, 0x80, 0x00], 16) == Ok((PingRespPacket, 3)) && Encode(PingRespPacket) == [0xD0, 0x00]
  {
    hide DecodeFields, FixedHeader.PacketType;
    assert Body(PingRespPacket) == [];
    hide Body;
    var s := [0xD0, 0x80, 0x00];
    assert s[1..][1..] == [0x00];
    assert DecodeLength(s[1..][1..], 1) == Ok((1, 0));
    assert DecodeLength(s[1..], 0) == Ok((2, 0));
    hide DecodeLength;
    var header := FixedHeader(0xD0, 3, 0);
    assert Check(s, 16) == Ok(header);
    hide Check;
    PingRespHeader(header);
    assert s[..3] == s;
    assert VarInt(0) == [0x00];
  }

  /** A byte behind the packet id of a PUBACK is ignored, and printing does not bring it back. */
  lemma TrailingByteIsDropped()
    ensures Decode([0x40, 3, 0, 1, 0xFF], 16) == Ok((PubAckPacket(1), 5))
    ensures Encode(PubAckPacket(1)) == [0x40, 2, 0, 1]
  {
    hide FixedHeader.PacketType, Check, DecodeFields, VarInt, BigEndian;
    var body := [0, 1, 0xFF];
    assert Frame(0x40, body) + [] == [0x40, 3, 0, 1, 0xFF] && |VarInt(3)| == 1 by {
      ThreeByteFrame(body);
    }
    FrameChecks(0x40, body, [], 16);
    PubAckOne(FixedHeader(0x40, 2, 3), body);
  }

  lemma ThreeByteFrame(body: bytes)
    requires |body| == 3
    ensures VarInt(3) == [3] && VarInt(2) == [2] && Frame(0x40, body) == [0x40, 3] + body
  {
  }

  lemma PubAckOne(header: FixedHeader, body: bytes)
    requires header.byte1 == 0x40 && header.remainingLen == 3 && body == [0, 1, 0xFF]
    ensures DecodeBody(header, body) == Ok(PubAckPacket(1))
    ensures Encode(PubAckPacket(1)) == [0x40, 2, 0, 1]
  {
    assert VarInt(2) == [2];
    assert header.PacketType() == Ok(PubAckType);
    assert body == BigEndian(1) + [0xFF];
    U16RoundTrip(1, [0xFF]);
  }

  lemma PingRespHeader(header: FixedHeader)
    requires header.byte1 == 0xD0 && header.remainingLen == 0
    ensures DecodeBody(header, []) == Ok(PingRespPacket)
  {
    assert header.PacketType() == Ok(PingRespType);
  }

  /** A SUBSCRIBE without filters is printed, and no reader accepts it. */
  lemma EmptySubscribeDoesNotReadBack()
    ensures var p := SubscribePacket(S.Subscribe(1, S.Slice([])));
            Prints(p) && Encode(p) == [0x82, 2, 0, 1] && Decode(Encode(p), 16) == Err(EmptySubscription)
  {
    hide DecodeFields, DecodeLength, FixedHeader.PacketType, Check;
    var p := SubscribePacket(S.Subscribe(1, S.Slice([])));
    var s := [0x82, 2, 0, 1];
    assert VarInt(2) == [2];
    assert BigEndian(1) == [0, 1];
    assert Encode(p) == s;
    hide Encode, BigEndian, S.DecodeSubscribe;
    FrameChecks(0x82, [0, 1], [], 16);
    assert Frame(0x82, [0, 1]) + [] == s;
    NoFilters(FixedHeader(0x82, 2, 2));
  }

  lemma NoFilters(header: FixedHeader)
    requires header.byte1 == 0x82 && header.remainingLen == 2
    ensures DecodeBody(header, [0, 1]) == Err(EmptySubscription)
  {
    assert header.PacketType() == Ok(SubscribeType);
    assert ParseU16([0, 1]) == Ok((1, []));
    assert S.WireFilters([]) == [];
  }
}
