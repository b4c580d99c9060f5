/**
 The wire format in numbers: what every packet prints as, and what every framed sequence of bytes reads as, cell by
 cell.
 */
module Layouts {
  import opened Bytes
  import opened Utf8
  import opened Wire
  import opened Flags
  import opened Acks
  import opened Connects
  import opened Publishes
  import opened Packets
  import S = Subscribes
  import U = Unsubscribes
  import A = SubAcks

  // ---- Printing ----

  lemma LengthStep(digit: byte, high: nat)
    requires digit < 128
    ensures VarInt(digit + 128 * high) == if high == 0 then [digit] else [digit + 128] + VarInt(high)
  {
    var n := digit + 128 * high;
    Quotient(digit, high);
    assert VarInt(n) == if n < 128 then [n] else [n % 128 + 128] + VarInt(n / 128);
    hide VarInt;
  }

  lemma Quotient(digit: byte, high: nat)
    requires digit < 128
    ensures (digit + 128 * high) / 128 == high && (digit + 128 * high) % 128 == digit
  {
  }

  /**
   The base-128 digits of a length, least significant first, with the high bit set on all but the last one printed.
   */
  lemma LengthLayout(d0: byte, d1: byte, d2: byte, d3: byte)
    requires d0 < 128 && d1 < 128 && d2 < 128 && d3 < 128
    ensures VarInt(d0 + 128 * d1 + 16_384 * d2 + 2_097_152 * d3)
         == if d3 > 0 then [d0 + 128, d1 + 128, d2 + 128, d3]
            else if d2 > 0 then [d0 + 128, d1 + 128, d2]
            else if d1 > 0 then [d0 + 128, d1]
            else [d0]
  {
    hide VarInt;
    LengthStep(d3, 0);
    LengthStep(d2, d3);
    LengthStep(d1, d2 + 128 * d3);
    LengthStep(d0, d1 + 128 * (d2 + 128 * d3));
  }

  /** A field is its length, high byte first, and its bytes; the length of a longer field is cut down to 16 bits. */
  lemma FieldLayout(s: bytes)
    ensures EncodeBytes(s) == [|s| / 256 % 256, |s| % 256] + s
    ensures |s| <= 65_535 ==> EncodeBytes(s) == [|s| / 256, |s| % 256] + s
  {
    var n := |s|;
    assert n % 65_536 / 256 == n / 256 % 256 && n % 65_536 % 256 == n % 256;
  }

  lemma EmptyLayouts()
    ensures Encode(PingReqPacket) == [0xC0, 0]
    ensures Encode(PingRespPacket) == [0xD0, 0]
    ensures Encode(DisconnectPacket) == [0xE0, 0]
  {
  }

  /** The packets that carry an id and nothing else. */
  lemma IdLayouts(id: u16)
    ensures Encode(PubAckPacket(id)) == [0x40, 2, id / 256, id % 256]
    ensures Encode(PubRecPacket(id)) == [0x50, 2, id / 256, id % 256]
    ensures Encode(PubRelPacket(id)) == [0x62, 2, id / 256, id % 256]
    ensures Encode(PubCompPacket(id)) == [0x70, 2, id / 256, id % 256]
    ensures Encode(UnsubAckPacket(id)) == [0xB0, 2, id / 256, id % 256]
  {
  }

  lemma ConnAckLayout(present: bool)
    ensures var flags := if present then 1 else 0;
            && Encode(ConnAckPacket(ConnAck(present, Accepted))) == [0x20, 2, flags, 0]
            && Encode(ConnAckPacket(ConnAck(present, RefusedProtocolVersion))) == [0x20, 2, flags, 1]
            && Encode(ConnAckPacket(ConnAck(present, BadClientId))) == [0x20, 2, flags, 2]
            && Encode(ConnAckPacket(ConnAck(present, ServiceUnavailable))) == [0x20, 2, flags, 3]
            && Encode(ConnAckPacket(ConnAck(present, BadUserNamePassword))) == [0x20, 2, flags, 4]
            && Encode(ConnAckPacket(ConnAck(present, NotAuthorized))) == [0x20, 2, flags, 5]
  {
  }

  /** What the printers of fixed shape fill the buffer with is the one encoding all laws speak about. */
  lemma FixedPrintersEncode(a: ConnAck, id: u16)
    ensures Frame(0x20, ConnAckBody(a)) == Encode(ConnAckPacket(a))
    ensures Frame(0x40, BigEndian(id)) == Encode(PubAckPacket(id))
    ensures Frame(0x50, BigEndian(id)) == Encode(PubRecPacket(id))
    ensures Frame(0x62, BigEndian(id)) == Encode(PubRelPacket(id))
    ensures Frame(0x70, BigEndian(id)) == Encode(PubCompPacket(id))
    ensures Frame(0xB0, BigEndian(id)) == Encode(UnsubAckPacket(id))
    ensures Frame(0xC0, []) == Encode(PingReqPacket)
    ensures Frame(0xD0, []) == Encode(PingRespPacket)
    ensures Frame(0xE0, []) == Encode(DisconnectPacket)
  {
    hide BigEndian;
  }

  lemma PublishLayout(p: Publish)
    ensures var flags: nat := (if p.retain then 1 else 0) + (if p.dup then 8 else 0)
                              + (match p.qos case AtMostOnce => 0 case AtLeastOnce => 2 case ExactlyOnce => 4);
            var id := if p.qos == AtMostOnce then [] else [p.pkid / 256, p.pkid % 256];
            var len := 2 + |p.topic| + (if p.qos == AtMostOnce || p.pkid == 0 then 0 else 2) + |p.payload|;
            Encode(PublishPacket(p)) == [0x30 + flags] + VarInt(len) + (EncodeBytes(p.topic) + id + p.payload)
  {
    hide VarInt, EncodeBytes, Utf8.Valid;
  }

  /** A SUBSCRIBE is its id and its filters in order, each a field and the number of its quality of service. */
  lemma SubscribeLayout(s: S.Subscribe)
    ensures Encode(SubscribePacket(s))
         == [0x82] + VarInt(2 + |S.EncodeFilters(S.Filters(s.filters))|)
            + ([s.pkid / 256, s.pkid % 256] + S.EncodeFilters(S.Filters(s.filters)))
  {
    hide VarInt, S.EncodeFilters, S.Filters;
  }

  lemma FiltersLayout(f: S.SubscribeFilter, rest: seq<S.SubscribeFilter>)
    ensures S.EncodeFilters([]) == []
    ensures var qos := match f.qos case AtMostOnce => 0 case AtLeastOnce => 1 case ExactlyOnce => 2;
            S.EncodeFilters([f] + rest) == (EncodeBytes(f.path) + [qos]) + S.EncodeFilters(rest)
  {
    hide EncodeBytes, Utf8.Valid;
    S.EncodeFiltersCons(f, rest);
  }

  lemma UnsubscribeLayout(u: U.Unsubscribe)
    ensures Encode(UnsubscribePacket(u))
         == [0xA2] + VarInt(2 + |U.EncodeTopics(U.Topics(u.topics))|)
            + ([u.pkid / 256, u.pkid % 256] + U.EncodeTopics(U.Topics(u.topics)))
  {
    hide VarInt, U.EncodeTopics, U.Topics;
  }

  lemma TopicsLayout(topic: str, rest: seq<str>)
    ensures U.EncodeTopics([]) == []
    ensures U.EncodeTopics([topic] + rest) == EncodeBytes(topic) + U.EncodeTopics(rest)
  {
    hide EncodeBytes, Utf8.Valid;
    assert ([topic] + rest)[1..] == rest;
  }

  /** A SUBACK is its id and one byte for each code. */
  lemma SubAckLayout(a: A.SubAck)
    requires A.Honest(a.returnCodes)
    ensures var codes := A.Codes(a.returnCodes);
            var printed := A.EncodeCodes(codes);
            && Encode(SubAckPacket(a)) == [0x90] + VarInt(2 + |codes|) + ([a.pkid / 256, a.pkid % 256] + printed)
            && |printed| == |codes|
            && forall i :: 0 <= i < |codes| ==>
                 printed[i] == match codes[i]
                               case Success(AtMostOnce) => 0
                               case Success(AtLeastOnce) => 1
                               case Success(ExactlyOnce) => 2
                               case Failure => 128
  {
    hide VarInt, A.EncodeCodes;
    CodesLayout(A.Codes(a.returnCodes));
    if a.returnCodes.WireBytes? {
      A.WireCodesFaithful(a.returnCodes.wire);
    }
  }

  lemma {:induction false} CodesLayout(codes: seq<A.ReasonCode>)
    ensures forall i :: 0 <= i < |codes| ==> A.EncodeCodes(codes)[i] == A.ReasonByte(codes[i])
  {
    if codes != [] {
      CodesLayout(codes[1..]);
    }
  }

  /** The flags byte of a CONNECT. */
  lemma ConnectFlagsLayout(c: Connect)
    ensures FlagsOf(c)
         == (if c.cleanSession then 2 else 0)
            + (match c.lastWill
               case None => 0
               case Some(w) => 4 + (if w.retain then 32 else 0)
                               + match w.qos case AtMostOnce => 0 case AtLeastOnce => 8 case ExactlyOnce => 16)
            + (match c.login
               case None => 0
               case Some(l) => (if l.username != [] then 128 else 0) + (if l.password != [] then 64 else 0))
  {
    hide Utf8.Valid;
  }

  /** A CONNECT: the name "MQTT", the level, the flags, the keep-alive and the fields in order. */
  lemma ConnectLayout(c: Connect)
    ensures var level := match c.protocol case V4 => 4 case V5 => 5;
            var will := match c.lastWill
                        case None => []
                        case Some(w) => EncodeBytes(w.topic) + EncodeBytes(w.message);
            var login := match c.login
                         case None => []
                         case Some(l) => (if l.username == [] then [] else EncodeBytes(l.username))
                                         + (if l.password == [] then [] else EncodeBytes(l.password));
            var fields := EncodeBytes(c.clientId) + will + login;
            Encode(ConnectPacket(c))
            == [0x10] + VarInt(10 + |fields|)
               + ([0, 4, 0x4D, 0x51, 0x54, 0x54, level, FlagsOf(c), c.keepAlive / 256, c.keepAlive % 256] + fields)
  {
    hide VarInt, FlagsOf, Utf8.Valid;
    FieldLayout(PROTOCOL_NAME);
    hide EncodeBytes;
    var fields := ConnectPayload(c);
    assert ConnectBody(c)
        == [0, 4, 0x4D, 0x51, 0x54, 0x54, LevelOf(c), FlagsOf(c), c.keepAlive / 256, c.keepAlive % 256] + fields;
    hide ConnectBody;
  }

  // ---- Framing ----

  /** The fixed header, for every number of length bytes: up to four, all but the last of them 128 or more. */
  lemma HeaderVerdict(data: bytes)
    ensures ParseFixedHeader(data)
         == if |data| < 2 then Err(NeedMoreData(2 - |data|))
            else if data[1] < 128 then Ok(FixedHeader(data[0], 2, data[1]))
            else if |data| == 2 then Err(NeedMoreData(1))
            else if data[2] < 128 then Ok(FixedHeader(data[0], 3, data[1] as int - 128 + 128 * data[2] as int))
            else if |data| == 3 then Err(NeedMoreData(1))
            else if data[3] < 128 then
              Ok(FixedHeader(data[0], 4, data[1] as int - 128 + 128 * (data[2] as int - 128) + 16_384 * data[3] as int))
            else if |data| == 4 then Err(NeedMoreData(1))
            else if data[4] < 128 then
              Ok(FixedHeader(data[0], 5, data[1] as int - 128 + 128 * (data[2] as int - 128)
                                         + 16_384 * (data[3] as int - 128) + 2_097_152 * data[4] as int))
            else Err(MalformedRemainingLength)
  {
    if |data| >= 2 {
      LengthVerdict(data[1..]);
    }
  }

  lemma LengthVerdict(s: bytes)
    ensures DecodeLength(s, 0)
         == if s == [] then Err(NeedMoreData(1))
            else if s[0] < 128 then Ok((1, s[0]))
            else if |s| == 1 then Err(NeedMoreData(1))
            else if s[1] < 128 then Ok((2, s[0] as int - 128 + 128 * s[1] as int))
            else if |s| == 2 then Err(NeedMoreData(1))
            else if s[2] < 128 then
              Ok((3, s[0] as int - 128 + 128 * (s[1] as int - 128) + 16_384 * s[2] as int))
            else if |s| == 3 then Err(NeedMoreData(1))
            else if s[3] < 128 then
              Ok((4, s[0] as int - 128 + 128 * (s[1] as int - 128) + 16_384 * (s[2] as int - 128)
                  + 2_097_152 * s[3] as int))
            else Err(MalformedRemainingLength)
  {
    hide DecodeLength;
    if s != [] {
      var a := s[1..];
      LengthByte(s, 0);
      MiddleLengthBytes(a);
      assert |a| == |s| - 1 && (forall i :: 0 <= i < |a| ==> a[i] == s[i + 1]);
    } else {
      LengthByte([0], 0);
    }
  }

  lemma MiddleLengthBytes(s: bytes)
    ensures DecodeLength(s, 1)
         == if s == [] then Err(NeedMoreData(1))
            else if s[0] < 128 then Ok((1, s[0]))
            else if |s| == 1 then Err(NeedMoreData(1))
            else if s[1] < 128 then Ok((2, s[0] as int - 128 + 128 * s[1] as int))
            else if |s| == 2 then Err(NeedMoreData(1))
            else if s[2] < 128 then
              Ok((3, s[0] as int - 128 + 128 * (s[1] as int - 128) + 16_384 * s[2] as int))
            else Err(MalformedRemainingLength)
  {
    hide DecodeLength;
    if s != [] {
      var a := s[1..];
      LengthByte(s, 1);
      LastLengthBytes(a);
      assert |a| == |s| - 1 && (forall i :: 0 <= i < |a| ==> a[i] == s[i + 1]);
    } else {
      LengthByte([0], 1);
    }
  }

  lemma LastLengthBytes(s: bytes)
    ensures DecodeLength(s, 2)
         == if s == [] then Err(NeedMoreData(1))
            else if s[0] < 128 then Ok((1, s[0]))
            else if |s| == 1 then Err(NeedMoreData(1))
            else if s[1] < 128 then Ok((2, s[0] as int - 128 + 128 * s[1] as int))
            else Err(MalformedRemainingLength)
  {
  }

  lemma LengthByte(s: bytes, done: nat)
    requires done <= 3 && s != []
    ensures DecodeLength([], done) == Err(NeedMoreData(1))
    ensures s[0] < 128 ==> DecodeLength(s, done) == Ok((1, s[0]))
    ensures s[0] >= 128 && done == 3 ==> DecodeLength(s, done) == Err(MalformedRemainingLength)
    ensures s[0] >= 128 && done < 3 ==>
              DecodeLength(s, done) == match DecodeLength(s[1..], done + 1)
                                       case Ok((count, high)) => Ok((count + 1, s[0] - 128 + 128 * high))
                                       case Err(e) => Err(e)
  {
  }

  /** A packet is cut out of the stream once its length has been read, is within the limit, and is all there. */
  lemma FramingVerdict(data: bytes, max: nat)
    ensures Check(data, max)
         == match ParseFixedHeader(data)
            case Err(e) => Err(e)
            case Ok(h) =>
              var size := h.fixedHeaderLen + h.remainingLen;
              if h.remainingLen > max then Err(PayloadSizeLimitExceeded(h.remainingLen))
              else if |data| < size then Err(NeedMoreData(size - |data|))
              else Ok(h)
  {
    hide ParseFixedHeader;
  }

  /** Once the header has been read in full, exactly `missing` further bytes end the request for data. */
  lemma MissingIsExact(data: bytes, more: bytes, max: nat)
    requires ParseFixedHeader(data).Ok? && Check(data, max).Err? && Check(data, max).error.NeedMoreData?
    ensures var h, missing := ParseFixedHeader(data).value, Check(data, max).error.missing;
            && missing == h.fixedHeaderLen + h.remainingLen - |data|
            && Check(data + more, max) == if |more| < missing then Err(NeedMoreData(missing - |more|)) else Ok(h)
  {
    assert (data + more)[1..] == data[1..] + more;
    DecodeLengthStable(data[1..], more, 0);
    hide DecodeLength;
  }

  // ---- Reading ----

  /** The bytes behind the fixed header of the first packet. */
  function BodyOf(data: bytes, max: nat): bytes
    requires Check(data, max).Ok?
  {
    var h := Check(data, max).value;
    data[h.fixedHeaderLen..h.fixedHeaderLen + h.remainingLen]
  }

  /** What the first packet reads as, with the bytes it takes. */
  function Taking(r: Result<Packet, Error>, n: nat): Result<(Packet, nat), Error> {
    match r case Ok(p) => Ok((p, n)) case Err(e) => Err(e)
  }

  lemma DecodesBody(data: bytes, max: nat)
    requires Check(data, max).Ok?
    ensures var h, body := Check(data, max).value, BodyOf(data, max);
            && h.byte1 == data[0] && h.remainingLen == |body|
            && Decode(data, max) == Taking(DecodeBody(h, body), h.fixedHeaderLen + |body|)
  {
    hide DecodeBody, DecodeLength;
    var h := Check(data, max).value;
    assert data[..h.FrameLength()][h.fixedHeaderLen..] == BodyOf(data, max);
  }

  /** The number of each packet type. */
  lemma KindVerdict(data: bytes, max: nat)
    requires Decode(data, max).Ok?
    ensures data[0] / 16
         == match Decode(data, max).value.0
            case ConnectPacket(_) => 1
            case ConnAckPacket(_) => 2
            case PublishPacket(_) => 3
            case PubAckPacket(_) => 4
            case PubRecPacket(_) => 5
            case PubRelPacket(_) => 6
            case PubCompPacket(_) => 7
            case SubscribePacket(_) => 8
            case SubAckPacket(_) => 9
            case UnsubscribePacket(_) => 10
            case UnsubAckPacket(_) => 11
            case PingReqPacket => 12
            case PingRespPacket => 13
            case DisconnectPacket => 14
  {
    DecodesBody(data, max);
    hide Check, Decode, BodyOf, DecodeConnect, DecodeConnAck, DecodePublish, DecodeId, DecodeUnsubAck,
      S.DecodeSubscribe, A.DecodeSubAck, U.DecodeUnsubscribe;
  }

  /** Packet types 0 and 15 do not exist, and only pings and DISCONNECT have no body. */
  lemma TypeVerdict(data: bytes, max: nat)
    requires Check(data, max).Ok?
    ensures var kind, body := data[0] / 16, BodyOf(data, max);
            var n := Check(data, max).value.fixedHeaderLen + |body|;
            && (kind == 0 || kind == 15 ==> Decode(data, max) == Err(InvalidPacketType(kind)))
            && (1 <= kind <= 11 && body == [] ==> Decode(data, max) == Err(MalformedPacket))
            && (kind == 12 ==> Decode(data, max) == Ok((PingReqPacket, n)))
            && (kind == 13 ==> Decode(data, max) == Ok((PingRespPacket, n)))
            && (kind == 14 ==> Decode(data, max) == Ok((DisconnectPacket, n)))
  {
    DecodesBody(data, max);
    hide Check, Decode, BodyOf, DecodeConnect, DecodeConnAck, DecodePublish, DecodeId, DecodeUnsubAck,
      S.DecodeSubscribe, A.DecodeSubAck, U.DecodeUnsubscribe;
  }

  /** The word in two bytes, high byte first. */
  function Word(s: bytes): u16
    requires |s| >= 2
  {
    256 * s[0] as int + s[1]
  }

  /** CONNACK: the lowest bit of the first byte and one of six codes in the second. */
  lemma ConnAckVerdict(data: bytes, max: nat)
    requires Check(data, max).Ok? && data[0] / 16 == 2
    ensures var body := BodyOf(data, max);
            var n := Check(data, max).value.fixedHeaderLen + |body|;
            if |body| < 2 then Decode(data, max) == Err(MalformedPacket)
            else if body[1] > 5 then Decode(data, max) == Err(InvalidConnectReturnCode(body[1]))
            else
              && Decode(data, max).Ok? && Decode(data, max).value.0.ConnAckPacket? && Decode(data, max).value.1 == n
              && var a := Decode(data, max).value.0.connAck;
                 && (a.sessionPresent <==> body[0] % 2 == 1)
                 && (a.code == Accepted <==> body[1] == 0)
                 && (a.code == RefusedProtocolVersion <==> body[1] == 1)
                 && (a.code == BadClientId <==> body[1] == 2)
                 && (a.code == ServiceUnavailable <==> body[1] == 3)
                 && (a.code == BadUserNamePassword <==> body[1] == 4)
                 && (a.code == NotAuthorized <==> body[1] == 5)
  {
    DecodesBody(data, max);
    hide Check, Decode, BodyOf;
  }

  /** PUBACK, PUBREC, PUBREL and PUBCOMP take the first two bytes of the body; UNSUBACK takes nothing but two bytes. */
  lemma IdVerdict(data: bytes, max: nat)
    requires Check(data, max).Ok?
    ensures var kind, body := data[0] / 16, BodyOf(data, max);
            var n := Check(data, max).value.fixedHeaderLen + |body|;
            && (4 <= kind <= 7 && |body| < 2 ==> Decode(data, max) == Err(MalformedPacket))
            && (kind == 4 && |body| >= 2 ==> Decode(data, max) == Ok((PubAckPacket(Word(body)), n)))
            && (kind == 5 && |body| >= 2 ==> Decode(data, max) == Ok((PubRecPacket(Word(body)), n)))
            && (kind == 6 && |body| >= 2 ==> Decode(data, max) == Ok((PubRelPacket(Word(body)), n)))
            && (kind == 7 && |body| >= 2 ==> Decode(data, max) == Ok((PubCompPacket(Word(body)), n)))
            && (kind == 11 ==> Decode(data, max)
                               == if |body| == 2 then Ok((UnsubAckPacket(Word(body)), n)) else Err(MalformedPacket))
  {
    DecodesBody(data, max);
    hide Check, Decode, BodyOf, DecodeConnect, DecodeConnAck, DecodePublish, S.DecodeSubscribe, A.DecodeSubAck,
      U.DecodeUnsubscribe;
  }

  /** A field is two bytes of length, that many bytes, and for a string those must be UTF-8. */
  lemma FieldVerdict(s: bytes)
    ensures ParseBytes(s)
         == if |s| < 2 || |s| < 2 + Word(s) then Err(MalformedPacket)
            else Ok((s[2..2 + Word(s)], s[2 + Word(s)..]))
    ensures ParseString(s)
         == if |s| < 2 || |s| < 2 + Word(s) then Err(MalformedPacket)
            else if Valid(s[2..2 + Word(s)]) then Ok((s[2..2 + Word(s)], s[2 + Word(s)..]))
            else Err(BadUtf8)
  {
    hide Utf8.Valid;
  }

  /** PUBLISH: quality of service, topic and packet id are checked in this order; the payload is what is left. */
  lemma PublishVerdict(data: bytes, max: nat)
    requires Check(data, max).Ok? && data[0] / 16 == 3 && BodyOf(data, max) != []
    ensures var body, qos := BodyOf(data, max), data[0] / 2 % 4;
            var n := Check(data, max).value.fixedHeaderLen + |body|;
            if qos == 3 then Decode(data, max) == Err(InvalidQoS(3))
            else if |body| < 2 || |body| < 2 + Word(body) then Decode(data, max) == Err(MalformedPacket)
            else
              var topic, rest := body[2..2 + Word(body)], body[2 + Word(body)..];
              if !Valid(topic) then Decode(data, max) == Err(BadUtf8)
              else if qos > 0 && |rest| < 2 then Decode(data, max) == Err(MalformedPacket)
              else if qos > 0 && rest[0] == 0 && rest[1] == 0 then Decode(data, max) == Err(PacketIdZero)
              else
                && Decode(data, max).Ok? && Decode(data, max).value.0.PublishPacket? && Decode(data, max).value.1 == n
                && var p := Decode(data, max).value.0.publish;
                   && (p.dup <==> data[0] / 8 % 2 == 1) && (p.retain <==> data[0] % 2 == 1)
                   && p.qos == (if qos == 0 then AtMostOnce else if qos == 1 then AtLeastOnce else ExactlyOnce)
                   && p.topic == topic
                   && p.pkid == (if qos == 0 then 0 else Word(rest))
                   && p.payload == (if qos == 0 then rest else rest[2..])
  {
    DecodesBody(data, max);
    FieldVerdict(BodyOf(data, max));
    hide Check, Decode, BodyOf, ParseString, Utf8.Valid;
  }

  /** The numbers of the reason codes. */
  lemma CodeVerdict(b: byte)
    ensures A.ReasonOf(b)
         == if b == 0 then Ok(A.Success(AtMostOnce))
            else if b == 1 then Ok(A.Success(AtLeastOnce))
            else if b == 2 then Ok(A.Success(ExactlyOnce))
            else if b == 128 then Ok(A.Failure)
            else Err(InvalidSubscribeReasonCode(b))
  {
  }

  predicate AllCodes(s: bytes) {
    forall i :: 0 <= i < |s| ==> A.ReasonOf(s[i]).Ok?
  }

  lemma {:induction false} CodesRead(s: bytes)
    requires AllCodes(s)
    ensures A.CheckCodes(s).Ok? && |A.WireCodes(s)| == |s|
    ensures forall i :: 0 <= i < |s| ==> A.ReasonOf(s[i]) == Ok(A.WireCodes(s)[i])
  {
    hide A.ReasonOf;
    if s != [] {
      assert forall i :: 0 <= i < |s| - 1 ==> s[1..][i] == s[i + 1];
      CodesRead(s[1..]);
    }
  }

  lemma {:induction false} FirstBadCode(s: bytes, j: nat)
    requires j < |s| && AllCodes(s[..j]) && A.ReasonOf(s[j]).Err?
    ensures A.CheckCodes(s) == Err(A.ReasonOf(s[j]).error)
  {
    hide A.ReasonOf;
    if j > 0 {
      assert s[..j][0] == s[0] && s[..j][1..] == s[1..][..j - 1];
      assert A.ReasonOf(s[..j][0]).Ok?;
      FirstBadCode(s[1..], j - 1);
    }
  }

  /** SUBACK: a packet id and at least one code; the first byte that is no code is the error. */
  lemma SubAckVerdict(data: bytes, max: nat)
    requires Check(data, max).Ok? && data[0] / 16 == 9
    ensures var body := BodyOf(data, max);
            var n := Check(data, max).value.fixedHeaderLen + |body|;
            if |body| < 3 then Decode(data, max) == Err(MalformedPacket)
            else
              && (AllCodes(body[2..]) ==>
                    && Decode(data, max).Ok? && Decode(data, max).value.0.SubAckPacket?
                    && Decode(data, max).value.1 == n
                    && var a := Decode(data, max).value.0.subAck;
                       && a.pkid == Word(body) && |A.Codes(a.returnCodes)| == |body| - 2
                       && forall i :: 0 <= i < |body| - 2 ==> A.ReasonOf(body[2 + i]) == Ok(A.Codes(a.returnCodes)[i]))
              && (forall j :: 2 <= j < |body| && AllCodes(body[2..j]) && A.ReasonOf(body[j]).Err? ==>
                    Decode(data, max) == Err(A.ReasonOf(body[j]).error))
  {
    DecodesBody(data, max);
    var body := BodyOf(data, max);
    SubAckBodyVerdict(body);
    hide Check, Decode, BodyOf, AllCodes, A.ReasonOf, A.DecodeSubAck, A.Codes;
  }

  lemma SubAckBodyVerdict(body: bytes)
    ensures |body| < 3 ==> A.DecodeSubAck(body) == Err(MalformedPacket)
    ensures |body| >= 3 && AllCodes(body[2..]) ==>
              && A.DecodeSubAck(body).Ok?
              && var a := A.DecodeSubAck(body).value;
                 && a.pkid == Word(body) && |A.Codes(a.returnCodes)| == |body| - 2
                 && forall i :: 0 <= i < |body| - 2 ==> A.ReasonOf(body[2 + i]) == Ok(A.Codes(a.returnCodes)[i])
    ensures |body| >= 3 ==>
              forall j :: 2 <= j < |body| && AllCodes(body[2..j]) && A.ReasonOf(body[j]).Err? ==>
                A.DecodeSubAck(body) == Err(A.ReasonOf(body[j]).error)
  {
    hide AllCodes, A.ReasonOf;
    if |body| >= 3 {
      var s := body[2..];
      if AllCodes(s) {
        CodesRead(s);
        assert forall i :: 0 <= i < |body| - 2 ==> s[i] == body[2 + i];
      }
      forall j | 2 <= j < |body| && AllCodes(body[2..j]) && A.ReasonOf(body[j]).Err?
        ensures A.CheckCodes(s) == Err(A.ReasonOf(body[j]).error)
      {
        assert body[2..j] == s[..j - 2] && s[j - 2] == body[j];
        FirstBadCode(s, j - 2);
      }
    }
  }

  /** One filter of a SUBSCRIBE: a string and the number of a quality of service. */
  lemma FilterVerdict(s: bytes)
    ensures S.NextFilter(s)
         == if |s| < 2 || |s| < 3 + Word(s) || !Valid(s[2..2 + Word(s)]) then None
            else match s[2 + Word(s)]
              case 0 => Some((S.SubscribeFilter(s[2..2 + Word(s)], AtMostOnce), s[3 + Word(s)..]))
              case 1 => Some((S.SubscribeFilter(s[2..2 + Word(s)], AtLeastOnce), s[3 + Word(s)..]))
              case 2 => Some((S.SubscribeFilter(s[2..2 + Word(s)], ExactlyOnce), s[3 + Word(s)..]))
              case _ => None
  {
    hide Utf8.Valid;
    if |s| >= 2 && |s| >= 3 + Word(s) {
      assert s[2..][..Word(s)] == s[2..2 + Word(s)];
    }
  }

  /** Iterating takes filters off the front and stops at the first bytes that form none. */
  lemma {:induction false} FiltersRead(fs: seq<S.SubscribeFilter>, rest: bytes)
    requires S.ShortPaths(fs) && S.NextFilter(rest).None?
    ensures S.WireFilters(S.EncodeFilters(fs) + rest) == fs && S.Leftover(S.EncodeFilters(fs) + rest) == rest
    decreases |fs|
  {
    hide S.EncodeFilter, S.NextFilter, Utf8.Valid;
    if fs == [] {
      assert S.EncodeFilters(fs) + rest == rest;
    } else {
      var tail := S.EncodeFilters(fs[1..]) + rest;
      assert S.EncodeFilters(fs) + rest == S.EncodeFilter(fs[0]) + tail;
      S.NextFilterOfEncoding(fs[0], tail);
      FiltersRead(fs[1..], rest);
    }
  }

  /** SUBSCRIBE: a packet id, at least one filter, and nothing behind the filters. */
  lemma SubscribeVerdict(data: bytes, max: nat, fs: seq<S.SubscribeFilter>, rest: bytes)
    requires Check(data, max).Ok? && data[0] / 16 == 8
    requires |BodyOf(data, max)| >= 2 ==>
               BodyOf(data, max)[2..] == S.EncodeFilters(fs) + rest && S.ShortPaths(fs) && S.NextFilter(rest).None?
    ensures var body := BodyOf(data, max);
            var n := Check(data, max).value.fixedHeaderLen + |body|;
            if |body| < 2 then Decode(data, max) == Err(MalformedPacket)
            else if fs == [] then Decode(data, max) == Err(EmptySubscription)
            else if rest != [] then Decode(data, max) == Err(MalformedPacket)
            else
              && Decode(data, max).Ok? && Decode(data, max).value.0.SubscribePacket? && Decode(data, max).value.1 == n
              && var s := Decode(data, max).value.0.subscribe;
                 s.pkid == Word(body) && S.Filters(s.filters) == fs
  {
    DecodesBody(data, max);
    hide Check, Decode, BodyOf, S.NextFilter, S.EncodeFilters, Utf8.Valid;
    if |BodyOf(data, max)| >= 2 {
      FiltersRead(fs, rest);
    }
  }

  lemma {:induction false} TopicsRead(topics: seq<str>, rest: bytes)
    requires U.ShortTopics(topics) && (rest != [] ==> ParseString(rest).Err?)
    ensures U.CheckTopics(U.EncodeTopics(topics) + rest)
         == if rest == [] then Ok(()) else Err(ParseString(rest).error)
    ensures U.WireTopics(U.EncodeTopics(topics) + rest) == topics
    decreases |topics|
  {
    hide EncodeBytes, ParseString, Utf8.Valid;
    if topics == [] {
      assert U.EncodeTopics(topics) + rest == rest;
      U.ParseEmpty();
    } else {
      var tail := U.EncodeTopics(topics[1..]) + rest;
      assert U.EncodeTopics(topics) + rest == EncodeBytes(topics[0]) + tail;
      StringRoundTrip(topics[0], tail);
      TopicsRead(topics[1..], rest);
    }
  }

  /** UNSUBSCRIBE: a packet id and any number of strings; the first one that does not read is the error. */
  lemma UnsubscribeVerdict(data: bytes, max: nat, topics: seq<str>, rest: bytes)
    requires Check(data, max).Ok? && data[0] / 16 == 10
    requires |BodyOf(data, max)| >= 2 ==>
               && BodyOf(data, max)[2..] == U.EncodeTopics(topics) + rest && U.ShortTopics(topics)
               && (rest != [] ==> ParseString(rest).Err?)
    ensures var body := BodyOf(data, max);
            var n := Check(data, max).value.fixedHeaderLen + |body|;
            if |body| < 2 then Decode(data, max) == Err(MalformedPacket)
            else if rest != [] then Decode(data, max) == Err(ParseString(rest).error)
            else
              && Decode(data, max).Ok? && Decode(data, max).value.0.UnsubscribePacket? && Decode(data, max).value.1 == n
              && var u := Decode(data, max).value.0.unsubscribe;
                 u.pkid == Word(body) && U.Topics(u.topics) == topics
  {
    DecodesBody(data, max);
    hide Check, Decode, BodyOf, ParseString, U.EncodeTopics, Utf8.Valid;
    if |BodyOf(data, max)| >= 2 {
      TopicsRead(topics, rest);
    }
  }

  lemma WillVerdict(flags: byte, s: bytes)
    ensures ParseWill(ReadConnectFlags(flags), s)
         == if flags / 4 % 2 == 0 then
              (if flags / 8 % 8 != 0 then Err(MalformedPacket) else Ok((None, s)))
            else match ParseString(s)
              case Err(e) => Err(e)
              case Ok((topic, rest)) =>
                match ParseBytes(rest)
                case Err(e) => Err(e)
                case Ok((message, tail)) =>
                  var retain := flags / 32 % 2 == 1;
                  match flags / 8 % 4
                  case 0 => Ok((Some(LastWill(topic, message, AtMostOnce, retain)), tail))
                  case 1 => Ok((Some(LastWill(topic, message, AtLeastOnce, retain)), tail))
                  case 2 => Ok((Some(LastWill(topic, message, ExactlyOnce, retain)), tail))
                  case _ => Err(InvalidQoS(3))
  {
    hide ParseString, ParseBytes, Utf8.Valid;
  }

  lemma LoginVerdict(flags: byte, s: bytes)
    ensures ParseLogin(ReadConnectFlags(flags), s)
         == match (if flags / 128 % 2 == 1 then ParseString(s) else Ok(([], s)))
            case Err(e) => Err(e)
            case Ok((username, rest)) =>
              match (if flags / 64 % 2 == 1 then ParseBytes(rest) else Ok(([], rest)))
              case Err(e) => Err(e)
              case Ok((password, tail)) =>
                Ok((if username == [] && password == [] then None else Some(Login(username, password)), tail))
  {
    var f := ReadConnectFlags(flags);
    assert f.username == (flags / 128 % 2 == 1) && f.password == (flags / 64 % 2 == 1) && Valid([]);
    hide ReadConnectFlags, ParseString, ParseBytes, Utf8.Valid;
  }

  /**
   CONNECT: the name "MQTT", level 4, the flags, the keep-alive, the client id, the will and the login, with the first
   thing that is wrong as the error.
   */
  lemma ConnectBodyVerdict(data: bytes, max: nat)
    requires Check(data, max).Ok? && data[0] / 16 == 1
    ensures var body := BodyOf(data, max);
            var n := Check(data, max).value.fixedHeaderLen + |body|;
            match ParseString(body)
            case Err(e) => Decode(data, max) == Err(e)
            case Ok((name, s)) =>
              if s == [] then Decode(data, max) == Err(MalformedPacket)
              else if name != [0x4D, 0x51, 0x54, 0x54] then Decode(data, max) == Err(InvalidProtocol)
              else if s[0] != 4 then Decode(data, max) == Err(InvalidProtocolLevel(s[0]))
              else if |s| < 4 then Decode(data, max) == Err(MalformedPacket)
              else match ParseString(s[4..])
                case Err(e) => Decode(data, max) == Err(e)
                case Ok((id, afterId)) =>
                  match ParseWill(ReadConnectFlags(s[1]), afterId)
                  case Err(e) => Decode(data, max) == Err(e)
                  case Ok((will, afterWill)) =>
                    match ParseLogin(ReadConnectFlags(s[1]), afterWill)
                    case Err(e) => Decode(data, max) == Err(e)
                    case Ok((login, _)) =>
                      Decode(data, max)
                      == Ok((ConnectPacket(Connect(V4, Word(s[2..]), id, s[1] / 2 % 2 == 1, will, login)), n))
  {
    DecodesBody(data, max);
    hide Check, Decode, BodyOf, ParseString, ParseWill, ParseLogin, Utf8.Valid;
    var body := BodyOf(data, max);
    if body == [] {
      U.ParseEmpty();
    } else if ParseString(body).Ok? {
      FieldsVerdict(ParseString(body).value.1);
    }
  }

  lemma FieldsVerdict(s: bytes)
    ensures s != [] && |s| < 4 ==> ParseConnectFields(s[1..]) == Err(MalformedPacket)
    ensures |s| >= 4 ==>
              ParseConnectFields(s[1..])
              == match ParseString(s[4..])
                 case Err(e) => Err(e)
                 case Ok((id, afterId)) =>
                   match ParseWill(ReadConnectFlags(s[1]), afterId)
                   case Err(e) => Err(e)
                   case Ok((will, afterWill)) =>
                     match ParseLogin(ReadConnectFlags(s[1]), afterWill)
                     case Err(e) => Err(e)
                     case Ok((login, _)) =>
                       Ok(Connect(V4, Word(s[2..]), id, s[1] / 2 % 2 == 1, will, login))
  {
    hide ParseString, ParseWill, ParseLogin, Utf8.Valid;
    if |s| >= 4 {
      assert s[1..][1..] == s[2..] && s[2..][2..] == s[4..];
    }
  }

  /** A frame with one length byte, in front of any stream. */
  lemma ShortFrame(byte1: byte, body: bytes, rest: bytes, max: nat)
    requires |body| < 128 && |body| <= max
    ensures var data := [byte1, |body|] + body + rest;
            && Check(data, max) == Ok(FixedHeader(byte1, 2, |body|)) && BodyOf(data, max) == body && data[0] == byte1
  {
    var data := [byte1, |body|] + body + rest;
    HeaderVerdict(data);
    hide ParseFixedHeader;
    assert data[2..2 + |body|] == body;
  }

  /**
   The four-byte packets, whatever follows them: `[0x20, 2, x, y]` is a CONNACK, and the acknowledgements carry the id
   in their last two bytes. The flag bits of the first byte are not looked at.
   */
  lemma FourBytesRead(byte1: byte, x: byte, y: byte, rest: bytes, max: nat)
    requires max >= 2
    ensures var data, kind := [byte1, 2, x, y] + rest, byte1 / 16;
            var r, id := Decode(data, max), 256 * x as int + y;
            && (kind == 2 && y == 0 ==> r == Ok((ConnAckPacket(ConnAck(x % 2 == 1, Accepted)), 4)))
            && (kind == 2 && y == 1 ==> r == Ok((ConnAckPacket(ConnAck(x % 2 == 1, RefusedProtocolVersion)), 4)))
            && (kind == 2 && y == 2 ==> r == Ok((ConnAckPacket(ConnAck(x % 2 == 1, BadClientId)), 4)))
            && (kind == 2 && y == 3 ==> r == Ok((ConnAckPacket(ConnAck(x % 2 == 1, ServiceUnavailable)), 4)))
            && (kind == 2 && y == 4 ==> r == Ok((ConnAckPacket(ConnAck(x % 2 == 1, BadUserNamePassword)), 4)))
            && (kind == 2 && y == 5 ==> r == Ok((ConnAckPacket(ConnAck(x % 2 == 1, NotAuthorized)), 4)))
            && (kind == 2 && y > 5 ==> r == Err(InvalidConnectReturnCode(y)))
            && (kind == 4 ==> r == Ok((PubAckPacket(id), 4)))
            && (kind == 5 ==> r == Ok((PubRecPacket(id), 4)))
            && (kind == 6 ==> r == Ok((PubRelPacket(id), 4)))
            && (kind == 7 ==> r == Ok((PubCompPacket(id), 4)))
            && (kind == 11 ==> r == Ok((UnsubAckPacket(id), 4)))
  {
    ShortFrame(byte1, [x, y], rest, max);
    assert [byte1, 2] + [x, y] + rest == [byte1, 2, x, y] + rest;
    var data := [byte1, 2, x, y] + rest;
    IdVerdict(data, max);
    if byte1 / 16 == 2 {
      ConnAckVerdict(data, max);
    }
    hide Decode, Check, BodyOf;
  }

  /** The two-byte packets, whatever follows them. */
  lemma TwoBytesRead(byte1: byte, rest: bytes, max: nat)
    ensures var r, kind := Decode([byte1, 0] + rest, max), byte1 / 16;
            r == if kind == 12 then Ok((PingReqPacket, 2))
                 else if kind == 13 then Ok((PingRespPacket, 2))
                 else if kind == 14 then Ok((DisconnectPacket, 2))
                 else if kind == 0 || kind == 15 then Err(InvalidPacketType(kind))
                 else Err(MalformedPacket)
  {
    ShortFrame(byte1, [], rest, max);
    assert [byte1, 0] + [] + rest == [byte1, 0] + rest;
    TypeVerdict([byte1, 0] + rest, max);
    hide Decode, Check, BodyOf;
  }

  /** Any bytes at all are topics, up to the first one that does not read. */
  lemma {:induction false} TopicsSplit(s: bytes) returns (rest: bytes)
    ensures s == U.EncodeTopics(U.WireTopics(s)) + rest && U.ShortTopics(U.WireTopics(s))
    ensures rest != [] ==> ParseString(rest).Err?
    decreases |s|
  {
    hide EncodeBytes, ParseString, Utf8.Valid;
    match ParseString(s)
    case Err(_) => rest := s;
    case Ok((topic, tail)) =>
      rest := TopicsSplit(tail);
      assert s == EncodeBytes(topic) + (U.EncodeTopics(U.WireTopics(tail)) + rest);
  }
}
