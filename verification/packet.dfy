/** All packet types together: dispatch, framing, and the laws that tie printing to reading. */
module Packets {
  import opened Bytes
  import opened Wire
  import opened Flags
  import opened Acks
  import opened Connects
  import opened Publishes
  import S = Subscribes
  import U = Unsubscribes
  import A = SubAcks

  datatype Packet =
    | ConnectPacket(connect: Connect)
    | ConnAckPacket(connAck: ConnAck)
    | PublishPacket(publish: Publish)
    | PubAckPacket(pkid: u16)
    | PubRecPacket(pkid: u16)
    | PubRelPacket(pkid: u16)
    | PubCompPacket(pkid: u16)
    | SubscribePacket(subscribe: S.Subscribe)
    | SubAckPacket(subAck: A.SubAck)
    | UnsubscribePacket(unsubscribe: U.Unsubscribe)
    | UnsubAckPacket(pkid: u16)
    | PingReqPacket
    | PingRespPacket
    | DisconnectPacket
  {
    function Type(): PacketType {
      match this
      case ConnectPacket(_) => ConnectType
      case ConnAckPacket(_) => ConnAckType
      case PublishPacket(_) => PublishType
      case PubAckPacket(_) => PubAckType
      case PubRecPacket(_) => PubRecType
      case PubRelPacket(_) => PubRelType
      case PubCompPacket(_) => PubCompType
      case SubscribePacket(_) => SubscribeType
      case SubAckPacket(_) => SubAckType
      case UnsubscribePacket(_) => UnsubscribeType
      case UnsubAckPacket(_) => UnsubAckType
      case PingReqPacket => PingReqType
      case PingRespPacket => PingRespType
      case DisconnectPacket => DisconnectType
    }
  }

  // ---- Printing ----

  function Byte1(p: Packet): byte {
    match p
    case ConnectPacket(_) => 0x10
    case ConnAckPacket(_) => 0x20
    case PublishPacket(x) => PublishByte1(x.dup, x.qos, x.retain)
    case PubAckPacket(_) => 0x40
    case PubRecPacket(_) => 0x50
    case PubRelPacket(_) => 0x62
    case PubCompPacket(_) => 0x70
    case SubscribePacket(_) => 0x82
    case SubAckPacket(_) => 0x90
    case UnsubscribePacket(_) => 0xA2
    case UnsubAckPacket(_) => 0xB0
    case PingReqPacket => 0xC0
    case PingRespPacket => 0xD0
    case DisconnectPacket => 0xE0
  }

  function DeclaredLen(p: Packet): nat {
    match p
    case ConnectPacket(x) => ConnectLen(x)
    case PublishPacket(x) => PublishLen(x)
    case SubscribePacket(x) => S.SubscribeLen(x)
    case SubAckPacket(x) => A.SubAckLen(x)
    case UnsubscribePacket(x) => U.UnsubscribeLen(x)
    case PingReqPacket => 0
    case PingRespPacket => 0
    case DisconnectPacket => 0
    case _ => 2
  }

  function Body(p: Packet): bytes {
    match p
    case ConnectPacket(x) => ConnectBody(x)
    case ConnAckPacket(x) => ConnAckBody(x)
    case PublishPacket(x) => PublishBody(x)
    case PubAckPacket(id) => BigEndian(id)
    case PubRecPacket(id) => BigEndian(id)
    case PubRelPacket(id) => BigEndian(id)
    case PubCompPacket(id) => BigEndian(id)
    case SubscribePacket(x) => S.SubscribeBody(x)
    case SubAckPacket(x) => A.SubAckBody(x)
    case UnsubscribePacket(x) => U.UnsubscribeBody(x)
    case UnsubAckPacket(id) => BigEndian(id)
    case PingReqPacket => []
    case PingRespPacket => []
    case DisconnectPacket => []
  }

  /** What the packet's printer puts into a buffer that is large enough. */
  function Encode(p: Packet): bytes {
    [Byte1(p)] + VarInt(DeclaredLen(p)) + Body(p)
  }

  /** Some buffer exists into which the packet's printer succeeds. */
  predicate Prints(p: Packet) {
    DeclaredLen(p) <= MAX_REMAINING && !(p.PublishPacket? && p.publish.qos != AtMostOnce && p.publish.pkid == 0)
  }

  /** The encodings that the printers of the packet types promise are these. */
  lemma PrintersEncode(p: Packet)
    ensures match p
            case ConnectPacket(x) => Encode(p) == EncodeConnect(x)
            case PublishPacket(x) => Encode(p) == EncodePublish(x)
            case SubscribePacket(x) => Encode(p) == S.EncodeSubscribe(x)
            case SubAckPacket(x) => Encode(p) == A.EncodeSubAck(x)
            case UnsubscribePacket(x) => Encode(p) == U.EncodeUnsubscribe(x)
            case _ => Encode(p) == Frame(Byte1(p), Body(p))
  {
    hide VarInt, BigEndian, PublishByte1, ConnectBody, PublishBody, S.SubscribeBody, A.SubAckBody, U.UnsubscribeBody,
      ConnectLen, PublishLen, S.SubscribeLen, A.SubAckLen, U.UnsubscribeLen;
    assert p.PubAckPacket? || p.PubRecPacket? || p.PubRelPacket? || p.PubCompPacket? || p.UnsubAckPacket? ==>
      |Body(p)| == 2;
  }

  /**
   The declared length counts the printed bytes, up to two kinds of hand-built packet: a SUBACK over bytes that are not
   reason codes, and a publish without the packet id it needs, which its printer refuses.
   */
  lemma LengthHonestIff(p: Packet)
    ensures DeclaredLen(p) == |Body(p)| <==>
            !(p.SubAckPacket? && !A.Honest(p.subAck.returnCodes))
            && !(p.PublishPacket? && p.publish.qos != AtMostOnce && p.publish.pkid == 0)
  {
    hide EncodeBytes, BigEndian;
    match p {
      case SubAckPacket(x) =>
        if x.returnCodes.WireBytes? {
          A.WireCodesFaithful(x.returnCodes.wire);
        }
      case _ =>
    }
  }

  // ---- Reading ----

  function DecodeEmpty(kind: PacketType): (r: Result<Packet, Error>)
    ensures r.Err? ==> r.error == MalformedPacket
  {
    match kind
    case PingReqType => Ok(PingReqPacket)
    case PingRespType => Ok(PingRespPacket)
    case DisconnectType => Ok(DisconnectPacket)
    case _ => Err(MalformedPacket)
  }

  function DecodeFields(kind: PacketType, header: FixedHeader, body: bytes): (r: Result<Packet, Error>)
    ensures r.Err? ==> !r.error.NeedMoreData?
  {
    match kind
    case ConnectType => var x :- DecodeConnect(body); Ok(ConnectPacket(x))
    case ConnAckType => var x :- DecodeConnAck(body); Ok(ConnAckPacket(x))
    case PublishType => var x :- DecodePublish(header.byte1, body); Ok(PublishPacket(x))
    case PubAckType => var id :- DecodeId(body); Ok(PubAckPacket(id))
    case PubRecType => var id :- DecodeId(body); Ok(PubRecPacket(id))
    case PubRelType => var id :- DecodeId(body); Ok(PubRelPacket(id))
    case PubCompType => var id :- DecodeId(body); Ok(PubCompPacket(id))
    case SubscribeType => var x :- S.DecodeSubscribe(body); Ok(SubscribePacket(x))
    case SubAckType => var x :- A.DecodeSubAck(body); Ok(SubAckPacket(x))
    case UnsubscribeType => var x :- U.DecodeUnsubscribe(body); Ok(UnsubscribePacket(x))
    case UnsubAckType => var id :- DecodeUnsubAck(header.remainingLen, body); Ok(UnsubAckPacket(id))
    case PingReqType => Ok(PingReqPacket)
    case PingRespType => Ok(PingRespPacket)
    case DisconnectType => Ok(DisconnectPacket)
  }

  /** A packet from its fixed header and the bytes behind it. No verdict ever asks for more data. */
  function DecodeBody(header: FixedHeader, body: bytes): (r: Result<Packet, Error>)
    ensures r.Err? ==> !r.error.NeedMoreData?
  {
    var kind :- header.PacketType();
    if header.remainingLen == 0 then DecodeEmpty(kind) else DecodeFields(kind, header, body)
  }

  /** The next packet of a stream and the number of bytes it takes. */
  function Decode(data: bytes, maxSize: nat): (r: Result<(Packet, nat), Error>)
    ensures r.Ok? ==>
              && Check(data, maxSize).Ok? && 2 <= r.value.1 <= |data|
              && r.value.1 == Check(data, maxSize).value.FrameLength()
    ensures r.Err? && r.error.NeedMoreData? <==> Check(data, maxSize).Err? && Check(data, maxSize).error.NeedMoreData?
    ensures r.Err? && r.error.NeedMoreData? ==> r.error == Check(data, maxSize).error && r.error.missing > 0
  {
    var header :- Check(data, maxSize);
    var frame := data[..header.FrameLength()];
    var packet :- DecodeBody(header, frame[header.fixedHeaderLen..]);
    Ok((packet, |frame|))
  }

  method ReadExact(header: FixedHeader, data: bytes) returns (r: Result<Packet, Error>)
    requires header.fixedHeaderLen <= |data|
    ensures r == DecodeBody(header, data[header.fixedHeaderLen..])
  {
    hide DecodeConnect, DecodeConnAck, DecodePublish, DecodeId, DecodeUnsubAck, S.DecodeSubscribe, A.DecodeSubAck,
      U.DecodeUnsubscribe, FixedHeader.PacketType;
    var kind :- header.PacketType();
    if header.remainingLen == 0 {
      return DecodeEmpty(kind);
    }
    match kind {
      case ConnectType =>
        var x :- ReadConnect(header, data);
        return Ok(ConnectPacket(x));
      case ConnAckType =>
        var x :- ReadConnAck(header, data);
        return Ok(ConnAckPacket(x));
      case PublishType =>
        var x :- ReadPublish(header, data);
        return Ok(PublishPacket(x));
      case PubAckType =>
        var id :- ReadId(header, data);
        return Ok(PubAckPacket(id));
      case PubRecType =>
        var id :- ReadId(header, data);
        return Ok(PubRecPacket(id));
      case PubRelType =>
        var id :- ReadId(header, data);
        return Ok(PubRelPacket(id));
      case PubCompType =>
        var id :- ReadId(header, data);
        return Ok(PubCompPacket(id));
      case SubscribeType =>
        var x :- S.ReadSubscribe(header, data);
        return Ok(SubscribePacket(x));
      case SubAckType =>
        var x :- A.ReadSubAck(header, data);
        return Ok(SubAckPacket(x));
      case UnsubscribeType =>
        var x :- U.ReadUnsubscribe(header, data);
        return Ok(UnsubscribePacket(x));
      case UnsubAckType =>
        var id :- ReadUnsubAck(header, data);
        return Ok(UnsubAckPacket(id));
      case PingReqType =>
        return Ok(PingReqPacket);
      case PingRespType =>
        return Ok(PingRespPacket);
      case DisconnectType =>
        return Ok(DisconnectPacket);
    }
  }

  method ReadPacket(data: bytes, maxSize: nat) returns (r: Result<(Packet, nat), Error>)
    ensures r == Decode(data, maxSize)
  {
    hide DecodeBody, Check;
    var header :- Check(data, maxSize);
    var frame := data[..header.FrameLength()];
    var packet :- ReadExact(header, frame);
    return Ok((packet, |frame|));
  }

  // ---- Prefix stability ----

  /**
   A verdict other than "need more data" never changes when more bytes arrive, and a request for more data
   is sound: with fewer bytes than asked for, the verdict is still "need more data".
   */
  lemma PrefixStability(data: bytes, more: bytes, maxSize: nat)
    ensures var r := Decode(data, maxSize);
            && (r.Ok? || !r.error.NeedMoreData? ==> Decode(data + more, maxSize) == r)
            && (r.Err? && r.error.NeedMoreData? && |more| < r.error.missing ==>
                  Decode(data + more, maxSize).Err? && Decode(data + more, maxSize).error.NeedMoreData?)
  {
    hide Check, DecodeBody;
    CheckStable(data, more, maxSize);
    var c := Check(data, maxSize);
    if c.Ok? {
      assert (data + more)[..c.value.FrameLength()] == data[..c.value.FrameLength()];
    }
  }

  // ---- Round trip ----

  /** What reading gives back for a packet that was printed. */
  function Normal(p: Packet): Packet {
    match p
    case ConnectPacket(x) => ConnectPacket(NormalConnect(x))
    case PublishPacket(x) => PublishPacket(NormalPublish(x))
    case SubscribePacket(x) => SubscribePacket(S.NormalSubscribe(x))
    case SubAckPacket(x) => SubAckPacket(A.NormalSubAck(x))
    case UnsubscribePacket(x) => UnsubscribePacket(U.NormalUnsubscribe(x))
    case _ => p
  }

  /** `PartialEq`: list packets are compared by the lists they denote, not by how they store them. */
  predicate Equal(p: Packet, q: Packet) {
    match (p, q)
    case (SubscribePacket(x), SubscribePacket(y)) => x.pkid == y.pkid && S.Filters(x.filters) == S.Filters(y.filters)
    case (SubAckPacket(x), SubAckPacket(y)) => x.pkid == y.pkid && A.Codes(x.returnCodes) == A.Codes(y.returnCodes)
    case (UnsubscribePacket(x), UnsubscribePacket(y)) => x.pkid == y.pkid && U.Topics(x.topics) == U.Topics(y.topics)
    case _ => p == q
  }

  /** The packet without the two things the wire cannot carry: a packet id at QoS 0 and an empty login. */
  function Tidy(p: Packet): Packet {
    match p
    case ConnectPacket(x) => ConnectPacket(NormalConnect(x))
    case PublishPacket(x) => PublishPacket(NormalPublish(x))
    case _ => p
  }

  /** Checkable on the packet alone: field sizes, list lengths, protocol level, packet id, total size. */
  predicate Representable(p: Packet) {
    match p
    case ConnectPacket(x) => RepresentableConnect(x)
    case PublishPacket(x) => RepresentablePublish(x)
    case SubscribePacket(x) => S.RepresentableSubscribe(x)
    case SubAckPacket(x) => A.RepresentableSubAck(x)
    case UnsubscribePacket(x) => U.RepresentableUnsubscribe(x)
    case _ => true
  }

  /**
   Some buffer takes the packet, and any stream starting with the printed bytes gives it back and stops right behind
   them.
   */
  ghost predicate RoundTrips(p: Packet) {
    && Prints(p)
    && forall rest: bytes, maxSize: nat :: DeclaredLen(p) <= maxSize ==>
         var r := Decode(Encode(p) + rest, maxSize);
         r.Ok? && Equal(r.value.0, Tidy(p)) && r.value.1 == |Encode(p)|
  }

  lemma BodyRoundTrip(p: Packet, n: nat)
    requires Representable(p)
    ensures DeclaredLen(p) == |Body(p)| && Prints(p)
    ensures DecodeBody(FixedHeader(Byte1(p), n, |Body(p)|), Body(p)) == Ok(Normal(p))
    ensures Equal(Normal(p), Tidy(p))
  {
    hide DecodeConnect, DecodePublish, S.DecodeSubscribe, A.DecodeSubAck, U.DecodeUnsubscribe, DecodeId, ConnectBody,
      PublishBody, S.SubscribeBody, A.SubAckBody, U.UnsubscribeBody, PublishByte1, BigEndian, NormalConnect,
      NormalPublish, S.EncodeFilters, A.EncodeCodes, U.EncodeTopics, ConnectLen, PublishLen, S.SubscribeLen,
      A.SubAckLen, U.UnsubscribeLen, Utf8.Valid, VarInt, S.Filters, A.Codes, U.Topics;
    match p {
      case ConnectPacket(x) => ConnectRoundTrip(x);
      case ConnAckPacket(x) => ConnAckRoundTrip(x);
      case PublishPacket(x) => PublishRoundTrip(x); PublishByte1Reads(x.dup, x.qos, x.retain);
      case SubscribePacket(x) => S.SubscribeRoundTrip(x);
      case SubAckPacket(x) => A.SubAckRoundTrip(x);
      case UnsubscribePacket(x) => U.UnsubscribeRoundTrip(x);
      case PubAckPacket(id) => IdRoundTrip(id);
      case PubRecPacket(id) => IdRoundTrip(id);
      case PubRelPacket(id) => IdRoundTrip(id);
      case PubCompPacket(id) => IdRoundTrip(id);
      case UnsubAckPacket(id) => IdRoundTrip(id);
      case PingReqPacket =>
      case PingRespPacket =>
      case DisconnectPacket =>
    }
  }

  lemma IdRoundTrip(id: u16)
    ensures DecodeId(BigEndian(id)) == Ok(id)
  {
    U16RoundTrip(id, []);
    assert BigEndian(id) + [] == BigEndian(id);
  }

  /** The exact value that comes back for a representable packet, whatever follows it in the stream. */
  lemma PrintRead(p: Packet, rest: bytes, maxSize: nat)
    requires Representable(p) && DeclaredLen(p) <= maxSize
    ensures Decode(Encode(p) + rest, maxSize) == Ok((Normal(p), |Encode(p)|))
    ensures Equal(Normal(p), Tidy(p)) && Prints(p)
  {
    hide Representable, DecodeBody, Normal, Byte1, Body, DeclaredLen, Check, Equal, Tidy;
    BodyRoundTrip(p, 1 + |VarInt(|Body(p)|)|);
    FrameChecks(Byte1(p), Body(p), rest, maxSize);
    assert Encode(p) == Frame(Byte1(p), Body(p));
  }

  /** Reading only ever produces packets that survive printing and reading, and produces them in normal form. */
  lemma DecodedBody(header: FixedHeader, body: bytes)
    requires DecodeBody(header, body).Ok? && header.remainingLen == |body| <= MAX_REMAINING
    ensures var p := DecodeBody(header, body).value;
            Representable(p) && Normal(p) == p
  {
    hide DecodeConnect, DecodeConnAck, DecodePublish, DecodeId, DecodeUnsubAck, S.DecodeSubscribe, A.DecodeSubAck,
      U.DecodeUnsubscribe, FixedHeader.PacketType, ConnectBody, PublishBody, S.SubscribeBody, A.SubAckBody,
      U.UnsubscribeBody, NormalConnect, NormalPublish, S.NormalSubscribe, A.NormalSubAck, U.NormalUnsubscribe,
      ConnectLen, PublishLen, S.SubscribeLen, A.SubAckLen, U.UnsubscribeLen, Utf8.Valid;
    match DecodeBody(header, body).value {
      case ConnectPacket(_) => DecodedConnect(body);
      case PublishPacket(_) => DecodedPublish(header.byte1, body);
      case SubscribePacket(_) => S.DecodedSubscribe(body);
      case SubAckPacket(_) => A.DecodedSubAck(body);
      case UnsubscribePacket(_) => U.DecodedUnsubscribe(body);
      case _ =>
    }
  }

  lemma DecodedIsRepresentable(data: bytes, maxSize: nat)
    requires Decode(data, maxSize).Ok?
    ensures var (p, _) := Decode(data, maxSize).value;
            Representable(p) && Normal(p) == p
  {
    hide Representable, Normal, DecodeBody;
    var header := Check(data, maxSize).value;
    var frame := data[..header.FrameLength()];
    DecodedLengthBound(data[1..], 0);
    DecodedBody(header, frame[header.fixedHeaderLen..]);
  }

  /** Reading is idempotent through printing: print what was read, read it again, and nothing has changed. */
  lemma ReadPrintRead(data: bytes, maxSize: nat, rest: bytes, otherMax: nat)
    requires Decode(data, maxSize).Ok?
    requires DeclaredLen(Decode(data, maxSize).value.0) <= otherMax
    ensures var (p, _) := Decode(data, maxSize).value;
            Decode(Encode(p) + rest, otherMax) == Ok((p, |Encode(p)|))
  {
    hide Decode, Encode, Representable, Normal, DeclaredLen, Equal, Tidy;
    DecodedIsRepresentable(data, maxSize);
    PrintRead(Decode(data, maxSize).value.0, rest, otherMax);
  }

  /** The frame a packet is read from is as long as the declared length says. */
  lemma HonestLength(p: Packet)
    requires Prints(p) && Decode(Encode(p), DeclaredLen(p)).Ok?
    requires Decode(Encode(p), DeclaredLen(p)).value.1 == |Encode(p)|
    ensures DeclaredLen(p) == |Body(p)|
  {
    hide Body, DeclaredLen, DecodeBody, Byte1;
    VarIntDecodes(DeclaredLen(p), 0, Body(p));
    assert Encode(p)[1..] == VarInt(DeclaredLen(p)) + Body(p);
  }

  lemma ReadableIsRepresentable(p: Packet, q: Packet)
    requires Prints(p) && Representable(q) && Equal(q, Tidy(p)) && DeclaredLen(p) == |Body(p)|
    ensures Representable(p)
  {
    hide ConnectLen, PublishLen, S.SubscribeLen, U.UnsubscribeLen, S.Filters, A.Codes, U.Topics, Utf8.Valid,
      ConnectBody, PublishBody, S.SubscribeBody, A.SubAckBody, U.UnsubscribeBody;
    match p {
      case SubAckPacket(x) => A.SubAckRoundTrip(x);
      case _ =>
    }
  }

  /** The round trip works exactly for the packets that pass the check on their fields. */
  lemma RoundTripIff(p: Packet)
    ensures RoundTrips(p) <==> Representable(p)
  {
    hide Representable, Decode, Encode, Normal, Equal, Tidy, DeclaredLen, Prints;
    if Representable(p) {
      forall rest: bytes, maxSize: nat | DeclaredLen(p) <= maxSize
        ensures Decode(Encode(p) + rest, maxSize) == Ok((Normal(p), |Encode(p)|))
      {
        PrintRead(p, rest, maxSize);
      }
      PrintRead(p, [], DeclaredLen(p));
    }
    if RoundTrips(p) {
      assert Encode(p) + [] == Encode(p);
      var r := Decode(Encode(p) + [], DeclaredLen(p));
      HonestLength(p);
      DecodedIsRepresentable(Encode(p), DeclaredLen(p));
      ReadableIsRepresentable(p, r.value.0);
    }
  }

  /** Nothing at all is lost exactly when there is no packet id at QoS 0 and no empty login. */
  lemma NothingLostIff(p: Packet)
    requires Representable(p)
    ensures Equal(Normal(p), p) <==>
            !(p.PublishPacket? && p.publish.qos == AtMostOnce && p.publish.pkid != 0)
            && !(p.ConnectPacket? && p.connect.login == Some(Login([], [])))
  {
    BodyRoundTrip(p, 2);
  }
}
