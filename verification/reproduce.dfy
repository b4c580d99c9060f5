/** When printing a packet that was read gives back the bytes it was read from. */
module Reproductions {
  import opened Bytes
  import opened Utf8
  import opened Wire
  import opened Flags
  import opened Acks
  import opened Connects
  import opened Publishes
  import opened Packets
  import S = Subscribes
  import U = Unsubscribes
  import A = SubAcks

  // ---- The fixed header ----

  /** The digits of an accepted length are the printed ones exactly if there are no more of them than needed. */
  lemma {:induction false} DigitsArePrintedIff(s: bytes, done: nat)
    requires done <= 3 && DecodeLength(s, done).Ok?
    ensures var (count, n) := DecodeLength(s, done).value;
            s[..count] == VarInt(n) <==> count == |VarInt(n)|
    decreases 3 - done
  {
    if s[0] >= 128 {
      DigitsArePrintedIff(s[1..], done + 1);
      DecodedLengthBound(s[1..], done + 1);
      var (count, high) := DecodeLength(s[1..], done + 1).value;
      var n := s[0] % 128 + 128 * high;
      NextDigit(s[0], high);
      assert s[..count + 1] == [s[0]] + s[1..][..count];
    } else {
      assert s[..1] == [s[0]];
    }
  }

  lemma NextDigit(digit: byte, high: nat)
    requires digit >= 128
    ensures var n := digit % 128 + 128 * high;
            if n < 128 then high == 0 && VarInt(n) == [n] else VarInt(n) == [digit] + VarInt(high)
    ensures VarInt(0) == [0]
  {
    var n := digit % 128 + 128 * high;
    assert n / 128 == high && n % 128 == digit % 128;
  }

  /** Nothing but the digits of `n` decodes to it in as many bytes. */
  lemma SameDigits(s: bytes, n: nat, body: bytes)
    requires n <= MAX_REMAINING && DecodeLength(s, 0).Ok?
    requires VarInt(n) + body <= s
    ensures DecodeLength(s, 0).value == (|VarInt(n)|, n)
  {
    var more := s[|VarInt(n) + body|..];
    assert s == VarInt(n) + (body + more);
    VarIntDecodes(n, 0, body + more);
  }

  // ---- Bodies ----

  /**
   The body says nothing beyond the packet: no ignored flags, empty announced fields or ignored bytes behind the
   fields.
   */
  predicate Exact(body: bytes, p: Packet) {
    match p
    case ConnectPacket(c) => |body| == ConnectLen(c) && body[7] == FlagsOf(c)
    case ConnAckPacket(_) => |body| == 2 && body[0] <= 1
    case PubAckPacket(_) => |body| == 2
    case PubRecPacket(_) => |body| == 2
    case PubRelPacket(_) => |body| == 2
    case PubCompPacket(_) => |body| == 2
    case PingReqPacket => body == []
    case PingRespPacket => body == []
    case DisconnectPacket => body == []
    case _ => true
  }

  lemma ConnectBodyIff(body: bytes)
    requires DecodeConnect(body).Ok?
    ensures var c := DecodeConnect(body).value;
            ConnectBody(c) == body <==> |body| == ConnectLen(c) && body[7] == FlagsOf(c)
  {
    hide EncodeBytes, DecodeConnect, Describes, FieldsUnder, ConnectPayload, ConnectLen, ConnectFlags, Utf8.Valid;
    var c := DecodeConnect(body).value;
    AcceptedConnectIff(body, c);
    var flagByte, username, password, tail :| WrittenAs(body, c, flagByte, username, password, tail);
    FlagPosition(body, c, flagByte, username, password, tail);
    assert ConnectBody(c)[7] == FlagsOf(c) by {
      assert ConnectBody(c)
        == EncodeBytes(PROTOCOL_NAME) + ([LevelOf(c)] + ([FlagsOf(c)] + (BigEndian(c.keepAlive) + ConnectPayload(c))));
    }
    if |body| == ConnectLen(c) && body[7] == FlagsOf(c) {
      TrueFlags(c, username, password, tail);
      assert body == ConnectBody(c) + tail;
    }
  }

  lemma FlagPosition(body: bytes, c: Connect, flagByte: byte, username: str, password: bytes, tail: bytes)
    requires WrittenAs(body, c, flagByte, username, password, tail)
    ensures |body| > 7 && body[7] == flagByte
  {
    hide EncodeBytes, Describes, LoginFields, WillPayload, ReadConnectFlags, Utf8.Valid;
  }

  /** Under the flags the printer would choose, the fields are what it would print. */
  lemma TrueFlags(c: Connect, username: str, password: bytes, tail: bytes)
    requires Describes(ReadConnectFlags(FlagsOf(c)), c, username, password)
    ensures EncodeBytes(PROTOCOL_NAME) + ([4] + FieldsUnder(FlagsOf(c), c, username, password, tail))
            == ConnectBody(c) + tail
  {
    hide EncodeBytes, BigEndian, WillPayload, ConnectFlags, ReadConnectFlags, Utf8.Valid;
    var f := ReadConnectFlags(FlagsOf(c));
    ConnectFlagsRead(c.cleanSession, WillFlags(c.lastWill), HasUsername(c.login), HasPassword(c.login));
    TrueLogin(f, c, username, password);
    hide LoginFields, LoginPayload, Describes, FlagsOf;
    var login := LoginPayload(c.login);
    assert FieldsUnder(FlagsOf(c), c, username, password, tail) == ConnectTail(c) + tail;
    assert ConnectBody(c) == EncodeBytes(PROTOCOL_NAME) + ([4] + ConnectTail(c));
  }

  lemma TrueLogin(f: ConnectFlagSet, c: Connect, username: str, password: bytes)
    requires Describes(f, c, username, password)
    requires f.username == HasUsername(c.login) && f.password == HasPassword(c.login)
    ensures LoginFields(f, username, password) == LoginPayload(c.login)
  {
    hide EncodeBytes, Utf8.Valid;
  }

  /** What was accepted prints the same body exactly if the body was exact. */
  lemma BodyIff(header: FixedHeader, body: bytes)
    requires DecodeBody(header, body).Ok? && header.remainingLen == |body| <= MAX_REMAINING
    ensures var p := DecodeBody(header, body).value;
            Body(p) == body <==> Exact(body, p)
  {
    hide DecodeConnect, DecodePublish, S.DecodeSubscribe, A.DecodeSubAck, U.DecodeUnsubscribe, DecodeConnAck, DecodeId,
      ConnectBody, PublishBody, S.SubscribeBody, A.SubAckBody, U.UnsubscribeBody, ConnectLen, FlagsOf,
      FixedHeader.PacketType, BigEndian, Utf8.Valid;
    match DecodeBody(header, body).value {
      case ConnectPacket(_) => ConnectBodyIff(body);
      case ConnAckPacket(_) => ConnAckBodyIff(body);
      case PublishPacket(_) => DecodedPublish(header.byte1, body);
      case SubscribePacket(_) => S.DecodedSubscribe(body);
      case SubAckPacket(_) => A.DecodedSubAck(body);
      case UnsubscribePacket(_) => U.DecodedUnsubscribe(body);
      case PubAckPacket(_) => IdBodyIff(body);
      case PubRecPacket(_) => IdBodyIff(body);
      case PubRelPacket(_) => IdBodyIff(body);
      case PubCompPacket(_) => IdBodyIff(body);
      case UnsubAckPacket(_) => IdBodyIff(body);
      case PingReqPacket =>
      case PingRespPacket =>
      case DisconnectPacket =>
    }
  }

  lemma IdBodyIff(body: bytes)
    requires DecodeId(body).Ok?
    ensures BigEndian(DecodeId(body).value) == body <==> |body| == 2
  {
    hide BigEndian;
    var (id, rest) := ParseU16(body).value;
    if |body| == 2 {
      assert BigEndian(id) + [] == BigEndian(id);
    }
  }

  lemma ConnAckBodyIff(body: bytes)
    requires DecodeConnAck(body).Ok?
    ensures ConnAckBody(DecodeConnAck(body).value) == body <==> |body| == 2 && body[0] <= 1
  {
    hide ReturnCodeOf, ReturnCodeByte;
    assert body[1..][0] == body[1];
  }

  // ---- Whole packets ----

  /**
   Printing what was read gives back exactly the bytes that were read if and only if the first byte carries the flags
   the printer sets, the length is written in no more bytes than needed, and the body is exact.
   */
  lemma ReproducedIff(data: bytes, maxSize: nat)
    requires Decode(data, maxSize).Ok?
    ensures var (p, n) := Decode(data, maxSize).value;
            var header := Check(data, maxSize).value;
            Encode(p) == data[..n] <==>
            && header.byte1 == Byte1(p)
            && header.fixedHeaderLen == 1 + |VarInt(header.remainingLen)|
            && Exact(data[header.fixedHeaderLen..n], p)
  {
    hide DecodeBody, Byte1, Body, DeclaredLen, Exact, VarInt, Representable, Normal;
    var (p, n) := Decode(data, maxSize).value;
    var header := Check(data, maxSize).value;
    var body := data[header.fixedHeaderLen..n];
    assert data[..n][header.fixedHeaderLen..] == body;
    DecodedLengthBound(data[1..], 0);
    BodyIff(header, body);
    DigitsArePrintedIff(data[1..], 0);
    DecodedIsRepresentable(data, maxSize);
    BodyRoundTrip(p, 2);
    Pieces(data, header.fixedHeaderLen, n);
    var digits := data[1..header.fixedHeaderLen];
    assert digits == data[1..][..header.fixedHeaderLen - 1];
    if Encode(p) == data[..n] {
      assert data[1..] == data[..n][1..] + data[n..];
      assert Encode(p)[1..] == VarInt(DeclaredLen(p)) + Body(p);
      DeclaredInRange(p);
      SameDigits(data[1..], DeclaredLen(p), Body(p));
      assert data[..n] == [Byte1(p)] + VarInt(DeclaredLen(p)) + Body(p);
    }
  }

  lemma DeclaredInRange(p: Packet)
    requires Prints(p)
    ensures DeclaredLen(p) <= MAX_REMAINING
  {
    hide DeclaredLen;
  }

  lemma Pieces(data: bytes, m: nat, n: nat)
    requires 1 <= m <= n <= |data|
    ensures data[..n] == [data[0]] + data[1..m] + data[m..n]
  {
  }

  /** A publish always carries the flags its printer sets, so only the length of its length matters. */
  lemma PublishReproducedIff(data: bytes, maxSize: nat)
    requires Decode(data, maxSize).Ok? && Decode(data, maxSize).value.0.PublishPacket?
    ensures var (p, n) := Decode(data, maxSize).value;
            var header := Check(data, maxSize).value;
            Encode(p) == data[..n] <==> header.fixedHeaderLen == 1 + |VarInt(header.remainingLen)|
  {
    hide Encode, VarInt, DecodePublish, PublishByte1, FixedHeader.PacketType, Check;
    ReproducedIff(data, maxSize);
    var header := Check(data, maxSize).value;
    var body := data[..header.FrameLength()][header.fixedHeaderLen..];
    PublishFlagsKept(header, body);
  }

  lemma PublishFlagsKept(header: FixedHeader, body: bytes)
    requires DecodeBody(header, body).Ok? && DecodeBody(header, body).value.PublishPacket?
    ensures header.byte1 == Byte1(DecodeBody(header, body).value)
  {
    hide ParseString, ParseU16, Utf8.Valid;
    var b := header.byte1;
    assert header.PacketType() == Ok(PublishType);
    LowNibble(b);
  }

  lemma LowNibble(b: byte)
    ensures b % 16 == BoolByte(Bit(b, 1)) + 2 * (b / 2 % 4) + 8 * BoolByte(Bit(b, 8))
  {
    var half: int := b / 2;
    var eighth: int := half / 4;
    assert b == 2 * half + b % 2 && half == 4 * eighth + half % 4 && eighth == 2 * (eighth / 2) + eighth % 2;
    assert eighth == b / 8 && eighth / 2 == b / 16;
    assert b == 16 * (b / 16) + b % 16;
  }
}
