/** The vocabulary of the packet layer and the framing of MQTT 3.1.1 section 2.2. */
module Wire {
  import opened Bytes
  import opened Utf8

  datatype QoS = AtMostOnce | AtLeastOnce | ExactlyOnce

  datatype Protocol = V4 | V5

  datatype PacketType =
    | ConnectType | ConnAckType | PublishType | PubAckType | PubRecType | PubRelType | PubCompType
    | SubscribeType | SubAckType | UnsubscribeType | UnsubAckType | PingReqType | PingRespType | DisconnectType

  datatype Error =
    | NeedMoreData(missing: nat)
    | PayloadSizeLimitExceeded(size: nat)
    | InvalidPacketType(number: nat)
    | MalformedRemainingLength
    | MalformedPacket
    | EmptySubscription
    | BadUtf8
    | InvalidProtocol
    | InvalidProtocolLevel(level: byte)
    | InvalidQoS(qos: nat)
    | InvalidConnectReturnCode(code: byte)
    | PacketIdZero
    | UnsupportedPacket
    | InvalidSubscribeReasonCode(reason: byte)
    | UnexpectedPacket(packetType: PacketType)

  datatype WriteError = MalformedWrite | NotEnoughCapacity | PayloadTooLong

  /** `QoS as u8` */
  function QosByte(q: QoS): byte
  {
    match q
    case AtMostOnce => 0
    case AtLeastOnce => 1
    case ExactlyOnce => 2
  }

  function QosOf(number: byte): (r: Result<QoS, Error>)
    ensures r.Ok? ==> QosByte(r.value) == number
    ensures r.Err? <==> number > 2
    ensures r.Err? ==> r.error == InvalidQoS(number)
  {
    match number
    case 0 => Ok(AtMostOnce)
    case 1 => Ok(AtLeastOnce)
    case 2 => Ok(ExactlyOnce)
    case _ => Err(InvalidQoS(number))
  }

  datatype FixedHeader = FixedHeader(byte1: byte, fixedHeaderLen: nat, remainingLen: nat) {
    function PacketType(): (r: Result<PacketType, Error>)
      ensures r.Err? ==> r.error == InvalidPacketType(byte1 / 16)
    {
      match byte1 / 16
      case 1 => Ok(ConnectType)
      case 2 => Ok(ConnAckType)
      case 3 => Ok(PublishType)
      case 4 => Ok(PubAckType)
      case 5 => Ok(PubRecType)
      case 6 => Ok(PubRelType)
      case 7 => Ok(PubCompType)
      case 8 => Ok(SubscribeType)
      case 9 => Ok(SubAckType)
      case 10 => Ok(UnsubscribeType)
      case 11 => Ok(UnsubAckType)
      case 12 => Ok(PingReqType)
      case 13 => Ok(PingRespType)
      case 14 => Ok(DisconnectType)
      case number => Err(InvalidPacketType(number))
    }

    function FrameLength(): nat {
      fixedHeaderLen + remainingLen
    }
  }

  /** The largest remaining length four bytes can carry. */
  const MAX_REMAINING := 268_435_455

  // ---- Remaining length: the number n as base-128 digits, least significant first ----

  function VarInt(n: nat): (s: bytes)
    ensures |s| >= 1
  {
    if n < 128 then [n] else [n % 128 + 128] + VarInt(n / 128)
  }

  /** What `length` makes of the bytes after the first one, `done` continuation bytes having been read. */
  function DecodeLength(s: bytes, done: nat): (r: Result<(nat, nat), Error>)
    requires done <= 3
    decreases 3 - done
    ensures r.Ok? ==> 1 <= r.value.0 <= |s| && r.value.0 <= 4 - done
    ensures r.Err? ==> r.error == MalformedRemainingLength || (r.error == NeedMoreData(1) && |s| <= 3 - done)
  {
    if s == [] then
      Err(NeedMoreData(1))
    else if s[0] < 128 then
      Ok((1, s[0]))
    else if done == 3 then
      Err(MalformedRemainingLength)
    else
      var (count, high) :- DecodeLength(s[1..], done + 1);
      Ok((count + 1, s[0] % 128 + 128 * high))
  }

  /** The weight of the digit that follows `done` continuation bytes: `1 << shift`. */
  function Weight(done: nat): nat
    requires done <= 3
  {
    match done case 0 => 1 case 1 => 128 case 2 => 16384 case _ => 2097152
  }

  /** Adds the digits already read to the decoding of those still to come. */
  function Resume(count: nat, low: nat, weight: nat, rest: Result<(nat, nat), Error>): Result<(nat, nat), Error> {
    match rest
    case Ok((c, high)) => Ok((count + c, low + weight * high))
    case Err(e) => Err(e)
  }

  lemma ResumeStep(s: bytes, done: nat, low: nat)
    requires done <= 2 && s != [] && s[0] >= 128
    ensures Resume(done, low, Weight(done), DecodeLength(s, done))
         == Resume(done + 1, low + Weight(done) * (s[0] % 128), Weight(done + 1), DecodeLength(s[1..], done + 1))
  {
    var rest := DecodeLength(s[1..], done + 1);
    if rest.Ok? {
      var high := rest.value.1;
      var digit: int := s[0] % 128;
      if done == 0 {
      } else if done == 1 {
        assert 128 * (digit + 128 * high) == 128 * digit + 16384 * high;
      } else {
        assert 16384 * (digit + 128 * high) == 16384 * digit + 2097152 * high;
      }
    }
  }

  /** The loop of `length`: accumulate `(byte & 0x7F) << shift` until a byte without continuation bit. */
  method Length(stream: bytes) returns (r: Result<(nat, nat), Error>)
    ensures r == DecodeLength(stream, 0)
  {
    var len: nat, lenLen: nat, weight: nat := 0, 0, 1;
    while lenLen < |stream|
      invariant lenLen <= |stream| && lenLen <= 3
      invariant weight == Weight(lenLen)
      invariant DecodeLength(stream, 0) == Resume(lenLen, len, weight, DecodeLength(stream[lenLen..], lenLen))
    {
      var b: int := stream[lenLen];
      var rest := stream[lenLen..];
      assert rest[1..] == stream[lenLen + 1..];
      if b < 128 {
        return Ok((lenLen + 1, len + weight * b));
      }
      if lenLen == 3 {
        return Err(MalformedRemainingLength);
      }
      ResumeStep(rest, lenLen, len);
      len := len + weight * (b % 128);
      lenLen := lenLen + 1;
      weight := weight * 128;
    }
    return Err(NeedMoreData(1));
  }

  lemma {:induction false} VarIntDecodes(n: nat, done: nat, rest: bytes)
    requires done <= 3
    requires n * Weight(done) <= MAX_REMAINING
    ensures DecodeLength(VarInt(n) + rest, done) == Ok((|VarInt(n)|, n))
    decreases 3 - done
  {
    if n >= 128 {
      assert done <= 2;
      assert (VarInt(n) + rest)[1..] == VarInt(n / 128) + rest;
      assert n / 128 * 128 <= n;
      VarIntDecodes(n / 128, done + 1, rest);
    }
  }

  /** The number of bytes is the least possible one: the thresholds of table 2.4. */
  lemma VarIntSize(n: nat)
    requires n <= MAX_REMAINING
    ensures |VarInt(n)| == if n < 128 then 1 else if n < 16384 then 2 else if n < 2097152 then 3 else 4
  {
    if n >= 128 {
      var a := n / 128;
      if a >= 128 {
        var b := a / 128;
        assert b / 128 < 128;
      }
    }
  }

  /** Every accepted length fits four bytes, and never uses fewer bytes than the printer would. */
  lemma {:induction false} DecodedLengthBound(s: bytes, done: nat)
    requires done <= 3
    requires DecodeLength(s, done).Ok?
    ensures DecodeLength(s, done).value.1 * Weight(done) <= MAX_REMAINING
    ensures |VarInt(DecodeLength(s, done).value.1)| <= DecodeLength(s, done).value.0
    decreases 3 - done
  {
    var n := DecodeLength(s, done).value.1;
    if s[0] >= 128 {
      DecodedLengthBound(s[1..], done + 1);
      var high := DecodeLength(s[1..], done + 1).value.1;
      assert n == s[0] % 128 + 128 * high;
      assert n / 128 == high;
    }
  }

  /** Decoding a length looks at nothing behind it. */
  lemma {:induction false} DecodeLengthStable(s: bytes, more: bytes, done: nat)
    requires done <= 3
    ensures var r := DecodeLength(s, done);
            r != Err(NeedMoreData(1)) ==> DecodeLength(s + more, done) == r
    decreases 3 - done
  {
    if s != [] && s[0] >= 128 && done < 3 {
      assert (s + more)[1..] == s[1..] + more;
      DecodeLengthStable(s[1..], more, done + 1);
    }
  }

  // ---- Fixed header and framing ----

  function ParseFixedHeader(data: bytes): (r: Result<FixedHeader, Error>)
    ensures r.Ok? ==> 2 <= r.value.fixedHeaderLen <= |data| && r.value.fixedHeaderLen <= 5
    ensures r.Err? ==> r.error == MalformedRemainingLength || (r.error.NeedMoreData? && r.error.missing > 0)
  {
    if |data| < 2 then
      Err(NeedMoreData(2 - |data|))
    else
      var (lenLen, len) :- DecodeLength(data[1..], 0);
      Ok(FixedHeader(data[0], lenLen + 1, len))
  }

  function Check(data: bytes, maxPacketSize: nat): (r: Result<FixedHeader, Error>)
    ensures r.Ok? ==>
            r.value.fixedHeaderLen >= 2 && r.value.FrameLength() <= |data| && r.value.remainingLen <= maxPacketSize
    ensures r.Err? && r.error.NeedMoreData? ==> r.error.missing > 0
  {
    var header :- ParseFixedHeader(data);
    if header.remainingLen > maxPacketSize then
      Err(PayloadSizeLimitExceeded(header.remainingLen))
    else if |data| < header.FrameLength() then
      Err(NeedMoreData(header.FrameLength() - |data|))
    else
      Ok(header)
  }

  /** A framed packet: first byte, declared length, body. */
  function Frame(byte1: byte, body: bytes): bytes {
    [byte1] + VarInt(|body|) + body
  }

  lemma FrameChecks(byte1: byte, body: bytes, rest: bytes, maxPacketSize: nat)
    requires |body| <= MAX_REMAINING && |body| <= maxPacketSize
    ensures var data := Frame(byte1, body) + rest;
            var header := FixedHeader(byte1, 1 + |VarInt(|body|)|, |body|);
            && Check(data, maxPacketSize) == Ok(header)
            && header.FrameLength() == |Frame(byte1, body)|
            && data[..header.FrameLength()] == Frame(byte1, body)
            && Frame(byte1, body)[header.fixedHeaderLen..] == body
  {
    var data := Frame(byte1, body) + rest;
    VarIntDecodes(|body|, 0, body + rest);
    assert data[1..] == VarInt(|body|) + (body + rest);
  }

  /** Framing never revises a verdict when more bytes arrive, and never asks for more than is missing. */
  lemma CheckStable(data: bytes, more: bytes, maxPacketSize: nat)
    ensures var r := Check(data, maxPacketSize);
            && (r.Ok? || !r.error.NeedMoreData? ==> Check(data + more, maxPacketSize) == r)
            && (r.Err? && r.error.NeedMoreData? && |more| < r.error.missing ==>
                  Check(data + more, maxPacketSize).Err? && Check(data + more, maxPacketSize).error.NeedMoreData?)
  {
    if |data| >= 2 {
      assert (data + more)[1..] == data[1..] + more;
      DecodeLengthStable(data[1..], more, 0);
      if more == [] {
        assert data + more == data;
      }
    } else if |data + more| < 2 {
    }
  }

  // ---- Primitive readers, as functions from the unread bytes to a value and the bytes left ----

  function ParseU8(s: bytes): (r: Result<(byte, bytes), Error>)
    ensures r.Err? ==> r.error == MalformedPacket
  {
    if s == [] then Err(MalformedPacket) else Ok((s[0], s[1..]))
  }

  function ParseU16(s: bytes): (r: Result<(u16, bytes), Error>)
    ensures r.Ok? ==> s == BigEndian(r.value.0) + r.value.1
    ensures r.Err? ==> r.error == MalformedPacket
  {
    if |s| < 2 then Err(MalformedPacket) else Ok((FromBigEndian(s[0], s[1]), s[2..]))
  }

  function ParseBytes(s: bytes): (r: Result<(bytes, bytes), Error>)
    ensures r.Ok? ==> |r.value.0| <= U16_MAX && s == EncodeBytes(r.value.0) + r.value.1
    ensures r.Err? ==> r.error == MalformedPacket
  {
    var (len, rest) :- ParseU16(s);
    if len > |rest| then
      Err(MalformedPacket)
    else
      assert rest == rest[..len] + rest[len..];
      Ok((rest[..len], rest[len..]))
  }

  function ParseString(s: bytes): (r: Result<(str, bytes), Error>)
    ensures r.Ok? ==> |r.value.0| <= U16_MAX && s == EncodeBytes(r.value.0) + r.value.1
    ensures r.Err? ==> r.error in {MalformedPacket, BadUtf8}
  {
    var (text, rest) :- ParseBytes(s);
    if Valid(text) then Ok((text, rest)) else Err(BadUtf8)
  }

  /** What `write_mqtt_bytes` prints: the length is cast to 16 bits, the bytes are all written. */
  function EncodeBytes(s: bytes): (r: bytes)
    ensures |r| == 2 + |s|
  {
    BigEndian(TruncateU16(|s|)) + s
  }

  lemma U16RoundTrip(n: u16, rest: bytes)
    ensures ParseU16(BigEndian(n) + rest) == Ok((n, rest))
  {
    var data := BigEndian(n) + rest;
    assert data[0] == n / 256 && data[1] == n % 256 && data[2..] == rest;
  }

  lemma BytesRoundTrip(s: bytes, rest: bytes)
    requires |s| <= U16_MAX
    ensures ParseBytes(EncodeBytes(s) + rest) == Ok((s, rest))
  {
    var data := EncodeBytes(s) + rest;
    assert data[0] == |s| / 256 && data[1] == |s| % 256;
    assert data[2..] == s + rest;
    assert (s + rest)[..|s|] == s && (s + rest)[|s|..] == rest;
  }

  lemma StringRoundTrip(s: str, rest: bytes)
    requires |s| <= U16_MAX
    ensures ParseString(EncodeBytes(s) + rest) == Ok((s, rest))
  {
    BytesRoundTrip(s, rest);
  }
}
