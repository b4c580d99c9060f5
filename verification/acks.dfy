/** The packets of fixed shape: CONNACK, the four publish acknowledgements, UNSUBACK, pings and DISCONNECT. */
module Acks {
  import opened Bytes
  import opened Wire
  import opened Flags
  import opened Cursors
  import opened Streams

  datatype ReturnCode =
    Accepted | RefusedProtocolVersion | BadClientId | ServiceUnavailable | BadUserNamePassword | NotAuthorized

  function ReturnCodeByte(code: ReturnCode): byte {
    match code
    case Accepted => 0
    case RefusedProtocolVersion => 1
    case BadClientId => 2
    case ServiceUnavailable => 3
    case BadUserNamePassword => 4
    case NotAuthorized => 5
  }

  function ReturnCodeOf(b: byte): (r: Result<ReturnCode, Error>)
    ensures r.Ok? ==> ReturnCodeByte(r.value) == b
  {
    match b
    case 0 => Ok(Accepted)
    case 1 => Ok(RefusedProtocolVersion)
    case 2 => Ok(BadClientId)
    case 3 => Ok(ServiceUnavailable)
    case 4 => Ok(BadUserNamePassword)
    case 5 => Ok(NotAuthorized)
    case v => Err(InvalidConnectReturnCode(v))
  }

  datatype ConnAck = ConnAck(sessionPresent: bool, code: ReturnCode)

  function ConnAckBody(a: ConnAck): bytes {
    [BoolByte(a.sessionPresent), ReturnCodeByte(a.code)]
  }

  function DecodeConnAck(body: bytes): (r: Result<ConnAck, Error>)
    ensures r.Err? ==> !r.error.NeedMoreData?
  {
    var (flags, rest) :- ParseU8(body);
    var (number, _) :- ParseU8(rest);
    var code :- ReturnCodeOf(number);
    Ok(ConnAck(Bit(flags, 1), code))
  }

  lemma ConnAckRoundTrip(a: ConnAck)
    ensures DecodeConnAck(ConnAckBody(a)) == Ok(a)
  {
    match a.code {
      case Accepted =>
      case RefusedProtocolVersion =>
      case BadClientId =>
      case ServiceUnavailable =>
      case BadUserNamePassword =>
      case NotAuthorized =>
    }
  }

  method ReadConnAck(header: FixedHeader, data: bytes) returns (r: Result<ConnAck, Error>)
    requires header.fixedHeaderLen <= |data|
    ensures r == DecodeConnAck(data[header.fixedHeaderLen..])
  {
    var stream := new Cursor(data);
    stream.Advance(header.fixedHeaderLen);
    var flags :- ReadU8(stream);
    var number :- ReadU8(stream);
    MaskedBits(flags);
    var sessionPresent := flags as bv8 & 0x01 == 1;
    var code :- ReturnCodeOf(number);
    return Ok(ConnAck(sessionPresent, code));
  }

  method WriteConnAck(a: ConnAck, buffer: array<byte>) returns (r: Result<nat, WriteError>)
    modifies buffer
    ensures r == PrintOutcome(2, 4, buffer.Length)
    ensures r.Ok? ==> FillsFront(Frame(0x20, ConnAckBody(a)), old(buffer[..]), buffer[..])
  {
    hide WriteCursor.Valid, WriteCursor.Written, FillsFront;
    var w := new WriteCursor(buffer, 0);
    var _ :- w.PutU8(0x20);
    var _ :- WriteRemainingLength(w, 2);
    var _ :- w.PutU8(BoolByte(a.sessionPresent));
    var _ :- w.PutU8(ReturnCodeByte(a.code));
    assert w.Written() == Frame(0x20, ConnAckBody(a));
    w.FillsBuffer();
    return Ok(w.BytesWritten());
  }

  /** PUBACK, PUBREC, PUBREL and PUBCOMP: a packet id, and anything behind it is ignored. */
  function DecodeId(body: bytes): (r: Result<u16, Error>)
    ensures r.Err? ==> !r.error.NeedMoreData?
  {
    var (pkid, _) :- ParseU16(body);
    Ok(pkid)
  }

  /** UNSUBACK checks the remaining length before it looks at the bytes. */
  function DecodeUnsubAck(remainingLen: nat, body: bytes): (r: Result<u16, Error>)
    ensures r.Err? ==> !r.error.NeedMoreData?
  {
    if remainingLen != 2 then Err(MalformedPacket) else DecodeId(body)
  }

  method ReadId(header: FixedHeader, data: bytes) returns (r: Result<u16, Error>)
    requires header.fixedHeaderLen <= |data|
    ensures r == DecodeId(data[header.fixedHeaderLen..])
  {
    var stream := new Cursor(data);
    stream.Advance(header.fixedHeaderLen);
    r := ReadU16(stream);
  }

  method ReadUnsubAck(header: FixedHeader, data: bytes) returns (r: Result<u16, Error>)
    requires header.fixedHeaderLen <= |data|
    ensures r == DecodeUnsubAck(header.remainingLen, data[header.fixedHeaderLen..])
  {
    if header.remainingLen != 2 {
      return Err(MalformedPacket);
    }
    r := ReadId(header, data);
  }

  /** The printer shared by PUBACK (0x40), PUBREC (0x50), PUBREL (0x62) and PUBCOMP (0x70). */
  method WriteId(byte1: byte, pkid: u16, buffer: array<byte>) returns (r: Result<nat, WriteError>)
    modifies buffer
    ensures r == PrintOutcome(2, 4, buffer.Length)
    ensures r.Ok? ==> FillsFront(Frame(byte1, BigEndian(pkid)), old(buffer[..]), buffer[..])
  {
    hide BigEndian, WriteCursor.Valid, WriteCursor.Written, FillsFront;
    var w := new WriteCursor(buffer, 0);
    var _ :- w.PutU8(byte1);
    var _ :- WriteRemainingLength(w, 2);
    var _ :- w.PutU16(pkid);
    assert w.Written() == Frame(byte1, BigEndian(pkid));
    w.FillsBuffer();
    return Ok(w.BytesWritten());
  }

  method WriteUnsubAck(pkid: u16, buffer: array<byte>) returns (r: Result<nat, WriteError>)
    modifies buffer
    ensures r == PrintOutcome(2, 4, buffer.Length)
    ensures r.Ok? ==> FillsFront(Frame(0xB0, BigEndian(pkid)), old(buffer[..]), buffer[..])
  {
    hide BigEndian, WriteCursor.Valid, WriteCursor.Written, FillsFront;
    var w := new WriteCursor(buffer, 0);
    var _ :- w.PutSlice([0xB0, 0x02]);
    var _ :- w.PutU16(pkid);
    assert w.Written() == Frame(0xB0, BigEndian(pkid));
    w.FillsBuffer();
    return Ok(w.BytesWritten());
  }

  /** PINGREQ (0xC0), PINGRESP (0xD0) and DISCONNECT (0xE0): two bytes and nothing else. */
  method WriteEmpty(byte1: byte, buffer: array<byte>) returns (r: Result<nat, WriteError>)
    modifies buffer
    ensures r == PrintOutcome(0, 2, buffer.Length)
    ensures r.Ok? ==> FillsFront(Frame(byte1, []), old(buffer[..]), buffer[..])
  {
    hide WriteCursor.Valid, WriteCursor.Written, FillsFront;
    var w := new WriteCursor(buffer, 0);
    var _ :- w.PutSlice([byte1, 0x00]);
    assert w.Written() == Frame(byte1, []);
    w.FillsBuffer();
    return Ok(2);
  }
}
