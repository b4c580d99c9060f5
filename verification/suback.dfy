/** SUBACK packets: section 3.9 of MQTT 3.1.1. */
module SubAcks {
  import opened Bytes
  import opened Wire
  import opened Cursors
  import opened Streams

  datatype ReasonCode = Success(qos: QoS) | Failure

  /** `SubscribeReasonCode::try_from` */
  function ReasonOf(b: byte): (r: Result<ReasonCode, Error>)
    ensures r.Ok? ==> ReasonByte(r.value) == b
  {
    match b
    case 0 => Ok(Success(AtMostOnce))
    case 1 => Ok(Success(AtLeastOnce))
    case 2 => Ok(Success(ExactlyOnce))
    case 128 => Ok(Failure)
    case v => Err(InvalidSubscribeReasonCode(v))
  }

  function ReasonByte(code: ReasonCode): byte {
    match code
    case Success(qos) => QosByte(qos)
    case Failure => 0x80
  }

  function EncodeCodes(codes: seq<ReasonCode>): (s: bytes)
    ensures |s| == |codes|
  {
    if codes == [] then [] else [ReasonByte(codes[0])] + EncodeCodes(codes[1..])
  }

  /** Everything the lazy iterator yields: codes up to the first invalid byte. */
  function WireCodes(s: bytes): (codes: seq<ReasonCode>)
    ensures |codes| <= |s|
  {
    if s == [] || ReasonOf(s[0]).Err? then [] else [ReasonOf(s[0]).value] + WireCodes(s[1..])
  }

  function CheckCodes(s: bytes): (r: Result<(), Error>)
    ensures r.Err? ==> !r.error.NeedMoreData?
  {
    if s == [] then
      Ok(())
    else
      var _ :- ReasonOf(s[0]);
      CheckCodes(s[1..])
  }

  datatype Storage = Slice(codes: seq<ReasonCode>) | WireBytes(wire: bytes) {
    /** The source takes the length of the bytes, valid or not. */
    function Len(): nat {
      match this
      case Slice(codes) => |codes|
      case WireBytes(s) => |s|
    }
  }

  function Codes(storage: Storage): seq<ReasonCode> {
    match storage
    case Slice(codes) => codes
    case WireBytes(s) => WireCodes(s)
  }

  /** Wire bytes taken from a parsed packet hold only valid codes; hand-built ones need not. */
  predicate Honest(storage: Storage) {
    storage.WireBytes? ==> CheckCodes(storage.wire).Ok?
  }

  lemma {:induction false} WireCodesOfEncoding(codes: seq<ReasonCode>)
    ensures WireCodes(EncodeCodes(codes)) == codes && CheckCodes(EncodeCodes(codes)).Ok?
  {
    if codes != [] {
      assert ReasonOf(ReasonByte(codes[0])) == Ok(codes[0]) by {
        if codes[0].Success? {
          match codes[0].qos { case AtMostOnce => case AtLeastOnce => case ExactlyOnce => }
        }
      }
      WireCodesOfEncoding(codes[1..]);
    }
  }

  /** The declared length counts what is printed exactly when every stored byte is a code. */
  lemma {:induction false} WireCodesFaithful(s: bytes)
    ensures CheckCodes(s).Ok? <==> |WireCodes(s)| == |s|
    ensures CheckCodes(s).Ok? ==> EncodeCodes(WireCodes(s)) == s
  {
    if s != [] && ReasonOf(s[0]).Ok? {
      WireCodesFaithful(s[1..]);
    }
  }

  class StorageIter {
    const wire: bool
    var codes: seq<ReasonCode>
    var rest: bytes

    /** What is still to be yielded. */
    ghost function Pending(): seq<ReasonCode>
      reads this
    {
      if wire then WireCodes(rest) else codes
    }

    constructor (storage: Storage)
      ensures Pending() == Codes(storage)
    {
      wire := storage.WireBytes?;
      codes := if storage.Slice? then storage.codes else [];
      rest := if storage.WireBytes? then storage.wire else [];
    }

    /** On the wire form the position moves past an invalid byte; the first one still ends the loop that asked. */
    method Next() returns (r: Option<ReasonCode>)
      modifies this
      ensures match r
              case None => old(Pending()) == []
              case Some(code) => old(Pending()) == [code] + Pending()
    {
      if wire {
        if rest == [] {
          return None;
        }
        var code := ReasonOf(rest[0]);
        rest := rest[1..];
        return if code.Ok? then Some(code.value) else None;
      } else if codes == [] {
        return None;
      } else {
        r := Some(codes[0]);
        codes := codes[1..];
      }
    }
  }

  /** `PartialEq` of two storages: the iterators are compared item by item. */
  method StorageEquals(a: Storage, b: Storage) returns (equal: bool)
    ensures equal <==> Codes(a) == Codes(b)
  {
    hide StorageIter.Pending, Codes;
    var left := new StorageIter(a);
    var right := new StorageIter(b);
    while true
      invariant fresh(left) && fresh(right) && left != right
      invariant Codes(a) == Codes(b) <==> left.Pending() == right.Pending()
      decreases |left.Pending()|
    {
      var x := left.Next();
      var y := right.Next();
      if x == None || y == None {
        return x == y;
      }
      SameFromFirst(x.value, left.Pending(), y.value, right.Pending());
      if x != y {
        return false;
      }
    }
  }

  datatype SubAck = SubAck(pkid: u16, returnCodes: Storage)

  function SubAckLen(a: SubAck): nat {
    2 + a.returnCodes.Len()
  }

  function SubAckBody(a: SubAck): bytes {
    BigEndian(a.pkid) + EncodeCodes(Codes(a.returnCodes))
  }

  function EncodeSubAck(a: SubAck): bytes {
    [0x90] + VarInt(SubAckLen(a)) + SubAckBody(a)
  }

  function DecodeSubAck(body: bytes): (r: Result<SubAck, Error>)
    ensures r.Err? ==> !r.error.NeedMoreData?
  {
    var (pkid, rest) :- ParseU16(body);
    if rest == [] then
      Err(MalformedPacket)
    else
      var _ :- CheckCodes(rest);
      Ok(SubAck(pkid, WireBytes(rest)))
  }

  method ReadSubAck(header: FixedHeader, data: bytes) returns (r: Result<SubAck, Error>)
    requires header.fixedHeaderLen <= |data|
    ensures r == DecodeSubAck(data[header.fixedHeaderLen..])
  {
    var stream := new Cursor(data);
    stream.Advance(header.fixedHeaderLen);
    var pkid :- ReadU16(stream);
    var codes := stream.rest;
    if codes == [] {
      return Err(MalformedPacket);
    }
    for i := 0 to |codes|
      invariant CheckCodes(codes) == CheckCodes(codes[i..])
    {
      assert codes[i..][0] == codes[i] && codes[i..][1..] == codes[i + 1..];
      var _ :- ReasonOf(codes[i]);
    }
    return Ok(SubAck(pkid, WireBytes(codes)));
  }

  /** The loop of `SubAck::write`. */
  method WriteCodes(storage: Storage, w: WriteCursor) returns (r: Result<(), WriteError>)
    requires w.Valid()
    modifies w`next, w.buffer
    ensures w.Valid()
    ensures r == if old(w.next) + |Codes(storage)| <= w.Capacity() then Ok(()) else Err(NotEnoughCapacity)
    ensures r.Ok? ==> w.Written() == old(w.Written()) + EncodeCodes(Codes(storage))
  {
    hide WriteCursor.Valid, WriteCursor.Written, StorageIter.Pending, Codes, ReasonByte;
    ghost var before := w.Written();
    ghost var payload := EncodeCodes(Codes(storage));
    ghost var out: bytes := [];
    var iter := new StorageIter(storage);
    while true
      invariant fresh(iter) && w.Valid()
      invariant payload == out + EncodeCodes(iter.Pending())
      invariant w.Written() == before + out
      decreases |iter.Pending()|
    {
      assert iter.Pending() == [] ==> out == payload;
      var next := iter.Next();
      if next == None {
        return Ok(());
      }
      assert payload == out + [ReasonByte(next.value)] + EncodeCodes(iter.Pending());
      var _ :- w.PutU8(ReasonByte(next.value));
      out := out + [ReasonByte(next.value)];
    }
  }

  method WriteSubAck(a: SubAck, buffer: array<byte>) returns (r: Result<nat, WriteError>)
    modifies buffer
    ensures r == PrintOutcome(SubAckLen(a), |EncodeSubAck(a)|, buffer.Length)
    ensures r.Ok? ==> FillsFront(EncodeSubAck(a), old(buffer[..]), buffer[..])
  {
    hide VarInt, BigEndian, EncodeCodes, SubAckLen, WriteCursor.Valid, WriteCursor.Written, FillsFront, Codes;
    var w := new WriteCursor(buffer, 0);
    var len := SubAckLen(a);
    assert EncodeSubAck(a) == [0x90] + VarInt(len) + BigEndian(a.pkid) + EncodeCodes(Codes(a.returnCodes));
    var _ :- w.PutU8(0x90);
    var _ :- WriteRemainingLength(w, len);
    var _ :- w.PutU16(a.pkid);
    var _ :- WriteCodes(a.returnCodes, w);
    assert w.Written() == EncodeSubAck(a);
    w.FillsBuffer();
    return Ok(w.BytesWritten());
  }

  predicate RepresentableSubAck(a: SubAck) {
    Codes(a.returnCodes) != [] && Honest(a.returnCodes) && SubAckLen(a) <= MAX_REMAINING
  }

  function NormalSubAck(a: SubAck): SubAck {
    a.(returnCodes := WireBytes(EncodeCodes(Codes(a.returnCodes))))
  }

  lemma SubAckRoundTrip(a: SubAck)
    requires Codes(a.returnCodes) != []
    ensures |SubAckBody(a)| >= 2 && (SubAckLen(a) == |SubAckBody(a)| <==> Honest(a.returnCodes))
    ensures DecodeSubAck(SubAckBody(a)) == Ok(NormalSubAck(a))
    ensures Codes(NormalSubAck(a).returnCodes) == Codes(a.returnCodes)
  {
    var codes := Codes(a.returnCodes);
    WireCodesOfEncoding(codes);
    assert SubAckBody(a)[2..] == EncodeCodes(codes);
    if a.returnCodes.WireBytes? {
      WireCodesFaithful(a.returnCodes.wire);
    }
  }

  /** What is accepted prints again as the bytes that were read. */
  lemma DecodedSubAck(body: bytes)
    requires DecodeSubAck(body).Ok?
    ensures var a := DecodeSubAck(body).value;
            && Codes(a.returnCodes) != [] && Honest(a.returnCodes)
            && NormalSubAck(a) == a && SubAckBody(a) == body && SubAckLen(a) == |body|
  {
    var (_, rest) := ParseU16(body).value;
    WireCodesFaithful(rest);
  }
}
