/** The field readers and writers of `packetview/mod.rs`, over the cursors. */
module Streams {
  import opened Bytes
  import opened Utf8
  import opened Wire
  import opened Cursors

  method ReadU8(stream: Cursor) returns (r: Result<byte, Error>)
    modifies stream
    ensures match ParseU8(old(stream.rest))
            case Ok((b, rest)) => r == Ok(b) && stream.rest == rest
            case Err(e) => r == Err(e) && stream.rest == old(stream.rest)
  {
    if stream.rest == [] {
      return Err(MalformedPacket);
    }
    var b := stream.TakeU8();
    return Ok(b);
  }

  method ReadU16(stream: Cursor) returns (r: Result<u16, Error>)
    modifies stream
    ensures match ParseU16(old(stream.rest))
            case Ok((n, rest)) => r == Ok(n) && stream.rest == rest
            case Err(e) => r == Err(e) && stream.rest == old(stream.rest)
  {
    if |stream.rest| < 2 {
      return Err(MalformedPacket);
    }
    var n := stream.TakeU16();
    return Ok(n);
  }

  method ReadMqttBytes(stream: Cursor) returns (r: Result<bytes, Error>)
    modifies stream
    ensures match ParseBytes(old(stream.rest))
            case Ok((s, rest)) => r == Ok(s) && stream.rest == rest
            case Err(e) => r == Err(e)
  {
    var len :- ReadU16(stream);
    if len > |stream.rest| {
      return Err(MalformedPacket);
    }
    var s := stream.SplitTo(len);
    return Ok(s);
  }

  method ReadMqttString(stream: Cursor) returns (r: Result<str, Error>)
    modifies stream
    ensures match ParseString(old(stream.rest))
            case Ok((s, rest)) => r == Ok(s) && stream.rest == rest
            case Err(e) => r == Err(e)
  {
    var s :- ReadMqttBytes(stream);
    if Valid(s) {
      return Ok(s);
    }
    return Err(BadUtf8);
  }

  method WriteMqttBytes(stream: WriteCursor, data: bytes) returns (r: Result<(), WriteError>)
    requires stream.Valid()
    modifies stream`next, stream.buffer
    ensures stream.Valid()
    ensures r == if old(stream.next) + |EncodeBytes(data)| <= stream.Capacity() then Ok(()) else Err(NotEnoughCapacity)
    ensures r.Ok? ==> stream.Written() == old(stream.Written()) + EncodeBytes(data)
  {
    var _ :- stream.PutU16(TruncateU16(|data|));
    r := stream.PutSlice(data);
  }

  /** The loop of `write_remaining_length`: one base-128 digit at a time, least significant first. */
  method WriteRemainingLength(stream: WriteCursor, len: nat) returns (r: Result<nat, WriteError>)
    requires stream.Valid()
    modifies stream`next, stream.buffer
    ensures stream.Valid()
    ensures len > MAX_REMAINING ==> r == Err(PayloadTooLong) && stream.Written() == old(stream.Written())
    ensures len <= MAX_REMAINING ==>
              r == if old(stream.next) + |VarInt(len)| <= stream.Capacity() then Ok(|VarInt(len)|)
                   else Err(NotEnoughCapacity)
    ensures r.Ok? ==> stream.Written() == old(stream.Written()) + VarInt(len)
  {
    if len > MAX_REMAINING {
      return Err(PayloadTooLong);
    }
    ghost var before := stream.Written();
    var done := false;
    var x: nat := len;
    var count: nat := 0;
    ghost var digits: bytes := [];
    while !done
      invariant stream.Valid() && stream.next == old(stream.next) + count && |digits| == count
      invariant stream.Written() == before + digits
      invariant VarInt(len) == if done then digits else digits + VarInt(x)
      decreases !done, x
    {
      var digit: byte := x % 128;
      var high: nat := x / 128;
      if high > 0 {
        digit := digit + 128;
      }
      var _ :- stream.PutU8(digit);
      digits := digits + [digit];
      count := count + 1;
      x := high;
      done := x == 0;
    }
    return Ok(count);
  }

  /** What a printer reports for a packet of declared length `len` and `size` bytes, given `room` cells. */
  function PrintOutcome(len: nat, size: nat, room: nat): Result<nat, WriteError> {
    if room == 0 then Err(NotEnoughCapacity)
    else if len > MAX_REMAINING then Err(PayloadTooLong)
    else if size > room then Err(NotEnoughCapacity)
    else Ok(size)
  }

}
