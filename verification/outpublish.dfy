/**
 `OutPublish`: a PUBLISH formatted in place, its fixed header written last and right-justified in five reserved cells.
 */
module OutPublishes {
  import opened Bytes
  import opened Utf8
  import opened Wire
  import opened Flags
  import opened Cursors
  import opened Streams
  import opened Publishes

  /**
   A caller's formatting closure: it appends its chunks one by one, stops at the first append that fails,
   and otherwise ends with a verdict of its own.
   */
  datatype Formatter = Formatter(chunks: seq<bytes>, verdict: Option<WriteError>) {
    function Text(): bytes {
      Flatten(chunks)
    }

    /** What running it reports when `room` cells are free. */
    function Outcome(room: nat): Result<(), WriteError> {
      if |Text()| > room then Err(NotEnoughCapacity)
      else if verdict.Some? then Err(verdict.value)
      else Ok(())
    }
  }

  /** A topic closure appends strings. */
  predicate FormatsText(f: Formatter) {
    forall i :: 0 <= i < |f.chunks| ==> Valid(f.chunks[i])
  }

  lemma {:induction false} ChunksAreText(chunks: seq<bytes>)
    requires forall i :: 0 <= i < |chunks| ==> Valid(chunks[i])
    ensures Valid(Flatten(chunks))
  {
    if chunks != [] {
      ChunksAreText(chunks[1..]);
      ValidConcat(chunks[0], Flatten(chunks[1..]));
    }
  }

  method RunFormatter(f: Formatter, buf: BorrowedBuf) returns (r: Result<(), WriteError>)
    requires buf.Valid()
    modifies buf`len, buf.buffer
    ensures buf.Valid()
    ensures r == f.Outcome(buf.Capacity() - old(buf.len))
    ensures r.Ok? ==> buf.Contents() == old(buf.Contents()) + f.Text()
  {
    hide BorrowedBuf.Valid, BorrowedBuf.Contents;
    ghost var before := buf.Contents();
    ghost var done: bytes := [];
    for i := 0 to |f.chunks|
      invariant buf.Valid()
      invariant buf.Contents() == before + done
      invariant f.Text() == done + Flatten(f.chunks[i..])
    {
      ghost var rest := f.chunks[i..];
      assert rest[0] == f.chunks[i] && rest[1..] == f.chunks[i + 1..];
      assert f.Text() == done + f.chunks[i] + Flatten(f.chunks[i + 1..]);
      var _ :- buf.AddSlice(f.chunks[i]);
      done := done + f.chunks[i];
    }
    assert done == f.Text();
    if f.verdict.Some? {
      return Err(f.verdict.value);
    }
    return Ok(());
  }

  datatype OutPublish = OutPublish(dup: bool, qos: QoS, retain: bool, pkid: u16) {
    /** The packet this formats, given what the closures append. */
    function AsPublish(topic: str, payload: bytes): Publish {
      Publish(dup, qos, retain, topic, pkid, payload)
    }

    predicate HasNeededId() {
      qos == AtMostOnce || pkid != 0
    }
  }

  /** What the topic part reports when `room` cells are free. */
  function TopicOutcome(topic: Formatter, room: nat): Result<(), WriteError> {
    if room < 2 then
      Err(NotEnoughCapacity)
    else
      var _ :- topic.Outcome(room - 2);
      if |topic.Text()| > U16_MAX then Err(PayloadTooLong) else Ok(())
  }

  /** What the body reports when `room` cells are free: the first step that fails decides the error. */
  function BodyOutcome(o: OutPublish, topic: Formatter, payload: Formatter, room: nat): Result<nat, WriteError> {
    var _ :- TopicOutcome(topic, room);
    var head := 2 + |topic.Text()| + if o.qos == AtMostOnce then 0 else 2;
    if !o.HasNeededId() then
      Err(MalformedWrite)
    else if head > room then
      Err(NotEnoughCapacity)
    else
      var _ :- payload.Outcome(room - head);
      Ok(head + |payload.Text()|)
  }

  /** What in-place formatting into `size` cells reports: the remaining length on success. */
  function FormatOutcome(o: OutPublish, topic: Formatter, payload: Formatter, size: nat): Result<nat, WriteError>
    requires size >= 5
  {
    var len :- BodyOutcome(o, topic, payload, size - 5);
    if len > MAX_REMAINING then Err(PayloadTooLong) else Ok(len)
  }

  /** Success, told without the order of the steps. */
  lemma FormatsIff(o: OutPublish, topic: Formatter, payload: Formatter, size: nat)
    requires size >= 5 && Valid(topic.Text())
    ensures var p := o.AsPublish(topic.Text(), payload.Text());
            && (FormatOutcome(o, topic, payload, size).Ok? <==>
                  topic.verdict.None? && payload.verdict.None? && RepresentablePublish(p) && 5 + PublishLen(p) <= size)
            && (FormatOutcome(o, topic, payload, size).Ok? ==>
                  FormatOutcome(o, topic, payload, size).value == PublishLen(p) == |PublishBody(p)|)
  {
    hide Formatter.Text, EncodeBytes, BigEndian, Utf8.Valid;
  }

  /**
   Every outcome, in the order of the steps: room for the topic, the verdict of its closure, its length, the packet id,
   room for the rest, the verdict of the payload's closure, and the total length.
   */
  lemma FormatVerdict(o: OutPublish, topic: Formatter, payload: Formatter, size: nat)
    requires size >= 5
    ensures var head := 2 + |Flatten(topic.chunks)|;
            var len := head + (if o.qos == AtMostOnce then 0 else 2) + |Flatten(payload.chunks)|;
            FormatOutcome(o, topic, payload, size)
            == if 5 + head > size then Err(NotEnoughCapacity)
               else if topic.verdict.Some? then Err(topic.verdict.value)
               else if head > 65_537 then Err(PayloadTooLong)
               else if o.qos != AtMostOnce && o.pkid == 0 then Err(MalformedWrite)
               else if 5 + len > size then Err(NotEnoughCapacity)
               else if payload.verdict.Some? then Err(payload.verdict.value)
               else if len > 268_435_455 then Err(PayloadTooLong)
               else Ok(len)
  {
    hide Flatten;
  }

  /** Two bytes are reserved, the topic is appended, and its length is filled in afterwards. */
  method WriteTopic(topic: Formatter, buf: BorrowedBuf) returns (r: Result<(), WriteError>)
    requires buf.Valid()
    modifies buf`len, buf.buffer
    ensures buf.Valid()
    ensures r == TopicOutcome(topic, buf.Capacity() - old(buf.len))
    ensures r.Ok? ==> buf.Contents() == old(buf.Contents()) + EncodeBytes(topic.Text())
  {
    hide BorrowedBuf.Valid, BorrowedBuf.Contents, Formatter.Text, BigEndian;
    ghost var before := buf.Contents();
    var start := buf.len;
    var _ :- buf.AddSlice([0, 0]);
    var lenBefore := buf.len;
    var _ :- RunFormatter(topic, buf);
    var topicLen := buf.len - lenBefore;
    if topicLen > U16_MAX {
      return Err(PayloadTooLong);
    }
    assert buf.Contents() == before + [0, 0] + topic.Text();
    buf.PatchU16(start, topicLen);
    assert buf.Contents() == before + BigEndian(topicLen) + topic.Text();
    return Ok(());
  }

  method WriteVarHeaderAndPayload(o: OutPublish, topic: Formatter, payload: Formatter, buf: BorrowedBuf)
    returns (r: Result<nat, WriteError>)
    requires buf.Valid() && buf.len == 0 && Valid(topic.Text())
    modifies buf`len, buf.buffer
    ensures buf.Valid()
    ensures r == BodyOutcome(o, topic, payload, buf.Capacity())
    ensures r.Ok? ==> buf.Contents() == PublishBody(o.AsPublish(topic.Text(), payload.Text())) && buf.len == r.value
  {
    hide BorrowedBuf.Valid, BorrowedBuf.Contents, Formatter.Text, BigEndian, EncodeBytes, Utf8.Valid;
    var _ :- WriteTopic(topic, buf);
    assert buf.Contents() == EncodeBytes(topic.Text());
    if o.qos != AtMostOnce {
      if o.pkid == 0 {
        return Err(MalformedWrite);
      }
      var _ :- buf.AddSlice(BigEndian(o.pkid));
    }
    var _ :- RunFormatter(payload, buf);
    return Ok(buf.len);
  }

  /** The remaining length, formatted into four cells of its own. */
  method FormatRemainingLength(len: nat) returns (r: Result<bytes, WriteError>)
    ensures r == if len <= MAX_REMAINING then Ok(VarInt(len)) else Err(PayloadTooLong)
  {
    var cells := new byte[4](_ => 0);
    var w := new WriteCursor(cells, 0);
    if len <= MAX_REMAINING {
      VarIntSize(len);
    }
    var _ :- WriteRemainingLength(w, len);
    return Ok(cells[..w.BytesWritten()]);
  }

  /** Everything behind the five reserved cells. */
  method WriteBehindReserve(o: OutPublish, topic: Formatter, payload: Formatter, output: array<byte>)
    returns (r: Result<nat, WriteError>)
    requires output.Length >= 5 && Valid(topic.Text())
    modifies output
    ensures r == BodyOutcome(o, topic, payload, output.Length - 5)
    ensures r.Ok? ==> var body := PublishBody(o.AsPublish(topic.Text(), payload.Text()));
                      && r.value == |body| && 5 + |body| <= output.Length
                      && output[..] == old(output[..5]) + body + old(output[5 + |body|..])
  {
    hide BorrowedBuf.Valid, BorrowedBuf.Contents, Formatter.Text, PublishBody, BodyOutcome, Utf8.Valid;
    var buf := new BorrowedBuf(output, 5);
    r := WriteVarHeaderAndPayload(o, topic, payload, buf);
    BufLayout(buf);
    assert output[..] == output[..5] + output[5..5 + buf.len] + output[5 + buf.len..];
  }

  /** The fixed header goes right in front of the fifth cell. */
  method JustifyHeader(byte1: byte, digits: bytes, output: array<byte>)
    requires 1 <= |digits| <= 4 && output.Length >= 5
    modifies output
    ensures output[..] == old(output[..4 - |digits|]) + ([byte1] + digits) + old(output[5..])
  {
    var start := 4 - |digits|;
    output[start] := byte1;
    forall i | 0 <= i < |digits| {
      output[start + 1 + i] := digits[i];
    }
  }

  lemma Assembled(before: bytes, middle: bytes, after: bytes, head: bytes, body: bytes)
    requires 1 <= |head| <= 5 && 5 + |body| <= |before|
    requires middle == before[..5] + body + before[5 + |body|..]
    requires after == middle[..5 - |head|] + head + middle[5..]
    ensures after == before[..5 - |head|] + (head + body) + before[5 + |body|..]
    ensures after[5 - |head|..5 + |body|] == head + body
  {
    assert middle[5..] == body + before[5 + |body|..];
  }

  /**
   The result is the slice `[start, stop)` of the output that holds the packet. It is contiguous although the
   header was written last, it equals what the plain printer emits for the same fields, and no other cell changed.
   */
  method WriteOutPublish(o: OutPublish, topic: Formatter, payload: Formatter, output: array<byte>)
    returns (r: Result<(nat, nat), WriteError>)
    requires output.Length >= 5 && FormatsText(topic)
    modifies output
    ensures Valid(topic.Text())
    ensures var p := o.AsPublish(topic.Text(), payload.Text());
            && (r.Ok? <==> topic.verdict.None? && payload.verdict.None?
                           && RepresentablePublish(p) && 5 + PublishLen(p) <= output.Length)
            && (r.Ok? ==> var (start, stop) := r.value;
                          && start <= stop <= output.Length
                          && output[..] == old(output[..start]) + EncodePublish(p) + old(output[stop..])
                          && output[start..stop] == EncodePublish(p))
    ensures r.Err? ==> FormatOutcome(o, topic, payload, output.Length) == Err(r.error)
  {
    hide Formatter.Text, PublishBody, PublishLen, PublishByte1, VarInt, Utf8.Valid, BodyOutcome, RepresentablePublish;
    TextOfChunks(topic);
    ghost var p := o.AsPublish(topic.Text(), payload.Text());
    ghost var before := output[..];
    FormatsIff(o, topic, payload, output.Length);
    var len :- WriteBehindReserve(o, topic, payload, output);
    ghost var middle := output[..];
    var digits :- FormatRemainingLength(len);
    VarIntSize(len);
    var start := 4 - |digits|;
    var byte1 := PublishFlags(o.dup, o.qos, o.retain);
    JustifyHeader(byte1, digits, output);
    Assembled(before, middle, output[..], [byte1] + digits, PublishBody(p));
    assert EncodePublish(p) == [byte1] + digits + PublishBody(p);
    return Ok((start, 1 + start + |digits| + len));
  }

  lemma TextOfChunks(f: Formatter)
    requires FormatsText(f)
    ensures Valid(f.Text())
  {
    ChunksAreText(f.chunks);
  }

  lemma BufLayout(buf: BorrowedBuf)
    requires buf.Valid()
    ensures buf.buffer[buf.start..buf.start + buf.len] == buf.Contents()
    ensures buf.buffer[..buf.start] == buf.initial[..buf.start]
    ensures buf.buffer[buf.start + buf.len..] == buf.initial[buf.start + buf.len..]
  {
  }

  /**
   In-place formatting and the plain printer produce the same bytes for the same fields; the plain printer can do
   with less room, because it does not reserve five cells for a header that may take two.
   */
  lemma OutPublishNeedsMoreRoom(p: Publish, room: nat)
    requires RepresentablePublish(p)
    ensures |EncodePublish(p)| <= 5 + PublishLen(p)
    ensures 5 + PublishLen(p) <= room ==>
            PrintOutcome(PublishLen(p), |EncodePublish(p)|, room) == Ok(|EncodePublish(p)|)
    ensures |EncodePublish(p)| == 5 + PublishLen(p) <==> PublishLen(p) >= 2097152
  {
    hide VarInt, PublishByte1, EncodeBytes, Utf8.Valid;
    VarIntSize(PublishLen(p));
  }
}
