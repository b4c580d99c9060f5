/** The client object: a session automaton, a transmit buffer and a receive window, run against an environment. */
module NanoClients {
  import opened Bytes
  import opened Wire
  import opened Acks
  import opened Connects
  import opened Publishes
  import opened OutPublishes
  import opened Packets
  import opened Cursors
  import opened Streams
  import opened Time
  import opened Transports
  import opened Buffers
  import opened ClientNotifications
  import opened Platforms
  import opened ClientSpec
  import S = Subscribes
  import Utf8

  class NanoClient {
    const tc: TransportClient
    const txBuffer: array<byte>
    const rx: Buffer

    ghost predicate Valid()
      reads this, rx
    {
      rx.Valid() && txBuffer != rx.buffer
    }

    ghost function View(): (c: Client)
      reads tc, rx, rx.buffer
      requires rx.Valid()
    {
      Client(tc.View(), rx.Used(), rx.buffer.Length, txBuffer.Length)
    }

    constructor (txBuffer: array<byte>, rxBuffer: array<byte>)
      requires txBuffer != rxBuffer
      ensures Valid() && fresh(tc) && fresh(rx) && this.txBuffer == txBuffer && rx.buffer == rxBuffer
      ensures View() == Client(Transport(0, Disconnected, rxBuffer.Length, EPOCH), [], rxBuffer.Length, txBuffer.Length)
    {
      tc := new TransportClient(rxBuffer.Length);
      this.txBuffer := txBuffer;
      rx := new Buffer(rxBuffer);
    }

    // ---- Writing ----

    method WriteBuffer(platform: Platform, data: bytes) returns (r: Result<(), ClientError>, ghost answer: WriteAnswer)
      requires Valid()
      modifies tc, platform
      ensures Valid() && (View(), r) == AfterWrite(old(View()), answer)
      ensures platform.log == old(platform.log) + Attempts(old(View()), data, answer)
      ensures platform.polls == old(platform.polls) + ClockAfter(Attempts(old(View()), data, answer), answer)
      ensures platform.received == old(platform.received)
    {
      answer := WriteRefused;
      var closed := tc.IsDisconnected();
      if closed {
        return Err(ConnectionClosed), answer;
      }
      var ok := platform.WriteAll(data);
      if ok {
        var now := platform.Now();
        answer := Wrote(now);
        tc.OnPacketSent(now);
        return Ok(()), answer;
      }
      tc.OnTransportClosed();
      return Err(IoError), answer;
    }

    /** Prints the packet an action stands for into the transmit buffer. */
    method PrintFixed(action: NotificationAction) returns (r: Result<nat, WriteError>)
      requires Valid() && action != NoAction
      modifies txBuffer
      ensures var spec := RequestBytes(Fixed(action), txBuffer.Length);
              match spec
              case Ok(data) => r == Ok(|data|) && |data| <= txBuffer.Length && txBuffer[..|data|] == data
              case Err(e) => r == Err(e)
    {
      hide Encode, FillsFront, Frame;
      match action {
        case SendPingReq =>
          FixedPackets(0);
          r := WriteEmpty(0xC0, txBuffer);
        case SendPubAck(id) =>
          FixedPackets(id);
          r := WriteId(0x40, id, txBuffer);
        case SendPubRec(id) =>
          FixedPackets(id);
          r := WriteId(0x50, id, txBuffer);
        case SendPubComp(id) =>
          FixedPackets(id);
          r := WriteId(0x70, id, txBuffer);
      }
      if r.Ok? {
        FrontHolds(Encode(ActionPacket(action).value), old(txBuffer[..]), txBuffer[..]);
        assert txBuffer[..r.value] == txBuffer[..][..r.value];
      }
    }

    /** `send_ping_request`, `send_pub_ack`, `send_pub_rec` and `send_pub_comp`. */
    method SendFixed(platform: Platform, action: NotificationAction)
      returns (r: Result<(), ClientError>, ghost answer: WriteAnswer)
      requires Valid() && action != NoAction
      modifies tc, txBuffer, platform
      ensures Valid() && (View(), r) == AfterSend(old(View()), Fixed(action), answer)
      ensures platform.log == old(platform.log) + SendAttempts(old(View()), Fixed(action), answer)
      ensures platform.polls
              == old(platform.polls) + ClockAfter(SendAttempts(old(View()), Fixed(action), answer), answer)
      ensures platform.received == old(platform.received)
    {
      hide RequestBytes;
      answer := WriteRefused;
      var size := PrintFixed(action);
      if size.Err? {
        return Err(WriteFailure(size.error)), answer;
      }
      r, answer := WriteBuffer(platform, txBuffer[..size.value]);
    }

    method SendPublish(platform: Platform, flags: OutPublish, topic: Formatter, payload: Formatter)
      returns (r: Result<(), ClientError>, ghost answer: WriteAnswer)
      requires Valid() && txBuffer.Length >= 5 && FormatsText(topic)
      modifies tc, txBuffer, platform
      ensures Valid() && (View(), r) == AfterSend(old(View()), PublishRequest(flags, topic, payload), answer)
      ensures platform.log
              == old(platform.log) + SendAttempts(old(View()), PublishRequest(flags, topic, payload), answer)
      ensures platform.polls
              == old(platform.polls)
                 + ClockAfter(SendAttempts(old(View()), PublishRequest(flags, topic, payload), answer), answer)
      ensures platform.received == old(platform.received)
    {
      hide FormatOutcome, EncodePublish, Formatter.Text, RepresentablePublish, PublishLen;
      answer := WriteRefused;
      var slice := WriteOutPublish(flags, topic, payload, txBuffer);
      FormatsIff(flags, topic, payload, txBuffer.Length);
      if slice.Err? {
        return Err(WriteFailure(slice.error)), answer;
      }
      r, answer := WriteBuffer(platform, txBuffer[slice.value.0..slice.value.1]);
    }

    // ---- Reading ----

    method ReadSomeWithTimeout(platform: Platform, timeout: Option<nat>)
      returns (r: Result<Option<nat>, ClientError>, ghost answer: ReadAnswer)
      requires Valid()
      modifies tc, rx, rx.buffer, platform
      ensures Valid() && (View(), r) == AfterRead(old(View()), answer)
      ensures answer.TimedOut? ==> timeout.Some?
      ensures Solid([answer]) && platform.received == old(platform.received) + DataOf([answer])
      ensures rx.Used() == old(rx.Used()) + DataOf([answer])
      ensures platform.log == old(platform.log) && platform.polls == old(platform.polls) + [ReadCall(timeout)]
    {
      ghost var before := rx.Used();
      var read := platform.ReadSome(rx.buffer, rx.used, timeout);
      assert rx.Used() == before;
      match read {
        case ReadTimedOut =>
          return Ok(None), TimedOut;
        case ReadError =>
          tc.OnTransportClosed();
          return Err(IoError), ReadRefused;
        case ReadBytes(n) =>
          if n == 0 {
            tc.OnTransportClosed();
            return Err(ConnectionClosed), Eof;
          }
          ghost var data := rx.buffer[rx.used..rx.used + n];
          rx.Advance(n);
          return Ok(Some(n)), Chunk(data);
      }
    }

    /** Hands the window to the session automaton. */
    method DeliverWindow() returns (r: Result<ClientNotification, ClientError>)
      requires Valid()
      modifies tc
      ensures Valid() && (View(), r) == Deliver(old(View())) && r != Ok(SendPing)
    {
      hide Received;
      var window := rx.UsedSlice();
      var reply := tc.OnBytesReceived(window);
      match reply {
        case Err(e) => return Err(ReadFailure(e));
        case Ok(None) => return Err(ReadFailure(MalformedPacket));
        case Ok(Some((note, taken))) => return Ok(TransportNotification(note, taken));
      }
    }

    /**
     Reads until the window starts with a complete packet. Each round takes at least one byte of room. The timeout of
     each read is the time to the next ping, by the clock as it was read just before; so without keep-alive there is
     none, and no ping is asked for.
     */
    method NextNotification(platform: Platform)
      returns (r: Result<ClientNotification, ClientError>, ghost answers: seq<ReadAnswer>, ghost nows: seq<Instant>)
      requires Valid()
      modifies tc, rx, rx.buffer, platform
      ensures Valid() && (View(), Done(r)) == AfterNext(old(View()), answers)
      ensures Possible(old(View()), |old(View()).used|, answers)
              && platform.received == old(platform.received) + DataOf(answers)
      ensures platform.log == old(platform.log)
      ensures |nows| == |answers| && platform.polls == old(platform.polls) + TimedReads(old(View()).tc, nows)
      ensures r == Ok(SendPing) ==> old(View()).tc.keepAlive > 0
    {
      hide Deliver, Check, DataOf, Solid, Untimed, TimedReads;
      answers, nows := [], [];
      NoData();
      NoReads(tc.View());
      var closed := tc.IsDisconnected();
      if closed {
        return Err(ConnectionClosed), answers, nows;
      }
      while true
        invariant Valid() && rx.used <= rx.Capacity()
        invariant rx.Used() == old(rx.Used()) + DataOf(answers)
        invariant Solid(answers) && platform.received == old(platform.received) + DataOf(answers)
        invariant platform.log == old(platform.log)
        invariant NextLoop(old(View()), answers) == (View(), Waiting)
        invariant tc.View() == old(tc.View()) && (old(View()).tc.keepAlive == 0 ==> Untimed(answers))
        invariant |nows| == |answers| && platform.polls == old(platform.polls) + TimedReads(old(View()).tc, nows)
        decreases rx.Capacity() - rx.used
      {
        var now := platform.Now();
        var nextPing := tc.PingIn(now);
        var read;
        ghost var answer;
        ghost var before := View();
        read, answer := ReadSomeWithTimeout(platform, nextPing);
        NextLoopSnoc(old(View()), answers, answer);
        OneMore(answers, answer);
        OneMoreRead(old(View()).tc, nows, now);
        nows := nows + [now];
        answers := answers + [answer];
        assert NextLoop(old(View()), answers) == NextLoop(before, [answer]);
        if read.Err? {
          return Err(read.error), answers, nows;
        }
        if read.value == None {
          return Ok(SendPing), answers, nows;
        }
        var window := rx.UsedSlice();
        if Check(window, rx.Capacity()).Ok? {
          r := DeliverWindow();
          return r, answers, nows;
        }
        assert NextLoop(View(), []) == (View(), Waiting);
      }
    }

    /** `read_connack`: no timeout is given, so none can be reported. */
    method ReadConnack(platform: Platform)
      returns (r: Result<ConnAck, ClientError>, ghost answers: seq<ReadAnswer>, ghost taken: nat)
      requires Valid()
      modifies tc, rx, rx.buffer, platform
      ensures Valid()
      ensures (View(), Done(if r.Ok? then Ok((r.value, taken)) else Err(r.error))) == ConnackLoop(old(View()), answers)
      ensures Possible(old(View()), |old(View()).used|, answers)
              && platform.received == old(platform.received) + DataOf(answers)
      ensures platform.log == old(platform.log)
      ensures Untimed(answers) && platform.polls == old(platform.polls) + UntimedReads(|answers|)
    {
      hide Received, DataOf, Solid, Untimed;
      answers, taken := [], 0;
      NoData();
      while true
        invariant Valid() && rx.used <= rx.Capacity()
        invariant rx.Used() == old(rx.Used()) + DataOf(answers)
        invariant Solid(answers) && platform.received == old(platform.received) + DataOf(answers)
        invariant platform.log == old(platform.log)
        invariant ConnackLoop(old(View()), answers) == (View(), Waiting)
        invariant Untimed(answers) && platform.polls == old(platform.polls) + UntimedReads(|answers|)
        decreases rx.Capacity() - rx.used
      {
        var read;
        ghost var answer;
        ghost var before := View();
        read, answer := ReadSomeWithTimeout(platform, None);
        ConnackLoopSnoc(old(View()), answers, answer);
        OneMore(answers, answer);
        answers := answers + [answer];
        assert ConnackLoop(old(View()), answers) == ConnackLoop(before, [answer]);
        if read.Err? {
          return Err(read.error), answers, taken;
        }
        assert read.value.Some?;
        var window := rx.UsedSlice();
        var reply := tc.OnBytesReceived(window);
        match reply {
          case Err(e) =>
            return Err(ReadFailure(e)), answers, taken;
          case Ok(None) =>
            assert ConnackLoop(View(), []) == (View(), Waiting);
          case Ok(Some((note, n))) =>
            if !note.ConnAckNote? {
              return Err(UnexpectedPacketError), answers, taken;
            }
            rx.RemovePrefix(n);
            taken := n;
            return Ok(note.connAck), answers, taken;
        }
      }
    }

    // ---- The public operations ----

    /** The first half of `connect`: the automaton is opened, the window emptied, and the CONNECT printed and sent. */
    method SendConnect(platform: Platform, options: ConnectOptions)
      returns (r: Result<(), ClientError>, ghost wrote: WriteAnswer)
      requires Valid()
      modifies tc, txBuffer, rx, platform
      ensures Valid()
      ensures var c0 := Restarted(old(View()), options);
              match ConnectOutcome(old(View()), options)
              case Err(e) => View() == c0 && r == Err(WriteFailure(e))
              case Ok(_) => (View(), r) == AfterWrite(c0, wrote)
      ensures platform.log == old(platform.log) + ConnectAttempts(old(View()), options, wrote)
      ensures platform.polls == old(platform.polls) + ClockAfter(ConnectAttempts(old(View()), options, wrote), wrote)
      ensures platform.received == old(platform.received)
    {
      hide EncodeConnect, ConnectLen, Opened;
      wrote := WriteRefused;
      tc.OnTransportOpened(options);
      rx.Reset();
      var size := WriteConnect(options.AsConnect(), txBuffer);
      if size.Err? {
        return Err(WriteFailure(size.error)), wrote;
      }
      FrontHolds(EncodeConnect(options.AsConnect()), old(txBuffer[..]), txBuffer[..]);
      assert txBuffer[..size.value] == txBuffer[..][..size.value];
      r, wrote := WriteBuffer(platform, txBuffer[..size.value]);
    }

    method Connect(platform: Platform, options: ConnectOptions)
      returns (r: Result<ConnAck, ClientError>, ghost wrote: WriteAnswer, ghost answers: seq<ReadAnswer>,
               ghost taken: nat)
      requires Valid()
      modifies tc, txBuffer, rx, rx.buffer, platform
      ensures Valid()
      ensures (View(), Done(if r.Ok? then Ok((r.value, taken)) else Err(r.error)))
              == AfterConnect(old(View()), options, wrote, answers)
      ensures Possible(old(View()), 0, answers) && platform.received == old(platform.received) + DataOf(answers)
      ensures platform.log == old(platform.log) + ConnectAttempts(old(View()), options, wrote)
      ensures platform.polls == old(platform.polls) + ConnectPolls(old(View()), options, wrote, |answers|)
      ensures Untimed(answers)
    {
      hide ConnackLoop, ConnectAttempts, ConnectOutcome, ClockAfter, DataOf, Solid, Untimed, UntimedReads, Opened;
      answers, taken := [], 0;
      NoData();
      NoReads(tc.View());
      var sent;
      sent, wrote := SendConnect(platform, options);
      if sent.Err? {
        return Err(sent.error), wrote, answers, taken;
      }
      r, answers, taken := ReadConnack(platform);
      if r.Ok? && r.value.code != Accepted {
        tc.OnTransportClosed();
      }
    }

    method CompleteNotification(platform: Platform, completion: NotificationCompletion)
      returns (r: Result<(), ClientError>, ghost answer: WriteAnswer)
      requires Valid()
      modifies tc, txBuffer, rx, rx.buffer, platform
      ensures Valid() && (View(), r) == AfterComplete(old(View()), completion, answer)
      ensures platform.log == old(platform.log) + CompleteAttempts(old(View()), completion, answer)
      ensures platform.polls
              == old(platform.polls) + ClockAfter(CompleteAttempts(old(View()), completion, answer), answer)
      ensures platform.received == old(platform.received)
    {
      hide RequestBytes;
      answer := WriteRefused;
      if completion.taken > 0 {
        rx.RemovePrefix(completion.taken);
      }
      if completion.action == NoAction {
        return Ok(()), answer;
      }
      r, answer := SendFixed(platform, completion.action);
    }

    // ---- The initial subscription ----

    /** Runs a subscription closure on the transmit buffer. */
    method FormatSubscription(s: Subscription) returns (r: Result<nat, WriteError>)
      modifies txBuffer
      ensures r == var outcome := OpsOutcome(s.ops, txBuffer.Length);
                   if outcome.Err? then Err(outcome.error)
                   else if s.verdict.Some? then Err(s.verdict.value)
                   else Ok(|SubscribePayload(s)|)
      ensures r.Ok? ==> r.value <= txBuffer.Length && txBuffer[..r.value] == SubscribePayload(s)
    {
      hide S.EncodeFilter, FilterOf, OpOutcome, BorrowedBuf.Valid, BorrowedBuf.Contents, Utf8.Valid,
        S.SubscribeFilter.Len;
      var buf := new BorrowedBuf(txBuffer, 0);
      ghost var payload := SubscribePayload(s);
      ghost var out: bytes := [];
      for i := 0 to |s.ops|
        invariant buf.Valid() && fresh(buf) && buf.buffer == txBuffer && buf.start == 0
        invariant buf.Contents() == out
        invariant payload == out + S.EncodeFilters(FiltersOf(s.ops[i..]))
        invariant OpsOutcome(s.ops, txBuffer.Length) == OpsOutcome(s.ops[i..], txBuffer.Length - buf.len)
      {
        ghost var rest := s.ops[i..];
        assert rest[0] == s.ops[i] && rest[1..] == s.ops[i + 1..];
        ghost var f := FilterOf(s.ops[i]);
        assert FiltersOf(rest) == [f] + FiltersOf(s.ops[i + 1..]);
        assert payload == out + S.EncodeFilter(f) + S.EncodeFilters(FiltersOf(s.ops[i + 1..]));
        var _ :- RunOp(s.ops[i], buf);
        out := out + S.EncodeFilter(f);
      }
      if s.verdict.Some? {
        return Err(s.verdict.value);
      }
      BorrowedFront(buf);
      return Ok(buf.len);
    }

    /** Fixed header, remaining length and packet id 1, formatted into seven cells of their own. */
    method FormatSubscribeHeader(len: nat) returns (r: Result<bytes, WriteError>)
      ensures r == if len <= MAX_REMAINING then Ok([0x82] + VarInt(len) + [0, 1]) else Err(PayloadTooLong)
    {
      hide VarInt;
      var header := new byte[7](_ => 0);
      header[0] := 0x82;
      var w := new WriteCursor(header, 1);
      if len <= MAX_REMAINING {
        VarIntSize(len);
      }
      var lenLen :- WriteRemainingLength(w, len);
      assert header[1..1 + lenLen] == VarInt(len);
      header[lenLen + 1] := 0;
      header[lenLen + 2] := 1;
      assert header[1..1 + lenLen] == VarInt(len);
      assert header[..lenLen + 3] == [header[0]] + header[1..1 + lenLen] + [0, 1];
      return Ok(header[..lenLen + 3]);
    }

    method WriteSubscription(platform: Platform, s: Subscription)
      returns (r: Result<(), ClientError>, ghost first: WriteAnswer, ghost second: WriteAnswer)
      requires Valid()
      modifies tc, txBuffer, platform
      ensures Valid() && (View(), r) == AfterSubscribe(old(View()), s, first, second)
      ensures platform.log == old(platform.log) + SubscribeAttempts(old(View()), s, first, second)
      ensures platform.polls == old(platform.polls) + SubscribePolls(old(View()), s, first, second)
      ensures platform.received == old(platform.received)
    {
      hide OpsOutcome, VarInt, S.EncodeFilters;
      first, second := WriteRefused, WriteRefused;
      var size := FormatSubscription(s);
      if size.Err? {
        return Err(WriteFailure(size.error)), first, second;
      }
      var header := FormatSubscribeHeader(size.value + 2);
      if header.Err? {
        return Err(WriteFailure(header.error)), first, second;
      }
      r, first := WriteBuffer(platform, header.value);
      if r.Err? {
        return r, first, second;
      }
      r, second := WriteBuffer(platform, txBuffer[..size.value]);
    }

    method ConnectSubscribe(platform: Platform, options: ConnectOptions, s: Subscription)
      returns (r: Result<ConnAck, ClientError>, ghost wrote: WriteAnswer, ghost answers: seq<ReadAnswer>,
               ghost taken: nat,
               ghost first: WriteAnswer, ghost second: WriteAnswer)
      requires Valid()
      modifies tc, txBuffer, rx, rx.buffer, platform
      ensures Valid()
      ensures var (c, reply) := AfterConnectSubscribe(old(View()), options, wrote, answers, s, first, second);
              View() == c && reply == Done(if r.Ok? then Ok((r.value, taken)) else Err(r.error))
      ensures Possible(old(View()), 0, answers) && platform.received == old(platform.received) + DataOf(answers)
      ensures platform.log
              == old(platform.log) + ConnectSubscribeAttempts(old(View()), options, wrote, answers, s, first, second)
      ensures var (c1, reply) := AfterConnect(old(View()), options, wrote, answers);
              platform.polls
              == old(platform.polls) + ConnectPolls(old(View()), options, wrote, |answers|)
                 + if !Connacked(reply) || reply.result.value.0.code != Accepted then []
                   else SubscribePolls(c1, s, first, second)
    {
      hide AfterConnect, ConnectAttempts, ConnectPolls, AfterSubscribe, SubscribeAttempts, SubscribePolls, DataOf;
      first, second := WriteRefused, WriteRefused;
      r, wrote, answers, taken := Connect(platform, options);
      if r.Ok? && r.value.code == Accepted {
        var sent;
        sent, first, second := WriteSubscription(platform, s);
        if sent.Err? {
          return Err(sent.error), wrote, answers, taken, first, second;
        }
      }
    }
  }

  method RunOp(op: SubscribeOp, buf: BorrowedBuf) returns (r: Result<(), WriteError>)
    requires buf.Valid()
    modifies buf`len, buf.buffer
    ensures buf.Valid()
    ensures r == OpOutcome(op, buf.Capacity() - old(buf.len))
    ensures r.Ok? ==> buf.Contents() == old(buf.Contents()) + S.EncodeFilter(FilterOf(op))
  {
    hide BorrowedBuf.Valid, BorrowedBuf.Contents, Utf8.Valid, S.Join, EncodeBytes;
    match op {
      case AddText(topic, qos) =>
        r := S.AddStr(buf, topic, qos);
      case AddJoined(parts, separator, qos) =>
        r := S.AddSeparated(buf, parts, separator, qos);
    }
  }

  lemma BorrowedFront(buf: BorrowedBuf)
    requires buf.Valid() && buf.start == 0
    ensures buf.buffer[..buf.len] == buf.Contents()
  {
  }

  lemma NoReads(t: Transport)
    ensures TimedReads(t, []) == [] && UntimedReads(0) == []
  {
  }

  lemma OneMoreRead(t: Transport, nows: seq<Instant>, now: Instant)
    ensures TimedReads(t, nows + [now]) == TimedReads(t, nows) + [ClockRead(now), ReadCall(NextPingIn(t, now))]
  {
    assert (nows + [now])[..|nows|] == nows;
  }

  lemma NoData()
    ensures DataOf([]) == [] && Solid([]) && Untimed([])
  {
  }

  lemma OneMore(answers: seq<ReadAnswer>, last: ReadAnswer)
    requires Solid(answers) && Solid([last])
    ensures Solid(answers + [last]) && DataOf(answers + [last]) == DataOf(answers) + DataOf([last])
    ensures Untimed(answers) && !last.TimedOut? ==> Untimed(answers + [last])
  {
    DataOfSnoc(answers, last);
    assert [last][1..] == [] && [last][0] == last;
  }

  lemma FrontHolds(encoding: bytes, before: bytes, after: bytes)
    requires FillsFront(encoding, before, after)
    ensures |encoding| <= |after| && after[..|encoding|] == encoding
  {
  }
}
