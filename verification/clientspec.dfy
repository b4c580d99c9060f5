/** The client's operations as functions of its state and of the environment's answers. */
module ClientSpec {
  import opened Bytes
  import opened Wire
  import opened Acks
  import opened Connects
  import opened Publishes
  import opened OutPublishes
  import opened Packets
  import opened Streams
  import opened Time
  import opened Transports
  import opened Buffers
  import opened ClientNotifications
  import opened Platforms
  import S = Subscribes
  import Utf8

  datatype ClientError =
    | ConnectionClosed
    | UnexpectedPacketError
    | IoError
    | ReadFailure(readError: Error)
    | WriteFailure(writeError: WriteError)

  /** The session automaton, the bytes in the receive window, and the sizes of the two buffers. */
  datatype Client = Client(tc: Transport, used: bytes, rxCapacity: nat, txCapacity: nat) {
    predicate IsDisconnected() {
      tc.state == Disconnected
    }
  }

  // ---- The environment's answers ----

  /** `write_all` accepts everything, after which the clock shows `now`, or fails. */
  datatype WriteAnswer = Wrote(now: Instant) | WriteRefused

  /** One `read_some`: some bytes, end of stream, timeout, or failure. */
  datatype ReadAnswer = Chunk(data: bytes) | Eof | TimedOut | ReadRefused

  function DataOf(answers: seq<ReadAnswer>): bytes {
    if answers == [] then []
    else (if answers[0].Chunk? then answers[0].data else []) + DataOf(answers[1..])
  }

  lemma {:induction false} DataOfSnoc(answers: seq<ReadAnswer>, last: ReadAnswer)
    ensures DataOf(answers + [last]) == DataOf(answers) + if last.Chunk? then last.data else []
  {
    if answers == [] {
      assert answers + [last] == [last];
      assert DataOf([last]) == (if last.Chunk? then last.data else []) + DataOf([]);
    } else {
      assert (answers + [last])[1..] == answers[1..] + [last];
      DataOfSnoc(answers[1..], last);
    }
  }

  /** Chunks are never empty: a read of zero bytes is the end of the stream. */
  predicate Solid(answers: seq<ReadAnswer>) {
    forall i :: 0 <= i < |answers| && answers[i].Chunk? ==> answers[i].data != []
  }

  /** No read was given a timeout, so none can have expired. */
  predicate Untimed(answers: seq<ReadAnswer>) {
    forall i :: 0 <= i < |answers| ==> !answers[i].TimedOut?
  }

  /**
   Answers an environment can give: chunks are not empty and fit the cells behind the `used` ones, and timeouts expire
   only on a client with keep-alive, which is the only one to ask for them.
   */
  predicate Possible(c: Client, used: nat, answers: seq<ReadAnswer>) {
    Solid(answers) && used + |DataOf(answers)| <= c.rxCapacity && (c.tc.keepAlive == 0 ==> Untimed(answers))
  }

  // ---- Looks at the clock and timeouts ----

  /** The clock is read once after each accepted write. */
  function ClockAfter(attempts: seq<Attempt>, answer: WriteAnswer): seq<Poll> {
    if attempts != [] && answer.Wrote? then [ClockRead(answer.now)] else []
  }

  /** Each read of `next_notification` is given the time to the next ping, by a clock read just before. */
  function TimedReads(t: Transport, nows: seq<Instant>): seq<Poll> {
    if nows == [] then []
    else
      var now := nows[|nows| - 1];
      TimedReads(t, nows[..|nows| - 1]) + [ClockRead(now), ReadCall(NextPingIn(t, now))]
  }

  /** Read `i` is given the time to the next ping by look `i` at the clock, just before it. */
  lemma {:induction false} TimedReadsAt(t: Transport, nows: seq<Instant>)
    ensures |TimedReads(t, nows)| == 2 * |nows|
    ensures forall i :: 0 <= i < |nows| ==>
              TimedReads(t, nows)[2 * i] == ClockRead(nows[i])
              && TimedReads(t, nows)[2 * i + 1] == ReadCall(NextPingIn(t, nows[i]))
  {
    if nows != [] {
      TimedReadsAt(t, nows[..|nows| - 1]);
    }
  }

  lemma TimedOnce(t: Transport, now: Instant)
    ensures TimedReads(t, [now]) == [ClockRead(now), ReadCall(NextPingIn(t, now))]
  {
    assert [now][..0] == [];
    assert TimedReads(t, [now]) == TimedReads(t, []) + [ClockRead(now), ReadCall(NextPingIn(t, now))];
  }

  /** The reads of `read_connack` are given no timeout. */
  function UntimedReads(n: nat): seq<Poll> {
    if n == 0 then [] else UntimedReads(n - 1) + [ReadCall(None)]
  }

  lemma {:induction false} UntimedReadsAt(n: nat)
    ensures |UntimedReads(n)| == n
    ensures forall i :: 0 <= i < n ==> UntimedReads(n)[i] == ReadCall(None)
  {
    if n > 0 {
      UntimedReadsAt(n - 1);
    }
  }

  // ---- Writing ----

  function AfterWrite(c: Client, answer: WriteAnswer): (Client, Result<(), ClientError>) {
    if c.IsDisconnected() then
      (c, Err(ConnectionClosed))
    else
      match answer
      case Wrote(now) => (c.(tc := Sent(c.tc, now)), Ok(()))
      case WriteRefused => (c.(tc := Closed(c.tc)), Err(IoError))
  }

  /** Nothing is handed to the transport while the client is disconnected. */
  function Attempts(c: Client, data: bytes, answer: WriteAnswer): seq<Attempt> {
    if c.IsDisconnected() then [] else [Attempt(data, answer.Wrote?)]
  }

  /** The four packets the client sends on its own have the shape their printers say. */
  lemma FixedPackets(id: u16)
    ensures Encode(PingReqPacket) == Frame(0xC0, []) && |Encode(PingReqPacket)| == 2
    ensures Encode(PubAckPacket(id)) == Frame(0x40, BigEndian(id)) && |Encode(PubAckPacket(id))| == 4
    ensures Encode(PubRecPacket(id)) == Frame(0x50, BigEndian(id)) && |Encode(PubRecPacket(id))| == 4
    ensures Encode(PubCompPacket(id)) == Frame(0x70, BigEndian(id)) && |Encode(PubCompPacket(id))| == 4
  {
    hide BigEndian;
  }

  /** A packet the client can be asked to send. */
  datatype Request =
    | Fixed(action: NotificationAction)
    | PublishRequest(flags: OutPublish, topic: Formatter, payload: Formatter)

  /** Formatting closures append strings to topics; the in-place printer needs its five cells. */
  predicate Askable(c: Client, request: Request) {
    request.PublishRequest? ==> c.txCapacity >= 5 && FormatsText(request.topic)
  }

  /** The bytes a request comes to in a transmit buffer of the given size; nothing at all for `NoAction`. */
  function RequestBytes(request: Request, txCapacity: nat): Result<bytes, WriteError>
    requires request.PublishRequest? ==> txCapacity >= 5 && FormatsText(request.topic)
  {
    match request
    case Fixed(action) =>
      var packet := ActionPacket(action);
      if packet.None? then Ok([])
      else if |Encode(packet.value)| > txCapacity then Err(NotEnoughCapacity)
      else Ok(Encode(packet.value))
    case PublishRequest(flags, topic, payload) =>
      TextOfChunks(topic);
      var _ :- FormatOutcome(flags, topic, payload, txCapacity);
      Ok(EncodePublish(flags.AsPublish(topic.Text(), payload.Text())))
  }

  function AfterSend(c: Client, request: Request, answer: WriteAnswer): (Client, Result<(), ClientError>)
    requires Askable(c, request)
  {
    if request == Fixed(NoAction) then
      (c, Ok(()))
    else
      match RequestBytes(request, c.txCapacity)
      case Err(e) => (c, Err(WriteFailure(e)))
      case Ok(_) => AfterWrite(c, answer)
  }

  function SendAttempts(c: Client, request: Request, answer: WriteAnswer): seq<Attempt>
    requires Askable(c, request)
  {
    if request == Fixed(NoAction) then
      []
    else
      match RequestBytes(request, c.txCapacity)
      case Err(_) => []
      case Ok(data) => Attempts(c, data, answer)
  }

  // ---- Reading ----

  function AfterRead(c: Client, answer: ReadAnswer): (Client, Result<Option<nat>, ClientError>) {
    match answer
    case TimedOut => (c, Ok(None))
    case Chunk(data) => (c.(used := c.used + data), Ok(Some(|data|)))
    case Eof => (c.(tc := Closed(c.tc)), Err(ConnectionClosed))
    case ReadRefused => (c.(tc := Closed(c.tc)), Err(IoError))
  }

  /** Hands the receive window to the session automaton and reports what it says. */
  function Deliver(c: Client): (Client, Result<ClientNotification, ClientError>) {
    var (tc, reply) := Received(c.tc, c.used);
    var after := c.(tc := tc);
    match reply
    case Err(e) => (after, Err(ReadFailure(e)))
    case Ok(None) => (after, Err(ReadFailure(MalformedPacket)))
    case Ok(Some((note, taken))) => (after, Ok(TransportNotification(note, taken)))
  }

  /**
   How far a list of answers takes an operation: it still waits for the next one, it has returned with the last one,
   or it had returned before.
   */
  datatype Progress<T> = Waiting | Done(result: T) | Surplus

  /** An operation that returns once `rest` is all that is left of the answers. */
  function Return<T>(result: T, rest: seq<ReadAnswer>): Progress<T> {
    if rest == [] then Done(result) else Surplus
  }

  /** `next_notification` */
  function AfterNext(c: Client, answers: seq<ReadAnswer>): (Client, Progress<Result<ClientNotification, ClientError>>) {
    if c.IsDisconnected() then (c, Return(Err(ConnectionClosed), answers)) else NextLoop(c, answers)
  }

  function NextLoop(c: Client, answers: seq<ReadAnswer>): (Client, Progress<Result<ClientNotification, ClientError>>)
    decreases |answers|
  {
    if answers == [] then
      (c, Waiting)
    else
      var (after, r) := AfterRead(c, answers[0]);
      match r
      case Err(e) => (after, Return(Err(e), answers[1..]))
      case Ok(None) => (after, Return(Ok(SendPing), answers[1..]))
      case Ok(Some(_)) =>
        if Check(after.used, after.rxCapacity).Ok? then
          var (last, reply) := Deliver(after);
          (last, Return(reply, answers[1..]))
        else
          NextLoop(after, answers[1..])
  }

  /** `read_connack`: the CONNACK and the number of bytes it took. It asks for no timeout, so none is answered. */
  function ConnackLoop(c: Client, answers: seq<ReadAnswer>): (Client, Progress<Result<(ConnAck, nat), ClientError>>)
    decreases |answers|
  {
    if answers == [] then
      (c, Waiting)
    else
      var (after, r) := AfterRead(c, answers[0]);
      match r
      case Err(e) => (after, Return(Err(e), answers[1..]))
      case Ok(None) => (after, Surplus)
      case Ok(Some(_)) =>
        var (tc, reply) := Received(after.tc, after.used);
        var last := after.(tc := tc);
        match reply
        case Err(e) => (last, Return(Err(ReadFailure(e)), answers[1..]))
        case Ok(None) => ConnackLoop(last, answers[1..])
        case Ok(Some((note, taken))) =>
          if note.ConnAckNote? then
            (last.(used := DropPrefix(last.used, taken)), Return(Ok((note.connAck, taken)), answers[1..]))
          else
            (last, Return(Err(UnexpectedPacketError), answers[1..]))
  }

  /** A client that is still waiting takes the next answer from where it stands. */
  lemma {:induction false} NextLoopSnoc(c: Client, answers: seq<ReadAnswer>, last: ReadAnswer)
    requires NextLoop(c, answers).1 == Waiting
    ensures NextLoop(c, answers + [last]) == NextLoop(NextLoop(c, answers).0, [last])
    decreases |answers|
  {
    hide Deliver, Check;
    if answers == [] {
      assert answers + [last] == [last];
    } else {
      assert (answers + [last])[1..] == answers[1..] + [last];
      NextLoopSnoc(AfterRead(c, answers[0]).0, answers[1..], last);
    }
  }

  lemma {:induction false} ConnackLoopSnoc(c: Client, answers: seq<ReadAnswer>, last: ReadAnswer)
    requires ConnackLoop(c, answers).1 == Waiting
    ensures ConnackLoop(c, answers + [last]) == ConnackLoop(ConnackLoop(c, answers).0, [last])
    decreases |answers|
  {
    hide Received, DropPrefix;
    if answers == [] {
      assert answers + [last] == [last];
    } else {
      assert (answers + [last])[1..] == answers[1..] + [last];
      var after := AfterRead(c, answers[0]).0;
      ConnackLoopSnoc(after.(tc := Received(after.tc, after.used).0), answers[1..], last);
    }
  }

  function ConnectOutcome(c: Client, options: ConnectOptions): Result<nat, WriteError> {
    PrintOutcome(ConnectLen(options.AsConnect()), |EncodeConnect(options.AsConnect())|, c.txCapacity)
  }

  /** A client whose transport has just been opened. */
  function Restarted(c: Client, options: ConnectOptions): Client {
    c.(tc := Opened(c.tc, options), used := [])
  }

  function AfterConnect(c: Client, options: ConnectOptions, wrote: WriteAnswer, answers: seq<ReadAnswer>)
    : (Client, Progress<Result<(ConnAck, nat), ClientError>>)
  {
    var c0 := Restarted(c, options);
    match ConnectOutcome(c, options)
    case Err(e) => (c0, Return(Err(WriteFailure(e)), answers))
    case Ok(_) =>
      var (c1, sent) := AfterWrite(c0, wrote);
      if sent.Err? then
        (c1, Return(Err(sent.error), answers))
      else
        var (c2, reply) := ConnackLoop(c1, answers);
        if Connacked(reply) && reply.result.value.0.code != Accepted then
          (c2.(tc := Closed(c2.tc)), reply)
        else
          (c2, reply)
  }

  predicate Connacked(reply: Progress<Result<(ConnAck, nat), ClientError>>) {
    reply.Done? && reply.result.Ok?
  }

  function ConnectPolls(c: Client, options: ConnectOptions, wrote: WriteAnswer, count: nat): seq<Poll> {
    ClockAfter(ConnectAttempts(c, options, wrote), wrote) + UntimedReads(count)
  }

  function ConnectAttempts(c: Client, options: ConnectOptions, wrote: WriteAnswer): seq<Attempt> {
    if ConnectOutcome(c, options).Err? then []
    else Attempts(Restarted(c, options), EncodeConnect(options.AsConnect()), wrote)
  }

  // ---- The subscription sent after connecting ----

  datatype SubscribeOp =
    | AddText(topic: Utf8.str, qos: QoS)
    | AddJoined(parts: seq<Utf8.str>, separator: Utf8.str, qos: QoS)

  /** A caller's subscription closure, with the same discipline as a topic closure. */
  datatype Subscription = Subscription(ops: seq<SubscribeOp>, verdict: Option<WriteError>)

  function FilterOf(op: SubscribeOp): S.SubscribeFilter {
    match op
    case AddText(topic, qos) => S.SubscribeFilter(topic, qos)
    case AddJoined(parts, separator, qos) =>
      S.JoinIsText(parts, separator);
      S.SubscribeFilter(S.Join(parts, separator), qos)
  }

  function FiltersOf(ops: seq<SubscribeOp>): seq<S.SubscribeFilter> {
    if ops == [] then [] else [FilterOf(ops[0])] + FiltersOf(ops[1..])
  }

  /** What one operation reports when `room` cells are free. */
  function OpOutcome(op: SubscribeOp, room: nat): (r: Result<(), WriteError>)
    ensures r.Ok? <==> |FilterOf(op).path| <= U16_MAX && FilterOf(op).Len() <= room
  {
    var f := FilterOf(op);
    match op
    case AddText(_, _) =>
      if |f.path| > U16_MAX then Err(PayloadTooLong) else if f.Len() > room then Err(NotEnoughCapacity) else Ok(())
    case AddJoined(_, _, _) =>
      if |f.path| <= U16_MAX && f.Len() <= room then Ok(())
      else if 2 + |f.path| <= room && |f.path| > U16_MAX then Err(PayloadTooLong)
      else Err(NotEnoughCapacity)
  }

  /**
   `add_separated` adds the very filter that `add_str` of the joined text adds, with the same success in every room. The
   errors differ only for a text that is too long and does not fit either.
   */
  lemma SeparatedIsJoined(parts: seq<Utf8.str>, separator: Utf8.str, qos: QoS, room: nat)
    ensures Utf8.Valid(S.Join(parts, separator))
    ensures var joined, plain := AddJoined(parts, separator, qos), AddText(S.Join(parts, separator), qos);
            && FilterOf(joined) == FilterOf(plain)
            && (OpOutcome(joined, room).Ok? <==> OpOutcome(plain, room).Ok?)
            && (OpOutcome(joined, room) == OpOutcome(plain, room) <==>
                  !(|S.Join(parts, separator)| > U16_MAX && 2 + |S.Join(parts, separator)| > room))
  {
    hide Utf8.Valid, S.Join;
    S.JoinIsText(parts, separator);
  }

  function OpsOutcome(ops: seq<SubscribeOp>, room: nat): Result<(), WriteError> {
    if ops == [] then
      Ok(())
    else
      var _ :- OpOutcome(ops[0], room);
      OpsOutcome(ops[1..], room - FilterOf(ops[0]).Len())
  }

  /** The same operations with every text joined beforehand. */
  function JoinedBefore(ops: seq<SubscribeOp>): seq<SubscribeOp> {
    if ops == [] then []
    else [AddText(FilterOf(ops[0]).path, FilterOf(ops[0]).qos)] + JoinedBefore(ops[1..])
  }

  /** Formatting in place is no different from joining first: same filters, and success in the same rooms. */
  lemma {:induction false} JoiningFirstIsTheSame(ops: seq<SubscribeOp>, room: nat)
    ensures FiltersOf(JoinedBefore(ops)) == FiltersOf(ops)
    ensures OpsOutcome(JoinedBefore(ops), room).Ok? <==> OpsOutcome(ops, room).Ok?
    decreases |ops|
  {
    hide Utf8.Valid, S.Join, S.SubscribeFilter.Len;
    if ops != [] {
      var first := AddText(FilterOf(ops[0]).path, FilterOf(ops[0]).qos);
      assert FilterOf(first) == FilterOf(ops[0]);
      assert JoinedBefore(ops)[1..] == JoinedBefore(ops[1..]);
      if OpOutcome(ops[0], room).Ok? {
        JoiningFirstIsTheSame(ops[1..], room - FilterOf(ops[0]).Len());
      } else {
        JoiningFirstIsTheSame(ops[1..], 0);
      }
    }
  }

  /** The packet a subscription stands for: packet id 1 and the filters in order. */
  function SubscriptionPacket(s: Subscription): S.Subscribe {
    S.Subscribe(1, S.Slice(FiltersOf(s.ops)))
  }

  function SubscriptionOutcome(s: Subscription, txCapacity: nat): Result<(), WriteError> {
    var _ :- OpsOutcome(s.ops, txCapacity);
    if s.verdict.Some? then Err(s.verdict.value)
    else if S.SubscribeLen(SubscriptionPacket(s)) > MAX_REMAINING then Err(PayloadTooLong)
    else Ok(())
  }

  /** Fixed header, remaining length and packet id: the first of the two writes. */
  function SubscribeHeader(s: Subscription): bytes {
    [0x82] + VarInt(S.SubscribeLen(SubscriptionPacket(s))) + [0, 1]
  }

  /** The filters: the second write. */
  function SubscribePayload(s: Subscription): bytes {
    S.EncodeFilters(FiltersOf(s.ops))
  }

  function AfterSubscribe(c: Client, s: Subscription, first: WriteAnswer, second: WriteAnswer)
    : (Client, Result<(), ClientError>)
  {
    match SubscriptionOutcome(s, c.txCapacity)
    case Err(e) => (c, Err(WriteFailure(e)))
    case Ok(_) =>
      var (c1, r1) := AfterWrite(c, first);
      if r1.Err? then (c1, r1) else AfterWrite(c1, second)
  }

  function SubscribeAttempts(c: Client, s: Subscription, first: WriteAnswer, second: WriteAnswer): seq<Attempt> {
    if SubscriptionOutcome(s, c.txCapacity).Err? then []
    else
      Attempts(c, SubscribeHeader(s), first)
      + (if first.Wrote? then Attempts(AfterWrite(c, first).0, SubscribePayload(s), second) else [])
  }

  function SubscribePolls(c: Client, s: Subscription, first: WriteAnswer, second: WriteAnswer): seq<Poll> {
    var attempts := SubscribeAttempts(c, s, first, second);
    ClockAfter(attempts, first) + if attempts == [] then [] else ClockAfter(attempts[1..], second)
  }

  function AfterConnectSubscribe(c: Client, options: ConnectOptions, wrote: WriteAnswer, answers: seq<ReadAnswer>,
                                 s: Subscription, first: WriteAnswer, second: WriteAnswer)
    : (Client, Progress<Result<(ConnAck, nat), ClientError>>)
  {
    var (c1, reply) := AfterConnect(c, options, wrote, answers);
    if Connacked(reply) && reply.result.value.0.code == Accepted then
      var (c2, sent) := AfterSubscribe(c1, s, first, second);
      (c2, if sent.Err? then Done(Err(sent.error)) else reply)
    else
      (c1, reply)
  }

  function ConnectSubscribeAttempts(c: Client, options: ConnectOptions, wrote: WriteAnswer, answers: seq<ReadAnswer>,
                                    s: Subscription, first: WriteAnswer, second: WriteAnswer): seq<Attempt> {
    var (c1, reply) := AfterConnect(c, options, wrote, answers);
    ConnectAttempts(c, options, wrote)
    + if Connacked(reply) && reply.result.value.0.code == Accepted then SubscribeAttempts(c1, s, first, second)
      else []
  }

  lemma BigEndianOne()
    ensures BigEndian(1) == [0, 1]
  {
  }

  /** The two writes together are exactly the packet the plain printer emits. */
  lemma SubscribeInTwoParts(s: Subscription)
    ensures SubscribeHeader(s) + SubscribePayload(s) == Encode(SubscribePacket(SubscriptionPacket(s)))
  {
    BigEndianOne();
    hide S.EncodeFilters, S.FiltersLen, FiltersOf, VarInt, BigEndian, Utf8.Valid;
  }

  /** All operations succeed exactly if every path is short enough to have a length and all filters fit together. */
  lemma {:induction false} OpsOutcomeIff(ops: seq<SubscribeOp>, room: nat)
    ensures OpsOutcome(ops, room).Ok? <==> S.ShortPaths(FiltersOf(ops)) && |S.EncodeFilters(FiltersOf(ops))| <= room
    decreases |ops|
  {
    hide FilterOf, S.EncodeFilter, S.SubscribeFilter.Len, Utf8.Valid;
    if ops != [] {
      var f, rest := FilterOf(ops[0]), FiltersOf(ops[1..]);
      S.EncodeFiltersCons(f, rest);
      assert FiltersOf(ops) == [f] + rest;
      assert forall i :: 0 <= i < |rest| ==> FiltersOf(ops)[i + 1] == rest[i];
      if OpOutcome(ops[0], room).Ok? {
        OpsOutcomeIff(ops[1..], room - f.Len());
      }
    }
  }

  /**
   A subscription can be sent exactly if its paths are at most 65535 bytes long, its filters fit the transmit buffer,
   its closure ends without an error of its own, and the length takes no more than four digits; otherwise nothing is
   sent, and the errors take precedence in this order.
   */
  lemma SubscriptionVerdict(s: Subscription, room: nat)
    ensures var filters := FiltersOf(s.ops);
            var size := |S.EncodeFilters(filters)|;
            if (exists i :: 0 <= i < |filters| && |filters[i].path| > 65_535) || size > room then
              OpsOutcome(s.ops, room).Err? && SubscriptionOutcome(s, room) == OpsOutcome(s.ops, room)
            else
              SubscriptionOutcome(s, room)
              == if s.verdict.Some? then Err(s.verdict.value)
                 else if 2 + size > 268_435_455 then Err(PayloadTooLong)
                 else Ok(())
  {
    hide OpsOutcome, FiltersOf, S.EncodeFilters, Utf8.Valid;
    OpsOutcomeIff(s.ops, room);
    DenotesItself(FiltersOf(s.ops));
  }

  lemma DenotesItself(fs: seq<S.SubscribeFilter>)
    ensures S.Filters(S.Slice(fs)) == fs
  {
  }

  lemma {:induction false} AcceptedOpsAreShort(ops: seq<SubscribeOp>, room: nat)
    requires OpsOutcome(ops, room).Ok?
    ensures S.ShortPaths(FiltersOf(ops)) && (FiltersOf(ops) == [] <==> ops == [])
    decreases |ops|
  {
    hide FilterOf, S.SubscribeFilter.Len, Utf8.Valid;
    if ops != [] {
      AcceptedOpsAreShort(ops[1..], room - FilterOf(ops[0]).Len());
    }
  }

  /** What was sent reads back as that packet exactly if at least one filter was added. */
  lemma SubscriptionReadsBackIff(s: Subscription, txCapacity: nat)
    requires SubscriptionOutcome(s, txCapacity).Ok?
    ensures RoundTrips(SubscribePacket(SubscriptionPacket(s))) <==> s.ops != []
  {
    hide RoundTrips, OpsOutcome, S.SubscribeLen;
    AcceptedOpsAreShort(s.ops, txCapacity);
    RoundTripIff(SubscribePacket(SubscriptionPacket(s)));
  }

  // ---- Completing ----

  function AfterComplete(c: Client, completion: NotificationCompletion, answer: WriteAnswer)
    : (Client, Result<(), ClientError>)
  {
    AfterSend(c.(used := DropPrefix(c.used, completion.taken)), Fixed(completion.action), answer)
  }

  function CompleteAttempts(c: Client, completion: NotificationCompletion, answer: WriteAnswer): seq<Attempt> {
    SendAttempts(c, Fixed(completion.action), answer)
  }
}
