/** When the client may write at all, and what every session's outgoing stream looks like. */
module ClientGating {
  import opened Bytes
  import opened Wire
  import opened Acks
  import opened Connects
  import opened Publishes
  import opened OutPublishes
  import opened Packets
  import opened Time
  import opened Transports
  import opened Buffers
  import opened ClientNotifications
  import opened Platforms
  import opened ClientSpec
  import opened Frames
  import opened ClientRuns
  import S = Subscribes

  // ---- Silence while disconnected ----

  lemma DisconnectedStep(w: World, call: Call)
    requires w.client.IsDisconnected() && Returns(w, call) && !Connecting(call)
    ensures var next := Step(w, call);
            && next.log == w.log && next.client.IsDisconnected()
            && next.options == w.options && next.client.txCapacity == w.client.txCapacity
            && next.notes == w.notes && next.heard == w.heard
  {
    hide NextLoop, RequestBytes, DataOf, DropPrefix, Front;
  }

  /**
   Nothing is handed to the transport and nothing is reported while the client is disconnected, whatever is called,
   until it connects again.
   */
  lemma {:induction false} DisconnectedIsQuiet(w: World, calls: seq<Call>)
    requires w.client.IsDisconnected() && Runs(w, calls)
    requires forall i :: 0 <= i < |calls| ==> !Connecting(calls[i])
    ensures End(w, calls).log == w.log && End(w, calls).client.IsDisconnected()
    ensures End(w, calls).notes == w.notes && End(w, calls).heard == w.heard
    decreases |calls|
  {
    hide Step, Returns;
    if calls != [] {
      DisconnectedStep(w, calls[0]);
      DisconnectedIsQuiet(Step(w, calls[0]), calls[1..]);
    }
  }

  /** The environment reported the end of the transport in answer to a read. */
  predicate ReadTrouble(answers: seq<ReadAnswer>) {
    exists i :: 0 <= i < |answers| && (answers[i].Eof? || answers[i].ReadRefused?)
  }

  lemma {:induction false} NextTrouble(c: Client, answers: seq<ReadAnswer>)
    requires NextLoop(c, answers).1.Done? && ReadTrouble(answers)
    ensures NextLoop(c, answers).0.IsDisconnected()
    decreases |answers|
  {
    hide Deliver, Check;
    var i :| 0 <= i < |answers| && (answers[i].Eof? || answers[i].ReadRefused?);
    var (after, r) := AfterRead(c, answers[0]);
    if i > 0 {
      assert answers[1..][i - 1] == answers[i];
      assert answers[1..] != [];
      NextTrouble(after, answers[1..]);
    }
  }

  lemma {:induction false} ConnackTrouble(c: Client, answers: seq<ReadAnswer>)
    requires ConnackLoop(c, answers).1.Done? && ReadTrouble(answers)
    ensures ConnackLoop(c, answers).0.IsDisconnected()
    decreases |answers|
  {
    hide Received, DropPrefix;
    var i :| 0 <= i < |answers| && (answers[i].Eof? || answers[i].ReadRefused?);
    var (after, r) := AfterRead(c, answers[0]);
    if i > 0 {
      assert answers[1..][i - 1] == answers[i];
      assert answers[1..] != [];
      ConnackTrouble(after.(tc := Received(after.tc, after.used).0), answers[1..]);
    }
  }

  /** An error of the transport during a read leaves the client disconnected. */
  lemma ReadErrorsDisconnect(c: Client, options: ConnectOptions, wrote: WriteAnswer, answers: seq<ReadAnswer>)
    requires ReadTrouble(answers)
    ensures AfterNext(c, answers).1.Done? ==> AfterNext(c, answers).0.IsDisconnected()
    ensures AfterConnect(c, options, wrote, answers).1.Done? ==>
            AfterConnect(c, options, wrote, answers).0.IsDisconnected()
  {
    hide NextLoop, ConnackLoop, ConnectOutcome;
    if !c.IsDisconnected() && NextLoop(c, answers).1.Done? {
      NextTrouble(c, answers);
    }
    var c1 := AfterWrite(Restarted(c, options), wrote).0;
    if ConnectOutcome(c, options).Ok? && wrote.Wrote? && ConnackLoop(c1, answers).1.Done? {
      ConnackTrouble(c1, answers);
    }
  }

  ghost predicate AnyRefused(attempts: seq<Attempt>) {
    exists a :: a in attempts && !a.accepted
  }

  /**
   A refused write leaves the client disconnected and is reported as such, whichever operation it belongs to. What does
   not fit is not handed over at all, and on a disconnected client neither is what does.
   */
  lemma WriteErrorsDisconnect(c: Client, request: Request, s: Subscription, first: WriteAnswer, second: WriteAnswer)
    ensures Askable(c, request) && AnyRefused(SendAttempts(c, request, first)) ==>
            AfterSend(c, request, first).0.IsDisconnected() && AfterSend(c, request, first).1 == Err(IoError)
    ensures match SubscriptionOutcome(s, c.txCapacity)
            case Err(e) =>
              && SubscribeAttempts(c, s, first, second) == []
              && AfterSubscribe(c, s, first, second) == (c, Err(WriteFailure(e)))
            case Ok(_) =>
              c.IsDisconnected() ==>
                && SubscribeAttempts(c, s, first, second) == []
                && AfterSubscribe(c, s, first, second) == (c, Err(ConnectionClosed))
    ensures AnyRefused(SubscribeAttempts(c, s, first, second)) ==>
            && AfterSubscribe(c, s, first, second).0.IsDisconnected()
            && AfterSubscribe(c, s, first, second).1 == Err(IoError)
    ensures Askable(c, request) && request != Fixed(NoAction) ==>
            match RequestBytes(request, c.txCapacity)
            case Err(e) =>
              SendAttempts(c, request, first) == [] && AfterSend(c, request, first) == (c, Err(WriteFailure(e)))
            case Ok(data) =>
              if c.IsDisconnected() then
                SendAttempts(c, request, first) == [] && AfterSend(c, request, first) == (c, Err(ConnectionClosed))
              else
                && SendAttempts(c, request, first) == [Attempt(data, first.Wrote?)]
                && (first.Wrote? ==> AfterSend(c, request, first).1 == Ok(()))
  {
    hide RequestBytes, SubscriptionOutcome, SubscribeHeader, SubscribePayload;
  }

  /**
   The same for the CONNECT. One that does not fit is reported once the transport has been opened, and is not sent.
   */
  lemma ConnectWriteErrorDisconnects(c: Client, options: ConnectOptions, wrote: WriteAnswer, answers: seq<ReadAnswer>)
    ensures AnyRefused(ConnectAttempts(c, options, wrote)) ==>
              && AfterConnect(c, options, wrote, answers).0.IsDisconnected()
              && (AfterConnect(c, options, wrote, answers).1.Done? ==>
                    AfterConnect(c, options, wrote, answers).1.result == Err(IoError))
    ensures ConnectOutcome(c, options).Err? ==>
              var (after, reply) := AfterConnect(c, options, wrote, []);
              && ConnectAttempts(c, options, wrote) == []
              && after.tc.state == TransportConnected && after.used == []
              && reply == Done(Err(WriteFailure(ConnectOutcome(c, options).error)))
  {
    hide ConnackLoop, ConnectOutcome;
  }

  // ---- The outgoing stream of a session ----

  /** One complete packet, as bytes. */
  predicate IsPacket(f: bytes) {
    IsFrame(f, MAX_REMAINING)
  }

  predicate IsConnectFrame(f: bytes) {
    f != [] && f[0] / 16 == 1
  }

  /** All accepted data, in order. */
  function SentData(log: seq<Entry>): bytes {
    if log == [] then []
    else SentData(log[..|log| - 1]) + if log[|log| - 1].attempt.accepted then log[|log| - 1].attempt.data else []
  }

  lemma {:induction false} SentDataConcat(a: seq<Entry>, b: seq<Entry>)
    ensures SentData(a + b) == SentData(a) + SentData(b)
    decreases |b|
  {
    if b == [] {
      assert a + b == a;
    } else {
      assert (a + b)[..|a + b| - 1] == a + b[..|b| - 1];
      SentDataConcat(a, b[..|b| - 1]);
    }
  }

  lemma SentOne(data: bytes, accepted: bool, cause: Cause)
    ensures SentData(Tagged([Attempt(data, accepted)], cause)) == if accepted then data else []
  {
    var entry := Entry(Attempt(data, accepted), cause);
    assert Tagged([Attempt(data, accepted)], cause) == [entry] + Tagged([], cause);
    assert [entry][..0] == [];
    assert SentData([entry]) == SentData([]) + if accepted then data else [];
  }

  lemma SentTwo(first: bytes, second: bytes, accepted: bool, cause: Cause)
    ensures SentData(Tagged([Attempt(first, true), Attempt(second, accepted)], cause))
         == first + if accepted then second else []
  {
    var attempts := [Attempt(first, true), Attempt(second, accepted)];
    assert attempts[1..] == [Attempt(second, accepted)];
    SentOne(first, true, cause);
    SentOne(second, accepted, cause);
    assert Tagged(attempts, cause) == Tagged([attempts[0]], cause) + Tagged([attempts[1]], cause);
    SentDataConcat(Tagged([attempts[0]], cause), Tagged([attempts[1]], cause));
  }

  /** The beginning of a complete packet that is not a CONNECT. */
  ghost predicate Beginning(tail: bytes) {
    exists f :: IsPacket(f) && !IsConnectFrame(f) && tail <= f
  }

  /**
   The accepted bytes since the last connect are these complete packets, with the CONNECT in front and nowhere else if
   it fits the buffer. Behind them there can be the beginning of one more packet, but only once the connection is gone.
   */
  ghost predicate SentAs(w: World, frames: seq<bytes>, tail: bytes) {
    && w.options.Some?
    && SentData(w.log) == Flatten(frames) + tail
    && (forall i :: 0 <= i < |frames| ==> IsPacket(frames[i]))
    && (forall i :: 1 <= i < |frames| ==> !IsConnectFrame(frames[i]))
    && (tail != [] ==> w.client.IsDisconnected() && Beginning(tail))
    && (if ConnectOutcome(w.client, w.options.value).Ok? then
          if frames == [] then tail == [] && w.client.IsDisconnected()
          else frames[0] == EncodeConnect(w.options.value.AsConnect())
        else
          frames != [] ==> !IsConnectFrame(frames[0]))
  }

  /** Before the first connect nothing has been handed over. */
  ghost predicate Outgoing(w: World, frames: seq<bytes>, tail: bytes) {
    if w.options.None? then w.client.IsDisconnected() && w.log == [] else SentAs(w, frames, tail)
  }

  lemma EncodedIsFrame(p: Packet)
    requires DeclaredLen(p) == |Body(p)| <= MAX_REMAINING
    ensures IsPacket(Encode(p)) && Encode(p)[0] == Byte1(p)
  {
    hide DeclaredLen, Body, Byte1, Check;
    FrameChecks(Byte1(p), Body(p), [], MAX_REMAINING);
    assert Frame(Byte1(p), Body(p)) + [] == Encode(p);
  }

  lemma RequestIsFrame(request: Request, txCapacity: nat)
    requires request.PublishRequest? ==> txCapacity >= 5 && FormatsText(request.topic)
    requires request != Fixed(NoAction) && RequestBytes(request, txCapacity).Ok?
    ensures var data := RequestBytes(request, txCapacity).value;
            IsPacket(data) && !IsConnectFrame(data)
  {
    hide IsPacket, Encode, FormatOutcome, EncodePublish, BigEndian;
    match request {
      case Fixed(action) =>
        EncodedIsFrame(ActionPacket(action).value);
      case PublishRequest(flags, topic, payload) =>
        var p := flags.AsPublish(topic.Text(), payload.Text());
        FormatsIff(flags, topic, payload, txCapacity);
        PublishRoundTrip(p);
        EncodedIsFrame(PublishPacket(p));
        SameEncoding(p);
    }
  }

  lemma SameEncoding(p: Publish)
    ensures Encode(PublishPacket(p)) == EncodePublish(p) && Byte1(PublishPacket(p)) / 16 == 3
  {
    hide VarInt, PublishBody, PublishLen;
  }

  /**
   A connected client goes on sending: one more complete packet or nothing, or, when that fails, the beginning of one.
   */
  lemma AppendFrame(w: World, next: World, frames: seq<bytes>, data: bytes, tail: bytes, entries: seq<Entry>)
    requires SentAs(w, frames, []) && !w.client.IsDisconnected()
    requires next.options == w.options && next.client.txCapacity == w.client.txCapacity && next.log == w.log + entries
    requires SentData(entries) == data + tail && (data == [] || (IsPacket(data) && !IsConnectFrame(data)))
    requires tail != [] ==> next.client.IsDisconnected() && Beginning(tail)
    ensures SentAs(next, if data == [] then frames else frames + [data], tail)
  {
    hide IsPacket, IsConnectFrame, EncodeConnect, Flatten, SentData, Beginning;
    SentDataConcat(w.log, entries);
    FlattenSnoc(frames, data);
    assert ConnectOutcome(next.client, w.options.value) == ConnectOutcome(w.client, w.options.value);
  }

  /** Sending a request adds one complete packet that is not a CONNECT, or nothing. */
  lemma SendAddsFrame(c: Client, request: Request, answer: WriteAnswer, cause: Cause) returns (data: bytes)
    requires Askable(c, request)
    ensures SentData(Tagged(SendAttempts(c, request, answer), cause)) == data
    ensures data == [] || (IsPacket(data) && !IsConnectFrame(data))
  {
    hide RequestBytes, IsPacket, IsConnectFrame;
    var attempts := SendAttempts(c, request, answer);
    data := [];
    if attempts != [] {
      RequestIsFrame(request, c.txCapacity);
      SentOne(RequestBytes(request, c.txCapacity).value, answer.Wrote?, cause);
      data := if answer.Wrote? then RequestBytes(request, c.txCapacity).value else [];
    }
  }

  /**
   The two writes of a subscription add the whole packet, or its first part when the second write fails, or nothing.
   */
  lemma SubscriptionAddsFrame(c: Client, s: Subscription, first: WriteAnswer, second: WriteAnswer)
    returns (data: bytes, tail: bytes)
    ensures SentData(Tagged(SubscribeAttempts(c, s, first, second), Handshake)) == data + tail
    ensures data == [] || (IsPacket(data) && !IsConnectFrame(data))
    ensures tail != [] ==> AfterSubscribe(c, s, first, second).0.IsDisconnected() && Beginning(tail)
  {
    hide OpsOutcome, SubscribeHeader, SubscribePayload, IsPacket, Encode, S.SubscribeLen, S.SubscribeBody;
    var attempts := SubscribeAttempts(c, s, first, second);
    var header, payload := SubscribeHeader(s), SubscribePayload(s);
    data, tail := [], [];
    if attempts != [] {
      var packet := SubscribePacket(SubscriptionPacket(s));
      SubscribeInTwoParts(s);
      HonestSubscribe(SubscriptionPacket(s));
      EncodedIsFrame(packet);
      if first.Wrote? {
        SentTwo(header, payload, second.Wrote?, Handshake);
        data := if second.Wrote? then header + payload else [];
        tail := if second.Wrote? then [] else header;
      } else {
        SentOne(header, false, Handshake);
      }
    }
  }

  lemma HonestSubscribe(s: S.Subscribe)
    ensures S.SubscribeLen(s) == |S.SubscribeBody(s)|
  {
  }

  lemma ConnectSends(w: World, options: ConnectOptions, wrote: WriteAnswer, answers: seq<ReadAnswer>)
    returns (frames: seq<bytes>)
    requires AfterConnect(w.client, options, wrote, answers).1.Done?
    ensures SentAs(AfterConnectCall(w, options, wrote, answers), frames, [])
  {
    hide AfterConnect, IsPacket, IsConnectFrame, EncodeConnect, FirstNote, DropPrefix, Front, ConnectLen, Flatten,
      SentData, Beginning;
    ConnectFacts(w.client, options, wrote, answers);
    var connect := EncodeConnect(options.AsConnect());
    NothingOrOne(connect);
    frames := [];
    if ConnectOutcome(w.client, options).Ok? {
      SentOne(connect, wrote.Wrote?, Handshake);
      ConnectIsFrame(options.AsConnect());
      frames := if wrote.Wrote? then [connect] else [];
    }
  }

  lemma NothingOrOne(data: bytes)
    ensures Flatten([]) == [] && SentData([]) == [] && Flatten([data]) == data
  {
    assert Flatten([data]) == data + Flatten([]);
  }

  lemma ConnectIsFrame(c: Connect)
    requires ConnectLen(c) <= MAX_REMAINING
    ensures IsPacket(EncodeConnect(c))
  {
    hide IsPacket, VarInt, ConnectBody, ConnectLen;
    EncodedIsFrame(ConnectPacket(c));
    assert Encode(ConnectPacket(c)) == EncodeConnect(c);
  }

  lemma ConnectSubscribeSends(w: World, options: ConnectOptions, wrote: WriteAnswer, answers: seq<ReadAnswer>,
                              s: Subscription, first: WriteAnswer, second: WriteAnswer)
    returns (frames: seq<bytes>, tail: bytes)
    requires Connacked(AfterConnect(w.client, options, wrote, answers).1)
    ensures SentAs(AfterSubscribing(AfterConnectCall(w, options, wrote, answers), s, first, second), frames, tail)
  {
    hide AfterConnect, AfterSubscribe, SubscribeAttempts, SentAs, ConnectAttempts, FirstNote, Front;
    var w1 := AfterConnectCall(w, options, wrote, answers);
    OnlyAcceptedConnAcks(w.client, options, wrote, answers);
    SubscribeKeeps(w1, s, first, second);
    var before := ConnectSends(w, options, wrote, answers);
    var data;
    data, tail := SubscriptionAddsFrame(w1.client, s, first, second);
    AppendFrame(w1, AfterSubscribing(w1, s, first, second), before, data, tail,
                Tagged(SubscribeAttempts(w1.client, s, first, second), Handshake));
    frames := if data == [] then before else before + [data];
  }

  lemma SilenceKeeps(w: World, next: World, frames: seq<bytes>, tail: bytes)
    requires Outgoing(w, frames, tail) && w.client.IsDisconnected() && next.client.IsDisconnected()
    requires next.log == w.log && next.options == w.options && next.client.txCapacity == w.client.txCapacity
    ensures Outgoing(next, frames, tail)
  {
    hide IsPacket, IsConnectFrame, EncodeConnect, Flatten, SentData, Beginning;
  }

  lemma StepSends(w: World, call: Call, frames: seq<bytes>, tail: bytes) returns (after: seq<bytes>, cut: bytes)
    requires Outgoing(w, frames, tail) && Returns(w, call)
    ensures Outgoing(Step(w, call), after, cut)
  {
    hide AfterConnect, AfterNext, AfterSend, AfterSubscribe, SendAttempts, SubscribeAttempts, SentAs, IsPacket,
      IsConnectFrame, DropPrefix, Front, ConnectAttempts, FirstNote;
    after, cut := frames, tail;
    var next := Step(w, call);
    if Connecting(call) {
      after, cut := ConnectingSends(w, call);
    } else if w.client.IsDisconnected() {
      DisconnectedStep(w, call);
      SilenceKeeps(w, next, frames, tail);
    } else {
      assert tail == [] by {
        ConnectedIsWhole(w, frames, tail);
      }
      var data := [];
      match call {
        case NextCall(answers) =>
          NextFacts(w.client, answers);
          AppendFrame(w, next, frames, [], [], []);
        case CompleteCall(completion, answer) =>
          var c := w.client.(used := DropPrefix(w.client.used, completion.taken));
          var cause := CauseOf(completion);
          SendKeepsWindow(c, Fixed(completion.action), answer);
          SameAttempts(w.client, c, Fixed(completion.action), answer);
          data := SendAddsFrame(c, Fixed(completion.action), answer, cause);
          AppendFrame(w, next, frames, data, [], Tagged(CompleteAttempts(w.client, completion, answer), cause));
        case SendCall(request, answer) =>
          SendKeepsWindow(w.client, request, answer);
          data := SendAddsFrame(w.client, request, answer, Requested);
          AppendFrame(w, next, frames, data, [], Tagged(SendAttempts(w.client, request, answer), Requested));
      }
      after := if data == [] then frames else frames + [data];
    }
  }

  lemma ConnectedIsWhole(w: World, frames: seq<bytes>, tail: bytes)
    requires Outgoing(w, frames, tail) && !w.client.IsDisconnected()
    ensures tail == []
  {
    hide IsPacket, IsConnectFrame, EncodeConnect, Flatten, SentData, Beginning;
  }

  lemma ConnectingSends(w: World, call: Call) returns (frames: seq<bytes>, tail: bytes)
    requires Returns(w, call) && Connecting(call)
    ensures Outgoing(Step(w, call), frames, tail)
  {
    hide AfterConnect, AfterSubscribe, SubscribeAttempts, SentAs, ConnectAttempts;
    tail := [];
    match call {
      case ConnectCall(options, wrote, answers) =>
        frames := ConnectSends(w, options, wrote, answers);
      case ConnectSubscribeCall(options, wrote, answers, s, first, second) =>
        if Connacked(AfterConnect(w.client, options, wrote, answers).1) {
          frames, tail := ConnectSubscribeSends(w, options, wrote, answers, s, first, second);
        } else {
          frames := ConnectSends(w, options, wrote, answers);
        }
    }
  }

  lemma {:induction false} RunSends(w: World, calls: seq<Call>, frames: seq<bytes>, tail: bytes)
    returns (after: seq<bytes>, cut: bytes)
    requires Outgoing(w, frames, tail) && Runs(w, calls)
    ensures Outgoing(End(w, calls), after, cut)
    decreases |calls|
  {
    hide Step, Returns, Outgoing;
    after, cut := frames, tail;
    if calls != [] {
      after, cut := StepSends(w, calls[0], frames, tail);
      after, cut := RunSends(Step(w, calls[0]), calls[1..], after, cut);
    }
  }

  /**
   In every run, disciplined or not, and whether or not the connection is still alive: what was sent since the last
   connect is a sequence of complete packets, with the CONNECT in front and no other CONNECT behind it exactly if the
   CONNECT fits the transmit buffer. Only a subscription cut off by a failing write leaves the beginning of a packet.
   */
  lemma ConnectComesFirst(rxCapacity: nat, txCapacity: nat, calls: seq<Call>)
    requires Runs(Start(rxCapacity, txCapacity), calls)
    ensures var w := End(Start(rxCapacity, txCapacity), calls);
            if w.options.None? then w.client.IsDisconnected() && w.log == []
            else exists frames, tail :: SentAs(w, frames, tail)
  {
    hide Runs, End, SentAs;
    var frames, tail := RunSends(Start(rxCapacity, txCapacity), calls, [], []);
  }

  /** When it does not fit, the client stays open for writing, and a ping can be the first thing the broker sees. */
  lemma PingBeforeConnect(options: ConnectOptions)
    ensures var calls := [ConnectCall(options, WriteRefused, []), SendCall(Fixed(SendPingReq), Wrote(EPOCH))];
            && Runs(Start(16, 2), calls)
            && !End(Start(16, 2), calls).client.IsDisconnected()
            && End(Start(16, 2), calls).log == [Entry(Attempt(Encode(PingReqPacket), true), Requested)]
  {
    hide Encode, EncodeConnect, ConnectLen;
    FixedPackets(0);
    var w0 := Start(16, 2);
    var first := ConnectCall(options, WriteRefused, []);
    var second := SendCall(Fixed(SendPingReq), Wrote(EPOCH));
    LongConnect(options.AsConnect());
    assert ConnectOutcome(w0.client, options).Err?;
    assert Returns(w0, first);
    var w1 := Step(w0, first);
    assert Tagged([], Handshake) == [];
    assert w1.log == [] && w1.client.tc.state == TransportConnected;
    assert Returns(w1, second);
    var w2 := Step(w1, second);
    var attempt := Attempt(Encode(PingReqPacket), true);
    assert Tagged([attempt], Requested) == [Entry(attempt, Requested)] + Tagged([], Requested);
    assert [first, second][1..] == [second] && [second][1..] == [];
    assert Runs(w2, []) && End(w2, []) == w2;
    assert Runs(w1, [second]) && End(w1, [second]) == w2;
  }

  lemma LongConnect(c: Connect)
    ensures |EncodeConnect(c)| > 2
  {
  }

  /**
   A refused CONNACK is never returned as a CONNACK: connecting succeeds only with the success code, and then the
   client is connected.
   */
  lemma OnlyAcceptedConnAcks(c: Client, options: ConnectOptions, wrote: WriteAnswer, answers: seq<ReadAnswer>)
    requires Connacked(AfterConnect(c, options, wrote, answers).1)
    ensures var (after, reply) := AfterConnect(c, options, wrote, answers);
            reply.result.value.0.code == Accepted && after.tc.state == Connected
  {
    hide AfterConnect, FirstNote, DropPrefix, ConnectOutcome;
    ConnectFacts(c, options, wrote, answers);
  }

  /**
   Connecting with a subscription: success means both writes were accepted. After an error the client is disconnected,
   with two exceptions: a CONNECT that does not fit, and a subscription that cannot be formatted, which is reported
   while the client stays connected.
   */
  lemma ConnectSubscribeFacts(c: Client, options: ConnectOptions, wrote: WriteAnswer, answers: seq<ReadAnswer>,
                              s: Subscription, first: WriteAnswer, second: WriteAnswer)
    requires AfterConnectSubscribe(c, options, wrote, answers, s, first, second).1.Done?
    ensures var (after, Done(r)) := AfterConnectSubscribe(c, options, wrote, answers, s, first, second);
            var accepted := Connacked(AfterConnect(c, options, wrote, answers).1);
            && (r.Ok? ==> accepted && after.tc.state == Connected && first.Wrote? && second.Wrote?)
            && (if !accepted then
                  r == AfterConnect(c, options, wrote, answers).1.result
                else if SubscriptionOutcome(s, c.txCapacity).Err? then
                  r == Err(WriteFailure(SubscriptionOutcome(s, c.txCapacity).error))
                else if first.Wrote? && second.Wrote? then
                  r == AfterConnect(c, options, wrote, answers).1.result
                else
                  r == Err(IoError))
            && (r.Err? ==>
                  after.tc.state == if ConnectOutcome(c, options).Err? then TransportConnected
                                    else if accepted && SubscriptionOutcome(s, c.txCapacity).Err? then Connected
                                    else Disconnected)
  {
    hide AfterConnect, FirstNote, DropPrefix, ConnectOutcome, SubscriptionOutcome;
    ConnectFacts(c, options, wrote, answers);
  }
}
