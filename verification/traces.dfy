/**
 Everything the client hands to the transport in whole runs: what it greets with, what it is asked for, and what it
 answers.
 */
module ClientTraces {
  import opened Bytes
  import opened Wire
  import opened Connects
  import opened OutPublishes
  import opened Packets
  import opened Streams
  import opened Time
  import opened Transports
  import opened Buffers
  import opened ClientNotifications
  import opened Platforms
  import opened ClientSpec
  import opened Frames
  import opened ClientRuns
  import opened ClientReplies
  import opened ClientGating

  // ---- Attempts and accepted data, without tags ----

  function AttemptsOf(log: seq<Entry>): seq<Attempt> {
    if log == [] then [] else AttemptsOf(log[..|log| - 1]) + [log[|log| - 1].attempt]
  }

  lemma {:induction false} AttemptsOfConcat(a: seq<Entry>, b: seq<Entry>)
    ensures AttemptsOf(a + b) == AttemptsOf(a) + AttemptsOf(b)
    decreases |b|
  {
    if b == [] {
      assert a + b == a;
    } else {
      assert (a + b)[..|a + b| - 1] == a + b[..|b| - 1];
      AttemptsOfConcat(a, b[..|b| - 1]);
    }
  }

  lemma {:induction false} AttemptsOfTagged(attempts: seq<Attempt>, cause: Cause)
    ensures AttemptsOf(Tagged(attempts, cause)) == attempts
  {
    if attempts != [] {
      AttemptsOfTagged(attempts[1..], cause);
      var entry := Entry(attempts[0], cause);
      AttemptsOfConcat([entry], Tagged(attempts[1..], cause));
      assert [entry][..0] == [];
      assert AttemptsOf([entry]) == AttemptsOf([]) + [attempts[0]];
    }
  }

  /** The data of the accepted attempts, one item for each. */
  function Accepted(attempts: seq<Attempt>): seq<bytes> {
    if attempts == [] then []
    else
      var last := attempts[|attempts| - 1];
      Accepted(attempts[..|attempts| - 1]) + if last.accepted then [last.data] else []
  }

  lemma {:induction false} AcceptedConcat(a: seq<Attempt>, b: seq<Attempt>)
    ensures Accepted(a + b) == Accepted(a) + Accepted(b)
    decreases |b|
  {
    if b == [] {
      assert a + b == a;
    } else {
      assert (a + b)[..|a + b| - 1] == a + b[..|b| - 1];
      AcceptedConcat(a, b[..|b| - 1]);
    }
  }

  lemma AcceptedOne(a: Attempt)
    ensures Accepted([a]) == if a.accepted then [a.data] else []
  {
    assert [a][..0] == [];
    assert Accepted([a]) == Accepted([]) + if a.accepted then [a.data] else [];
  }

  lemma AcceptedTwo(a: Attempt, b: Attempt)
    ensures Accepted([a, b]) == (if a.accepted then [a.data] else []) + (if b.accepted then [b.data] else [])
  {
    AcceptedOne(a);
    AcceptedOne(b);
    AcceptedConcat([a], [b]);
    assert [a] + [b] == [a, b];
  }

  /** `log` holds nothing but entries of one cause. */
  predicate OnlyFor(log: seq<Entry>, cause: Cause) {
    forall i :: 0 <= i < |log| ==> log[i].cause == cause
  }

  lemma {:induction false} OneCause(log: seq<Entry>, cause: Cause)
    requires OnlyFor(log, cause)
    ensures SentFor(log, cause) == Accepted(AttemptsOf(log))
    decreases |log|
  {
    if log != [] {
      var front := log[..|log| - 1];
      var last := log[|log| - 1].attempt;
      OneCause(front, cause);
      AcceptedConcat(AttemptsOf(front), [last]);
      AcceptedOne(last);
    }
  }

  lemma {:induction false} TaggedFor(attempts: seq<Attempt>, cause: Cause)
    ensures OnlyFor(Tagged(attempts, cause), cause)
  {
    if attempts != [] {
      TaggedFor(attempts[1..], cause);
    }
  }

  /** What a tagged piece of the log contributes to its own cause, and that it contributes nothing to another. */
  lemma Contribution(log: seq<Entry>, attempts: seq<Attempt>, cause: Cause, other: Cause)
    ensures SentFor(log + Tagged(attempts, cause), other)
         == SentFor(log, other) + if other == cause then Accepted(attempts) else []
  {
    SentForConcat(log, Tagged(attempts, cause), other);
    if other == cause {
      TaggedFor(attempts, cause);
      OneCause(Tagged(attempts, cause), cause);
      AttemptsOfTagged(attempts, cause);
    } else {
      OtherCauses(attempts, cause, other);
    }
  }

  // ---- What a run of calls asks for, told from the calls alone ----

  /** The bytes of a request in a transmit buffer of `room` cells, if it comes to anything. */
  function RequestData(request: Request, room: nat): seq<bytes> {
    if request == Fixed(NoAction) then []
    else if request.PublishRequest? && (room < 5 || !FormatsText(request.topic)) then []
    else match RequestBytes(request, room)
      case Ok(data) => [data]
      case Err(_) => []
  }

  /** Explicit sends, and completions that drop no packet: the answers to ping notifications. */
  function AskedBy(call: Call, room: nat): seq<bytes> {
    match call
    case SendCall(request, _) => RequestData(request, room)
    case CompleteCall(completion, _) =>
      if completion.taken == 0 then RequestData(Fixed(completion.action), room) else []
    case _ => []
  }

  predicate ConnectFits(options: ConnectOptions, room: nat) {
    PrintOutcome(ConnectLen(options.AsConnect()), |EncodeConnect(options.AsConnect())|, room).Ok?
  }

  /** The two writes of a subscription, if it can be formatted. */
  function SubscribeParts(s: Subscription, room: nat): seq<bytes> {
    if SubscriptionOutcome(s, room).Ok? then [SubscribeHeader(s), SubscribePayload(s)] else []
  }

  /** CONNECT, and the two parts of the SUBSCRIBE if there is one. */
  function GreetingOf(call: Call, room: nat): seq<bytes> {
    match call
    case ConnectCall(options, _, _) =>
      if ConnectFits(options, room) then [EncodeConnect(options.AsConnect())] else []
    case ConnectSubscribeCall(options, _, _, s, _, _) =>
      if !ConnectFits(options, room) then []
      else
        [EncodeConnect(options.AsConnect())] + SubscribeParts(s, room)
    case _ => []
  }

  /** The greeting of the last connect, and everything asked for since, in call order. */
  function Due(greeting: seq<bytes>, asked: seq<bytes>, calls: seq<Call>, room: nat): (seq<bytes>, seq<bytes>)
    decreases |calls|
  {
    if calls == [] then (greeting, asked)
    else if Connecting(calls[0]) then Due(GreetingOf(calls[0], room), [], calls[1..], room)
    else Due(greeting, asked + AskedBy(calls[0], room), calls[1..], room)
  }

  // ---- Requests and greetings are sent as asked ----

  /** `sent` is what was due, as far as the connection lived. */
  predicate SoFar(sent: seq<bytes>, due: seq<bytes>, alive: bool) {
    sent <= due && (alive ==> sent == due)
  }

  ghost predicate DueInv(w: World, greeting: seq<bytes>, asked: seq<bytes>) {
    var alive := !w.client.IsDisconnected();
    && SoFar(SentFor(w.log, Handshake), greeting, alive) && SoFar(SentFor(w.log, Requested), asked, alive)
    && (SentFor(w.log, Handshake) != greeting ==>
          !alive && SentFor(w.log, Requested) == [] && SentFor(w.log, ReplyToPacket) == [])
  }

  lemma ConnectDue(w: World, options: ConnectOptions, wrote: WriteAnswer, answers: seq<ReadAnswer>)
    requires AfterConnect(w.client, options, wrote, answers).1.Done?
    ensures var next := AfterConnectCall(w, options, wrote, answers);
            && DueInv(next, GreetingOf(ConnectCall(options, wrote, answers), w.client.txCapacity), [])
            && (ConnectOutcome(w.client, options).Ok? && !next.client.IsDisconnected() ==>
                  SentFor(next.log, Handshake) == [EncodeConnect(options.AsConnect())])
            && SentFor(next.log, ReplyToPacket) == []
            && next.client.txCapacity == w.client.txCapacity
  {
    hide AfterConnect, FirstNote, DropPrefix, Front, EncodeConnect, ConnectLen, SentFor, Accepted;
    ConnectFacts(w.client, options, wrote, answers);
    var attempts := ConnectAttempts(w.client, options, wrote);
    NothingSent();
    Contribution([], attempts, Handshake, Handshake);
    Contribution([], attempts, Handshake, Requested);
    Contribution([], attempts, Handshake, ReplyToPacket);
    assert [] + Tagged(attempts, Handshake) == Tagged(attempts, Handshake);
    AcceptedOne(Attempt(EncodeConnect(options.AsConnect()), wrote.Wrote?));
  }

  lemma NothingSent()
    ensures SentFor([], Handshake) == SentFor([], Requested) == SentFor([], ReplyToPacket) == [] && Accepted([]) == []
  {
  }

  lemma SubscribeDue(w: World, s: Subscription, first: WriteAnswer, second: WriteAnswer, connect: bytes)
    requires DueInv(w, [connect], []) && !w.client.IsDisconnected() && SentFor(w.log, ReplyToPacket) == []
    ensures DueInv(AfterSubscribing(w, s, first, second),
                   [connect] + SubscribeParts(s, w.client.txCapacity), [])
  {
    hide SubscriptionOutcome, SubscribeHeader, SubscribePayload, SentFor, Accepted;
    var attempts := SubscribeAttempts(w.client, s, first, second);
    NothingSent();
    Contribution(w.log, attempts, Handshake, Handshake);
    Contribution(w.log, attempts, Handshake, Requested);
    Contribution(w.log, attempts, Handshake, ReplyToPacket);
    TwoWrites(w.client, s, first, second);
  }

  lemma TwoWrites(c: Client, s: Subscription, first: WriteAnswer, second: WriteAnswer)
    requires !c.IsDisconnected()
    ensures var sent := Accepted(SubscribeAttempts(c, s, first, second));
            SoFar(sent, SubscribeParts(s, c.txCapacity), !AfterSubscribe(c, s, first, second).0.IsDisconnected())
  {
    hide SubscriptionOutcome, SubscribeHeader, SubscribePayload, Accepted;
    NothingSent();
    var header, payload := SubscribeHeader(s), SubscribePayload(s);
    assert [header] + [payload] == [header, payload];
    if SubscriptionOutcome(s, c.txCapacity).Ok? {
      if first.Wrote? {
        AcceptedTwo(Attempt(header, true), Attempt(payload, second.Wrote?));
        assert SubscribeAttempts(c, s, first, second) == [Attempt(header, true), Attempt(payload, second.Wrote?)];
      } else {
        AcceptedOne(Attempt(header, false));
        assert SubscribeAttempts(c, s, first, second) == [Attempt(header, false)];
      }
    }
  }

  lemma ConnectingDue(w: World, call: Call)
    requires Returns(w, call) && Connecting(call)
    ensures DueInv(Step(w, call), GreetingOf(call, w.client.txCapacity), [])
  {
    hide AfterConnect, AfterSubscribing, AfterConnectCall, EncodeConnect, ConnectLen, SentFor, SubscriptionOutcome,
      SubscribeHeader, SubscribePayload, FirstNote, DropPrefix;
    match call {
      case ConnectCall(options, wrote, answers) =>
        ConnectDue(w, options, wrote, answers);
      case ConnectSubscribeCall(options, wrote, answers, s, first, second) =>
        ConnectDue(w, options, wrote, answers);
        ConnectFacts(w.client, options, wrote, answers);
        var w1 := AfterConnectCall(w, options, wrote, answers);
        assert w1.client == AfterConnect(w.client, options, wrote, answers).0 by {
          ConnectClient(w, options, wrote, answers);
        }
        if Connacked(AfterConnect(w.client, options, wrote, answers).1) {
          SubscribeDue(w1, s, first, second, EncodeConnect(options.AsConnect()));
        }
    }
  }

  lemma ConnectClient(w: World, options: ConnectOptions, wrote: WriteAnswer, answers: seq<ReadAnswer>)
    ensures AfterConnectCall(w, options, wrote, answers).client == AfterConnect(w.client, options, wrote, answers).0
  {
    hide AfterConnect;
  }

  /** A connected client hands over what a request comes to, and is disconnected if that is refused. */
  lemma SendDue(c: Client, request: Request, answer: WriteAnswer)
    requires Askable(c, request) && !c.IsDisconnected()
    ensures var sent := Accepted(SendAttempts(c, request, answer));
            SoFar(sent, RequestData(request, c.txCapacity), !AfterSend(c, request, answer).0.IsDisconnected())
  {
    hide RequestBytes, Accepted;
    NothingSent();
    var spec := if request == Fixed(NoAction) then Ok([]) else RequestBytes(request, c.txCapacity);
    if spec.Ok? {
      AcceptedOne(Attempt(spec.value, answer.Wrote?));
    }
  }

  lemma StepDue(w: World, call: Call, greeting: seq<bytes>, asked: seq<bytes>)
    requires DueInv(w, greeting, asked) && Returns(w, call) && !Connecting(call)
    ensures DueInv(Step(w, call), greeting, asked + AskedBy(call, w.client.txCapacity))
  {
    hide AfterNext, AfterSend, SendAttempts, SentFor, RequestData, DropPrefix, Front, FirstNote, Accepted;
    if w.client.IsDisconnected() {
      DisconnectedStep(w, call);
    } else {
      match call {
        case NextCall(answers) =>
        case CompleteCall(completion, answer) =>
          var c := w.client.(used := DropPrefix(w.client.used, completion.taken));
          SameAttempts(w.client, c, Fixed(completion.action), answer);
          SendDue(c, Fixed(completion.action), answer);
          var attempts := CompleteAttempts(w.client, completion, answer);
          var cause := CauseOf(completion);
          Contribution(w.log, attempts, cause, Handshake);
          Contribution(w.log, attempts, cause, Requested);
        case SendCall(request, answer) =>
          SendDue(w.client, request, answer);
          Contribution(w.log, SendAttempts(w.client, request, answer), Requested, Handshake);
          Contribution(w.log, SendAttempts(w.client, request, answer), Requested, Requested);
      }
    }
  }

  lemma {:induction false} RunDue(w: World, calls: seq<Call>, greeting: seq<bytes>, asked: seq<bytes>)
    requires DueInv(w, greeting, asked) && Runs(w, calls)
    ensures var (g, a) := Due(greeting, asked, calls, w.client.txCapacity);
            DueInv(End(w, calls), g, a)
    decreases |calls|
  {
    hide DueInv, Step, Returns, GreetingOf, AskedBy;
    if calls != [] {
      StepRoom(w, calls[0]);
      var next := Step(w, calls[0]);
      if Connecting(calls[0]) {
        ConnectingDue(w, calls[0]);
        RunDue(next, calls[1..], GreetingOf(calls[0], w.client.txCapacity), []);
      } else {
        StepDue(w, calls[0], greeting, asked);
        RunDue(next, calls[1..], greeting, asked + AskedBy(calls[0], w.client.txCapacity));
      }
    }
  }

  lemma StepRoom(w: World, call: Call)
    requires Returns(w, call)
    ensures Step(w, call).client.txCapacity == w.client.txCapacity
  {
    hide AfterConnect, AfterNext, AfterSend, FirstNote, DropPrefix, Front, ConnectOutcome, SubscriptionOutcome;
    match call {
      case ConnectCall(options, wrote, answers) =>
        ConnectFacts(w.client, options, wrote, answers);
      case ConnectSubscribeCall(options, wrote, answers, subscription, first, second) =>
        ConnectFacts(w.client, options, wrote, answers);
        SubscribeKeeps(AfterConnectCall(w, options, wrote, answers), subscription, first, second);
      case NextCall(answers) =>
        NextFacts(w.client, answers);
      case CompleteCall(completion, answer) =>
        SendKeepsWindow(w.client.(used := DropPrefix(w.client.used, completion.taken)), Fixed(completion.action),
          answer);
      case SendCall(request, answer) =>
        SendKeepsWindow(w.client, request, answer);
    }
  }

  /**
   In every run, disciplined or not: what was sent for the handshake is the CONNECT, followed by the SUBSCRIBE if one
   was asked for, and what was sent on request is the explicitly requested packets and the answers to ping
   notifications, once each and in the order of the calls since the last connect. All of it while the connection lives,
   the first of it always.
   */
  lemma SentAsAsked(rxCapacity: nat, txCapacity: nat, calls: seq<Call>)
    requires Runs(Start(rxCapacity, txCapacity), calls)
    ensures var w := End(Start(rxCapacity, txCapacity), calls);
            var (greeting, asked) := Due([], [], calls, txCapacity);
            && SentFor(w.log, Handshake) <= greeting && SentFor(w.log, Requested) <= asked
            && (!w.client.IsDisconnected() ==>
               SentFor(w.log, Handshake) == greeting && SentFor(w.log, Requested) == asked)
            && (SentFor(w.log, Handshake) != greeting ==>
               SentFor(w.log, Requested) == SentFor(w.log, ReplyToPacket) == [])
  {
    hide Runs, End, Due;
    NothingSent();
    RunDue(Start(rxCapacity, txCapacity), calls, [], []);
  }

  // ---- Runs without explicit sends: everything sent is the greeting and the answers ----

  /** The packet that answers a delivery, if it has one and the transmit buffer can hold it. */
  function AnswerTo(turn: Turn, room: nat): seq<bytes> {
    match turn
    case PingTurn => if room >= 2 then [Encode(PingReqPacket)] else []
    case PacketTurn(note) =>
      var reply := RequiredReply(note);
      if reply.Some? && room >= 4 then [Encode(reply.value)] else []
  }

  function AnswersTo(turns: seq<Turn>, room: nat): seq<bytes> {
    if turns == [] then [] else AnswersTo(turns[..|turns| - 1], room) + AnswerTo(turns[|turns| - 1], room)
  }

  lemma AnswersSnoc(turns: seq<Turn>, turn: Turn, room: nat)
    ensures AnswersTo(turns + [turn], room) == AnswersTo(turns, room) + AnswerTo(turn, room)
  {
    hide AnswerTo;
    assert (turns + [turn])[..|turns|] == turns;
  }

  /** The packets among the deliveries. */
  function NotesOf(turns: seq<Turn>): seq<Notification> {
    if turns == [] then []
    else
      var last := turns[|turns| - 1];
      NotesOf(turns[..|turns| - 1]) + if last.PacketTurn? then [last.note] else []
  }

  lemma NotesSnoc(turns: seq<Turn>, turn: Turn)
    ensures NotesOf(turns + [turn]) == NotesOf(turns) + if turn.PacketTurn? then [turn.note] else []
  {
    assert (turns + [turn])[..|turns|] == turns;
  }

  /** Without ping requests the answers are the acknowledgements. */
  lemma {:induction false} AnswersAreReplies(turns: seq<Turn>, room: nat)
    requires PingTurn !in turns && room >= 4
    ensures AnswersTo(turns, room) == Replies(NotesOf(turns))
    decreases |turns|
  {
    hide Encode, RequiredReply;
    if turns != [] {
      var front, last := turns[..|turns| - 1], turns[|turns| - 1];
      assert last in turns;
      AnswersAreReplies(front, room);
      RepliesSnoc(NotesOf(front), last.note);
    }
  }

  /**
   With them, the acknowledgements are what is left when the pings are taken out; one ping is sent for each request.
   */
  lemma {:induction false} AnswersWithPings(turns: seq<Turn>, room: nat)
    requires room >= 4
    ensures Without(AnswersTo(turns, room), Encode(PingReqPacket)) == Replies(NotesOf(turns))
    ensures |AnswersTo(turns, room)| == |Replies(NotesOf(turns))| + |turns| - |NotesOf(turns)|
    decreases |turns|
  {
    hide Encode, RequiredReply, Replies, Without, AnswerTo;
    if turns == [] {
      NoReplies();
    } else {
      var front, last := turns[..|turns| - 1], turns[|turns| - 1];
      AnswersWithPings(front, room);
      WithoutConcat(AnswersTo(front, room), AnswerTo(last, room), Encode(PingReqPacket));
      AnswerWithoutPing(last, room);
      if last.PacketTurn? {
        RepliesSnoc(NotesOf(front), last.note);
      } else {
        assert NotesOf(front) + [] == NotesOf(front) && Replies(NotesOf(front)) + [] == Replies(NotesOf(front));
      }
    }
  }

  lemma AnswerWithoutPing(turn: Turn, room: nat)
    requires room >= 4
    ensures var reply := if turn.PacketTurn? then RequiredReply(turn.note) else None;
            && Without(AnswerTo(turn, room), Encode(PingReqPacket))
               == (if reply.Some? then [Encode(reply.value)] else [])
            && |AnswerTo(turn, room)| == if turn.PingTurn? || reply.Some? then 1 else 0
  {
    hide Encode, RequiredReply, Without;
    WithoutOne(Encode(PingReqPacket), Encode(PingReqPacket));
    if turn.PacketTurn? {
      RepliesAreNoPings(turn.note);
      if RequiredReply(turn.note).Some? {
        WithoutOne(Encode(RequiredReply(turn.note).value), Encode(PingReqPacket));
      }
    }
  }

  lemma NoReplies()
    ensures Replies([]) == [] && Without([], Encode(PingReqPacket)) == []
  {
    WithoutOne([], Encode(PingReqPacket));
  }

  function Without(items: seq<bytes>, item: bytes): seq<bytes> {
    if items == [] then []
    else
      var last := items[|items| - 1];
      Without(items[..|items| - 1], item) + if last == item then [] else [last]
  }

  lemma {:induction false} WithoutConcat(a: seq<bytes>, b: seq<bytes>, item: bytes)
    ensures Without(a + b, item) == Without(a, item) + Without(b, item)
    decreases |b|
  {
    if b == [] {
      assert a + b == a;
    } else {
      assert (a + b)[..|a + b| - 1] == a + b[..|b| - 1];
      WithoutConcat(a, b[..|b| - 1], item);
    }
  }

  lemma WithoutOne(data: bytes, item: bytes)
    ensures Without([data], item) == (if data == item then [] else [data]) && Without([], item) == []
  {
    assert [data][..0] == [];
    assert Without([data], item) == Without([], item) + if data == item then [] else [data];
  }

  lemma RepliesAreNoPings(note: Notification)
    ensures RequiredReply(note).Some? ==> Encode(RequiredReply(note).value) != Encode(PingReqPacket)
  {
    hide Encode;
    FixedPackets(0);
    if RequiredReply(note).Some? {
      ReplyFitsIff(note, 4);
    }
  }

  /** The deliveries completed so far: all but the one that may still wait. */
  function Completed(w: World): seq<Turn> {
    if (w.pending.Some? || w.pingPending) && w.heard != [] then w.heard[..|w.heard| - 1] else w.heard
  }

  /** At most one delivery waits to be completed, and it is the last one. */
  ghost predicate HeardInv(w: World) {
    && w.notes == NotesOf(w.heard)
    && (w.pending.Some? ==> !w.pingPending && w.heard != [] && w.heard[|w.heard| - 1] == PacketTurn(w.pending.value.0))
    && (w.pingPending ==> w.heard != [] && w.heard[|w.heard| - 1] == PingTurn)
  }

  ghost predicate AnswerInv(w: World, greeting: seq<bytes>) {
    && HeardInv(w)
    && SoFar(Accepted(AttemptsOf(w.log)), greeting + AnswersTo(Completed(w), w.client.txCapacity),
             !w.client.IsDisconnected())
  }

  lemma ConnectingHandsOver(w: World, call: Call)
    requires Returns(w, call) && Connecting(call)
    ensures OnlyFor(Step(w, call).log, Handshake)
  {
    hide AfterConnect, AfterSubscribe, ConnectAttempts, SubscribeAttempts, Front;
    match call {
      case ConnectCall(options, wrote, answers) =>
        TaggedFor(ConnectAttempts(w.client, options, wrote), Handshake);
      case ConnectSubscribeCall(options, wrote, answers, s, first, second) =>
        var w1 := AfterConnectCall(w, options, wrote, answers);
        TaggedFor(ConnectAttempts(w.client, options, wrote), Handshake);
        TaggedFor(SubscribeAttempts(w1.client, s, first, second), Handshake);
    }
  }

  lemma ConnectingAnswers(w: World, call: Call)
    requires Returns(w, call) && Connecting(call)
    ensures AnswerInv(Step(w, call), GreetingOf(call, w.client.txCapacity))
  {
    hide DueInv, GreetingOf, SentFor, Accepted, AttemptsOf, OnlyFor;
    var next := Step(w, call);
    var greeting := GreetingOf(call, w.client.txCapacity);
    ConnectingDue(w, call);
    ConnectingHandsOver(w, call);
    OneCause(next.log, Handshake);
    GreetingSent(next, greeting);
    ConnectingHeard(w, call);
    OpenedAnswers(next);
    assert greeting + [] == greeting;
  }

  lemma GreetingSent(w: World, greeting: seq<bytes>)
    requires DueInv(w, greeting, [])
    ensures SoFar(SentFor(w.log, Handshake), greeting, !w.client.IsDisconnected())
  {
    hide SentFor;
  }

  /** After connecting, at most the CONNACK has been delivered, and nothing waits. */
  ghost predicate JustOpened(w: World) {
    && w.pending.None? && !w.pingPending
    && if w.heard == [] then w.notes == []
       else
         && w.heard[0].PacketTurn? && w.heard[0].note.ConnAckNote?
         && w.heard == [w.heard[0]] && w.notes == [w.heard[0].note]
  }

  lemma ConnectingHeard(w: World, call: Call)
    requires Returns(w, call) && Connecting(call)
    ensures JustOpened(Step(w, call))
  {
    hide AfterConnect, AfterSubscribe, ConnectAttempts, SubscribeAttempts, Front, DataOf, Tagged, Possible;
  }

  lemma OpenedAnswers(w: World)
    requires JustOpened(w)
    ensures HeardInv(w) && AnswersTo(Completed(w), w.client.txCapacity) == []
  {
    hide Encode;
    if w.heard != [] {
      var turn := w.heard[0];
      assert w.heard == [] + [turn];
      AnswersSnoc([], turn, w.client.txCapacity);
      NotesSnoc([], turn);
    }
  }

  /** A packet or a ping request is completed with exactly the packet that answers it. */
  lemma AnswerRequested(turn: Turn, room: nat)
    ensures var action := if turn.PingTurn? then SendPingReq else TransportNotification(turn.note, 1).Complete().action;
            RequestData(Fixed(action), room) == AnswerTo(turn, room)
  {
    hide Encode;
    FixedPackets(0);
    if turn.PacketTurn? {
      CompleteIsRequired(TransportNotification(turn.note, 1));
      if RequiredReply(turn.note).Some? {
        ReplyFitsIff(turn.note, room);
      }
    }
  }

  lemma SoFarAppend(sent: seq<bytes>, due: seq<bytes>, moreSent: seq<bytes>, moreDue: seq<bytes>,
                    before: bool, alive: bool)
    requires SoFar(sent, due, before) && (alive ==> before)
    requires if before then SoFar(moreSent, moreDue, alive) else moreSent == []
    ensures SoFar(sent + moreSent, due + moreDue, alive)
  {
    assert due + moreDue == sent + (due[|sent|..] + moreDue);
    if before {
      assert due + moreDue == (sent + moreSent) + moreDue[|moreSent|..];
    } else {
      assert sent + moreSent == sent;
    }
  }

  lemma CompletingAnswers(w: World, completion: NotificationCompletion, answer: WriteAnswer, greeting: seq<bytes>)
    requires AnswerInv(w, greeting) && Polite(w, CompleteCall(completion, answer))
    ensures AnswerInv(AfterCompleteCall(w, completion, answer), greeting)
  {
    hide AfterSend, SendAttempts, Accepted, AttemptsOf, Encode, RequestData, AnswerTo, DropPrefix, Front, FirstNote,
      AnswersTo;
    var next := AfterCompleteCall(w, completion, answer);
    var room := w.client.txCapacity;
    var c := w.client.(used := DropPrefix(w.client.used, completion.taken));
    var attempts := CompleteAttempts(w.client, completion, answer);
    SendKeepsWindow(c, Fixed(completion.action), answer);
    SameAttempts(w.client, c, Fixed(completion.action), answer);
    AttemptsOfConcat(w.log, Tagged(attempts, CauseOf(completion)));
    AttemptsOfTagged(attempts, CauseOf(completion));
    AcceptedConcat(AttemptsOf(w.log), attempts);
    var moreDue := RequestData(Fixed(completion.action), room);
    if w.client.IsDisconnected() {
      NothingAttempted(w.client, Fixed(completion.action), answer);
    } else {
      SendDue(c, Fixed(completion.action), answer);
    }
    SoFarAppend(Accepted(AttemptsOf(w.log)), greeting + AnswersTo(Completed(w), room), Accepted(attempts), moreDue,
                !w.client.IsDisconnected(), !next.client.IsDisconnected());
    CompletedGrows(w, completion, answer);
    assert (greeting + AnswersTo(Completed(w), room)) + moreDue == greeting + (AnswersTo(Completed(w), room) + moreDue);
  }

  lemma NothingAttempted(c: Client, request: Request, answer: WriteAnswer)
    requires Askable(c, request) && c.IsDisconnected()
    ensures SendAttempts(c, request, answer) == [] && Accepted([]) == []
  {
    hide RequestBytes;
  }

  lemma CompletedGrows(w: World, completion: NotificationCompletion, answer: WriteAnswer)
    requires HeardInv(w) && Polite(w, CompleteCall(completion, answer))
    ensures var next := AfterCompleteCall(w, completion, answer);
            var room := w.client.txCapacity;
            && HeardInv(next)
            && AnswersTo(Completed(next), room)
               == AnswersTo(Completed(w), room) + RequestData(Fixed(completion.action), room)
  {
    hide AfterSend, SendAttempts, CompleteAttempts, Encode, AnswerTo, DropPrefix, Front, FirstNote, RequestBytes,
      AnswersTo;
    var next := AfterCompleteCall(w, completion, answer);
    if completion.taken > 0 || w.pingPending {
      var turn := w.heard[|w.heard| - 1];
      assert w.heard == Completed(w) + [turn];
      AnswersSnoc(Completed(w), turn, w.client.txCapacity);
      AnswerRequested(turn, w.client.txCapacity);
    }
  }

  lemma NextAnswers(w: World, answers: seq<ReadAnswer>, greeting: seq<bytes>)
    requires AnswerInv(w, greeting) && Polite(w, NextCall(answers)) && AfterNext(w.client, answers).1.Done?
    ensures AnswerInv(AfterNextCall(w, answers), greeting)
  {
    hide AfterNext, Accepted, AttemptsOf, AnswersTo, FirstNote, NotesOf, DataOf;
    NextFacts(w.client, answers);
    var next := AfterNextCall(w, answers);
    if next.heard != w.heard {
      var turn := next.heard[|w.heard|];
      assert next.heard == w.heard + [turn];
      NotesSnoc(w.heard, turn);
    }
  }

  /** Connecting, waiting and completing with the default answer, and nothing else. */
  predicate Quiet(calls: seq<Call>) {
    forall i :: 0 <= i < |calls| ==> !calls[i].SendCall?
  }

  lemma {:induction false} RunAnswers(w: World, calls: seq<Call>, greeting: seq<bytes>, asked: seq<bytes>)
    requires AnswerInv(w, greeting) && PoliteRun(w, calls) && Runs(w, calls) && Quiet(calls)
    ensures AnswerInv(End(w, calls), Due(greeting, asked, calls, w.client.txCapacity).0)
    decreases |calls|
  {
    hide AnswerInv, GreetingOf, AskedBy, AfterNextCall, AfterCompleteCall, AfterConnectCall, AfterSubscribing,
      AfterNext, Polite;
    if calls != [] {
      var call, room := calls[0], w.client.txCapacity;
      StepRoom(w, call);
      match call {
        case NextCall(answers) => NextAnswers(w, answers, greeting);
        case CompleteCall(completion, answer) => CompletingAnswers(w, completion, answer, greeting);
        case _ => ConnectingAnswers(w, call);
      }
      if Connecting(call) {
        RunAnswers(Step(w, call), calls[1..], GreetingOf(call, room), []);
      } else {
        RunAnswers(Step(w, call), calls[1..], greeting, asked + AskedBy(call, room));
      }
    }
  }

  /** The packets completed are those whose frames have been taken out of the window. */
  lemma CompletedNotes(w: World)
    requires HeardInv(w) && PendingInv(w)
    ensures |w.frames| <= |w.notes| && NotesOf(Completed(w)) == w.notes[..|w.frames|]
  {
    hide FirstNote;
    if w.heard != [] {
      var last := w.heard[|w.heard| - 1];
      assert w.heard == w.heard[..|w.heard| - 1] + [last];
      NotesSnoc(w.heard[..|w.heard| - 1], last);
    }
    assert w.notes[..|w.notes|] == w.notes;
  }

  // ---- Ping requests need keep-alive ----

  ghost predicate TimerInv(w: World) {
    && (w.options.Some? ==> w.client.tc.keepAlive == FromSeconds(w.options.value.keepAlive))
    && (w.client.tc.keepAlive == 0 ==> PingTurn !in w.heard)
  }

  lemma {:induction false} NextLoopTimer(c: Client, answers: seq<ReadAnswer>)
    requires NextLoop(c, answers).1.Done?
    ensures NextLoop(c, answers).0.tc.keepAlive == c.tc.keepAlive
    ensures NextLoop(c, answers).1 == Done(Ok(SendPing)) ==> !Untimed(answers)
    decreases |answers|
  {
    hide Check, Received;
    var after := AfterRead(c, answers[0]).0;
    if answers[0].Chunk? {
      if Check(after.used, after.rxCapacity).Ok? {
        ReceivedFacts(after.tc, after.used);
      } else {
        NextLoopTimer(after, answers[1..]);
        assert forall i :: 0 <= i < |answers| - 1 ==> answers[1..][i] == answers[i + 1];
      }
    }
  }

  lemma {:induction false} ConnackLoopTimer(c: Client, answers: seq<ReadAnswer>)
    ensures ConnackLoop(c, answers).0.tc.keepAlive == c.tc.keepAlive
    decreases |answers|
  {
    hide Received, DropPrefix;
    if answers != [] && answers[0].Chunk? {
      var after := AfterRead(c, answers[0]).0;
      ReceivedFacts(after.tc, after.used);
      ConnackLoopTimer(after.(tc := Received(after.tc, after.used).0), answers[1..]);
    }
  }

  lemma WriteTimer(c: Client, answer: WriteAnswer)
    ensures AfterWrite(c, answer).0.tc.keepAlive == c.tc.keepAlive
  {
  }

  lemma ConnectTimer(c: Client, options: ConnectOptions, wrote: WriteAnswer, answers: seq<ReadAnswer>)
    ensures AfterConnect(c, options, wrote, answers).0.tc.keepAlive == FromSeconds(options.keepAlive)
  {
    hide ConnackLoop, ConnectOutcome, FromSeconds, AfterWrite;
    var c0 := Restarted(c, options);
    WriteTimer(c0, wrote);
    ConnackLoopTimer(AfterWrite(c0, wrote).0, answers);
  }

  lemma SubscribeTimer(c: Client, s: Subscription, first: WriteAnswer, second: WriteAnswer)
    ensures AfterSubscribe(c, s, first, second).0.tc.keepAlive == c.tc.keepAlive
  {
    hide SubscriptionOutcome, AfterWrite;
    WriteTimer(c, first);
    WriteTimer(AfterWrite(c, first).0, second);
  }

  lemma SendTimer(c: Client, request: Request, answer: WriteAnswer)
    requires Askable(c, request)
    ensures AfterSend(c, request, answer).0.tc.keepAlive == c.tc.keepAlive
  {
    hide RequestBytes, AfterWrite;
    WriteTimer(c, answer);
  }

  lemma StepTimer(w: World, call: Call)
    requires TimerInv(w) && Returns(w, call)
    ensures TimerInv(Step(w, call))
  {
    hide AfterConnect, NextLoop, AfterSend, AfterSubscribe, ConnectAttempts, SubscribeAttempts, SendAttempts,
      DropPrefix, Front, FromSeconds, DataOf, Untimed, Solid;
    match call {
      case ConnectCall(options, wrote, answers) =>
        ConnectTimer(w.client, options, wrote, answers);
      case ConnectSubscribeCall(options, wrote, answers, s, first, second) =>
        ConnectTimer(w.client, options, wrote, answers);
        SubscribeTimer(AfterConnect(w.client, options, wrote, answers).0, s, first, second);
      case NextCall(answers) =>
        if !w.client.IsDisconnected() {
          NextLoopTimer(w.client, answers);
        }
      case CompleteCall(completion, answer) =>
        SendTimer(w.client.(used := DropPrefix(w.client.used, completion.taken)), Fixed(completion.action), answer);
      case SendCall(request, answer) =>
        SendTimer(w.client, request, answer);
    }
  }

  lemma {:induction false} RunTimer(w: World, calls: seq<Call>)
    requires TimerInv(w) && Runs(w, calls)
    ensures TimerInv(End(w, calls))
    decreases |calls|
  {
    hide TimerInv, Step, Returns;
    if calls != [] {
      StepTimer(w, calls[0]);
      RunTimer(Step(w, calls[0]), calls[1..]);
    }
  }

  /**
   In every run, polite or not: the client keeps the interval asked for, in milliseconds, and without keep-alive no ping
   is ever asked for.
   */
  lemma PingsNeedKeepAlive(rxCapacity: nat, txCapacity: nat, calls: seq<Call>)
    requires Runs(Start(rxCapacity, txCapacity), calls)
    ensures var w := End(Start(rxCapacity, txCapacity), calls);
            && (w.options.Some? ==> w.client.tc.keepAlive == 1000 * w.options.value.keepAlive as nat)
            && (w.options.Some? && w.options.value.keepAlive == 0 ==> PingTurn !in w.heard)
  {
    hide Runs, End;
    RunTimer(Start(rxCapacity, txCapacity), calls);
  }

  /**
   In every run, the time a read is given once a write has been accepted at `now`: what is left at `asked` of the
   seconds in the options, counted from `now`.
   */
  lemma TimeoutAfterWrite(rxCapacity: nat, txCapacity: nat, calls: seq<Call>, now: Instant, asked: Instant)
    requires Runs(Start(rxCapacity, txCapacity), calls)
    requires End(Start(rxCapacity, txCapacity), calls).options.Some?
    requires !End(Start(rxCapacity, txCapacity), calls).client.IsDisconnected()
    ensures var w := End(Start(rxCapacity, txCapacity), calls);
            var (after, _) := AfterWrite(w.client, Wrote(now));
            var seconds := w.options.value.keepAlive as nat;
            var sum := now.milliseconds + 1000 * seconds;
            var due := if sum > 18_446_744_073_709_551_615 then 18_446_744_073_709_551_615 else sum;
            && TimedReads(after.tc, [asked])
               == [ClockRead(asked),
                   ReadCall(if seconds == 0 then None
                            else Some(if asked.milliseconds >= due then 0 else due - asked.milliseconds))]
  {
    hide Runs, End;
    PingsNeedKeepAlive(rxCapacity, txCapacity, calls);
    var tc := AfterWrite(End(Start(rxCapacity, txCapacity), calls).client, Wrote(now)).0.tc;
    assert TimedReads(tc, [asked]) == [ClockRead(asked), ReadCall(NextPingIn(tc, asked))] by {
      TimedOnce(tc, asked);
    }
  }

  // ---- The whole trace ----

  /**
   In every run of connects and default completions: everything sent since the last connect is the greeting and then, in
   the order of delivery and once each, the answers to the deliveries completed so far: the required acknowledgement of
   each packet and one PINGREQ for each ping request. Nothing else is sent. While the connection lives none is missing.
   */
  lemma NothingButAnswers(rxCapacity: nat, txCapacity: nat, calls: seq<Call>)
    requires PoliteRun(Start(rxCapacity, txCapacity), calls) && Quiet(calls)
    ensures DisciplinedRun(Start(rxCapacity, txCapacity), calls) && Runs(Start(rxCapacity, txCapacity), calls)
    ensures var w := End(Start(rxCapacity, txCapacity), calls);
            var due := Due([], [], calls, txCapacity).0 + AnswersTo(Completed(w), txCapacity);
            && SoFar(Accepted(AttemptsOf(w.log)), due, !w.client.IsDisconnected())
            && |w.frames| <= |w.notes| && NotesOf(w.heard) == w.notes && NotesOf(Completed(w)) == w.notes[..|w.frames|]
  {
    hide PoliteRun, DisciplinedRun, Runs, End, Due, Quiet, AnswersTo, Accepted, AttemptsOf, FirstNote;
    var w0 := Start(rxCapacity, txCapacity);
    OrderedReplies(rxCapacity, txCapacity, calls);
    NothingHeard(w0);
    RunAnswers(w0, calls, [], []);
    FlattenOfNone();
    RunKeeps(w0, calls);
    CompletedNotes(End(w0, calls));
  }

  lemma FlattenOfNone()
    ensures Flatten([]) == []
  {
  }

  lemma NothingHeard(w: World)
    requires w.heard == [] && w.notes == [] && w.pending == None && !w.pingPending && w.log == []
    ensures AnswerInv(w, [])
  {
    NothingSent();
    assert AttemptsOf(w.log) == [];
  }

  /**
   Two readings of that trace, for a buffer that holds an acknowledgement: with the PINGREQs taken out, the answers are
   the required acknowledgements of the packets completed; and without keep-alive they are so as they stand.
   */
  lemma AnswersRead(rxCapacity: nat, txCapacity: nat, calls: seq<Call>)
    requires PoliteRun(Start(rxCapacity, txCapacity), calls) && Quiet(calls) && txCapacity >= 4
    ensures Runs(Start(rxCapacity, txCapacity), calls)
    ensures var w := End(Start(rxCapacity, txCapacity), calls);
            var answers, required := AnswersTo(Completed(w), txCapacity), Replies(NotesOf(Completed(w)));
            && Without(answers, Encode(PingReqPacket)) == required
            && |answers| == |required| + |Completed(w)| - |NotesOf(Completed(w))|
            && (w.options.Some? && w.options.value.keepAlive == 0 ==> answers == required)
  {
    hide PoliteRun, Runs, End, Quiet, Encode, Replies, Without, AnswersTo, NotesOf;
    NothingButAnswers(rxCapacity, txCapacity, calls);
    PingsNeedKeepAlive(rxCapacity, txCapacity, calls);
    var w := End(Start(rxCapacity, txCapacity), calls);
    AnswersWithPings(Completed(w), txCapacity);
    if PingTurn !in w.heard {
      AnswersAreReplies(Completed(w), txCapacity);
    }
  }
}
