/** The session automaton inside the client: every run of the client is a history of automaton events. */
module ClientHistories {
  import opened Bytes
  import opened Wire
  import opened Connects
  import opened Time
  import opened Transports
  import opened Buffers
  import opened ClientNotifications
  import opened ClientSpec
  import opened Frames
  import opened ClientRuns
  import opened Sessions

  // ---- Events from any state ----

  function Apply(t: Transport, es: seq<Event>): Transport {
    if es == [] then t else Sessions.Step(Apply(t, es[..|es| - 1]), es[|es| - 1])
  }

  lemma {:induction false} ApplyConcat(t: Transport, a: seq<Event>, b: seq<Event>)
    ensures Apply(t, a + b) == Apply(Apply(t, a), b)
    decreases |b|
  {
    hide Sessions.Step;
    if b == [] {
      assert a + b == a;
    } else {
      assert (a + b)[..|a + b| - 1] == a + b[..|b| - 1];
      ApplyConcat(t, a, b[..|b| - 1]);
    }
  }

  lemma ApplyOne(t: Transport, e: Event)
    ensures Apply(t, []) == t && Apply(t, [e]) == Sessions.Step(t, e)
  {
    hide Sessions.Step;
    assert [e][..0] == [];
    assert Apply(t, [e]) == Sessions.Step(Apply(t, []), e);
  }

  lemma ApplyFirst(t: Transport, e: Event, es: seq<Event>)
    ensures Apply(t, [e] + es) == Apply(Sessions.Step(t, e), es)
  {
    hide Sessions.Step;
    ApplyConcat(t, [e], es);
    ApplyOne(t, e);
  }

  lemma {:induction false} ApplyFromFresh(max: nat, es: seq<Event>)
    ensures Apply(Fresh(max), es) == Run(max, es)
  {
    hide Sessions.Step;
    if es != [] {
      ApplyFromFresh(max, es[..|es| - 1]);
    }
  }

  // ---- The events of each operation ----

  function WriteEvents(c: Client, answer: WriteAnswer): seq<Event> {
    if c.IsDisconnected() then []
    else match answer
      case Wrote(now) => [PacketSent(now)]
      case WriteRefused => [TransportClosed]
  }

  /** `next_notification` shows its window to the automaton once, when it starts with a packet. */
  function NextEvents(c: Client, answers: seq<ReadAnswer>): seq<Event>
    decreases |answers|
  {
    if answers == [] || answers[0].TimedOut? then []
    else if !answers[0].Chunk? then [TransportClosed]
    else
      var after := AfterRead(c, answers[0]).0;
      if Check(after.used, after.rxCapacity).Ok? then [BytesReceived(after.used)] else NextEvents(after, answers[1..])
  }

  /** `read_connack` shows its window after every read. */
  function ConnackEvents(c: Client, answers: seq<ReadAnswer>): seq<Event>
    decreases |answers|
  {
    if answers == [] || answers[0].TimedOut? then []
    else if !answers[0].Chunk? then [TransportClosed]
    else
      var after := AfterRead(c, answers[0]).0;
      var (tc, reply) := Received(after.tc, after.used);
      [BytesReceived(after.used)]
      + if reply == Ok(None) then ConnackEvents(after.(tc := tc), answers[1..]) else []
  }

  function ConnectEvents(c: Client, options: ConnectOptions, wrote: WriteAnswer, answers: seq<ReadAnswer>): seq<Event> {
    var c0 := Restarted(c, options);
    [TransportOpened(options)]
    + if ConnectOutcome(c, options).Err? then []
      else WriteEvents(c0, wrote) + if wrote.Wrote? then ConnackEvents(AfterWrite(c0, wrote).0, answers) else []
  }

  function SubscribeEvents(c: Client, s: Subscription, first: WriteAnswer, second: WriteAnswer): seq<Event> {
    if SubscriptionOutcome(s, c.txCapacity).Err? then []
    else WriteEvents(c, first) + if first.Wrote? then WriteEvents(AfterWrite(c, first).0, second) else []
  }

  function SendEvents(c: Client, request: Request, answer: WriteAnswer): seq<Event>
    requires Askable(c, request)
  {
    if request == Fixed(NoAction) || RequestBytes(request, c.txCapacity).Err? then [] else WriteEvents(c, answer)
  }

  function EventsOf(w: World, call: Call): seq<Event>
    requires Returns(w, call)
  {
    match call
    case ConnectCall(options, wrote, answers) => ConnectEvents(w.client, options, wrote, answers)
    case ConnectSubscribeCall(options, wrote, answers, s, first, second) =>
      var (c1, reply) := AfterConnect(w.client, options, wrote, answers);
      ConnectEvents(w.client, options, wrote, answers)
      + if Connacked(reply) then SubscribeEvents(c1, s, first, second) else []
    case NextCall(answers) => if w.client.IsDisconnected() then [] else NextEvents(w.client, answers)
    case CompleteCall(completion, answer) => SendEvents(w.client, Fixed(completion.action), answer)
    case SendCall(request, answer) => SendEvents(w.client, request, answer)
  }

  /** The automaton's history in a run of the client. */
  function History(w: World, calls: seq<Call>): seq<Event>
    requires Runs(w, calls)
    decreases |calls|
  {
    if calls == [] then [] else EventsOf(w, calls[0]) + History(ClientRuns.Step(w, calls[0]), calls[1..])
  }

  // ---- The automaton moves by these events only ----

  lemma WriteMoves(c: Client, answer: WriteAnswer)
    ensures AfterWrite(c, answer).0.tc == Apply(c.tc, WriteEvents(c, answer))
  {
    hide Sent, Closed;
    ApplyOne(c.tc, if answer.Wrote? then PacketSent(answer.now) else TransportClosed);
  }

  lemma {:induction false} NextMoves(c: Client, answers: seq<ReadAnswer>)
    requires NextLoop(c, answers).1.Done?
    ensures NextLoop(c, answers).0.tc == Apply(c.tc, NextEvents(c, answers))
    decreases |answers|
  {
    hide Check, Received, Closed, Apply;
    var after := AfterRead(c, answers[0]).0;
    ApplyOne(c.tc, TransportClosed);
    ApplyOne(c.tc, BytesReceived(after.used));
    if answers[0].Chunk? && Check(after.used, after.rxCapacity).Err? {
      NextMoves(after, answers[1..]);
    }
  }

  lemma {:induction false} ConnackMoves(c: Client, answers: seq<ReadAnswer>)
    requires ConnackLoop(c, answers).1.Done?
    ensures ConnackLoop(c, answers).0.tc == Apply(c.tc, ConnackEvents(c, answers))
    decreases |answers|
  {
    hide Received, Closed, DropPrefix, Apply;
    var after := AfterRead(c, answers[0]).0;
    ApplyOne(c.tc, TransportClosed);
    if answers[0].Chunk? {
      var (tc, reply) := Received(after.tc, after.used);
      if reply == Ok(None) {
        var last := after.(tc := tc);
        ConnackMoves(last, answers[1..]);
        ApplyFirst(c.tc, BytesReceived(after.used), ConnackEvents(last, answers[1..]));
      } else {
        ApplyOne(c.tc, BytesReceived(after.used));
        assert [BytesReceived(after.used)] + [] == [BytesReceived(after.used)];
      }
    }
  }

  lemma ConnectMoves(c: Client, options: ConnectOptions, wrote: WriteAnswer, answers: seq<ReadAnswer>)
    requires AfterConnect(c, options, wrote, answers).1.Done?
    ensures AfterConnect(c, options, wrote, answers).0.tc == Apply(c.tc, ConnectEvents(c, options, wrote, answers))
  {
    hide ConnackLoop, ConnackEvents, ConnectOutcome, WriteEvents, Apply, FirstNote, DropPrefix;
    ConnectFacts(c, options, wrote, answers);
    var c0 := Restarted(c, options);
    ApplyOne(c.tc, TransportOpened(options));
    assert [TransportOpened(options)] + [] == [TransportOpened(options)];
    if ConnectOutcome(c, options).Ok? {
      WriteMoves(c0, wrote);
      var written := WriteEvents(c0, wrote);
      if wrote.Wrote? {
        var c1 := AfterWrite(c0, wrote).0;
        ConnackMoves(c1, answers);
        ApplyConcat(c0.tc, written, ConnackEvents(c1, answers));
        ApplyFirst(c.tc, TransportOpened(options), written + ConnackEvents(c1, answers));
      } else {
        assert written + [] == written;
        ApplyFirst(c.tc, TransportOpened(options), written);
      }
    }
  }

  lemma SubscribeMoves(c: Client, s: Subscription, first: WriteAnswer, second: WriteAnswer)
    ensures AfterSubscribe(c, s, first, second).0.tc == Apply(c.tc, SubscribeEvents(c, s, first, second))
  {
    hide SubscriptionOutcome, WriteEvents, Apply, AfterWrite;
    ApplyOne(c.tc, TransportClosed);
    WriteMoves(c, first);
    var c1 := AfterWrite(c, first).0;
    WriteMoves(c1, second);
    ApplyConcat(c.tc, WriteEvents(c, first), WriteEvents(c1, second));
    assert WriteEvents(c, first) + [] == WriteEvents(c, first);
    WriteFails(c, first, second);
  }

  lemma WriteFails(c: Client, first: WriteAnswer, second: WriteAnswer)
    ensures AfterWrite(c, first).1.Err? && first.Wrote? ==>
              AfterWrite(c, first).0 == c && WriteEvents(c, first) == [] && WriteEvents(c, second) == []
    ensures AfterWrite(c, first).1.Ok? ==> first.Wrote?
  {
  }

  lemma SendMoves(c: Client, request: Request, answer: WriteAnswer)
    requires Askable(c, request)
    ensures AfterSend(c, request, answer).0.tc == Apply(c.tc, SendEvents(c, request, answer))
  {
    hide RequestBytes, WriteEvents, Apply, AfterWrite;
    ApplyOne(c.tc, TransportClosed);
    WriteMoves(c, answer);
  }

  lemma StepMoves(w: World, call: Call)
    requires Returns(w, call)
    ensures ClientRuns.Step(w, call).client.tc == Apply(w.client.tc, EventsOf(w, call))
  {
    hide AfterConnect, NextLoop, NextEvents, AfterSend, AfterSubscribe, SendEvents, SubscribeEvents, ConnectEvents,
      Apply, Front, DropPrefix, ConnectAttempts, SendAttempts, SubscribeAttempts;
    ApplyOne(w.client.tc, TransportClosed);
    match call {
      case ConnectCall(options, wrote, answers) =>
        ConnectMoves(w.client, options, wrote, answers);
      case ConnectSubscribeCall(options, wrote, answers, s, first, second) =>
        ConnectMoves(w.client, options, wrote, answers);
        var c1 := AfterConnect(w.client, options, wrote, answers).0;
        var connecting := ConnectEvents(w.client, options, wrote, answers);
        SubscribeMoves(c1, s, first, second);
        ApplyConcat(w.client.tc, connecting, SubscribeEvents(c1, s, first, second));
        assert connecting + [] == connecting;
      case NextCall(answers) =>
        if !w.client.IsDisconnected() {
          NextMoves(w.client, answers);
        }
      case CompleteCall(completion, answer) =>
        var c := w.client.(used := DropPrefix(w.client.used, completion.taken));
        SendMoves(c, Fixed(completion.action), answer);
        SameEvents(w.client, c, Fixed(completion.action), answer);
      case SendCall(request, answer) =>
        SendMoves(w.client, request, answer);
    }
  }

  lemma SameEvents(a: Client, b: Client, request: Request, answer: WriteAnswer)
    requires a.tc == b.tc && a.txCapacity == b.txCapacity && Askable(a, request)
    ensures SendEvents(a, request, answer) == SendEvents(b, request, answer)
  {
    hide RequestBytes;
  }

  lemma {:induction false} RunMoves(w: World, calls: seq<Call>)
    requires Runs(w, calls)
    ensures End(w, calls).client.tc == Apply(w.client.tc, History(w, calls))
    decreases |calls|
  {
    hide Apply, ClientRuns.Step, Returns, EventsOf;
    ApplyOne(w.client.tc, TransportClosed);
    if calls != [] {
      var next := ClientRuns.Step(w, calls[0]);
      StepMoves(w, calls[0]);
      RunMoves(next, calls[1..]);
      ApplyConcat(w.client.tc, EventsOf(w, calls[0]), History(next, calls[1..]));
    }
  }

  /**
   In every run, the automaton inside the client is where its history of events leaves an automaton on its own. So the
   client is connected exactly if a successful CONNACK was parsed and nothing has ended the connection since, and its
   keep-alive timer is the one the history calls for.
   */
  lemma AutomatonOfRun(rxCapacity: nat, txCapacity: nat, calls: seq<Call>, now: Instant)
    requires Runs(Start(rxCapacity, txCapacity), calls)
    ensures var w := End(Start(rxCapacity, txCapacity), calls);
            var es := History(Start(rxCapacity, txCapacity), calls);
            && w.client.tc == Run(rxCapacity, es)
            && (w.client.tc.state == Connected <==> exists i: nat :: AcceptedAt(rxCapacity, es, |es|, i))
            && NextPingIn(w.client.tc, now) == PingDue(es, now)
  {
    hide Runs, End, History, Run, Apply, AcceptedAt;
    var w0 := Start(rxCapacity, txCapacity);
    var es := History(w0, calls);
    RunMoves(w0, calls);
    ApplyFromFresh(rxCapacity, es);
    ConnectedIff(rxCapacity, es, |es|);
    assert es[..|es|] == es;
    PingIsDue(rxCapacity, es, now);
  }
}
