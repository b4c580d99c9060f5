/** The loop the client is made for: next notification, default completion, and again. */
module ClientLoops {
  import opened Bytes
  import opened Connects
  import opened ClientNotifications
  import opened Platforms
  import opened ClientSpec
  import opened Frames
  import opened ClientRuns
  import opened ClientReplies
  import opened ClientGating
  import opened ClientTraces
  import opened ClientMessages
  import opened NanoClients

  lemma {:induction false} PoliteSnoc(w: World, calls: seq<Call>, call: Call)
    requires PoliteRun(w, calls) && Runs(w, calls)
    requires Returns(End(w, calls), call) && Polite(End(w, calls), call)
    ensures PoliteRun(w, calls + [call]) && Runs(w, calls + [call])
    ensures End(w, calls + [call]) == Step(End(w, calls), call)
    decreases |calls|
  {
    hide Step, Returns, Polite;
    if calls == [] {
      assert calls + [call] == [call];
      var next := Step(w, call);
      assert [call][1..] == [] && PoliteRun(next, []) && Runs(next, []) && End(next, []) == next;
    } else {
      assert (calls + [call])[1..] == calls[1..] + [call];
      PoliteSnoc(Step(w, calls[0]), calls[1..], call);
    }
  }

  lemma NextReturns(w: World, answers: seq<ReadAnswer>)
    requires w.pending.None? && !w.pingPending
    requires AfterNext(w.client, answers).1.Done? && Possible(w.client, |w.client.used|, answers)
    ensures Returns(w, NextCall(answers)) && Polite(w, NextCall(answers))
    ensures Step(w, NextCall(answers)) == AfterNextCall(w, answers)
    ensures var (client, Done(r)) := AfterNext(w.client, answers);
            var next := AfterNextCall(w, answers);
            && next.client == client && next.received == w.received + DataOf(answers) && next.log == w.log
            && (next.pingPending <==> r == Ok(SendPing))
            && next.pending
               == (if r.Ok? && r.value.Taken() > 0 then Some((r.value.notification, r.value.taken)) else None)
            && (r.Ok? && r.value.TransportNotification? && r.value.taken == 0 ==>
                  r.value.notification.DisconnectedNote?)
  {
    hide AfterNext, DataOf, FirstNote;
    NextFacts(w.client, answers);
  }

  lemma CompleteReturns(w: World, n: ClientNotification, answer: WriteAnswer)
    requires n.Taken() > 0 ==> w.pending == Some((n.notification, n.taken))
    requires w.pingPending <==> n.SendPing?
    requires n.TransportNotification? && n.taken == 0 ==> n.notification.DisconnectedNote?
    ensures Returns(w, CompleteCall(n.Complete(), answer)) && Polite(w, CompleteCall(n.Complete(), answer))
    ensures Step(w, CompleteCall(n.Complete(), answer)) == AfterCompleteCall(w, n.Complete(), answer)
    ensures n.Taken() == 0 ==> AfterCompleteCall(w, n.Complete(), answer).pending == w.pending
    ensures n.Taken() > 0 ==> AfterCompleteCall(w, n.Complete(), answer).pending == None
    ensures !AfterCompleteCall(w, n.Complete(), answer).pingPending
  {
    hide AfterComplete, CompleteAttempts;
  }

  /**
   `rounds` turns of the loop on a connected client, against any environment. The calls it makes form a polite run of
   the client's history `w`, so every law about such runs holds of it; the environment's own records agree with the
   history.
   */
  method RunClient(client: NanoClient, platform: Platform, rounds: nat, ghost w: World)
    returns (r: Result<(), ClientError>, ghost calls: seq<Call>)
    requires client.Valid() && w.client == client.View() && w.pending.None? && !w.pingPending
    modifies client.tc, client.txBuffer, client.rx, client.rx.buffer, platform
    ensures client.Valid() && PoliteRun(w, calls) && Runs(w, calls) && End(w, calls).client == client.View()
    ensures w.received <= End(w, calls).received && Looping(calls)
    ensures platform.received == old(platform.received) + End(w, calls).received[|w.received|..]
    ensures old(platform.log) <= platform.log
    ensures AttemptsOf(End(w, calls).log) == AttemptsOf(w.log) + platform.log[|old(platform.log)|..]
  {
    hide AfterNextCall, AfterCompleteCall, AfterNext, AfterComplete, CompleteAttempts, AttemptsOf, Tagged, DataOf,
      PoliteRun, Runs, End, Step, Returns, Polite, ClientNotification.Complete, NanoClient.View;
    calls := [];
    ghost var now := w;
    ghost var got: bytes := [];
    assert PoliteRun(w, calls) && Runs(w, calls) && End(w, calls) == w by {
      EmptyRun(w);
    }
    for i := 0 to rounds
      invariant client.Valid() && now.client == client.View() && now.pending.None? && !now.pingPending
      invariant PoliteRun(w, calls) && Runs(w, calls) && End(w, calls) == now && Looping(calls)
      invariant now.received == w.received + got && platform.received == old(platform.received) + got
      invariant old(platform.log) <= platform.log
      invariant AttemptsOf(now.log) == AttemptsOf(w.log) + platform.log[|old(platform.log)|..]
    {
      var next;
      ghost var answers;
      ghost var nows;
      next, answers, nows := client.NextNotification(platform);
      NextReturns(now, answers);
      PoliteSnoc(w, calls, NextCall(answers));
      calls := calls + [NextCall(answers)];
      now := AfterNextCall(now, answers);
      got := got + DataOf(answers);
      if next.Err? {
        return Err(next.error), calls;
      }
      var completion := next.value.Complete();
      var done;
      ghost var answer;
      ghost var attempts;
      ghost var before := now;
      label Completing:
      done, answer := client.CompleteNotification(platform, completion);
      CompleteReturns(now, next.value, answer);
      PoliteSnoc(w, calls, CompleteCall(completion, answer));
      calls := calls + [CompleteCall(completion, answer)];
      now := AfterCompleteCall(now, completion, answer);
      attempts := CompleteAttempts(before.client, completion, answer);
      LogGrows(before, completion, answer);
      assert platform.log[|old(platform.log)|..] == old@Completing(platform.log)[|old(platform.log)|..] + attempts;
      if done.Err? {
        return Err(done.error), calls;
      }
    }
    return Ok(()), calls;
  }

  lemma EmptyRun(w: World)
    ensures PoliteRun(w, []) && Runs(w, []) && End(w, []) == w && Looping([])
  {
  }

  lemma LogGrows(w: World, completion: NotificationCompletion, answer: WriteAnswer)
    ensures var next := AfterCompleteCall(w, completion, answer);
            && AttemptsOf(next.log) == AttemptsOf(w.log) + CompleteAttempts(w.client, completion, answer)
            && next.received == w.received && next.client == AfterComplete(w.client, completion, answer).0
  {
    hide AfterComplete, CompleteAttempts, AttemptsOf, Tagged;
    var attempts := CompleteAttempts(w.client, completion, answer);
    var cause := CauseOf(completion);
    AttemptsOfConcat(w.log, Tagged(attempts, cause));
    AttemptsOfTagged(attempts, cause);
  }

  /** What a session greets with: CONNECT, and SUBSCRIBE if there is a subscription. */
  function Greeting(options: ConnectOptions, s: Option<Subscription>, room: nat): seq<bytes> {
    if !ConnectFits(options, room) then []
    else [EncodeConnect(options.AsConnect())] + if s.Some? then SubscribeParts(s.value, room) else []
  }

  /** What the greeting says, as far as it was sent. */
  lemma GreetingSays(options: ConnectOptions, s: Option<Subscription>, room: nat, sent: seq<bytes>, answers: seq<bytes>,
                     alive: bool)
    requires SoFar(sent, Greeting(options, s, room) + answers, alive)
    ensures var greeting := Greeting(options, s, room);
            && (greeting != [] && sent != [] ==> (CarriesOptions(sent[0], options) <==> ShortOptions(options)))
            && (|greeting| == 3 && |sent| >= 3 ==>
                  s.Some? && (CarriesSubscription(sent[1] + sent[2], s.value.ops) <==> s.value.ops != []))
  {
    hide CarriesOptions, ShortOptions, CarriesSubscription, ConnectFits, EncodeConnect, SubscriptionOutcome,
      SubscribeHeader, SubscribePayload;
    var greeting := Greeting(options, s, room);
    if greeting != [] && sent != [] {
      assert sent[0] == greeting[0];
      GreetingCarriesIff(ConnectCall(options, WriteRefused, []), options, room);
    }
    if |greeting| == 3 && |sent| >= 3 {
      assert sent[1] == greeting[1] && sent[2] == greeting[2];
      SubscriptionCarriesIff(s.value, room);
    }
  }

  /** `call` is the opening call of a session, and leads from `w` to `client`. */
  ghost predicate Opens(w: World, call: Call, options: ConnectOptions, s: Option<Subscription>, client: Client) {
    && Connecting(call) && Returns(w, call) && Polite(w, call)
    && GreetingOf(call, w.client.txCapacity) == Greeting(options, s, w.client.txCapacity)
    && var next := Step(w, call);
       next.client == client && next.options == Some(options) && next.pending.None? && !next.pingPending
  }

  lemma ConnectOpens(w: World, options: ConnectOptions, wrote: WriteAnswer, answers: seq<ReadAnswer>)
    requires Possible(w.client, 0, answers) && AfterConnect(w.client, options, wrote, answers).1.Done?
    ensures var call := ConnectCall(options, wrote, answers);
            && Opens(w, call, options, None, AfterConnect(w.client, options, wrote, answers).0)
            && Step(w, call).received == DataOf(answers)
            && AttemptsOf(Step(w, call).log) == ConnectAttempts(w.client, options, wrote)
  {
    hide AfterConnect, ConnectAttempts, DataOf, Tagged, AttemptsOf, Solid, Untimed, ConnectFits, Front;
    AttemptsOfTagged(ConnectAttempts(w.client, options, wrote), Handshake);
  }

  lemma ConnectSubscribeOpens(w: World, options: ConnectOptions, wrote: WriteAnswer, answers: seq<ReadAnswer>,
                              s: Subscription, first: WriteAnswer, second: WriteAnswer)
    requires Possible(w.client, 0, answers) && AfterConnect(w.client, options, wrote, answers).1.Done?
    ensures var call := ConnectSubscribeCall(options, wrote, answers, s, first, second);
            var client := AfterConnectSubscribe(w.client, options, wrote, answers, s, first, second).0;
            var attempts := ConnectSubscribeAttempts(w.client, options, wrote, answers, s, first, second);
            && Opens(w, call, options, Some(s), client)
            && Step(w, call).received == DataOf(answers)
            && AttemptsOf(Step(w, call).log) == attempts
  {
    hide AfterConnect, AfterSubscribe, ConnectAttempts, SubscribeAttempts, DataOf, Tagged, AttemptsOf, Solid, Untimed,
      ConnectFits, SubscribeParts, Front;
    var connecting := ConnectAttempts(w.client, options, wrote);
    AttemptsOfTagged(connecting, Handshake);
    var (c1, reply) := AfterConnect(w.client, options, wrote, answers);
    if Connacked(reply) {
      OnlyAcceptedConnAcks(w.client, options, wrote, answers);
      var subscribing := SubscribeAttempts(c1, s, first, second);
      AttemptsOfTagged(subscribing, Handshake);
      AttemptsOfConcat(Tagged(connecting, Handshake), Tagged(subscribing, Handshake));
    } else {
      assert connecting + [] == connecting;
    }
  }

  lemma FirstCall(w: World, call: Call, calls: seq<Call>)
    requires Returns(w, call) && Polite(w, call) && PoliteRun(Step(w, call), calls) && Runs(Step(w, call), calls)
    ensures PoliteRun(w, [call] + calls) && Runs(w, [call] + calls)
    ensures End(w, [call] + calls) == End(Step(w, call), calls)
  {
    hide Returns, Polite, Step;
    assert ([call] + calls)[1..] == calls;
  }

  /** A run of the loop: it waits and completes. */
  predicate Looping(calls: seq<Call>) {
    forall i :: 0 <= i < |calls| ==> calls[i].NextCall? || calls[i].CompleteCall?
  }

  lemma OneGreeting(call: Call, calls: seq<Call>, room: nat)
    requires Connecting(call) && Looping(calls)
    ensures Quiet([call] + calls) && Due([], [], [call] + calls, room).0 == GreetingOf(call, room)
  {
    hide GreetingOf, AskedBy;
    assert ([call] + calls)[1..] == calls;
    KeptGreeting(GreetingOf(call, room), [], calls, room);
  }

  lemma {:induction false} KeptGreeting(greeting: seq<bytes>, asked: seq<bytes>, calls: seq<Call>, room: nat)
    requires Looping(calls)
    ensures Due(greeting, asked, calls, room).0 == greeting
    decreases |calls|
  {
    hide AskedBy;
    if calls != [] {
      KeptGreeting(greeting, asked + AskedBy(calls[0], room), calls[1..], room);
    }
  }

  /** The laws of whole runs, for one opening call and then the loop. */
  lemma SessionLaws(rxCapacity: nat, txCapacity: nat, call: Call, calls: seq<Call>)
    requires Connecting(call) && Looping(calls) && PoliteRun(Start(rxCapacity, txCapacity), [call] + calls)
    ensures Runs(Start(rxCapacity, txCapacity), [call] + calls)
    ensures var w := End(Start(rxCapacity, txCapacity), [call] + calls);
            && w.received == Flatten(w.frames) + w.client.used && |w.frames| <= |w.notes| <= |w.frames| + 1
            && WholeFrames(w.frames, w.notes[..|w.frames|], rxCapacity) && w.notes <= Notes(w.received, rxCapacity)
            && NotesOf(w.heard) == w.notes && NotesOf(Completed(w)) == w.notes[..|w.frames|]
            && SoFar(Accepted(AttemptsOf(w.log)), GreetingOf(call, txCapacity) + AnswersTo(Completed(w), txCapacity),
                     !w.client.IsDisconnected())
            && (w.options.Some? && w.options.value.keepAlive == 0 ==> PingTurn !in w.heard)
            && (txCapacity >= 4 ==>
                  Without(AnswersTo(Completed(w), txCapacity), [0xC0, 0]) == AnswersInBytes(w.frames, rxCapacity))
  {
    hide PoliteRun, DisciplinedRun, Runs, End, WholeFrames, Notes, Accepted, AttemptsOf, AnswersTo, NotesOf, Due,
      GreetingOf, Looping, Quiet, Flatten, Without, AnswersInBytes, SoFar;
    OneGreeting(call, calls, txCapacity);
    if txCapacity >= 4 {
      RunInBytes(rxCapacity, txCapacity, [call] + calls);
    }
    NothingButAnswers(rxCapacity, txCapacity, [call] + calls);
    PingsNeedKeepAlive(rxCapacity, txCapacity, [call] + calls);
    Conservation(rxCapacity, txCapacity, [call] + calls);
  }

  lemma {:induction false} OptionsStay(w: World, calls: seq<Call>)
    requires Runs(w, calls) && Looping(calls)
    ensures End(w, calls).options == w.options
    decreases |calls|
  {
    hide AfterNext, AfterComplete, CompleteAttempts, Front, Returns;
    if calls != [] {
      OptionsStay(Step(w, calls[0]), calls[1..]);
    }
  }

  /** `connect`, or `connect_subscribe` if there is a subscription, on a new client. */
  method Open(client: NanoClient, platform: Platform, options: ConnectOptions, s: Option<Subscription>)
    returns (r: Result<(), ClientError>, ghost call: Call)
    requires client.Valid() && client.View() == Start(client.rx.buffer.Length, client.txBuffer.Length).client
    modifies client.tc, client.txBuffer, client.rx, client.rx.buffer, platform
    ensures var w0 := Start(client.rx.buffer.Length, client.txBuffer.Length);
            && client.Valid() && Opens(w0, call, options, s, client.View())
            && platform.received == old(platform.received) + Step(w0, call).received
            && platform.log == old(platform.log) + AttemptsOf(Step(w0, call).log)
  {
    hide AfterConnect, ConnectAttempts, AfterConnectSubscribe, ConnectSubscribeAttempts, AttemptsOf, DataOf, Step,
      Opens, Possible;
    ghost var w0 := Start(client.rx.buffer.Length, client.txBuffer.Length);
    var connack;
    ghost var wrote, answers, taken;
    if s.None? {
      connack, wrote, answers, taken := client.Connect(platform, options);
      call := ConnectCall(options, wrote, answers);
      ConnectOpens(w0, options, wrote, answers);
    } else {
      ghost var first, second;
      connack, wrote, answers, taken, first, second := client.ConnectSubscribe(platform, options, s.value);
      SubscribedFromConnected(w0.client, options, wrote, answers, s.value, first, second);
      call := ConnectSubscribeCall(options, wrote, answers, s.value, first, second);
      ConnectSubscribeOpens(w0, options, wrote, answers, s.value, first, second);
    }
    r := if connack.Ok? then Ok(()) else Err(connack.error);
  }

  lemma SubscribedFromConnected(c: Client, options: ConnectOptions, wrote: WriteAnswer, answers: seq<ReadAnswer>,
                                s: Subscription, first: WriteAnswer, second: WriteAnswer)
    requires AfterConnectSubscribe(c, options, wrote, answers, s, first, second).1.Done?
    ensures AfterConnect(c, options, wrote, answers).1.Done?
  {
    hide AfterConnect, AfterSubscribe;
  }

  lemma OpeningFacts(w: World, call: Call, options: ConnectOptions, s: Option<Subscription>, client: Client)
    requires Opens(w, call, options, s, client)
    ensures Connecting(call) && Returns(w, call) && Polite(w, call)
    ensures GreetingOf(call, w.client.txCapacity) == Greeting(options, s, w.client.txCapacity)
    ensures var next := Step(w, call);
            next.client == client && next.options == Some(options) && next.pending.None? && !next.pingPending
  {
    hide Returns, Polite, Step, GreetingOf, Greeting;
  }

  /**
   A whole session of a new client, as the object runs it: connect, with or without a subscription, then the loop. Told
   by the environment's own records: the bytes it delivered are the completed frames followed by what is left in the
   window, the packets delivered are the first ones of their one-shot parse, and what it was handed and accepted is the
   greeting and then, in order of delivery, the required answer to each packet and one PINGREQ for each ping request
   completed so far, and nothing else. Without keep-alive there are no ping requests. The greeting reads as what the
   options and the subscription say, and the answers are told by the bytes of the frames.
   */
  method RunSession(client: NanoClient, platform: Platform, options: ConnectOptions, s: Option<Subscription>,
                    rounds: nat)
    returns (r: Result<(), ClientError>, ghost w: World, ghost calls: seq<Call>)
    requires client.Valid() && client.View() == Start(client.rx.buffer.Length, client.txBuffer.Length).client
    modifies client.tc, client.txBuffer, client.rx, client.rx.buffer, platform
    ensures client.Valid() && w.client == client.View()
    ensures var w0 := Start(client.rx.buffer.Length, client.txBuffer.Length);
            PoliteRun(w0, calls) && Runs(w0, calls) && w == End(w0, calls)
    ensures platform.received == old(platform.received) + w.received
    ensures old(platform.log) <= platform.log && platform.log[|old(platform.log)|..] == AttemptsOf(w.log)
    ensures w.received == Flatten(w.frames) + client.rx.Used() && |w.frames| <= |w.notes| <= |w.frames| + 1
    ensures WholeFrames(w.frames, w.notes[..|w.frames|], client.rx.buffer.Length)
    ensures w.notes <= Notes(w.received, client.rx.buffer.Length)
    ensures NotesOf(w.heard) == w.notes && NotesOf(Completed(w)) == w.notes[..|w.frames|]
    ensures var sent := Accepted(platform.log[|old(platform.log)|..]);
            var room := client.txBuffer.Length;
            SoFar(sent, Greeting(options, s, room) + AnswersTo(Completed(w), room), !w.client.IsDisconnected())
    ensures options.keepAlive == 0 ==> PingTurn !in w.heard
    ensures var sent := Accepted(platform.log[|old(platform.log)|..]);
            var greeting := Greeting(options, s, client.txBuffer.Length);
            && (greeting != [] && sent != [] ==> (CarriesOptions(sent[0], options) <==> ShortOptions(options)))
            && (|greeting| == 3 && |sent| >= 3 ==>
                  s.Some? && (CarriesSubscription(sent[1] + sent[2], s.value.ops) <==> s.value.ops != []))
    ensures client.txBuffer.Length >= 4 ==>
              Without(AnswersTo(Completed(w), client.txBuffer.Length), [0xC0, 0])
              == AnswersInBytes(w.frames, client.rx.buffer.Length)
  {
    hide AttemptsOf, PoliteRun, DisciplinedRun, Runs, End, Step, Returns, Polite, Opens, WholeFrames, Notes, Accepted,
      AnswersTo, NotesOf, Completed, Greeting, GreetingOf, SoFar, Looping, CarriesOptions, ShortOptions,
      CarriesSubscription, Without, AnswersInBytes;
    ghost var w0 := Start(client.rx.buffer.Length, client.txBuffer.Length);
    ghost var call;
    r, call := Open(client, platform, options, s);
    OpeningFacts(w0, call, options, s, client.View());
    ghost var w1 := Step(w0, call);
    calls := [];
    EmptyRun(w1);
    if r.Ok? {
      r, calls := RunClient(client, platform, rounds, w1);
    }
    OptionsStay(w1, calls);
    FirstCall(w0, call, calls);
    SessionLaws(client.rx.buffer.Length, client.txBuffer.Length, call, calls);
    calls := [call] + calls;
    w := End(w0, calls);
    GreetingSays(options, s, client.txBuffer.Length, Accepted(AttemptsOf(w.log)),
                 AnswersTo(Completed(w), client.txBuffer.Length), !w.client.IsDisconnected());
  }
}
