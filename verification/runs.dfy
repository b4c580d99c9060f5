/** Whole runs of the client: histories of calls against an arbitrary environment, and what every one of them keeps. */
module ClientRuns {
  import opened Bytes
  import opened Connects
  import opened Time
  import opened Transports
  import opened Buffers
  import opened ClientNotifications
  import opened Platforms
  import opened ClientSpec
  import opened Frames

  // ---- Calls and histories ----

  /** A call of the client, together with everything the environment answers while it runs. */
  datatype Call =
    | ConnectCall(options: ConnectOptions, wrote: WriteAnswer, answers: seq<ReadAnswer>)
    | ConnectSubscribeCall(options: ConnectOptions, wrote: WriteAnswer, answers: seq<ReadAnswer>,
                           subscription: Subscription, first: WriteAnswer, second: WriteAnswer)
    | NextCall(answers: seq<ReadAnswer>)
    | CompleteCall(completion: NotificationCompletion, answer: WriteAnswer)
    | SendCall(request: Request, answer: WriteAnswer)

  predicate Connecting(call: Call) {
    call.ConnectCall? || call.ConnectSubscribeCall?
  }

  /** Why something was handed to the transport. */
  datatype Cause = Handshake | ReplyToPacket | Requested

  /** Completing a packet answers it; completing a notification without bytes is a request of its own. */
  function CauseOf(completion: NotificationCompletion): Cause {
    if completion.taken > 0 then ReplyToPacket else Requested
  }

  datatype Entry = Entry(attempt: Attempt, cause: Cause)

  /** What `next_notification` has delivered: a packet, or the request to send a ping. */
  datatype Turn = PacketTurn(note: Notification) | PingTurn

  /**
   The client and its history since the last connect: the bytes received, the frames completed, the packets delivered,
   the one delivered but not yet completed, everything delivered, whether a ping request is still to be completed, and
   everything handed to the transport.
   */
  datatype World = World(
    client: Client,
    options: Option<ConnectOptions>,
    received: bytes,
    frames: seq<bytes>,
    notes: seq<Notification>,
    pending: Option<(Notification, nat)>,
    heard: seq<Turn>,
    pingPending: bool,
    log: seq<Entry>)

  function Start(rxCapacity: nat, txCapacity: nat): World {
    var client := Client(Transport(0, Disconnected, rxCapacity, EPOCH), [], rxCapacity, txCapacity);
    World(client, None, [], [], [], None, [], false, [])
  }

  function Tagged(attempts: seq<Attempt>, cause: Cause): seq<Entry> {
    if attempts == [] then [] else [Entry(attempts[0], cause)] + Tagged(attempts[1..], cause)
  }

  function Front(s: bytes, n: nat): bytes {
    if n <= |s| then s[..n] else s
  }

  function AfterConnectCall(w: World, options: ConnectOptions, wrote: WriteAnswer, answers: seq<ReadAnswer>): World {
    var (client, reply) := AfterConnect(w.client, options, wrote, answers);
    var data := DataOf(answers);
    var log := Tagged(ConnectAttempts(w.client, options, wrote), Handshake);
    if Connacked(reply) then
      var (connack, taken) := reply.result.value;
      var note := ConnAckNote(connack);
      World(client, Some(options), data, [Front(data, taken)], [note], None, [PacketTurn(note)], false, log)
    else
      World(client, Some(options), data, [], [], None, [], false, log)
  }

  function AfterSubscribing(w: World, s: Subscription, first: WriteAnswer, second: WriteAnswer): World {
    w.(client := AfterSubscribe(w.client, s, first, second).0,
       log := w.log + Tagged(SubscribeAttempts(w.client, s, first, second), Handshake))
  }

  function AfterNextCall(w: World, answers: seq<ReadAnswer>): World {
    var (client, reply) := AfterNext(w.client, answers);
    var next := w.(client := client, received := w.received + DataOf(answers));
    if reply.Done? && reply.result.Ok? && reply.result.value.Taken() > 0 then
      var note := reply.result.value.notification;
      next.(notes := w.notes + [note], pending := Some((note, reply.result.value.taken)),
            heard := w.heard + [PacketTurn(note)])
    else if reply == Done(Ok(SendPing)) then
      next.(heard := w.heard + [PingTurn], pingPending := true)
    else
      next
  }

  function AfterCompleteCall(w: World, completion: NotificationCompletion, answer: WriteAnswer): World {
    var client := AfterComplete(w.client, completion, answer).0;
    var cause := CauseOf(completion);
    var next := w.(client := client, log := w.log + Tagged(CompleteAttempts(w.client, completion, answer), cause));
    if completion.taken > 0 then
      next.(frames := w.frames + [Front(w.client.used, completion.taken)], pending := None)
    else
      next.(pingPending := false)
  }

  function AfterSendCall(w: World, request: Request, answer: WriteAnswer): World
    requires Askable(w.client, request)
  {
    w.(client := AfterSend(w.client, request, answer).0,
       log := w.log + Tagged(SendAttempts(w.client, request, answer), Requested))
  }

  /** The call returns on exactly these answers, which are answers an environment can give. */
  predicate Returns(w: World, call: Call) {
    match call
    case ConnectCall(options, wrote, answers) =>
      Possible(w.client, 0, answers) && AfterConnect(w.client, options, wrote, answers).1.Done?
    case ConnectSubscribeCall(options, wrote, answers, _, _, _) =>
      Possible(w.client, 0, answers) && AfterConnect(w.client, options, wrote, answers).1.Done?
    case NextCall(answers) =>
      Possible(w.client, |w.client.used|, answers) && AfterNext(w.client, answers).1.Done?
    case CompleteCall(_, _) => true
    case SendCall(request, _) => Askable(w.client, request)
  }

  function Step(w: World, call: Call): World
    requires Returns(w, call)
  {
    match call
    case ConnectCall(options, wrote, answers) => AfterConnectCall(w, options, wrote, answers)
    case ConnectSubscribeCall(options, wrote, answers, subscription, first, second) =>
      var w1 := AfterConnectCall(w, options, wrote, answers);
      if Connacked(AfterConnect(w.client, options, wrote, answers).1) then
        AfterSubscribing(w1, subscription, first, second)
      else
        w1
    case NextCall(answers) => AfterNextCall(w, answers)
    case CompleteCall(completion, answer) => AfterCompleteCall(w, completion, answer)
    case SendCall(request, answer) => AfterSendCall(w, request, answer)
  }

  /** Each notification is completed once, and before the next one is asked for. */
  predicate Disciplined(w: World, call: Call) {
    && (call.NextCall? ==> w.pending.None?)
    && (call.CompleteCall? ==>
          call.completion.taken == 0 || (w.pending.Some? && call.completion.taken == w.pending.value.1))
  }

  predicate Runs(w: World, calls: seq<Call>)
    decreases |calls|
  {
    calls == [] || (Returns(w, calls[0]) && Runs(Step(w, calls[0]), calls[1..]))
  }

  function End(w: World, calls: seq<Call>): World
    requires Runs(w, calls)
    decreases |calls|
  {
    if calls == [] then w else End(Step(w, calls[0]), calls[1..])
  }

  predicate DisciplinedRun(w: World, calls: seq<Call>)
    decreases |calls|
  {
    calls == [] || (Returns(w, calls[0]) && Disciplined(w, calls[0]) && DisciplinedRun(Step(w, calls[0]), calls[1..]))
  }

  // ---- Conservation and delivery ----

  /** Delivered but not completed: the notification sits at the front of the window. */
  ghost predicate PendingInv(w: World) {
    match w.pending
    case None => |w.notes| == |w.frames|
    case Some((note, taken)) =>
      && |w.notes| == |w.frames| + 1 && w.notes[|w.frames|] == note
      && FirstNote(w.client.used, w.client.tc.maxPacketSize) == Some((note, taken))
  }

  ghost predicate Inv(w: World) {
    && w.received == Flatten(w.frames) + w.client.used
    && |w.frames| <= |w.notes| && WholeFrames(w.frames, w.notes[..|w.frames|], w.client.tc.maxPacketSize)
    && PendingInv(w)
  }

  lemma ConnectKeeps(w: World, options: ConnectOptions, wrote: WriteAnswer, answers: seq<ReadAnswer>)
    requires AfterConnect(w.client, options, wrote, answers).1.Done?
    ensures Inv(AfterConnectCall(w, options, wrote, answers))
            && SameSizes(w.client, AfterConnectCall(w, options, wrote, answers).client)
  {
    hide AfterConnect, FirstNote, ConnectAttempts, ConnectOutcome;
    ConnectFacts(w.client, options, wrote, answers);
    var next := AfterConnectCall(w, options, wrote, answers);
    var data := DataOf(answers);
    var reply := AfterConnect(w.client, options, wrote, answers).1;
    if Connacked(reply) {
      var taken := reply.result.value.1;
      FrontIsWhole(data, w.client.tc.maxPacketSize);
      assert Flatten([data[..taken]]) == data[..taken] + Flatten([]);
      assert next.received == Flatten(next.frames) + next.client.used;
    }
  }

  lemma SubscribeKeeps(w: World, s: Subscription, first: WriteAnswer, second: WriteAnswer)
    ensures var next := AfterSubscribing(w, s, first, second);
            && next.client.used == w.client.used && SameSizes(w.client, next.client)
            && next.received == w.received && next.frames == w.frames && next.notes == w.notes
            && next.pending == w.pending
            && (w.client.IsDisconnected() ==> next.client.IsDisconnected())
  {
    hide SubscriptionOutcome;
  }

  lemma NextKeeps(w: World, answers: seq<ReadAnswer>)
    requires Inv(w) && w.pending.None? && AfterNext(w.client, answers).1.Done?
    ensures Inv(AfterNextCall(w, answers)) && SameSizes(w.client, AfterNextCall(w, answers).client)
  {
    hide AfterNext, FirstNote, WholeFrame;
    NextFacts(w.client, answers);
    var next := AfterNextCall(w, answers);
    assert next.notes[..|w.frames|] == w.notes;
    assert w.notes[..|w.frames|] == w.notes;
    assert next.received == Flatten(next.frames) + next.client.used;
  }

  lemma SendKeepsWindow(c: Client, request: Request, answer: WriteAnswer)
    requires Askable(c, request)
    ensures var after := AfterSend(c, request, answer).0;
            SameSizes(c, after) && after.used == c.used && (c.IsDisconnected() ==> after == c)
  {
    hide RequestBytes;
  }

  /** The window plays no part in what is sent. */
  lemma SameAttempts(a: Client, b: Client, request: Request, answer: WriteAnswer)
    requires a.tc == b.tc && a.txCapacity == b.txCapacity && Askable(a, request)
    ensures SendAttempts(a, request, answer) == SendAttempts(b, request, answer)
  {
    hide RequestBytes;
  }

  lemma CompleteKeeps(w: World, completion: NotificationCompletion, answer: WriteAnswer)
    requires Inv(w) && Disciplined(w, CompleteCall(completion, answer))
    ensures Inv(AfterCompleteCall(w, completion, answer))
            && SameSizes(w.client, AfterCompleteCall(w, completion, answer).client)
  {
    hide AfterSend, FirstNote, CompleteAttempts;
    var next := AfterCompleteCall(w, completion, answer);
    SendKeepsWindow(w.client.(used := DropPrefix(w.client.used, completion.taken)), Fixed(completion.action), answer);
    if completion.taken > 0 {
      var (note, taken) := w.pending.value;
      var frame := Front(w.client.used, taken);
      FrontIsWhole(w.client.used, w.client.tc.maxPacketSize);
      FlattenSnoc(w.frames, frame);
      assert w.client.used == frame + next.client.used;
      assert next.notes[..|next.frames|] == w.notes[..|w.frames|] + [note];
      assert next.received == Flatten(next.frames) + next.client.used;
    } else {
      assert next.client.used == w.client.used;
    }
  }

  lemma StepKeeps(w: World, call: Call)
    requires Inv(w) && Returns(w, call) && Disciplined(w, call)
    ensures Inv(Step(w, call)) && SameSizes(w.client, Step(w, call).client)
  {
    hide AfterConnectCall, AfterSubscribing, AfterNextCall, AfterCompleteCall, AfterConnect, AfterNext, AfterSend,
      WholeFrames, FirstNote;
    match call {
      case ConnectCall(options, wrote, answers) =>
        ConnectKeeps(w, options, wrote, answers);
      case ConnectSubscribeCall(options, wrote, answers, subscription, first, second) =>
        ConnectKeeps(w, options, wrote, answers);
        SubscribeKeeps(AfterConnectCall(w, options, wrote, answers), subscription, first, second);
      case NextCall(answers) =>
        NextKeeps(w, answers);
      case CompleteCall(completion, answer) =>
        CompleteKeeps(w, completion, answer);
      case SendCall(request, answer) =>
        SendKeepsWindow(w.client, request, answer);
    }
  }

  lemma {:induction false} RunKeeps(w: World, calls: seq<Call>)
    requires Inv(w) && DisciplinedRun(w, calls)
    ensures Runs(w, calls) && Inv(End(w, calls)) && SameSizes(w.client, End(w, calls).client)
    decreases |calls|
  {
    hide Inv, Step, Returns, Disciplined;
    if calls != [] {
      StepKeeps(w, calls[0]);
      RunKeeps(Step(w, calls[0]), calls[1..]);
    }
  }

  lemma NotesArePrefix(w: World)
    requires Inv(w)
    ensures w.notes <= Notes(w.received, w.client.tc.maxPacketSize)
  {
    hide FirstNote, WholeFrames;
    var max := w.client.tc.maxPacketSize;
    FramesAreParsedFirst(w.frames, w.notes[..|w.frames|], w.client.used, max);
    assert w.notes == w.notes[..|w.frames|] + w.notes[|w.frames|..];
  }

  /**
   In every disciplined run, the bytes received since the last connect are the completed frames followed by the
   window, and the notifications delivered are the first ones of the one-shot parse of those bytes, however the
   environment split them into reads.
   */
  lemma Conservation(rxCapacity: nat, txCapacity: nat, calls: seq<Call>)
    requires DisciplinedRun(Start(rxCapacity, txCapacity), calls)
    ensures Runs(Start(rxCapacity, txCapacity), calls)
    ensures var w := End(Start(rxCapacity, txCapacity), calls);
            && w.received == Flatten(w.frames) + w.client.used
            && |w.notes| == |w.frames| + (if w.pending.Some? then 1 else 0)
            && WholeFrames(w.frames, w.notes[..|w.frames|], rxCapacity)
            && w.notes <= Notes(w.received, rxCapacity)
  {
    hide DisciplinedRun, Runs, End, FirstNote, WholeFrame, Notes;
    var w0 := Start(rxCapacity, txCapacity);
    assert Inv(w0) by {
      assert Flatten([]) == [];
    }
    RunKeeps(w0, calls);
    NotesArePrefix(End(w0, calls));
  }

  /** Two runs that received the same bytes delivered the same notifications, up to how far each has got. */
  lemma ChunkingIndependence(rxCapacity: nat, tx1: nat, calls1: seq<Call>, tx2: nat, calls2: seq<Call>)
    requires DisciplinedRun(Start(rxCapacity, tx1), calls1) && DisciplinedRun(Start(rxCapacity, tx2), calls2)
    ensures Runs(Start(rxCapacity, tx1), calls1) && Runs(Start(rxCapacity, tx2), calls2)
    ensures var w1, w2 := End(Start(rxCapacity, tx1), calls1), End(Start(rxCapacity, tx2), calls2);
            w1.received == w2.received ==> w1.notes <= w2.notes || w2.notes <= w1.notes
  {
    hide DisciplinedRun, Runs, End, WholeFrames, Notes;
    Conservation(rxCapacity, tx1, calls1);
    Conservation(rxCapacity, tx2, calls2);
    var w1, w2 := End(Start(rxCapacity, tx1), calls1), End(Start(rxCapacity, tx2), calls2);
    if w1.received == w2.received {
      var all := Notes(w1.received, rxCapacity);
      assert w1.notes == all[..|w1.notes|] && w2.notes == all[..|w2.notes|];
    }
  }
}
