/** Why the receive loop makes progress, and the one way in which it cannot. */
module ClientProgress {
  import opened Bytes
  import opened Wire
  import opened Connects
  import opened Acks
  import opened Publishes
  import opened Packets
  import opened Time
  import opened Transports
  import opened Buffers
  import opened ClientNotifications
  import opened Platforms
  import opened ClientSpec
  import opened Frames
  import opened ClientRuns
  import opened ClientGating

  /** While `next_notification` waits, everything read so far is in the window and does not yet start with a packet. */
  lemma {:induction false} WaitingWindow(c: Client, answers: seq<ReadAnswer>)
    requires NextLoop(c, answers).1.Waiting? && answers != []
    ensures var after := NextLoop(c, answers).0;
            && after == c.(used := c.used + DataOf(answers))
            && Check(after.used, c.rxCapacity).Err?
    decreases |answers|
  {
    hide Deliver, Check;
    var (after, _) := AfterRead(c, answers[0]);
    if answers[1..] == [] {
      assert DataOf(answers) == answers[0].data + DataOf(answers[1..]);
    } else {
      WaitingWindow(after, answers[1..]);
      assert after.used + DataOf(answers[1..]) == c.used + (answers[0].data + DataOf(answers[1..]));
    }
  }

  /** A full window whose first packet will never be complete. */
  predicate Clogged(used: bytes) {
    match ParseFixedHeader(used)
    case Err(_) => true
    case Ok(header) => header.FrameLength() > |used|
  }

  lemma FullCheck(used: bytes, capacity: nat)
    requires |used| == capacity
    ensures Check(used, capacity).Err? <==> Clogged(used)
  {
    hide ParseFixedHeader;
  }

  /**
   From a full window nothing is ever delivered again: all the loop can still do is end with an error or with a ping.
   */
  lemma FullWindowDeliversNothing(c: Client, answers: seq<ReadAnswer>)
    requires |c.used| == c.rxCapacity && AfterNext(c, answers).1.Done? && Possible(c, |c.used|, answers)
    ensures var (after, Done(r)) := AfterNext(c, answers);
            r.Err? || (r == Ok(SendPing) && after == c)
  {
    hide Deliver, Check;
  }

  /** When the loop ends with a ping, it was waiting just before, with the window it leaves behind. */
  lemma {:induction false} PingLeavesWindow(c: Client, answers: seq<ReadAnswer>)
    requires NextLoop(c, answers).1 == Done(Ok(SendPing))
    ensures answers != [] && NextLoop(c, answers[..|answers| - 1]) == (NextLoop(c, answers).0, Waiting)
    decreases |answers|
  {
    hide Received, Check;
    var (after, r) := AfterRead(c, answers[0]);
    if r.Ok? && r.value.Some? {
      PingLeavesWindow(after, answers[1..]);
      assert answers[..|answers| - 1][1..] == answers[1..][..|answers| - 2];
    } else {
      assert answers[..|answers| - 1] == [];
    }
  }

  /** Whenever the client could start to wait, its window has room, or holds what can never be completed. */
  ghost predicate RoomInv(w: World) {
    && |w.client.used| <= w.client.rxCapacity
    && (!w.client.IsDisconnected() && w.pending.None? ==>
       |w.client.used| < w.client.rxCapacity || Clogged(w.client.used))
  }

  lemma WaitLeavesRoom(c: Client, answers: seq<ReadAnswer>)
    requires NextLoop(c, answers).1.Waiting? && Possible(c, |c.used|, answers)
    requires |c.used| < c.rxCapacity || Clogged(c.used)
    ensures var used := NextLoop(c, answers).0.used;
            |used| < c.rxCapacity || Clogged(used)
  {
    hide NextLoop, Clogged, Check, DataOf;
    if answers == [] {
      assert NextLoop(c, answers).0 == c by {
        NoAnswers(c);
      }
    } else {
      WaitingWindow(c, answers);
      var used := NextLoop(c, answers).0.used;
      if |used| == c.rxCapacity {
        FullCheck(used, c.rxCapacity);
      }
    }
  }

  lemma NoAnswers(c: Client)
    ensures NextLoop(c, []) == (c, Waiting)
  {
  }

  lemma NextKeepsRoom(w: World, answers: seq<ReadAnswer>)
    requires RoomInv(w) && w.pending.None? && Returns(w, NextCall(answers))
    ensures RoomInv(AfterNextCall(w, answers))
  {
    hide FirstNote, Clogged, NextLoop, DataOf;
    NextFacts(w.client, answers);
    var next := AfterNextCall(w, answers);
    if !next.client.IsDisconnected() && next.pending.None? {
      var r := AfterNext(w.client, answers).1.result;
      assert r == Ok(SendPing);
      PingLeavesWindow(w.client, answers);
      var front := answers[..|answers| - 1];
      DataOfSnoc(front, answers[|answers| - 1]);
      assert answers == front + [answers[|answers| - 1]];
      WaitLeavesRoom(w.client, front);
    }
  }

  lemma ConnectKeepsRoom(w: World, options: ConnectOptions, wrote: WriteAnswer, answers: seq<ReadAnswer>)
    requires Returns(w, ConnectCall(options, wrote, answers))
    ensures RoomInv(AfterConnectCall(w, options, wrote, answers))
  {
    hide AfterConnect, ConnectOutcome, ConnectAttempts;
    ConnectFacts(w.client, options, wrote, answers);
    var next := AfterConnectCall(w, options, wrote, answers);
    if AfterConnect(w.client, options, wrote, answers).1.result.Err? && !next.client.IsDisconnected() {
      assert answers == [] by {
        ShortConnectReadsNothing(w.client, options, wrote, answers);
      }
      assert ParseFixedHeader([]).Err?;
    }
  }

  lemma ShortConnectReadsNothing(c: Client, options: ConnectOptions, wrote: WriteAnswer, answers: seq<ReadAnswer>)
    requires AfterConnect(c, options, wrote, answers).1.Done? && ConnectOutcome(c, options).Err?
    ensures answers == []
  {
    hide ConnectOutcome;
  }

  lemma CompleteKeepsRoom(w: World, completion: NotificationCompletion, answer: WriteAnswer)
    requires RoomInv(w) && PendingInv(w) && Disciplined(w, CompleteCall(completion, answer))
    ensures RoomInv(AfterCompleteCall(w, completion, answer))
  {
    hide AfterSend, CompleteAttempts, Clogged;
    SendKeepsWindow(w.client.(used := DropPrefix(w.client.used, completion.taken)), Fixed(completion.action), answer);
  }

  lemma StepKeepsRoom(w: World, call: Call)
    requires Inv(w) && RoomInv(w) && Returns(w, call) && Disciplined(w, call)
    ensures RoomInv(Step(w, call))
  {
    hide AfterConnectCall, AfterSubscribing, AfterNextCall, AfterCompleteCall, AfterConnect, AfterNext, AfterSend,
      WholeFrames, FirstNote, Clogged, PendingInv;
    match call {
      case ConnectCall(options, wrote, answers) =>
        ConnectKeepsRoom(w, options, wrote, answers);
      case ConnectSubscribeCall(options, wrote, answers, subscription, first, second) =>
        ConnectKeepsRoom(w, options, wrote, answers);
        SubscribeKeeps(AfterConnectCall(w, options, wrote, answers), subscription, first, second);
      case NextCall(answers) =>
        NextKeepsRoom(w, answers);
      case CompleteCall(completion, answer) =>
        CompleteKeepsRoom(w, completion, answer);
      case SendCall(request, answer) =>
        SendKeepsWindow(w.client, request, answer);
    }
  }

  lemma {:induction false} RunKeepsRoom(w: World, calls: seq<Call>)
    requires Inv(w) && RoomInv(w) && DisciplinedRun(w, calls)
    ensures Runs(w, calls) && RoomInv(End(w, calls)) && SameSizes(w.client, End(w, calls).client)
    decreases |calls|
  {
    hide Inv, RoomInv, Step, Returns, Disciplined;
    if calls != [] {
      StepKeeps(w, calls[0]);
      StepKeepsRoom(w, calls[0]);
      RunKeepsRoom(Step(w, calls[0]), calls[1..]);
    }
  }

  /**
   In every disciplined run, each time `next_notification` is about to read, before its first read and after any
   number of them, the slice it offers is not empty, unless the window is full of the beginning of a packet that is
   malformed in its length or longer than the window. Such a packet is the only reason for an empty read.
   */
  lemma RoomBeforeEveryRead(rxCapacity: nat, txCapacity: nat, calls: seq<Call>, answers: seq<ReadAnswer>)
    requires DisciplinedRun(Start(rxCapacity, txCapacity), calls)
    ensures Runs(Start(rxCapacity, txCapacity), calls)
    ensures var w := End(Start(rxCapacity, txCapacity), calls);
            !w.client.IsDisconnected() && w.pending.None? && Possible(w.client, |w.client.used|, answers)
            && NextLoop(w.client, answers).1.Waiting? ==>
              var used := NextLoop(w.client, answers).0.used;
              |used| < rxCapacity || (|used| == rxCapacity && Clogged(used))
  {
    hide DisciplinedRun, Runs, End, NextLoop, Clogged;
    var w0 := Start(rxCapacity, txCapacity);
    assert Flatten([]) == [];
    RunKeepsRoom(w0, calls);
    var w := End(w0, calls);
    if !w.client.IsDisconnected() && w.pending.None? && Possible(w.client, |w.client.used|, answers)
       && NextLoop(w.client, answers).1.Waiting? {
      WaitLeavesRoom(w.client, answers);
      if answers != [] {
        WaitingWindow(w.client, answers);
      } else {
        NoAnswers(w.client);
      }
    }
  }

  // ---- The reads of connecting ----

  /** While `read_connack` waits, everything read so far is in the window and does not yet hold a packet. */
  lemma {:induction false} WaitingForConnack(c: Client, answers: seq<ReadAnswer>)
    requires c.tc.state == TransportConnected && ConnackLoop(c, answers).1.Waiting?
    ensures var after := ConnackLoop(c, answers).0;
            && after == c.(used := c.used + DataOf(answers))
            && (answers != [] ==> Check(after.used, c.tc.maxPacketSize).Err?)
    decreases |answers|
  {
    hide Received, Check, DropPrefix;
    if answers == [] {
      assert c.used + DataOf(answers) == c.used;
    } else {
      var (after, _) := AfterRead(c, answers[0]);
      ReceivedFacts(after.tc, after.used);
      WaitingForConnack(after, answers[1..]);
      assert after.used + DataOf(answers[1..]) == c.used + (answers[0].data + DataOf(answers[1..]));
      if answers[1..] == [] {
        assert after.used == c.used + DataOf(answers);
      }
    }
  }

  /** The client in which `read_connack` starts, once the CONNECT has been sent. */
  function Greeted(c: Client, options: ConnectOptions, now: Instant): Client {
    AfterWrite(Restarted(c, options), Wrote(now)).0
  }

  lemma GreetedFacts(c: Client, options: ConnectOptions, now: Instant)
    ensures var c1 := Greeted(c, options, now);
            && c1.tc.state == TransportConnected && c1.used == [] && c1.rxCapacity == c.rxCapacity
            && c1.tc.maxPacketSize == c.tc.maxPacketSize
  {
  }

  /**
   In every disciplined run the reads of `read_connack`, too, are offered a slice that is not empty, unless the window
   is full of the beginning of a packet that is malformed in its length or longer than the window.
   */
  lemma RoomWhileConnecting(rxCapacity: nat, txCapacity: nat, calls: seq<Call>, options: ConnectOptions, now: Instant,
                            answers: seq<ReadAnswer>)
    requires DisciplinedRun(Start(rxCapacity, txCapacity), calls)
    ensures Runs(Start(rxCapacity, txCapacity), calls)
    ensures var c := Greeted(End(Start(rxCapacity, txCapacity), calls).client, options, now);
            ConnackLoop(c, answers).1.Waiting? && Possible(c, 0, answers) ==>
              var used := ConnackLoop(c, answers).0.used;
              && used == DataOf(answers)
              && (|used| < rxCapacity || (|used| == rxCapacity && Clogged(used)))
  {
    hide DisciplinedRun, Runs, End, ConnackLoop, Clogged, Greeted, Check, Solid;
    var w0 := Start(rxCapacity, txCapacity);
    assert Flatten([]) == [];
    RunKeeps(w0, calls);
    var before := End(w0, calls).client;
    GreetedFacts(before, options, now);
    var c := Greeted(before, options, now);
    if ConnackLoop(c, answers).1.Waiting? && Possible(c, 0, answers) {
      WaitingForConnack(c, answers);
      var used := ConnackLoop(c, answers).0.used;
      assert used == DataOf(answers);
      if |used| == rxCapacity {
        if answers != [] {
          FullCheck(used, rxCapacity);
        } else {
          NothingIsClogged();
        }
      }
    }
  }

  lemma NothingIsClogged()
    ensures DataOf([]) == [] && Clogged([])
  {
  }

  // ---- Streams of packets that fit the window ----

  /** A stream of complete packets, none longer than the window. */
  predicate Fitting(stream: seq<bytes>, capacity: nat) {
    forall i :: 0 <= i < |stream| ==>
      |stream[i]| <= capacity && IsFrame(stream[i], capacity)
  }

  lemma SameFront(f: bytes, afterF: bytes, g: bytes, afterG: bytes, max: nat)
    requires IsFrame(f, max) && IsFrame(g, max) && f + afterF == g + afterG
    ensures f == g && afterF == afterG
  {
    hide Check;
    CheckStable(f, afterF, max);
    CheckStable(g, afterG, max);
    assert f == (f + afterF)[..|f|] && afterF == (f + afterF)[|f|..];
    assert g == (g + afterG)[..|g|] && afterG == (g + afterG)[|g|..];
  }

  /**
   Framing is unambiguous: the packets completed so far are the first ones of the stream, and the window continues
   behind them.
   */
  lemma {:induction false} WindowContinues(frames: seq<bytes>, notes: seq<Notification>, used: bytes,
                                          stream: seq<bytes>, max: nat)
    requires WholeFrames(frames, notes, max) && Fitting(stream, max)
    requires Flatten(frames) + used <= Flatten(stream)
    ensures |frames| <= |stream| && frames == stream[..|frames|] && used <= Flatten(stream[|frames|..])
    decreases |frames|
  {
    hide Decode, Check;
    if frames == [] {
      assert Flatten(frames) + used == used;
      assert stream[0..] == stream;
    } else {
      var rest := Flatten(frames[1..]) + used;
      assert Flatten(frames) + used == frames[0] + rest;
      assert WholeFrame(frames[0], notes[0], max);
      assert stream != [];
      var beyond := Flatten(stream)[|Flatten(frames) + used|..];
      assert Flatten(stream) == frames[0] + (rest + beyond);
      SameFront(frames[0], rest + beyond, stream[0], Flatten(stream[1..]), max);
      WindowContinues(frames[1..], notes[1..], used, stream[1..], max);
    }
  }

  /** A full window at the beginning of such a stream holds a complete packet. */
  lemma FullWindowHoldsPacket(used: bytes, stream: seq<bytes>, capacity: nat)
    requires Fitting(stream, capacity) && used <= Flatten(stream) && |used| == capacity > 0
    ensures Check(used, capacity).Ok?
  {
    hide Check;
    assert Flatten(stream) == stream[0] + Flatten(stream[1..]);
    assert used == stream[0] + used[|stream[0]|..];
    CheckStable(stream[0], used[|stream[0]|..], capacity);
  }

  /**
   In every disciplined run whose input is the beginning of a stream of packets that fit the window, every read is
   offered a slice that is not empty.
   */
  lemma FittingStreamsLeaveRoom(rxCapacity: nat, txCapacity: nat, calls: seq<Call>, answers: seq<ReadAnswer>,
                                stream: seq<bytes>)
    requires rxCapacity > 0 && DisciplinedRun(Start(rxCapacity, txCapacity), calls) && Fitting(stream, rxCapacity)
    ensures Runs(Start(rxCapacity, txCapacity), calls)
    ensures var w := End(Start(rxCapacity, txCapacity), calls);
            !w.client.IsDisconnected() && w.pending.None? && Possible(w.client, |w.client.used|, answers)
            && NextLoop(w.client, answers).1.Waiting? && w.received + DataOf(answers) <= Flatten(stream) ==>
              |NextLoop(w.client, answers).0.used| < rxCapacity
  {
    hide DisciplinedRun, Runs, End, NextLoop, Clogged, Check, WholeFrames, Fitting;
    RoomBeforeEveryRead(rxCapacity, txCapacity, calls, answers);
    Conservation(rxCapacity, txCapacity, calls);
    var w := End(Start(rxCapacity, txCapacity), calls);
    if !w.client.IsDisconnected() && w.pending.None? && Possible(w.client, |w.client.used|, answers)
       && NextLoop(w.client, answers).1.Waiting? && w.received + DataOf(answers) <= Flatten(stream) {
      var used := NextLoop(w.client, answers).0.used;
      WaitingUsed(w.client, answers);
      assert Flatten(w.frames) + used == w.received + DataOf(answers);
      WindowContinues(w.frames, w.notes[..|w.frames|], used, stream, rxCapacity);
      if |used| == rxCapacity {
        FittingTail(stream, |w.frames|, rxCapacity);
        FullWindowHoldsPacket(used, stream[|w.frames|..], rxCapacity);
        FullCheck(used, rxCapacity);
      }
    }
  }

  /** The same holds of the reads of `read_connack`. */
  lemma FittingStreamsLeaveRoomToConnect(rxCapacity: nat, txCapacity: nat, calls: seq<Call>, options: ConnectOptions,
                                         now: Instant,
                                         answers: seq<ReadAnswer>, stream: seq<bytes>)
    requires rxCapacity > 0 && DisciplinedRun(Start(rxCapacity, txCapacity), calls) && Fitting(stream, rxCapacity)
    ensures Runs(Start(rxCapacity, txCapacity), calls)
    ensures var c := Greeted(End(Start(rxCapacity, txCapacity), calls).client, options, now);
            ConnackLoop(c, answers).1.Waiting? && Possible(c, 0, answers) && DataOf(answers) <= Flatten(stream) ==>
              |ConnackLoop(c, answers).0.used| < rxCapacity
  {
    hide DisciplinedRun, Runs, End, ConnackLoop, Clogged, Greeted, Check, Solid, Fitting;
    RoomWhileConnecting(rxCapacity, txCapacity, calls, options, now, answers);
    var c := Greeted(End(Start(rxCapacity, txCapacity), calls).client, options, now);
    if ConnackLoop(c, answers).1.Waiting? && Possible(c, 0, answers) && DataOf(answers) <= Flatten(stream) {
      var used := ConnackLoop(c, answers).0.used;
      if |used| == rxCapacity {
        FullWindowHoldsPacket(used, stream, rxCapacity);
        FullCheck(used, rxCapacity);
      }
    }
  }

  // ---- Packets that do not fit the window ----

  lemma BeginningIsIncomplete(f: bytes, used: bytes, max: nat)
    requires IsFrame(f, max) && used <= f && |used| < |f|
    ensures Check(used, max).Err?
  {
    hide Check;
    CheckStable(used, f[|used|..], max);
    assert used + f[|used|..] == f;
  }

  /**
   A packet within the size limit but longer than the window keeps the client waiting, whatever pieces it comes in; when
   the window is full of it, the next read is offered nothing.
   */
  lemma {:induction false} OversizedWaits(c: Client, f: bytes, answers: seq<ReadAnswer>)
    requires IsFrame(f, c.rxCapacity) && |f| > c.rxCapacity
    requires forall i :: 0 <= i < |answers| ==> answers[i].Chunk?
    requires c.used + DataOf(answers) <= f && |c.used| + |DataOf(answers)| <= c.rxCapacity
    ensures NextLoop(c, answers) == (c.(used := c.used + DataOf(answers)), Waiting)
    decreases |answers|
  {
    hide Check, Deliver, IsFrame;
    if answers == [] {
      assert c.used + DataOf(answers) == c.used;
    } else {
      var after := c.(used := c.used + answers[0].data);
      assert after.used + DataOf(answers[1..]) == c.used + DataOf(answers);
      BeginningIsIncomplete(f, after.used, c.rxCapacity);
      OversizedWaits(after, f, answers[1..]);
    }
  }

  /** Such a packet is never delivered: whatever else the environment answers, the loop ends with an error or a ping. */
  lemma {:induction false} OversizedNeverArrives(c: Client, f: bytes, answers: seq<ReadAnswer>)
    requires IsFrame(f, c.rxCapacity) && |f| > c.rxCapacity
    requires c.used + DataOf(answers) <= f && |c.used| + |DataOf(answers)| <= c.rxCapacity
    ensures NextLoop(c, answers).1.Done? ==>
            NextLoop(c, answers).1.result.Err? || NextLoop(c, answers).1.result == Ok(SendPing)
    decreases |answers|
  {
    hide Check, Deliver, IsFrame;
    if answers != [] && answers[0].Chunk? {
      var after := c.(used := c.used + answers[0].data);
      assert after.used + DataOf(answers[1..]) == c.used + DataOf(answers);
      BeginningIsIncomplete(f, after.used, c.rxCapacity);
      OversizedNeverArrives(after, f, answers[1..]);
    }
  }

  /**
   A packet that has begun to arrive can be delivered, by some way of answering the reads, if and only if it fits the
   window.
   */
  lemma ArrivesIffItFits(c: Client, f: bytes, note: Notification)
    requires c.tc.state == Connected && c.tc.maxPacketSize == c.rxCapacity
    requires WholeFrame(f, note, c.rxCapacity) && !note.ConnAckNote? && c.used <= f && |c.used| < |f|
    ensures |f| <= c.rxCapacity <==>
            exists answers :: Possible(c, |c.used|, answers) && c.used + DataOf(answers) <= f
                              && AfterNext(c, answers).1 == Done(Ok(TransportNotification(note, |f|)))
  {
    hide NextLoop, Solid;
    WholeIsFrame(f, note, c.rxCapacity);
    if |f| <= c.rxCapacity {
      var answers := [Chunk(f[|c.used|..])];
      RestArrives(c, f, note);
      assert Possible(c, |c.used|, answers);
    }
    if answers :| Possible(c, |c.used|, answers) && c.used + DataOf(answers) <= f
                  && AfterNext(c, answers).1 == Done(Ok(TransportNotification(note, |f|))) {
      if |f| > c.rxCapacity {
        OversizedNeverArrives(c, f, answers);
      }
    }
  }

  lemma WholeIsFrame(f: bytes, note: Notification, max: nat)
    requires WholeFrame(f, note, max)
    ensures IsFrame(f, max)
  {
    hide Decode, Check;
  }

  lemma RestArrives(c: Client, f: bytes, note: Notification)
    requires c.tc.state == Connected && c.tc.maxPacketSize == c.rxCapacity
    requires WholeFrame(f, note, c.rxCapacity) && !note.ConnAckNote? && c.used <= f && |c.used| < |f|
    ensures var answers := [Chunk(f[|c.used|..])];
            && Solid(answers) && DataOf(answers) == f[|c.used|..] && c.used + DataOf(answers) == f
            && AfterNext(c, answers).1 == Done(Ok(TransportNotification(note, |f|)))
  {
    hide Decode, Check;
    var data := f[|c.used|..];
    var answers := [Chunk(data)];
    assert answers[1..] == [];
    assert DataOf(answers) == data + DataOf([]);
    assert c.used + data == f;
    WholeIsFrame(f, note, c.rxCapacity);
    NoteIsNoConnAck(f, c.rxCapacity);
    assert Deliver(c.(used := f)).1 == Ok(TransportNotification(note, |f|));
  }

  /**
   Every client can get there: with any options that ask for keep-alive, any window large enough for the CONNACK and any
   packet whose remaining length is exactly the size limit, a run leaves the window full of a packet that never ends.
   */
  lemma WindowCanClog(options: ConnectOptions, txCapacity: nat, now: Instant, body: bytes)
    requires 4 <= |body| <= MAX_REMAINING && options.keepAlive > 0
    requires ConnectOutcome(Start(|body|, txCapacity).client, options).Ok?
    ensures var f := Frame(0x30, body);
            var calls := [ConnectCall(options, Wrote(now), [Chunk(Encode(ConnAckPacket(ConnAck(false, Accepted))))]),
                          NextCall([Chunk(f[..|body|]), TimedOut])];
            var w0 := Start(|body|, txCapacity);
            && IsFrame(f, |body|) && DisciplinedRun(w0, calls) && Runs(w0, calls)
            && var w := End(w0, calls);
               && w.client.tc.state == Connected && w.pending.None?
               && w.client.used == f[..|body|] && Clogged(w.client.used)
  {
    hide Decode, Encode, ConnectOutcome, Check, Clogged, AfterConnect, Sent, ConnectAttempts, FirstNote;
    var rx := |body|;
    var f := Frame(0x30, body);
    var connack := Encode(ConnAckPacket(ConnAck(false, Accepted)));
    var first := ConnectCall(options, Wrote(now), [Chunk(connack)]);
    var window := f[..rx];
    var second := NextCall([Chunk(window), TimedOut]);
    var w0 := Start(rx, txCapacity);
    FrameIsFrame(0x30, body, rx);
    BeginningIsIncomplete(f, window, rx);
    FullCheck(window, rx);
    ConnAckArrives(w0.client, options, now, ConnAck(false, Accepted), []);
    assert connack + [] == connack;
    SentKeeps(Opened(w0.client.tc, options), now);
    OneChunk(connack);
    assert Returns(w0, first);
    var w1 := Step(w0, first);
    assert w1.client == AfterConnect(w0.client, options, Wrote(now), [Chunk(connack)]).0 && w1.pending.None?;
    ClogStep(w1.client, window);
    assert Returns(w1, second);
    var w2 := Step(w1, second);
    TwoCalls(w0, first, second);
  }

  lemma FrameIsFrame(byte1: byte, body: bytes, max: nat)
    requires |body| <= MAX_REMAINING && |body| <= max
    ensures IsFrame(Frame(byte1, body), max) && |Frame(byte1, body)| > |body|
  {
    hide Check, VarInt;
    FrameChecks(byte1, body, [], max);
    assert Frame(byte1, body) + [] == Frame(byte1, body);
  }

  lemma OneChunk(data: bytes)
    requires data != []
    ensures Solid([Chunk(data)]) && DataOf([Chunk(data)]) == data
  {
    assert DataOf([Chunk(data)]) == data + DataOf([]);
  }

  lemma ClogStep(c: Client, window: bytes)
    requires !c.IsDisconnected() && c.tc.keepAlive > 0
    requires c.used == [] && window != [] && |window| == c.rxCapacity
             && Check(window, c.rxCapacity).Err?
    ensures var answers := [Chunk(window), TimedOut];
            && Possible(c, 0, answers) && AfterNext(c, answers) == (c.(used := window), Done(Ok(SendPing)))
  {
    hide Check;
    var answers := [Chunk(window), TimedOut];
    assert answers[1..] == [TimedOut] && [TimedOut][1..] == [];
    assert DataOf([TimedOut]) == [] + DataOf([]);
    assert DataOf(answers) == window + DataOf([TimedOut]);
    assert c.used + window == window;
    var full := c.(used := window);
    assert NextLoop(full, [TimedOut]) == (full, Done(Ok(SendPing)));
    assert AfterRead(c, answers[0]) == (full, Ok(Some(|window|)));
  }

  lemma TwoCalls(w: World, first: Call, second: Call)
    requires Returns(w, first) && Disciplined(w, first) && Returns(Step(w, first), second)
             && Disciplined(Step(w, first), second)
    ensures DisciplinedRun(w, [first, second]) && Runs(w, [first, second])
    ensures End(w, [first, second]) == Step(Step(w, first), second)
  {
    hide Returns, Disciplined, Step;
    assert [first, second][1..] == [second] && [second][1..] == [];
    var w2 := Step(Step(w, first), second);
    assert Runs(w2, []) && DisciplinedRun(w2, []) && End(w2, []) == w2;
    assert Runs(Step(w, first), [second]) && End(Step(w, first), [second]) == w2;
  }

  lemma FittingTail(stream: seq<bytes>, n: nat, capacity: nat)
    requires Fitting(stream, capacity) && n <= |stream|
    ensures Fitting(stream[n..], capacity)
  {
  }

  lemma WaitingUsed(c: Client, answers: seq<ReadAnswer>)
    requires NextLoop(c, answers).1.Waiting?
    ensures NextLoop(c, answers).0.used == c.used + DataOf(answers)
  {
    if answers == [] {
      assert c.used + DataOf(answers) == c.used;
    } else {
      WaitingWindow(c, answers);
    }
  }

  // ---- Packets that are complete in the window ----

  /**
   A packet that is already complete in the window is not looked at before a read. It is reported if and only if that
   read brings a further byte. On a timeout the call asks for a ping, and at the end of the stream or on an error it
   fails. Asking again before completing the packet repeats it.
   */
  lemma BufferedPacketWaitsForAByte(c: Client, note: Notification, taken: nat, answers: seq<ReadAnswer>)
    requires c.tc.state == Connected && c.tc.maxPacketSize == c.rxCapacity && !note.ConnAckNote?
    requires FirstNote(c.used, c.rxCapacity) == Some((note, taken)) && Solid(answers)
    ensures AfterNext(c, answers).1.Done? <==> |answers| == 1
    ensures AfterNext(c, answers).1 == Done(Ok(TransportNotification(note, taken))) <==>
            |answers| == 1 && answers[0].Chunk?
    ensures |answers| == 1 ==>
              match answers[0]
              case TimedOut => AfterNext(c, answers) == (c, Done(Ok(SendPing)))
              case Eof => AfterNext(c, answers) == (c.(tc := Closed(c.tc)), Done(Err(ConnectionClosed)))
              case ReadRefused => AfterNext(c, answers) == (c.(tc := Closed(c.tc)), Done(Err(IoError)))
              case Chunk(data) =>
                var after := AfterNext(c, answers).0;
                after.tc.state == Connected && FirstNote(after.used, c.rxCapacity) == Some((note, taken))
  {
    hide Deliver, Check, FirstNote;
    if answers != [] && answers[0].Chunk? {
      NextByteReports(c, note, taken, answers[0].data);
    }
  }

  lemma NextByteReports(c: Client, note: Notification, taken: nat, data: bytes)
    requires c.tc.state == Connected && c.tc.maxPacketSize == c.rxCapacity && !note.ConnAckNote? && data != []
    requires FirstNote(c.used, c.rxCapacity) == Some((note, taken))
    ensures var after := c.(used := c.used + data);
            && Check(after.used, c.rxCapacity).Ok?
            && Deliver(after) == (after, Ok(TransportNotification(note, taken)))
            && FirstNote(after.used, c.rxCapacity) == Some((note, taken))
  {
    hide DecodeBody, Check;
    PrefixStability(c.used, data, c.rxCapacity);
    FirstNoteStable(c.used, data, c.rxCapacity);
    NoteIsNoConnAck(c.used, c.rxCapacity);
  }

  /**
   So a packet can be received in full and lost: when it comes in one piece with the CONNACK and the peer then closes,
   the run ends disconnected with the whole packet in the window, never reported and never answered.
   */
  lemma PacketLostAtClose(options: ConnectOptions, rxCapacity: nat, txCapacity: nat, now: Instant, p: Publish)
    requires RepresentablePublish(p) && ConnectOutcome(Start(rxCapacity, txCapacity).client, options).Ok?
    requires 4 + |Encode(PublishPacket(p))| <= rxCapacity
    ensures var connack, packet := ConnAck(false, Accepted), Encode(PublishPacket(p));
            var calls := [ConnectCall(options, Wrote(now), [Chunk(Encode(ConnAckPacket(connack)) + packet)]),
                          NextCall([Eof])];
            var w0 := Start(rxCapacity, txCapacity);
            && DisciplinedRun(w0, calls) && Runs(w0, calls)
            && var w := End(w0, calls);
               && w.client.IsDisconnected() && w.notes == [ConnAckNote(connack)]
               && w.received == Encode(ConnAckPacket(connack)) + packet && w.client.used == packet
               && FirstNote(w.client.used, rxCapacity) == Some((PublishNote(NormalPublish(p)), |packet|))
               && w.log == [Entry(Attempt(EncodeConnect(options.AsConnect()), true), Handshake)]
  {
    hide Decode, Encode, EncodeConnect, ConnectOutcome, Check, AfterConnect, Sent, FirstNote, NormalPublish,
      RepresentablePublish;
    var connack, packet := ConnAck(false, Accepted), Encode(PublishPacket(p));
    var data := Encode(ConnAckPacket(connack)) + packet;
    var first := ConnectCall(options, Wrote(now), [Chunk(data)]);
    var second := NextCall([Eof]);
    var w0 := Start(rxCapacity, txCapacity);
    ConnAckArrives(w0.client, options, now, connack, packet);
    OneChunk(data);
    assert Returns(w0, first);
    var w1 := Step(w0, first);
    var attempt := Attempt(EncodeConnect(options.AsConnect()), true);
    assert Tagged([attempt], Handshake) == [Entry(attempt, Handshake)] + Tagged([], Handshake);
    assert w1.client.used == packet && w1.client.tc.state == Connected && w1.notes == [ConnAckNote(connack)];
    PrintedIsFirstNote(p, rxCapacity);
    BufferedPacketWaitsForAByte(w1.client, PublishNote(NormalPublish(p)), |packet|, [Eof]);
    assert DataOf([Eof]) == [] + DataOf([]);
    assert Returns(w1, second);
    TwoCalls(w0, first, second);
  }

  lemma PrintedIsFirstNote(p: Publish, max: nat)
    requires RepresentablePublish(p) && |Encode(PublishPacket(p))| <= max
    ensures var packet := Encode(PublishPacket(p));
            FirstNote(packet, max) == Some((PublishNote(NormalPublish(p)), |packet|))
  {
    hide Decode, NormalPublish, RepresentablePublish, PublishLen, VarInt;
    BodyRoundTrip(PublishPacket(p), 2);
    PrintRead(PublishPacket(p), [], max);
    assert Encode(PublishPacket(p)) + [] == Encode(PublishPacket(p));
  }

  /** Connecting starts from an empty window, whatever was left in it. */
  lemma ConnectForgetsWindow(c: Client, used: bytes, options: ConnectOptions, wrote: WriteAnswer,
                             answers: seq<ReadAnswer>)
    ensures AfterConnect(c.(used := used), options, wrote, answers) == AfterConnect(c, options, wrote, answers)
  {
    hide ConnackLoop, Opened, EncodeConnect, ConnectLen;
    assert Restarted(c.(used := used), options) == Restarted(c, options);
  }

  /**
   The packet lost in that way stays lost: nothing that is called short of connecting reports or answers it, and
   connecting does not see it.
   */
  lemma LostForGood(w: World, calls: seq<Call>, options: ConnectOptions, wrote: WriteAnswer, answers: seq<ReadAnswer>)
    requires w.client.IsDisconnected() && Runs(w, calls)
    requires forall i :: 0 <= i < |calls| ==> !Connecting(calls[i])
    ensures End(w, calls).notes == w.notes && End(w, calls).heard == w.heard && End(w, calls).log == w.log
    ensures var c := End(w, calls).client;
            AfterConnect(c, options, wrote, answers) == AfterConnect(c.(used := []), options, wrote, answers)
  {
    hide Runs, End, AfterConnect;
    DisconnectedIsQuiet(w, calls);
    ConnectForgetsWindow(End(w, calls).client, [], options, wrote, answers);
  }

  lemma NoteIsNoConnAck(s: bytes, max: nat)
    requires FirstNote(s, max).Some? && !FirstNote(s, max).value.0.ConnAckNote?
    ensures var p := Decode(s, max).value.0;
            !p.ConnAckPacket? && NoteOf(p) == Some(FirstNote(s, max).value.0)
  {
    hide Decode;
  }
}
