/** The acknowledgements the client sends in whole runs: those required, in order, once each. */
module ClientReplies {
  import opened Bytes
  import opened Connects
  import opened Packets
  import opened Transports
  import opened Buffers
  import opened ClientNotifications
  import opened Platforms
  import opened ClientSpec
  import opened Frames
  import opened ClientRuns

  // ---- Acknowledgements ----

  /** The packets that the notifications require in answer, in order, as bytes. */
  function Replies(notes: seq<Notification>): seq<bytes> {
    if notes == [] then []
    else
      var last := RequiredReply(notes[|notes| - 1]);
      Replies(notes[..|notes| - 1]) + if last.Some? then [Encode(last.value)] else []
  }

  /** What was handed over and accepted for one cause, in order. */
  function SentFor(log: seq<Entry>, cause: Cause): seq<bytes> {
    if log == [] then []
    else
      var last := log[|log| - 1];
      SentFor(log[..|log| - 1], cause)
      + if last.cause == cause && last.attempt.accepted then [last.attempt.data] else []
  }

  lemma {:induction false} SentForConcat(a: seq<Entry>, b: seq<Entry>, cause: Cause)
    ensures SentFor(a + b, cause) == SentFor(a, cause) + SentFor(b, cause)
    decreases |b|
  {
    if b == [] {
      assert a + b == a;
    } else {
      assert (a + b)[..|a + b| - 1] == a + b[..|b| - 1];
      SentForConcat(a, b[..|b| - 1], cause);
    }
  }

  lemma {:induction false} OtherCauses(attempts: seq<Attempt>, cause: Cause, other: Cause)
    requires cause != other
    ensures SentFor(Tagged(attempts, cause), other) == []
  {
    if attempts != [] {
      OtherCauses(attempts[1..], cause, other);
      SentForConcat([Entry(attempts[0], cause)], Tagged(attempts[1..], cause), other);
      assert [Entry(attempts[0], cause)][..0] == [];
    }
  }

  /**
   Each notification is completed once, with the default answer, before the next one is asked for: a packet with its
   own, a ping request with a ping, and the notification that the connection is gone, which takes no bytes either, with
   nothing.
   */
  predicate Polite(w: World, call: Call) {
    && Disciplined(w, call)
    && (call.NextCall? ==> !w.pingPending)
    && (call.CompleteCall? ==>
          if call.completion.taken > 0 then
            call.completion == TransportNotification(w.pending.value.0, w.pending.value.1).Complete()
          else if w.pingPending then
            call.completion == SendPing.Complete()
          else
            call.completion == TransportNotification(DisconnectedNote, 0).Complete())
  }

  predicate PoliteRun(w: World, calls: seq<Call>)
    decreases |calls|
  {
    calls == [] || (Returns(w, calls[0]) && Polite(w, calls[0]) && PoliteRun(Step(w, calls[0]), calls[1..]))
  }

  /**
   The acknowledgements sent are the first ones of those required, and all of them while the connection lives; a
   transmit buffer too small for them lets none through.
   */
  ghost predicate RepliesInv(w: World) {
    && |w.frames| <= |w.notes|
    && var sent, required := SentFor(w.log, ReplyToPacket), Replies(w.notes[..|w.frames|]);
       && sent <= required
       && (w.client.txCapacity < 4 ==> sent == [])
       && (w.client.txCapacity >= 4 && !w.client.IsDisconnected() ==> sent == required)
  }

  lemma RepliesSnoc(notes: seq<Notification>, note: Notification)
    ensures Replies(notes + [note])
         == Replies(notes) + if RequiredReply(note).Some? then [Encode(RequiredReply(note).value)] else []
  {
    hide Encode, RequiredReply;
    assert (notes + [note])[..|notes|] == notes;
  }

  /** An acknowledgement fits every transmit buffer of four bytes or more, and no smaller one. */
  lemma ReplyFitsIff(note: Notification, txCapacity: nat)
    requires RequiredReply(note).Some?
    ensures |Encode(RequiredReply(note).value)| == 4
    ensures 4 <= txCapacity <==> RequestBytes(Fixed(TransportNotification(note, 1).Complete().action), txCapacity).Ok?
  {
    hide BigEndian;
    CompleteIsRequired(TransportNotification(note, 1));
  }

  lemma ConnectReplies(w: World, options: ConnectOptions, wrote: WriteAnswer, answers: seq<ReadAnswer>)
    requires AfterConnect(w.client, options, wrote, answers).1.Done?
    ensures RepliesInv(AfterConnectCall(w, options, wrote, answers))
  {
    hide AfterConnect, ConnectAttempts, FirstNote, Encode;
    ConnectFacts(w.client, options, wrote, answers);
    var next := AfterConnectCall(w, options, wrote, answers);
    OtherCauses(ConnectAttempts(w.client, options, wrote), Handshake, ReplyToPacket);
    var reply := AfterConnect(w.client, options, wrote, answers).1;
    if Connacked(reply) {
      var note := ConnAckNote(reply.result.value.0);
      assert next.notes[..|next.frames|] == [note];
      assert [note][..0] == [];
      assert RequiredReply(note) == None;
      assert Replies([note]) == Replies([]) + [];
    } else {
      assert next.notes[..|next.frames|] == [];
    }
  }

  lemma SubscribeReplies(w: World, s: Subscription, first: WriteAnswer, second: WriteAnswer)
    requires RepliesInv(w)
    ensures RepliesInv(AfterSubscribing(w, s, first, second))
  {
    hide SubscribeAttempts, AfterSubscribe, Replies;
    SubscribeKeeps(w, s, first, second);
    OtherCauses(SubscribeAttempts(w.client, s, first, second), Handshake, ReplyToPacket);
    SentForConcat(w.log, Tagged(SubscribeAttempts(w.client, s, first, second), Handshake), ReplyToPacket);
  }

  lemma NextReplies(w: World, answers: seq<ReadAnswer>)
    requires RepliesInv(w) && AfterNext(w.client, answers).1.Done?
    ensures RepliesInv(AfterNextCall(w, answers))
  {
    hide AfterNext, FirstNote, Replies, SentFor;
    NextFacts(w.client, answers);
    var next := AfterNextCall(w, answers);
    assert next.notes[..|w.frames|] == w.notes[..|w.frames|];
  }

  lemma SendReplies(w: World, request: Request, answer: WriteAnswer)
    requires RepliesInv(w) && Askable(w.client, request)
    ensures RepliesInv(AfterSendCall(w, request, answer))
  {
    hide AfterSend, SendAttempts, Replies;
    SendKeepsWindow(w.client, request, answer);
    OtherCauses(SendAttempts(w.client, request, answer), Requested, ReplyToPacket);
    SentForConcat(w.log, Tagged(SendAttempts(w.client, request, answer), Requested), ReplyToPacket);
  }

  /**
   Completing a packet without an acknowledgement takes exactly its bytes out of the window, hands nothing to the
   transport and cannot fail, whichever of the two ways is chosen; without any action this holds for ping requests too.
   */
  lemma SilentlyCompleted(c: Client, n: ClientNotification, answer: WriteAnswer)
    requires n.TransportNotification? ==> n.taken <= |c.used|
    ensures n.TransportNotification? ==>
              && CompleteAttempts(c, n.CompleteNoPubAck(), answer) == []
              && AfterComplete(c, n.CompleteNoPubAck(), answer) == (c.(used := c.used[n.taken..]), Ok(()))
    ensures CompleteAttempts(c, n.CompleteNoAction(), answer) == []
    ensures AfterComplete(c, n.CompleteNoAction(), answer)
         == (if n.TransportNotification? then c.(used := c.used[n.taken..]) else c, Ok(()))
  {
    hide RequestBytes, DropPrefix;
    Dropped(c.used, n.Taken());
    SilentCompletions(n);
    CompleteIsRequired(n);
  }

  lemma Dropped(used: bytes, n: nat)
    requires n <= |used|
    ensures DropPrefix(used, n) == used[n..] && DropPrefix(used, 0) == used
  {
  }

  /** What a default completion hands to the transport, and what that says about the connection. */
  lemma ReplySent(c: Client, note: Notification, taken: nat, answer: WriteAnswer)
    ensures var action := TransportNotification(note, taken).Complete().action;
            var reply := RequiredReply(note);
            && SendAttempts(c, Fixed(action), answer)
               == (if reply.None? || c.txCapacity < 4 || c.IsDisconnected() then []
                   else [Attempt(Encode(reply.value), answer.Wrote?)])
            && (!AfterSend(c, Fixed(action), answer).0.IsDisconnected() ==>
                  !c.IsDisconnected() && (reply.Some? && c.txCapacity >= 4 ==> answer.Wrote?))
  {
    hide Encode;
    CompleteIsRequired(TransportNotification(note, taken));
    if RequiredReply(note).Some? {
      ReplyFitsIff(note, c.txCapacity);
    }
  }

  lemma CompleteReplies(w: World, completion: NotificationCompletion, answer: WriteAnswer)
    requires RepliesInv(w) && PendingInv(w) && Polite(w, CompleteCall(completion, answer))
    ensures RepliesInv(AfterCompleteCall(w, completion, answer))
  {
    hide AfterSend, SendAttempts, FirstNote, Encode, RequiredReply, SentFor, Replies;
    var next := AfterCompleteCall(w, completion, answer);
    var c := w.client.(used := DropPrefix(w.client.used, completion.taken));
    var attempts := CompleteAttempts(w.client, completion, answer);
    var cause := CauseOf(completion);
    SendKeepsWindow(c, Fixed(completion.action), answer);
    SentForConcat(w.log, Tagged(attempts, cause), ReplyToPacket);
    if completion.taken == 0 {
      OtherCauses(attempts, Requested, ReplyToPacket);
      assert next.notes[..|next.frames|] == w.notes[..|w.frames|];
    } else {
      var (note, taken) := w.pending.value;
      assert next.notes[..|next.frames|] == w.notes[..|w.frames|] + [note];
      RepliesSnoc(w.notes[..|w.frames|], note);
      SameAttempts(w.client, c, Fixed(completion.action), answer);
      ReplySent(c, note, taken, answer);
      SentForOne(attempts);
    }
  }

  lemma SentForOne(attempts: seq<Attempt>)
    requires |attempts| <= 1
    ensures SentFor(Tagged(attempts, ReplyToPacket), ReplyToPacket)
         == if attempts != [] && attempts[0].accepted then [attempts[0].data] else []
  {
    if attempts != [] {
      var entry := Entry(attempts[0], ReplyToPacket);
      assert Tagged(attempts, ReplyToPacket) == [entry] + Tagged([], ReplyToPacket);
      assert [entry][..0] == [];
      assert SentFor([entry], ReplyToPacket)
          == SentFor([], ReplyToPacket) + if entry.attempt.accepted then [entry.attempt.data] else [];
    }
  }

  lemma StepReplies(w: World, call: Call)
    requires RepliesInv(w) && PendingInv(w) && Returns(w, call) && Polite(w, call)
    ensures RepliesInv(Step(w, call))
  {
    hide AfterConnectCall, AfterSubscribing, AfterNextCall, AfterCompleteCall, AfterSendCall, AfterConnect, AfterNext,
      RepliesInv, PendingInv, ClientNotification.Complete;
    match call {
      case ConnectCall(options, wrote, answers) =>
        ConnectReplies(w, options, wrote, answers);
      case ConnectSubscribeCall(options, wrote, answers, subscription, first, second) =>
        ConnectReplies(w, options, wrote, answers);
        SubscribeReplies(AfterConnectCall(w, options, wrote, answers), subscription, first, second);
      case NextCall(answers) =>
        NextReplies(w, answers);
      case CompleteCall(completion, answer) =>
        CompleteReplies(w, completion, answer);
      case SendCall(request, answer) =>
        SendReplies(w, request, answer);
    }
  }

  lemma {:induction false} RunReplies(w: World, calls: seq<Call>)
    requires Inv(w) && RepliesInv(w) && PoliteRun(w, calls)
    ensures DisciplinedRun(w, calls) && Runs(w, calls) && RepliesInv(End(w, calls))
    ensures End(w, calls).client.txCapacity == w.client.txCapacity
    decreases |calls|
  {
    hide RepliesInv, Step, Returns, Polite, WholeFrames, PendingInv;
    if calls != [] {
      PoliteIsDisciplined(w, calls[0]);
      StepKeeps(w, calls[0]);
      StepReplies(w, calls[0]);
      RunReplies(Step(w, calls[0]), calls[1..]);
    }
  }

  lemma PoliteIsDisciplined(w: World, call: Call)
    requires Polite(w, call)
    ensures Disciplined(w, call)
  {
  }

  /**
   In every run that completes packets with the default answer, what was sent in answer to packets is PUBACK for each
   QoS 1 publish, PUBREC for each QoS 2 publish and PUBCOMP for each PUBREL completed so far, once each and in the order
   of arrival: all of them while the connection lives, if the transmit buffer has at least four bytes, and the first
   ones of them in any case.
   */
  lemma OrderedReplies(rxCapacity: nat, txCapacity: nat, calls: seq<Call>)
    requires PoliteRun(Start(rxCapacity, txCapacity), calls)
    ensures DisciplinedRun(Start(rxCapacity, txCapacity), calls) && Runs(Start(rxCapacity, txCapacity), calls)
    ensures var w := End(Start(rxCapacity, txCapacity), calls);
            && |w.frames| <= |w.notes|
            && SentFor(w.log, ReplyToPacket) <= Replies(w.notes[..|w.frames|])
            && (txCapacity >= 4 && !w.client.IsDisconnected() ==>
               SentFor(w.log, ReplyToPacket) == Replies(w.notes[..|w.frames|]))
  {
    hide PoliteRun, DisciplinedRun, Runs, End;
    var w0 := Start(rxCapacity, txCapacity);
    assert Flatten([]) == [];
    RunReplies(w0, calls);
  }
}
