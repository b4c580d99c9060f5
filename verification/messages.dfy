/** What the client's messages say to whoever reads them, and how the bytes it sends answer the bytes it received. */
module ClientMessages {
  import opened Bytes
  import opened Wire
  import opened Connects
  import opened Publishes
  import opened OutPublishes
  import opened Packets
  import opened Layouts
  import opened Transports
  import opened Buffers
  import opened ClientNotifications
  import opened Platforms
  import opened ClientSpec
  import opened Frames
  import opened ClientReplies
  import opened ClientGating
  import opened ClientTraces
  import opened ClientRuns
  import S = Subscribes
  import Utf8

  // ---- The CONNECT ----

  /** Whatever follows, `data` reads as a CONNECT of level 4 with these options, up to an empty login. */
  ghost predicate CarriesOptions(data: bytes, options: ConnectOptions) {
    forall rest: bytes, max: nat :: |data| <= max ==>
      var r := Decode(data + rest, max);
      && r.Ok? && r.value.1 == |data| && r.value.0.ConnectPacket?
      && var c := r.value.0.connect;
         && c.protocol == V4
         && c.keepAlive == options.keepAlive
         && c.clientId == options.clientId
         && c.cleanSession == options.cleanSession
         && c.lastWill == options.lastWill
         && c.login == if options.login == Some(Login([], [])) then None else options.login
  }

  /** No field is longer than 65535 bytes. */
  predicate ShortOptions(options: ConnectOptions) {
    && |options.clientId| <= 65_535
    && (options.lastWill.Some? ==>
          |options.lastWill.value.topic| <= 65_535 && |options.lastWill.value.message| <= 65_535)
    && (options.login.Some? ==>
          |options.login.value.username| <= 65_535 && |options.login.value.password| <= 65_535)
  }

  /** The number of bytes behind the length of a CONNECT. */
  function OptionsLen(options: ConnectOptions): nat {
    12 + |options.clientId|
    + (match options.lastWill case None => 0 case Some(w) => 4 + |w.topic| + |w.message|)
    + (match options.login
       case None => 0
       case Some(l) =>
         (if l.username == [] then 0 else 2 + |l.username|) + (if l.password == [] then 0 else 2 + |l.password|))
  }

  lemma ConnectSize(options: ConnectOptions)
    ensures ConnectLen(options.AsConnect()) == OptionsLen(options)
    ensures |EncodeConnect(options.AsConnect())| == 1 + |VarInt(OptionsLen(options))| + OptionsLen(options)
    ensures EncodeConnect(options.AsConnect()) == Encode(ConnectPacket(options.AsConnect()))
  {
    hide ConnectBody, VarInt, Utf8.Valid;
  }

  /** The CONNECT fits a transmit buffer exactly if its bytes do and its length takes no more than four digits. */
  lemma ConnectFitsIff(options: ConnectOptions, room: nat)
    ensures var n := OptionsLen(options);
            ConnectFits(options, room) <==> n <= 268_435_455 && 1 + |VarInt(n)| + n <= room
  {
    hide ConnectLen, EncodeConnect, VarInt, OptionsLen, Utf8.Valid;
    ConnectSize(options);
  }

  lemma SentOptions(options: ConnectOptions)
    requires ShortOptions(options) && OptionsLen(options) <= 268_435_455
    ensures CarriesOptions(EncodeConnect(options.AsConnect()), options)
  {
    hide ConnectLen, EncodeConnect, Encode, Decode, OptionsLen, Utf8.Valid;
    ConnectSize(options);
    var p := ConnectPacket(options.AsConnect());
    forall rest: bytes, max: nat | |Encode(p)| <= max
      ensures Decode(Encode(p) + rest, max) == Ok((Normal(p), |Encode(p)|))
    {
      PrintRead(p, rest, max);
    }
  }

  lemma ReadOptions(data: bytes, options: ConnectOptions)
    requires CarriesOptions(data, options)
    ensures ShortOptions(options)
  {
    hide ConnectLen, Decode, Normal, Utf8.Valid;
    var r := Decode(data + [], |data|);
    DecodedIsRepresentable(data + [], |data|);
    assert ShortFields(r.value.0.connect);
  }

  /**
   The first thing a session sends, if the CONNECT fits at all, says exactly what the options say, if and only if no
   field is longer than its length can tell.
   */
  lemma GreetingCarriesIff(call: Call, options: ConnectOptions, room: nat)
    requires Connecting(call) && call.options == options
    ensures GreetingOf(call, room) != [] <==> ConnectFits(options, room)
    ensures GreetingOf(call, room) != [] ==>
              (CarriesOptions(GreetingOf(call, room)[0], options) <==> ShortOptions(options))
  {
    hide CarriesOptions, ShortOptions, ConnectFits, SubscribeParts, EncodeConnect, OptionsLen, Utf8.Valid;
    ConnectFitsIff(options, room);
    if GreetingOf(call, room) != [] {
      var data := GreetingOf(call, room)[0];
      if ShortOptions(options) {
        SentOptions(options);
      }
      if CarriesOptions(data, options) {
        ReadOptions(data, options);
      }
    }
  }

  /** In every run: the packet in front of everything sent says what the last options say. */
  lemma FirstFrameCarries(w: World, frames: seq<bytes>, tail: bytes)
    requires SentAs(w, frames, tail) && ConnectFits(w.options.value, w.client.txCapacity) && frames != []
    ensures CarriesOptions(frames[0], w.options.value) <==> ShortOptions(w.options.value)
  {
    hide CarriesOptions, ShortOptions, EncodeConnect, ConnectLen, OptionsLen, Flatten, SentData, Beginning, IsPacket,
      IsConnectFrame, Utf8.Valid;
    var options := w.options.value;
    ConnectFitsIff(options, w.client.txCapacity);
    if ShortOptions(options) {
      SentOptions(options);
    }
    if CarriesOptions(frames[0], options) {
      ReadOptions(frames[0], options);
    }
  }

  // ---- The SUBSCRIBE ----

  /** Whatever follows, `data` reads as a SUBSCRIBE with id 1 and one filter for each operation, in order. */
  ghost predicate CarriesSubscription(data: bytes, ops: seq<SubscribeOp>) {
    forall rest: bytes, max: nat :: |data| <= max ==>
      var r := Decode(data + rest, max);
      && r.Ok? && r.value.1 == |data| && r.value.0.SubscribePacket?
      && r.value.0.subscribe.pkid == 1
      && var filters := S.Filters(r.value.0.subscribe.filters);
         && |filters| == |ops|
         && forall i :: 0 <= i < |ops| ==>
              match ops[i]
              case AddText(topic, qos) => filters[i].path == topic && filters[i].qos == qos
              case AddJoined(parts, separator, qos) =>
                filters[i].path == S.Join(parts, separator) && filters[i].qos == qos
  }

  lemma {:induction false} FiltersOfAt(ops: seq<SubscribeOp>)
    ensures |FiltersOf(ops)| == |ops|
    ensures forall i :: 0 <= i < |ops| ==> FiltersOf(ops)[i] == FilterOf(ops[i])
  {
    hide FilterOf;
    if ops != [] {
      FiltersOfAt(ops[1..]);
    }
  }

  /** The two writes of a subscription say exactly what its operations say, if and only if there is at least one. */
  lemma SubscriptionCarriesIff(s: Subscription, room: nat)
    requires SubscriptionOutcome(s, room).Ok?
    ensures |SubscribeParts(s, room)| == 2
    ensures var parts := SubscribeParts(s, room);
            CarriesSubscription(parts[0] + parts[1], s.ops) <==> s.ops != []
  {
    hide Decode, Encode, Representable, Normal, S.Filters, S.SubscribeLen, S.EncodeFilters, OpsOutcome, SubscribeHeader,
      SubscribePayload, FiltersOf, S.Join, Utf8.Valid;
    SubscribeInTwoParts(s);
    FiltersOfAt(s.ops);
    AcceptedOpsAreShort(s.ops, room);
    var x := SubscriptionPacket(s);
    var p := SubscribePacket(x);
    var data := SubscribeHeader(s) + SubscribePayload(s);
    assert S.Filters(x.filters) == FiltersOf(s.ops) by {
      DenotesItself(FiltersOf(s.ops));
    }
    if s.ops != [] {
      S.SubscribeRoundTrip(x);
      forall rest: bytes, max: nat | |data| <= max
        ensures Decode(data + rest, max) == Ok((SubscribePacket(S.NormalSubscribe(x)), |data|))
      {
        SubscribeReads(x, rest, max);
      }
    }
    if CarriesSubscription(data, s.ops) {
      DecodedIsRepresentable(data + [], |data|);
      FiltersFound(Decode(data + [], |data|).value.0);
    }
  }

  lemma FiltersFound(p: Packet)
    requires p.SubscribePacket? && Representable(p)
    ensures S.Filters(p.subscribe.filters) != []
  {
  }

  lemma SubscribeReads(x: S.Subscribe, rest: bytes, max: nat)
    requires S.Filters(x.filters) != [] && S.ShortPaths(S.Filters(x.filters)) && S.SubscribeLen(x) <= MAX_REMAINING
    requires |Encode(SubscribePacket(x))| <= max
    ensures var data := Encode(SubscribePacket(x));
            Decode(data + rest, max) == Ok((SubscribePacket(S.NormalSubscribe(x)), |data|))
  {
    hide Decode, S.Filters, S.SubscribeLen, S.EncodeFilters, S.NormalSubscribe, Utf8.Valid;
    HonestSubscribe(x);
    PrintRead(SubscribePacket(x), rest, max);
  }

  // ---- Requests ----

  /** The bytes of the packets of fixed shape. */
  lemma ActionBytes(room: nat, id: u16)
    ensures RequestBytes(Fixed(NoAction), room) == Ok([])
    ensures RequestBytes(Fixed(SendPingReq), room) == if room < 2 then Err(NotEnoughCapacity) else Ok([0xC0, 0])
    ensures RequestBytes(Fixed(SendPubAck(id)), room)
         == if room < 4 then Err(NotEnoughCapacity) else Ok([0x40, 2, id / 256, id % 256])
    ensures RequestBytes(Fixed(SendPubRec(id)), room)
         == if room < 4 then Err(NotEnoughCapacity) else Ok([0x50, 2, id / 256, id % 256])
    ensures RequestBytes(Fixed(SendPubComp(id)), room)
         == if room < 4 then Err(NotEnoughCapacity) else Ok([0x70, 2, id / 256, id % 256])
  {
    EmptyLayouts();
    IdLayouts(id);
    hide Encode;
  }

  /** Whatever follows, a formatted publish reads as its flags and what its closures appended. */
  lemma PublishCarries(flags: OutPublish, topic: Formatter, payload: Formatter, room: nat, rest: bytes, max: nat)
    requires room >= 5 && FormatsText(topic)
    requires RequestBytes(PublishRequest(flags, topic, payload), room).Ok?
    requires |RequestBytes(PublishRequest(flags, topic, payload), room).value| <= max
    ensures var data := RequestBytes(PublishRequest(flags, topic, payload), room).value;
            var r := Decode(data + rest, max);
            && r.Ok? && r.value.1 == |data| && r.value.0.PublishPacket?
            && var p := r.value.0.publish;
               && p.dup == flags.dup && p.qos == flags.qos && p.retain == flags.retain
               && p.topic == Flatten(topic.chunks) && p.payload == Flatten(payload.chunks)
               && p.pkid == if flags.qos == AtMostOnce then 0 else flags.pkid
  {
    hide Decode, FormatOutcome, EncodePublish, Flatten, PublishLen, Utf8.Valid;
    TextOfChunks(topic);
    FormatsIff(flags, topic, payload, room);
    var p := flags.AsPublish(topic.Text(), payload.Text());
    SameEncoding(p);
    PublishReads(p, rest, max);
  }

  lemma PublishReads(p: Publish, rest: bytes, max: nat)
    requires RepresentablePublish(p) && |Encode(PublishPacket(p))| <= max
    ensures var data := Encode(PublishPacket(p));
            Decode(data + rest, max) == Ok((PublishPacket(NormalPublish(p)), |data|))
  {
    hide Decode, PublishLen, PublishBody, NormalPublish, Utf8.Valid;
    PublishRoundTrip(p);
    PrintRead(PublishPacket(p), rest, max);
  }

  // ---- Bytes in, bytes out ----

  lemma WordBytes(s: bytes)
    requires |s| >= 2
    ensures Word(s) / 256 == s[0] && Word(s) % 256 == s[1]
  {
  }

  /** Where the id of a received publish is. */
  lemma PublishId(s: bytes, max: nat)
    requires Check(s, max).Ok? && Decode(s, max).Ok? && Decode(s, max).value.0.PublishPacket?
    ensures var body, p := BodyOf(s, max), Decode(s, max).value.0.publish;
            && s[0] / 16 == 3
            && (s[0] / 2 % 4 == match p.qos case AtMostOnce => 0 case AtLeastOnce => 1 case ExactlyOnce => 2)
            && (p.qos != AtMostOnce ==>
                  && |body| >= 2 && |body| >= 4 + Word(body)
                  && p.pkid / 256 == body[2 + Word(body)] && p.pkid % 256 == body[3 + Word(body)])
  {
    KindVerdict(s, max);
    TypeVerdict(s, max);
    PublishVerdict(s, max);
    hide Decode, Check, BodyOf, Word, Utf8.Valid;
    var body, p := BodyOf(s, max), Decode(s, max).value.0.publish;
    if p.qos != AtMostOnce {
      WordBytes(body[2 + Word(body)..]);
    }
  }

  lemma PubRelId(s: bytes, max: nat)
    requires Check(s, max).Ok? && Decode(s, max).Ok? && Decode(s, max).value.0.PubRelPacket?
    ensures var body, id := BodyOf(s, max), Decode(s, max).value.0.pkid;
            s[0] / 16 == 6 && |body| >= 2 && id / 256 == body[0] && id % 256 == body[1]
  {
    KindVerdict(s, max);
    IdVerdict(s, max);
    hide Decode, Check, BodyOf, Word;
    WordBytes(BodyOf(s, max));
  }

  /**
   The required answer to a packet, from its bytes to the bytes of the answer: `0x40 2` and the id for a publish at QoS
   1, `0x50 2` for one at QoS 2, `0x70 2` for a PUBREL, the id copied cell by cell, and nothing for any other packet.
   */
  lemma AnswerInBytes(s: bytes, max: nat, note: Notification, n: nat)
    requires FirstNote(s, max) == Some((note, n)) && Check(s, max).Ok?
    ensures var body, kind, qos := BodyOf(s, max), s[0] / 16, s[0] / 2 % 4;
            var reply := RequiredReply(note);
            if kind == 3 && qos > 0 then
              && |body| >= 2 && |body| >= 4 + Word(body)
              && var id := 2 + Word(body);
                 && reply.Some?
                 && Encode(reply.value) == [if qos == 1 then 0x40 else 0x50, 2, body[id], body[id + 1]]
            else if kind == 6 then
              |body| >= 2 && reply.Some? && Encode(reply.value) == [0x70, 2, body[0], body[1]]
            else
              reply == None
  {
    var p := Decode(s, max).value.0;
    KindVerdict(s, max);
    hide Decode, Check, BodyOf, Encode, Word, Utf8.Valid;
    if p.PublishPacket? {
      PublishId(s, max);
      IdLayouts(p.publish.pkid);
    } else if p.PubRelPacket? {
      PubRelId(s, max);
      IdLayouts(p.pkid);
    }
  }

  /** The bytes of the answer to a packet with this first byte and body. */
  function AnswerBytes(first: byte, body: bytes): seq<bytes> {
    if first / 16 == 3 && first / 2 % 4 > 0 then
      if |body| < 2 || |body| < 4 + Word(body) then []
      else
        [[if first / 2 % 4 == 1 then 0x40 else 0x50, 2, body[2 + Word(body)], body[3 + Word(body)]]]
    else if first / 16 == 6 then
      if |body| < 2 then [] else [[0x70, 2, body[0], body[1]]]
    else
      []
  }

  lemma AnswerOfFirst(s: bytes, max: nat, note: Notification, n: nat)
    requires FirstNote(s, max) == Some((note, n)) && Check(s, max).Ok?
    ensures var reply := RequiredReply(note);
            AnswerBytes(s[0], BodyOf(s, max)) == if reply.Some? then [Encode(reply.value)] else []
  {
    AnswerInBytes(s, max, note, n);
    hide Decode, Check, BodyOf, Encode, Word, FirstNote, RequiredReply;
  }

  /**
   One exchange on an established connection, in bytes: when a packet is delivered and completed with the default
   answer, what is handed to the transport is `AnswerBytes` of its first byte and body, and its bytes leave the window.
   */
  lemma Exchange(c: Client, answers: seq<ReadAnswer>, answer: WriteAnswer)
    requires c.tc.state == Connected && c.txCapacity >= 4
    requires var reply := AfterNext(c, answers).1;
             reply.Done? && reply.result.Ok? && reply.result.value.TransportNotification?
    ensures var (after, Done(r)) := AfterNext(c, answers);
            var all, max := c.used + DataOf(answers), c.tc.maxPacketSize;
            && Check(all, max).Ok? && r.value.taken <= |all|
            && CompleteAttempts(after, r.value.Complete(), answer)
               == (var replies := AnswerBytes(all[0], BodyOf(all, max));
                   if replies == [] then [] else [Attempt(replies[0], answer.Wrote?)])
            && AfterComplete(after, r.value.Complete(), answer).0.used == all[r.value.taken..]
  {
    hide AfterNext, AfterSend, SendAttempts, Encode, Check, BodyOf, AnswerBytes, FirstNote, RequiredReply, DropPrefix;
    var (after, Done(r)) := AfterNext(c, answers);
    var all, max := c.used + DataOf(answers), c.tc.maxPacketSize;
    var note, taken := r.value.notification, r.value.taken;
    NextFacts(c, answers);
    StaysConnected(c, answers);
    FirstIsWhole(all, max);
    ReplySent(after.(used := DropPrefix(all, taken)), note, taken, answer);
    AnswerOfFirst(all, max, note, taken);
    Dropped(all, taken);
    CompleteIsRequired(r.value);
    SendKeepsWindow(after.(used := all[taken..]), Fixed(r.value.Complete().action), answer);
    SameAttempts(after, after.(used := all[taken..]), Fixed(r.value.Complete().action), answer);
  }

  lemma StaysConnected(c: Client, answers: seq<ReadAnswer>)
    requires c.tc.state == Connected && AfterNext(c, answers).1.Done?
    ensures AfterNext(c, answers).1.result.Ok? ==> AfterNext(c, answers).0.tc.state == Connected
  {
    NextVerdict(c, answers);
    hide AfterNext, Decode;
  }

  lemma FirstIsWhole(s: bytes, max: nat)
    ensures FirstNote(s, max).Some? ==> Check(s, max).Ok?
  {
    hide Check, Decode;
  }

  /** In a run: the answer to a completed frame, told by the bytes of the frame. */
  lemma FrameAnswer(frame: bytes, note: Notification, max: nat, room: nat)
    requires WholeFrame(frame, note, max) && room >= 4
    ensures Check(frame, max).Ok? && AnswerTo(PacketTurn(note), room) == AnswerBytes(frame[0], BodyOf(frame, max))
  {
    hide Check, BodyOf, AnswerBytes, FirstNote, RequiredReply, Encode;
    FirstIsWhole(frame, max);
    AnswerOfFirst(frame, max, note, |frame|);
  }

  /** The answers to a list of frames, in order, told by their bytes. */
  function AnswersInBytes(frames: seq<bytes>, max: nat): seq<bytes> {
    if frames == [] then []
    else
      var last := frames[|frames| - 1];
      AnswersInBytes(frames[..|frames| - 1], max)
      + if Check(last, max).Ok? then AnswerBytes(last[0], BodyOf(last, max)) else []
  }

  lemma {:induction false} RepliesInBytes(frames: seq<bytes>, notes: seq<Notification>, max: nat)
    requires WholeFrames(frames, notes, max)
    ensures Replies(notes) == AnswersInBytes(frames, max)
    decreases |frames|
  {
    hide Check, BodyOf, AnswerBytes, FirstNote, RequiredReply, Encode;
    if frames != [] {
      var last := |frames| - 1;
      RepliesInBytes(frames[..last], notes[..last], max);
      assert WholeFrame(frames[last], notes[last], max);
      FirstIsWhole(frames[last], max);
      AnswerOfFirst(frames[last], max, notes[last], |frames[last]|);
    }
  }

  /**
   Whole runs of connects and default completions, in bytes: without the PINGREQs `0xC0 0`, everything sent behind the
   greeting is the answers to the completed frames, told by the bytes of the frames, once each and in order. While the
   connection lives none is missing.
   */
  lemma RunInBytes(rxCapacity: nat, txCapacity: nat, calls: seq<Call>)
    requires PoliteRun(Start(rxCapacity, txCapacity), calls) && Quiet(calls) && txCapacity >= 4
    ensures Runs(Start(rxCapacity, txCapacity), calls)
    ensures var w := End(Start(rxCapacity, txCapacity), calls);
            var answers := AnswersTo(Completed(w), txCapacity);
            && w.received == Flatten(w.frames) + w.client.used
            && SoFar(Accepted(AttemptsOf(w.log)), Due([], [], calls, txCapacity).0 + answers,
                     !w.client.IsDisconnected())
            && Without(answers, [0xC0, 0]) == AnswersInBytes(w.frames, rxCapacity)
            && (w.options.Some? && w.options.value.keepAlive == 0 ==> answers == AnswersInBytes(w.frames, rxCapacity))
  {
    hide PoliteRun, DisciplinedRun, Runs, End, Quiet, Encode, Replies, Without, AnswersTo, NotesOf, Due, SoFar,
      Accepted, AttemptsOf, WholeFrames, Notes, AnswersInBytes, Flatten;
    EmptyLayouts();
    NothingButAnswers(rxCapacity, txCapacity, calls);
    AnswersRead(rxCapacity, txCapacity, calls);
    Conservation(rxCapacity, txCapacity, calls);
    var w := End(Start(rxCapacity, txCapacity), calls);
    RepliesInBytes(w.frames, w.notes[..|w.frames|], rxCapacity);
  }
}
