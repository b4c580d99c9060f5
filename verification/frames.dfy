/** Streams as sequences of whole frames, and what each client operation does to the receive window. */
module Frames {
  import opened Bytes
  import opened Wire
  import opened Acks
  import opened Connects
  import opened Packets
  import opened Time
  import opened Transports
  import opened Buffers
  import opened ClientNotifications
  import opened ClientSpec

  /** The notification a packet gives rise to, on whichever side of the CONNACK it comes. */
  function NoteFor(p: Packet): Option<Notification> {
    if p.ConnAckPacket? then Some(ConnAckNote(p.connAck)) else NoteOf(p)
  }

  /** The packet a notification stands for. */
  function PacketOf(note: Notification): Option<Packet> {
    match note
    case ConnAckNote(a) => Some(ConnAckPacket(a))
    case PublishNote(x) => Some(PublishPacket(x))
    case PubAckNote(id) => Some(PubAckPacket(id))
    case PubRecNote(id) => Some(PubRecPacket(id))
    case PubRelNote(id) => Some(PubRelPacket(id))
    case PubCompNote(id) => Some(PubCompPacket(id))
    case SubAckNote(x) => Some(SubAckPacket(x))
    case UnsubAckNote(id) => Some(UnsubAckPacket(id))
    case PingResponseNote => Some(PingRespPacket)
    case DisconnectedNote => None
  }

  /** Notifications carry whole packets, and exactly the packets that only a client may send have none. */
  lemma NotesAreFaithful(p: Packet, note: Notification)
    ensures NoteFor(p) == Some(note) <==> PacketOf(note) == Some(p)
    ensures NoteFor(p) == None <==>
            p.Type() in {ConnectType, SubscribeType, UnsubscribeType, PingReqType, DisconnectType}
  {
  }

  /** The notification the first packet of a stream gives rise to, and the bytes it takes. */
  function FirstNote(s: bytes, max: nat): (r: Option<(Notification, nat)>)
    ensures r.Some? ==> 2 <= r.value.1 <= |s|
  {
    match Decode(s, max)
    case Err(_) => None
    case Ok((p, n)) => if NoteFor(p).Some? then Some((NoteFor(p).value, n)) else None
  }

  /** The one-shot sequential parse of a whole stream. */
  function Notes(s: bytes, max: nat): seq<Notification>
    decreases |s|
  {
    match FirstNote(s, max)
    case None => []
    case Some((note, n)) => [note] + Notes(s[n..], max)
  }

  /** `f` is framed as one packet, from its first byte to its last. */
  predicate IsFrame(f: bytes, max: nat) {
    Check(f, max).Ok? && Check(f, max).value.FrameLength() == |f|
  }

  /** `frame` is one whole packet that gives rise to `note`. */
  predicate WholeFrame(frame: bytes, note: Notification, max: nat) {
    FirstNote(frame, max) == Some((note, |frame|))
  }

  ghost predicate WholeFrames(frames: seq<bytes>, notes: seq<Notification>, max: nat) {
    |frames| == |notes| && forall i :: 0 <= i < |frames| ==> WholeFrame(frames[i], notes[i], max)
  }

  lemma FirstNoteStable(s: bytes, more: bytes, max: nat)
    requires FirstNote(s, max).Some?
    ensures FirstNote(s + more, max) == FirstNote(s, max)
  {
    hide Decode;
    PrefixStability(s, more, max);
  }

  /** The bytes behind the first packet play no part in reading it. */
  lemma FrontIsWhole(s: bytes, max: nat)
    requires FirstNote(s, max).Some?
    ensures var (note, n) := FirstNote(s, max).value;
            WholeFrame(s[..n], note, max)
  {
    hide NoteFor;
    var (note, n) := FirstNote(s, max).value;
    DecodeOfFront(s, max);
  }

  lemma DecodeOfFront(s: bytes, max: nat)
    requires Decode(s, max).Ok?
    ensures var (p, n) := Decode(s, max).value;
            Decode(s[..n], max) == Ok((p, n))
  {
    hide DecodeBody, DecodeLength;
    var header := Check(s, max).value;
    var n := header.FrameLength();
    assert s[..n][1..] == s[1..][..n - 1];
    DecodeLengthOfFront(s[1..], n - 1, 0);
    assert s[..n][..n] == s[..n];
  }

  lemma {:induction false} DecodeLengthOfFront(s: bytes, n: nat, done: nat)
    requires done <= 3 && n <= |s|
    requires DecodeLength(s, done).Ok? && DecodeLength(s, done).value.0 <= n
    ensures DecodeLength(s[..n], done) == DecodeLength(s, done)
    decreases 3 - done
  {
    if s[0] >= 128 {
      assert s[..n][1..] == s[1..][..n - 1];
      DecodeLengthOfFront(s[1..], n - 1, done + 1);
    }
  }

  /**
   Whole frames in front of a stream are the first things its sequential parse reports, whatever comes behind them.
   */
  lemma {:induction false} FramesAreParsedFirst(frames: seq<bytes>, notes: seq<Notification>, rest: bytes, max: nat)
    requires WholeFrames(frames, notes, max)
    ensures Notes(Flatten(frames) + rest, max) == notes + Notes(rest, max)
    decreases |frames|
  {
    hide FirstNote;
    if frames == [] {
      assert Flatten(frames) + rest == rest;
    } else {
      var tail := Flatten(frames[1..]) + rest;
      assert Flatten(frames) + rest == frames[0] + tail;
      assert WholeFrame(frames[0], notes[0], max);
      FirstNoteStable(frames[0], tail, max);
      assert (frames[0] + tail)[|frames[0]|..] == tail;
      FramesAreParsedFirst(frames[1..], notes[1..], rest, max);
    }
  }

  // ---- What the operations do ----

  /** Nothing but the automaton and the window ever changes. */
  predicate SameSizes(c: Client, after: Client) {
    after.rxCapacity == c.rxCapacity && after.txCapacity == c.txCapacity && after.tc.maxPacketSize == c.tc.maxPacketSize
  }

  lemma ReceivedFacts(t: Transport, data: bytes)
    ensures var (after, reply) := Received(t, data);
            && after.maxPacketSize == t.maxPacketSize && after.keepAlive == t.keepAlive
            && after.packetSendAt == t.packetSendAt
            && (t.state == Disconnected ==> after == t)
            && (reply == Ok(None) ==>
                  (after == t && t.state != Disconnected
                   && Check(data, t.maxPacketSize).Err? && Check(data, t.maxPacketSize).error.NeedMoreData?))
            && (reply.Err? ==> after.state == Disconnected)
            && (reply.Ok? && reply.value.Some? ==>
                  var (note, taken) := reply.value.value;
                  if note.DisconnectedNote? then taken == 0 && after.state == Disconnected
                  else FirstNote(data, t.maxPacketSize) == Some((note, taken)) && after.state == Connected
                       && (note.ConnAckNote? <==> t.state == TransportConnected)
                       && (note.ConnAckNote? ==> note.connAck.code == Accepted))
  {
    hide Check, Decode;
  }

  /**
   On an established connection: the error of the parser, one notification for each packet a server may send, a second
   CONNACK as `UnexpectedPacket`, and exactly the five packets that only a client may send as `UnsupportedPacket`. Every
   error disconnects.
   */
  lemma EstablishedVerdict(t: Transport, data: bytes)
    requires t.state == Connected
    ensures var (after, reply) := Received(t, data);
            && after == t.(state := if reply.Err? then Disconnected else Connected)
            && match Decode(data, t.maxPacketSize)
               case Err(e) => reply == if e.NeedMoreData? then Ok(None) else Err(e)
               case Ok((p, n)) =>
                 match p
                 case PublishPacket(x) => reply == Ok(Some((PublishNote(x), n)))
                 case PubAckPacket(id) => reply == Ok(Some((PubAckNote(id), n)))
                 case PubRecPacket(id) => reply == Ok(Some((PubRecNote(id), n)))
                 case PubRelPacket(id) => reply == Ok(Some((PubRelNote(id), n)))
                 case PubCompPacket(id) => reply == Ok(Some((PubCompNote(id), n)))
                 case SubAckPacket(x) => reply == Ok(Some((SubAckNote(x), n)))
                 case UnsubAckPacket(id) => reply == Ok(Some((UnsubAckNote(id), n)))
                 case PingRespPacket => reply == Ok(Some((PingResponseNote, n)))
                 case ConnAckPacket(_) => reply == Err(UnexpectedPacket(ConnAckType))
                 case ConnectPacket(_) => reply == Err(UnsupportedPacket)
                 case SubscribePacket(_) => reply == Err(UnsupportedPacket)
                 case UnsubscribePacket(_) => reply == Err(UnsupportedPacket)
                 case PingReqPacket => reply == Err(UnsupportedPacket)
                 case DisconnectPacket => reply == Err(UnsupportedPacket)
  {
    hide Decode;
  }

  /**
   Before the CONNACK: a CONNACK with the success code connects, any other one closes, and every other packet is an
   error that names its type. A disconnected client says so and does not look at the bytes.
   */
  lemma WaitingVerdict(t: Transport, data: bytes)
    ensures t.state == Disconnected ==> Received(t, data) == (t, Ok(Some((DisconnectedNote, 0))))
    ensures t.state == TransportConnected ==>
              var (after, reply) := Received(t, data);
              match Decode(data, t.maxPacketSize)
              case Err(e) =>
                if e.NeedMoreData? then after == t && reply == Ok(None)
                else after == t.(state := Disconnected) && reply == Err(e)
              case Ok((p, n)) =>
                if p.ConnAckPacket? && p.connAck.code == Accepted then
                  after == t.(state := Connected) && reply == Ok(Some((ConnAckNote(p.connAck), n)))
                else
                  && after == t.(state := Disconnected)
                  && match p
                     case ConnAckPacket(_) => reply == Ok(Some((DisconnectedNote, 0)))
                     case ConnectPacket(_) => reply == Err(UnexpectedPacket(ConnectType))
                     case PublishPacket(_) => reply == Err(UnexpectedPacket(PublishType))
                     case PubAckPacket(_) => reply == Err(UnexpectedPacket(PubAckType))
                     case PubRecPacket(_) => reply == Err(UnexpectedPacket(PubRecType))
                     case PubRelPacket(_) => reply == Err(UnexpectedPacket(PubRelType))
                     case PubCompPacket(_) => reply == Err(UnexpectedPacket(PubCompType))
                     case SubscribePacket(_) => reply == Err(UnexpectedPacket(SubscribeType))
                     case SubAckPacket(_) => reply == Err(UnexpectedPacket(SubAckType))
                     case UnsubscribePacket(_) => reply == Err(UnexpectedPacket(UnsubscribeType))
                     case UnsubAckPacket(_) => reply == Err(UnexpectedPacket(UnsubAckType))
                     case PingReqPacket => reply == Err(UnexpectedPacket(PingReqType))
                     case PingRespPacket => reply == Err(UnexpectedPacket(PingRespType))
                     case DisconnectPacket => reply == Err(UnexpectedPacket(DisconnectType))
  {
    hide Decode;
  }

  /** A window that starts with a complete packet always gets an answer: the automaton never asks for more. */
  lemma CompleteWindowIsAnswered(c: Client)
    requires Check(c.used, c.rxCapacity).Ok? && !c.IsDisconnected()
    ensures Received(c.tc, c.used).1 != Ok(None)
    ensures Deliver(c).1.Err? ==> exists e :: Received(c.tc, c.used).1 == Err(e) && Deliver(c).1 == Err(ReadFailure(e))
  {
    hide Decode, Received;
    ReceivedFacts(c.tc, c.used);
    hide ParseFixedHeader;
    assert !(Check(c.used, c.tc.maxPacketSize).Err? && Check(c.used, c.tc.maxPacketSize).error.NeedMoreData?);
  }

  /** A delivered packet is the first one of the window. */
  ghost predicate Delivered(c: Client, note: Notification, taken: nat) {
    if note.DisconnectedNote? then
      taken == 0 && c.IsDisconnected()
    else
      FirstNote(c.used, c.tc.maxPacketSize) == Some((note, taken)) && c.tc.state == Connected
  }

  lemma DeliverFacts(c: Client)
    requires Check(c.used, c.rxCapacity).Ok?
    ensures var (after, r) := Deliver(c);
            && SameSizes(c, after) && after.used == c.used
            && (r.Ok? && r.value.TransportNotification? ==> Delivered(after, r.value.notification, r.value.taken))
            && (r.Err? ==> after.IsDisconnected())
  {
    hide Check, Received, FirstNote;
    ReceivedFacts(c.tc, c.used);
    if !c.IsDisconnected() {
      CompleteWindowIsAnswered(c);
    }
    match Received(c.tc, c.used).1 {
      case Err(_) =>
      case Ok(None) =>
      case Ok(Some((note, taken))) =>
        assert Deliver(c).1 == Ok(TransportNotification(note, taken));
    }
  }

  lemma {:induction false} NextLoopFacts(c: Client, answers: seq<ReadAnswer>)
    requires NextLoop(c, answers).1.Done?
    ensures var (after, Done(r)) := NextLoop(c, answers);
            && SameSizes(c, after) && after.used == c.used + DataOf(answers)
            && (r.Ok? && r.value.TransportNotification? ==> Delivered(after, r.value.notification, r.value.taken))
            && (r.Err? ==> after.IsDisconnected())
    decreases |answers|
  {
    hide Check, Deliver, Delivered;
    var (after, r) := AfterRead(c, answers[0]);
    if r.Ok? && r.value.Some? {
      if Check(after.used, after.rxCapacity).Ok? {
        DeliverFacts(after);
      } else {
        NextLoopFacts(after, answers[1..]);
        assert after.used + DataOf(answers[1..]) == c.used + (answers[0].data + DataOf(answers[1..]));
      }
    }
    if answers[1..] == [] {
      assert DataOf(answers) == if answers[0].Chunk? then answers[0].data else [];
    }
  }

  /**
   `next_notification` adds what was read to the window and takes nothing out; any error leaves the client
   disconnected.
   */
  lemma NextFacts(c: Client, answers: seq<ReadAnswer>)
    requires AfterNext(c, answers).1.Done?
    ensures var (after, Done(r)) := AfterNext(c, answers);
            && SameSizes(c, after) && after.used == c.used + DataOf(answers)
            && (r.Ok? && r.value.TransportNotification? ==> Delivered(after, r.value.notification, r.value.taken))
            && (r.Err? ==> after.IsDisconnected())
            && (c.IsDisconnected() ==> after == c && r == Err(ConnectionClosed))
  {
    hide NextLoop, Delivered;
    if !c.IsDisconnected() {
      NextLoopFacts(c, answers);
    }
  }

  /** The window while `next_notification` waits for its last answer. */
  function Waited(c: Client, answers: seq<ReadAnswer>): bytes
    requires answers != []
  {
    c.used + DataOf(answers[..|answers| - 1])
  }

  lemma DataOfCons(used: bytes, answers: seq<ReadAnswer>)
    requires answers != [] && answers[0].Chunk?
    ensures used + DataOf(answers) == (used + answers[0].data) + DataOf(answers[1..])
  {
  }

  lemma DataOfOne(used: bytes, answers: seq<ReadAnswer>)
    requires |answers| == 1
    ensures used + DataOf(answers) == used + if answers[0].Chunk? then answers[0].data else []
  {
    assert DataOf(answers) == (if answers[0].Chunk? then answers[0].data else []) + DataOf(answers[1..]);
  }

  lemma WaitedForTwo(c: Client, answers: seq<ReadAnswer>)
    requires |answers| == 2 && answers[0].Chunk?
    ensures Waited(c, answers) == AfterRead(c, answers[0]).0.used
  {
    DataOfOne(c.used, answers[..1]);
  }

  lemma WithoutEnds(answers: seq<ReadAnswer>)
    requires |answers| > 1
    ensures answers[..|answers| - 1][0] == answers[0]
    ensures answers[..|answers| - 1][1..] == answers[1..|answers| - 1] == answers[1..][..|answers[1..]| - 1]
  {
  }

  lemma WaitedStep(c: Client, answers: seq<ReadAnswer>)
    requires |answers| > 1 && answers[0].Chunk?
    ensures var after := AfterRead(c, answers[0]).0;
            && Waited(after, answers[1..]) == Waited(c, answers)
            && after.used + DataOf(answers[1..]) == c.used + DataOf(answers)
            && Waited(c, answers) == after.used + DataOf(answers[1..|answers| - 1])
  {
    WithoutEnds(answers);
    DataOfCons(c.used, answers[..|answers| - 1]);
    DataOfCons(c.used, answers);
    hide DataOf;
  }

  /**
   `next_notification` returns with the first answer that is not a chunk, or with the first chunk after which the window
   starts with a whole packet; it looks at the window only after a read.
   */
  lemma {:induction false} NextReturnsIff(c: Client, answers: seq<ReadAnswer>)
    requires answers != []
    ensures NextLoop(c, answers).1.Done? <==>
            && (forall i :: 0 <= i < |answers| - 1 ==> answers[i].Chunk?)
            && (|answers| > 1 ==> Check(Waited(c, answers), c.rxCapacity).Err?)
            && (answers[|answers| - 1].Chunk? ==> Check(c.used + DataOf(answers), c.rxCapacity).Ok?)
    decreases |answers|
  {
    hide Check, Deliver;
    if |answers| == 1 {
      assert DataOf(answers) == (if answers[0].Chunk? then answers[0].data else []) + DataOf(answers[1..]);
      assert answers[0].Chunk? ==> c.used + DataOf(answers) == c.used + answers[0].data;
    } else if answers[0].Chunk? {
      var after := AfterRead(c, answers[0]).0;
      WaitedStep(c, answers);
      CheckStable(after.used, DataOf(answers[1..|answers| - 1]), c.rxCapacity);
      NextReturnsIff(after, answers[1..]);
      assert forall i :: 0 <= i < |answers| - 1 ==> answers[1..][i] == answers[i + 1];
      assert forall i :: 0 < i < |answers| - 1 ==> answers[i] == answers[1..][i - 1];
    }
  }

  /**
   What `next_notification` returns, as a function of the last answer and of everything in the window: a timeout asks
   for a ping, the end of the stream and an error are reported as such, and after a chunk the automaton decides.
   */
  lemma {:induction false} NextLoopVerdict(c: Client, answers: seq<ReadAnswer>)
    requires !c.IsDisconnected() && NextLoop(c, answers).1.Done?
    ensures var (after, Done(r)) := NextLoop(c, answers);
            var all := c.used + DataOf(answers);
            && answers != []
            && match answers[|answers| - 1]
               case TimedOut => after == c.(used := all) && r == Ok(SendPing)
               case Eof => after == c.(used := all, tc := c.tc.(state := Disconnected)) && r == Err(ConnectionClosed)
               case ReadRefused => after == c.(used := all, tc := c.tc.(state := Disconnected)) && r == Err(IoError)
               case Chunk(_) =>
                 var (tc, reply) := Received(c.tc, all);
                 && after == c.(used := all, tc := tc)
                 && match reply
                    case Err(e) => r == Err(ReadFailure(e))
                    case Ok(None) => false
                    case Ok(Some((note, n))) => r == Ok(TransportNotification(note, n))
    decreases |answers|
  {
    hide Check, Received;
    var (after, r) := AfterRead(c, answers[0]);
    if answers[1..] == [] {
      assert DataOf(answers) == (if answers[0].Chunk? then answers[0].data else []) + DataOf(answers[1..]);
      assert answers[0].Chunk? ==> c.used + DataOf(answers) == after.used;
      assert !answers[0].Chunk? ==> c.used + DataOf(answers) == c.used;
    }
    if answers[0].Chunk? {
      if Check(after.used, after.rxCapacity).Ok? {
        CompleteWindowIsAnswered(after);
      } else {
        WaitedStep(c, answers);
        NextLoopVerdict(after, answers[1..]);
      }
    }
  }

  /** On an established connection, told by the first packet in the window. */
  lemma NextVerdict(c: Client, answers: seq<ReadAnswer>)
    requires c.tc.state == Connected && AfterNext(c, answers).1.Done?
    ensures var (after, Done(r)) := AfterNext(c, answers);
            var all := c.used + DataOf(answers);
            && answers != [] && after.used == all
            && after.tc == c.tc.(state := if r.Err? then Disconnected else Connected)
            && match answers[|answers| - 1]
               case TimedOut => r == Ok(SendPing)
               case Eof => r == Err(ConnectionClosed)
               case ReadRefused => r == Err(IoError)
               case Chunk(_) =>
                 match Decode(all, c.tc.maxPacketSize)
                 case Err(e) => r == Err(ReadFailure(e)) && !e.NeedMoreData?
                 case Ok((p, n)) =>
                   match p
                   case PublishPacket(x) => r == Ok(TransportNotification(PublishNote(x), n))
                   case PubAckPacket(id) => r == Ok(TransportNotification(PubAckNote(id), n))
                   case PubRecPacket(id) => r == Ok(TransportNotification(PubRecNote(id), n))
                   case PubRelPacket(id) => r == Ok(TransportNotification(PubRelNote(id), n))
                   case PubCompPacket(id) => r == Ok(TransportNotification(PubCompNote(id), n))
                   case SubAckPacket(x) => r == Ok(TransportNotification(SubAckNote(x), n))
                   case UnsubAckPacket(id) => r == Ok(TransportNotification(UnsubAckNote(id), n))
                   case PingRespPacket => r == Ok(TransportNotification(PingResponseNote, n))
                   case ConnAckPacket(_) => r == Err(ReadFailure(UnexpectedPacket(ConnAckType)))
                   case ConnectPacket(_) => r == Err(ReadFailure(UnsupportedPacket))
                   case SubscribePacket(_) => r == Err(ReadFailure(UnsupportedPacket))
                   case UnsubscribePacket(_) => r == Err(ReadFailure(UnsupportedPacket))
                   case PingReqPacket => r == Err(ReadFailure(UnsupportedPacket))
                   case DisconnectPacket => r == Err(ReadFailure(UnsupportedPacket))
  {
    hide NextLoop, Received, Decode;
    NextLoopVerdict(c, answers);
    EstablishedVerdict(c.tc, c.used + DataOf(answers));
  }

  lemma {:induction false} ConnackLoopFacts(c: Client, answers: seq<ReadAnswer>)
    requires c.tc.state == TransportConnected && ConnackLoop(c, answers).1.Done?
    ensures var (after, Done(r)) := ConnackLoop(c, answers);
            var all := c.used + DataOf(answers);
            && SameSizes(c, after)
            && (r.Ok? ==> FirstNote(all, c.tc.maxPacketSize) == Some((ConnAckNote(r.value.0), r.value.1))
                          && after.used == DropPrefix(all, r.value.1)
                          && after.tc.state == Connected && r.value.0.code == Accepted)
            && (r.Err? ==> after.used == all && after.IsDisconnected())
    decreases |answers|
  {
    hide Received, FirstNote, DropPrefix;
    var (after, r) := AfterRead(c, answers[0]);
    if r.Ok? && r.value.Some? {
      var (tc, reply) := Received(after.tc, after.used);
      ReceivedFacts(after.tc, after.used);
      if reply == Ok(None) {
        ConnackLoopFacts(after, answers[1..]);
        assert after.used + DataOf(answers[1..]) == c.used + (answers[0].data + DataOf(answers[1..]));
      }
    }
    if answers[1..] == [] {
      assert DataOf(answers) == if answers[0].Chunk? then answers[0].data else [];
    }
  }

  /**
   Connecting either returns a CONNACK with the success code, which was the first packet received, or an error.
   After an error the client is disconnected, with one exception: a CONNECT that does not fit the transmit buffer.
   */
  lemma ConnectFacts(c: Client, options: ConnectOptions, wrote: WriteAnswer, answers: seq<ReadAnswer>)
    requires AfterConnect(c, options, wrote, answers).1.Done?
    ensures var (after, Done(r)) := AfterConnect(c, options, wrote, answers);
            && SameSizes(c, after)
            && (r.Ok? ==> FirstNote(DataOf(answers), c.tc.maxPacketSize) == Some((ConnAckNote(r.value.0), r.value.1))
                          && after.used == DropPrefix(DataOf(answers), r.value.1)
                          && after.tc.state == Connected && r.value.0.code == Accepted
                          && ConnectOutcome(c, options).Ok? && wrote.Wrote?)
            && (r.Err? ==> after.used == DataOf(answers))
            && (r.Err? ==>
                  after.tc.state == if ConnectOutcome(c, options).Ok? then Disconnected else TransportConnected)
  {
    hide ConnackLoop, FirstNote, DropPrefix, ConnectOutcome;
    var c0 := Restarted(c, options);
    if ConnectOutcome(c, options).Ok? && wrote.Wrote? {
      var (c1, _) := AfterWrite(c0, wrote);
      ConnackLoopFacts(c1, answers);
      assert [] + DataOf(answers) == DataOf(answers);
    }
  }

  // ---- What connecting reports ----

  /** More bytes are needed before anything can be said about the stream. */
  predicate Undecided(s: bytes, max: nat) {
    Decode(s, max).Err? && Decode(s, max).error.NeedMoreData?
  }

  /** What becomes of a connection attempt whose first packet, or the error in its place, is `first`. */
  function ConnackVerdict(first: Result<(Packet, nat), Error>): Result<(ConnAck, nat), ClientError>
    requires first.Err? ==> !first.error.NeedMoreData?
  {
    match first
    case Err(e) => Err(ReadFailure(e))
    case Ok((p, n)) =>
      if !p.ConnAckPacket? then Err(ReadFailure(UnexpectedPacket(p.Type())))
      else if p.connAck.code == Accepted then Ok((p.connAck, n))
      else Err(UnexpectedPacketError)
  }

  lemma OpeningVerdict(t: Transport, data: bytes)
    requires t.state == TransportConnected
    ensures Undecided(data, t.maxPacketSize) <==> Received(t, data).1 == Ok(None)
    ensures !Undecided(data, t.maxPacketSize) ==>
              match Received(t, data).1
              case Err(e) => ConnackVerdict(Decode(data, t.maxPacketSize)) == Err(ReadFailure(e))
              case Ok(None) => false
              case Ok(Some((note, n))) =>
                ConnackVerdict(Decode(data, t.maxPacketSize))
                == if note.ConnAckNote? then Ok((note.connAck, n)) else Err(UnexpectedPacketError)
  {
    hide Decode;
  }

  /**
   A client that waits for its CONNACK reports what the first packet received calls for, in both directions: success
   exactly for a CONNACK with the success code, and `UnexpectedPacket` for a refusal. If the transport ends before the
   first packet is complete, it reports that.
   */
  lemma {:induction false} ConnackLoopVerdict(c: Client, answers: seq<ReadAnswer>)
    requires c.tc.state == TransportConnected && ConnackLoop(c, answers).1.Done?
    requires Undecided(c.used, c.tc.maxPacketSize)
    ensures var all := c.used + DataOf(answers);
            ConnackLoop(c, answers).1.result
            == if !Undecided(all, c.tc.maxPacketSize) then ConnackVerdict(Decode(all, c.tc.maxPacketSize))
               else Err(if answers[|answers| - 1].Eof? then ConnectionClosed else IoError)
    decreases |answers|
  {
    hide Received, Undecided, ConnackVerdict, DropPrefix;
    var (after, r) := AfterRead(c, answers[0]);
    if answers[1..] == [] {
      assert DataOf(answers) == (if answers[0].Chunk? then answers[0].data else []) + DataOf(answers[1..]);
      assert answers[0].Chunk? ==> c.used + DataOf(answers) == after.used;
      assert !answers[0].Chunk? ==> c.used + DataOf(answers) == c.used;
    }
    if r.Ok? && r.value.Some? {
      OpeningVerdict(after.tc, after.used);
      ReceivedFacts(after.tc, after.used);
      if Received(after.tc, after.used).1 == Ok(None) {
        ConnackLoopVerdict(after, answers[1..]);
        assert after.used + DataOf(answers[1..]) == c.used + (answers[0].data + DataOf(answers[1..]));
      }
    }
  }

  /** `read_connack` returns with the first answer that is not a chunk, or with the first chunk that decides. */
  lemma {:induction false} ConnackReturnsIff(c: Client, answers: seq<ReadAnswer>)
    requires c.tc.state == TransportConnected && answers != []
    ensures ConnackLoop(c, answers).1.Done? <==>
            && (forall i :: 0 <= i < |answers| - 1 ==> answers[i].Chunk?)
            && (|answers| > 1 ==> Undecided(Waited(c, answers), c.tc.maxPacketSize))
            && !answers[|answers| - 1].TimedOut?
            && (answers[|answers| - 1].Chunk? ==> !Undecided(c.used + DataOf(answers), c.tc.maxPacketSize))
    decreases |answers|
  {
    hide Received, Undecided, DropPrefix, DataOf, Waited, ConnackVerdict, FirstNote;
    var after := AfterRead(c, answers[0]).0;
    if answers[0].Chunk? {
      OpeningVerdict(after.tc, after.used);
      ReceivedFacts(after.tc, after.used);
    }
    if |answers| == 1 {
      DataOfOne(c.used, answers);
    } else if answers[0].Chunk? {
      assert answers[1..] != [];
      WaitedStep(c, answers);
      if !Undecided(after.used, c.tc.maxPacketSize) {
        DecidedStays(after.used, DataOf(answers[1..|answers| - 1]), c.tc.maxPacketSize);
      }
      if Received(after.tc, after.used).1 == Ok(None) {
        ConnackReturnsIff(after, answers[1..]);
        if |answers| == 2 {
          WaitedForTwo(c, answers);
        }
        assert forall i :: 0 <= i < |answers| - 1 ==> answers[1..][i] == answers[i + 1];
        assert forall i :: 0 < i < |answers| - 1 ==> answers[i] == answers[1..][i - 1];
      }
    }
  }

  lemma DecidedStays(s: bytes, more: bytes, max: nat)
    requires !Undecided(s, max)
    ensures !Undecided(s + more, max)
  {
    hide Decode;
    PrefixStability(s, more, max);
  }

  /**
   Connecting, once the CONNECT has been sent, returns exactly what the first packet received calls for. In particular a
   refused CONNACK is always reported as `UnexpectedPacket`.
   */
  lemma ConnectVerdict(c: Client, options: ConnectOptions, wrote: WriteAnswer, answers: seq<ReadAnswer>)
    requires AfterConnect(c, options, wrote, answers).1.Done? && ConnectOutcome(c, options).Ok? && wrote.Wrote?
    ensures var all := DataOf(answers);
            AfterConnect(c, options, wrote, answers).1.result
            == if !Undecided(all, c.tc.maxPacketSize) then ConnackVerdict(Decode(all, c.tc.maxPacketSize))
               else Err(if answers[|answers| - 1].Eof? then ConnectionClosed else IoError)
    ensures !Undecided(DataOf(answers), c.tc.maxPacketSize) ==>
              var r := AfterConnect(c, options, wrote, answers).1.result;
              match Decode(DataOf(answers), c.tc.maxPacketSize)
              case Err(e) => r == Err(ReadFailure(e))
              case Ok((p, n)) =>
                if !p.ConnAckPacket? then r == Err(ReadFailure(UnexpectedPacket(p.Type())))
                else if p.connAck.code == Accepted then r == Ok((p.connAck, n))
                else r == Err(UnexpectedPacketError)
  {
    hide ConnackLoop, ConnectOutcome, Decode;
    var c1 := AfterWrite(Restarted(c, options), wrote).0;
    assert Undecided([], c.tc.maxPacketSize) by {
      NothingDecided(c.tc.maxPacketSize);
    }
    ConnackLoopVerdict(c1, answers);
    assert [] + DataOf(answers) == DataOf(answers);
  }

  lemma NothingDecided(max: nat)
    ensures Undecided([], max)
  {
  }

  /**
   What each CONNACK leads to when it arrives in one piece, with whatever `rest` behind it, and how the client is left.
   */
  lemma ConnAckArrives(c: Client, options: ConnectOptions, now: Instant, a: ConnAck, rest: bytes)
    requires ConnectOutcome(c, options).Ok? && c.tc.maxPacketSize >= 2
    ensures var data := Encode(ConnAckPacket(a));
            var (after, reply) := AfterConnect(c, options, Wrote(now), [Chunk(data + rest)]);
            && |data| == 4
            && reply == Done(if a.code == Accepted then Ok((a, 4)) else Err(UnexpectedPacketError))
            && after.tc
               == Sent(Opened(c.tc, options), now).(state := if a.code == Accepted then Connected else Disconnected)
            && after.used == (if a.code == Accepted then rest else data + rest) && SameSizes(c, after)
  {
    hide Decode, Encode, ConnectOutcome, Sent;
    var data := Encode(ConnAckPacket(a));
    ConnAckSize(a);
    PrintRead(ConnAckPacket(a), rest, c.tc.maxPacketSize);
    assert [] + (data + rest) == data + rest;
    var answers := [Chunk(data + rest)];
    assert answers[1..] == [];
    var c1 := AfterWrite(Restarted(c, options), Wrote(now)).0;
    assert c1.tc == Sent(Opened(c.tc, options), now) && c1.tc.state == TransportConnected
           && c1.tc.maxPacketSize == c.tc.maxPacketSize by {
      SentKeeps(Opened(c.tc, options), now);
    }
    assert Received(c1.tc, data + rest) == if a.code == Accepted
                                           then (c1.tc.(state := Connected), Ok(Some((ConnAckNote(a), 4))))
                                           else (c1.tc.(state := Disconnected), Ok(Some((DisconnectedNote, 0))));
    hide Received, Opened;
    assert DropPrefix(data + rest, 4) == rest;
  }

  lemma SentKeeps(t: Transport, now: Instant)
    ensures var after := Sent(t, now);
            after.state == t.state && after.maxPacketSize == t.maxPacketSize && after.keepAlive == t.keepAlive
  {
  }

  lemma ConnAckSize(a: ConnAck)
    ensures |Encode(ConnAckPacket(a))| == 4 && DeclaredLen(ConnAckPacket(a)) == 2
    ensures Representable(ConnAckPacket(a)) && Normal(ConnAckPacket(a)) == ConnAckPacket(a)
  {
  }
}
