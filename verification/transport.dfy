/** The session automaton: what has happened to the transport and to the MQTT connection on top of it. */
module Transports {
  import opened Bytes
  import opened Wire
  import opened Acks
  import opened Connects
  import opened Publishes
  import opened Packets
  import opened Time
  import A = SubAcks

  datatype Notification =
    | ConnAckNote(connAck: ConnAck)
    | PublishNote(publish: Publish)
    | PubAckNote(pkid: u16)
    | PubRecNote(pkid: u16)
    | PubRelNote(pkid: u16)
    | PubCompNote(pkid: u16)
    | SubAckNote(subAck: A.SubAck)
    | UnsubAckNote(pkid: u16)
    | PingResponseNote
    | DisconnectedNote

  datatype State = Disconnected | TransportConnected | Connected

  type Reply = Result<Option<(Notification, nat)>, Error>

  /** The fields of a client, as a value. `keepAlive` is in milliseconds. */
  datatype Transport = Transport(keepAlive: nat, state: State, maxPacketSize: nat, packetSendAt: Instant)

  // ---- The transitions as functions ----

  function Opened(t: Transport, options: ConnectOptions): Transport {
    t.(keepAlive := FromSeconds(options.keepAlive), packetSendAt := EPOCH, state := TransportConnected)
  }

  function Sent(t: Transport, now: Instant): Transport {
    if t.keepAlive > 0 then t.(packetSendAt := now.Plus(t.keepAlive)) else t
  }

  function Closed(t: Transport): Transport {
    t.(state := Disconnected)
  }

  /** The notification a packet gives rise to on an established connection. */
  function NoteOf(p: Packet): Option<Notification> {
    match p
    case PublishPacket(x) => Some(PublishNote(x))
    case PubAckPacket(id) => Some(PubAckNote(id))
    case PubRecPacket(id) => Some(PubRecNote(id))
    case PubRelPacket(id) => Some(PubRelNote(id))
    case PubCompPacket(id) => Some(PubCompNote(id))
    case SubAckPacket(x) => Some(SubAckNote(x))
    case UnsubAckPacket(id) => Some(UnsubAckNote(id))
    case PingRespPacket => Some(PingResponseNote)
    case _ => None
  }

  function OpeningReply(r: Result<(Packet, nat), Error>): (State, Reply) {
    match r
    case Err(e) => if e.NeedMoreData? then (TransportConnected, Ok(None)) else (Disconnected, Err(e))
    case Ok((p, taken)) =>
      if !p.ConnAckPacket? then (Disconnected, Err(UnexpectedPacket(p.Type())))
      else if p.connAck.code == Accepted then (Connected, Ok(Some((ConnAckNote(p.connAck), taken))))
      else (Disconnected, Ok(Some((DisconnectedNote, 0))))
  }

  function EstablishedReply(r: Result<(Packet, nat), Error>): (State, Reply) {
    match r
    case Err(e) => if e.NeedMoreData? then (Connected, Ok(None)) else (Disconnected, Err(e))
    case Ok((p, taken)) =>
      if p.ConnAckPacket? then (Disconnected, Err(UnexpectedPacket(ConnAckType)))
      else match NoteOf(p)
        case Some(note) => (Connected, Ok(Some((note, taken))))
        case None => (Disconnected, Err(UnsupportedPacket))
  }

  function Received(t: Transport, data: bytes): (Transport, Reply) {
    match t.state
    case Disconnected => (t, Ok(Some((DisconnectedNote, 0))))
    case TransportConnected =>
      var (state, reply) := OpeningReply(Decode(data, t.maxPacketSize));
      (t.(state := state), reply)
    case Connected =>
      var (state, reply) := EstablishedReply(Decode(data, t.maxPacketSize));
      (t.(state := state), reply)
  }

  function NextPingIn(t: Transport, now: Instant): Option<nat> {
    if t.keepAlive > 0 then Some(t.packetSendAt.Since(now)) else None
  }

  // ---- The client object ----

  class TransportClient {
    var keepAlive: nat
    var state: State
    var maxPacketSize: nat
    var packetSendAt: Instant

    ghost function View(): Transport
      reads this
    {
      Transport(keepAlive, state, maxPacketSize, packetSendAt)
    }

    constructor (maxPacketSize: nat)
      ensures View() == Transport(0, Disconnected, maxPacketSize, EPOCH)
    {
      keepAlive := 0;
      state := Disconnected;
      this.maxPacketSize := maxPacketSize;
      packetSendAt := EPOCH;
    }

    method OnTransportOpened(options: ConnectOptions)
      modifies this
      ensures View() == Opened(old(View()), options)
    {
      keepAlive := FromSeconds(options.keepAlive);
      packetSendAt := EPOCH;
      state := TransportConnected;
    }

    method OnPacketSent(now: Instant)
      modifies this
      ensures View() == Sent(old(View()), now)
    {
      if keepAlive > 0 {
        packetSendAt := now.Plus(keepAlive);
      }
    }

    method OnTransportClosed()
      modifies this
      ensures View() == Closed(old(View()))
    {
      state := Disconnected;
    }

    method OnBytesReceived(data: bytes) returns (r: Reply)
      modifies this
      ensures (View(), r) == Received(old(View()), data)
    {
      hide Decode;
      if state == Disconnected {
        return Ok(Some((DisconnectedNote, 0)));
      }
      var read := ReadPacket(data, maxPacketSize);
      if state == TransportConnected {
        match read {
          case Err(e) =>
            if e.NeedMoreData? {
              return Ok(None);
            }
            state := Disconnected;
            return Err(e);
          case Ok((ConnAckPacket(c), taken)) =>
            if c.code == Accepted {
              state := Connected;
              return Ok(Some((ConnAckNote(c), taken)));
            }
            state := Disconnected;
            return Ok(Some((DisconnectedNote, 0)));
          case Ok((p, _)) =>
            state := Disconnected;
            return Err(UnexpectedPacket(p.Type()));
        }
      }
      match read {
        case Err(e) =>
          if e.NeedMoreData? {
            return Ok(None);
          }
          state := Disconnected;
          return Err(e);
        case Ok((ConnAckPacket(_), _)) =>
          state := Disconnected;
          return Err(UnexpectedPacket(ConnAckType));
        case Ok((PublishPacket(x), taken)) => return Ok(Some((PublishNote(x), taken)));
        case Ok((PubAckPacket(id), taken)) => return Ok(Some((PubAckNote(id), taken)));
        case Ok((PubRecPacket(id), taken)) => return Ok(Some((PubRecNote(id), taken)));
        case Ok((PubRelPacket(id), taken)) => return Ok(Some((PubRelNote(id), taken)));
        case Ok((PubCompPacket(id), taken)) => return Ok(Some((PubCompNote(id), taken)));
        case Ok((SubAckPacket(x), taken)) => return Ok(Some((SubAckNote(x), taken)));
        case Ok((UnsubAckPacket(id), taken)) => return Ok(Some((UnsubAckNote(id), taken)));
        case Ok((PingRespPacket, taken)) => return Ok(Some((PingResponseNote, taken)));
        case Ok(_) =>
          state := Disconnected;
          return Err(UnsupportedPacket);
      }
    }

    method PingIn(now: Instant) returns (r: Option<nat>)
      ensures r == NextPingIn(View(), now)
    {
      if keepAlive > 0 {
        return Some(packetSendAt.Since(now));
      }
      return None;
    }

    method IsDisconnected() returns (r: bool)
      ensures r <==> View().state == Disconnected
    {
      return state == Disconnected;
    }
  }
}
