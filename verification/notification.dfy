/** What the client reports to its user and how the user answers: the acknowledgement policy. */
module ClientNotifications {
  import opened Bytes
  import opened Wire
  import opened Packets
  import opened Transports

  datatype NotificationAction =
    | NoAction
    | SendPingReq
    | SendPubAck(pkid: u16)
    | SendPubRec(pkid: u16)
    | SendPubComp(pkid: u16)

  datatype NotificationCompletion = NotificationCompletion(taken: nat, action: NotificationAction)

  datatype ClientNotification =
    | TransportNotification(notification: Notification, taken: nat)
    | SendPing
  {
    function Taken(): nat {
      match this
      case TransportNotification(_, taken) => taken
      case SendPing => 0
    }

    /** The default answer. */
    function Complete(): NotificationCompletion {
      match this
      case SendPing => NotificationCompletion(0, SendPingReq)
      case TransportNotification(note, taken) =>
        var action := match note
          case PublishNote(publish) =>
            (match publish.qos
             case AtMostOnce => NoAction
             case AtLeastOnce => SendPubAck(publish.pkid)
             case ExactlyOnce => SendPubRec(publish.pkid))
          case PubRelNote(pkid) => SendPubComp(pkid)
          case _ => NoAction;
        NotificationCompletion(taken, action)
    }

    function CompleteNoAction(): NotificationCompletion {
      NotificationCompletion(Taken(), NoAction)
    }

    function CompleteNoPubAck(): NotificationCompletion {
      match this
      case TransportNotification(_, taken) => NotificationCompletion(taken, NoAction)
      case SendPing => NotificationCompletion(0, SendPingReq)
    }

    function WithAction(action: NotificationAction): NotificationCompletion {
      NotificationCompletion(Taken(), action)
    }
  }

  /** The packet an action puts on the wire. */
  function ActionPacket(action: NotificationAction): Option<Packet> {
    match action
    case NoAction => None
    case SendPingReq => Some(PingReqPacket)
    case SendPubAck(id) => Some(PubAckPacket(id))
    case SendPubRec(id) => Some(PubRecPacket(id))
    case SendPubComp(id) => Some(PubCompPacket(id))
  }

  /** The answer sections 4.3.2 and 4.3.3 of MQTT 3.1.1 require from a receiver. */
  function RequiredReply(note: Notification): Option<Packet> {
    match note
    case PublishNote(publish) =>
      if publish.qos == AtLeastOnce then Some(PubAckPacket(publish.pkid))
      else if publish.qos == ExactlyOnce then Some(PubRecPacket(publish.pkid))
      else None
    case PubRelNote(pkid) => Some(PubCompPacket(pkid))
    case _ => None
  }

  /** The default answer to a received packet is the required one, and every completion drops exactly that packet. */
  lemma CompleteIsRequired(n: ClientNotification)
    ensures n.TransportNotification? ==> ActionPacket(n.Complete().action) == RequiredReply(n.notification)
    ensures n.SendPing? ==> ActionPacket(n.Complete().action) == Some(PingReqPacket)
    ensures var taken := if n.TransportNotification? then n.taken else 0;
            && n.Taken() == n.Complete().taken == n.CompleteNoAction().taken == n.CompleteNoPubAck().taken == taken
            && forall action :: n.WithAction(action) == NotificationCompletion(taken, action)
  {
  }

  /** The answers in full: an acknowledgement for QoS 1, QoS 2 and PUBREL, and none for anything else. */
  lemma DefaultAnswers(note: Notification, taken: nat)
    ensures var answer := ActionPacket(TransportNotification(note, taken).Complete().action);
            match note
            case PublishNote(p) =>
              && (p.qos == AtMostOnce ==> answer == None)
              && (p.qos == AtLeastOnce ==> answer == Some(PubAckPacket(p.pkid)))
              && (p.qos == ExactlyOnce ==> answer == Some(PubRecPacket(p.pkid)))
            case PubRelNote(id) => answer == Some(PubCompPacket(id))
            case _ => answer == None
  {
  }

  /** The other two completions never acknowledge a packet; one of them still answers a ping request. */
  lemma SilentCompletions(n: ClientNotification)
    ensures ActionPacket(n.CompleteNoAction().action) == None
    ensures ActionPacket(n.CompleteNoPubAck().action) == if n.SendPing? then Some(PingReqPacket) else None
  {
  }
}
