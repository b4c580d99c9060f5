/** Laws of the session automaton over whole histories of events. */
module Sessions {
  import opened Bytes
  import opened Acks
  import opened Connects
  import opened Packets
  import opened Time
  import opened Transports

  datatype Event =
    | TransportOpened(options: ConnectOptions)
    | PacketSent(now: Instant)
    | TransportClosed
    | BytesReceived(data: bytes)

  function Step(t: Transport, e: Event): Transport {
    match e
    case TransportOpened(options) => Opened(t, options)
    case PacketSent(now) => Sent(t, now)
    case TransportClosed => Closed(t)
    case BytesReceived(data) => Received(t, data).0
  }

  function Fresh(maxPacketSize: nat): Transport {
    Transport(0, Disconnected, maxPacketSize, EPOCH)
  }

  /** The client after a history of events. */
  function Run(max: nat, es: seq<Event>): Transport {
    if es == [] then Fresh(max) else Step(Run(max, es[..|es| - 1]), es[|es| - 1])
  }

  /** The client just before event `i`. */
  function Before(max: nat, es: seq<Event>, i: nat): Transport
    requires i <= |es|
  {
    Run(max, es[..i])
  }

  /** What event `i` reports to the caller. */
  function Output(max: nat, es: seq<Event>, i: nat): Option<Reply>
    requires i < |es|
  {
    if es[i].BytesReceived? then Some(Received(Before(max, es, i), es[i].data).1) else None
  }

  lemma {:induction false} MaxIsFixed(max: nat, es: seq<Event>)
    ensures Run(max, es).maxPacketSize == max
  {
    hide Decode;
    if es != [] {
      MaxIsFixed(max, es[..|es| - 1]);
    }
  }

  lemma StepAt(max: nat, es: seq<Event>, i: nat)
    requires i < |es|
    ensures Before(max, es, i + 1) == Step(Before(max, es, i), es[i])
  {
    assert es[..i + 1][..i] == es[..i];
  }

  /** Event `i` parses a CONNACK with the success code, on a transport that waits for one. */
  ghost predicate Accepts(max: nat, es: seq<Event>, i: nat)
    requires i < |es|
  {
    && Before(max, es, i).state == TransportConnected
    && es[i].BytesReceived?
    && var r := Decode(es[i].data, max);
       r.Ok? && r.value.0.ConnAckPacket? && r.value.0.connAck.code == Accepted
  }

  /** Event `i` neither opens nor closes the transport and reports no error. */
  ghost predicate Harmless(max: nat, es: seq<Event>, i: nat)
    requires i < |es|
  {
    !es[i].TransportOpened? && !es[i].TransportClosed? && !(Output(max, es, i).Some? && Output(max, es, i).value.Err?)
  }

  /** Event `i` is harmless and reports no packet either. */
  ghost predicate Silent(max: nat, es: seq<Event>, i: nat)
    requires i < |es|
  {
    es[i].PacketSent? || Output(max, es, i) == Some(Ok(None))
  }

  ghost predicate AcceptedAt(max: nat, es: seq<Event>, n: nat, i: nat)
    requires n <= |es|
  {
    i < n && Accepts(max, es, i) && forall k :: i < k < n ==> Harmless(max, es, k)
  }

  ghost predicate OpenedAt(max: nat, es: seq<Event>, n: nat, j: nat)
    requires n <= |es|
  {
    j < n && es[j].TransportOpened? && forall k :: j < k < n ==> Silent(max, es, k)
  }

  /** What one event does to the state, in terms of the predicates above. */
  lemma StateStep(max: nat, es: seq<Event>, i: nat)
    requires i < |es|
    ensures var before := Before(max, es, i).state;
            var after := Before(max, es, i + 1).state;
            && (after == Connected <==> Accepts(max, es, i) || (before == Connected && Harmless(max, es, i)))
            && (after == TransportConnected <==>
               es[i].TransportOpened? || (before == TransportConnected && Silent(max, es, i)))
  {
    hide Decode;
    StepAt(max, es, i);
    MaxIsFixed(max, es[..i]);
  }

  /**
   The client is connected exactly when a successful CONNACK was parsed and since then the transport was neither
   reopened nor closed and no error was reported.
   */
  lemma {:induction false} ConnectedIff(max: nat, es: seq<Event>, n: nat)
    requires n <= |es|
    ensures Before(max, es, n).state == Connected <==> exists i: nat :: AcceptedAt(max, es, n, i)
  {
    hide Accepts, Harmless, Run;
    if n == 0 {
      assert Before(max, es, 0) == Fresh(max) by {
        Initially(max, es);
      }
    } else {
      ConnectedIff(max, es, n - 1);
      StateStep(max, es, n - 1);
      if Before(max, es, n).state == Connected {
        if Accepts(max, es, n - 1) {
          assert AcceptedAt(max, es, n, n - 1);
        } else {
          var i: nat :| AcceptedAt(max, es, n - 1, i);
          assert AcceptedAt(max, es, n, i);
        }
      }
      if i: nat :| AcceptedAt(max, es, n, i) {
        if i < n - 1 {
          assert AcceptedAt(max, es, n - 1, i);
        }
      }
    }
  }

  lemma Initially(max: nat, es: seq<Event>)
    ensures Before(max, es, 0) == Fresh(max)
  {
  }

  /** The client waits for a CONNACK exactly when the transport was opened and nothing but silence followed. */
  lemma {:induction false} WaitingIff(max: nat, es: seq<Event>, n: nat)
    requires n <= |es|
    ensures Before(max, es, n).state == TransportConnected <==> exists j: nat :: OpenedAt(max, es, n, j)
  {
    hide Silent, Run;
    if n == 0 {
      Initially(max, es);
    } else {
      WaitingIff(max, es, n - 1);
      StateStep(max, es, n - 1);
      if Before(max, es, n).state == TransportConnected {
        if es[n - 1].TransportOpened? {
          assert OpenedAt(max, es, n, n - 1);
        } else {
          var j: nat :| OpenedAt(max, es, n - 1, j);
          assert OpenedAt(max, es, n, j);
        }
      }
      if j: nat :| OpenedAt(max, es, n, j) {
        if j < n - 1 {
          assert OpenedAt(max, es, n - 1, j);
        }
      }
    }
  }

  /** Every successful CONNACK belongs to an opening, with nothing but silence in between. */
  lemma AcceptNeedsOpen(max: nat, es: seq<Event>, i: nat)
    requires i < |es| && Accepts(max, es, i)
    ensures exists j: nat :: OpenedAt(max, es, i, j)
  {
    hide Decode, Run;
    WaitingIff(max, es, i);
  }

  /** A connection accepts at most once per opening. */
  lemma OneConnAckPerOpening(max: nat, es: seq<Event>, first: nat, second: nat)
    requires first < second < |es| && Accepts(max, es, first) && Accepts(max, es, second)
    ensures exists j :: first < j < second && es[j].TransportOpened?
  {
    hide Decode, Run;
    AcceptNeedsOpen(max, es, second);
    AcceptIsLoud(max, es, first);
    var j: nat :| OpenedAt(max, es, second, j);
  }

  lemma AcceptIsLoud(max: nat, es: seq<Event>, i: nat)
    requires i < |es| && Accepts(max, es, i)
    ensures !Silent(max, es, i) && !es[i].TransportOpened?
  {
    hide Decode;
    MaxIsFixed(max, es[..i]);
  }

  /** The only notification that can come before the connection is accepted, or with it, is the CONNACK itself. */
  lemma PacketsNeedAcceptance(max: nat, es: seq<Event>, k: nat)
    requires k < |es| && Output(max, es, k).Some?
    requires var r := Output(max, es, k).value;
             r.Ok? && r.value.Some? && !r.value.value.0.DisconnectedNote?
    ensures if Output(max, es, k).value.value.value.0.ConnAckNote? then Accepts(max, es, k)
            else exists i: nat :: AcceptedAt(max, es, k, i)
  {
    hide Decode, Run;
    MaxIsFixed(max, es[..k]);
    ConnectedIff(max, es, k);
  }

  /** After an error nothing but a new opening brings the client out of the disconnected state. */
  lemma {:induction false} ErrorsAreFinal(max: nat, es: seq<Event>, k: nat, n: nat)
    requires k < n <= |es|
    requires Output(max, es, k).Some? && Output(max, es, k).value.Err?
    requires forall i :: k < i < n ==> !es[i].TransportOpened?
    ensures Before(max, es, n).state == Disconnected
  {
    hide Decode, Run;
    if n == k + 1 {
      StepAt(max, es, k);
    } else {
      ErrorsAreFinal(max, es, k, n - 1);
      StepAt(max, es, n - 1);
    }
  }

  // ---- Keep-alive ----

  /** The keep-alive interval of the last opening, in milliseconds. */
  function Interval(es: seq<Event>): nat {
    if es == [] then 0
    else match es[|es| - 1]
      case TransportOpened(options) => 1000 * options.keepAlive as nat
      case _ => Interval(es[..|es| - 1])
  }

  /** The time of the last packet sent since the last opening. */
  function LastSend(es: seq<Event>): Option<Instant> {
    if es == [] then None
    else match es[|es| - 1]
      case TransportOpened(_) => None
      case PacketSent(now) => Some(now)
      case _ => LastSend(es[..|es| - 1])
  }

  /**
   When the next ping is due: never without keep-alive, at once before anything was sent, one interval after the last
   send otherwise.
   */
  function PingDue(es: seq<Event>, now: Instant): Option<nat> {
    var interval := Interval(es);
    if interval == 0 then None
    else match LastSend(es)
      case None => Some(0)
      case Some(last) =>
        var due := if last.milliseconds + interval > U64_MAX then U64_MAX else last.milliseconds + interval;
        Some(if due <= now.milliseconds then 0 else due - now.milliseconds)
  }

  lemma {:induction false} KeepAliveHistory(max: nat, es: seq<Event>)
    ensures var t := Run(max, es);
            && t.keepAlive == Interval(es) <= 65_535_000
            && t.packetSendAt
               == (if Interval(es) == 0 || LastSend(es).None? then EPOCH else LastSend(es).value.Plus(Interval(es)))
  {
    hide Decode;
    if es != [] {
      KeepAliveHistory(max, es[..|es| - 1]);
    }
  }

  lemma PlusSmall(t: Instant, duration: nat)
    requires duration <= U64_MAX
    ensures var sum := t.milliseconds + duration;
            t.Plus(duration).milliseconds == if sum > U64_MAX then U64_MAX else sum
  {
  }

  /** The timer the client keeps is exactly the one its history calls for. */
  lemma PingIsDue(max: nat, es: seq<Event>, now: Instant)
    ensures NextPingIn(Run(max, es), now) == PingDue(es, now)
  {
    hide Run, Interval, LastSend;
    KeepAliveHistory(max, es);
    if LastSend(es).Some? {
      PlusSmall(LastSend(es).value, Interval(es));
    }
    hide Instant.Plus;
  }

  /** Event `j` is the last opening. */
  predicate LastOpening(es: seq<Event>, j: nat) {
    j < |es| && es[j].TransportOpened? && forall i :: j < i < |es| ==> !es[i].TransportOpened?
  }

  /** Event `i` is the last packet sent. */
  predicate LastSent(es: seq<Event>, i: nat) {
    i < |es| && es[i].PacketSent? && forall k :: i < k < |es| ==> !es[k].PacketSent?
  }

  lemma {:induction false} SinceOpening(es: seq<Event>, j: nat)
    requires LastOpening(es, j)
    ensures Interval(es) == 1000 * es[j].options.keepAlive as nat
    ensures (forall i :: j < i < |es| ==> !es[i].PacketSent?) ==> LastSend(es) == None
  {
    if j < |es| - 1 {
      SinceOpening(es[..|es| - 1], j);
    }
  }

  lemma {:induction false} SinceSend(es: seq<Event>, j: nat, i: nat)
    requires LastOpening(es, j) && j < i && LastSent(es, i)
    ensures LastSend(es) == Some(es[i].now)
  {
    if i < |es| - 1 {
      SinceSend(es[..|es| - 1], j, i);
    }
  }

  /**
   The keep-alive of the last opening is a number of seconds. A ping is asked for at once before anything was sent, and
   else when that many seconds have passed since the last send, on a clock that ends at 2^64 - 1 milliseconds; never if
   the number is zero.
   */
  lemma PingInSeconds(max: nat, es: seq<Event>, j: nat, asked: Instant)
    requires LastOpening(es, j)
    ensures var seconds, r := es[j].options.keepAlive as nat, NextPingIn(Run(max, es), asked);
            && (seconds == 0 <==> r == None)
            && (seconds > 0 && (forall i :: j < i < |es| ==> !es[i].PacketSent?) ==> r == Some(0))
            && forall i: nat :: seconds > 0 && j < i && LastSent(es, i) ==>
                 var sum := es[i].now.milliseconds + 1000 * seconds;
                 var due := if sum > 18_446_744_073_709_551_615 then 18_446_744_073_709_551_615 else sum;
                 r == Some(if asked.milliseconds >= due then 0 else due - asked.milliseconds)
  {
    hide Run;
    SinceOpening(es, j);
    PingIsDue(max, es, asked);
    forall i: nat | j < i && LastSent(es, i)
      ensures LastSend(es) == Some(es[i].now)
    {
      SinceSend(es, j, i);
    }
    hide Interval, LastSend, LastOpening, LastSent;
  }

  /** Before the first opening no ping is asked for. */
  lemma NoPingBeforeOpening(max: nat, es: seq<Event>, asked: Instant)
    requires forall i :: 0 <= i < |es| ==> !es[i].TransportOpened?
    ensures NextPingIn(Run(max, es), asked) == None
  {
    hide Run;
    NoInterval(es);
    PingIsDue(max, es, asked);
  }

  lemma {:induction false} NoInterval(es: seq<Event>)
    requires forall i :: 0 <= i < |es| ==> !es[i].TransportOpened?
    ensures Interval(es) == 0
  {
    if es != [] {
      NoInterval(es[..|es| - 1]);
    }
  }

  /** On a clock that never runs backwards, a ping is never further away than the keep-alive of the last opening. */
  lemma PingWithinInterval(max: nat, es: seq<Event>, j: nat, asked: Instant)
    requires LastOpening(es, j)
    requires forall i :: j < i < |es| && es[i].PacketSent? ==> es[i].now.milliseconds <= asked.milliseconds
    ensures var r := NextPingIn(Run(max, es), asked);
            r.Some? ==> r.value <= 1000 * es[j].options.keepAlive as nat
  {
    hide Run;
    SinceOpening(es, j);
    PingIsDue(max, es, asked);
    if LastSend(es).Some? {
      LastIsSent(es, j);
    }
  }

  lemma {:induction false} LastIsSent(es: seq<Event>, j: nat)
    requires LastOpening(es, j) && LastSend(es).Some?
    ensures exists i :: j < i < |es| && es[i].PacketSent? && LastSend(es) == Some(es[i].now)
  {
    if j < |es| - 1 && !es[|es| - 1].PacketSent? {
      var front := es[..|es| - 1];
      LastIsSent(front, j);
      var i :| j < i < |front| && front[i].PacketSent? && LastSend(front) == Some(front[i].now);
      assert es[i] == front[i];
    } else if j < |es| - 1 {
      assert es[|es| - 1].PacketSent?;
    }
  }
}
