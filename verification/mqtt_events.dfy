/**
  The MQTT client's event callback and the two pieces of state it drives: the
  `connected` flag and the descriptor the main loop polls.

  The callback runs synchronously inside `mqtt_input`, so a plain value stands
  for the atomic flag.
 */
module MqttEvents {

  /** Return code of a CONNACK that accepts the connection (section 3.2.2.3 of MQTT 3.1.1). */
  const Accepted := 0

  /** Descriptor value the callback stores when the broker link goes away. */
  const NoFd := -1

  datatype Event =
    | ConnAck(result: int)
    | Disconnect(result: int)
    | PubAck(messageId: int)
    | Other(kind: int)

  datatype ClientState = ClientState(connected: bool, pollFd: int)

  /** The effect an event has on the `connected` flag, when it has one. */
  datatype Verdict = NoVerdict | Decides(connected: bool)

  function VerdictOf(e: Event): Verdict {
    if e == ConnAck(Accepted) then Decides(true)
    else if e.Disconnect? then Decides(false)
    else NoVerdict
  }

  /**
    `mqtt_evt_handler`: an accepting CONNACK raises the flag, a refused one
    changes nothing, DISCONNECT lowers the flag and forgets the descriptor, and
    PUBACK and every other event change nothing.
   */
  function OnEvent(s: ClientState, e: Event): (s': ClientState)
    ensures s'.connected <==> e == ConnAck(Accepted) || (s.connected && !e.Disconnect?)
    ensures s'.pollFd == if e.Disconnect? then NoFd else s.pollFd
    ensures VerdictOf(e) == NoVerdict ==> s' == s
  {
    match e
    case ConnAck(result) =>
      if result != Accepted then s else s.(connected := true)
    case Disconnect(_) => s.(connected := false, pollFd := NoFd)
    case PubAck(_) => s
    case Other(_) => s
  }

  /** The callback applied to the events one `mqtt_input` call delivers, in delivery order. */
  function OnEvents(s: ClientState, es: seq<Event>): ClientState
    decreases |es|
  {
    if es == [] then s else OnEvents(OnEvent(s, es[0]), es[1..])
  }

  /** The verdict of the last event in `es` that has one. */
  function LastVerdict(es: seq<Event>): Verdict
    decreases |es|
  {
    if es == [] then NoVerdict
    else if VerdictOf(es[|es| - 1]) != NoVerdict then VerdictOf(es[|es| - 1])
    else LastVerdict(es[..|es| - 1])
  }

  /** Delivering `es` then `e` is delivering `es + [e]`. */
  lemma {:induction false} OnEventsSnoc(s: ClientState, es: seq<Event>, e: Event)
    ensures OnEvents(s, es + [e]) == OnEvent(OnEvents(s, es), e)
    decreases |es|
  {
    if es == [] {
      assert es + [e] == [e];
    } else {
      assert (es + [e])[1..] == es[1..] + [e];
      OnEventsSnoc(OnEvent(s, es[0]), es[1..], e);
    }
  }

  /**
    After a batch of events the flag is whatever the last deciding event says
    (an accepting CONNACK or a DISCONNECT), and unchanged when no event in the
    batch decides it.
   */
  lemma {:induction false} ConnectedAfterEvents(s: ClientState, es: seq<Event>)
    ensures OnEvents(s, es).connected ==
            match LastVerdict(es)
            case NoVerdict => s.connected
            case Decides(c) => c
    decreases |es|
  {
    if es != [] {
      var init, last := es[..|es| - 1], es[|es| - 1];
      assert es == init + [last];
      OnEventsSnoc(s, init, last);
      ConnectedAfterEvents(s, init);
    }
  }

  /** After a batch of events the descriptor is forgotten exactly when some event was a DISCONNECT. */
  lemma {:induction false} PollFdAfterEvents(s: ClientState, es: seq<Event>)
    ensures OnEvents(s, es).pollFd ==
            if exists k :: 0 <= k < |es| && es[k].Disconnect? then NoFd else s.pollFd
    decreases |es|
  {
    if es != [] {
      var init, last := es[..|es| - 1], es[|es| - 1];
      assert es == init + [last];
      OnEventsSnoc(s, init, last);
      PollFdAfterEvents(s, init);
      if exists k :: 0 <= k < |init| && init[k].Disconnect? {
        var k :| 0 <= k < |init| && init[k].Disconnect?;
        assert es[k] == init[k];
      }
    }
  }

  /** A connected client stays connected through a batch that holds no DISCONNECT. */
  lemma {:induction false} StaysConnected(s: ClientState, es: seq<Event>)
    requires s.connected
    requires forall k :: 0 <= k < |es| ==> !es[k].Disconnect?
    ensures OnEvents(s, es).connected
    decreases |es|
  {
    if es != [] {
      StaysConnected(OnEvent(s, es[0]), es[1..]);
    }
  }
}
