/** The per-connection handler of the current server generation
    (`server/src/client_handler.rs`). Its state is the client's identity
    once registered, whether a heartbeat is outstanding, and the wire
    format (JSON text or postcard binary) the client spoke first. Each
    WebSocket frame, watchdog timeout and relayed message is one input; an
    input yields the new state, the messages put on channels or on the
    socket, and a result. An error ends the connection. */
module ClientHandler {
  import opened Wrappers
  import opened Channels
  import opened LamarrsUtils
  import opened ActionMessages
  import opened ExchangeMessages
  import opened Services
  import opened Strings

  /** The encoding the client speaks. */
  datatype ClientWire = Binary | Text

  /** The state of one connection. `sender` is the channel into the
      handler's own inbox, which services use to reach the client. */
  datatype Client = Client(
    id: Option<ClientIdAndLocation>,
    watchdogSent: bool,
    wire: ClientWire,
    sender: Sender)

  /** `Client::new`: unregistered, no heartbeat outstanding, binary wire. */
  function NewClient(sender: Sender): (c: Client)
    ensures c.id.None? && !c.watchdogSent && c.wire == Binary && c.sender == sender
  {
    Client(None, false, Binary, sender)
  }

  /** A frame read from the WebSocket. Decoding (serde_json for text,
      postcard for binary) is abstract: a decoded frame carries the message,
      or `None` when decoding failed. */
  datatype WsFrame =
    | TextFrame(payload: string, decodedText: Option<ExchangeMessage>)
    | BinaryFrame(decodedBinary: Option<ExchangeMessage>)
    | CloseFrame
    | StreamEnded
    | OtherFrame
    | TransportError

  /** What the run loop reacts to: a frame, the watchdog period elapsing
      without a frame, or a message from another actor for the client. */
  datatype Input =
    | Ws(frame: WsFrame)
    | WatchdogTimeout
    | Inbox(message: ExchangeMessage)

  /** What the handler emits: a message to a service, to its own inbox
      (relayed to the client later), to the sequencer, or straight onto the
      socket in the given wire format. */
  datatype Output =
    | ToService(service: ServiceKind, event: InternalEventMessageServer)
    | ToInbox(message: ExchangeMessage)
    | ToSequencer(request: ExchangeMessage)
    | ToRemote(wire: ClientWire, remote: ExchangeMessage)

  datatype ClientHandlerError =
    | WsError
    | ConnectionLost(clientId: Option<ClientIdAndLocation>)
    | UnregisteredSubscriber(messageName: string)
    | UnrecognizableMessage(payload: string)
    | InvalidExchangeMessage(messageName: string)
    | FailureDecodingBinaryExchangeMessage

  /** The outcome of one input. */
  datatype Stepped = Stepped(client: Client, out: seq<Output>, result: Outcome<ClientHandlerError>)

  /** The service each client-facing service name is handled by. */
  function ServiceFor(s: Service): (k: ServiceKind)
  {
    match s
    case Subtitle => SubtitleService
    case Colour => ColourService
    case AudioPlayer => PlaybackService
    case Midi => MidiService
  }

  /** Each service a client can name reaches a different service, and every
      service can be named. */
  lemma ServiceForIsBijective()
    ensures forall a: Service, b: Service :: ServiceFor(a) == ServiceFor(b) ==> a == b
    ensures forall k: ServiceKind :: ServiceFor(NamedBy(k)) == k
  {
  }

  /** The name a client uses for a service. */
  function NamedBy(k: ServiceKind): Service
  {
    match k
    case SubtitleService => Service.Subtitle
    case ColourService => Colour
    case PlaybackService => AudioPlayer
    case MidiService => Service.Midi
  }

  /** The position of each service in the fan-out order. */
  function FanOutIndex(k: ServiceKind): (i: nat)
    ensures i < 4
  {
    match k
    case SubtitleService => 0
    case ColourService => 1
    case PlaybackService => 2
    case MidiService => 3
  }

  /** The same service message to all four services, in the order the
      handler sends them. */
  function ToAllServices(event: InternalEventMessageServer): (out: seq<Output>)
    ensures |out| == 4
    ensures forall k: ServiceKind :: out[FanOutIndex(k)] == ToService(k, event)
    ensures forall o :: o in out ==> o.ToService? && o.event == event
  {
    [ToService(SubtitleService, event), ToService(ColourService, event),
     ToService(PlaybackService, event), ToService(MidiService, event)]
  }

  /** `on_unregistered_subscriber_message`. A registration records the
      client, refreshes its channel in all four services and acknowledges;
      a heartbeat reply clears the watchdog; anything else is refused. */
  function OnUnregistered(c: Client, m: ExchangeMessage): (r: Stepped)
    requires c.id.None?
    ensures r.client.wire == c.wire && r.client.sender == c.sender
    ensures m.Request? && m.request.Register? ==>
      && r.client.id == Some(m.request.client)
      && r.client.watchdogSent == c.watchdogSent
      && r.out == ToAllServices(UpdateClientData(m.request.client, c.sender)) + [ToInbox(Ack(Success))]
      && r.result == Pass
    ensures m.HeartbeatAck? ==> r == Stepped(c.(watchdogSent := false), [], Pass)
    ensures !(m.Request? && m.request.Register?) && !m.HeartbeatAck? ==>
      && r.client == c
      && r.out == [ToInbox(Nack(NotSubscribed))]
      && r.result == Fail(UnregisteredSubscriber(ExchangeMessageName(m)))
  {
    match m
    case Request(Register(client)) =>
      Stepped(c.(id := Some(client)),
              ToAllServices(UpdateClientData(client, c.sender)) + [ToInbox(Ack(Success))],
              Pass)
    case HeartbeatAck => Stepped(c.(watchdogSent := false), [], Pass)
    case _ => Stepped(c, [ToInbox(Nack(NotSubscribed))], Fail(UnregisteredSubscriber(ExchangeMessageName(m))))
  }

  /** `subscribe_to_service`: the subscription goes to the named service. */
  function SubscribeToService(c: Client, service: Service, client: ClientIdAndLocation): (out: seq<Output>)
    ensures |out| == 1
    ensures forall k :: ToService(k, AddTargetClient(client, c.sender)) in out <==> k == ServiceFor(service)
  {
    [ToService(ServiceFor(service), AddTargetClient(client, c.sender))]
  }

  /** `unsubscribe_from_service`: the removal goes to the named service. */
  function UnsubscribeFromService(service: Service, client: ClientIdAndLocation): (out: seq<Output>)
    ensures |out| == 1
    ensures forall k :: ToService(k, RemoveTargetClient(client)) in out <==> k == ServiceFor(service)
  {
    [ToService(ServiceFor(service), RemoveTargetClient(client))]
  }

  /** `update_location`: only the subtitle and colour services are told. */
  function UpdateLocation(c: Client, client: ClientIdAndLocation): (out: seq<Output>)
    ensures forall k :: ToService(k, UpdateClientData(client, c.sender)) in out <==> k in {SubtitleService, ColourService}
    ensures forall o :: o in out ==> o.ToService? && o.event == UpdateClientData(client, c.sender)
    ensures |out| == 2
  {
    [ToService(SubtitleService, UpdateClientData(client, c.sender)),
     ToService(ColourService, UpdateClientData(client, c.sender))]
  }

  /** `on_subscriber_message`: requests of a registered client. Subscription
      requests go to services, scene requests to the sequencer, a heartbeat
      reply clears the watchdog; anything else is refused with `Failed`. */
  function OnSubscriber(c: Client, m: ExchangeMessage): (r: Stepped)
    ensures r.client.id == c.id && r.client.wire == c.wire && r.client.sender == c.sender
    ensures r.client.watchdogSent == (c.watchdogSent && !m.HeartbeatAck?)
    ensures r.result.Fail? <==> r.out == [ToInbox(Nack(Failed))]
    ensures r.result.Fail? <==>
      !(m.Request? && (m.request.SuscribeToService? || m.request.UnsubscribeFromService? || m.request.UpdateLocation?))
      && !m.HeartbeatAck? && !m.NextScene? && !m.RetriggerScene?
    ensures m.Request? && m.request.SuscribeToService? ==>
      r == Stepped(c, SubscribeToService(c, m.request.service, m.request.client), Pass)
    ensures m.Request? && m.request.UnsubscribeFromService? ==>
      r == Stepped(c, UnsubscribeFromService(m.request.service, m.request.client), Pass)
    ensures m.Request? && m.request.UpdateLocation? ==>
      r == Stepped(c, UpdateLocation(c, m.request.client), Pass)
    ensures m.HeartbeatAck? ==> r.out == [] && r.result == Pass
    ensures (m.NextScene? || m.RetriggerScene?) ==> r.out == [ToSequencer(m)] && r.result == Pass
    ensures m.Request? && m.request.Register? ==>
      r.result == Fail(InvalidExchangeMessage(EventName(m.request)))
  {
    match m
    case Request(e) =>
      (match e
       case SuscribeToService(service, client) => Stepped(c, SubscribeToService(c, service, client), Pass)
       case UnsubscribeFromService(service, client) => Stepped(c, UnsubscribeFromService(service, client), Pass)
       case UpdateLocation(client) => Stepped(c, UpdateLocation(c, client), Pass)
       case _ => Stepped(c, [ToInbox(Nack(Failed))], Fail(InvalidExchangeMessage(EventName(e)))))
    case HeartbeatAck => Stepped(c.(watchdogSent := false), [], Pass)
    case NextScene => Stepped(c, [ToSequencer(m)], Pass)
    case RetriggerScene => Stepped(c, [ToSequencer(m)], Pass)
    case _ => Stepped(c, [ToInbox(Nack(Failed))], Fail(InvalidExchangeMessage(ExchangeMessageName(m))))
  }

  /** The error text sent back for a text frame that does not decode. */
  const MALFORMED_PAYLOAD: string := "Unrecognized message: Malformed payload."

  /** `heapless::String::try_from` into the buffer of an `ErrorDescription`:
      refused when the text does not fit. */
  function TryErrorDescription(s: string): (r: Option<ErrorDescription>)
    ensures r.Some? <==> FitsIn(s, ERROR_DESCRIPTION_CAPACITY)
    ensures r.Some? ==> r.value.errorDescr == s
  {
    if FitsIn(s, ERROR_DESCRIPTION_CAPACITY) then Some(ErrorDescription(s)) else None
  }

  /** The error text always fits an `ErrorDescription`, so the notice is
      always queued. */
  lemma MalformedPayloadFits()
    ensures FitsIn(MALFORMED_PAYLOAD, ERROR_DESCRIPTION_CAPACITY)
  {
    var s := MALFORMED_PAYLOAD;
    assert forall i :: 0 <= i < |s| ==> s[i] as int < 0x80;
    Utf8LenBounds(s);
  }

  /** What the handler queues on its own inbox for a text frame that does
      not decode: an error with the notice text, if the text fits an
      `ErrorDescription`, which it always does. The run ends with the error
      that follows, so the relay loop never takes it off the inbox. */
  function MalformedNotice(): (out: seq<Output>)
    ensures |out| == 1 && out[0].ToInbox? && out[0].message.Error?
    ensures out[0].message.description.errorDescr == MALFORMED_PAYLOAD
  {
    MalformedPayloadFits();
    match TryErrorDescription(MALFORMED_PAYLOAD)
    case Some(d) => [ToInbox(Error(d))]
    case None => []
  }

  /** A decoded message: an unregistered client's first decoded frame picks
      the wire format and goes through registration; a registered client's
      goes through routing. */
  function OnDecoded(c: Client, wire: ClientWire, m: ExchangeMessage): (r: Stepped)
    ensures c.id.None? ==> r == OnUnregistered(c.(wire := wire), m)
    ensures c.id.Some? ==> r == OnSubscriber(c, m)
    ensures r.client.wire == (if c.id.None? then wire else c.wire)
    ensures r.client.sender == c.sender
    ensures c.id.Some? ==> r.client.id == c.id
  {
    if c.id.None? then OnUnregistered(c.(wire := wire), m)
    else OnSubscriber(c, m)
  }

  /** `handle_ws_message`. */
  function HandleWsMessage(c: Client, f: WsFrame): (r: Stepped)
    ensures r.client.sender == c.sender
    ensures c.id.None? && f.TextFrame? && f.decodedText.Some? ==> r.client.wire == Text
    ensures c.id.None? && f.BinaryFrame? && f.decodedBinary.Some? ==> r.client.wire == Binary
    ensures c.id.Some? ==> r.client.wire == c.wire && r.client.id == c.id
    ensures f.TextFrame? && f.decodedText.Some? ==> r == OnDecoded(c, Text, f.decodedText.value)
    ensures f.BinaryFrame? && f.decodedBinary.Some? ==> r == OnDecoded(c, Binary, f.decodedBinary.value)
    ensures f.TextFrame? && f.decodedText.None? ==>
      && r.client == c && r.result == Fail(UnrecognizableMessage(f.payload))
      && |r.out| == 1 && r.out[0].ToInbox? && r.out[0].message.Error?
      && r.out[0].message.description.errorDescr == MALFORMED_PAYLOAD
    ensures f.BinaryFrame? && f.decodedBinary.None? ==>
      r == Stepped(c, [], Fail(FailureDecodingBinaryExchangeMessage))
    ensures (f.CloseFrame? || f.StreamEnded?) ==> r == Stepped(c, [], Fail(ConnectionLost(c.id)))
    ensures f.OtherFrame? ==> r == Stepped(c, [], Pass)
    ensures f.TransportError? ==> r == Stepped(c, [], Fail(WsError))
  {
    if f.TextFrame? then
      if f.decodedText.None? then Stepped(c, MalformedNotice(), Fail(UnrecognizableMessage(f.payload)))
      else OnDecoded(c, Text, f.decodedText.value)
    else if f.BinaryFrame? then
      if f.decodedBinary.None? then Stepped(c, [], Fail(FailureDecodingBinaryExchangeMessage))
      else OnDecoded(c, Binary, f.decodedBinary.value)
    else if f.CloseFrame? || f.StreamEnded? then Stepped(c, [], Fail(ConnectionLost(c.id)))
    else if f.OtherFrame? then Stepped(c, [], Pass)
    else Stepped(c, [], Fail(WsError))
  }

  /** The watchdog branch of `run`. With a heartbeat outstanding, a
      registered client is removed from all four services and the
      connection ends; otherwise a heartbeat goes out in the client's wire
      format and is marked outstanding. */
  function OnWatchdogTimeout(c: Client): (r: Stepped)
    ensures c.watchdogSent ==> r.client == c && r.result == Fail(ConnectionLost(c.id))
    ensures c.watchdogSent && c.id.Some? ==> r.out == ToAllServices(RemoveTargetClient(c.id.value))
    ensures c.watchdogSent && c.id.None? ==> r.out == []
    ensures !c.watchdogSent ==>
      r == Stepped(c.(watchdogSent := true), [ToRemote(c.wire, Heartbeat)], Pass)
  {
    if c.watchdogSent then
      var removals := if c.id.Some? then ToAllServices(RemoveTargetClient(c.id.value)) else [];
      Stepped(c, removals, Fail(ConnectionLost(c.id)))
    else
      Stepped(c.(watchdogSent := true), [ToRemote(c.wire, Heartbeat)], Pass)
  }

  /** One iteration of the run loop. A message from another actor is
      relayed to the client in its wire format. */
  function ClientStep(c: Client, i: Input): (r: Stepped)
    ensures r.client.sender == c.sender
    ensures c.id.Some? ==> r.client.id == c.id && r.client.wire == c.wire
    ensures i.Ws? ==> r == HandleWsMessage(c, i.frame)
    ensures i.WatchdogTimeout? ==> r == OnWatchdogTimeout(c)
    ensures i.Inbox? ==> r == Stepped(c, [ToRemote(c.wire, i.message)], Pass)
  {
    match i
    case Ws(f) => HandleWsMessage(c, f)
    case WatchdogTimeout => OnWatchdogTimeout(c)
    case Inbox(m) => Stepped(c, [ToRemote(c.wire, m)], Pass)
  }

  /** `run` after the handshake: inputs are handled in order until one
      fails, which ends the connection with that error. */
  function ClientRun(c: Client, inputs: seq<Input>): Stepped
  {
    ClientRunWith(ClientStep, c, inputs)
  }

  /** The run loop with the handling of one input as a parameter. */
  function ClientRunWith(step: (Client, Input) -> Stepped, c: Client, inputs: seq<Input>): (r: Stepped)
    ensures inputs == [] ==> r == Stepped(c, [], Pass)
    decreases |inputs|
  {
    if inputs == [] then Stepped(c, [], Pass)
    else
      var first := step(c, inputs[0]);
      if first.result.Fail? then first
      else
        var rest := ClientRunWith(step, first.client, inputs[1..]);
        Stepped(rest.client, first.out + rest.out, rest.result)
  }

  /** One input taken off the front of the run. */
  lemma ClientRunFirst(c: Client, inputs: seq<Input>)
    requires inputs != []
    ensures var first := ClientStep(c, inputs[0]);
            ClientRun(c, inputs) ==
              if first.result.Fail? then first
              else var rest := ClientRun(first.client, inputs[1..]);
                   Stepped(rest.client, first.out + rest.out, rest.result)
  {
  }

  /** Inputs after a failing one are never looked at. */
  lemma ClientRunStopsAtError(c: Client, i: Input, rest: seq<Input>)
    requires ClientStep(c, i).result.Fail?
    ensures ClientRun(c, [i] + rest) == ClientStep(c, i)
  {
    assert ([i] + rest)[0] == i;
  }

  /** An input that fails sends nothing to the client: whatever it queues
      on the handler's own inbox (an `Error` or a `Nack`) is left there, as
      the run ends before the relay loop could pass it on. */
  lemma FailingInputTellsClientNothing(c: Client, i: Input, rest: seq<Input>)
    requires ClientStep(c, i).result.Fail?
    ensures ClientRun(c, [i] + rest).result == ClientStep(c, i).result
    ensures forall o :: o in ClientRun(c, [i] + rest).out ==> !o.ToRemote?
  {
    ClientRunStopsAtError(c, i, rest);
    if i.Ws? && i.frame.TextFrame? && i.frame.decodedText.Some? {
      OnDecodedFailureIsLocal(c, Text, i.frame.decodedText.value);
    } else if i.Ws? && i.frame.BinaryFrame? && i.frame.decodedBinary.Some? {
      OnDecodedFailureIsLocal(c, Binary, i.frame.decodedBinary.value);
    }
  }

  lemma OnDecodedFailureIsLocal(c: Client, wire: ClientWire, m: ExchangeMessage)
    requires OnDecoded(c, wire, m).result.Fail?
    ensures forall o :: o in OnDecoded(c, wire, m).out ==> !o.ToRemote?
  {
  }

  /** A text frame that does not decode ends the run with
      `UnrecognizableMessage`, and the malformed-payload notice never reaches
      the client. */
  lemma MalformedTextNeverReachesClient(c: Client, payload: string, rest: seq<Input>)
    ensures ClientRun(c, [Ws(TextFrame(payload, None))] + rest).result == Fail(UnrecognizableMessage(payload))
    ensures forall o :: o in ClientRun(c, [Ws(TextFrame(payload, None))] + rest).out ==> !o.ToRemote?
  {
    FailingInputTellsClientNothing(c, Ws(TextFrame(payload, None)), rest);
  }

  /** Running two batches of inputs one after the other is running their
      concatenation, as long as the first batch ends without error. */
  lemma ClientRunConcat(c: Client, first: seq<Input>, second: seq<Input>)
    requires ClientRun(c, first).result.Pass?
    ensures var a := ClientRun(c, first);
            var b := ClientRun(a.client, second);
            ClientRun(c, first + second) == Stepped(b.client, a.out + b.out, b.result)
  {
    ClientRunWithConcat(ClientStep, c, first, second);
  }

  lemma {:induction false} ClientRunWithConcat(step: (Client, Input) -> Stepped, c: Client,
                                               first: seq<Input>, second: seq<Input>)
    requires ClientRunWith(step, c, first).result.Pass?
    ensures var a := ClientRunWith(step, c, first);
            var b := ClientRunWith(step, a.client, second);
            ClientRunWith(step, c, first + second) == Stepped(b.client, a.out + b.out, b.result)
    decreases |first|
  {
    if first == [] {
      assert first + second == second;
    } else {
      var whole := first + second;
      assert whole[0] == first[0];
      assert whole[1..] == first[1..] + second;
      var s := step(c, first[0]);
      ClientRunWithConcat(step, s.client, first[1..], second);
    }
  }

  /** Once registered, a client keeps its identity and wire format for the
      rest of the connection. */
  lemma {:induction false} RegisteredStaysRegistered(c: Client, inputs: seq<Input>)
    requires c.id.Some?
    ensures ClientRun(c, inputs).client.id == c.id
    ensures ClientRun(c, inputs).client.wire == c.wire
    ensures ClientRun(c, inputs).client.sender == c.sender
    decreases |inputs|
  {
    if inputs != [] {
      var first := ClientStep(c, inputs[0]);
      if first.result.Pass? {
        RegisteredStaysRegistered(first.client, inputs[1..]);
      }
    }
  }

  /** Two watchdog periods without a heartbeat reply: the first sends a
      heartbeat, the second removes a registered client from every service
      and ends the connection. */
  lemma TwoSilentPeriodsEndTheConnection(c: Client)
    requires !c.watchdogSent
    ensures var r := ClientRun(c, [WatchdogTimeout, WatchdogTimeout]);
            && r.result == Fail(ConnectionLost(c.id))
            && r.out == [ToRemote(c.wire, Heartbeat)] +
                 (if c.id.Some? then ToAllServices(RemoveTargetClient(c.id.value)) else [])
  {
    var first := ClientStep(c, WatchdogTimeout);
    assert [WatchdogTimeout, WatchdogTimeout][1..] == [WatchdogTimeout];
    assert ClientRun(first.client, [WatchdogTimeout]) == ClientStep(first.client, WatchdogTimeout);
  }

  /** A heartbeat reply between two silent periods keeps the connection
      alive, in whichever wire format it arrives. */
  lemma HeartbeatReplyKeepsConnection(c: Client, reply: WsFrame)
    requires !c.watchdogSent
    requires reply == TextFrame("", Some(HeartbeatAck)) || reply == BinaryFrame(Some(HeartbeatAck))
    ensures ClientRun(c, [WatchdogTimeout, Ws(reply), WatchdogTimeout]).result == Pass
    ensures ClientRun(c, [WatchdogTimeout, Ws(reply), WatchdogTimeout]).client.watchdogSent
  {
    var inputs := [WatchdogTimeout, Ws(reply), WatchdogTimeout];
    var s1 := ClientStep(c, WatchdogTimeout);
    var s2 := ClientStep(s1.client, Ws(reply));
    assert !s2.client.watchdogSent && s2.result == Pass;
    assert inputs[1..] == [Ws(reply), WatchdogTimeout];
    assert inputs[1..][1..] == [WatchdogTimeout];
    ClientRunFirst(c, inputs);
    ClientRunFirst(s1.client, inputs[1..]);
    ClientRunFirst(s2.client, inputs[1..][1..]);
  }

  /** A fresh connection that registers and then subscribes: the
      registration is fanned out to the four services and acknowledged,
      and the subscription reaches exactly the named service. */
  lemma RegisterThenSubscribe(sender: Sender, client: ClientIdAndLocation, service: Service, other: ClientIdAndLocation)
    ensures var inputs := [Ws(BinaryFrame(Some(Request(Register(client))))),
                           Ws(BinaryFrame(Some(Request(SuscribeToService(service, other)))))];
            var r := ClientRun(NewClient(sender), inputs);
            && r.result == Pass
            && r.client.id == Some(client)
            && r.out == ToAllServices(UpdateClientData(client, sender)) + [ToInbox(Ack(Success))] +
                 [ToService(ServiceFor(service), AddTargetClient(other, sender))]
  {
    var inputs := [Ws(BinaryFrame(Some(Request(Register(client))))),
                   Ws(BinaryFrame(Some(Request(SuscribeToService(service, other)))))];
    var c := NewClient(sender);
    var s1 := ClientStep(c, inputs[0]);
    assert inputs[1..] == [inputs[1]];
    assert ClientRun(s1.client, inputs[1..]) == Stepped(s1.client, ClientStep(s1.client, inputs[1]).out, Pass);
  }

  /** A registered client's scene request, in either wire format, reaches
      the sequencer and nothing else, and the connection goes on. */
  lemma SceneRequestReachesSequencer(c: Client, f: WsFrame, m: ExchangeMessage)
    requires c.id.Some?
    requires m == NextScene || m == RetriggerScene
    requires f == TextFrame("", Some(m)) || f == BinaryFrame(Some(m))
    ensures ClientRun(c, [Ws(f)]) == Stepped(c, [ToSequencer(m)], Pass)
  {
    var s1 := ClientStep(c, Ws(f));
    assert s1 == Stepped(c, [ToSequencer(m)], Pass);
    assert [Ws(f)][1..] == [];
  }

  /** Before registering, any request other than `Register` is refused:
      `Nack(NotSubscribed)` is queued, the run ends with
      `UnregisteredSubscriber`, and the client stays unregistered. */
  lemma UnregisteredRequestIsRefused(sender: Sender, e: Event, rest: seq<Input>)
    requires !e.Register?
    ensures var r := ClientRun(NewClient(sender), [Ws(BinaryFrame(Some(Request(e))))] + rest);
            && r.result == Fail(UnregisteredSubscriber("Request"))
            && r.out == [ToInbox(Nack(NotSubscribed))]
            && r.client.id.None?
  {
    var i := Ws(BinaryFrame(Some(Request(e))));
    ClientRunStopsAtError(NewClient(sender), i, rest);
  }
}
