/** The per-connection actor of the first server generation
    (`server/src/subscriber.rs`). It identifies the peer, accepts one
    registration, and forwards subscription requests to the subtitle and
    colour streamers. Decoding the JSON text of a frame is abstract: the
    payload arrives decoded, or as `None` when it does not parse. */
module Subscribers {
  import opened Wrappers
  import opened Channels
  import opened LamarrsUtils
  import opened Enums
  import opened StreamerTable
  import opened TextStreamers

  /** Who is on the other end: the socket address (as `Display` writes it),
      and, once registered, the UUID and location the peer gave. */
  datatype SubscriberId = SubscriberId(addr: string, uuid: Option<Uuid>, location: Option<RelativeLocation>)

  /** `SubscriberId::new` stores its arguments as given. */
  function NewSubscriberId(addr: string, uuid: Option<Uuid>, location: Option<RelativeLocation>): (id: SubscriberId)
    ensures id.addr == addr && id.uuid == uuid && id.location == location
  {
    SubscriberId(addr, uuid, location)
  }

  /** `unregistered`: a peer counts as registered only once it has given
      both a UUID and a location. */
  function Unregistered(id: SubscriberId): (b: bool)
    ensures !b <==> id.uuid.Some? && id.location.Some?
  {
    match (id.uuid, id.location)
    case (Some(_), Some(_)) => false
    case (_, _) => true
  }

  /** `Display` of a `SubscriberId`, given how a UUID displays. */
  function SubscriberIdText(id: SubscriberId, uuidText: Uuid -> string): (s: string)
    ensures |s| > 4 && s[0] == '(' && s[|s| - 1] == ')'
    ensures s[..4] == "(id:" <==> id.uuid.Some?
    ensures EndsWith(s, id.addr + ")")
  {
    var head := IdTextHead(id, uuidText);
    var s := head + id.addr + ")";
    assert s == head + (id.addr + ")");
    assert s[..4] == head[..4];
    s
  }

  /** Everything of the display before the address. */
  function IdTextHead(id: SubscriberId, uuidText: Uuid -> string): (h: string)
    ensures |h| >= 4 && h[0] == '('
    ensures h[..4] == "(id:" <==> id.uuid.Some?
  {
    match (id.uuid, id.location)
    case (None, _) =>
      var h := "(Unregistered Subscriber, ";
      assert h[1] == 'U';
      h
    case (Some(u), None) =>
      var h := "(id:" + uuidText(u) + ", location: Unknown, address:";
      assert h[..4] == "(id:";
      h
    case (Some(u), Some(l)) =>
      var h := "(id:" + uuidText(u) + ", location:" + LocationName(l) + ", address:";
      assert h[..4] == "(id:";
      h
  }

  predicate EndsWith(s: string, suffix: string)
  {
    |suffix| <= |s| && s[|s| - |suffix|..] == suffix
  }

  /** The three forms of `Display`: each states what is known about the
      peer, with the address last. */
  lemma SubscriberIdTextForms(id: SubscriberId, uuidText: Uuid -> string)
    ensures id.uuid.None? ==> SubscriberIdText(id, uuidText) == "(Unregistered Subscriber, " + id.addr + ")"
    ensures id.uuid.Some? && id.location.None? ==>
      SubscriberIdText(id, uuidText) == "(id:" + uuidText(id.uuid.value) + ", location: Unknown, address:" + id.addr + ")"
    ensures id.uuid.Some? && id.location.Some? ==>
      SubscriberIdText(id, uuidText) ==
        "(id:" + uuidText(id.uuid.value) + ", location:" + LocationName(id.location.value) + ", address:" + id.addr + ")"
  {
  }

  /** The actor's state: its identity and the channel into its own inbox,
      whose messages are written to the socket. */
  datatype Subscriber = Subscriber(id: SubscriberId, sender: Sender)

  /** `Subscriber::new`: nothing is known yet beyond the address. */
  function NewSubscriber(addr: string, sender: Sender): (s: Subscriber)
    ensures s.id.addr == addr && s.id.uuid.None? && s.id.location.None?
    ensures Unregistered(s.id)
    ensures s.sender == sender
  {
    Subscriber(NewSubscriberId(addr, None, None), sender)
  }

  /** What the actor emits: a message for the peer (through its own
      inbox), or a request to one of the streamers. */
  datatype SubscriberOutput =
    | ToPeer(message: GatewayMessage)
    | ToSubtitles(subtitleRequest: SubtitleMessage)
    | ToColor(colorRequest: ColorMessage)

  /** `todo!()` and `unwrap()` on `None` end the actor's task. */
  datatype Panic = NotImplemented | UnwrapNone

  datatype Processed = Processed(subscriber: Subscriber, out: seq<SubscriberOutput>)

  /** The subscription details a registered subscriber hands to a
      streamer. */
  function Details(s: Subscriber): (d: SusbcriptionData)
    requires !Unregistered(s.id)
    ensures d.senderId == s.id.uuid.value && d.location == s.id.location.value && d.sender == s.sender
  {
    SusbcriptionData(s.id.uuid.value, s.sender, s.id.location.value)
  }

  /** `process_payload`. Unregistered, a registration is recorded and
      acknowledged and anything else is answered with an error; registered,
      a subscription goes to the streamer of the service. An undecodable
      payload, and any other message from a registered peer, hit `todo!()`. */
  function ProcessPayload(s: Subscriber, decoded: Option<SubscriberMessage>): (r: Result<Processed, Panic>)
    ensures r.Err? <==> decoded.None? || (!Unregistered(s.id) && !decoded.value.Subscribe?)
    ensures r.Ok? ==> r.value.subscriber.sender == s.sender && r.value.subscriber.id.addr == s.id.addr
    ensures r.Ok? && Unregistered(s.id) && decoded.value.Register? ==>
      && r.value.subscriber.id.uuid == Some(decoded.value.id)
      && r.value.subscriber.id.location == Some(decoded.value.location)
      && r.value.out == [ToPeer(RegisterResult(RegisterResult.Success))]
    ensures r.Ok? && Unregistered(s.id) && !decoded.value.Register? ==>
      r.value == Processed(s, [ToPeer(Error(UnregisteredSubscriber))])
    ensures r.Ok? && !Unregistered(s.id) ==>
      && r.value.subscriber == s
      && r.value.out == [if decoded.value.service == Enums.Service.Subtitle
                         then ToSubtitles(SubtitleMessage.Subscribe(Details(s)))
                         else ToColor(ColorMessage.Subscribe(Details(s)))]
  {
    if Unregistered(s.id) then
      match decoded
      case Some(Register(uuid, location)) =>
        var id := s.id.(uuid := Some(uuid), location := Some(location));
        Ok(Processed(s.(id := id), [ToPeer(RegisterResult(RegisterResult.Success))]))
      case Some(_) => Ok(Processed(s, [ToPeer(Error(UnregisteredSubscriber))]))
      case None => Err(NotImplemented)
    else
      match decoded
      case Some(Subscribe(service)) =>
        var request := match service
          case Subtitle => ToSubtitles(SubtitleMessage.Subscribe(Details(s)))
          case Color => ToColor(ColorMessage.Subscribe(Details(s)));
        Ok(Processed(s, [request]))
      case _ => Err(NotImplemented)
  }

  /** `reset_inbox`: the actor switches to a new inbox and tells both
      streamers to send to it from now on. Before registration there is no
      UUID to send, and the `unwrap` panics. */
  function ResetInbox(s: Subscriber, newSender: Sender): (r: Result<Processed, Panic>)
    ensures r.Err? <==> Unregistered(s.id)
    ensures r.Ok? ==> r.value.subscriber == s.(sender := newSender)
    ensures r.Ok? ==>
      var d := SusbcriptionData(s.id.uuid.value, newSender, s.id.location.value);
      r.value.out == [ToSubtitles(SubtitleMessage.UpdateSubscription(d)), ToColor(ColorMessage.UpdateSubscription(d))]
  {
    var after := s.(sender := newSender);
    if after.id.uuid.None? || after.id.location.None? then Err(UnwrapNone)
    else
      var d := Details(after);
      Ok(Processed(after, [ToSubtitles(SubtitleMessage.UpdateSubscription(d)), ToColor(ColorMessage.UpdateSubscription(d))]))
  }

  /** Once registered, a subscriber's identity is fixed: no payload
      changes it. */
  lemma RegistrationIsFinal(s: Subscriber, decoded: Option<SubscriberMessage>)
    requires !Unregistered(s.id)
    ensures ProcessPayload(s, decoded).Ok? ==> ProcessPayload(s, decoded).value.subscriber.id == s.id
  {
  }

  /** A successful registration makes the subscriber registered, and a
      refused message leaves it unregistered. */
  lemma RegisterRegisters(s: Subscriber, m: SubscriberMessage)
    requires Unregistered(s.id)
    ensures ProcessPayload(s, Some(m)).Ok?
    ensures !Unregistered(ProcessPayload(s, Some(m)).value.subscriber.id) <==> m.Register?
  {
  }

  /** A new peer that registers is told `RegisterResult::Success`. */
  lemma NewSubscriberRegisters(addr: string, sender: Sender, uuid: Uuid, location: RelativeLocation)
    ensures var r := ProcessPayload(NewSubscriber(addr, sender), Some(Register(uuid, location)));
            r.Ok? && r.value.out == [ToPeer(RegisterResult(RegisterResult.Success))]
  {
  }

  /** A new peer that asks for a subscription before registering is told it
      is unregistered. */
  lemma SubscribeBeforeRegisterIsRefused(addr: string, sender: Sender, service: Enums.Service)
    ensures var r := ProcessPayload(NewSubscriber(addr, sender), Some(SubscriberMessage.Subscribe(service)));
            r.Ok? && r.value.out == [ToPeer(Error(UnregisteredSubscriber))] &&
            Unregistered(r.value.subscriber.id)
  {
  }

  /** A new peer registers and subscribes to subtitles; the subtitle
      streamer, with nobody subscribed yet, answers on the peer's channel
      with `SubscribeResult::Success` and records it at its location. */
  lemma RegisterThenSubscribeToSubtitles(addr: string, sender: Sender, uuid: Uuid, location: RelativeLocation)
    ensures var registered := ProcessPayload(NewSubscriber(addr, sender), Some(Register(uuid, location)));
            && registered.Ok?
            && var subscribed := ProcessPayload(registered.value.subscriber, Some(SubscriberMessage.Subscribe(Enums.Service.Subtitle)));
            && subscribed.Ok?
            && |subscribed.value.out| == 1
            && subscribed.value.out[0].ToSubtitles?
            && var reply := SubtitleStep(map[], subscribed.value.out[0].subtitleRequest, []);
            && reply.sent == [Delivery(sender, SubscribeResult(SubscribeResult.Success))]
            && reply.table == map[uuid := Target(sender, location)]
  {
    var s := NewSubscriber(addr, sender);
    var registered := ProcessPayload(s, Some(Register(uuid, location)));
    var subscribed := ProcessPayload(registered.value.subscriber, Some(SubscriberMessage.Subscribe(Enums.Service.Subtitle)));
    assert subscribed.value.out[0] == ToSubtitles(SubtitleMessage.Subscribe(SusbcriptionData(uuid, sender, location)));
    var empty: Table := map[];
    assert IsIterationOrder([], empty.Keys);
  }
}
