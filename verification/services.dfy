/** The generic service of the current server generation
    (`server/src/services/mod.rs`) and its four instances (`service.rs`).
    A service keeps the clients subscribed to it in a table keyed by UUID,
    each with the channel that reaches the client and its optional
    location, and fans actions out to the clients of one location. */
module Services {
  import opened Wrappers
  import opened Channels
  import opened LamarrsUtils
  import opened ActionMessages
  import opened ExchangeMessages

  /** The four services. */
  datatype ServiceKind = SubtitleService | ColourService | PlaybackService | MidiService

  /** `Display` of each service; the subtitle service writes its name with
      a plural "Subtitles". */
  function ServiceName(k: ServiceKind): (n: string)
    ensures n == "SubtitlesService" <==> k == SubtitleService
    ensures n == "ColourService" <==> k == ColourService
    ensures n == "PlaybackService" <==> k == PlaybackService
    ensures n == "MidiService" <==> k == MidiService
  {
    match k
    case SubtitleService => "SubtitlesService"
    case ColourService => "ColourService"
    case PlaybackService => "PlaybackService"
    case MidiService => "MidiService"
  }

  /** `action_is_allowed`: each service accepts one kind of action. */
  function ActionIsAllowed(k: ServiceKind, a: Action): bool
  {
    match k
    case SubtitleService => a.ShowNewSubtitles?
    case ColourService => a.ChangeColour?
    case PlaybackService => a.PlayAudio?
    case MidiService => a.Midi?
  }

  /** Every action is allowed by exactly one service, and distinct services
      allow disjoint kinds of action. */
  lemma EachActionHasOneService(a: Action)
    ensures exists k :: ActionIsAllowed(k, a)
    ensures forall k1, k2 :: ActionIsAllowed(k1, a) && ActionIsAllowed(k2, a) ==> k1 == k2
  {
    match a
    case ShowNewSubtitles(_) => assert ActionIsAllowed(SubtitleService, a);
    case ChangeColour(_) => assert ActionIsAllowed(ColourService, a);
    case PlayAudio(_) => assert ActionIsAllowed(PlaybackService, a);
    case Midi(_) => assert ActionIsAllowed(MidiService, a);
  }

  /** A subscribed client: its channel and optional location. */
  type TargetClient = Target<Option<RelativeLocation>>

  /** A service: which one it is and its table of subscribed clients. */
  datatype LamarrsService = LamarrsService(kind: ServiceKind, targets: map<Uuid, TargetClient>)

  /** The constructor of each service: an empty table. */
  function NewService(k: ServiceKind): (s: LamarrsService)
    ensures s.kind == k && |s.targets| == 0
  {
    LamarrsService(k, map[])
  }

  /** Messages a service receives from the connection handlers and the
      sequencer. */
  datatype InternalEventMessageServer =
    | AddTargetClient(client: ClientIdAndLocation, sender: Sender)
    | RemoveTargetClient(client: ClientIdAndLocation)
    | UpdateClientData(client: ClientIdAndLocation, sender: Sender)
    | PerformAction(action: Action, location: Option<RelativeLocation>)

  /** Errors of a service handler; each names the service. */
  datatype LamarrsServiceError =
    | NotAllowedMessageType(actionMessage: string, service: string)
    | ClientNotFound(service: string)
    | ClientAlreadySubscribed(service: string)

  /** What a handler leaves behind: the new state, the messages it sent to
      clients, and its result. */
  datatype Handled = Handled(
    state: LamarrsService,
    sent: seq<Delivery<ExchangeMessage>>,
    result: Outcome<LamarrsServiceError>)

  /** `update_target_client`: a subscribed client gets its channel replaced
      (its location is kept) and is told on the new channel; an unknown
      client is an error. */
  function UpdateTargetClient(s: LamarrsService, client: ClientIdAndLocation, sender: Sender): (r: Handled)
    ensures r.state.kind == s.kind
    ensures r.state.targets.Keys == s.targets.Keys
    ensures forall u :: u in s.targets && u != client.id ==> r.state.targets[u] == s.targets[u]
    ensures client.id in s.targets ==>
      && r.state.targets[client.id].sender == sender
      && r.state.targets[client.id].location == s.targets[client.id].location
      && r.sent == [Delivery(sender, Ack(UpdatedSubscription))]
      && r.result == Pass
    ensures client.id !in s.targets ==>
      r.state == s && r.sent == [] && r.result == Fail(ClientNotFound(ServiceName(s.kind)))
  {
    if client.id in s.targets then
      var old_entry := s.targets[client.id];
      var targets := s.targets[client.id := Target(sender, old_entry.location)];
      Handled(s.(targets := targets), [Delivery(sender, Ack(UpdatedSubscription))], Pass)
    else
      Handled(s, [], Fail(ClientNotFound(ServiceName(s.kind))))
  }

  /** `insert_target_client`: an unknown client is added with its channel
      and location and told on that channel; a known one is told on its
      stored channel that it is already subscribed, and nothing changes. */
  function InsertTargetClient(s: LamarrsService, client: ClientIdAndLocation, sender: Sender): (r: Handled)
    ensures r.state.kind == s.kind
    ensures r.state.targets.Keys == s.targets.Keys + {client.id}
    ensures forall u :: u in s.targets ==> r.state.targets[u] == s.targets[u]
    ensures client.id in s.targets ==>
      && r.sent == [Delivery(s.targets[client.id].sender, Nack(AlreadySubscribed))]
      && r.result == Fail(ClientAlreadySubscribed(ServiceName(s.kind)))
    ensures client.id !in s.targets ==>
      && r.state.targets[client.id] == Target(sender, client.location)
      && r.sent == [Delivery(sender, Ack(Success))]
      && r.result == Pass
  {
    if client.id in s.targets then
      Handled(s, [Delivery(s.targets[client.id].sender, Nack(AlreadySubscribed))],
              Fail(ClientAlreadySubscribed(ServiceName(s.kind))))
    else
      var targets := s.targets[client.id := Target(sender, client.location)];
      Handled(s.(targets := targets), [Delivery(sender, Ack(Success))], Pass)
  }

  /** `remove_target_client`: deletes the client's entry and no other, or
      reports that the client was not subscribed. Nothing is sent. */
  function RemoveTargetClient(s: LamarrsService, client: ClientIdAndLocation): (r: Handled)
    ensures r.state.kind == s.kind && r.sent == []
    ensures r.state.targets.Keys == s.targets.Keys - {client.id}
    ensures forall u :: u in r.state.targets ==> r.state.targets[u] == s.targets[u]
    ensures r.result.Pass? <==> client.id in s.targets
    ensures r.result.Fail? ==> r.result.error == ClientNotFound(ServiceName(s.kind))
  {
    if client.id in s.targets then
      Handled(s.(targets := s.targets - {client.id}), [], Pass)
    else
      Handled(s, [], Fail(ClientNotFound(ServiceName(s.kind))))
  }

  /** The location filter of `write_to_target_clients`, branch for branch:
      with a target location, clients at that location; without one,
      clients with no location. */
  predicate LocationSelects(wanted: Option<RelativeLocation>, stored: Option<RelativeLocation>)
  {
    if wanted.Some? then stored == wanted
    else stored.None?
  }

  /** The branchy filter is plain equality of the optional locations. */
  lemma LocationSelectsIsEquality(wanted: Option<RelativeLocation>, stored: Option<RelativeLocation>)
    ensures LocationSelects(wanted, stored) <==> stored == wanted
  {
  }

  /** `write_to_target_clients`: an action the service does not allow is
      refused without sending anything; otherwise every client whose
      location equals `location` (both absent counts as equal) gets the
      action as a scene event exactly once, and nobody else gets anything.
      `order` is the iteration order of the table. */
  function WriteToTargetClients(s: LamarrsService, a: Action, location: Option<RelativeLocation>, order: seq<Uuid>): (r: Handled)
    requires IsIterationOrder(order, s.targets.Keys)
    ensures r.state == s
    ensures r.result.Pass? <==> ActionIsAllowed(s.kind, a)
    ensures !ActionIsAllowed(s.kind, a) ==>
      r.sent == [] && r.result == Fail(NotAllowedMessageType(ActionName(a), ServiceName(s.kind)))
    ensures ActionIsAllowed(s.kind, a) ==>
      SentOnceToEach(s.targets, TargetsAt(s.targets, location), Scene(Event.PerformAction(a)), r.sent)
  {
    if !ActionIsAllowed(s.kind, a) then
      Handled(s, [], Fail(NotAllowedMessageType(ActionName(a), ServiceName(s.kind))))
    else
      var selected := FilterKeys(s.targets, order, (t: TargetClient) => LocationSelects(location, t.location));
      var msg := Scene(Event.PerformAction(a));
      var sent := SendAll(s.targets, selected, msg);
      assert IsIterationOrder(selected, TargetsAt(s.targets, location)) by {
        forall u | u in TargetsAt(s.targets, location)
          ensures u in selected
        {
          LocationSelectsIsEquality(location, s.targets[u].location);
        }
        forall i | 0 <= i < |selected|
          ensures selected[i] in TargetsAt(s.targets, location)
        {
          LocationSelectsIsEquality(location, s.targets[selected[i]].location);
        }
      }
      Handled(s, sent, Pass)
  }

  /** One message of the service loop. */
  function Step(s: LamarrsService, m: InternalEventMessageServer, order: seq<Uuid>): (r: Handled)
    requires IsIterationOrder(order, s.targets.Keys)
    ensures r.state.kind == s.kind
    ensures m.PerformAction? ==> r.state == s
    ensures !m.PerformAction? ==> r.state.targets.Keys <= s.targets.Keys + {m.client.id}
    ensures m.AddTargetClient? ==> r == InsertTargetClient(s, m.client, m.sender)
    ensures m.UpdateClientData? ==> r == UpdateTargetClient(s, m.client, m.sender)
    ensures m.RemoveTargetClient? ==> r == RemoveTargetClient(s, m.client)
    ensures m.PerformAction? ==> r == WriteToTargetClients(s, m.action, m.location, order)
  {
    match m
    case AddTargetClient(client, sender) => InsertTargetClient(s, client, sender)
    case UpdateClientData(client, sender) => UpdateTargetClient(s, client, sender)
    case RemoveTargetClient(client) => RemoveTargetClient(s, client)
    case PerformAction(a, location) => WriteToTargetClients(s, a, location, order)
  }

  /** What the service loop leaves after a run of messages: its state, all
      messages sent to clients, and the errors it logged. */
  datatype RunLog = RunLog(
    state: LamarrsService,
    sent: seq<Delivery<ExchangeMessage>>,
    logged: seq<LamarrsServiceError>)

  /** The errors an outcome contributes to the log. */
  function Logged(o: Outcome<LamarrsServiceError>): (l: seq<LamarrsServiceError>)
    ensures o.Pass? <==> l == []
    ensures o.Fail? ==> l == [o.error]
  {
    if o.Fail? then [o.error] else []
  }

  /** One message handled with the table iterated in some order. */
  ghost function Handle(s: LamarrsService, m: InternalEventMessageServer): (h: Handled)
    ensures h.state.kind == s.kind
  {
    Step(s, m, SomeIterationOrder(s.targets.Keys))
  }

  /** `run`: handles the messages in arrival order. A handler error is
      logged and the loop goes on with the next message. The table is
      iterated in whatever order the map yields. */
  ghost function Run(s: LamarrsService, messages: seq<InternalEventMessageServer>): (r: RunLog)
    ensures |r.logged| <= |messages|
  {
    RunWith(Handle, s, messages)
  }

  /** The service loop with the handler of one message as a parameter. */
  ghost function RunWith(handle: (LamarrsService, InternalEventMessageServer) -> Handled,
                         s: LamarrsService, messages: seq<InternalEventMessageServer>): (r: RunLog)
    ensures |r.logged| <= |messages|
    decreases |messages|
  {
    if messages == [] then RunLog(s, [], [])
    else
      var h := handle(s, messages[0]);
      var rest := RunWith(handle, h.state, messages[1..]);
      RunLog(rest.state, h.sent + rest.sent, Logged(h.result) + rest.logged)
  }

  /** Running two batches one after the other is running their
      concatenation: an error in the first batch does not stop the
      second. */
  lemma RunConcat(s: LamarrsService, first: seq<InternalEventMessageServer>, second: seq<InternalEventMessageServer>)
    ensures Run(s, first + second).state == Run(Run(s, first).state, second).state
    ensures Run(s, first + second).sent == Run(s, first).sent + Run(Run(s, first).state, second).sent
    ensures Run(s, first + second).logged == Run(s, first).logged + Run(Run(s, first).state, second).logged
  {
    RunWithConcat(Handle, s, first, second);
  }

  lemma {:induction false} RunWithConcat(handle: (LamarrsService, InternalEventMessageServer) -> Handled,
                                         s: LamarrsService, first: seq<InternalEventMessageServer>,
                                         second: seq<InternalEventMessageServer>)
    ensures var a := RunWith(handle, s, first);
            var b := RunWith(handle, a.state, second);
            RunWith(handle, s, first + second) == RunLog(b.state, a.sent + b.sent, a.logged + b.logged)
    decreases |first|
  {
    if first == [] {
      assert first + second == second;
    } else {
      var whole := first + second;
      assert whole[0] == first[0];
      assert whole[1..] == first[1..] + second;
      var h := handle(s, first[0]);
      RunWithConcat(handle, h.state, first[1..], second);
    }
  }

  /** A message whose handler fails changes nothing in the table: the
      service goes on from the same table with the next message. */
  lemma FailedStepKeepsTable(s: LamarrsService, m: InternalEventMessageServer, order: seq<Uuid>)
    requires IsIterationOrder(order, s.targets.Keys)
    ensures Step(s, m, order).result.Fail? ==> Step(s, m, order).state == s
  {
  }

  /** A client added and then removed leaves the table as it was. */
  lemma InsertThenRemove(s: LamarrsService, client: ClientIdAndLocation, sender: Sender)
    requires client.id !in s.targets
    ensures RemoveTargetClient(InsertTargetClient(s, client, sender).state, client).state == s
  {
    var t := RemoveTargetClient(InsertTargetClient(s, client, sender).state, client).state;
    assert t.targets == s.targets;
  }

  /** The location a client reports through `UpdateClientData` is not
      stored: the service keeps sending to the client's old location. */
  lemma UpdateKeepsLocation(s: LamarrsService, client: ClientIdAndLocation, sender: Sender, location: Option<RelativeLocation>)
    requires client.id in s.targets
    ensures var t := UpdateTargetClient(s, client, sender).state.targets;
            (client.id in TargetsAt(t, location)) <==> (client.id in TargetsAt(s.targets, location))
  {
  }
}
