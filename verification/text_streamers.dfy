/** The subtitle and colour streamers of the first server generation
    (`server/src/services/text_streamers.rs`). Each owns a subscription
    table; `run` dispatches one message at a time. */
module TextStreamers {
  import opened Channels
  import opened LamarrsUtils
  import opened Enums
  import opened StreamerTable

  /** A subtitle for the subscribers at one location (`messages.rs`). */
  datatype SendSubtitle = SendSubtitle(subtitle: Subtitle, targetLocation: RelativeLocation)

  /** A colour for the subscribers at one location (`messages.rs`). */
  datatype SendColor = SendColor(color: Color, targetLocation: RelativeLocation)

  datatype SubtitleMessage =
    | Subscribe(details: SusbcriptionData)
    | UpdateSubscription(details: SusbcriptionData)
    | SendSubtitle(subtitle: SendSubtitle)

  datatype ColorMessage =
    | Subscribe(details: SusbcriptionData)
    | UpdateSubscription(details: SusbcriptionData)
    | SendColor(color: SendColor)

  /** One iteration of `SubtitlesStreamer::run`: each message goes to its
      own handler. `order` is the iteration order of the table. */
  function SubtitleStep(t: Table, m: SubtitleMessage, order: seq<Uuid>): (r: Replied)
    requires IsIterationOrder(order, t.Keys)
    ensures m.Subscribe? ==> r == StreamerTable.Subscribe(t, m.details)
    ensures m.UpdateSubscription? ==> r == StreamerTable.UpdateSubscription(t, m.details)
    ensures m.SendSubtitle? ==>
      && r.table == t
      && SentOnceToEach(t, TargetsAt(t, m.subtitle.targetLocation), GatewayMessage.Subtitle(m.subtitle.subtitle), r.sent)
  {
    match m
    case Subscribe(d) => StreamerTable.Subscribe(t, d)
    case UpdateSubscription(d) => StreamerTable.UpdateSubscription(t, d)
    case SendSubtitle(s) => Replied(t, Send(t, GatewayMessage.Subtitle(s.subtitle), s.targetLocation, order))
  }

  /** The table `ColorStreamer::subscribe` broadcasts over: the one after
      the subscription. */
  function ColorSubscribeTable(t: Table, d: SusbcriptionData): (r: Table)
    ensures r.Keys == t.Keys + {d.senderId}
  {
    StreamerTable.Subscribe(t, d).table
  }

  /** `ColorStreamer::subscribe`: the shared subscription, whose reply goes
      out first, then blue to every subscriber at the centre, the new one
      included. `order` is the iteration order of the table after the
      subscription. */
  function ColorSubscribe(t: Table, d: SusbcriptionData, order: seq<Uuid>): (r: Replied)
    requires IsIterationOrder(order, ColorSubscribeTable(t, d).Keys)
    ensures r.table == StreamerTable.Subscribe(t, d).table
    ensures |r.sent| >= 1 && r.sent[0] == StreamerTable.Subscribe(t, d).sent[0]
    ensures SentOnceToEach(r.table, TargetsAt(r.table, Center), GatewayMessage.Color(Blue), r.sent[1..])
  {
    var first := StreamerTable.Subscribe(t, d);
    var broadcast := Send(first.table, GatewayMessage.Color(Blue), Center, order);
    assert (first.sent + broadcast)[1..] == broadcast;
    Replied(first.table, first.sent + broadcast)
  }

  /** The table a colour message's broadcast, if any, iterates over. */
  function ColorStepTable(t: Table, m: ColorMessage): Table
  {
    if m.SendColor? then t else ColorSubscribeTable(t, m.details)
  }

  /** One iteration of `ColorStreamer::run`. An update request is handled
      as a subscription, exactly like a subscribe request. */
  function ColorStep(t: Table, m: ColorMessage, order: seq<Uuid>): (r: Replied)
    requires IsIterationOrder(order, ColorStepTable(t, m).Keys)
    ensures !m.SendColor? ==> r == ColorSubscribe(t, m.details, order)
    ensures m.SendColor? ==>
      && r.table == t
      && SentOnceToEach(t, TargetsAt(t, m.color.targetLocation), GatewayMessage.Color(m.color.color), r.sent)
  {
    match m
    case Subscribe(d) => ColorSubscribe(t, d, order)
    case UpdateSubscription(d) => ColorSubscribe(t, d, order)
    case SendColor(c) => Replied(t, Send(t, GatewayMessage.Color(c.color), c.targetLocation, order))
  }

  /** An update request for a subscriber the colour streamer already knows
      is answered `AlreadySubscribed` and keeps the old channel and
      location, unlike the subtitle streamer, which takes the new ones. */
  lemma ColorUpdateKeepsOldEntry(t: Table, d: SusbcriptionData, order: seq<Uuid>)
    requires d.senderId in t
    requires IsIterationOrder(order, t.Keys)
    ensures var r := ColorStep(t, ColorMessage.UpdateSubscription(d), order);
            r.table == t && r.sent[0] == Delivery(d.sender, SubscribeResult(AlreadySubscribed))
    ensures var r := SubtitleStep(t, SubtitleMessage.UpdateSubscription(d), order);
            r.table[d.senderId] == Target(d.sender, d.location) &&
            r.sent == [Delivery(d.sender, SubscribeResult(UpdatedSubscription))]
  {
    assert ColorSubscribeTable(t, d) == t;
  }
}
