/** The subscription table shared, line for line, by the streamers of the
    first server generation (`SubtitlesStreamer` and `ColorStreamer` in
    `text_streamers.rs`, `MidiStreamer` in `sound_streamers.rs`): a map from
    the subscriber's UUID to its channel and location. */
module StreamerTable {
  import opened Channels
  import opened LamarrsUtils
  import opened Enums

  /** A subscriber entry: its channel and its location. */
  type Subscription = Target<RelativeLocation>

  type Table = map<Uuid, Subscription>

  /** What a subscriber hands to a streamer. The defining file is not part
      of this model; its fields are those every use reads. */
  datatype SusbcriptionData = SusbcriptionData(senderId: Uuid, sender: Sender, location: RelativeLocation)

  /** A streamer's table after a request, and what it sent. */
  datatype Replied = Replied(table: Table, sent: seq<Delivery<GatewayMessage>>)

  /** `subscribe`: an unknown id is added with its channel and location;
      a known id keeps its entry. Either way the requester is told the
      result on the channel it gave. */
  function Subscribe(t: Table, d: SusbcriptionData): (r: Replied)
    ensures r.table.Keys == t.Keys + {d.senderId}
    ensures forall u :: u in t ==> r.table[u] == t[u]
    ensures d.senderId !in t ==> r.table[d.senderId] == Target(d.sender, d.location)
    ensures d.senderId in t ==> r.sent == [Delivery(d.sender, SubscribeResult(AlreadySubscribed))]
    ensures d.senderId !in t ==> r.sent == [Delivery(d.sender, SubscribeResult(SubscribeResult.Success))]
  {
    var (table, result) :=
      if d.senderId in t then (t, AlreadySubscribed)
      else (t[d.senderId := Target(d.sender, d.location)], SubscribeResult.Success);
    Replied(table, [Delivery(d.sender, SubscribeResult(result))])
  }

  /** `update_subscription`: a known id gets both its channel and its
      location replaced; an unknown id is not added. Either way the
      requester is told the result on the channel it gave. */
  function UpdateSubscription(t: Table, d: SusbcriptionData): (r: Replied)
    ensures r.table.Keys == t.Keys
    ensures forall u :: u in t && u != d.senderId ==> r.table[u] == t[u]
    ensures d.senderId in t ==> r.table[d.senderId] == Target(d.sender, d.location)
    ensures d.senderId in t ==> r.sent == [Delivery(d.sender, SubscribeResult(UpdatedSubscription))]
    ensures d.senderId !in t ==> r.table == t && r.sent == [Delivery(d.sender, SubscribeResult(NotSubscribed))]
  {
    if d.senderId in t then
      Replied(t[d.senderId := Target(d.sender, d.location)], [Delivery(d.sender, SubscribeResult(UpdatedSubscription))])
    else
      Replied(t, [Delivery(d.sender, SubscribeResult(NotSubscribed))])
  }

  /** `get_senders_by_location`: the channel of every entry at the target
      location, one per entry, in table order. */
  function SendersByLocation(t: Table, location: RelativeLocation, order: seq<Uuid>): (r: seq<Sender>)
    requires IsIterationOrder(order, t.Keys)
    ensures SendersOfEach(t, TargetsAt(t, location), r)
  {
    var selected := SelectAt(t, location, order);
    var r := seq(|selected|, i requires 0 <= i < |selected| => t[selected[i]].sender);
    assert |r| == |selected| && forall i :: 0 <= i < |selected| ==> selected[i] in t && r[i] == t[selected[i]].sender;
    r
  }

  /** `send`: the message goes once to each channel the location selects. */
  function Send(t: Table, msg: GatewayMessage, location: RelativeLocation, order: seq<Uuid>): (r: seq<Delivery<GatewayMessage>>)
    requires IsIterationOrder(order, t.Keys)
    ensures SentOnceToEach(t, TargetsAt(t, location), msg, r)
  {
    var senders := SendersByLocation(t, location, order);
    var r := seq(|senders|, i requires 0 <= i < |senders| => Delivery(senders[i], msg));
    assert SentInOrder(t, SelectAt(t, location, order), msg, r);
    r
  }

  /** Subscribing twice with the same id is the same as subscribing once,
      apart from the second reply. */
  lemma SubscribeTwice(t: Table, d: SusbcriptionData, e: SusbcriptionData)
    requires d.senderId == e.senderId
    ensures Subscribe(Subscribe(t, d).table, e).table == Subscribe(t, d).table
    ensures Subscribe(Subscribe(t, d).table, e).sent == [Delivery(e.sender, SubscribeResult(AlreadySubscribed))]
  {
  }

  /** After a subscription, an update with the same id is accepted and
      moves the entry to the new channel and location. */
  lemma SubscribeThenUpdate(t: Table, d: SusbcriptionData, e: SusbcriptionData)
    requires d.senderId == e.senderId
    ensures var after := UpdateSubscription(Subscribe(t, d).table, e);
            after.table[e.senderId] == Target(e.sender, e.location) &&
            after.sent == [Delivery(e.sender, SubscribeResult(UpdatedSubscription))]
  {
  }
}
