/** The MIDI streamer of the first server generation
    (`server/src/services/sound_streamers.rs`): the shared subscription
    table, and MIDI events sent to the subscribers at one location. */
module SoundStreamers {
  import opened Channels
  import opened LamarrsUtils
  import opened Enums
  import opened MidiEvents
  import opened StreamerTable

  /** A MIDI event for the subscribers at one location. The defining file
      is not part of this model; its fields are those `run` reads. */
  datatype SendMidiEvent = SendMidiEvent(event: MidiEvent, targetLocation: RelativeLocation)

  datatype MidiMessage =
    | Subscribe(details: SusbcriptionData)
    | UpdateSubscription(details: SusbcriptionData)
    | SendMidi(send: SendMidiEvent)

  /** One iteration of `MidiStreamer::run`: subscribe, update and send each
      go to their own handler. */
  function MidiStep(t: Table, m: MidiMessage, order: seq<Uuid>): (r: Replied)
    requires IsIterationOrder(order, t.Keys)
    ensures m.Subscribe? ==> r == StreamerTable.Subscribe(t, m.details)
    ensures m.UpdateSubscription? ==> r == StreamerTable.UpdateSubscription(t, m.details)
    ensures m.SendMidi? ==>
      && r.table == t
      && SentOnceToEach(t, TargetsAt(t, m.send.targetLocation), GatewayMessage.Midi(m.send.event), r.sent)
  {
    match m
    case Subscribe(d) => StreamerTable.Subscribe(t, d)
    case UpdateSubscription(d) => StreamerTable.UpdateSubscription(t, d)
    case SendMidi(s) => Replied(t, Send(t, GatewayMessage.Midi(s.event), s.targetLocation, order))
  }

  /** A MIDI event is sent once per subscriber at the target location. */
  lemma MidiDeliveryCount(t: Table, s: SendMidiEvent, order: seq<Uuid>)
    requires IsIterationOrder(order, t.Keys)
    ensures |MidiStep(t, SendMidi(s), order).sent| == |TargetsAt(t, s.targetLocation)|
  {
    var r := MidiStep(t, SendMidi(s), order);
    SentOnceToEachMeans(t, TargetsAt(t, s.targetLocation), GatewayMessage.Midi(s.event), r.sent);
  }

  /** A MIDI event reaches every subscriber at the target location. */
  lemma MidiReachesEveryoneThere(t: Table, s: SendMidiEvent, order: seq<Uuid>)
    requires IsIterationOrder(order, t.Keys)
    ensures forall u :: u in t && t[u].location == s.targetLocation ==>
              Delivery(t[u].sender, GatewayMessage.Midi(s.event)) in MidiStep(t, SendMidi(s), order).sent
  {
    var r := MidiStep(t, SendMidi(s), order);
    var at := TargetsAt(t, s.targetLocation);
    SentOnceToEachMeans(t, at, GatewayMessage.Midi(s.event), r.sent);
    forall u | u in t && t[u].location == s.targetLocation
      ensures Delivery(t[u].sender, GatewayMessage.Midi(s.event)) in r.sent
    {
      assert u in at;
    }
  }

  /** A MIDI event goes only to channels of subscribers at the target
      location. */
  lemma MidiReachesNoOneElse(t: Table, s: SendMidiEvent, order: seq<Uuid>)
    requires IsIterationOrder(order, t.Keys)
    ensures forall d :: d in MidiStep(t, SendMidi(s), order).sent ==>
              exists u :: u in t && t[u].location == s.targetLocation &&
                d == Delivery(t[u].sender, GatewayMessage.Midi(s.event))
  {
    var r := MidiStep(t, SendMidi(s), order);
    var msg := GatewayMessage.Midi(s.event);
    var at := TargetsAt(t, s.targetLocation);
    SentOnceToEachMeans(t, at, msg, r.sent);
    forall d | d in r.sent
      ensures exists u :: u in t && t[u].location == s.targetLocation && d == Delivery(t[u].sender, msg)
    {
      var i :| 0 <= i < |r.sent| && r.sent[i] == d;
      var u :| u in at && u in t && r.sent[i] == Delivery(t[u].sender, msg);
    }
  }
}
