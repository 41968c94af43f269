/** The MIDI output service of the desktop client
    (`client/src/services/midi.rs`): choosing the output port, encoding
    channel voice messages into bytes after the channel voice message table
    of the MIDI 1.0 Detailed Specification, and turning a preset request
    into Bank Select and Program Change. Bytes are integers below 256; the
    source's `& 0x0F` and `& 0x7F` on them are written `% 16` and `% 128`.
    The output port itself is abstract: sending yields the bytes sent. */
module MidiService {
  import opened Wrappers
  import opened Strings
  import opened Channels
  import opened LamarrsUtils
  import opened ActionMessages

  /** A 7-bit MIDI data value. */
  type U7 = x: int | 0 <= x < 0x80

  /** A 14-bit MIDI data value. */
  type U14 = x: int | 0 <= x < 0x4000

  /** The channel voice messages of `midly`, without their channel. */
  datatype MidiMessage =
    | NoteOff(key: U7, vel: U7)
    | NoteOn(key: U7, vel: U7)
    | Aftertouch(key: U7, vel: U7)
    | Controller(controller: U7, value: U7)
    | ProgramChange(program: U7)
    | ChannelAftertouch(vel: U7)
    | PitchBend(bend: U14)

  datatype MidiServiceError =
    | Service(service: string)
    | NoMidiOutputAvailable
    /** `unimplemented!()`: the service's task panics. */
    | Unimplemented

  /** The kind nibble of each message, in the high half of the status
      byte. */
  function StatusKind(m: MidiMessage): (k: U8)
    ensures 0x80 <= k <= 0xE0 && k % 16 == 0
  {
    match m
    case NoteOff(_, _) => 0x80
    case NoteOn(_, _) => 0x90
    case Aftertouch(_, _) => 0xA0
    case Controller(_, _) => 0xB0
    case ProgramChange(_) => 0xC0
    case ChannelAftertouch(_) => 0xD0
    case PitchBend(_) => 0xE0
  }

  /** The status byte: the kind in the high nibble and the zero-based
      channel in the low one. Channels are numbered from 1; the `u8`
      subtraction wraps, so channel 0 lands on the last channel. */
  function StatusByte(m: MidiMessage, channel: U8): (b: U8)
    ensures b / 16 == StatusKind(m) / 16
    ensures 1 <= channel <= 16 ==> b % 16 == channel - 1
    ensures channel == 0 ==> b % 16 == 15
  {
    var zeroBased := (channel - 1) % 256;
    StatusKind(m) + zeroBased % 16
  }

  /** `send_message`: the bytes written for a Program Change or a Control
      Change; every other message is unimplemented. */
  function Encode(m: MidiMessage, channel: U8): (r: Result<seq<U8>, MidiServiceError>)
    ensures r.Ok? <==> m.ProgramChange? || m.Controller?
    ensures r.Err? ==> r.error == Unimplemented
    ensures m.ProgramChange? ==> r.Ok? && |r.value| == 2
    ensures m.Controller? ==> r.Ok? && |r.value| == 3
    ensures r.Ok? ==> r.value[0] == StatusByte(m, channel) && r.value[0] >= 0x80
    ensures r.Ok? ==> forall i :: 1 <= i < |r.value| ==> r.value[i] <= 0x7F
  {
    var status := StatusByte(m, channel);
    match m
    case ProgramChange(program) => Ok([status, program % 128])
    case Controller(controller, value) => Ok([status, controller % 128, value % 128])
    case _ => Err(Unimplemented)
  }

  /** A channel voice message read back from its bytes: the reference
      reading of the MIDI 1.0 table for the two messages the service
      sends, with the one-based channel. */
  function Decode(bytes: seq<U8>): (r: Option<(MidiMessage, U8)>)
  {
    if |bytes| == 0 || bytes[0] < 0x80 then None
    else
      var channel := bytes[0] % 16 + 1;
      if bytes[0] / 16 == 0xC && |bytes| == 2 && bytes[1] < 0x80 then
        Some((ProgramChange(bytes[1]), channel))
      else if bytes[0] / 16 == 0xB && |bytes| == 3 && bytes[1] < 0x80 && bytes[2] < 0x80 then
        Some((Controller(bytes[1], bytes[2]), channel))
      else None
  }

  /** Reading back what the service sends gives the message and the
      channel it was sent on. */
  lemma DecodeEncode(m: MidiMessage, channel: U8)
    requires m.ProgramChange? || m.Controller?
    requires 1 <= channel <= 16
    ensures Decode(Encode(m, channel).value) == Some((m, channel))
  {
  }

  /** The value a controller or program byte gets: `min(127)`. */
  function Clamp(x: U8): (r: U7)
    ensures r <= x && (x <= 127 ==> r == x) && (x > 127 ==> r == 127)
  {
    if x < 127 then x else 127
  }

  /** `program_change`. */
  function ProgramChangeMessage(program: U8): (m: MidiMessage)
    ensures m.ProgramChange? && m.program == Clamp(program)
  {
    ProgramChange(Clamp(program))
  }

  /** `control_change`. */
  function ControlChangeMessage(cc: U8, value: U8): (m: MidiMessage)
    ensures m.Controller? && m.controller == Clamp(cc) && m.value == Clamp(value)
  {
    Controller(Clamp(cc), Clamp(value))
  }

  /** `bank_select`: controller 0 with the most significant part, then
      controller 32 with the least significant part. The pause between them
      is not modelled. */
  function BankSelect(msb: U8, lsb: U8): (ms: seq<MidiMessage>)
    ensures ms == [Controller(0, Clamp(msb)), Controller(32, Clamp(lsb))]
  {
    [ControlChangeMessage(0, msb), ControlChangeMessage(32, lsb)]
  }

  /** The bank of a zero-based preset, as the `as u8` cast leaves it. */
  function Bank(preset: U16): U8
  {
    (preset / 128) % 256
  }

  type U16 = x: int | 0 <= x < 0x1_0000

  /** `preset_change`: bank select with bank MSB 0 and the bank as LSB,
      then a Program Change with the program within the bank. */
  function PresetChange(preset: U16): (ms: seq<MidiMessage>)
    ensures |ms| == 3
    ensures ms[0] == Controller(0, 0)
    ensures ms[1] == Controller(32, Clamp(Bank(preset)))
    ensures ms[2] == ProgramChange(preset % 128)
  {
    var bank := Bank(preset);
    var program := preset % 128;
    BankSelect(0, bank) + [ProgramChangeMessage(program)]
  }

  /** The preset a Bank Select and Program Change select, read back from
      the controller 32 value and the program. */
  function SelectedPreset(ms: seq<MidiMessage>): Option<nat>
  {
    if |ms| == 3 && ms[0] == Controller(0, 0) && ms[1].Controller? && ms[1].controller == 32 && ms[2].ProgramChange?
    then Some(ms[1].value * 128 + ms[2].program)
    else None
  }

  /** Presets below 16384 fit bank and program, and the device selects
      exactly the requested preset. */
  lemma PresetChangeSelectsPreset(preset: U16)
    requires preset < 128 * 128
    ensures SelectedPreset(PresetChange(preset)) == Some(preset)
  {
  }

  /** Above that, the bank is clamped to 127 or cut by the `u8` cast, and a
      different preset is selected. */
  lemma HighPresetIsNotSelected(preset: U16)
    requires preset >= 128 * 128
    ensures SelectedPreset(PresetChange(preset)) != Some(preset)
  {
  }

  /** The bytes written for a sequence of messages, one write each;
      the first error when one of them is unimplemented. */
  function EncodeAll(ms: seq<MidiMessage>, channel: U8): (r: Result<seq<seq<U8>>, MidiServiceError>)
    ensures r.Ok? ==> |r.value| == |ms| && forall i :: 0 <= i < |ms| ==> Encode(ms[i], channel) == Ok(r.value[i])
    ensures r.Err? ==> exists i :: 0 <= i < |ms| && Encode(ms[i], channel).Err?
  {
    if ms == [] then Ok([])
    else
      match Encode(ms[0], channel)
      case Err(e) => Err(e)
      case Ok(first) =>
        match EncodeAll(ms[1..], channel)
        case Err(e) => Err(e)
        case Ok(rest) => Ok([first] + rest)
  }

  /** `try_new` once the names of the output ports are known: no port is
      an error, otherwise the first port whose name contains the requested
      name is chosen, and if none does that is an error as well. The result
      is the index of the chosen port. */
  method SelectPort(ports: seq<string>, wanted: string) returns (r: Result<nat, MidiServiceError>)
    ensures ports == [] ==> r == Err(NoMidiOutputAvailable)
    ensures r.Ok? ==> r.value < |ports| && Contains(ports[r.value], wanted)
    ensures r.Ok? ==> forall j :: 0 <= j < r.value ==> !Contains(ports[j], wanted)
    ensures ports != [] && r.Err? ==>
      && r.error == Service("Midi service. The selcted `output_midi_port_name` doesn't exist")
      && forall j :: 0 <= j < |ports| ==> !Contains(ports[j], wanted)
  {
    if ports == [] {
      return Err(NoMidiOutputAvailable);
    }
    var i := 0;
    while i < |ports|
      invariant 0 <= i <= |ports|
      invariant forall j :: 0 <= j < i ==> !Contains(ports[j], wanted)
    {
      if Contains(ports[i], wanted) {
        return Ok(i);
      }
      i := i + 1;
    }
    return Err(Service("Midi service. The selcted `output_midi_port_name` doesn't exist"));
  }

  /** The first port whose name contains the requested name: the reference
      the selection is checked against. */
  function FirstMatch(ports: seq<string>, wanted: string): (r: Option<nat>)
    ensures r.Some? ==> r.value < |ports| && Contains(ports[r.value], wanted)
    ensures r.Some? ==> forall j :: 0 <= j < r.value ==> !Contains(ports[j], wanted)
    ensures r.None? ==> forall j :: 0 <= j < |ports| ==> !Contains(ports[j], wanted)
  {
    if ports == [] then None
    else if Contains(ports[0], wanted) then Some(0)
    else
      match FirstMatch(ports[1..], wanted)
      case None => None
      case Some(k) => Some(k + 1)
  }

  /** The selection picks the first match, whenever there is one. */
  method SelectPortIsFirstMatch(ports: seq<string>, wanted: string) returns (r: Result<nat, MidiServiceError>)
    ensures r.Ok? <==> FirstMatch(ports, wanted).Some?
    ensures r.Ok? ==> r.value == FirstMatch(ports, wanted).value
  {
    r := SelectPort(ports, wanted);
  }

  /** The service once connected: the channel it sends on. */
  datatype MidiServiceState = MidiServiceState(defaultChannel: U8, port: nat)

  /** `try_new` after port selection: the channel defaults to 1. */
  function Connected(port: nat, defaultChannel: Option<U8>): (s: MidiServiceState)
    ensures defaultChannel.None? ==> s.defaultChannel == 1
    ensures defaultChannel.Some? ==> s.defaultChannel == defaultChannel.value
  {
    MidiServiceState(defaultChannel.GetOr(1), port)
  }

  /** Messages the client's services exchange (the defining file is not
      part of this model; these are the variants `run` matches on, and
      every other one). */
  datatype InternalEventMessageClient =
    | ConnectedToServer(server: Sender)
    | NewMidiMessage(instruction: MidiInstruction, replyTo: Sender)
    | SubscribeToService(service: Service)
    | Config
    | OtherClientMessage

  /** What one message to `run` does: messages to the server, bytes to the
      MIDI port, or the end of the service. */
  datatype MidiStepped = MidiStepped(
    toServer: seq<Delivery<InternalEventMessageClient>>,
    toPort: seq<seq<U8>>,
    result: Outcome<MidiServiceError>)

  /** One message of `run`. On connection the service subscribes to MIDI
      with the server; a MIDI instruction's one-based preset becomes the
      zero-based preset that is selected. */
  function MidiRunStep(s: MidiServiceState, m: InternalEventMessageClient): (r: MidiStepped)
    ensures m.ConnectedToServer? ==>
      r == MidiStepped([Delivery(m.server, SubscribeToService(Service.Midi))], [], Pass)
    ensures m.NewMidiMessage? ==> r.result == Pass && r.toServer == [] && |r.toPort| == 3
    ensures m.NewMidiMessage? ==>
      var messages := PresetChange(m.instruction.newPreset - 1);
      forall i :: 0 <= i < 3 ==> Encode(messages[i], s.defaultChannel) == Ok(r.toPort[i])
    ensures m.Config? ==> r.result == Fail(Unimplemented)
    ensures m.SubscribeToService? || m.OtherClientMessage? ==> r.result == Fail(Service("MidiService"))
  {
    match m
    case ConnectedToServer(server) =>
      MidiStepped([Delivery(server, SubscribeToService(Service.Midi))], [], Pass)
    case NewMidiMessage(instruction, _) =>
      var preset := instruction.newPreset - 1;
      var messages := PresetChange(preset);
      var bytes := EncodeAll(messages, s.defaultChannel);
      assert forall i :: 0 <= i < |messages| ==> Encode(messages[i], s.defaultChannel).Ok?;
      MidiStepped([], bytes.value, Pass)
    case Config => MidiStepped([], [], Fail(Unimplemented))
    case _ => MidiStepped([], [], Fail(Service("MidiService")))
  }

  /** A preset request reaches the port as three writes on the default
      channel: controller 0 to 0, controller 32 to the bank, and the
      program within the bank. */
  lemma PresetRequestBytes(s: MidiServiceState, instruction: MidiInstruction, replyTo: Sender)
    requires 1 <= s.defaultChannel <= 16
    requires instruction.newPreset <= 128 * 128
    ensures var preset := instruction.newPreset - 1;
            var ch := s.defaultChannel - 1;
            MidiRunStep(s, NewMidiMessage(instruction, replyTo)).toPort ==
              [[0xB0 + ch, 0, 0], [0xB0 + ch, 32, preset / 128], [0xC0 + ch, preset % 128]]
  {
  }
}
