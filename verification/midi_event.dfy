/** MIDI events as the web synthesiser receives them (`midi_event.rs` of
    `lamarrs-utils`) and their range validation before they reach the
    synthesiser. Data fields are stored in a `u8` (`U7`) or `u16` (`U14`)
    and may therefore hold values outside the MIDI data range. */
module MidiEvents {
  import opened Wrappers

  type U8 = x: int | 0 <= x < 0x100
  type U16 = x: int | 0 <= x < 0x1_0000

  datatype MidiEvent =
    | NoteOn(channel: U8, key: U8, vel: U8)
    | NoteOff(channel: U8, key: U8)
    | ControlChange(channel: U8, ctrl: U8, value: U8)
    | AllNotesOff(channel: U8)
    | AllSoundOff(channel: U8)
    | PitchBend(channel: U8, bend: U16)
    | ProgramChange(channel: U8, programId: U8)
    | ChannelPressure(channel: U8, value: U8)
    | PolyphonicKeyPressure(channel: U8, key: U8, value: U8)
    | SystemReset

  datatype OxiError =
    | KeyOutOfRange
    | VelocityOutOfRange
    | ChannelOutOfRange
    | CtrlOutOfRange
    | CCValueOutOfRange
    | ProgramOutOfRange
    | KeyPressureOutOfRange
    | ChannelPressureOutOfRange
    | PithBendOutOfRange
    | ChannelHasNoPreset
    | PresetNotFound(bankId: nat, presetId: U8, sfontId: nat)

  /** Largest 7-bit data value. */
  const MAX_U7: nat := 127
  /** Largest 14-bit pitch-bend value. */
  const MAX_U14: nat := 16383

  /** `range_check(lo..=hi, value, error)`. */
  function RangeCheck<E>(lo: int, hi: int, value: int, error: E): (r: Outcome<E>)
    ensures r.Pass? <==> lo <= value <= hi
    ensures r.Fail? ==> r.error == error
  {
    if lo <= value <= hi then Pass else Fail(error)
  }

  /** Every data field of the event lies in its MIDI range; the channel is
      not a data field. */
  predicate InMidiRange(e: MidiEvent)
  {
    match e
    case NoteOn(_, key, vel) => key <= MAX_U7 && vel <= MAX_U7
    case NoteOff(_, key) => key <= MAX_U7
    case ControlChange(_, ctrl, value) => ctrl <= MAX_U7 && value <= MAX_U7
    case AllNotesOff(_) => true
    case AllSoundOff(_) => true
    case PitchBend(_, bend) => bend <= MAX_U14
    case ProgramChange(_, program) => program <= MAX_U7
    case ChannelPressure(_, value) => value <= MAX_U7
    case PolyphonicKeyPressure(_, key, value) => key <= MAX_U7 && value <= MAX_U7
    case SystemReset => true
  }

  /** Chains two checks like `?`: the first failure wins. */
  function AndThen<E>(first: Outcome<E>, second: Outcome<E>): Outcome<E>
  {
    if first.Fail? then first else second
  }

  /** `MidiEvent::check`. */
  function Check(e: MidiEvent): (r: Result<MidiEvent, OxiError>)
    ensures r.Ok? <==> InMidiRange(e)
    ensures r.Ok? ==> r.value == e
    ensures r.Err? ==> r.error != ChannelOutOfRange
    // The first field of a two-field event is checked first.
    ensures e.NoteOn? && e.key > MAX_U7 ==> r == Err(KeyOutOfRange)
    ensures e.NoteOn? && e.key <= MAX_U7 && e.vel > MAX_U7 ==> r == Err(VelocityOutOfRange)
    ensures e.ControlChange? && e.ctrl > MAX_U7 ==> r == Err(CtrlOutOfRange)
    ensures e.ControlChange? && e.ctrl <= MAX_U7 && e.value > MAX_U7 ==> r == Err(CCValueOutOfRange)
    ensures e.PolyphonicKeyPressure? && e.key > MAX_U7 ==> r == Err(KeyOutOfRange)
    ensures e.PolyphonicKeyPressure? && e.key <= MAX_U7 && e.value > MAX_U7 ==> r == Err(KeyPressureOutOfRange)
    ensures e.NoteOff? && !InMidiRange(e) ==> r == Err(KeyOutOfRange)
    ensures e.PitchBend? && !InMidiRange(e) ==> r == Err(PithBendOutOfRange)
    ensures e.ProgramChange? && !InMidiRange(e) ==> r == Err(ProgramOutOfRange)
    ensures e.ChannelPressure? && !InMidiRange(e) ==> r == Err(ChannelPressureOutOfRange)
  {
    var outcome := match e
      case NoteOn(_, key, vel) =>
        AndThen(RangeCheck(0, 127, key, KeyOutOfRange), RangeCheck(0, 127, vel, VelocityOutOfRange))
      case NoteOff(_, key) => RangeCheck(0, 127, key, KeyOutOfRange)
      case ControlChange(_, ctrl, value) =>
        AndThen(RangeCheck(0, 127, ctrl, CtrlOutOfRange), RangeCheck(0, 127, value, CCValueOutOfRange))
      case AllNotesOff(_) => Pass
      case AllSoundOff(_) => Pass
      case PitchBend(_, bend) => RangeCheck(0, 16383, bend, PithBendOutOfRange)
      case ProgramChange(_, program) => RangeCheck(0, 127, program, ProgramOutOfRange)
      case ChannelPressure(_, value) => RangeCheck(0, 127, value, ChannelPressureOutOfRange)
      case PolyphonicKeyPressure(_, key, value) =>
        AndThen(RangeCheck(0, 127, key, KeyOutOfRange), RangeCheck(0, 127, value, KeyPressureOutOfRange))
      case SystemReset => Pass;
    match outcome
    case Pass => Ok(e)
    case Fail(err) => Err(err)
  }
}
