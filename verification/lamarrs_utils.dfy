/** The shared payload types of `lamarrs-utils` (its `lib.rs`): client
    identity, locations, services, colours and the capacity-bounded string
    payloads with their hand-written serde implementations.

    Serde is modelled at the level of its data model: a payload serialises
    to a `SerdeValue` (a string, or a struct with named fields) and
    deserialises from one. The concrete wire encodings (JSON, postcard) sit
    below that level and are not modelled. */
module LamarrsUtils {
  import opened Wrappers
  import opened Strings

  /** A 128-bit UUID. */
  type Uuid = u: nat | u < 0x1_0000_0000_0000_0000_0000_0000_0000_0000

  /** Relative location of a client in the venue. */
  datatype RelativeLocation = Left | Center | Right

  /** `Display` of `RelativeLocation`: the variant name. */
  function LocationName(l: RelativeLocation): (s: string)
    ensures s == "Left" <==> l == Left
    ensures s == "Center" <==> l == Center
    ensures s == "Right" <==> l == Right
  {
    match l
    case Left => "Left"
    case Center => "Center"
    case Right => "Right"
  }

  /** Client identity, with an optional location. */
  datatype ClientIdAndLocation = ClientIdAndLocation(id: Uuid, location: Option<RelativeLocation>)

  /** `ClientIdAndLocation::new`. */
  function NewClientIdAndLocation(id: Uuid, location: Option<RelativeLocation>): (c: ClientIdAndLocation)
    ensures c.id == id && c.location == location
  {
    ClientIdAndLocation(id, location)
  }

  /** The services a client can subscribe to. `Midi` is used by the server
      although the enum declaration does not list it. */
  datatype Service = Subtitle | Colour | AudioPlayer | Midi

  /** Colour change payload. */
  datatype ColourRgb = ColourRgb(r: U8, g: U8, b: U8)

  type U8 = x: int | 0 <= x < 256

  /** `ColourRgb::new(red, green, blue)`. */
  function NewColourRgb(red: U8, green: U8, blue: U8): (c: ColourRgb)
    ensures c.r == red && c.g == green && c.b == blue
  {
    ColourRgb(red, green, blue)
  }

  const SUBTITLES_CAPACITY: nat := 50
  const AUDIO_NAME_CAPACITY: nat := 50
  const AUDIO_EXTENSION_CAPACITY: nat := 4
  const FILE_NAME_WITH_EXTENSION_CAPACITY: nat := 55
  const ERROR_DESCRIPTION_CAPACITY: nat := 100

  /** A `heapless::String<N>` holds at most `N` bytes of UTF-8. */
  predicate FitsIn(s: string, capacity: nat)
  {
    Utf8Len(s) <= capacity
  }

  type String4 = s: string | FitsIn(s, 4) witness ""
  type String50 = s: string | FitsIn(s, 50) witness ""
  type String55 = s: string | FitsIn(s, 55) witness ""
  type String100 = s: string | FitsIn(s, 100) witness ""

  /** Subtitle line, at most 50 bytes. */
  datatype Subtitles = Subtitles(subtitles: String50)

  /** Audio file to play: a name of at most 50 bytes and an extension of at
      most 4. */
  datatype AudioFile = AudioFile(fileName: String50, fileExtension: String4)

  /** Error description, at most 100 bytes. */
  datatype ErrorDescription = ErrorDescription(errorDescr: String100)

  /** A value of the serde data model, as far as these payloads use it. A
      string is `borrowed` when the deserialiser can lend it straight out of
      its input; a format that had to unescape the text hands over a
      transient copy instead. */
  datatype SerdeValue =
    | Str(text: string, borrowed: bool)
    | Struct(fields: map<string, SerdeValue>)
    | OtherValue

  /** The two wire formats: JSON text and postcard binary. */
  datatype Format = Json | Postcard

  /** A character that JSON writes as an escape sequence inside a string:
      the quotation mark, the reverse solidus and the control characters
      U+0000 to U+001F (section 7 of RFC 8259). */
  predicate JsonEscapes(c: char)
  {
    c == '"' || c == '\\' || c < ' '
  }

  /** The text holds a character that JSON escapes. */
  predicate JsonEscaped(t: string)
  {
    exists i :: 0 <= i < |t| && JsonEscapes(t[i])
  }

  /** How a string serialised in format `f` reaches the deserialiser:
      postcard lends every string out of its input, JSON only one that holds
      no escape sequence. */
  function Lend(t: string, f: Format): (v: SerdeValue)
    ensures v.Str? && v.text == t
    ensures v.borrowed <==> f == Postcard || !JsonEscaped(t)
  {
    Str(t, f == Postcard || !JsonEscaped(t))
  }

  /** Why deserialisation failed: the value had the wrong shape (a string
      that cannot be borrowed counts as one, since `&str` accepts only a
      borrowed string), a struct field was missing, or a string exceeded
      the target capacity. */
  datatype DeError = InvalidType | MissingField(field: string) | CapacityExceeded

  /** `heapless::String::<N>::try_from(<&str>::deserialize(d)?)`. */
  function DeserializeBoundedStr(v: SerdeValue, capacity: nat): (r: Result<string, DeError>)
    ensures r.Ok? <==> v.Str? && v.borrowed && FitsIn(v.text, capacity)
    ensures r.Ok? ==> r.value == v.text
    ensures !(v.Str? && v.borrowed) ==> r == Err(InvalidType)
    ensures v.Str? && v.borrowed && !FitsIn(v.text, capacity) ==> r == Err(CapacityExceeded)
  {
    match v
    case Str(t, borrowed) =>
      if !borrowed then Err(InvalidType)
      else if FitsIn(t, capacity) then Ok(t)
      else Err(CapacityExceeded)
    case _ => Err(InvalidType)
  }

  function SerializeSubtitles(s: Subtitles, f: Format): SerdeValue
  {
    Lend(s.subtitles, f)
  }

  function DeserializeSubtitles(v: SerdeValue): (r: Result<Subtitles, DeError>)
    ensures r.Ok? <==> v.Str? && v.borrowed && Utf8Len(v.text) <= SUBTITLES_CAPACITY
  {
    match DeserializeBoundedStr(v, SUBTITLES_CAPACITY)
    case Ok(t) => Ok(Subtitles(t))
    case Err(e) => Err(e)
  }

  /** Subtitles serialised in postcard, or in JSON without an escape,
      deserialise back unchanged; in JSON with an escape they are refused.
      A value that deserialises is what postcard would have written. */
  lemma SubtitlesRoundTrip(s: Subtitles, f: Format, v: SerdeValue)
    ensures DeserializeSubtitles(SerializeSubtitles(s, f)) ==
      if f == Postcard || !JsonEscaped(s.subtitles) then Ok(s) else Err(InvalidType)
    ensures DeserializeSubtitles(v).Ok? ==> SerializeSubtitles(DeserializeSubtitles(v).value, Postcard) == v
  {
  }

  /** A subtitle holding a quotation mark, sent as JSON, does not
      deserialise: the text arrives unescaped and so cannot be borrowed. */
  lemma QuotedSubtitleIsRefused()
    ensures DeserializeSubtitles(SerializeSubtitles(Subtitles("\""), Json)) == Err(InvalidType)
  {
    assert JsonEscapes("\""[0]);
  }

  /** Subtitles deserialised into an owned string first, which takes a
      transient string as well as a borrowed one. */
  function DeserializeSubtitlesOwned(v: SerdeValue): (r: Result<Subtitles, DeError>)
    ensures r.Ok? <==> v.Str? && Utf8Len(v.text) <= SUBTITLES_CAPACITY
    ensures r.Ok? ==> r.value.subtitles == v.text
  {
    match v
    case Str(t, _) => if FitsIn(t, SUBTITLES_CAPACITY) then Ok(Subtitles(t)) else Err(CapacityExceeded)
    case _ => Err(InvalidType)
  }

  /** With an owned string, subtitles round-trip in both formats, escapes
      or not. */
  lemma SubtitlesOwnedRoundTrip(s: Subtitles, f: Format)
    ensures DeserializeSubtitlesOwned(SerializeSubtitles(s, f)) == Ok(s)
  {
  }

  function SerializeErrorDescription(e: ErrorDescription, f: Format): SerdeValue
  {
    Lend(e.errorDescr, f)
  }

  function DeserializeErrorDescription(v: SerdeValue): (r: Result<ErrorDescription, DeError>)
    ensures r.Ok? <==> v.Str? && v.borrowed && Utf8Len(v.text) <= ERROR_DESCRIPTION_CAPACITY
  {
    match DeserializeBoundedStr(v, ERROR_DESCRIPTION_CAPACITY)
    case Ok(t) => Ok(ErrorDescription(t))
    case Err(e) => Err(e)
  }

  lemma ErrorDescriptionRoundTrip(e: ErrorDescription, f: Format, v: SerdeValue)
    ensures DeserializeErrorDescription(SerializeErrorDescription(e, f)) ==
      if f == Postcard || !JsonEscaped(e.errorDescr) then Ok(e) else Err(InvalidType)
    ensures DeserializeErrorDescription(v).Ok? ==>
      SerializeErrorDescription(DeserializeErrorDescription(v).value, Postcard) == v
  {
  }

  /** `AudioFile` serialises as a two-field struct. */
  function SerializeAudioFile(a: AudioFile, f: Format): SerdeValue
  {
    Struct(map["file_name" := Lend(a.fileName, f), "file_extension" := Lend(a.fileExtension, f)])
  }

  /** The derived deserialiser of the helper struct: both fields must be
      present and be borrowed strings; other fields are ignored. */
  function AudioFileHelper(v: SerdeValue): Result<(string, string), DeError>
  {
    match v
    case Struct(fields) =>
      if "file_name" !in fields then Err(MissingField("file_name"))
      else if "file_extension" !in fields then Err(MissingField("file_extension"))
      else if !(fields["file_name"].Str? && fields["file_name"].borrowed) then Err(InvalidType)
      else if !(fields["file_extension"].Str? && fields["file_extension"].borrowed) then Err(InvalidType)
      else Ok((fields["file_name"].text, fields["file_extension"].text))
    case _ => Err(InvalidType)
  }

  /** Deserialises the helper, then bounds the name, then the extension. */
  function DeserializeAudioFile(v: SerdeValue): (r: Result<AudioFile, DeError>)
    ensures AudioFileHelper(v).Ok? ==>
      var (name, ext) := AudioFileHelper(v).value;
      && (r.Ok? <==> FitsIn(name, AUDIO_NAME_CAPACITY) && FitsIn(ext, AUDIO_EXTENSION_CAPACITY))
      && (r.Ok? ==> r.value.fileName == name && r.value.fileExtension == ext)
      && (!FitsIn(name, AUDIO_NAME_CAPACITY) || !FitsIn(ext, AUDIO_EXTENSION_CAPACITY) ==> r == Err(CapacityExceeded))
    ensures AudioFileHelper(v).Err? ==> r == Err(AudioFileHelper(v).error)
  {
    match AudioFileHelper(v)
    case Err(e) => Err(e)
    case Ok((name, ext)) =>
      match DeserializeBoundedStr(Str(name, true), AUDIO_NAME_CAPACITY)
      case Err(e) => Err(e)
      case Ok(n) =>
        match DeserializeBoundedStr(Str(ext, true), AUDIO_EXTENSION_CAPACITY)
        case Err(e) => Err(e)
        case Ok(x) => Ok(AudioFile(n, x))
  }

  /** An audio file serialised in postcard, or in JSON with no escape in
      either field, deserialises back unchanged; in JSON with an escape in
      a field it is refused. */
  lemma AudioFileRoundTrip(a: AudioFile, f: Format)
    ensures DeserializeAudioFile(SerializeAudioFile(a, f)) ==
      if f == Postcard || (!JsonEscaped(a.fileName) && !JsonEscaped(a.fileExtension)) then Ok(a)
      else Err(InvalidType)
  {
    var v := SerializeAudioFile(a, f);
    assert v.fields["file_name"] == Lend(a.fileName, f);
    assert v.fields["file_extension"] == Lend(a.fileExtension, f);
  }

  /** `AudioFile::file_name_with_extension`: `write!("{}.{}")` into a
      55-byte `heapless::String`, whose result is ignored. */
  function FileNameWithExtension(a: AudioFile): (r: String55)
    ensures r == a.fileName + "." + a.fileExtension
  {
    var pieces := [a.fileName, ".", a.fileExtension];
    FileNameFits(a);
    assert pieces[1..][1..][1..] == [];
    assert Concat(pieces[1..][1..]) == a.fileExtension;
    assert Concat(pieces[1..]) == "." + a.fileExtension;
    assert "" + Concat(pieces) == a.fileName + "." + a.fileExtension;
    WritePieces("", pieces, FILE_NAME_WITH_EXTENSION_CAPACITY)
  }

  /** The joined name always fits the 55 bytes: 50 for the name, 1 for the
      dot and 4 for the extension. */
  lemma FileNameFits(a: AudioFile)
    ensures FitsIn(a.fileName + "." + a.fileExtension, FILE_NAME_WITH_EXTENSION_CAPACITY)
  {
    Utf8LenConcat(a.fileName, ".");
    Utf8LenConcat(a.fileName + ".", a.fileExtension);
  }
}
