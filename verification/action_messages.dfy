/** Client events and show actions (`action_messages.rs` of
    `lamarrs-utils`), with the short human-readable rendering of an action
    that `Action::as_str` writes into a 128-byte buffer. */
module ActionMessages {
  import opened Strings
  import opened LamarrsUtils

  /** A MIDI preset request: presets are numbered from 1. */
  type Preset = p: int | 1 <= p < 0x1_0000 witness 1

  datatype MidiInstruction = MidiInstruction(newPreset: Preset)

  /** Actions a service performs on its target clients. `Midi` is used by
      the MIDI service although the enum declaration does not list it. */
  datatype Action =
    | ShowNewSubtitles(subtitles: Subtitles)
    | ChangeColour(colour: ColourRgb)
    | PlayAudio(audio: AudioFile)
    | Midi(instruction: MidiInstruction)

  /** The three actions the enum declares; the sequencer and `as_str`
      match on exactly these. */
  type DeclaredAction = a: Action | !a.Midi? witness ShowNewSubtitles(Subtitles(""))

  /** Client requests and server-side scene events. */
  datatype Event =
    | Register(client: ClientIdAndLocation)
    | SuscribeToService(service: Service, client: ClientIdAndLocation)
    | UnsubscribeFromService(service: Service, client: ClientIdAndLocation)
    | UpdateLocation(client: ClientIdAndLocation)
    | PerformAction(action: Action)

  /** The derived `Display` of `Action`: the variant name. */
  function ActionName(a: Action): (n: string)
    ensures n == "ShowNewSubtitles" <==> a.ShowNewSubtitles?
    ensures n == "ChangeColour" <==> a.ChangeColour?
    ensures n == "PlayAudio" <==> a.PlayAudio?
    ensures n == "Midi" <==> a.Midi?
  {
    match a
    case ShowNewSubtitles(_) => "ShowNewSubtitles"
    case ChangeColour(_) => "ChangeColour"
    case PlayAudio(_) => "PlayAudio"
    case Midi(_) => "Midi"
  }

  /** How `Debug` escapes one character inside a quoted string: the named
      escapes, `\u{..}` for ASCII control characters, the character itself
      otherwise. */
  function EscapeDebugChar(c: char): (e: string)
    ensures |e| >= 1
    ensures e != [c] ==> e[0] == '\\'
  {
    if c == '\0' then "\\0"
    else if c == '\t' then "\\t"
    else if c == '\r' then "\\r"
    else if c == '\n' then "\\n"
    else if c == '\\' then "\\\\"
    else if c == '"' then "\\\""
    else if c as int < 0x20 || c as int == 0x7F then "\\u{" + Hex(c as int) + "}"
    else [c]
  }

  predicate NeedsEscape(c: char)
  {
    EscapeDebugChar(c) != [c]
  }

  /** Every character escaped, concatenated. */
  function EscapeDebug(s: string): string
  {
    if s == [] then [] else EscapeDebugChar(s[0]) + EscapeDebug(s[1..])
  }

  /** The pieces `<str as Debug>::fmt` hands to the writer after the opening
      quote: each maximal run of characters that need no escape as one
      piece (possibly empty) before each escape, each escape as one piece,
      and the final run. `run` is the run accumulated so far. */
  function EscapedPieces(s: string, run: string): seq<string>
    decreases |s|
  {
    if s == [] then [run]
    else if NeedsEscape(s[0]) then [run, EscapeDebugChar(s[0])] + EscapedPieces(s[1..], "")
    else EscapedPieces(s[1..], run + [s[0]])
  }

  /** The pieces of `{:?}` applied to a string. */
  function DebugPieces(s: string): seq<string>
  {
    ["\""] + EscapedPieces(s, "") + ["\""]
  }

  lemma {:induction false} EscapedPiecesConcat(s: string, run: string)
    ensures Concat(EscapedPieces(s, run)) == run + EscapeDebug(s)
    decreases |s|
  {
    if s == [] {
      ConcatOne(run);
    } else {
      var e := EscapeDebugChar(s[0]);
      EscapedPiecesConcat(s[1..], if NeedsEscape(s[0]) then "" else run + [s[0]]);
      assert EscapeDebug(s) == e + EscapeDebug(s[1..]);
      if NeedsEscape(s[0]) {
        EscapedStep(run, e, EscapedPieces(s[1..], ""), EscapeDebug(s[1..]));
      } else {
        assert e == [s[0]];
      }
    }
  }

  lemma EscapedStep(run: string, e: string, rest: seq<string>, tail: string)
    requires Concat(rest) == "" + tail
    ensures Concat([run, e] + rest) == run + (e + tail)
  {
    ConcatAppend([run, e], rest);
    ConcatPair(run, e);
  }

  /** Characters needing no escape are written as they are. */
  lemma {:induction false} EscapeDebugPlain(s: string)
    requires forall i :: 0 <= i < |s| ==> !NeedsEscape(s[i])
    ensures EscapeDebug(s) == s
  {
    if s != [] {
      EscapeDebugPlain(s[1..]);
    }
  }

  lemma DebugPiecesConcat(s: string)
    ensures Concat(DebugPieces(s)) == "\"" + EscapeDebug(s) + "\""
  {
    var middle := EscapedPieces(s, "");
    ConcatAppend(["\""] + middle, ["\""]);
    ConcatAppend(["\""], middle);
    EscapedPiecesConcat(s, "");
    assert Concat(["\""]) == "\"";
  }

  /** The pieces `Action::as_str` writes for each action. */
  function ActionPieces(a: DeclaredAction): seq<string>
  {
    match a
    case ShowNewSubtitles(s) => ["Subs "] + DebugPieces(s.subtitles)
    case ChangeColour(c) => ["Colour (", Decimal(c.r), "/", Decimal(c.g), "/", Decimal(c.b), ")"]
    case PlayAudio(f) => ["Audio "] + DebugPieces(f.fileName)
  }

  /** The full rendering of an action, before any truncation. */
  function Rendering(a: DeclaredAction): string
  {
    Concat(ActionPieces(a))
  }

  const AS_STR_CAPACITY: nat := 128

  type String128 = s: string | FitsIn(s, 128) witness ""

  /** `Action::as_str(buffer)`: the buffer is cleared, the rendering is
      written into it, and the text written is returned. Whatever the buffer
      held before does not survive; a rendering longer than the buffer is
      cut at a piece boundary. */
  function AsStr(a: DeclaredAction, buffer: String128): (r: String128)
    ensures exists k :: StopsAt("", ActionPieces(a), AS_STR_CAPACITY, k, r)
    ensures FitsIn(Rendering(a), AS_STR_CAPACITY) ==> r == Rendering(a)
  {
    var cleared := "";
    var r := WritePieces(cleared, ActionPieces(a), AS_STR_CAPACITY);
    assert cleared + Rendering(a) == Rendering(a);
    r
  }

  /** The result of `as_str` is always a prefix of the full rendering. */
  lemma AsStrIsPrefix(a: DeclaredAction, buffer: String128)
    ensures AsStr(a, buffer) <= Rendering(a)
  {
    var k: nat :| StopsAt("", ActionPieces(a), AS_STR_CAPACITY, k, AsStr(a, buffer));
    var pieces := ActionPieces(a);
    assert AsStr(a, buffer) == Concat(pieces[..k]);
    assert pieces == pieces[..k] + pieces[k..];
    ConcatAppend(pieces[..k], pieces[k..]);
  }

  /** A colour renders as `Colour (r/g/b)` with decimal components. */
  lemma AsStrColour(c: ColourRgb, buffer: String128)
    ensures AsStr(ChangeColour(c), buffer) ==
      "Colour (" + Decimal(c.r) + "/" + Decimal(c.g) + "/" + Decimal(c.b) + ")"
  {
    var pieces := ActionPieces(ChangeColour(c));
    ConcatSeven(pieces);
    var text := Rendering(ChangeColour(c));
    DecimalOfByteIsShort(c.r);
    DecimalOfByteIsShort(c.g);
    DecimalOfByteIsShort(c.b);
    assert |text| <= 20;
    Utf8LenBounds(text);
  }

  lemma ConcatSeven(p: seq<string>)
    requires |p| == 7
    ensures Concat(p) == p[0] + p[1] + p[2] + p[3] + p[4] + p[5] + p[6]
  {
    assert p[7..] == [];
    ConcatDrop(p, 6);
    ConcatDrop(p, 5);
    ConcatDrop(p, 4);
    ConcatDrop(p, 3);
    ConcatDrop(p, 2);
    ConcatDrop(p, 1);
    ConcatDrop(p, 0);
    assert p[0..] == p;
  }

  lemma DecimalOfByteIsShort(n: U8)
    ensures |Decimal(n)| <= 3
  {
    if n >= 10 {
      assert |Decimal(n)| == |Decimal(n / 10)| + 1;
      if n / 10 >= 10 {
        assert |Decimal(n / 10)| == |Decimal(n / 10 / 10)| + 1;
      }
    }
  }

  /** Subtitles whose text needs no escaping render as `Subs "text"`. */
  lemma AsStrPlainSubtitles(s: Subtitles, buffer: String128)
    requires forall i :: 0 <= i < |s.subtitles| ==> !NeedsEscape(s.subtitles[i])
    ensures AsStr(ShowNewSubtitles(s), buffer) == "Subs \"" + s.subtitles + "\""
  {
    QuotedPlainRendering("Subs ", s.subtitles);
    assert ActionPieces(ShowNewSubtitles(s)) == ["Subs "] + DebugPieces(s.subtitles);
  }

  /** An audio file whose name needs no escaping renders as `Audio "name"`. */
  lemma AsStrPlainAudio(f: AudioFile, buffer: String128)
    requires forall i :: 0 <= i < |f.fileName| ==> !NeedsEscape(f.fileName[i])
    ensures AsStr(PlayAudio(f), buffer) == "Audio \"" + f.fileName + "\""
  {
    QuotedPlainRendering("Audio ", f.fileName);
    assert ActionPieces(PlayAudio(f)) == ["Audio "] + DebugPieces(f.fileName);
  }

  /** A prefix followed by the quoted form of a string of at most 50 bytes
      that needs no escaping fits the buffer and is written in full. */
  lemma QuotedPlainRendering(prefix: string, text: String50)
    requires |prefix| <= 6 && forall i :: 0 <= i < |prefix| ==> prefix[i] as int < 0x80
    requires forall i :: 0 <= i < |text| ==> !NeedsEscape(text[i])
    ensures Concat([prefix] + DebugPieces(text)) == prefix + "\"" + text + "\""
    ensures FitsIn(prefix + "\"" + text + "\"", AS_STR_CAPACITY)
  {
    DebugPiecesConcat(text);
    EscapeDebugPlain(text);
    ConcatAppend([prefix], DebugPieces(text));
    assert Concat([prefix]) == prefix;
    Utf8LenBounds(prefix);
    Utf8LenConcat(prefix, "\"");
    Utf8LenConcat(prefix + "\"", text);
    Utf8LenConcat(prefix + "\"" + text, "\"");
  }
}
