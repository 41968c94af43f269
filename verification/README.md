# lamarrs in Dafny

lamarrs relays a live show to its audience's devices. A server keeps one
WebSocket connection per client. Each service (subtitles, colour, audio
playback, MIDI) keeps a table of the clients subscribed to it, and each
action is fanned out to the subscribers at one relative location (Left,
Center or Right) of the venue. A sequencer walks through the show's steps,
driven by a performer's button on a Pico W board.

This project models the deterministic core of that system as pure functions
over immutable data. Every send becomes an entry `Delivery(recipient, message)`
in an output log. Decoding of JSON and postcard payloads is abstract: a frame
arrives already decoded, or marked as undecodable. The iteration order of a
`HashMap` is a parameter that must list each key exactly once. Properties
about sends therefore hold for every order.

The modules follow the repository:

- `Wrappers`, `Strings` and `Channels` are shared vocabulary: options and
  results, UTF-8 byte lengths, bounded buffers, map iteration orders and
  send logs.
- `LamarrsUtils`, `Enums`, `ActionMessages`, `ExchangeMessages` and
  `MidiEvents` are the shared payload crate:
  - bounded-string payloads with their capacity checks;
  - `Display` names;
  - `Action::as_str`;
  - the MIDI range validator.
- `Services` is the newer generic service over a `Uuid → TargetClient`
  table, with the per-service action filter.
- `StreamerTable`, `TextStreamers` and `SoundStreamers` are the older
  subtitle, colour and MIDI streamers.
- `ClientHandler` is the newer per-connection state machine, with its
  two-strike heartbeat watchdog.
- `Subscribers` is the older per-connection actor.
- `Sequencer` is the show sequencer.
- `WebSocket` covers the Pico W client's WebSocket framing and masking,
  after sections 5.2 and 5.3 of RFC 6455. `Bytes` gives it bytes as the
  numbers 0 to 255: the source's bit tests (`& 0x80`, `& 0x7F`, `& 0x0F`)
  become comparisons and remainders, and XOR is defined bit by bit.
- `MidiService` is the desktop client's MIDI output. Its messages follow
  the channel voice message table of the MIDI 1.0 Detailed Specification.
- `GpioInput` is the Pico W push-button classifier.

## Model

| member | source | states |
|---|---|---|
| LamarrsUtils.LocationName | lamarrs-utils/src/enums.rs:105-120 | each location displays as its own name: "Left", "Center" or "Right", and only that location does |
| LamarrsUtils.NewClientIdAndLocation | lamarrs-utils/src/lib.rs:24-33 | the constructor stores id and location in field order |
| LamarrsUtils.NewColourRgb | lamarrs-utils/src/lib.rs:62-72 | the constructor stores red, green and blue in field order |
| LamarrsUtils.DeserializeBoundedStr | lamarrs-utils/src/lib.rs:94-107 | a bounded string deserialises exactly when the value is a string that can be borrowed from the input and whose UTF-8 length fits the capacity, to that same string; a non-string or a transient string fails with a type error, a string too long with a capacity error |
| LamarrsUtils.Lend | lamarrs-utils/src/lib.rs:94-107 | a string reaches the `&str` deserialiser unchanged; it can be borrowed when it came through postcard, or through JSON with no quotation mark, backslash or control character to unescape |
| LamarrsUtils.DeserializeSubtitles | lamarrs-utils/src/lib.rs:86-106 | subtitles deserialise exactly when the text is a borrowed string that fits 50 bytes of UTF-8 |
| LamarrsUtils.SubtitlesRoundTrip | lamarrs-utils/src/lib.rs:80-106 | serialised in postcard, or in JSON without an escape, subtitles deserialise back unchanged, and in JSON with an escape they fail with a type error; every value that deserialises is what postcard writes for the result |
| LamarrsUtils.QuotedSubtitleIsRefused | lamarrs-utils/src/lib.rs:99-101 | the subtitle `"` sent as JSON fails to deserialise with a type error |
| LamarrsUtils.DeserializeSubtitlesOwned | lamarrs-utils/src/lib.rs:99-101 | deserialising into an owned string first, as the comment there says, accepts every string that fits 50 bytes, borrowed or not, and keeps its text |
| LamarrsUtils.SubtitlesOwnedRoundTrip | lamarrs-utils/src/lib.rs:99-101 | with an owned string, subtitles round-trip through both formats |
| LamarrsUtils.DeserializeErrorDescription | lamarrs-utils/src/lib.rs:173-192 | an error description deserialises exactly when it is a borrowed string that fits 100 bytes of UTF-8 |
| LamarrsUtils.ErrorDescriptionRoundTrip | lamarrs-utils/src/lib.rs:168-193 | an error description round-trips through postcard, and through JSON exactly when it holds no escape; every value that deserialises is what postcard writes for the result |
| LamarrsUtils.DeserializeAudioFile | lamarrs-utils/src/lib.rs:133-153 | an audio file deserialises exactly when the name fits 50 bytes and the extension fits 4; otherwise it fails with a capacity error, and a malformed value fails with its own error |
| LamarrsUtils.AudioFileRoundTrip | lamarrs-utils/src/lib.rs:114-153 | an audio file round-trips through postcard, and through JSON exactly when neither field holds an escape; otherwise it fails with a type error |
| LamarrsUtils.FileNameWithExtension | lamarrs-utils/src/lib.rs:155-162 | the file name is the name, a dot and the extension, and it always fits the 55-byte buffer |
| LamarrsUtils.FileNameFits | lamarrs-utils/src/lib.rs:114-116 | at most 50 bytes of name, 1 dot and 4 bytes of extension always fit 55 bytes |
| MidiEvents.RangeCheck | lamarrs-utils/src/midi_event.rs:132-142 | passes exactly when the value lies in the closed range, and fails with the given error otherwise |
| MidiEvents.Check | lamarrs-utils/src/midi_event.rs:64-97 | accepts exactly the events whose fields are in MIDI range, and returns them unchanged; a NoteOn key is checked before its velocity, and a ControlChange controller before its value; each field reports its own error; the channel is never checked |
| Enums.ColorName | lamarrs-utils/src/enums.rs:179-188 | Red, Blue, White and Black display exactly as "red", "blue", "white" and "black", each name belonging to its colour alone |
| Enums.ServiceName | lamarrs-utils/src/enums.rs:161-168 | Subtitle and Color display exactly as "Subtitle" and "Color", each name belonging to its service alone |
| Enums.CloseConnectionReasonName | lamarrs-utils/src/enums.rs:145-153 | the three reasons display exactly as "Subscriber Request", "Gateway Request" and "Unexpected", each name belonging to its reason alone |
| Enums.GatewayErrorName | lamarrs-utils/src/enums.rs:65-72 | the gateway error displays exactly as "UnregisteredSubscriber" |
| Enums.DisplayNamesInjective | lamarrs-utils/src/enums.rs:111-188 | distinct variants of Color, RelativeLocation, Service and CloseConnectionReason display differently |
| ActionMessages.EscapeDebugChar | lamarrs-utils/src/action_messages.rs:34-46 | a character that `Debug` does not keep as itself is written as an escape starting with a backslash |
| ActionMessages.ActionName | lamarrs-utils/src/action_messages.rs:22-28 | each action displays exactly as its variant name ("ShowNewSubtitles", "ChangeColour", "PlayAudio", "Midi"), and that name belongs to it alone |
| ExchangeMessages.EventName | lamarrs-utils/src/action_messages.rs:11-18 | each event displays exactly as its variant name ("Register", "SuscribeToService" as spelled, "UnsubscribeFromService", "UpdateLocation", "PerformAction"), and that name belongs to it alone |
| ExchangeMessages.ExchangeMessageName | lamarrs-utils/src/exchange_messages.rs:14-21 | each exchange message displays exactly as its variant name, from "Ack" to "Scene", and that name belongs to it alone |
| ActionMessages.EscapeDebugPlain | lamarrs-utils/src/action_messages.rs:34-46 | text with no quote, backslash or control character is written by `Debug` unchanged |
| ActionMessages.DebugPiecesConcat | lamarrs-utils/src/action_messages.rs:34-46 | the `Debug` rendering of a string is the escaped text between double quotes |
| ActionMessages.AsStr | lamarrs-utils/src/action_messages.rs:31-49 | the buffer is cleared first; the result is the rendering's pieces written whole, in order, up to the first piece that would take the text past 128 bytes (the longest run of whole pieces that fits, by Strings.StopsAtIsUnique); when the rendering fits 128 bytes the result is all of it |
| ActionMessages.AsStrIsPrefix | lamarrs-utils/src/action_messages.rs:31-49 | whatever fits in the buffer is a prefix of the full rendering |
| ActionMessages.AsStrColour | lamarrs-utils/src/action_messages.rs:37-43 | a colour renders as "Colour (r/g/b)" with decimal components |
| ActionMessages.AsStrPlainSubtitles | lamarrs-utils/src/action_messages.rs:34-36 | subtitles render as "Subs " followed by the quoted text |
| ActionMessages.AsStrPlainAudio | lamarrs-utils/src/action_messages.rs:44-46 | an audio file renders as "Audio " followed by the quoted file name |
| Services.EachActionHasOneService | server/src/services/service.rs:36-155 | every action is allowed by exactly one service: subtitles by the subtitle service, colours by the colour service, audio by the playback service, MIDI by the MIDI service |
| Services.NewService | server/src/services/service.rs:17-24 | every service starts with an empty target table |
| Services.ServiceName | server/src/services/service.rs:28-148 | the four `Display` impls (lines 28-31, 66-69, 105-108 and 145-148) display the services exactly as "SubtitlesService" (plural), "ColourService", "PlaybackService" and "MidiService", each name belonging to its service alone |
| Services.UpdateTargetClient | server/src/services/mod.rs:115-142 | a known client gets the new sender and keeps its stored location, and is acknowledged with UpdatedSubscription on the new sender; an unknown client gives ClientNotFound; no other entry changes and no key is added |
| Services.InsertTargetClient | server/src/services/mod.rs:146-187 | an absent client is added with the given sender and location and acknowledged with Success on that sender; a present one leaves the table as it was, gets AlreadySubscribed on its stored sender, and gives ClientAlreadySubscribed |
| Services.RemoveTargetClient | server/src/services/mod.rs:190-212 | exactly the client's key is removed, and every other entry stays; removal succeeds exactly when the client was present, and gives ClientNotFound otherwise |
| Services.LocationSelectsIsEquality | server/src/services/mod.rs:232-248 | a target is selected exactly when its stored location equals the requested one, `None` selecting the targets with no location |
| Services.WriteToTargetClients | server/src/services/mod.rs:214-257 | a disallowed action gives NotAllowedMessageType and sends nothing; an allowed one sends one Scene carrying the action to every target at the location and to no one else; the table never changes |
| Services.Step | server/src/services/mod.rs:69-104 | AddTargetClient goes to insertion, UpdateClientData to update, RemoveTargetClient to removal and PerformAction to the fan-out, each with the message's own fields; a PerformAction never changes the table, and the others touch at most the named client's key |
| Services.Logged | server/src/services/mod.rs:106-108 | a failing handler's own error is logged, once, and a success logs nothing |
| Services.RunConcat | server/src/services/mod.rs:69-111 | the service loop carries on after errors: running two batches of messages is running the first and then the second from where it left off, with sends and logged errors joined |
| Services.FailedStepKeepsTable | server/src/services/mod.rs:115-212 | a message that fails leaves the table as it was |
| Services.InsertThenRemove | server/src/services/mod.rs:146-212 | inserting an absent client and then removing it restores the table |
| Services.UpdateKeepsLocation | server/src/services/mod.rs:128-136 | an update never moves a client: whatever location it reports, it is selected at exactly the locations it was selected at before |
| StreamerTable.Subscribe | server/src/services/text_streamers.rs:50-68 | a new id is inserted with its sender and location and is answered Success; an existing id keeps its entry and is answered AlreadySubscribed; no other entry changes |
| StreamerTable.UpdateSubscription | server/src/services/text_streamers.rs:70-87 | an existing id gets the new sender and location and is answered UpdatedSubscription; an absent id leaves the table unchanged and is answered NotSubscribed |
| StreamerTable.SendersByLocation | server/src/services/text_streamers.rs:95-110 | the senders returned are exactly those of the entries at the location, one per entry |
| StreamerTable.Send | server/src/services/text_streamers.rs:89-93 | the message is delivered once to every entry at the location and to no one else |
| StreamerTable.SubscribeTwice | server/src/services/text_streamers.rs:57-67 | subscribing the same id twice leaves the first entry, and the second request is answered AlreadySubscribed |
| StreamerTable.SubscribeThenUpdate | server/src/services/text_streamers.rs:50-87 | an update after a subscribe replaces the subscriber's sender and location |
| TextStreamers.SubtitleStep | server/src/services/text_streamers.rs:112-135 | Subscribe, UpdateSubscription and SendSubtitle each reach their own handler; sending leaves the table unchanged |
| TextStreamers.ColorSubscribe | server/src/services/text_streamers.rs:154-173 | the colour streamer's subscribe inserts and replies as the subtitle one does, then sends Blue once to every Center subscriber |
| TextStreamers.ColorStep | server/src/services/text_streamers.rs:217-237 | both Subscribe and UpdateSubscription reach subscribe; SendColor delivers the colour once to everyone at the location |
| TextStreamers.ColorUpdateKeepsOldEntry | server/src/services/text_streamers.rs:226-229 | an update sent to the colour streamer for an existing subscriber keeps its old entry and is answered AlreadySubscribed, where the subtitle streamer would update it |
| SoundStreamers.MidiStep | server/src/services/sound_streamers.rs:110-133 | Subscribe, UpdateSubscription and SendMidi each reach their own handler; SendMidi delivers the event once to everyone at the location and leaves the table unchanged |
| SoundStreamers.MidiDeliveryCount | server/src/services/sound_streamers.rs:87-108 | there are as many deliveries as subscribers at the location |
| SoundStreamers.MidiReachesEveryoneThere | server/src/services/sound_streamers.rs:87-108 | every subscriber at the location receives the event |
| SoundStreamers.MidiReachesNoOneElse | server/src/services/sound_streamers.rs:87-108 | every delivery goes to a subscriber at the location |
| ClientHandler.NewClient | server/src/client_handler.rs:74-96 | a new connection is unregistered, with the watchdog clear and the Binary wire format |
| ClientHandler.ServiceForIsBijective | server/src/client_handler.rs:411-441 | each named service maps to its own service task, and every service task is named by one service |
| ClientHandler.ToAllServices | server/src/client_handler.rs:296-329 | a fan-out sends the event once to each of the four services |
| ClientHandler.OnUnregistered | server/src/client_handler.rs:291-349 | Register records the id, sends UpdateClientData to all four services and then queues Ack Success on the handler's inbox; HeartbeatAck clears the watchdog; anything else queues Nack NotSubscribed, fails with UnregisteredSubscriber and leaves the client unregistered |
| ClientHandler.SubscribeToService | server/src/client_handler.rs:411-426 | Subscribe sends AddTargetClient to exactly the named service |
| ClientHandler.UnsubscribeFromService | server/src/client_handler.rs:429-441 | Unsubscribe sends RemoveTargetClient to exactly the named service |
| ClientHandler.UpdateLocation | server/src/client_handler.rs:444-461 | UpdateLocation sends UpdateClientData to exactly the subtitle and colour services, once each (two sends in all) |
| ClientHandler.OnSubscriber | server/src/client_handler.rs:354-408 | a registered client keeps its id and wire; SuscribeToService, UnsubscribeFromService and UpdateLocation give exactly the sends of their helpers and pass; HeartbeatAck clears the watchdog; scene messages go to the sequencer; every other message queues Nack Failed and fails, and exactly those fail |
| ClientHandler.TryErrorDescription | lamarrs-utils/src/lib.rs:168-193 | a string becomes an error description exactly when it fits 100 bytes |
| ClientHandler.MalformedPayloadFits | server/src/client_handler.rs:218-225 | the malformed-payload notice fits an error description, so `try_from` never takes its error arm |
| ClientHandler.MalformedNotice | server/src/client_handler.rs:210-229 | an undecodable text frame queues one Error carrying the malformed-payload notice on the handler's own inbox |
| ClientHandler.OnDecoded | server/src/client_handler.rs:231-241 | a decoded message from an unregistered client goes to OnUnregistered with the frame's wire format adopted; from a registered client it goes to OnSubscriber, and the wire stays as it was |
| ClientHandler.HandleWsMessage | server/src/client_handler.rs:201-283 | a decoded text or binary frame is handled by OnDecoded with that frame's wire format; an unregistered client adopts the wire format of each decodable frame; a registered client keeps its id and wire; an undecodable text frame queues the notice on the handler's own inbox and fails, an undecodable binary frame fails, close and end of stream lose the connection, a transport error ends with WsError, other frames are ignored |
| ClientHandler.OnWatchdogTimeout | server/src/client_handler.rs:124-149 | the first timeout sends a Heartbeat in the client's wire format and sets the flag; a timeout with the flag set removes a registered client from all four services and ends with ConnectionLost |
| ClientHandler.ClientStep | server/src/client_handler.rs:124-169 | a WebSocket frame goes to HandleWsMessage and a watchdog timeout to OnWatchdogTimeout; an inbox message is relayed to the peer in the current wire format; a registered client never changes id or wire |
| ClientHandler.ClientRunStopsAtError | server/src/client_handler.rs:109-169 | the connection's loop stops at the first error |
| ClientHandler.FailingInputTellsClientNothing | server/src/client_handler.rs:118-168 | an input whose handling fails ends the run with its error, and nothing it queued on the handler's inbox (an Error or a Nack) reaches the client, since the relay branch never runs again |
| ClientHandler.MalformedTextNeverReachesClient | server/src/client_handler.rs:118-228 | an undecodable text frame ends the run with UnrecognizableMessage, and the malformed-payload notice never goes out to the client |
| ClientHandler.ClientRunConcat | server/src/client_handler.rs:109-169 | running two batches of inputs is running the first and continuing from its state |
| ClientHandler.RegisteredStaysRegistered | server/src/client_handler.rs:354-408 | once registered, no sequence of inputs changes the id, the wire format or the sender |
| ClientHandler.TwoSilentPeriodsEndTheConnection | server/src/client_handler.rs:124-149 | two watchdog periods without a reply end the connection with ConnectionLost |
| ClientHandler.HeartbeatReplyKeepsConnection | server/src/client_handler.rs:124-149 | a HeartbeatAck between two watchdog periods keeps the connection open |
| ClientHandler.RegisterThenSubscribe | server/src/client_handler.rs:296-426 | a new client that registers and subscribes is acknowledged and reaches exactly the named service |
| ClientHandler.SceneRequestReachesSequencer | server/src/client_handler.rs:387-394 | a registered client's NextScene or RetriggerScene, text or binary, is passed to the sequencer and nothing else, and the connection goes on |
| ClientHandler.UnregisteredRequestIsRefused | server/src/client_handler.rs:336-347 | before registering, any request but Register queues Nack NotSubscribed and ends the run with UnregisteredSubscriber naming "Request", the client still unregistered |
| Subscribers.NewSubscriberId | server/src/subscriber.rs:43-49 | the identity stores its arguments as given |
| Subscribers.Unregistered | server/src/subscriber.rs:51-56 | a subscriber is registered exactly when it has both a UUID and a location |
| Subscribers.SubscriberIdText | server/src/subscriber.rs:59-74 | the display is parenthesised, starts with "(id:" exactly when the UUID is known, and ends with the address |
| Subscribers.SubscriberIdTextForms | server/src/subscriber.rs:62-72 | the three display forms: unregistered, id with unknown location, id with location |
| Subscribers.NewSubscriber | server/src/subscriber.rs:88-104 | a new subscriber has no UUID and no location |
| Subscribers.ProcessPayload | server/src/subscriber.rs:199-254 | unregistered, Register records UUID and location and replies RegisterResult Success, and anything else replies Error UnregisteredSubscriber with nothing changed; registered, Subscribe goes with the stored details to exactly the streamer of the service; every other case panics |
| Subscribers.ResetInbox | server/src/subscriber.rs:270-290 | the new sender replaces the old, and UpdateSubscription with it goes to both streamers; before registration the unwrap panics |
| Subscribers.RegistrationIsFinal | server/src/subscriber.rs:222-251 | once registered, no payload changes the identity |
| Subscribers.RegisterRegisters | server/src/subscriber.rs:200-220 | an unregistered subscriber becomes registered exactly when it sends Register |
| Subscribers.NewSubscriberRegisters | server/src/test/mod.rs:60-72 | a new peer that registers is answered RegisterResult Success |
| Subscribers.SubscribeBeforeRegisterIsRefused | server/src/test/mod.rs:75-88 | a new peer that subscribes first is answered Error UnregisteredSubscriber and stays unregistered |
| Subscribers.RegisterThenSubscribeToSubtitles | server/src/test/mod.rs:92-111 | registering and subscribing to subtitles is answered SubscribeResult Success and records the peer at its location |
| Sequencer.Start | server/src/sequencer/mod.rs:30-47 | the sequencer starts with the whole show queued and nothing played |
| Sequencer.Dispatch | server/src/sequencer/mod.rs:128-160 | each action goes to the one service that allows it, never MIDI, with the target location unchanged |
| Sequencer.DispatchAll | server/src/sequencer/mod.rs:98-110 | steps are dispatched one by one, in order |
| Sequencer.PlayChain | server/src/sequencer/mod.rs:92-114 | the loop corrected as in the Findings row (the loop as written is Sequencer.PlayChainAsWritten): one NextScene plays its step and then each following step while the previous one is timed; the steps played and the rest of the queue make up the queue in order; the chain ends at an untimed step or at the end of the queue |
| Sequencer.PlayChainUpToUntimed | server/src/sequencer/mod.rs:98-110 | the chain is every step up to and including the first untimed one |
| Sequencer.SequencerStep | server/src/sequencer/mod.rs:87-126 | with the corrected chain Sequencer.PlayChain in place of the loop as written: NextScene on an empty queue does nothing; otherwise it records the front step and plays a prefix of the queue in order, starting with that step; RetriggerScene replays the recorded step, if any; other messages are discarded |
| Sequencer.UntimedStepPlaysOnce | server/src/sequencer/mod.rs:98-110 | an untimed front step is dispatched exactly once, alone |
| Sequencer.NextScenePlaysUpToUntimed | server/src/sequencer/mod.rs:98-110 | timed steps run on in order up to the first untimed one, which is played last |
| Sequencer.RetriggerReplaysTriggeredStep | server/src/sequencer/mod.rs:93-121 | after NextScene, RetriggerScene replays the step triggered by hand, not the last step of its chain |
| Sequencer.PlayChainAsWritten | server/src/sequencer/mod.rs:98-107 | the loop as written, bounded by fuel: when it finishes, the last step dispatched is untimed |
| Sequencer.TimedLastStepRepeatsForever | server/src/sequencer/mod.rs:98-107 | when the queue runs out under a timed step, the loop as written never ends and dispatches that same step on every turn |
| Sequencer.TimedLastStepCounterexample | server/src/sequencer/mod.rs:98-107 | a show ending in a timed step never leaves the loop as written |
| Sequencer.AsWrittenAgreesWhenUntimedFollows | server/src/sequencer/mod.rs:98-110 | when an untimed step follows, the loop as written ends and plays the same chain as the corrected one |
| Bytes.TopBitAndLow7 | rp-client/src/websocket_handler.rs:132-136 | a length below 128, with or without the mask bit set, is read back as the same mask bit and length |
| Bytes.XorTwice | rp-client/src/websocket_handler.rs:149-153 | XOR with the same byte twice gives back the byte |
| WebSocket.Mask | rp-client/src/websocket_handler.rs:149-153 | masking keeps the length |
| WebSocket.MaskInvolution | rp-client/src/websocket_handler.rs:222-226 | unmasking with the same key restores the payload |
| WebSocket.MaskConcat | rp-client/src/websocket_handler.rs:149-153 | masking works piecewise on any whole number of 4-byte blocks |
| WebSocket.SendFrame | rp-client/src/websocket_handler.rs:114-159 | a payload over 125 bytes is refused with FrameTooLarge; otherwise the frame is 6 header bytes and the payload: 0x82, the mask bit with the length, the key, and the masked payload, which unmasks to the payload |
| WebSocket.SendFrameIsEncodeFrame | rp-client/src/websocket_handler.rs:114-159 | the frame sent is the RFC 6455 masked binary frame of the payload |
| WebSocket.ParseHeader | rp-client/src/websocket_handler.rs:167-197 | a frame that is not a final binary frame is refused with InvalidResponse, and a 64-bit length with FrameTooLarge |
| WebSocket.ParseLength | rp-client/src/websocket_handler.rs:184-197 | only the 64-bit length marker 127 is refused |
| WebSocket.RecvFrame | rp-client/src/websocket_handler.rs:164-229 | header errors are passed on; an accepted payload fits the caller's buffer |
| WebSocket.RecvEncodeFrame | rp-client/src/websocket_handler.rs:164-229 | any RFC 6455 binary frame, masked or not, with a short or 16-bit length, is read back as its payload, leaving what follows it |
| WebSocket.RecvSendFrame | rp-client/src/websocket_handler.rs:114-229 | what the client sends, it reads back |
| WebSocket.RecvRefusesOtherFrames | rp-client/src/websocket_handler.rs:174-181 | a frame without FIN, or with an opcode other than binary, is refused with InvalidResponse |
| WebSocket.RecvRefusesLongLength | rp-client/src/websocket_handler.rs:194-197 | a 64-bit length is refused with FrameTooLarge |
| WebSocket.RecvRefusesOversizePayload | rp-client/src/websocket_handler.rs:211-213 | a payload longer than the caller's buffer is refused with FrameTooLarge |
| WebSocket.CheckHandshake | rp-client/src/websocket_handler.rs:84-107 | a response that is not UTF-8 is an InvalidResponse; the handshake passes exactly when the response holds "101 Switching Protocols" and the expected accept value, and fails with HandshakeFailed otherwise |
| WebSocket.UpgradeRequestCarriesKey | rp-client/src/websocket_handler.rs:59-70 | the upgrade request carries the client's key |
| MidiService.StatusByte | client/src/services/midi.rs:141-149 | the high nibble is the message kind, and the low nibble is the one-based channel minus one |
| MidiService.Encode | client/src/services/midi.rs:140-163 | a Program Change is 2 bytes and a Control Change 3, starting with the status byte, with every data byte at most 0x7F; anything else is unimplemented |
| MidiService.DecodeEncode | client/src/services/midi.rs:140-163 | reading the bytes back gives the message and the channel |
| MidiService.Clamp | client/src/services/midi.rs:173-186 | controller, value and program bytes above 127 become 127, and smaller ones are kept |
| MidiService.ProgramChangeMessage | client/src/services/midi.rs:173-178 | a Program Change carries the clamped program |
| MidiService.ControlChangeMessage | client/src/services/midi.rs:180-186 | a Control Change carries the clamped controller and value |
| MidiService.BankSelect | client/src/services/midi.rs:188-192 | bank select is controller 0 with the MSB, then controller 32 with the LSB |
| MidiService.PresetChange | client/src/services/midi.rs:165-171 | a preset is controller 0 set to 0, controller 32 set to the bank, then the program within the bank |
| MidiService.PresetChangeSelectsPreset | client/src/services/midi.rs:165-171 | for presets below 16384, the bank and program select exactly the requested preset |
| MidiService.HighPresetIsNotSelected | client/src/services/midi.rs:165-171 | for higher presets, the bank is cut or clamped and another preset is selected |
| MidiService.EncodeAll | client/src/services/midi.rs:140-171 | a series of messages is written one write per message, and fails exactly when one of them cannot be encoded |
| MidiService.SelectPort | client/src/services/midi.rs:78-94 | no port gives NoMidiOutputAvailable; otherwise the first port whose name contains the requested name is chosen; if none does, the result is the Service error |
| MidiService.FirstMatch | client/src/services/midi.rs:81-93 | the first index whose name contains the requested name |
| MidiService.SelectPortIsFirstMatch | client/src/services/midi.rs:78-94 | the selection agrees with the first match |
| MidiService.Connected | client/src/services/midi.rs:86-92 | the default channel is 1 when none is given |
| MidiService.MidiRunStep | client/src/services/midi.rs:102-137 | on connection the service subscribes to MIDI with the server; a MIDI instruction's one-based preset is selected as the zero-based preset, in three writes; Config is unimplemented; any other message ends the service with a Service error |
| MidiService.PresetRequestBytes | client/src/services/midi.rs:106-110 | a request for preset p, on channel c, writes B0+c-1 0 0, then B0+c-1 32 (p-1)/128, then C0+c-1 (p-1) mod 128 |
| GpioInput.ClassifyIsMonotone | rp-client/src/async_gpio_input_handler.rs:30-37 | any press no longer than a short press is short, and any press no shorter than a long press is long |
| GpioInput.ClassifyBoundary | rp-client/src/async_gpio_input_handler.rs:31-36 | 0 ms and 1500 ms presses are NextTrigger, and 1501 ms is Retrigger |
| GpioInput.InputHandler | rp-client/src/async_gpio_input_handler.rs:20-40 | the handler sends one classified event for each press that is both started and released, in order |
| GpioInput.ReleasedSendsNothing | rp-client/src/async_gpio_input_handler.rs:21 | while the button is up, nothing is sent |
| GpioInput.HoldingSendsNothing | rp-client/src/async_gpio_input_handler.rs:25 | while the button is held, nothing is sent |
| GpioInput.OnePressOneEvent | rp-client/src/async_gpio_input_handler.rs:21-39 | each press sends exactly one event, classified by how long the button was down |
| Strings.Contains | client/src/services/midi.rs:83 | substring search finds exactly the positions where the text occurs |
| Strings.WritePieces | lamarrs-utils/src/action_messages.rs:31-49 | writing into a bounded buffer keeps it within capacity; the pieces before the stop are written whole and in order, the piece at the stop would not fit, and everything is written when it all fits |
| Strings.StopsAtIsUnique | lamarrs-utils/src/action_messages.rs:31-49 | two writes that both fit and both stop before a piece that would not fit stop at the same piece, so the stop `WritePieces` promises is the longest run of whole pieces that fits |
| Channels.FilterKeys | server/src/services/text_streamers.rs:95-110 | filtering keeps exactly the keys whose entry satisfies the predicate |
| Channels.SentOnceToEachMeans | server/src/services/text_streamers.rs:89-93 | a send log for a set of keys reaches each of them, and nothing else |

## Left out

- Sockets, TCP reads and writes, task spawning and timers are not modelled. A watchdog period is an input event. Delays (the 10 ms bank-select pause, step durations, the 5-hour watchdog) are not modelled.
- JSON, postcard, YAML and humantime encodings are not modelled beyond whether a string can be borrowed from the input. A payload arrives decoded or marked undecodable, and a failure to encode is not modelled.
- LamarrsUtils.DeserializeAudioFile: the struct's fields are a map, so their order in the input is lost. The derived deserialiser reads the fields in input order and reports the first mistyped field (or a duplicate one) before any missing field; the model checks for a missing `file_name`, then a missing `file_extension`, and only then the types, so `{"file_extension": 5}` gives MissingField here where the source gives InvalidType. Which values are accepted, and what they give, is the same.
- ClientHandler.HandleWsMessage: a text frame is decoded before it reaches the model, so the refusal of escaped strings in the finding below shows there as an undecodable frame.
- `mpsc` channel capacity and `SendError` paths are not modelled: every send succeeds and is logged.
- `HashMap` iteration order is a parameter that lists each key once; properties hold for every order.
- The SHA-1 and Base64 accept value, and the random keys and masks, of the WebSocket client are parameters, because they come from foreign crates.
- WebSocket.RecvFrame: a read is taken to return all bytes available up to the request, and a short buffer is zero-padded. Timing-dependent short reads and read errors are not modelled.
- WebSocket.UpgradeRequest: the request's fit in the 512-byte buffer is not proved.
- MidiService.SelectPort: errors from the MIDI library (initialisation, port names, connection) are not modelled, because they come from a foreign crate.
- MidiService.StatusByte: a default channel of 0 wraps to the last channel, as an optimised build does; a debug build panics instead.
- MidiService.Encode: the bytes are returned rather than sent; send errors from the port are not modelled.
- ActionMessages.DebugPieces: each escape is handed to the buffer as one piece, as the `Debug` of `str` does in current Rust; a toolchain that writes escapes one character at a time would cut a long rendering at a different place.
- ActionMessages.EscapeDebugChar: escapes beyond quotes, backslashes and the common control characters (Unicode `\u{…}` escapes of non-printable characters) are not modelled exactly.
- GpioInput.InputHandler: the LED on the board is not modelled, and the clock is read in whole milliseconds.
- Services.Run: the unreachable catch-all arm of the service loop is not modelled.
- Arithmetic overflow panics in debug builds are not modelled.
- Loading the show from YAML is not modelled; a show is given as a `Sequence` value.
- The playback service, the server handler loops of the clients, the MQTT glue, the web UI and the display code are outside this model.

## Findings

| source | as written | input that shows it | evidently intended | confidence | as-written member | corrected member |
|---|---|---|---|---|---|---|
| server/src/sequencer/mod.rs:98-107 | while the current step has a duration it is dispatched and the next one is popped; when the queue is empty the current step is kept, so the loop dispatches it again forever | a show whose last step has a duration, e.g. one step "end" with `duration: 5s`, then NextScene | the chain ends when the queue runs out, each step played once | not executed | Sequencer.TimedLastStepRepeatsForever | Sequencer.PlayChain |
| lamarrs-utils/src/lib.rs:99-101 | the text is deserialised as `&str`, which serde_json can only supply for a JSON string with no escape sequence | a subtitle `say "hi"` relayed to a client on the JSON text wire as `{"Scene":{"PerformAction":{"ShowNewSubtitles":"say \"hi\""}}}` is refused with a type error; in the model, `Subtitles("\"")` serialised as JSON | deserialise into an owned string first, as the comment on the line above says, so that any text of at most 50 bytes is accepted | not executed | LamarrsUtils.QuotedSubtitleIsRefused | LamarrsUtils.DeserializeSubtitlesOwned |
