# UniMixTouchMax core, modelled and verified in Dafny

UniMixTouchMax is ESP32 firmware for a touchscreen that mirrors a PC's per-application audio mixer. A companion process on the PC is the only peer. The two talk in JSON messages carried in binary frames over a serial link. The firmware keeps the audio sessions in memory, lets the user select devices and change volume and mute per tab, and passes every state change through a bounded queue to the single LVGL rendering thread. Logos for the applications are fetched from the host by request id, with timeouts, and kept on the SD card.

This project models the sequential logic of that firmware and proves what it promises. One Dafny module stands for each part of the source:

- `BinaryProtocol`, `BinaryFramer`: the serial framing codec. It covers CRC-16/MODBUS, the little-endian header fields, payload escaping and the frame layout. The byte-at-a-time receive state machine is a pure `Step` function, and the `Framer` class with its fields and counters is proved against it. Encoding is proved to round-trip through the decoder.
- `MessageTypes`, `MessageData`: the external message type registry, the category and priority tables, the parser, the serializer, the loop filter and the conversion between external and internal messages.
- `Messages`: the serial engine's `Message` struct, its factories, and `toJson`/`fromJson` together with their round trip.
- `Json`: the ArduinoJson document as a value, with the conversions `as<String>()`, `as<int>()` and `as<bool>()` as ArduinoJson 7 performs them. A missing member reads as the text "null", and a numeric string reads as its number, so `{"messageType":"2"}` parses as `GET_STATUS`.
- `AudioData`, `AudioManagement`: the audio status map keyed by process name and the per-tab selection slots, kept as keys into that map. The `AudioManager` class covers status snapshots, selection, auto-selection, clamped volume, mute and the ordered change notifications.
- `LogoSupplier`: the logo request tracker. At most two requests are in flight, the rest wait in a FIFO queue. Timeouts use 32-bit millisecond arithmetic. While the request mutex can be taken, every request ends in at most one callback. A low-memory rejection returns without releasing the mutex, and the model records that (see "## Findings"). Successful responses are base64-decoded within a 100000-byte cap and their logo saves are deferred to later updates, one per update.
- `UiQueue`: the LVGL message queue. Posting never blocks, each tick drains a number of messages that depends on the queue's length, and the queue is purged near overflow.
- `FileExplorer`: the SD file explorer. It covers listing and sorting, navigation with a bounded history, folder-name validation, and the logo-file labels.
- `LogoBinaryStorage`, `SimpleLogos`, `Base64`, `LogoMatching`: logo file naming, the simple logo manager (card scan, paging, request timeouts), its base64 decoder, and process-name matching with the pattern-list edits.
- `DeviceSelectors`: the dropdown-backed device selections and the rule that keeps the two balance selections different.
- `Hash`, `BuildInfo`, `OTA`: FNV-1a hashing and the change-detecting `Hashable`, the build date and time derived from `__DATE__`/`__TIME__`, and the OTA download arithmetic and state flags.
- `Wrappers`, `Bits`, `Text`, `StringOrder`: shared support. They hold `Option`/`Result`, bitwise operations on bounded integers, the Arduino `String` operations, and the key order of `std::map<String, …>`.

Code that changes state step by step is modelled as classes and methods with loops, and each is proved against a specification function. Pure code is modelled as functions and lemmas. The clock, the free heap, the SD card's answers, the message bus and callbacks are parameters or recorded sequences.

Where the specification and the code disagree, the model follows the code:
- Audio snapshots replace the status map wholesale. The code has no stale-entry grace period and merges nothing.
- Volumes are whole percentages.
- `AudioManager.cpp` names the selection fields `primaryAudioDevice`, `selectedSingleDevice` and `selectedDevice1/2`. These names are followed, not the older names in `AudioData.h`.

## Model

| member | source | states |
|---|---|---|
| AudioData.AddOrUpdateDevice | src/application/AudioData.h:68-70 | the device is stored under its process name, every other entry and the default device are kept, and a keyed map stays keyed |
| AudioData.RemoveDevice | src/application/AudioData.h:72-74 | exactly the entry of that name is removed, the others are kept |
| AudioData.AddThenRemove | src/application/AudioData.h:68-74 | removing a device just added under a new name gives the status back |
| AudioData.LevelsMapKeys | src/application/AudioData.h:90-95 | the map built from a list of levels has exactly their names as keys, at most one entry per level, each stored under its own name |
| AudioData.LevelsMapLastWins | src/application/AudioData.h:90-95 | when a name repeats, the last level with that name is the one stored |
| AudioData.SetAudioLevels | src/application/AudioData.h:90-95 | the loop leaves the map built from the levels and changes nothing else |
| AudioData.CurrentSelection | src/application/AudioData.h:150-172 | Single reads its own slot (the fourth slot of `audio/AudioManager.cpp`, see "## Left out"), Balance the first balance slot, every other tab the primary slot; with no dangling slot the result is a live device |
| AudioData.CurrentSelectedVolume | src/application/AudioData.h:188-203 | the selected device's volume, else the default device's in Master, else 0 |
| AudioData.IsCurrentDeviceMuted | src/application/AudioData.h:205-217 | the selected device's mute, else the default device's in Master, else false |
| AudioData.CurrentSelectedDeviceName | src/application/AudioData.h:174-186 | the selected process name, else in Master the default device's friendly name or "Default Device" when it is empty, else "" |
| AudioData.SelectedQueriesAgree | src/application/AudioData.h:150-217 | with a live device selected, the three queries all report that device |
| AudioData.ValidateSlot | src/application/AudioData.h:238-244 | a slot is kept exactly when its entry exists and finding the entry by its own name gives the same entry, otherwise it is cleared |
| AudioData.ValidateDeviceSelections | src/application/AudioData.h:224-229 | afterwards none of the four slots dangles, and nothing but the slots changes |
| AudioData.ValidateKeepsLiveSlots | src/application/AudioData.h:224-244 | validation changes nothing when no slot dangles, and is idempotent |
| AudioData.FindDevice | src/application/AudioData.h:54-62 | found exactly when the name is a key, and then it designates that entry |
| AudioManagement.Clamp | src/application/audio/AudioManager.cpp:287 | the volume is kept in 0..100, unchanged inside that range and pinned to the nearer bound outside |
| AudioManagement.Fanout | src/application/audio/AudioManager.cpp:572-576 | the event is handed to every callback once, in subscription order |
| AudioManagement.BestDeviceIsKey | src/application/audio/AudioManager.cpp:682-696 | on a keyed map the chosen device is one of its entries, and a non-stale one whenever one exists |
| AudioManagement.FindBestDeviceToSelect | src/application/audio/AudioManager.cpp:682-696 | the single pass returns the first non-stale entry in map order, else the first entry, else "" for an empty map |
| AudioManagement.Resolve | src/application/audio/AudioManager.cpp:729-767 | a slot is found again exactly when its old name is non-empty and still in the new map |
| AudioManagement.Refreshed | src/application/audio/AudioManager.cpp:96-110 | after the map is replaced and the slots re-resolved, no slot dangles and the status carries the new timestamp |
| AudioManagement.RefreshKeepsNames | src/application/audio/AudioManager.cpp:96-110 | a selection survives the replacement of the map exactly when its name is still in the new map |
| AudioManagement.VolumeSet | src/application/audio/AudioManager.cpp:283-327 | a named session takes the volume, is created when unknown and is stamped fresh; an empty name sets the default device; nothing else changes |
| AudioManagement.VolumeSetKeepsSlots | src/application/audio/AudioManager.cpp:283-327 | setting a volume leaves every selection slot live |
| AudioManagement.MuteSet | src/application/audio/AudioManager.cpp:351-409 | the found session, or the default device for an empty name, takes the mute flag and nothing else changes |
| AudioManagement.MuteUnmuteRestores | src/application/audio/AudioManager.cpp:351-409 | muting and then restoring the previous flag gives the status back |
| AudioManagement.Filled | src/application/audio/AudioManager.cpp:578-632 | a set slot is left alone, a null one takes the best device when it names an entry |
| AudioManagement.FilledFills | src/application/audio/AudioManager.cpp:578-632 | on a non-empty keyed map a null slot is always filled |
| AudioManagement.AutoSelected | src/application/audio/AudioManager.cpp:578-632 | only the Single slot in the Single tab and the balance slots in the Balance tab can change, set slots are kept, and no slot starts to dangle |
| AudioManagement.AutoSelectFillsTab | src/application/audio/AudioManager.cpp:578-632 | on a non-empty keyed map the working slots of the Single or Balance tab end up set, so the selection is valid |
| AudioManagement.FanoutSelections | src/application/audio/AudioManager.cpp:572-576 | a fan-out of selectionChanged adds only selection events |
| AudioManagement.EnsuredValid | src/application/audio/AudioManager.cpp:702-727 | every slot is validated, then the single and both balance slots are filled when null; no slot dangles and nothing else changes |
| AudioManagement.EnsuredValidKeepsAndFills | src/application/audio/AudioManager.cpp:702-727 | on a keyed map every live slot is kept, and on a non-empty one no working slot is left null |
| AudioManagement.AllStale | src/application/audio/AudioManager.cpp:634-641 | every entry is flagged stale and nothing else changes |
| AudioManagement.AllStaleBestIsFirst | src/application/audio/AudioManager.cpp:634-696 | once everything is stale, the best device is the first entry in map order |
| AudioManagement.UpdatedFromStatus | src/application/audio/AudioManager.cpp:643-662 | a known session takes the reported volume, mute, friendly name and state, an unknown one is added; either way it is stamped and not stale, and the other entries are kept |
| AudioManagement.UpdatedIsFresh | src/application/audio/AudioManager.cpp:643-696 | a reported session is never stale, so it is a candidate for the best device afterwards |
| AudioManagement.AudioManager.constructor | src/application/audio/AudioManager.cpp:16-19 | a new manager is uninitialised with cleared state and no callbacks |
| AudioManagement.AudioManager.Init | src/application/audio/AudioManager.cpp:21-63 | a second call changes nothing; the first clears the state and the callbacks; it always reports success |
| AudioManagement.AudioManager.Deinit | src/application/audio/AudioManager.cpp:65-77 | an initialised manager clears its state and callbacks and becomes uninitialised |
| AudioManagement.AudioManager.SubscribeToStateChanges | src/application/audio/AudioManager.cpp:427-431 | a non-null callback is appended, a null one is never stored |
| AudioManagement.AudioManager.Notify | src/application/audio/AudioManager.cpp:572-576 | the deliveries are extended by the fan-out of the event to every callback, in order |
| AudioManagement.AudioManager.PublishStatusUpdate | src/application/audio/AudioManager.cpp:435-475 | the current status is sent exactly when messaging is healthy, and nothing else changes |
| AudioManagement.AudioManager.SetCurrentTab | src/application/audio/AudioManager.cpp:411-423 | the tab is stored; only a real change stamps the time and notifies tabChanged; uninitialised, nothing happens |
| AudioManagement.AudioManager.SelectDevice | src/application/audio/AudioManager.cpp:144-183 | an existing device becomes the current tab's selection, selectionChanged is notified only when the selection differed, and an unknown name or tab changes nothing |
| AudioManagement.AudioManager.SetDeviceVolume | src/application/audio/AudioManager.cpp:283-327 | the clamped volume is applied to the named session or the default device, volumeChanged is notified and the status published; the current selection then reports that volume |
| AudioManagement.AudioManager.ApplyMute | src/application/audio/AudioManager.cpp:351-409 | the mute is applied to a known session or the default device and notified; an unknown name changes nothing |
| AudioManagement.AudioManager.MuteDevice | src/application/audio/AudioManager.cpp:351-379 | a known session or the default device becomes muted, and the current selection then reports muted |
| AudioManagement.AudioManager.UnmuteDevice | src/application/audio/AudioManager.cpp:381-409 | a known session or the default device becomes unmuted |
| AudioManagement.AudioManager.ApplyCurrentMute | src/application/audio/AudioManager.cpp:329-349 | the current selection takes the mute flag; without one nothing changes |
| AudioManagement.AudioManager.MuteCurrentDevice | src/application/audio/AudioManager.cpp:329-338 | the current selection becomes muted |
| AudioManagement.AudioManager.UnmuteCurrentDevice | src/application/audio/AudioManager.cpp:340-349 | the current selection becomes unmuted |
| AudioManagement.AudioManager.ApplyBalanceMute | src/application/audio/AudioManager.cpp:227-257 | with both balance devices selected both take the flag; otherwise nothing changes |
| AudioManagement.AudioManager.MuteBalanceDevices | src/application/audio/AudioManager.cpp:227-241 | both balance devices become muted, or nothing changes when one is missing |
| AudioManagement.AudioManager.UnmuteBalanceDevices | src/application/audio/AudioManager.cpp:243-257 | both balance devices become unmuted, or nothing changes when one is missing |
| AudioManagement.AudioManager.SetBalanceDeviceVolumes | src/application/audio/AudioManager.cpp:211-225 | each balance device takes its clamped volume, the second write winning when both slots hold the same device; the event carries the first volume unclamped |
| AudioManagement.AudioManager.SetVolumeForCurrentDevice | src/application/audio/AudioManager.cpp:259-281 | Master with a default device sets the default device; Single with a selection sets the selected session, whose volume the current selection then reports clamped; Balance hands the volume to setBalanceVolume and changes nothing else; otherwise nothing changes |
| AudioManagement.AudioManager.AutoSelectDeviceIfNeeded | src/application/audio/AudioManager.cpp:578-632 | the new selection is the reference auto-selection and the deliveries are its selectionChanged notices |
| AudioManagement.AudioManager.PerformSmartAutoSelection | src/application/audio/AudioManager.cpp:507-568 | set slots are kept and only selection events are delivered; on a keyed map the result is exactly the auto-selection, the retry finding nothing left |
| AudioManagement.AudioManager.EnsureValidSelections | src/application/audio/AudioManager.cpp:702-727 | the new selection is the reference validation-and-fill, delivering nothing |
| AudioManagement.AudioManager.RefreshDevicePointers | src/application/audio/AudioManager.cpp:729-767 | each slot is looked up again by the name it had, nothing else changes |
| AudioManagement.AudioManager.Reselect | src/application/audio/AudioManager.cpp:112-131 | the selection phase keeps live slots, leaves the Single or Balance tab with a valid selection on a non-empty keyed map, and on a count change fills every working slot |
| AudioManagement.AudioManager.OnAudioStatusReceived | src/application/audio/AudioManager.cpp:91-140 | the map is replaced and stamped, live selections survive, working slots are filled on a non-empty map, and the deliveries end in one devicesUpdated fan-out after selection events only |
| AudioManagement.AudioManager.MarkDevicesAsStale | src/application/audio/AudioManager.cpp:634-641 | the loop flags every entry stale and changes nothing else |
| AudioManagement.AudioManager.UpdateDeviceFromStatus | src/application/audio/AudioManager.cpp:643-680 | the session is updated or added; an added one may fill a null slot of the Single or Balance tab |
| Base64.DecodeValue | src/logo/SimpleLogoManager.cpp:413-421 | the reverse table gives a value below 64 or the invalid mark 0xFF |
| Base64.EncodeValue | src/logo/SimpleLogoManager.cpp:413-421 | each alphabet character is read back by the table as its own position, and none is padding or NUL |
| Base64.Sextet | src/logo/SimpleLogoManager.cpp:434-439 | an absent or padding third or fourth character reads as 0, any other as its table value |
| Base64.GroupBytes | src/logo/SimpleLogoManager.cpp:446-454 | a group yields one byte, two with a third character, three with a fourth as well |
| Base64.DecodeFrom | src/logo/SimpleLogoManager.cpp:426-455 | the decoder never produces more bytes than the buffer allows |
| Base64.Base64Decode | src/logo/SimpleLogoManager.cpp:411-458 | returns a count within the buffer size, 0 on an invalid first or second character, and fills exactly the reference decoding into the buffer, writing nothing beyond its size |
| Base64.WriteGroup | src/logo/SimpleLogoManager.cpp:446-454 | one group appends exactly its bytes to what was written and touches nothing after them |
| Base64.Encode | src/logo/SimpleLogoManager.cpp:413-414 | the standard encoder over the same alphabet, four characters per three bytes or part of them |
| Base64.FirstByte | src/logo/SimpleLogoManager.cpp:446 | the decoder's first shift and OR give back the first byte the encoder split |
| Base64.SecondByte | src/logo/SimpleLogoManager.cpp:449 | the second shift and OR give back the second byte |
| Base64.ThirdByte | src/logo/SimpleLogoManager.cpp:452 | the third shift and OR give back the third byte |
| Base64.GroupRoundTrip | src/logo/SimpleLogoManager.cpp:432-454 | one encoded group has valid leading characters and decodes to the bytes it came from |
| Base64.DecodeEncode | src/logo/SimpleLogoManager.cpp:426-455 | with room for every group, decoding an encoding yields the data back |
| Base64.Base64RoundTrip | src/logo/SimpleLogoManager.cpp:411-458 | with a buffer of three bytes per group, the decoder inverts the encoder |
| Base64.ForeignThirdCharacterAccepted | src/logo/SimpleLogoManager.cpp:434-439 | "QQ#=" is decoded to the two bytes 65 and 63 although '#' is not a base64 character |
| Base64.StrictAcceptsOnlyAlphabet | src/logo/SimpleLogoManager.cpp:441-444 | the corrected decoder accepts only text whose non-padding characters are all in the alphabet |
| Base64.StrictDecodeEncode | src/logo/SimpleLogoManager.cpp:411-458 | the corrected decoder still inverts the encoder |
| Base64.ForeignThirdCharacterRejected | src/logo/SimpleLogoManager.cpp:441-444 | the corrected decoder rejects "QQ#=" |
| BinaryFramer.ApplyEscapeSequences | src/messaging/transport/BinaryProtocol.cpp:361-376 | the loop produces exactly the escaped payload |
| BinaryFramer.CheckCharacters | src/messaging/transport/BinaryProtocol.cpp:498-506 | succeeds exactly when the payload has no NUL and no control byte other than tab, LF and CR |
| BinaryFramer.CheckBalance | src/messaging/transport/BinaryProtocol.cpp:522-557 | succeeds exactly when braces and brackets outside quoted strings balance and no string is left open |
| BinaryFramer.WriteByte | src/messaging/transport/BinaryProtocol.cpp:182 | the write callback succeeds exactly before its first failure and then the byte reaches the wire |
| BinaryFramer.Framer.constructor | src/messaging/transport/BinaryProtocol.cpp:87-93 | a new framer waits for a start marker with empty buffers and zero counters |
| BinaryFramer.Framer.ResetStateMachine | src/messaging/transport/BinaryProtocol.cpp:95-104 | back to WaitingForStart with the buffers and expected fields cleared and the counters kept |
| BinaryFramer.Framer.ResetStatistics | include/BinaryProtocol.h:106 | only the counters are cleared |
| BinaryFramer.Framer.ProcessHeader | src/messaging/transport/BinaryProtocol.cpp:378-408 | a short header fails; otherwise length, CRC and type are read little-endian, and the call succeeds exactly when the length is within MAX_PAYLOAD_SIZE, counting an overflow otherwise |
| BinaryFramer.Framer.ProcessPayloadByte | src/messaging/transport/BinaryProtocol.cpp:410-435 | the new state is the payload-byte step of the reference receiver: un-escape, append, and reset on overflow |
| BinaryFramer.Framer.ProcessCompleteMessage | src/messaging/transport/BinaryProtocol.cpp:436-576 | returns the payload when every check passes, else the empty string with the rejection counted in its own counter |
| BinaryFramer.Framer.IsTimeout | src/messaging/transport/BinaryProtocol.cpp:578-580 | true exactly when the unsigned 32-bit difference from the frame start exceeds MESSAGE_TIMEOUT_MS |
| BinaryFramer.Framer.HandleByte | src/messaging/transport/BinaryProtocol.cpp:296-352 | one loop iteration, timeout check included, equals one step of the reference receiver |
| BinaryFramer.Framer.DispatchByte | src/messaging/transport/BinaryProtocol.cpp:307-346 | the switch on the receive state equals the reference dispatch |
| BinaryFramer.Framer.HandleEndMarker | src/messaging/transport/BinaryProtocol.cpp:333-341 | the end-marker branch equals the reference end-of-frame step |
| BinaryFramer.Framer.ProcessIncomingBytes | src/messaging/transport/BinaryProtocol.cpp:293-355 | the messages and the new state are those of the reference run over the bytes, so the round trip lemmas apply to it |
| BinaryFramer.Framer.EncodeMessage | src/messaging/transport/BinaryProtocol.cpp:106-167 | returns the reference frame, and counts a message and its bytes only when the frame is non-empty |
| BinaryFramer.Framer.EncodeToBuffer | src/messaging/transport/BinaryProtocol.cpp:169-180 | succeeds exactly when the frame is non-empty and fits; then the buffer starts with the frame, otherwise the length is 0 and the buffer is untouched |
| BinaryFramer.Framer.TransmitMessageDirect | src/messaging/transport/BinaryProtocol.cpp:182-291 | writes the frame through the callback up to its first failure, succeeds exactly when the whole frame got through, and counts the message (not its bytes) only then |
| BinaryFramer.WriteFrame | src/messaging/transport/BinaryProtocol.cpp:106-158 | the frame built byte by byte is the reference frame |
| BinaryFramer.SentPrefixExtend | src/messaging/transport/BinaryProtocol.cpp:203-276 | once the callback has failed, later bytes make no difference to what was sent |
| BinaryFramer.SendFrame | src/messaging/transport/BinaryProtocol.cpp:183-282 | the empty or oversized payload fails and sends nothing; otherwise the prefix of the frame before the first failure is sent, and success means the whole frame was |
| BinaryFramer.WriteAll | src/messaging/transport/BinaryProtocol.cpp:217-237 | writes bytes until the first failure, succeeding exactly when all of them fit before it |
| BinaryFramer.WriteEscaped | src/messaging/transport/BinaryProtocol.cpp:248-270 | writes the escaped payload until the first failure, succeeding exactly when all of it fits before it |
| BinaryFramer.WritePayloadByte | src/messaging/transport/BinaryProtocol.cpp:249-269 | writes the escape pair or the plain byte until the first failure |
| BinaryProtocol.Xor20Involutive | src/messaging/transport/BinaryProtocol.cpp:151 | XOR with 0x20 applied twice gives the byte back, so escaping and un-escaping agree |
| BinaryProtocol.Crc16Calculate | src/messaging/transport/BinaryProtocol.cpp:14-28 | the loop computes the CRC-16 fold of the payload from 0xFFFF with the reflected polynomial 0xA001 and no final XOR |
| BinaryProtocol.CrcByte | src/messaging/transport/BinaryProtocol.cpp:18-25 | the inner loop XORs the byte in and performs eight conditional shift steps |
| BinaryProtocol.CrcConcat | src/messaging/transport/BinaryProtocol.cpp:14-28 | the CRC is a left fold: checksumming a concatenation resumes from the first part's CRC |
| BinaryProtocol.CrcOfEmpty | src/messaging/transport/BinaryProtocol.cpp:16-27 | the empty input leaves the initial value 0xFFFF |
| BinaryProtocol.Crc16CheckValue | src/messaging/transport/BinaryProtocol.cpp:14-28 | the catalogue check value of CRC-16/MODBUS: "123456789" gives 0x4B37, so the register is that standard algorithm |
| BinaryProtocol.UInt32ToLEBytes | src/messaging/transport/BinaryProtocol.cpp:56-61 | writing a 32-bit value gives four bytes |
| BinaryProtocol.UInt16ToLEBytes | src/messaging/transport/BinaryProtocol.cpp:63-66 | writing a 16-bit value gives two bytes |
| BinaryProtocol.LE32RoundTrip | src/messaging/transport/BinaryProtocol.cpp:44-61 | reading back a written 32-bit value gives the value |
| BinaryProtocol.LE16RoundTrip | src/messaging/transport/BinaryProtocol.cpp:51-66 | reading back a written 16-bit value gives the value |
| BinaryProtocol.LE32BytesRoundTrip | src/messaging/transport/BinaryProtocol.cpp:44-61 | four bytes read as a value and written back are the same bytes |
| BinaryProtocol.LE16BytesRoundTrip | src/messaging/transport/BinaryProtocol.cpp:51-66 | two bytes read as a value and written back are the same bytes |
| BinaryProtocol.UnescapeEscape | src/messaging/transport/BinaryProtocol.cpp:361-376 | un-escaping the escaped payload gives the payload back |
| BinaryProtocol.EscapeConcat | src/messaging/transport/BinaryProtocol.cpp:361-376 | escaping works byte by byte, so it distributes over concatenation |
| BinaryProtocol.EscapeHasNoMarkers | src/messaging/transport/BinaryProtocol.cpp:147-155 | no start or end marker survives escaping, and the escaped payload is between one and two times as long |
| BinaryProtocol.HeadLayout | src/messaging/transport/BinaryProtocol.cpp:129-144 | the head written is the start marker, the length and the CRC little-endian, and type 0x01, each field reading back as written |
| BinaryProtocol.FrameLayout | src/messaging/transport/BinaryProtocol.cpp:106-167 | a frame carries the unescaped length, the CRC of the unescaped payload, type 1, the escaped payload and the end marker |
| BinaryProtocol.EncodeRejects | src/messaging/transport/BinaryProtocol.cpp:107-119 | the empty frame is returned exactly for an empty payload or one over MAX_PAYLOAD_SIZE |
| BinaryProtocol.FoldConcat | src/messaging/transport/BinaryProtocol.cpp:293-355 | feeding a buffer in two pieces gives the same receiver state and the same messages, in order, as feeding it at once |
| BinaryProtocol.RunOne | src/messaging/transport/BinaryProtocol.cpp:296-352 | one byte is one iteration of the loop |
| BinaryProtocol.CompleteRejectsExactly | src/messaging/transport/BinaryProtocol.cpp:436-576 | the frame is refused exactly on a dangling escape, a length mismatch, a CRC or type mismatch, a control character or unbalanced JSON; an accepted frame is its payload |
| BinaryProtocol.EndMarkerResets | src/messaging/transport/BinaryProtocol.cpp:333-341 | after an unescaped end marker the receiver is idle with empty buffers, and a message is delivered exactly when the frame is accepted and non-empty |
| BinaryProtocol.RejectedFrameCounted | src/messaging/transport/BinaryProtocol.cpp:436-576 | a refused frame yields no message and counts one error of its kind |
| BinaryProtocol.EscapedEndMarkerIsData | src/messaging/transport/BinaryProtocol.cpp:333-343 | an end marker right after the escape byte is un-escaped into 0x5F, so the dangling-escape check at line 439 is unreachable from the byte loop |
| BinaryProtocol.OversizedHeaderResets | src/messaging/transport/BinaryProtocol.cpp:319-328 | a header announcing more than MAX_PAYLOAD_SIZE resets the receiver and counts a buffer overflow and a framing error |
| BinaryProtocol.PayloadOverflowResets | src/messaging/transport/BinaryProtocol.cpp:429-434 | more payload than the header announced resets the receiver and counts a buffer overflow |
| BinaryProtocol.TimeoutResets | src/messaging/transport/BinaryProtocol.cpp:300-304 | a receiver mid-frame for longer than MESSAGE_TIMEOUT_MS is reset and counts a timeout before the byte is handled |
| BinaryProtocol.NoiseIgnored | src/messaging/transport/BinaryProtocol.cpp:308-317 | outside a frame, any byte other than the start marker leaves the receiver unchanged |
| BinaryProtocol.EscapedPairStep | src/messaging/transport/BinaryProtocol.cpp:410-426 | the escape byte then the flipped byte append the original byte |
| BinaryProtocol.PayloadPhase | src/messaging/transport/BinaryProtocol.cpp:332-345 | an escaped payload, read while in ReadingPayload, appends exactly the unescaped payload |
| BinaryProtocol.HeadPhase | src/messaging/transport/BinaryProtocol.cpp:308-330 | the start marker and the header take an idle receiver to ReadingPayload with the announced length, CRC and type |
| BinaryProtocol.HeaderFields | src/messaging/transport/BinaryProtocol.cpp:378-408 | processHeader reads back the length, CRC and type that the frame head carries |
| BinaryProtocol.AcceptStep | src/messaging/transport/BinaryProtocol.cpp:333-341 | an accepted non-empty frame is delivered and counted, and the receiver reset |
| BinaryProtocol.FrameAccepted | src/messaging/transport/BinaryProtocol.cpp:436-576 | a payload with its own length, CRC and type passes every check of processCompleteMessage |
| BinaryProtocol.DecodeFrame | src/messaging/transport/BinaryProtocol.cpp:293-355 | the written-out frame of a payload decodes to that payload from an idle receiver |
| BinaryProtocol.DecodeEncoded | src/messaging/transport/BinaryProtocol.cpp:106-167 | decoding the encoding of a non-empty, JSON-shaped payload that arrives in time yields exactly that payload and leaves the receiver idle |
| BinaryProtocol.EmptyPayloadNotDelivered | src/messaging/transport/BinaryProtocol.cpp:336-339 | the empty payload is never delivered, even in a frame whose CRC and type check |
| BuildInfo.MonthName | include/BuildInfo.h:180-205 | every month has a three-letter abbreviation as `__DATE__` writes it |
| BuildInfo.DateString | include/BuildInfo.h:27-30 | the `__DATE__` text "Mmm dd yyyy" is eleven characters long |
| BuildInfo.TimeString | include/BuildInfo.h:32-35 | the `__TIME__` text "hh:mm:ss" is eight characters long |
| BuildInfo.BuildYear | include/BuildInfo.h:51-54 | when characters 7-10 are digits the result is their decimal value |
| BuildInfo.BuildYearOfDate | include/BuildInfo.h:51-54 | the year of a compiler-formatted date is read back exactly |
| BuildInfo.PeriodOf | include/BuildInfo.h:147 | PM exactly from hour 12 on |
| BuildInfo.Hour12 | include/BuildInfo.h:149-154 | hour 0 becomes 12, hours 1-12 are kept, later hours lose 12 |
| BuildInfo.Hour12RoundTrip | include/BuildInfo.h:147-154 | for an hour of the day the 12-hour reading is in 1..12 and, with its period, gives the hour back |
| BuildInfo.TimeFieldsOfTime | include/BuildInfo.h:144-145 | the hour and minute read from characters 0-1 and 3-4 of a compiler time are the hour and minute it was made from |
| BuildInfo.BuildTime12Hour | include/BuildInfo.h:140-158 | the text ends in a space and the period of the hour read |
| BuildInfo.BuildTime12HourReadsBack | include/BuildInfo.h:140-158 | the text is one or two hour digits, a colon, two minute digits and the period, and reads back as the 24-hour time |
| BuildInfo.MonthNumber | include/BuildInfo.h:178-205 | a month in 1..12 whose abbreviation is the date's prefix, and 1 when no abbreviation matches |
| BuildInfo.MonthNumberOfName | include/BuildInfo.h:178-205 | every abbreviation maps back to its own month |
| BuildInfo.DayOfDateString | include/BuildInfo.h:167-205 | the day of a compiler date, space-padded or not, and its month are read back exactly |
| BuildInfo.BuildDateDayMonthReadsBack | include/BuildInfo.h:164-209 | the day/month text of a compiler date is the day, a slash and the month number |
| BuildInfo.BuildTimeAndDate | include/BuildInfo.h:215-220 | the time text, four spaces, then the day/month text |
| DeviceSelectors.ExtractDeviceNameShape | src/components/DeviceSelectorManager.cpp:147-153 | the name is the text after the stale mark, if any, up to the end or to the first " (" after its first character |
| DeviceSelectors.ExtractStaleDecorated | src/components/DeviceSelectorManager.cpp:147-153 | "(!) Chrome (2)" names the device "Chrome" |
| DeviceSelectors.ExtractKeepsLeadingDecoration | src/components/DeviceSelectorManager.cpp:147-153 | a text that starts with " (" is kept whole |
| DeviceSelectors.ExtractDisplayName | src/components/DeviceSelectorManager.cpp:129-153 | reading the name back from an option gives the device that option shows, stale or not |
| DeviceSelectors.LineEndIsIndexOf | src/components/DeviceSelectorManager.cpp:100-104 | the option's end is the next newline found by indexOf, or the end of the text when there is none |
| DeviceSelectors.Extracted | src/components/DeviceSelectorManager.cpp:105-110 | each option is read as its device name, in order |
| DeviceSelectors.FirstIndex | src/components/DeviceSelectorManager.cpp:105-110 | the first position of a name, and none exactly when it is absent |
| DeviceSelectors.FindOption | src/components/DeviceSelectorManager.cpp:95-113 | the option loop returns the index of the first option naming the device, or none |
| DeviceSelectors.LinesOfJoin | src/components/DeviceSelectorManager.cpp:129-136 | options joined by newlines read back one by one |
| DeviceSelectors.SelectAfterRefresh | src/components/DeviceSelectorManager.cpp:91-136 | after a refresh, selecting a device picks the row of the first level with that process name, and nothing when none has it |
| DeviceSelectors.SelectedIn | src/components/DeviceSelectorManager.cpp:91-115 | selecting keeps the options and changes nothing without a dropdown |
| DeviceSelectors.SetDropdownSelection | src/components/DeviceSelectorManager.cpp:91-115 | the method leaves the dropdown as SelectedIn describes |
| DeviceSelectors.DropdownSelection | src/components/DeviceSelectorManager.cpp:117-122 | without a dropdown the selection reads as "" |
| DeviceSelectors.SelectThenRead | src/components/DeviceSelectorManager.cpp:91-122 | selecting a device and reading back gives that device when its option is short and NUL-free |
| DeviceSelectors.Refreshed | src/components/DeviceSelectorManager.cpp:129-136 | a refresh changes nothing without a dropdown |
| DeviceSelectors.ExclusiveSecond | src/components/DeviceSelectorManager.cpp:138-145 | after the check the second balance device never repeats a non-empty first one; it is kept or cleared |
| DeviceSelectors.DeviceSelectorManager.constructor | src/components/DeviceSelectorManager.cpp:8-9 | a fresh manager has no dropdowns and no selections, so the balance pair is exclusive |
| DeviceSelectors.DeviceSelectorManager.Initialize | src/components/DeviceSelectorManager.cpp:15-23 | the dropdowns are stored, selections start empty and the call succeeds |
| DeviceSelectors.DeviceSelectorManager.Deinitialize | src/components/DeviceSelectorManager.cpp:25-32 | dropdowns and selections are all cleared |
| DeviceSelectors.DeviceSelectorManager.SetMainSelection | src/components/DeviceSelectorManager.cpp:34-37 | the main selection and its dropdown take the device; the balance pair is untouched |
| DeviceSelectors.DeviceSelectorManager.EnsureBalanceExclusivity | src/components/DeviceSelectorManager.cpp:138-145 | the second balance device is cleared, in state and dropdown, exactly when it repeats the first; then the pair is exclusive |
| DeviceSelectors.DeviceSelectorManager.SetBalanceSelections | src/components/DeviceSelectorManager.cpp:43-49 | both balance devices and dropdowns are set, the second cleared when it repeats the first; the main selection is untouched |
| DeviceSelectors.DeviceSelectorManager.GetSelectedDeviceForTab | src/components/DeviceSelectorManager.cpp:59-70 | tabs 0 and 1 read the main selection, tab 2 the first balance device, other tabs "" |
| DeviceSelectors.DeviceSelectorManager.SetSelectedDeviceForTab | src/components/DeviceSelectorManager.cpp:72-82 | tabs 0 and 1 set the main selection, tab 2 the first balance device, other tabs nothing; exclusivity is kept and the tab reads back the device |
| DeviceSelectors.DeviceSelectorManager.RefreshAllDropdowns | src/components/DeviceSelectorManager.cpp:84-89 | every dropdown shows the levels, then exclusivity is restored |
| DeviceSelectors.DeviceSelectorManager.InitializeBalanceSelections | src/components/DeviceSelectorManager.cpp:124-127 | with two or more devices the first two become the balance pair; with fewer nothing changes |
| FileExplorer.FindInvalidChar | src/application/FileExplorerManager.cpp:72-78 | the scan reports a character exactly when the name contains one of the nine forbidden characters |
| FileExplorer.ValidateFolderName | src/application/FileExplorerManager.cpp:51-85 | a null or empty text asks for a name; otherwise the trimmed name is refused as empty, too long (over 50), holding a forbidden character or reserved, in that order, and accepted exactly when it passes all checks |
| FileExplorer.AcceptedFolderNameIsComponent | src/application/FileExplorerManager.cpp:57-78 | an accepted name contains no slash or backslash and neither starts nor ends with a blank |
| FileExplorer.JoinPath | src/application/FileExplorerManager.cpp:145-157 | the full path starts with the directory, ends with the name, with a single slash right before the name |
| FileExplorer.Collect | src/application/FileExplorerManager.cpp:110-176 | every collected item has a name, a path under the directory and no logo labels yet; every acceptable card entry is collected, and every collected item comes from an acceptable entry |
| FileExplorer.CollectCounts | src/application/FileExplorerManager.cpp:110-176 | each item is collected exactly as many times as there are acceptable card entries that produce it |
| FileExplorer.MappedProcess | src/application/FileExplorerManager.cpp:1318-1325 | None exactly when no mapping names the file; otherwise the process of the first mapping that names it |
| FileExplorer.ProcessNameOf | src/application/FileExplorerManager.cpp:1313-1349 | "" for a name without ".bin" or ".png"; a mapped file gives a process whose mapping names it; an unmapped one the guessed name |
| FileExplorer.Enhanced | src/application/FileExplorerManager.cpp:1351-1388 | only the logo labels change; a logo file exactly for a non-directory ".bin"/".png" name in a logo directory, a metadata file exactly for a ".json" name under "/logos/metadata"; the process name, the metadata flag (set exactly when the store knows that process) and the verified and flagged marks follow the store |
| FileExplorer.JsonIsNotLogo | src/application/FileExplorerManager.cpp:1362-1381 | no name is both a ".json" file and a ".bin" or ".png" file, so the two labels never meet |
| FileExplorer.Listed | src/application/FileExplorerManager.cpp:110-176 | as many labelled rows as collected items (ListedUnmarked ties each row to its item) |
| FileExplorer.ListedUnmarked | src/application/FileExplorerManager.cpp:1351-1388 | with its labels cleared, each row is the collected item it was made from |
| FileExplorer.BeforeIrreflexive | src/application/FileExplorerManager.cpp:890-895 | no item sorts before itself |
| FileExplorer.BeforeTransitive | src/application/FileExplorerManager.cpp:890-895 | the listing order is transitive |
| FileExplorer.Insert | src/application/FileExplorerManager.cpp:890-895 | inserting into an ordered listing keeps it ordered and adds exactly the one item |
| FileExplorer.SortListing | src/application/FileExplorerManager.cpp:887-897 | the sorted listing is ordered and a permutation of the collected items |
| FileExplorer.OrderedListing | src/application/FileExplorerManager.cpp:890-895 | in an ordered listing every directory precedes every file and each group is in ascending name order |
| FileExplorer.OrderedListingUnique | src/application/FileExplorerManager.cpp:890-895 | items with distinct names have only one ordered arrangement, so the sort's result is determined |
| FileExplorer.LoadResult | src/application/FileExplorerManager.cpp:812-909 | without a card or with an unusable path the list is untouched; otherwise the list ends idle exactly when the load succeeds; its rows are the labelled rows of Listed |
| FileExplorer.LoadedListing | src/application/FileExplorerManager.cpp:830-897 | after a successful load the list is sorted, has no selection and is a permutation of the labelled rows; every row comes from an acceptable entry under the loaded path and every acceptable entry has a row |
| FileExplorer.RowsAreAccepted | src/application/FileExplorerManager.cpp:830-897 | every row of a successful load comes from an acceptable card entry |
| FileExplorer.AcceptedAreRows | src/application/FileExplorerManager.cpp:830-897 | every acceptable card entry has a row after a successful load |
| FileExplorer.LogoFileUnmarkedOnEntry | src/application/FileExplorerManager.cpp:304-305 | going from "/" into "/logos/files" with only "a.bin" shows "a.bin" as a plain file |
| FileExplorer.IntendedLoadMarksLogoFiles | src/application/FileExplorerManager.cpp:1351-1366 | a load whose logo test reads the loaded directory under "/logos" labels exactly its ".bin" and ".png" files as logo files |
| FileExplorer.HistoryPush | src/application/FileExplorerManager.cpp:2369-2384 | the pushed state is newest, the history never exceeds its bound, and only the oldest entry is ever dropped |
| FileExplorer.HistoryPop | src/application/FileExplorerManager.cpp:2386-2398 | an empty history gives the default state; otherwise the newest entry is removed and returned |
| FileExplorer.PopAfterPush | src/application/FileExplorerManager.cpp:2369-2398 | popping right after a push returns the pushed state and the history as it was, less its oldest entry when it was full |
| FileExplorer.ParentPath | src/application/FileExplorerManager.cpp:320-344 | the parent is the path before its last slash, or the root when that slash leads; it is never empty |
| FileExplorer.ParentShorter | src/application/FileExplorerManager.cpp:320-344 | going up from a nested path reaches a strictly shorter path |
| FileExplorer.SavedView | src/application/FileExplorerManager.cpp:2309-2326 | with a file list the scroll position and selected name are recorded; without one the previous record is kept |
| FileExplorer.StripVersion | src/application/FileExplorerManager.cpp:1335-1339 | the result is a prefix of the name cut at its last "_v", and the name is kept exactly when "_v" is absent or leads |
| FileExplorer.FallbackProcessName | src/application/FileExplorerManager.cpp:1327-1345 | the guessed process name ends in ".exe" or ".app" and is the version-stripped stem, with ".exe" added when needed |
| FileExplorer.FallbackVersioned | src/application/FileExplorerManager.cpp:1327-1345 | "chrome_v2.png" gives "chrome.exe" |
| FileExplorer.FallbackKeepsExtension | src/application/FileExplorerManager.cpp:1327-1345 | "Spotify.exe.bin" gives "Spotify.exe" |
| FileExplorer.FallbackLeadingMarker | src/application/FileExplorerManager.cpp:1335-1339 | a "_v" at position 0 is kept: "_v1.bin" gives "_v1.exe" |
| FileExplorer.ExtractProcessName | src/application/FileExplorerManager.cpp:1313-1349 | non-logo files give ""; a mapped file gives its first mapping's process; an unmapped logo file gives the guessed name |
| FileExplorer.FlagsText | src/application/FileExplorerManager.cpp:1390-1422 | the marks are empty exactly when neither flag is set, and bracketed otherwise |
| FileExplorer.FlagsTextMarks | src/application/FileExplorerManager.cpp:1390-1422 | "V" appears exactly for verified logos and "F" exactly for flagged ones |
| FileExplorer.LogoDisplayText | src/application/FileExplorerManager.cpp:1390-1422 | the label starts with the name and is only the name for plain directories; otherwise the size follows, then the marks of logos with metadata |
| FileExplorer.LogoIcon | src/application/FileExplorerManager.cpp:1424-1440 | directory, verified, flagged, PNG and other files each get their icon, each exactly in its case |
| FileExplorer.FileExplorerManager.constructor | src/application/FileExplorerManager.h:79-96 | a fresh manager is uninitialised, with no path, items, selection or history |
| FileExplorer.FileExplorerManager.Init | src/application/FileExplorerManager.cpp:183-244 | a second init does nothing; a missing mutex fails without change; otherwise the manager starts at the root with an empty history |
| FileExplorer.FileExplorerManager.AddItem | src/application/FileExplorerManager.cpp:1279-1288 | an item without a name is ignored, any other is appended; nothing else changes |
| FileExplorer.FileExplorerManager.SaveCurrentState | src/application/FileExplorerManager.cpp:2309-2326 | the recorded view becomes SavedView of the current one; nothing else changes |
| FileExplorer.FileExplorerManager.PushNavigationState | src/application/FileExplorerManager.cpp:2369-2384 | the history becomes HistoryPush of the old one and stays within its bound; nothing else changes |
| FileExplorer.FileExplorerManager.PopNavigationState | src/application/FileExplorerManager.cpp:2386-2398 | the state returned and the history left are HistoryPop of the old history; nothing else changes |
| FileExplorer.FileExplorerManager.ClearNavigationHistory | src/application/FileExplorerManager.cpp:2304-2307 | the history is emptied; nothing else changes |
| FileExplorer.FileExplorerManager.LoadDirectory | src/application/FileExplorerManager.cpp:812-909 | succeeds exactly when LoadSucceeds holds and leaves the list as LoadResult; path, history and view are unchanged |
| FileExplorer.FileExplorerManager.NavigateToPath | src/application/FileExplorerManager.cpp:275-318 | without a card only the list is marked failed; otherwise a differing location is saved to the history first, and the path and view move to the target exactly when it loads |
| FileExplorer.FileExplorerManager.NavigateUp | src/application/FileExplorerManager.cpp:320-344 | refused at the root; otherwise it succeeds exactly when the parent loads, and then the parent is current |
| FileExplorer.FileExplorerManager.NavigateBack | src/application/FileExplorerManager.cpp:2277-2302 | refused with no history; otherwise the newest entry is popped and reloaded, and its path and view come back exactly when it loads |
| Hash.Fnv1a | include/Hash.h:10-17 | the loop computes the FNV-1a fold of the bytes from the given starting hash, XOR then multiply by the prime modulo 2^32 |
| Hash.FnvFoldConcat | include/Hash.h:10-17 | hashing a concatenation equals resuming the hash of the second part from the hash of the first (passing `hash` chains calls) |
| Hash.FnvTestVector | include/Hash.h:7-17 | with the offset basis and prime of the source, the byte "a" hashes to the published FNV-1a vector 0xE40C292C |
| Hash.MulInverse | include/Hash.h:8 | multiplying by the FNV prime modulo 2^32 is undone by its modular inverse |
| Hash.FnvStepInvertible | include/Hash.h:13-14 | one step of the loop can be run backwards: the state before is recovered from the state after and the byte |
| Hash.FnvFoldInjective | include/Hash.h:10-17 | two different starting hashes fed the same bytes never produce the same result |
| Hash.CombineInjective | include/Hash.h:24-26 | for a fixed accumulator, combine maps different member hashes to different results |
| Hash.UpToNul | include/Hash.h:34-37 | the bytes strlen counts: a prefix free of NUL that stops at the first NUL or the end |
| Hash.CombineHashesSnoc | include/Hash.h:44-49 | the fold expression combines the members left to right from FNV_OFFSET: one more member combines its hash into the hash of the others |
| Hash.LastMemberChangesHash | include/Hash.h:29-49 | two structs that differ only in the hash of their last member get different combined hashes |
| Hash.Hashable.constructor | include/Hash.h:59-62 | a new object has an invalid cache holding 0 |
| Hash.Hashable.Invalidate | include/Hash.h:68-70 | only the validity flag is cleared |
| Hash.Hashable.Hash | include/Hash.h:73-79 | returns the cached hash when valid, otherwise computes and caches it; either way the result equals the hash of the current members |
| Hash.Hashable.HasChanged | include/Hash.h:81-89 | true exactly when the cache was invalid or held a hash other than the current one; afterwards the cache is valid and current |
| Hash.Hashable.Set | include/Hash.h:102-108 | the field takes the new value and the cache is invalidated exactly when the value differed; a valid cache stays correct |
| Hash.CheckTwice | include/Hash.h:81-89 | asking hasChanged twice in a row: the second answer is always false |
| LogoBinaryStorage.SafeChar | src/logo/LogoBinaryStorage.cpp:389-401 | a character comes out neither unsafe nor upper-case: unsafe ones become '_', others are lower-cased |
| LogoBinaryStorage.SanitizeFileName | src/logo/LogoBinaryStorage.cpp:381-409 | an empty name gives "unknown"; otherwise the result keeps the name's first 100 characters, each made safe, and so contains no unsafe or upper-case character |
| LogoBinaryStorage.SanitizeIdempotent | src/logo/LogoBinaryStorage.cpp:381-409 | sanitising an already sanitised name changes nothing |
| LogoBinaryStorage.SanitizeIgnoresCase | src/logo/LogoBinaryStorage.cpp:381-409 | "My App" and "my_app" sanitise to the same file name |
| LogoBinaryStorage.BinaryPath | src/logo/LogoBinaryStorage.cpp:315-320 | no name gives ""; otherwise the LVGL drive and binaries directory followed by exactly the name |
| LogoBinaryStorage.JsonPath | src/logo/LogoBinaryStorage.cpp:322-336 | no process gives ""; otherwise the directory, the sanitised process name and ".json" |
| LogoBinaryStorage.MappingPathShared | src/logo/LogoBinaryStorage.cpp:322-328 | two processes share a mapping file exactly when their names sanitise alike |
| LogoBinaryStorage.MappingNotMetadata | src/logo/LogoBinaryStorage.cpp:322-336 | a mapping file is never a metadata file |
| LogoBinaryStorage.VersionedName | src/logo/LogoBinaryStorage.cpp:103-108 | the versioned candidate starts with the sanitised name and ends in ".bin" |
| LogoBinaryStorage.TimestampName | src/logo/LogoBinaryStorage.cpp:110-112 | the time-stamped candidate starts with the sanitised name and ends in ".bin" |
| LogoBinaryStorage.GenerateUniqueBinaryName | src/logo/LogoBinaryStorage.cpp:93-113 | the plain name when free, else the first free version from 1 to 999, else the time-stamped name; the result is free whenever any candidate tried was |
| LogoMatching.StripSuffixSlice | src/application/LogoManager.cpp:833-842 | the suffix step leaves a prefix of its input: the input itself, or the input without one listed suffix that applies |
| LogoMatching.StripPrefixSlice | src/application/LogoManager.cpp:845-852 | the prefix step leaves a suffix of its input |
| LogoMatching.PreprocessedBounds | src/application/LogoManager.cpp:820-853 | the preprocessed name fits the buffer with its terminator, has no upper-case letter and is a contiguous piece of the lower-cased input |
| LogoMatching.PreprocessedIgnoresCase | src/application/LogoManager.cpp:828-830 | names equal up to ASCII case preprocess alike |
| LogoMatching.PreprocessedChrome | src/application/LogoManager.cpp:820-853 | "Chrome.EXE" becomes "chrome" |
| LogoMatching.PreprocessedKeepsBareSuffix | src/application/LogoManager.cpp:837-838 | a name that is only a suffix keeps it, because the suffix must be strictly shorter than the name |
| LogoMatching.PreprocessedBothEnds | src/application/LogoManager.cpp:820-853 | the suffix is removed before the prefix: "com.spotify.app" becomes "spotify" |
| LogoMatching.PreprocessedCutFirst | src/application/LogoManager.cpp:825-842 | the cut to the buffer happens before the suffix test: "discord.exe" in an 8-character buffer is "discord" |
| LogoMatching.StrNCopy | src/application/LogoManager.cpp:825 | the copy holds the C string's characters up to the bound, then NUL padding, and touches nothing beyond the bound |
| LogoMatching.PreprocessProcessName | src/application/LogoManager.cpp:820-853 | nothing is written for a null input or an empty buffer; otherwise the buffer holds the preprocessed name as a C string, and nothing past the buffer size changes |
| LogoMatching.CopyIn | src/application/LogoManager.cpp:825-830 | after the copy and lower-casing the buffer holds the bounded lower-case copy with its terminator |
| LogoMatching.StripSuffix | src/application/LogoManager.cpp:833-842 | the loop cuts the buffer at the first listed suffix that applies and returns the new length |
| LogoMatching.StripPrefix | src/application/LogoManager.cpp:845-852 | the loop shifts the buffer left over the first listed prefix it starts with |
| LogoMatching.ShiftLeft | src/application/LogoManager.cpp:848 | the moved characters land shift places earlier and the rest of the buffer is left |
| LogoMatching.MatchConfidence | src/application/LogoManager.cpp:793-818 | 0 exactly without two non-empty names, 100 exactly for equal names, at least 85 exactly when one contains the other, otherwise 75 |
| LogoMatching.MatchConfidenceSymmetric | src/application/LogoManager.cpp:793-818 | the score does not depend on which name is the pattern |
| LogoMatching.AddPattern | src/application/LogoManager.cpp:446-458 | the stored text fits the 256-character field and is the appended list, cut only when it would not fit |
| LogoMatching.StringIndexOf | src/application/LogoManager.cpp:478 | -1 exactly when the text is empty or lacks the pattern, otherwise its first occurrence |
| LogoMatching.RemovePattern | src/application/LogoManager.cpp:477-492 | nothing is stored when the pattern does not occur; otherwise the text loses the pattern and at most one comma |
| LogoMatching.RemovePatternSplice | src/application/LogoManager.cpp:479-488 | the removal cuts out one contiguous piece that covers the first occurrence of the pattern |
| LogoMatching.RemovePatternFits | src/application/LogoManager.cpp:490 | the text after a removal still fits the field |
| LogoMatching.AddMatchingPattern | src/application/LogoManager.cpp:434-462 | a text is stored exactly when the manager is initialised, both arguments are given and the metadata lookup succeeds; it fits the field and begins the appended list |
| LogoMatching.JoinSplit | src/application/LogoManager.cpp:446-451 | splitting the list at commas and joining it again gives the text back |
| LogoMatching.EntriesJoin | src/application/LogoManager.cpp:446-451 | well-formed entries joined by commas read back as the same entries |
| LogoMatching.AddPatternEntries | src/application/LogoManager.cpp:446-458 | adding a comma-free pattern that fits puts exactly one entry at the end of the list |
| LogoMatching.RemoveAfterAdd | src/application/LogoManager.cpp:464-498 | on a list that lacks the pattern, removing the pattern just added restores the list |
| LogoMatching.RemoveBySubstring | src/application/LogoManager.cpp:478-488 | the substring search removes "chrome" from "chrome2,chrome" as "2,chrome", mangling the longer entry |
| LogoMatching.RemoveFirst | src/application/LogoManager.cpp:464-498 | the list without its first entry equal to the pattern, one entry shorter exactly when the pattern is present |
| LogoMatching.RemoveEntry | src/application/LogoManager.cpp:464-498 | the corrected removal stores nothing exactly when no entry equals the pattern |
| LogoMatching.RemoveMatchingPattern | src/application/LogoManager.cpp:464-498 | a text is stored exactly when the manager is initialised, both arguments are given, the lookup succeeds and the pattern occurs somewhere in the stored text; the stored text is then the old one less the pattern and at most one comma |
| LogoMatching.RemoveCutsInsideEntry | src/application/LogoManager.cpp:478-488 | removing "chrome" from "foo,chromebar", which has no such entry, stores "foobar" |
| LogoMatching.RemoveMatchingEntry | src/application/LogoManager.cpp:464-498 | the removal by whole entries: a text is stored exactly when the same checks pass and an entry equals the pattern |
| LogoMatching.RemoveMatchingEntryEntries | src/application/LogoManager.cpp:464-498 | on a well-formed list the corrected removal stores the list without its first entry equal to the pattern |
| LogoMatching.RemoveEntryEntries | src/application/LogoManager.cpp:464-498 | the corrected removal takes out exactly the first entry equal to the pattern and keeps all others |
| LogoMatching.RemoveEntryAfterAdd | src/application/LogoManager.cpp:434-498 | removing by entries undoes adding a new entry |
| LogoMatching.RemoveEntryKeepsLongerEntry | src/application/LogoManager.cpp:478-488 | the corrected removal of "chrome" from "chrome2,chrome" gives "chrome2" |
| LogoSupplier.Elapsed | src/logo/MessageBusLogoSupplier.cpp:289 | the time since the request as an unsigned 32-bit difference, correct across a wrap of the clock |
| LogoSupplier.FailAll | src/logo/MessageBusLogoSupplier.cpp:296-312 | one failure callback per listed request, in list order |
| LogoSupplier.DueIds | src/logo/MessageBusLogoSupplier.cpp:287-293 | an id is expired exactly when its request is in the tracker, not yet expired and older than the timeout |
| LogoSupplier.DueIdsInMapOrder | src/logo/MessageBusLogoSupplier.cpp:287-293 | the expired ids come in map order, so none is listed twice |
| LogoSupplier.WithoutDue | src/logo/MessageBusLogoSupplier.cpp:296-312 | exactly the requests that were not due stay in flight, unchanged |
| LogoSupplier.NothingDue | src/logo/MessageBusLogoSupplier.cpp:278-320 | without a due request the timeout pass removes nothing |
| LogoSupplier.NextPending | src/logo/MessageBusLogoSupplier.cpp:371-411 | with nothing in flight and a queue, the oldest queued request becomes the only one in flight; otherwise nothing changes |
| LogoSupplier.NextQueue | src/logo/MessageBusLogoSupplier.cpp:371-411 | a dispatch removes the front of the queue, otherwise the queue is kept |
| LogoSupplier.NextSent | src/logo/MessageBusLogoSupplier.cpp:371-411 | at most one asset request, the dispatched one, goes on the bus |
| LogoSupplier.NextIdempotent | src/logo/MessageBusLogoSupplier.cpp:371-411 | a second dispatch right after a first one does nothing |
| LogoSupplier.DispatchConserves | src/logo/MessageBusLogoSupplier.cpp:371-411 | a dispatch never drops a queued request: what leaves the queue is what is sent |
| LogoSupplier.FailEach | src/logo/MessageBusLogoSupplier.cpp:296-312 | the loop produces exactly one failure per listed request, in order |
| LogoSupplier.CollectExpired | src/logo/MessageBusLogoSupplier.cpp:287-293 | the first pass lists the due requests in map order and flags exactly those expired |
| LogoSupplier.FailExpired | src/logo/MessageBusLogoSupplier.cpp:296-312 | the second pass fails each listed request once with "Request timed out" and removes exactly those from the tracker |
| LogoSupplier.Answered | src/logo/MessageBusLogoSupplier.cpp:322-354 | one response advances exactly one 32-bit counter by one, wrapping at 2^32: the received one for a success, the failed one otherwise; the other counters are kept |
| LogoSupplier.Submitted | src/logo/MessageBusLogoSupplier.cpp:149 | only the submitted counter moves, by the number of requests sent, modulo 2^32 |
| LogoSupplier.TimedOut | src/logo/MessageBusLogoSupplier.cpp:310 | only the timed-out counter moves, by the number of expired requests, modulo 2^32 |
| LogoSupplier.DecodeBounds | src/logo/MessageBusLogoSupplier.cpp:226-229 | a decode is attempted exactly for a successful response with 2 to 133334 base64 characters; within the 2048-byte message field that is "at least two" |
| LogoSupplier.ResponseOf | src/logo/MessageBusLogoSupplier.cpp:212-251 | the response has the request id, the asset's success and process name, width and height cut to 16 bits, and decoded data exactly when a decode was attempted and succeeded |
| LogoSupplier.TimeoutPasses | src/logo/MessageBusLogoSupplier.cpp:287-312 | the two passes together leave exactly the requests that were not due |
| LogoSupplier.ExpireDue | src/logo/MessageBusLogoSupplier.cpp:278-320 | the due requests, in map order, each fail once and leave the tracker, which does not grow |
| LogoSupplier.MessageBusLogoSupplier.constructor | src/logo/MessageBusLogoSupplier.h:44-46 | a new supplier is uninitialised with a 30-second timeout, a limit of one, no requests and zero counters |
| LogoSupplier.MessageBusLogoSupplier.Init | src/logo/MessageBusLogoSupplier.cpp:32-70 | a second call changes nothing; the first creates a free mutex and clears the counters and the tracker; it always succeeds |
| LogoSupplier.MessageBusLogoSupplier.Deinit | src/logo/MessageBusLogoSupplier.cpp:72-103 | when the mutex can be taken, every request in flight gets one shutdown failure in map order and queued requests are dropped silently; when it cannot, the tracker is kept and no callback runs; either way the mutex is gone and the supplier becomes uninitialised |
| LogoSupplier.MessageBusLogoSupplier.IsReady | src/logo/MessageBusLogoSupplier.cpp:105-107 | with the default limit of one, ready exactly when initialised with nothing in flight |
| LogoSupplier.MessageBusLogoSupplier.SetRequestTimeout | src/logo/MessageBusLogoSupplier.h:32 | only the timeout changes |
| LogoSupplier.MessageBusLogoSupplier.SetMaxConcurrentRequests | src/logo/MessageBusLogoSupplier.h:33 | only the limit changes |
| LogoSupplier.MessageBusLogoSupplier.RequestLogo | src/logo/MessageBusLogoSupplier.cpp:109-168 | refused when uninitialised, a parameter is null or the mutex cannot be taken; on heap below 32 KB one "Insufficient memory" failure, after which the mutex stays held; with fewer than two in flight sent and counted at once; else queued |
| LogoSupplier.MessageBusLogoSupplier.RequestLogoReleasing | src/logo/MessageBusLogoSupplier.cpp:109-168 | the same outcomes as requestLogo, and the mutex is free again on every path |
| LogoSupplier.MessageBusLogoSupplier.Submit | src/logo/MessageBusLogoSupplier.cpp:142-166 | with fewer than two in flight the request is tracked, sent and counted; otherwise it joins the back of the queue; no callback runs |
| LogoSupplier.MessageBusLogoSupplier.SendAssetRequest | src/logo/MessageBusLogoSupplier.cpp:269-276 | the request goes on the bus and nothing else changes |
| LogoSupplier.MessageBusLogoSupplier.ProcessNextQueuedRequest | src/logo/MessageBusLogoSupplier.cpp:371-411 | the tracker, queue, bus traffic and counters follow the dispatch reference functions |
| LogoSupplier.MessageBusLogoSupplier.CompleteRequest | src/logo/MessageBusLogoSupplier.cpp:322-354 | a held mutex or an unknown id changes nothing; a known one gets its callback once, leaves the tracker, advances one counter and lets the next queued request go |
| LogoSupplier.MessageBusLogoSupplier.FailRequest | src/logo/MessageBusLogoSupplier.cpp:356-361 | completes a known request with a failure carrying the message |
| LogoSupplier.MessageBusLogoSupplier.OnAssetResponse | src/logo/MessageBusLogoSupplier.cpp:203-267 | ignored when uninitialised or without a request id; otherwise a successful response with decoded data is queued for a deferred save when its copy could be allocated, and then, unless the id is unknown or the mutex is held, the request is completed with the response |
| LogoSupplier.MessageBusLogoSupplier.DeferLogoSave | src/logo/MessageBusLogoSupplier.cpp:444-476 | while initialised, a response with data whose copy could be allocated joins the back of the deferred-save queue; nothing else changes |
| LogoSupplier.MessageBusLogoSupplier.ProcessDeferredSaves | src/logo/MessageBusLogoSupplier.cpp:478-511 | while initialised and with a save waiting, exactly the oldest is taken off the queue and its data written; otherwise nothing changes |
| LogoSupplier.MessageBusLogoSupplier.TimeoutExpiredRequests | src/logo/MessageBusLogoSupplier.cpp:278-320 | a held mutex changes nothing; otherwise every due request gets exactly one timeout failure in map order and leaves the tracker, the timeout counter advances by their number, and a dispatch follows only if any expired |
| LogoSupplier.MessageBusLogoSupplier.ProcessQueuedRequests | src/logo/MessageBusLogoSupplier.cpp:363-369 | a held mutex changes nothing; otherwise one dispatch attempt |
| LogoSupplier.LeakedLockStrandsRequest | src/logo/MessageBusLogoSupplier.cpp:115-140 | after a low-heap rejection the host's answer, the timeout and the shutdown are all skipped; the only callback made is the rejection, and the first request stays tracked |
| LogoSupplier.ReleasedLockAnswersRequest | src/logo/MessageBusLogoSupplier.cpp:109-168 | with the mutex released the same calls give the rejection, then the host's answer to the first request, and nothing stays tracked |
| LogoSupplier.DeferredSaveWritesLogo | src/logo/MessageBusLogoSupplier.cpp:252-266 | an answer whose data decodes to three bytes reaches the callback with that data, and the next update writes the logo once |
| LogoSupplier.MessageBusLogoSupplier.Update | src/logo/MessageBusLogoSupplier.cpp:170-181 | uninitialised, nothing changes; a held mutex keeps the tracker; otherwise it expires the due requests, then dispatches from the queue, the second dispatch attempt finding nothing more; in either case one deferred save, the oldest, is written |
| Messages.TypeToString | src/messaging/Message.cpp:214-237 | each of the nine types has its protocol name, any other value is "UNKNOWN" |
| Messages.StringToType | src/messaging/Message.cpp:239-257 | the result is a type whose protocol name is the string, or INVALID |
| Messages.TypeNameRoundTrip | src/messaging/Message.cpp:214-257 | every type, INVALID included, survives the trip through its name |
| Messages.UnknownNameIsInvalid | src/messaging/Message.cpp:239-257 | a string reads as INVALID exactly when it names none of the eight real types |
| Messages.BeforeNul | src/messaging/Message.cpp:158-198 | the characters a C string reads: a prefix without NUL that stops at the first NUL or the end |
| Messages.CopyBounded | src/messaging/Message.cpp:33-35 | what strncpy into a zeroed buffer leaves: a prefix of the source that fits the buffer, and the source itself exactly when it fits |
| Messages.DeviceIdOr | src/messaging/Message.cpp:19 | the given device id, or the configured one when it is empty |
| Messages.CreateStatusRequest | src/messaging/Message.cpp:16-23 | a valid GET_STATUS message with the effective device id, the request id and the clock |
| Messages.CreateAssetRequest | src/messaging/Message.cpp:25-37 | a valid asset request whose process name is the longest prefix of the given one that fits its buffer |
| Messages.CreateVolumeChange | src/messaging/Message.cpp:39-52 | a valid SET_VOLUME message with the volume, an empty target and the process name cut to its buffer |
| Messages.CreateAudioStatus | src/messaging/Message.cpp:54-63 | a valid AUDIO_STATUS message carrying the audio data unchanged |
| Messages.CreateAssetResponse | src/messaging/Message.cpp:65-75 | a valid ASSET_RESPONSE answering the given request id and carrying the asset unchanged |
| Messages.ToJson | src/messaging/Message.cpp:81-137 | the document has the type and timestamp members |
| Messages.FromJson | src/messaging/Message.cpp:139-208 | a parse error gives the default INVALID message; otherwise the type is read and a missing timestamp becomes the clock |
| Messages.FromJsonPayload | src/messaging/Message.cpp:155-205 | each type fills in exactly its own payload, the names cut to their buffers |
| Messages.MalformedIsInvalid | src/messaging/Message.cpp:143-150 | malformed JSON or a document without messageType gives a message that is not valid |
| Messages.MissingTargetIsDefault | src/messaging/Message.cpp:197-198 | a volume command without target is aimed at "default" |
| Messages.CoreRoundTrip | src/messaging/Message.cpp:84-88 | the four header members read back from any serialised message |
| Messages.HeaderRoundTrip | src/messaging/Message.cpp:149-153 | fromJson reads back the header toJson wrote, whatever the type |
| Messages.VolumeFieldsRoundTrip | src/messaging/Message.cpp:117-122 | the volume payload reads back from its own members |
| Messages.VolumeReadsBack | src/messaging/Message.cpp:117-122 | the volume payload of a serialised volume command reads back unchanged |
| Messages.VolumeRoundTrip | src/messaging/Message.cpp:81-208 | fromJson(toJson(m)) gives m back for SET_VOLUME and VOLUME_CHANGE when its names fit their buffers |
| Messages.AssetRequestRoundTrip | src/messaging/Message.cpp:103-105 | an asset request survives the round trip when its process name fits |
| Messages.AssetFieldsRoundTrip | src/messaging/Message.cpp:107-115 | the asset response payload reads back from its own members |
| Messages.AssetResponseReadsBack | src/messaging/Message.cpp:177-190 | the payload of a serialised asset response reads back unchanged |
| Messages.AssetResponseRoundTrip | src/messaging/Message.cpp:81-208 | an asset response survives the round trip when its texts fit their buffers |
| Messages.AudioFieldsRoundTrip | src/messaging/Message.cpp:92-101 | the audio payload reads back from its own members |
| Messages.AudioReadsBack | src/messaging/Message.cpp:157-169 | the payload of a serialised audio status reads back unchanged |
| Messages.AudioRoundTrip | src/messaging/Message.cpp:81-208 | an audio status survives the round trip when its names fit their buffers |
| Messages.CreatedVolumeChangeRoundTrip | src/messaging/Message.cpp:39-208 | a volume change built by the factory reaches the other side unchanged, its name already cut to the buffer |
| MessageData.NewExternal | src/messaging/protocol/MessageData.h:173-192 | a new message has the given type and ids, the clock as timestamp, no originator and no data |
| MessageData.RequiresResponse | src/messaging/protocol/MessageData.cpp:15-23 | true exactly for GET_STATUS and GET_ASSETS |
| MessageData.RequestsAreNotHighPriority | src/messaging/protocol/MessageData.cpp:15-23 | a message that expects an answer is a status or asset message and never high priority |
| MessageData.ParseExternalMessageType | src/messaging/protocol/MessageData.cpp:217-245 | a successful result comes from a non-empty payload that deserialised to a document with a messageType member; it is that member read with `as<int>()`, and it is one of the six registered types |
| MessageData.TypeFromNumericText | src/messaging/protocol/MessageData.cpp:237-244 | a messageType written as the decimal text of a registered type reads as that type, so {"messageType":"2"} is GET_STATUS |
| Json.IntTextRoundTrip | src/messaging/protocol/MessageData.cpp:237 | the decimal text of any integer, as `as<int>()` reads text, gives the integer back |
| MessageData.ReadText | src/messaging/protocol/MessageData.cpp:277-279 | a string member reads as itself either way; a missing member reads as "" under the inline parser's default-"" reading and as "null" under `as<String>()` |
| MessageData.ParseExternalMessageWith | src/messaging/protocol/MessageData.cpp:247-299 | fails exactly when the type parse fails, with its error; otherwise the three ids are the members as the reading reads them, a zero timestamp becomes the clock, the message is validated and keeps every member |
| MessageData.ParseExternalMessage | src/messaging/protocol/MessageData.cpp:247-299 | fails exactly when the type parse fails, with its error; otherwise the ids are read with `as<String>()`, so a missing requestId, deviceId or originatingDeviceId is "null"; a zero timestamp becomes the clock, and the message is validated and keeps every member |
| MessageData.ParseErrorsExactly | src/messaging/protocol/MessageData.cpp:217-299 | each error is returned exactly in its case: empty payload, JSON error, missing messageType, and a messageType whose `as<int>()` is not registered |
| MessageData.ShouldIgnoreMessage | src/messaging/protocol/MessageData.cpp:301-318 | ignored exactly when INVALID, sent by this device, or originated by it |
| MessageData.IgnoreIsSelfOrigin | src/messaging/protocol/MessageData.cpp:10-13 | for a non-empty own id the filter is exactly isSelfOriginated, and an ignored message is always self-originated |
| MessageData.SessionsOf | src/messaging/protocol/MessageData.cpp:333-348 | one session per array element, in order, each member read with `as<T>()` |
| MessageData.EmptySessionReadsNull | src/messaging/protocol/MessageData.cpp:338-345 | a session element without members reads as process id 0, names and state "null", volume 0 and unmuted |
| MessageData.ParseAudioStatusData | src/messaging/protocol/MessageData.cpp:320-376 | fails exactly for types other than the two status types; the timestamp is the message's, there is a default device exactly when the member exists, one session per array element, a missing reason, originatingDeviceId or originatingRequestId reads "null", and the session count is the member's `as<int>()` |
| MessageData.ParseAudioStatusWith | src/messaging/protocol/MessageData.cpp:320-376 | the same outcomes with the texts read in the given way: each optional text is the member as the reading reads it |
| MessageData.SessionsRoundTrip | src/messaging/protocol/MessageData.cpp:333-348 | reading back the sessions array the serializer builds gives the sessions, whichever way texts are read |
| MessageData.SessionRoundTrip | src/messaging/protocol/MessageData.cpp:336-346 | one session reads back from the object the serializer builds for it |
| MessageData.DefaultDeviceRoundTrip | src/messaging/protocol/MessageData.cpp:351-360 | reading back the default-device object the serializer builds gives the device |
| MessageData.CreateStatusResponse | src/messaging/protocol/MessageData.cpp:467-523 | the document is a STATUS_MESSAGE from this device |
| MessageData.StatusHeaderFields | src/messaging/protocol/MessageData.cpp:467-523 | the response carries this device's id and the status timestamp, and has no requestId member, which therefore reads as null |
| MessageData.StatusBodyFields | src/messaging/protocol/MessageData.cpp:467-523 | the response carries the sessions, the session count and the default device exactly when there is one |
| MessageData.StatusTextFields | src/messaging/protocol/MessageData.cpp:467-523 | each optional text is a member exactly when it is non-empty; an empty one is missing and reads as null |
| MessageData.StatusResponseRoundTrip | src/messaging/protocol/MessageData.cpp:320-523 | a status response parsed back as the firmware parses it: the requestId reads "null" and so does every empty optional text; the rest is the status sent, with a zero timestamp replaced by the clock |
| MessageData.StatusResponseRoundTripWith | src/messaging/protocol/MessageData.cpp:320-523 | with any reading, the status comes back with each optional text as the reading makes of a member written only when non-empty |
| MessageData.EmptyReasonReadsNull | src/messaging/protocol/MessageData.cpp:364 | a status with an empty reason comes back with reason "null", so it is not the status that was sent |
| MessageData.DefaultingStatusResponseRoundTrip | src/messaging/protocol/MessageData.h:377-379 | read with default-"" fallbacks, a status response comes back as exactly the status sent (a zero timestamp replaced by the clock), with an empty requestId |
| MessageData.AssetResponseOf | src/messaging/protocol/MessageData.cpp:50-69 | the header fields are copied; without metadata (or with null) the size is 0×0 and the format ""; with a metadata object the size is its members' `as<int>()` and a missing format is "null"; a missing processName is "" |
| MessageData.ParseAssetResponseData | src/messaging/protocol/MessageData.cpp:378-393 | fails exactly for types other than ASSET_RESPONSE, else the asset response read from the message |
| MessageData.ExtraMembers | src/messaging/protocol/MessageData.cpp:415-429 | exactly the members of parsedData other than the five core keys, with their values |
| MessageData.SerializeExternalMessage | src/messaging/protocol/MessageData.cpp:399-441 | the document has the four core fields, the originator exactly when non-empty, and every other member of parsedData unchanged |
| MessageData.SerializeParseRoundTrip | src/messaging/protocol/MessageData.cpp:247-441 | serializing a valid message and parsing it back as the firmware does restores type, ids and timestamp except that an empty originator comes back "null"; serializing again gives the same document exactly when the originator was non-empty |
| MessageData.SerializeParseRoundTripWith | src/messaging/protocol/MessageData.cpp:247-441 | with any reading, the round trip restores type, requestId, deviceId, timestamp and the extra members, and the originator is what the reading makes of a member written only when non-empty |
| MessageData.EmptyOriginReadsNull | src/messaging/protocol/MessageData.cpp:279 | a message without an originator comes back with originator "null", which a second serialization writes out as a member |
| MessageData.DefaultingSerializeParseRoundTrip | src/messaging/protocol/MessageData.h:377-379 | read with default-"" fallbacks, the round trip restores every header field and serializing again gives the same document |
| MessageData.ExternalToInternal | src/messaging/protocol/MessageData.cpp:555-586 | status types become one audio-state update whose status is the parser's, an asset response one asset response, anything else nothing; the payload points at the parse result destroyed when its case ends, so neither getTypedData read gives a value |
| MessageData.ReadStatus | src/messaging/protocol/MessageData.h:243-246 | getTypedData gives a status exactly for a status payload the message owns, and then the stored status |
| MessageData.ReadAsset | src/messaging/protocol/MessageData.h:243-246 | getTypedData gives an asset response exactly for an asset payload the message owns, and then the stored response |
| MessageData.ConvertWith | src/messaging/protocol/MessageData.cpp:555-586 | at most one message, present exactly for the three convertible types, with the parsed payload held in the given storage and the clock as timestamp |
| MessageData.ExternalToInternalCopying | src/messaging/protocol/MessageData.cpp:555-586 | with the payload copied into the message, the status or asset response read back is the one the parser produced |
| MessageData.InternalToExternal | src/messaging/protocol/MessageData.cpp:588-606 | an audio-state update becomes a STATUS_MESSAGE from this device with the internal timestamp, anything else the default INVALID message |
| MessageData.OwnMessagesIgnored | src/messaging/protocol/MessageData.cpp:301-318 | whatever the converter sends out is dropped by the loop filter if it comes back |
| MessageData.ConvertRoundTrip | src/messaging/protocol/MessageData.cpp:555-606 | out and back in gives exactly one audio-state update for an audio-state update and nothing otherwise; as written its status carries the internal timestamp but cannot be read |
| MessageData.CopyingConvertRoundTrip | src/messaging/protocol/MessageData.cpp:555-606 | with the payload copied, the round trip gives a readable status carrying the internal timestamp |
| MessageTypes.ExternalCategoryOf | src/messaging/protocol/MessageTypes.cpp:147-161 | Status exactly for the three status types, Assets exactly for the two asset types, Session exactly for SESSION_UPDATE |
| MessageTypes.ExternalPriorityOf | src/messaging/protocol/MessageTypes.cpp:181-195 | High exactly for STATUS_UPDATE and SESSION_UPDATE, Low exactly for the two asset types |
| MessageTypes.ExternalTablesAgree | src/messaging/protocol/MessageTypes.cpp:147-195 | only the six registered types have a category, the asset category is exactly the low priority, and unregistered values are normal priority |
| MessageTypes.ExternalTypeToString | src/messaging/protocol/MessageTypes.cpp:239-249 | the registered name for indices 0..5, "INVALID" otherwise |
| MessageTypes.StringToExternalType | src/messaging/protocol/MessageTypes.cpp:114-118 | a null or unknown string gives INVALID, a registered name its type |
| MessageTypes.ExternalNamesRoundTrip | src/messaging/protocol/MessageTypes.cpp:27-40 | looking up the name of a registered type gives the type back |
| MessageTypes.ExternalStringsRoundTrip | src/messaging/protocol/MessageTypes.cpp:228-249 | a string that maps to a registered type is that type's name |
| MessageTypes.InternalCategoryOf | src/messaging/protocol/MessageTypes.cpp:163-175 | the category of the hundred for 100..799, UNKNOWN outside |
| MessageTypes.InternalCategoryByHundreds | src/messaging/protocol/MessageTypes.cpp:163-175 | two values below 800 share a category exactly when they are in the same hundred |
| MessageTypes.InternalPriorityOf | src/messaging/protocol/MessageTypes.cpp:197-215 | High exactly for UI, core communication and audio; Low exactly for monitoring and file system |
| MessageTypes.InternalPriorityRanges | src/messaging/protocol/MessageTypes.cpp:163-215 | the priority in terms of the raw value: high for the 200s, 400s and 700s, low for the 300s and 500s |
| OTA.StateString | src/ota/MultithreadedOTA.cpp:51-66 | each state of the enumeration has its own name, any other value is "UNKNOWN" |
| OTA.StateStringInjective | src/ota/MultithreadedOTA.cpp:51-66 | no two values share a state name and no state is called "UNKNOWN", so the name identifies the state |
| OTA.ErrorString | src/ota/MultithreadedOTA.cpp:68-80 | each error has its own description, any other value is "Invalid Error" |
| OTA.ErrorStringInjective | src/ota/MultithreadedOTA.cpp:68-80 | the description identifies the error |
| OTA.DownloadSpeedAsWritten | src/ota/MultithreadedOTA.cpp:93-96 | 0 for no elapsed time, else the floor of the 32-bit wrapped product bytes*1000 divided by the time |
| OTA.DownloadSpeedWraps | src/ota/MultithreadedOTA.cpp:93-96 | 5,000,000 bytes in one second is reported as 705,032 bytes per second instead of 5,000,000 |
| OTA.DownloadSpeedAsWrittenExact | src/ota/MultithreadedOTA.cpp:93-96 | the report is exact if and only if bytes*1000 fits in 32 bits, and never too high |
| OTA.DownloadSpeed | src/ota/MultithreadedOTA.cpp:93-96 | bytes per second as intended: the floor of bytes*1000 over the time, 0 for no elapsed time |
| OTA.ETA | src/ota/MultithreadedOTA.cpp:98-102 | whole seconds to fetch the remaining bytes at the speed, 0 when the speed is 0 or nothing remains |
| OTA.ETAMonotone | src/ota/MultithreadedOTA.cpp:98-102 | more bytes downloaded at the same speed never raises the estimate |
| OTA.ControlFlags | src/ota/MultithreadedOTA.cpp:169-193 | retry is offered exactly in FAILED; cancel is refused exactly in INSTALLING, VERIFYING, SUCCESS and CANCELLED |
| OTA.RetryImpliesCancel | src/ota/MultithreadedOTA.cpp:169-193 | a retry is only offered together with a cancel |
| OTA.Progress.constructor | src/ota/MultithreadedOTA.cpp:786-790 | the progress starts IDLE with cancel allowed and retry not, and its flags agree with its state |
| OTA.Progress.SetState | src/ota/MultithreadedOTA.cpp:163-201 | with the mutex taken, the state is stored, the flags follow it and one state update is posted; without it nothing changes; flags that agreed with the state still agree |
| SimpleLogos.Unreserved | src/logo/SimpleLogoManager.cpp:383-396 | each reserved character becomes '_' and every other character is kept in its place |
| SimpleLogos.TrimPart | src/logo/SimpleLogoManager.cpp:398-399 | trimming keeps a contiguous part of the text without white space at either end |
| SimpleLogos.SanitizeProcessName | src/logo/SimpleLogoManager.cpp:380-405 | the sanitised name is never empty |
| SimpleLogos.SanitizedIsClean | src/logo/SimpleLogoManager.cpp:380-405 | a sanitised name has no reserved character and no white space at its ends, and is "unknown" or a part of the name with its reserved characters replaced |
| SimpleLogos.SanitizeKeepsCleanNames | src/logo/SimpleLogoManager.cpp:380-405 | a name that is already clean comes back unchanged, case included |
| SimpleLogos.SanitizeIdempotent | src/logo/SimpleLogoManager.cpp:380-405 | sanitising a sanitised name changes nothing |
| SimpleLogos.SanitizeKeepsCase | src/logo/SimpleLogoManager.cpp:380-405 | letters keep their case, unlike the binary store's file names |
| SimpleLogos.SanitizeTrimsAndReplaces | src/logo/SimpleLogoManager.cpp:380-405 | "  a/b  " becomes "a_b": the inner reserved character replaced, the outer blanks trimmed |
| SimpleLogos.LogoPath | src/logo/SimpleLogoManager.cpp:376-378 | the logo path is the logos directory, a slash, exactly the name and ".png" |
| SimpleLogos.LVGLPath | src/logo/SimpleLogoManager.cpp:168-170 | the LVGL path is the drive letter followed by the logo path of the sanitised name |
| SimpleLogos.LogoLVGLPath | src/logo/SimpleLogoManager.cpp:248-255 | a path is changed exactly when it is absolute, and then only by prefixing LVGL's drive |
| SimpleLogos.LogoLVGLPathIdempotent | src/logo/SimpleLogoManager.cpp:248-255 | converting a converted path changes nothing |
| SimpleLogos.LVGLPathsAgree | src/logo/SimpleLogoManager.cpp:168-170 | converting a process's logo path gives the same path as asking for the process's LVGL path |
| SimpleLogos.DotlessBinListed | src/logo/SimpleLogoManager.cpp:201-211 | the scan lists a file named "robin", which has no ".bin" extension; the corrected filter does not |
| SimpleLogos.LogoEntriesListed | src/logo/SimpleLogoManager.cpp:201-211 | the corrected filter lists only files the filter as written lists |
| SimpleLogos.LogoPaths | src/logo/SimpleLogoManager.cpp:201-211 | a path is collected exactly when it is the logos directory plus the name of a file the filter as written (`endsWith("bin")` without the dot) lists |
| SimpleLogos.CorrectedLogoPaths | src/logo/SimpleLogoManager.cpp:201-211 | the same with the dotted ".bin" test |
| SimpleLogos.CorrectedLogoPathsWithin | src/logo/SimpleLogoManager.cpp:201-211 | the corrected scan collects a subset of what the scan as written collects |
| SimpleLogos.RobinCached | src/logo/SimpleLogoManager.cpp:201-211 | a card holding only "robin" caches "/logos/robin"; the corrected scan caches nothing |
| SimpleLogos.CollectLogoPaths | src/logo/SimpleLogoManager.cpp:197-213 | the cached list holds exactly the paths the filter as written collects, in sorted order |
| SimpleLogos.PageOf | src/logo/SimpleLogoManager.cpp:221-238 | a page is the slice from its start of at most the page size, and empty when the start is past the list or the size is not positive |
| SimpleLogos.PagedLogos | src/logo/SimpleLogoManager.cpp:221-238 | the loop returns the page for index times page size |
| SimpleLogos.PagesTile | src/logo/SimpleLogoManager.cpp:221-238 | the first pages, read one after the other, are the list's prefix: every logo once, in order |
| SimpleLogos.FailuresShape | src/logo/SimpleLogoManager.cpp:93-99 | every failure is unsuccessful, carries no data and the given error; with callbacks everywhere there is one per request |
| SimpleLogos.OverduePrefix | src/logo/SimpleLogoManager.cpp:84-89 | the first pass collects exactly the overdue requests among the keys scanned, each at most once |
| SimpleLogos.OverdueIds | src/logo/SimpleLogoManager.cpp:84-89 | an id is collected exactly when its request is overdue |
| SimpleLogos.NotOverdue | src/logo/SimpleLogoManager.cpp:92-101 | the requests left in flight are exactly those not overdue, unchanged |
| SimpleLogos.TimeoutPassSettles | src/logo/SimpleLogoManager.cpp:76-101 | after the timeout pass nothing left is overdue, so a second pass at the same time does nothing |
| SimpleLogos.TimeoutPassPartitions | src/logo/SimpleLogoManager.cpp:76-101 | the requests timed out and those left add up to the requests in flight |
| SimpleLogos.CollectOverdue | src/logo/SimpleLogoManager.cpp:84-89 | the first loop collects the overdue ids in map order |
| SimpleLogos.FailOverdue | src/logo/SimpleLogoManager.cpp:92-101 | the second loop erases exactly the listed ids, fails each one's callback in order and counts each |
| SimpleLogos.ExpireOverdue | src/logo/SimpleLogoManager.cpp:76-101 | both passes leave the requests within the timeout and fail and count the overdue ones in map order |
| SimpleLogos.FailAllPending | src/logo/SimpleLogoManager.cpp:64-70 | every request in flight gets its failure callback, in map order |
| SimpleLogos.SimpleLogoManager.constructor | src/logo/SimpleLogoManager.cpp:15-20 | a fresh manager is uninitialised, tracks nothing, has no cached list and zero counters |
| SimpleLogos.SimpleLogoManager.Init | src/logo/SimpleLogoManager.cpp:22-58 | succeeds exactly with the card mounted and the logos directory in place, and then the manager is initialised; nothing else changes |
| SimpleLogos.SimpleLogoManager.Deinit | src/logo/SimpleLogoManager.cpp:60-74 | before init nothing changes; otherwise every request in flight fails with "System shutting down", in map order, the tracker empties and the manager is uninitialised |
| SimpleLogos.SimpleLogoManager.RequestLogo | src/logo/SimpleLogoManager.cpp:103-150 | before init the callback gets "Not initialized" and the call fails; a usable stored logo is delivered at once; otherwise an asset request for the sanitised name is sent and tracked under its id |
| SimpleLogos.SimpleLogoManager.Track | src/logo/SimpleLogoManager.cpp:131-149 | the request is tracked under its id, one asset request is sent and one submission counted |
| SimpleLogos.SimpleLogoManager.Update | src/logo/SimpleLogoManager.cpp:76-101 | before init nothing changes; otherwise the overdue requests fail with "Request timed out" in map order, leave the tracker and are counted |
| SimpleLogos.SimpleLogoManager.ScanLogosOnce | src/logo/SimpleLogoManager.cpp:183-219 | a list younger than the cache timeout is kept; otherwise it is cleared and, with the card mounted, rebuilt sorted from the listing with the filter as written and stamped with the time |
| SimpleLogos.SimpleLogoManager.GetPagedLogos | src/logo/SimpleLogoManager.cpp:221-238 | the page of the cached list, scanning first only when nothing is cached |
| SimpleLogos.SimpleLogoManager.GetTotalLogoCount | src/logo/SimpleLogoManager.cpp:240-246 | the number of cached logo paths, scanning first only when nothing is cached |
| UiQueue.MessageTypeName | src/application/ui/LVGLMessageHandler.cpp:88-124 | the table's name for a listed code, "UNKNOWN" exactly for codes outside the table |
| UiQueue.NameCode | src/application/ui/LVGLMessageHandler.cpp:88-116 | the first code from a position on whose name is the text, or -1 exactly when no later entry has it |
| UiQueue.NameCodeRoundTrip | src/application/ui/LVGLMessageHandler.cpp:88-124 | a listed name is the name of the code found for it; any other text has no code and reads as "UNKNOWN" |
| UiQueue.HandledTypesAreNamed | src/application/ui/LVGLMessageHandler.cpp:1315-1345 | every type with a handler has a name in the table, and none of them is the unhandled SD_STATUS |
| UiQueue.DrainLimit | src/application/ui/LVGLMessageHandler.cpp:1439-1456 | the per-tick budget is between 5 and 15: 5 up to 16 waiting, 15 above 64 |
| UiQueue.DrainLimitMonotone | src/application/ui/LVGLMessageHandler.cpp:1439-1456 | a fuller queue never gets a smaller budget |
| UiQueue.DrainCount | src/application/ui/LVGLMessageHandler.cpp:1459-1471 | the number taken is bounded by the queue, the budget and the time, and equals one of them |
| UiQueue.DispatchedMembers | src/application/ui/LVGLMessageHandler.cpp:1465-1470 | exactly the messages whose type has a handler are dispatched; the others are dropped |
| UiQueue.DispatchedAppend | src/application/ui/LVGLMessageHandler.cpp:1459-1471 | dispatching two batches one after the other is dispatching both, in order |
| UiQueue.DispatchedAllHandled | src/application/ui/LVGLMessageHandler.cpp:1465-1470 | messages of handled types are all dispatched, in queue order |
| UiQueue.Purged | src/application/ui/LVGLMessageHandler.cpp:1481-1497 | above 100 waiting the oldest 20 are dropped, otherwise the queue is kept; what stays is a suffix |
| UiQueue.AfterTickBound | src/application/ui/LVGLMessageHandler.cpp:1419-1512 | one tick on a queue within its capacity of 128 leaves at most 108 waiting and never adds any |
| UiQueue.AfterTickSuffix | src/application/ui/LVGLMessageHandler.cpp:1419-1512 | a tick removes only the oldest messages: what is left is a suffix of the queue |
| UiQueue.FifoDelivery | src/application/ui/LVGLMessageHandler.cpp:1459-1471 | with time and budget to spare, a queue of handled messages is delivered completely and in order |
| UiQueue.DrainQueue | src/application/ui/LVGLMessageHandler.cpp:1459-1471 | the loop leaves the queue without its first DrainCount messages and dispatches those that have handlers, in order |
| UiQueue.PurgeQueue | src/application/ui/LVGLMessageHandler.cpp:1481-1497 | the purge loop leaves the reference purged queue |
| UiQueue.TabVolumeMessageType | src/application/ui/LVGLMessageHandler.cpp:1740-1756 | tab 1 picks the single volume message, tab 2 the balance one, anything else the master one; all have handlers |
| UiQueue.DeviceNameField | src/application/ui/LVGLMessageHandler.cpp:1673-1728 | a null name is empty, a name is cut to a prefix that fits its buffer and kept whole when it fits |
| UiQueue.SignalStrength | src/application/ui/LVGLMessageHandler.cpp:1075-1085 | "Excellent" exactly above -50 dBm, "Very Poor" exactly at or below -80, each label for its 10 dBm band |
| UiQueue.SignalStrengthMonotone | src/application/ui/LVGLMessageHandler.cpp:1075-1085 | a stronger signal never gets a worse label |
| UiQueue.SignalLabelsDistinct | src/application/ui/LVGLMessageHandler.cpp:1075-1085 | the five labels are distinct, so the label identifies the band |
| UiQueue.MessageHandler.constructor | src/application/ui/LVGLMessageHandler.cpp:1349 | before init the queue handle is null, nothing is waiting and no timer runs |
| UiQueue.MessageHandler.Init | src/application/ui/LVGLMessageHandler.cpp:1354-1395 | a fresh empty queue replaces the old one; success exactly when the queue, the display and the timer all exist, and each success adds one more running timer |
| UiQueue.MessageHandler.Deinit | src/application/ui/LVGLMessageHandler.cpp:1397-1402 | the queue is deleted and its waiting messages are lost; the timers keep running, so any running timer now meets a null handle |
| UiQueue.MessageHandler.DeinitStoppingTimers | src/application/ui/LVGLMessageHandler.cpp:1397-1402 | the intended deinit: the queue is deleted and no timer is left running |
| UiQueue.MessageHandler.SendMessage | src/application/ui/LVGLMessageHandler.cpp:1404-1417 | succeeds exactly with a queue, a message and room; then the message is appended, otherwise nothing changes |
| UiQueue.MessageHandler.ProcessMessageQueue | src/application/ui/LVGLMessageHandler.cpp:1419-1512 | on a null handle the run is recorded as a failed queue assertion and nothing else changes; otherwise the queue becomes the reference after-tick queue and the dispatched messages are delivered in order |
| UiQueue.TickAfterDeinit | src/application/ui/LVGLMessageHandler.cpp:1384-1402 | init then deinit leaves one timer running, and its next run meets the null handle |
| UiQueue.NoTickAfterStoppingDeinit | src/application/ui/LVGLMessageHandler.cpp:1384-1402 | with the intended deinit no timer is left and no run meets the null handle |
| UiQueue.MessageHandler.UpdateVolume | src/application/ui/LVGLMessageHandler.cpp:1651-1670 | posts one volume message of the given type exactly when the queue exists and has room |
| UiQueue.MessageHandler.UpdateCurrentTabVolume | src/application/ui/LVGLMessageHandler.cpp:1740-1756 | posts the volume message of the active tab exactly when the queue exists and has room |
| UiQueue.MessageHandler.UpdateDevice | src/application/ui/LVGLMessageHandler.cpp:1673-1703 | posts one device message with the name cut to its buffer exactly when the queue exists and has room |
| UiQueue.MessageHandler.UpdateBalanceDevices | src/application/ui/LVGLMessageHandler.cpp:1705-1728 | posts one message with both names cut to their buffers exactly when the queue exists and has room |

## Left out

- Message sizes: `Message.h` (lines 58-67) gives its `AudioData` struct none of the fields that `Message.cpp` (lines 93-99) serialises. The model takes the name buffers as 64 bytes (`AUDIO_NAME_SIZE`) and 128 bytes (`DEFAULT_DEVICE_NAME_SIZE`), the sizes of the session and default-device names elsewhere. These sizes are assumptions.
- SimpleLogos: `SimpleLogoManager.h` is not part of this model. The pending-request container is taken to be a `std::map` keyed by request id and iterated in key order; its member is named `pendingRequests` in `SimpleLogoManager.cpp`.
- Text: a Dafny `char` stands for one byte of an Arduino `String` or `char[]`. Length limits (100, 50, 255, 200, 128 and the buffer sizes) therefore count characters. UTF-8 byte lengths, and truncation in the middle of a multi-byte character, are not modelled.
- Progress.SetState: the model always records the state update, but `sendUIUpdate` (`src/ota/MultithreadedOTA.cpp`, lines 274-292) drops it when the UI queue is missing or full.
- Hashable.Set: the model compares the old and new values by content. For `const char*` fields the source's `!=` compares pointers, so equal text at a different address counts as a change there.
- Enhanced: `logoVerified` and `logoFlagged` are left unset by the source when no metadata is found, and the model makes them false. The per-entry 8192-byte free-heap check of the listing callback is not modelled; the heap is checked once per load.
- Concurrency is not modelled: RTOS tasks, mutexes, semaphores and the timer callbacks' threads. Each method runs atomically. The one mutex state kept is whether the logo supplier's request mutex can still be taken (`lockLeaked`).
- The clock (`millis`, `getMillis`), the free heap, SD card results and message-bus health are parameters. Callbacks and published messages are recorded in sequences instead of being invoked.
- JSON text is not parsed or printed. A deserialised document is a `Json` value, and a failed deserialisation is `None`. The ArduinoJson v7 conversions are modelled as that library defines them: `as<String>()` gives "null" for a missing or null member, "true"/"false" for a boolean and the decimal text for an integer; `as<int>()` reads an integer in 32-bit range, a boolean as 0/1 and a string of an optional sign and digits as its number, and anything else as 0; `x | default` gives the default unless the member has the default's type. An integer outside the target type's range reads as 0. Two things are simplified: `as<String>()` of an array or object gives "" (ArduinoJson prints the JSON text), and a string with a fraction or an exponent reads as 0.
- Json.AsNumber: `as<float>()` is read as an integer, so fractional volumes and float rounding are not modelled.
- LogoSupplier.ResponseOf: the response's `timestamp` and `deviceId`, which `onAssetResponse` and `createAssetResponse` set from the message, are not carried; no member of the model reads them.
- LogoSupplier.MessageBusLogoSupplier.OnAssetResponse: the allocation and the `mbedtls_base64_decode` call are a parameter (`decoded`, None when either failed), and so is the success of the deep-copy `malloc` in `deferLogoSave` (`copyAllocated`). The deferred-save mutex exists exactly while the supplier is initialised (`init` creates it, `deinit` deletes it), and its 1000 ms and 10 ms take timeouts are taken to succeed.
- LogoSupplier.MessageBusLogoSupplier.ProcessDeferredSaves: `saveAssetToStorage`'s card write is recorded in `saved`; whether it succeeded is only logged by the source and is not modelled. The deferred queue is not cleared by `init` or `deinit`, as in the source.
- SimpleLogos.Stats: the counters are naturals. Their declared type is in `SimpleLogoManager.h`, which is not part of this model, so their wrap-around is not modelled.
- FileExplorer.FileExplorerManager.NavigateBack: `restoreUIState` (`FileExplorerManager.cpp`, lines 2332-2367) scrolls the LVGL list and re-selects the row named `lastSelectedItemName`. The model restores the saved scroll position and name but does not re-select the row, because list rows are not modelled.
- Floating point is not modelled. Volumes are integer percentages, and the 0.0–1.0 volume scaling and the download-speed text are left out.
- Some macros are used in the source but not defined in any file of this model: `EXECUTE_DEVICE_OPERATION`, `NOTIFY_STATE_CHANGE_IF_DIFFERENT`, `UPDATE_BALANCE_SELECTION`, `VALIDATE_BALANCE_DEVICES_VOID` and `BALANCE_VOLUME_DISTRIBUTE`. Their meaning is taken from how they are used.
- AudioManager `selectBalanceDevices` and `setBalanceVolume` are left out. They rest on `UPDATE_BALANCE_SELECTION` and `BALANCE_VOLUME_DISTRIBUTE`, whose definitions are not part of this model, and the latter takes a float ratio.
- SetVolumeForCurrentDevice: on the Balance tab the model only returns the volume handed to `setBalanceVolume` (with ratio 0.0). The split between the two balance devices, the notification and the status publication that call makes are not modelled, because `setBalanceVolume` is left out.
- CurrentSelection and ValidateDeviceSelections: the `AudioAppState` in `AudioData.h` has three slots, and its `getCurrentSelectedDevice` (lines 150-172) reads `selectedMainDevice` on the Single tab. `audio/AudioManager.cpp` reads and writes a fourth slot, `selectedSingleDevice`, on that tab (lines 98, 166, 582-586, 707-710), so it is built against a header that is not part of this model. The model follows `audio/AudioManager.cpp`: Single reads its own slot, and validation covers all four slots. For the Single tab this differs from `AudioData.h` as written.
- ValidateDeviceSelections: for the reason on the line above, it also clears a dangling `selectedSingleDevice`, which the three-slot `validateDeviceSelections` of `AudioData.h` (lines 224-229) has no field for.
- AudioManager `checkAndRequestLogosForAudioProcesses` and `checkSingleProcessLogo` are left out, because they only start logo fetches. `getTabName` and `publishStatusRequest` are left out, because they only produce log text or a bus send. `getDevice` is the map lookup `AudioData.FindDevice`.
- The enum header that numbers `ExternalMessageType` is not part of this model. The six types are numbered in registry order (0–5), and every other value is INVALID.
- The numeric values of `InternalMessageType` are not part of this model either. Category and priority are stated over the raw 16-bit code, and the internal type-name registry is left out.
- The `MSG_START_MARKER`, `MSG_END_MARKER`, `MSG_ESCAPE_CHAR` and related constants in `BinaryProtocol.cpp` are taken to equal the header constants of `BinaryProtocol.h`.
- The dangling-escape check in `processCompleteMessage` cannot be reached, because the receiver unescapes 0x7F after 0x7D as data. It is stated as a lemma and has no branch of its own.
- A `std::map` is iterated in byte-wise lexicographic key order, the order of Arduino `String::compareTo`. Selection slots are map keys, so "points at this entry" becomes "holds this key".
- FileExplorer `MAX_HISTORY_SIZE` is not defined in any file of this model and is a constructor parameter. The default-constructed manager's fields start empty.
- SimpleLogos `REQUEST_TIMEOUT_MS` and `CACHE_TIMEOUT_MS` are not defined in any file of this model and are constructor parameters.
- SimpleLogos `handleAssetResponse`, `deleteLogo`, `hasLogo` and the card reads and writes are left out as SD I/O. A stored logo is passed to `RequestLogo` as a parameter.
- LogoMatching: reading and writing logo metadata on the card is left out. The stored `patterns` field is a parameter, and the result is the text that would be written. Buffer bytes after the copied terminator are not specified. A null output buffer is not modelled, because a Dafny array is never null.
- DeviceSelectors: an LVGL dropdown is its options text plus the selected index. `clear_options` resets the selection to 0, an out-of-range selection reads as "", and drawing is not modelled.
- UiQueue: the handler bodies that build widgets are left out. A dispatched message is recorded instead. A run of `processMessageQueue` on a null queue handle, after `deinit` or a failed allocation, is recorded in `nullQueueTicks` rather than modelled as a crash. When a second `init` replaces a live queue, the old queue is leaked and a second timer starts; the model only counts the timers.
- LogoBinaryStorage: only file naming is modelled. Which binaries exist is a parameter, and the card I/O is left out.
- Base64: decoding is modelled as written. The third and fourth characters of a group are not checked against the alphabet, as the Findings show.
- The widget trees, screen builders, display and transport drivers, OTA, network and boot plumbing, and the duplicate older copies of these files are not part of this model.

## Findings

| source | as written | input that shows it | evidently intended | confidence | as-written member | corrected member |
|---|---|---|---|---|---|---|
| src/ota/MultithreadedOTA.cpp:93-96 | `bytesDownloaded * 1000` is computed in 32 bits before the division, so it wraps once 4,294,968 bytes are passed | 5,000,000 bytes in 1000 ms gives 705,032 bytes/s | bytes per second from the exact product, 5,000,000 | not executed | OTA.DownloadSpeedWraps | OTA.DownloadSpeed |
| src/logo/SimpleLogoManager.cpp:434-444 | only the first two characters of a group are checked, and an invalid third or fourth character feeds 0xFF into the output | "QQ#=" decodes to the bytes 65, 63 | text with a non-alphabet character is rejected (returns 0) | not executed | Base64.ForeignThirdCharacterAccepted | Base64.StrictAcceptsOnlyAlphabet |
| src/logo/SimpleLogoManager.cpp:204-206 | the scan filter tests `endsWith("bin")` without the dot | a file named "robin" is listed as a logo | only ".png", ".c" and ".bin" files are listed | not executed | SimpleLogos.DotlessBinListed | SimpleLogos.LogoEntriesListed |
| src/application/LogoManager.cpp:478-488 | the pattern is searched as a substring, so the first entry that merely contains it is cut | removing "chrome" from "chrome2,chrome" stores "2,chrome" | the entry equal to the pattern is removed, giving "chrome2" | not executed | LogoMatching.RemoveBySubstring | LogoMatching.RemoveEntryEntries |
| src/application/FileExplorerManager.cpp:304-305 | `navigateToPath` calls `loadDirectory` before it sets `currentPath`, and the per-row logo test `isInLogosDirectory` (lines 1298-1300, 1358) reads `currentPath`, so rows are labelled by the directory being left | going from "/" into "/logos/files", which holds only "a.bin", shows "a.bin" as a plain file | the directory being loaded decides the labels, so "a.bin" is a logo file | not executed | FileExplorer.LogoFileUnmarkedOnEntry | FileExplorer.IntendedLoadMarksLogoFiles |
| src/logo/MessageBusLogoSupplier.cpp:115-140 | the low-heap branch of `requestLogo` returns after `MUTEX_GUARD` took the mutex, without `MUTEX_RELEASE`; every later take fails, so responses, timeouts and the shutdown failures are skipped | request "r1" with enough heap, then "r2" with none; the host's answer to "r1", its timeout and `deinit` all do nothing, and "r1" never gets a callback | the mutex is released before the rejection returns, and "r1" gets its answer | not executed | LogoSupplier.LeakedLockStrandsRequest | LogoSupplier.ReleasedLockAnswersRequest |
| src/application/ui/LVGLMessageHandler.cpp:1397-1402 | `deinit` deletes the queue and nulls its handle but leaves the timer created at line 1384 running, so the next run of `processMessageQueue` passes NULL to `uxQueueMessagesWaiting` (line 1434) | `init` succeeds, then `deinit`, then the timer fires | `deinit` also deletes the timer, so no run meets a null handle | not executed | UiQueue.TickAfterDeinit | UiQueue.NoTickAfterStoppingDeinit |
| src/messaging/protocol/MessageData.cpp:277-279 | `parseExternalMessage` reads the ids with `as<String>()`, which gives "null" for a missing member, while the serializer omits an empty originatingDeviceId | a message with originatingDeviceId "" serialised and parsed back has originatingDeviceId "null", and serialising it again writes `"originatingDeviceId":"null"` | an absent id reads as "", as the inline parser of `MessageData.h` (lines 377-379) reads it with a default of "" | not executed | MessageData.EmptyOriginReadsNull | MessageData.DefaultingSerializeParseRoundTrip |
| src/messaging/protocol/MessageData.cpp:364-366 | `parseAudioStatusData` reads reason, originatingDeviceId and originatingRequestId with `as<String>()`, while `createStatusResponse` writes each only when non-empty | a status with reason "" sent as a status response comes back with reason "null" | an unwritten text reads back as "" and the status round-trips | not executed | MessageData.EmptyReasonReadsNull | MessageData.DefaultingStatusResponseRoundTrip |
| src/messaging/protocol/MessageData.cpp:561-576 | `externalToInternal` passes `&parseResult.getValue()` to `InternalMessage`, and `parseResult` is destroyed when the case block ends; the message keeps that address (`MessageData.h`, lines 236-240) or a bytewise copy whose String and vector members point into freed buffers (`MessageData.cpp`, lines 33-44) | any STATUS_UPDATE message: the audio-state update it produces carries a status that cannot be read after the conversion returns | the payload is owned by the message (a deep copy), so `getTypedData` gives the parsed status | not executed | MessageData.ConvertRoundTrip | MessageData.CopyingConvertRoundTrip |
