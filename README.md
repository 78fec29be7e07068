# midi_lib Standard MIDI File decoder, modelled in Dafny

This project models the decoder of the Rust crate `midi_lib`. The decoder turns a
Standard MIDI File byte stream into an `SMF` value: a header chunk (`MThd`: chunk
length, format, number of tracks, division system) and one `SMFTrackChunk` per
announced track (`MTrk`: chunk length, then a list of track events). A track event
is a variable-length delta-time followed by an event. The event is a channel
voice message or a meta event. The dispatcher reads the status byte and hands
the rest to a payload reader.

The byte stream is a `seq<Byte>` with a cursor position. Every reader is a
function from the bytes and a position to `Result<Parsed<T>>`: the decoded
value with the position after it, or an error. The `?` errors of the code are
error tags. The ways the code aborts the process are `Panic(cause)` values:
`unwrap` at the end of input, the `assert_eq!` on a chunk tag, `unimplemented!`
and the u32 underflow in the sequencer-specific reader. Loops of the code
(`read_vlv`, the event loop of `SMFTrackChunk::read`, the track loop of
`SMF::read`) are methods with `while`/`for` loops. Each is proved equal to a
specification function. The properties are proved about that function.

Modules, bottom up: `Reader` (stream primitives), `VlvRead` (src/lib.rs),
`ChannelVoice`, `RunningStatus`, `ChannelMode`, `Sysex`, `MidiMessages` (the
message readers and unions), `Meta` (meta payload readers), `Events`
(`Event::new`), `TrackEvents` (`TrackEvent::new`), `Track`
(`SMFTrackChunk::read`), `Header` (`SMFHeaderChunk::read`) and `Smf`
(`SMF::read`).

### Code versus the MIDI file format

The model follows the code wherever the code and the published file format
differ. Each divergence is kept as written. The first four are shown by a
lemma that puts the code's reading beside a separate "standard" function; the
others by a lemma or a contract that states what the code does instead:
- VLQ values are accumulated by adding the low seven bits of each byte, without shifting (`VlvRead.AdditionDivergesFromStandard`).
- The set-tempo payload is read as a 16-bit word plus the third byte (`Meta.SetTempoDivergesFromStandard`).
- SMPTE frames per second are kept as bits 8 to 14 of the division word, not shifted down, not negated (`Header.FramesPerSecondUnshifted`).
- Pitch bend is read as a big-endian 16-bit word (`ChannelVoice.PitchBendDivergesFromStandard`).
- Running status is not decoded. A data byte in status position fails (`NoPreviousEvent`) or aborts (`unimplemented!`) (`Events.DataByteInStatusPosition`).
- Text and sequencer-specific meta events are read without their length byte (`Events.TextMetaEvent`, `Events.SequencerSpecificMetaEventSpan`).
- System-exclusive status bytes are rejected (`Events.SystemStatusRejected`).
- The length of a fixed-size meta event is read as one byte and compared with the expected value; the format writes it as a variable-length quantity (`Events.CheckMetaLength`, `Events.FixedSizeMetaEvent`).
- The chunk length is not checked exactly: the event loop stops at the first event ending at or past the announced end, so a chunk may overshoot it (`Track.ChunkShape`, `Track.ZeroLengthStillReadsOneEvent`).

## Model

| member | source | states |
|---|---|---|
| `Reader.ReadU8` | src/lib.rs:30 | one byte is read exactly when one is left; otherwise `EndOfInput` |
| `Reader.ReadBeU16` | src/file/header/mod.rs:46 | two bytes, most significant first, exactly when two are left |
| `Reader.ReadBeU32` | src/file/header/mod.rs:45 | four bytes as their big-endian value, exactly when four are left |
| `Reader.ReadExact` | src/file/track/data/event/meta.rs:28-29 | `n` bytes are the next `n` bytes unchanged; reading nothing always succeeds |
| `Reader.ExpectTag` | src/file/header/mod.rs:44 | fewer than four bytes give `EndOfInput`, four other bytes than the tag give the magic-number panic, the tag itself moves the cursor by four |
| `VlvRead.Vlv` | src/lib.rs:26-41 | success gives 1 to 5 bytes, all but the last with bit 7 set, value = sum of their low seven bits (at most 5 * 127), length = bytes read; failure is `EndOfInput` or `VlvTooBig` |
| `VlvRead.ReadVlv` | src/lib.rs:26-41 | the byte-by-byte loop with its counter yields exactly `Vlv` |
| `VlvRead.VlvTooBigIff` | src/lib.rs:35-37 | `VlvTooBig` exactly when the five bytes from the cursor all have bit 7 set |
| `VlvRead.VlvSuccessIff` | src/lib.rs:29-40 | success exactly when a byte with bit 7 clear comes within the first five |
| `VlvRead.VlvSingleByte` | src/lib.rs:30-33 | a byte below 0x80 decodes to itself in one byte |
| `VlvRead.SumBelowStandard` | src/lib.rs:31 | the sum the code computes never exceeds the shift-and-or value of the same bytes |
| `VlvRead.AdditionDivergesFromStandard` | src/lib.rs:31 | one byte agrees with the format's reading; `81 00` reads as 1 where the format means 128 |
| `ChannelVoice.ReadNoteChange` | src/file/track/data/event/midi/channel_voice_message.rs:14-22 | given channel, then key and velocity from the next two bytes; fails only for lack of bytes |
| `ChannelVoice.ReadPolyphonicKeyPressure` | src/file/track/data/event/midi/channel_voice_message.rs:33-41 | given channel, then key and pressure from the next two bytes |
| `ChannelVoice.ReadControllerChange` | src/file/track/data/event/midi/channel_voice_message.rs:52-60 | given channel, then controller number and value from the next two bytes |
| `ChannelVoice.ReadProgramChange` | src/file/track/data/event/midi/channel_voice_message.rs:70-76 | given channel, then the program number from the next byte |
| `ChannelVoice.ReadChannelKeyPressure` | src/file/track/data/event/midi/channel_voice_message.rs:86-92 | given channel, then the pressure from the next byte |
| `ChannelVoice.ReadPitchBend` | src/file/track/data/event/midi/channel_voice_message.rs:102-108 | given channel, then the next two bytes as a big-endian word |
| `ChannelVoice.PitchBendDivergesFromStandard` | src/file/track/data/event/midi/channel_voice_message.rs:103 | the centred wheel `00 40` reads as 0x0040, not the format's 0x2000 |
| `RunningStatus.FirstDataByte` | src/file/track/data/event/midi.rs:16-19 | a given byte is used without reading; otherwise the next byte is read |
| `RunningStatus.ReadNoteChange` | src/file/track/data/event/midi.rs:14-25 | key given or read, then velocity read; one or two bytes consumed accordingly |
| `RunningStatus.ReadPolyphonicKeyPressure` | src/file/track/data/event/midi.rs:35-46 | key given or read, then pressure read |
| `RunningStatus.ReadControllerChange` | src/file/track/data/event/midi.rs:56-67 | controller number given or read, then value read |
| `RunningStatus.ReadProgramChange` | src/file/track/data/event/midi.rs:76-85 | a given byte consumes nothing; otherwise one byte is read |
| `RunningStatus.ReadChannelKeyPressure` | src/file/track/data/event/midi.rs:94-103 | a given byte consumes nothing; otherwise one byte is read |
| `RunningStatus.ReadPitchBend` | src/file/track/data/event/midi.rs:112-121 | read: big-endian word; given byte `x` then byte `b`: `x + 0x100 * b` (little-endian reinterpretation) |
| `RunningStatus.GivenByteEqualsReadByte` | src/file/track/data/event/midi.rs:14-103 | for the five other readers, handing over `x` equals reading `x` from the stream with `x` put back |
| `RunningStatus.PitchBendGivenByteSwapsOrder` | src/file/track/data/event/midi.rs:115-116 | for pitch bend the two ways agree exactly when the two bytes are equal |
| `MidiMessages.VoiceBytesDetermineMessage` | src/file/track/data/event/midi/mod.rs:8-16 | two voice messages with the same status byte and data bytes are the same message |
| `Meta.ReadSequenceNumber` | src/file/track/data/event/meta.rs:13-18 | the next two bytes as a big-endian word |
| `Meta.ReadText` | src/file/track/data/event/meta.rs:27-34 | exactly `length` bytes, kept unchanged; length 0 always succeeds |
| `Meta.ReadMidiChannelPrefix` | src/file/track/data/event/meta.rs:43-48 | the next byte |
| `Meta.ReadMidiPort` | src/file/track/data/event/meta.rs:57-62 | the next byte |
| `Meta.ReadSetTempo` | src/file/track/data/event/meta.rs:74-79 | big-endian word of the first two bytes plus the third byte, so at most 0xFFFF + 0xFF |
| `Meta.SetTempoDivergesFromStandard` | src/file/track/data/event/meta.rs:75 | `00 00 01` and `00 01 00` both read as 1; `07 A1 20` is not 500000 |
| `Meta.ReadSmtpeOffset` | src/file/track/data/event/meta.rs:92-105 | five bytes in field order |
| `Meta.ReadTimeSignature` | src/file/track/data/event/meta.rs:117-128 | four bytes in field order |
| `Meta.ReadKeySignature` | src/file/track/data/event/meta.rs:138-146 | sharps/flats byte unchanged; major exactly when the second byte is 0 |
| `Meta.ReadSequencerSpecific` | src/file/track/data/event/meta.rs:157-173 | succeeds exactly when the VLQ id reads, fits in `total_length` and the input holds `total_length` bytes; then the id and the remaining `total_length - id_length` data bytes; an id longer than `total_length` is the underflow panic |
| `Events.EventNew` | src/file/track/data/event/mod.rs:87-173 | no byte left is the `unwrap` panic; success consumes at least two bytes and stays within the input |
| `Events.EventNewErrors` | src/file/track/data/event/mod.rs:87-173 | every failure is a stream or decoder error or one of three panics |
| `Events.DataByteInStatusPosition` | src/file/track/data/event/mod.rs:89-92 | a data byte in status position is `NoPreviousEvent` without a previous event and the `unimplemented!` panic with one |
| `Events.OnlyPresenceOfLastEventMatters` | src/file/track/data/event/mod.rs:89-92 | the previous event is looked at only for whether it is there |
| `Events.StatusByteIgnoresLastEvent` | src/file/track/data/event/mod.rs:93-107 | from a status byte on, the previous event makes no difference |
| `Events.VoiceEventNew` | src/file/track/data/event/mod.rs:93-106 | success consumes exactly the data length of the message kind |
| `Events.VoiceEventShape` | src/file/track/data/event/mod.rs:93-106 | high nibble = message kind, low nibble = channel, data bytes = bytes consumed; fails only with `EndOfInput` |
| `Events.VoiceEventDecodesItsBytes` | src/file/track/data/event/mod.rs:93-106 | status 80 to EF: the event is the voice message whose status byte and data bytes are exactly the bytes consumed |
| `Events.VoiceEventRoundTrip` | src/file/track/data/event/mod.rs:93-106 | decoding the encoding of a voice message gives it back, whatever follows |
| `Events.CheckMetaLength` | src/file/track/data/event/mod.rs:110 | the length byte must equal the expected one (else `UnknownEvent`); no byte is `EndOfInput` |
| `Events.MetaEventNew` | src/file/track/data/event/mod.rs:107-169 | no sub-type byte is the `unwrap` panic; success is a meta event within the input |
| `Events.FixedSizeMetaEvent` | src/file/track/data/event/mod.rs:109-164 | sub-types 00, 20, 2F, 51, 54, 58, 59 need their exact length byte, then exactly that many payload bytes, and yield that sub-type's own meta event with its fields taken from the payload (`FixedMeta`) |
| `Events.TextMetaEvent` | src/file/track/data/event/mod.rs:115-128 | sub-types 01 to 07 give seven distinct text tags holding the payload bytes, with no length byte read |
| `Events.SequencerSpecificMetaEventSpan` | src/file/track/data/event/mod.rs:165-166 | sub-type 7F is the sequencer-specific payload reader's result, spanning exactly the payload length |
| `Events.UnknownMetaSubType` | src/file/track/data/event/mod.rs:167-168 | any other sub-type (the MIDI port 21 among them) is `UnknownEvent` |
| `Events.SystemStatusRejected` | src/file/track/data/event/mod.rs:170-172 | status bytes F0 to FE, sysex included, are `UnknownEvent` |
| `TrackEvents.TrackEventNew` | src/file/track/data/mod.rs:19-26 | success consumes at least three bytes and stays within the input |
| `TrackEvents.TrackEventComposition` | src/file/track/data/mod.rs:19-26 | delta-time first (its failure stops everything), then the event right after it with the previous event unchanged; the delta-time keeps the VLQ value; the bytes consumed add up |
| `TrackEvents.NoteOnAtDeltaZero` | src/file/track/data/mod.rs:19-26 | `00 90 3C 40` is a note on, channel 0, key 0x3C, velocity 0x40, at delta 0 |
| `TrackEvents.EndOfTrackAtDeltaZero` | src/file/track/data/mod.rs:19-26 | `00 FF 2F 00` is the end-of-track meta event at delta 0 |
| `TrackEvents.DataByteAfterDeltaTime` | src/file/track/data/mod.rs:20-21 | a data byte right after the delta-time fails as the dispatcher says |
| `Track.TrackEventReader` | src/file/track/mod.rs:30 | `TrackEvent::new` always moves the cursor forward and never past the input |
| `Track.ReadChunkWith` | src/file/track/mod.rs:22-48 | the loop that pushes each event and keeps it as the previous one yields exactly `Track.ChunkWith`: the tag, the length, the first event read with no previous event, then `Track.ReadEvents` up to the announced end |
| `Track.ReadTrackChunk` | src/file/track/mod.rs:22-48 | `SMFTrackChunk::read` yields exactly `TrackChunk` |
| `Track.ReadEventsBounds` | src/file/track/mod.rs:36-43 | no event is read once the cursor is at or past the end; otherwise at least one, stopping at or past the end |
| `Track.ChunkShape` | src/file/track/mod.rs:22-48 | short input is `EndOfInput`, a wrong tag the magic-number panic; success holds the big-endian length, at least one event, and ends at or past the announced end |
| `Track.ReadEventsIsChain` | src/file/track/mod.rs:36-43 | the loop's events are exactly a chain: each read below the end, with the one before as previous event, where the one before ended |
| `Track.FirstEventHasNoPreviousEvent` | src/file/track/mod.rs:30-34 | the first event is read right after the chunk header with no previous event, and the rest follow it as a chain |
| `Track.FirstEventReachingEndIsAlone` | src/file/track/mod.rs:30-36 | a first event that already reaches the end (length 0, say) is the only event |
| `Track.FailureAfterChainAborts` | src/file/track/mod.rs:36-43 | after any number of successful reads below the end, a failing read is the loop's result |
| `Track.LaterFailureLosesChunk` | src/file/track/mod.rs:38 | a failing read of any event after the first is the chunk's result; the events before it are lost |
| `Track.ZeroLengthStillReadsOneEvent` | src/file/track/mod.rs:30-36 | a declared length of 0 still yields the end-of-track event and ends four bytes past the announced end |
| `Track.NoteOnThenDataByte` | src/file/track/mod.rs:36-38 | a note on followed by a data byte in status position aborts the chunk with `unimplemented!` |
| `Track.RunningStatusAbortsTrack` | src/file/track/mod.rs:36-38 | the same for a concrete chunk |
| `Track.FirstEventWithoutStatusByte` | src/file/track/mod.rs:30 | a first event with no status byte fails with `NoPreviousEvent` |
| `Header.FormatOf` | src/file/header/mod.rs:48-53 | formats 0, 1, 2 map to the three formats and back; anything else is `InvalidMidiFormat` |
| `Header.FormatRoundTrip` | src/file/header/mod.rs:48-53 | a format's word maps back to the format |
| `Header.DivisionOf` | src/file/header/mod.rs:57-66 | bit 15 clear gives ticks per quarter note, bit 15 set SMPTE frames; the fields put back in their bit positions rebuild the word (`DivisionWord`) |
| `Header.DivisionSplitsWord` | src/file/header/mod.rs:60-66 | with bit 15 set, ticks per frame fit in the low byte and frames per second are a multiple of 0x100 below 0x8000 |
| `Header.FramesPerSecondUnshifted` | src/file/header/mod.rs:62 | `E7 28` gives frames 0x6700 where the format means 25 |
| `Header.HeaderChunk` | src/file/header/mod.rs:43-75 | what `SMFHeaderChunk::read` yields: on success fourteen bytes were there and the cursor ends `length` bytes after the length field; the only failures are `EndOfInput`, `InvalidMidiFormat` and the magic-number panic (the fields are stated by `Header.HeaderShape`) |
| `Header.HeaderShape` | src/file/header/mod.rs:43-75 | tag errors as for tracks; a format above 2 fails before the track count is needed; success exactly with fourteen bytes, the tag and a format of at most 2; fields are the big-endian values at their offsets; the cursor ends `length` bytes after the length field |
| `Header.ShortLengthSeeksBack` | src/file/header/mod.rs:68 | a length below 6 seeks back into the fields just read |
| `Header.TwoTrackHeader` | src/file/header/mod.rs:43-75 | `MThd 00000006 0001 0002 0060` is format 1, two tracks, 96 ticks per quarter note, ending at byte 14 |
| `Smf.TrackChunkReader` | src/file/mod.rs:26 | the chunk reader is `SMFTrackChunk::read` at every position; a chunk it reads moves the cursor past the eight header bytes, stays within the input and holds at least one event |
| `Smf.ReadSmfWith` | src/file/mod.rs:21-32 | the header then `nb_tracks` pushes yield exactly `Smf.SmfWith`: the header chunk, then `Smf.Tracks`, `nb_tracks` chunks read one after the other |
| `Smf.ReadSmf` | src/file/mod.rs:21-32 | `SMF::read` yields exactly `SmfAt` |
| `Smf.TracksInStreamOrder` | src/file/mod.rs:25-27 | reading `n` chunks succeeds exactly with `n` chunks, each read where the one before ended |
| `Smf.FirstFailureAborts` | src/file/mod.rs:26 | the first failing chunk's error is the result of the loop |
| `Smf.SmfShape` | src/file/mod.rs:21-32 | a header failure is the result; on success the header is the one read, there are exactly `nb_tracks` tracks, in stream order from the header's end |
| `Smf.NoTracksReadsOnlyHeader` | src/file/mod.rs:25 | with `nb_tracks` = 0 nothing after the header is read and the file has no tracks |

## Left out

- The stream library `ez_io` and `std::io`: a stream is a byte sequence and a position. A seek is position arithmetic; no seek in the decoder can fail here.
- `println!` in `SMF::read` and the `Error`/`Display` impls with their message strings: only the error tags are kept.
- `String::from_utf8_lossy`: text meta events keep their raw bytes.
- The length of text and sequencer-specific meta events: `Event::new` calls their readers without a length, and no length byte is read. The model takes the length as the parameter `payloadLength`, asked at the position where the payload starts.
- `Unsafe transmute` in the running-status pitch-bend reader: a little-endian target is assumed.
- u32 arithmetic in `SequencerSpecific::read`: the subtraction below zero is the debug-build overflow panic; the release build's wrap-around is not modelled.
- `MIDIPort::read` is modelled, but the dispatcher never calls it (sub-type 21 is `UnknownEvent`).
- The readers of src/file/track/data/event/midi.rs are modelled, but no decoder calls them. Running status is never decoded: the code reaches `unimplemented!` instead.
- Channel mode messages and system-exclusive events exist as datatypes only: no reader of the code builds them.
- `Vec::with_capacity` and the `as usize` buffer sizes: allocation is not modelled.
- `Track.ReadChunkWith` and `Smf.ReadSmfWith` take the event reader and the track-chunk reader as function parameters. `Track.ReadTrackChunk` passes `TrackEvent::new`, and `Smf.ReadSmf` passes `TrackChunk`, the function `Track.ReadTrackChunk` is proved to compute. The file loop does not call the method itself.
- `Events.EventNew`, `Events.VoiceEventNew`, `Events.MetaEventNew`, `TrackEvents.TrackEventNew`: their own contracts state only how far the cursor moves. What they decode is stated by the lemmas beside them: `Events.VoiceEventShape` and `Events.VoiceEventDecodesItsBytes` for voice messages, `Events.FixedSizeMetaEvent`, `Events.TextMetaEvent` and `Events.SequencerSpecificMetaEventSpan` for meta events, `TrackEvents.TrackEventComposition` for track events.
