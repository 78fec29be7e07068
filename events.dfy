/**
 * `Event::new` (src/file/track/data/event/mod.rs): the dispatcher that reads a
 * status byte and hands the rest of the event to the matching payload reader.
 *
 * Text meta events (sub-types 01 to 07) and the sequencer-specific meta event
 * (7F) are read without a length byte; their payload length is the parameter
 * `payloadLength`, asked for at the position where the payload starts.
 */
module Events {
  import opened Reader
  import opened MidiMessages
  import CV = ChannelVoice
  import Meta
  import Sysex

  datatype MidiEventTypes =
    | ChannelVoiceMessage(voice: VoiceEventType)
    | ChannelModeMessage(mode: ModeEventType)

  datatype SysexEventTypes =
    | F0SysexEvent(f0: Sysex.F0SysexEvent)
    | F7SysexEvent(f7: Sysex.F7SysexEvent)

  datatype MetaEventTypes =
    | SequenceNumber(sequenceNumber: Meta.SequenceNumber)
    | TextEvent(textEvent: Meta.Text)
    | CopyrightNotice(copyrightNotice: Meta.Text)
    | SequenceTrackName(sequenceTrackName: Meta.Text)
    | InstrumentName(instrumentName: Meta.Text)
    | Lyric(lyric: Meta.Text)
    | Marker(marker: Meta.Text)
    | CuePoint(cuePoint: Meta.Text)
    | MidiChannelPrefix(midiChannelPrefix: Meta.MidiChannelPrefix)
    | EndOfTrack(endOfTrack: Meta.EndOfTrack)
    | SetTempo(setTempo: Meta.SetTempo)
    | SmtpeOffset(smtpeOffset: Meta.SmtpeOffset)
    | TimeSignature(timeSignature: Meta.TimeSignature)
    | KeySignature(keySignature: Meta.KeySignature)
    | SequencerSpecificMetaEvent(sequencerSpecific: Meta.SequencerSpecific)

  datatype Event =
    | MidiEvent(midi: MidiEventTypes)
    | SysExEvent(sysex: SysexEventTypes)
    | MetaEvent(meta: MetaEventTypes)

  function Voice(v: VoiceEventType): Event
  {
    MidiEvent(ChannelVoiceMessage(v))
  }

  /**
   * What `Event::new` yields at `pos`. Only whether `lastEvent` is present is
   * looked at. The first byte and the meta sub-type byte are read with
   * `unwrap`, so running out there is a panic rather than an error.
   */
  function EventNew(bytes: seq<Byte>, pos: nat, lastEvent: Option<Event>, payloadLength: nat -> U32): (r: Result<Parsed<Event>>)
    ensures pos >= |bytes| ==> r == Failure(Panic(UnwrapOnEndOfInput))
    ensures r.Success? ==> pos + 2 <= r.value.next <= |bytes|
  {
    if pos >= |bytes| then Failure(Panic(UnwrapOnEndOfInput))
    else
      var status := bytes[pos];
      if status < 0x80 && lastEvent.None? then Failure(NoPreviousEvent)
      else if status < 0x80 then Failure(Panic(Unimplemented))
      else if status < 0xF0 then VoiceEventNew(bytes, pos + 1, status)
      else if status == 0xFF then MetaEventNew(bytes, pos + 1, payloadLength)
      else Failure(UnknownEvent)
  }

  /** The channel voice branches: the high nibble picks the reader, the low nibble is the channel. */
  function VoiceEventNew(bytes: seq<Byte>, p: nat, status: Byte): (r: Result<Parsed<Event>>)
    requires 0x80 <= status < 0xF0
    ensures r.Success? ==> r.value.next == p + DataLength(status / 0x10) <= |bytes|
  {
    var channel := status % 0x10;
    match status / 0x10
    case 0x8 =>
      var m :- CV.ReadNoteChange(bytes, p, channel);
      Success(Parsed(Voice(NoteOff(m.value)), m.next))
    case 0x9 =>
      var m :- CV.ReadNoteChange(bytes, p, channel);
      Success(Parsed(Voice(NoteOn(m.value)), m.next))
    case 0xA =>
      var m :- CV.ReadPolyphonicKeyPressure(bytes, p, channel);
      Success(Parsed(Voice(PolyphonicKeyPressure(m.value)), m.next))
    case 0xB =>
      var m :- CV.ReadControllerChange(bytes, p, channel);
      Success(Parsed(Voice(ControllerChange(m.value)), m.next))
    case 0xC =>
      var m :- CV.ReadProgramChange(bytes, p, channel);
      Success(Parsed(Voice(ProgramChange(m.value)), m.next))
    case 0xD =>
      var m :- CV.ReadChannelKeyPressure(bytes, p, channel);
      Success(Parsed(Voice(ChannelKeyPressure(m.value)), m.next))
    case 0xE =>
      var m :- CV.ReadPitchBend(bytes, p, channel);
      Success(Parsed(Voice(PitchBend(m.value)), m.next))
  }

  /**
   * The high nibble of the status byte is the message kind, the low nibble the
   * channel, and the data bytes of the message are exactly the bytes consumed;
   * the only failure is running out of data bytes.
   */
  lemma VoiceEventShape(bytes: seq<Byte>, p: nat, status: Byte)
    requires 0x80 <= status < 0xF0
    ensures var r := VoiceEventNew(bytes, p, status);
      && (r.Success? <==> p + DataLength(status / 0x10) <= |bytes|)
      && (r.Failure? ==> r.error == EndOfInput)
      && (r.Success? ==>
            && r.value.value.MidiEvent? && r.value.value.midi.ChannelVoiceMessage?
            && Kind(r.value.value.midi.voice) == status / 0x10
            && Channel(r.value.value.midi.voice) == status % 0x10
            && DataBytes(r.value.value.midi.voice) == bytes[p..r.value.next])
  {
  }

  /** `if reader.read_to_u8()? == expected`: the length byte of a fixed-size meta event. */
  function CheckMetaLength(bytes: seq<Byte>, q: nat, expected: Byte): (r: Result<nat>)
    ensures r.Success? <==> q < |bytes| && bytes[q] == expected
    ensures r.Success? ==> r.value == q + 1
    ensures r.Failure? ==> r.error == if q < |bytes| then UnknownEvent else EndOfInput
  {
    var length :- ReadU8(bytes, q);
    if length.value == expected then Success(length.next) else Failure(UnknownEvent)
  }

  /** The text tag of meta sub-types 01 to 07. */
  function TextTag(sub: Byte, t: Meta.Text): MetaEventTypes
    requires 0x01 <= sub <= 0x07
  {
    if sub == 0x01 then TextEvent(t)
    else if sub == 0x02 then CopyrightNotice(t)
    else if sub == 0x03 then SequenceTrackName(t)
    else if sub == 0x04 then InstrumentName(t)
    else if sub == 0x05 then Lyric(t)
    else if sub == 0x06 then Marker(t)
    else CuePoint(t)
  }

  /** The meta branch, from the sub-type byte on. */
  function MetaEventNew(bytes: seq<Byte>, p: nat, payloadLength: nat -> U32): (r: Result<Parsed<Event>>)
    ensures p >= |bytes| ==> r == Failure(Panic(UnwrapOnEndOfInput))
    ensures r.Success? ==> p + 1 <= r.value.next <= |bytes| && r.value.value.MetaEvent?
  {
    if p >= |bytes| then Failure(Panic(UnwrapOnEndOfInput))
    else
      var sub := bytes[p];
      var q := p + 1;
      if sub == 0x00 then
        var start :- CheckMetaLength(bytes, q, 0x02);
        var m :- Meta.ReadSequenceNumber(bytes, start);
        Success(Parsed(MetaEvent(SequenceNumber(m.value)), m.next))
      else if 0x01 <= sub <= 0x07 then
        var m :- Meta.ReadText(bytes, q, payloadLength(q));
        Success(Parsed(MetaEvent(TextTag(sub, m.value)), m.next))
      else if sub == 0x20 then
        var start :- CheckMetaLength(bytes, q, 0x01);
        var m :- Meta.ReadMidiChannelPrefix(bytes, start);
        Success(Parsed(MetaEvent(MidiChannelPrefix(m.value)), m.next))
      else if sub == 0x2F then
        var start :- CheckMetaLength(bytes, q, 0x00);
        Success(Parsed(MetaEvent(EndOfTrack(Meta.EndOfTrack)), start))
      else if sub == 0x51 then
        var start :- CheckMetaLength(bytes, q, 0x03);
        var m :- Meta.ReadSetTempo(bytes, start);
        Success(Parsed(MetaEvent(SetTempo(m.value)), m.next))
      else if sub == 0x54 then
        var start :- CheckMetaLength(bytes, q, 0x05);
        var m :- Meta.ReadSmtpeOffset(bytes, start);
        Success(Parsed(MetaEvent(SmtpeOffset(m.value)), m.next))
      else if sub == 0x58 then
        var start :- CheckMetaLength(bytes, q, 0x04);
        var m :- Meta.ReadTimeSignature(bytes, start);
        Success(Parsed(MetaEvent(TimeSignature(m.value)), m.next))
      else if sub == 0x59 then
        var start :- CheckMetaLength(bytes, q, 0x02);
        var m :- Meta.ReadKeySignature(bytes, start);
        Success(Parsed(MetaEvent(KeySignature(m.value)), m.next))
      else if sub == 0x7F then
        var m :- Meta.ReadSequencerSpecific(bytes, q, payloadLength(q));
        Success(Parsed(MetaEvent(SequencerSpecificMetaEvent(m.value)), m.next))
      else Failure(UnknownEvent)
  }

  /** The length byte each fixed-size meta sub-type must carry; `None` for the others. */
  function FixedMetaLength(sub: Byte): Option<Byte>
  {
    if sub == 0x00 then Some(2)
    else if sub == 0x20 then Some(1)
    else if sub == 0x2F then Some(0)
    else if sub == 0x51 then Some(3)
    else if sub == 0x54 then Some(5)
    else if sub == 0x58 then Some(4)
    else if sub == 0x59 then Some(2)
    else None
  }

  /**
   * The meta event a fixed-size sub-type carries, given its payload bytes:
   * each sub-type has its own tag, and each field is taken from the payload
   * the way its reader in src/file/track/data/event/meta.rs takes it.
   */
  function FixedMeta(sub: Byte, payload: seq<Byte>): MetaEventTypes
    requires FixedMetaLength(sub).Some? && |payload| == FixedMetaLength(sub).value
  {
    if sub == 0x00 then SequenceNumber(Meta.SequenceNumber(BeWord(payload, 0)))
    else if sub == 0x20 then MidiChannelPrefix(Meta.MidiChannelPrefix(payload[0]))
    else if sub == 0x2F then EndOfTrack(Meta.EndOfTrack)
    else if sub == 0x51 then SetTempo(Meta.SetTempo(BeWord(payload, 0) + payload[2]))
    else if sub == 0x54 then SmtpeOffset(Meta.SmtpeOffset(payload[0], payload[1], payload[2], payload[3], payload[4]))
    else if sub == 0x58 then TimeSignature(Meta.TimeSignature(payload[0], payload[1], payload[2], payload[3]))
    else KeySignature(Meta.KeySignature(payload[0], payload[1] == 0))
  }

  /** The meta sub-type a text tag stands for. */
  function TextSubType(m: MetaEventTypes): int
  {
    match m
    case TextEvent(_) => 0x01
    case CopyrightNotice(_) => 0x02
    case SequenceTrackName(_) => 0x03
    case InstrumentName(_) => 0x04
    case Lyric(_) => 0x05
    case Marker(_) => 0x06
    case CuePoint(_) => 0x07
    case _ => -1
  }

  /**
   * A data byte (bit 7 clear) in status position: `NoPreviousEvent` without a
   * previous event, the `unimplemented!` panic with one.
   */
  lemma DataByteInStatusPosition(bytes: seq<Byte>, pos: nat, lastEvent: Option<Event>, payloadLength: nat -> U32)
    requires pos < |bytes| && bytes[pos] < 0x80
    ensures lastEvent.None? ==> EventNew(bytes, pos, lastEvent, payloadLength) == Failure(NoPreviousEvent)
    ensures lastEvent.Some? ==> EventNew(bytes, pos, lastEvent, payloadLength) == Failure(Panic(Unimplemented))
  {
  }

  /** The previous event is looked at only for whether it is there, never for what it is. */
  lemma OnlyPresenceOfLastEventMatters(bytes: seq<Byte>, pos: nat, a: Option<Event>, b: Option<Event>, payloadLength: nat -> U32)
    requires a.Some? <==> b.Some?
    ensures EventNew(bytes, pos, a, payloadLength) == EventNew(bytes, pos, b, payloadLength)
  {
  }

  /** From a status byte with bit 7 set on, the previous event makes no difference at all. */
  lemma StatusByteIgnoresLastEvent(bytes: seq<Byte>, pos: nat, lastEvent: Option<Event>, payloadLength: nat -> U32)
    requires pos < |bytes| && bytes[pos] >= 0x80
    ensures EventNew(bytes, pos, lastEvent, payloadLength) == EventNew(bytes, pos, None, payloadLength)
  {
  }

  /**
   * Status bytes 80 to EF: the event is the voice message whose status byte
   * and data bytes are exactly the bytes consumed, so decoding undoes
   * `StatusByte` and `DataBytes`; it fails only for lack of data bytes.
   */
  lemma VoiceEventDecodesItsBytes(bytes: seq<Byte>, pos: nat, lastEvent: Option<Event>, payloadLength: nat -> U32)
    requires pos < |bytes| && 0x80 <= bytes[pos] < 0xF0
    ensures var r := EventNew(bytes, pos, lastEvent, payloadLength);
      && (r.Success? <==> pos + 1 + DataLength(bytes[pos] / 0x10) <= |bytes|)
      && (r.Failure? ==> r.error == EndOfInput)
      && (r.Success? ==>
            && r.value.value.MidiEvent? && r.value.value.midi.ChannelVoiceMessage?
            && var v := r.value.value.midi.voice;
            && HasStatusByte(v)
            && StatusByte(v) == bytes[pos]
            && r.value.next == pos + 1 + |DataBytes(v)|
            && DataBytes(v) == bytes[pos + 1..r.value.next])
  {
    var status := bytes[pos];
    VoiceEventShape(bytes, pos + 1, status);
    assert status == status / 0x10 * 0x10 + status % 0x10;
  }

  /** Encoding a voice message and decoding it gives the message back, whatever follows. */
  lemma VoiceEventRoundTrip(v: VoiceEventType, rest: seq<Byte>, lastEvent: Option<Event>, payloadLength: nat -> U32)
    requires HasStatusByte(v)
    ensures EventNew([StatusByte(v)] + DataBytes(v) + rest, 0, lastEvent, payloadLength)
         == Success(Parsed(Voice(v), 1 + |DataBytes(v)|))
  {
    var bytes := [StatusByte(v)] + DataBytes(v) + rest;
    VoiceEventDecodesItsBytes(bytes, 0, lastEvent, payloadLength);
    var w := EventNew(bytes, 0, lastEvent, payloadLength).value.value.midi.voice;
    assert bytes[1..1 + |DataBytes(v)|] == DataBytes(v);
    VoiceBytesDetermineMessage(v, w);
  }

  /**
   * The fixed-size meta events: after FF and the sub-type, one length byte
   * that must be exactly the table's value (else `UnknownEvent`), then that
   * many payload bytes, decoded into the sub-type's own meta event.
   */
  lemma FixedSizeMetaEvent(bytes: seq<Byte>, pos: nat, lastEvent: Option<Event>, payloadLength: nat -> U32)
    requires pos + 1 < |bytes| && bytes[pos] == 0xFF && FixedMetaLength(bytes[pos + 1]).Some?
    ensures var r := EventNew(bytes, pos, lastEvent, payloadLength);
      var expected := FixedMetaLength(bytes[pos + 1]).value;
      && (pos + 2 == |bytes| ==> r == Failure(EndOfInput))
      && (pos + 2 < |bytes| && bytes[pos + 2] != expected ==> r == Failure(UnknownEvent))
      && (pos + 2 < |bytes| && bytes[pos + 2] == expected ==>
            && (r.Success? <==> pos + 3 + expected <= |bytes|)
            && (r.Success? ==>
                  && r.value.next == pos + 3 + expected
                  && r.value.value == MetaEvent(FixedMeta(bytes[pos + 1], bytes[pos + 3..pos + 3 + expected])))
            && (r.Failure? ==> r.error == EndOfInput))
  {
  }

  /**
   * Sub-types 01 to 07 give seven distinct text tags, each holding the next
   * `payloadLength` bytes unchanged; no length byte is read.
   */
  lemma TextMetaEvent(bytes: seq<Byte>, pos: nat, lastEvent: Option<Event>, payloadLength: nat -> U32)
    requires pos + 1 < |bytes| && bytes[pos] == 0xFF && 0x01 <= bytes[pos + 1] <= 0x07
    ensures var r := EventNew(bytes, pos, lastEvent, payloadLength);
      var n := payloadLength(pos + 2);
      && (r.Success? <==> n == 0 || pos + 2 + n <= |bytes|)
      && (r.Failure? ==> r.error == EndOfInput)
      && (r.Success? ==>
            && r.value.next == pos + 2 + n
            && r.value.value.MetaEvent?
            && TextSubType(r.value.value.meta) == bytes[pos + 1]
            && r.value.value.meta == TextTag(bytes[pos + 1], Meta.Text(bytes[pos + 2..pos + 2 + n])))
  {
  }

  /** Sub-type 7F is the sequencer-specific event, spanning exactly `payloadLength` bytes. */
  lemma SequencerSpecificMetaEventSpan(bytes: seq<Byte>, pos: nat, lastEvent: Option<Event>, payloadLength: nat -> U32)
    requires pos + 1 < |bytes| && bytes[pos] == 0xFF && bytes[pos + 1] == 0x7F
    ensures var r := EventNew(bytes, pos, lastEvent, payloadLength);
      var s := Meta.ReadSequencerSpecific(bytes, pos + 2, payloadLength(pos + 2));
      && (r.Success? <==> s.Success?)
      && (r.Failure? ==> r.error == s.error)
      && (r.Success? ==>
            r.value == Parsed(MetaEvent(SequencerSpecificMetaEvent(s.value.value)), pos + 2 + payloadLength(pos + 2)))
  {
  }

  /** Any other meta sub-type (08 to 1F, 21, 7E, ...) is an `UnknownEvent`. */
  lemma UnknownMetaSubType(bytes: seq<Byte>, pos: nat, lastEvent: Option<Event>, payloadLength: nat -> U32)
    requires pos + 1 < |bytes| && bytes[pos] == 0xFF
    requires FixedMetaLength(bytes[pos + 1]).None? && !(0x01 <= bytes[pos + 1] <= 0x07) && bytes[pos + 1] != 0x7F
    ensures EventNew(bytes, pos, lastEvent, payloadLength) == Failure(UnknownEvent)
  {
  }

  /** Status bytes F0 to FE, system-exclusive F0 and F7 among them, are all an `UnknownEvent`. */
  lemma SystemStatusRejected(bytes: seq<Byte>, pos: nat, lastEvent: Option<Event>, payloadLength: nat -> U32)
    requires pos < |bytes| && 0xF0 <= bytes[pos] < 0xFF
    ensures EventNew(bytes, pos, lastEvent, payloadLength) == Failure(UnknownEvent)
  {
  }

  /** Every way `Event::new` can fail: a stream or decoder error, or one of three panics. */
  lemma EventNewErrors(bytes: seq<Byte>, pos: nat, lastEvent: Option<Event>, payloadLength: nat -> U32)
    ensures var r := EventNew(bytes, pos, lastEvent, payloadLength);
      r.Failure? ==> r.error in {EndOfInput, VlvTooBig, NoPreviousEvent, UnknownEvent,
                                 Panic(UnwrapOnEndOfInput), Panic(Unimplemented), Panic(SubtractOverflow)}
  {
  }
}
