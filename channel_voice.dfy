/**
 * The channel voice message readers of
 * src/file/track/data/event/midi/channel_voice_message.rs. Each is handed the
 * channel (the low nibble of the status byte, already consumed) and reads a
 * fixed number of data bytes. Data bytes are not checked: a byte with bit 7 set
 * is taken as a field value like any other.
 */
module ChannelVoice {
  import opened Reader

  datatype NoteChange = NoteChange(channel: Byte, key: Byte, velocity: Byte)
  datatype PolyphonicKeyPressure = PolyphonicKeyPressure(channel: Byte, key: Byte, pressure: Byte)
  datatype ControllerChange = ControllerChange(channel: Byte, controllerNumber: Byte, controllerValue: Byte)
  datatype ProgramChange = ProgramChange(channel: Byte, newProgramNumber: Byte)
  datatype ChannelKeyPressure = ChannelKeyPressure(channel: Byte, value: Byte)
  datatype PitchBend = PitchBend(channel: Byte, value: U16)

  /** `NoteChange::read`: key, then velocity. */
  function ReadNoteChange(bytes: seq<Byte>, pos: nat, channel: Byte): (r: Result<Parsed<NoteChange>>)
    ensures r.Success? <==> pos + 2 <= |bytes|
    ensures r.Success? ==> r.value == Parsed(NoteChange(channel, bytes[pos], bytes[pos + 1]), pos + 2)
    ensures r.Failure? ==> r.error == EndOfInput
  {
    var key :- ReadU8(bytes, pos);
    var velocity :- ReadU8(bytes, key.next);
    Success(Parsed(NoteChange(channel, key.value, velocity.value), velocity.next))
  }

  /** `PolyphonicKeyPressure::read`: key, then pressure. */
  function ReadPolyphonicKeyPressure(bytes: seq<Byte>, pos: nat, channel: Byte): (r: Result<Parsed<PolyphonicKeyPressure>>)
    ensures r.Success? <==> pos + 2 <= |bytes|
    ensures r.Success? ==> r.value == Parsed(PolyphonicKeyPressure(channel, bytes[pos], bytes[pos + 1]), pos + 2)
    ensures r.Failure? ==> r.error == EndOfInput
  {
    var key :- ReadU8(bytes, pos);
    var pressure :- ReadU8(bytes, key.next);
    Success(Parsed(PolyphonicKeyPressure(channel, key.value, pressure.value), pressure.next))
  }

  /** `ControllerChange::read`: controller number, then value. */
  function ReadControllerChange(bytes: seq<Byte>, pos: nat, channel: Byte): (r: Result<Parsed<ControllerChange>>)
    ensures r.Success? <==> pos + 2 <= |bytes|
    ensures r.Success? ==> r.value == Parsed(ControllerChange(channel, bytes[pos], bytes[pos + 1]), pos + 2)
    ensures r.Failure? ==> r.error == EndOfInput
  {
    var number :- ReadU8(bytes, pos);
    var value :- ReadU8(bytes, number.next);
    Success(Parsed(ControllerChange(channel, number.value, value.value), value.next))
  }

  /** `ProgramChange::read`: one byte, the new program number. */
  function ReadProgramChange(bytes: seq<Byte>, pos: nat, channel: Byte): (r: Result<Parsed<ProgramChange>>)
    ensures r.Success? <==> pos < |bytes|
    ensures r.Success? ==> r.value == Parsed(ProgramChange(channel, bytes[pos]), pos + 1)
    ensures r.Failure? ==> r.error == EndOfInput
  {
    var program :- ReadU8(bytes, pos);
    Success(Parsed(ProgramChange(channel, program.value), program.next))
  }

  /** `ChannelKeyPressure::read`: one byte, the pressure value. */
  function ReadChannelKeyPressure(bytes: seq<Byte>, pos: nat, channel: Byte): (r: Result<Parsed<ChannelKeyPressure>>)
    ensures r.Success? <==> pos < |bytes|
    ensures r.Success? ==> r.value == Parsed(ChannelKeyPressure(channel, bytes[pos]), pos + 1)
    ensures r.Failure? ==> r.error == EndOfInput
  {
    var value :- ReadU8(bytes, pos);
    Success(Parsed(ChannelKeyPressure(channel, value.value), value.next))
  }

  /** `PitchBend::read`: a big-endian 16-bit word (not the format's 14-bit LSB-first value). */
  function ReadPitchBend(bytes: seq<Byte>, pos: nat, channel: Byte): (r: Result<Parsed<PitchBend>>)
    ensures r.Success? <==> pos + 2 <= |bytes|
    ensures r.Success? ==> r.value == Parsed(PitchBend(channel, BeWord(bytes, pos)), pos + 2)
    ensures r.Failure? ==> r.error == EndOfInput
  {
    var value :- ReadBeU16(bytes, pos);
    Success(Parsed(PitchBend(channel, value.value), value.next))
  }

  /** The format's pitch-bend value: least significant seven bits first. */
  function StandardPitchBend(lsb: Byte, msb: Byte): nat
  {
    lsb % 0x80 + (msb % 0x80) * 0x80
  }

  /** The centre position of the wheel, bytes 00 40, reads as 0x0040 here and as 0x2000 in the format. */
  lemma PitchBendDivergesFromStandard(bytes: seq<Byte>, channel: Byte)
    requires bytes == [0x00, 0x40]
    ensures ReadPitchBend(bytes, 0, channel) == Success(Parsed(PitchBend(channel, 0x40), 2))
    ensures StandardPitchBend(bytes[0], bytes[1]) == 0x2000
  {
  }
}
