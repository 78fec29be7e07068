/**
 * The meta event payload readers of src/file/track/data/event/meta.rs. Each is
 * called after the meta sub-type (and, for the fixed-size ones, the length
 * byte) has been consumed. Text is kept as raw bytes.
 */
module Meta {
  import opened Reader
  import opened VlvRead

  datatype SequenceNumber = SequenceNumber(sequenceNumber: U16)
  datatype Text = Text(text: seq<Byte>)
  datatype MidiChannelPrefix = MidiChannelPrefix(channel: Byte)
  datatype MidiPort = MidiPort(port: Byte)
  datatype EndOfTrack = EndOfTrack
  datatype SetTempo = SetTempo(tempo: U32)
  datatype SmtpeOffset = SmtpeOffset(hour: Byte, minute: Byte, seconds: Byte, frames: Byte, hundredOfFrame: Byte)
  datatype TimeSignature = TimeSignature(nominator: Byte, denominator: Byte, midiTicksPerMetronomeTick: Byte, thing: Byte)
  datatype KeySignature = KeySignature(numberOfSharpFlats: Byte, majorKey: bool)
  datatype SequencerSpecific = SequencerSpecific(length: U32, id: U32, data: seq<Byte>)
  datatype Unknown = Unknown

  /** `SequenceNumber::read`: a big-endian word. */
  function ReadSequenceNumber(bytes: seq<Byte>, pos: nat): (r: Result<Parsed<SequenceNumber>>)
    ensures r.Success? <==> pos + 2 <= |bytes|
    ensures r.Success? ==> r.value == Parsed(SequenceNumber(BeWord(bytes, pos)), pos + 2)
    ensures r.Failure? ==> r.error == EndOfInput
  {
    var n :- ReadBeU16(bytes, pos);
    Success(Parsed(SequenceNumber(n.value), n.next))
  }

  /** `Text::read(length)`: exactly `length` bytes, kept as they are. */
  function ReadText(bytes: seq<Byte>, pos: nat, length: U32): (r: Result<Parsed<Text>>)
    ensures r.Success? <==> length == 0 || pos + length <= |bytes|
    ensures r.Success? ==> r.value.next == pos + length && |r.value.value.text| == length
    ensures r.Success? ==> r.value.value.text == if length == 0 then [] else bytes[pos..pos + length]
    ensures r.Failure? ==> r.error == EndOfInput
  {
    var raw :- ReadExact(bytes, pos, length);
    Success(Parsed(Text(raw.value), raw.next))
  }

  /** `MIDIChannelPrefix::read`: one byte. */
  function ReadMidiChannelPrefix(bytes: seq<Byte>, pos: nat): (r: Result<Parsed<MidiChannelPrefix>>)
    ensures r.Success? <==> pos < |bytes|
    ensures r.Success? ==> r.value == Parsed(MidiChannelPrefix(bytes[pos]), pos + 1)
    ensures r.Failure? ==> r.error == EndOfInput
  {
    var channel :- ReadU8(bytes, pos);
    Success(Parsed(MidiChannelPrefix(channel.value), channel.next))
  }

  /** `MIDIPort::read`: one byte. */
  function ReadMidiPort(bytes: seq<Byte>, pos: nat): (r: Result<Parsed<MidiPort>>)
    ensures r.Success? <==> pos < |bytes|
    ensures r.Success? ==> r.value == Parsed(MidiPort(bytes[pos]), pos + 1)
    ensures r.Failure? ==> r.error == EndOfInput
  {
    var port :- ReadU8(bytes, pos);
    Success(Parsed(MidiPort(port.value), port.next))
  }

  /** `SetTempo::read`: a big-endian word PLUS the third byte, so at most 0xFFFF + 0xFF. */
  function ReadSetTempo(bytes: seq<Byte>, pos: nat): (r: Result<Parsed<SetTempo>>)
    ensures r.Success? <==> pos + 3 <= |bytes|
    ensures r.Success? ==> r.value == Parsed(SetTempo(BeWord(bytes, pos) + bytes[pos + 2]), pos + 3)
    ensures r.Success? ==> r.value.value.tempo <= 0xFFFF + 0xFF
    ensures r.Failure? ==> r.error == EndOfInput
  {
    var word :- ReadBeU16(bytes, pos);
    var low :- ReadU8(bytes, word.next);
    Success(Parsed(SetTempo(word.value + low.value), low.next))
  }

  /** `SMTPEOffset::read`: five bytes in field order. */
  function ReadSmtpeOffset(bytes: seq<Byte>, pos: nat): (r: Result<Parsed<SmtpeOffset>>)
    ensures r.Success? <==> pos + 5 <= |bytes|
    ensures r.Success? ==>
      r.value == Parsed(SmtpeOffset(bytes[pos], bytes[pos + 1], bytes[pos + 2], bytes[pos + 3], bytes[pos + 4]), pos + 5)
    ensures r.Failure? ==> r.error == EndOfInput
  {
    var hour :- ReadU8(bytes, pos);
    var minute :- ReadU8(bytes, hour.next);
    var seconds :- ReadU8(bytes, minute.next);
    var frames :- ReadU8(bytes, seconds.next);
    var hundredOfFrame :- ReadU8(bytes, frames.next);
    Success(Parsed(SmtpeOffset(hour.value, minute.value, seconds.value, frames.value, hundredOfFrame.value), hundredOfFrame.next))
  }

  /** `TimeSignature::read`: four bytes in field order. */
  function ReadTimeSignature(bytes: seq<Byte>, pos: nat): (r: Result<Parsed<TimeSignature>>)
    ensures r.Success? <==> pos + 4 <= |bytes|
    ensures r.Success? ==>
      r.value == Parsed(TimeSignature(bytes[pos], bytes[pos + 1], bytes[pos + 2], bytes[pos + 3]), pos + 4)
    ensures r.Failure? ==> r.error == EndOfInput
  {
    var nominator :- ReadU8(bytes, pos);
    var denominator :- ReadU8(bytes, nominator.next);
    var ticks :- ReadU8(bytes, denominator.next);
    var thing :- ReadU8(bytes, ticks.next);
    Success(Parsed(TimeSignature(nominator.value, denominator.value, ticks.value, thing.value), thing.next))
  }

  /** `KeySignature::read`: the sharps/flats byte raw, then major exactly when the second byte is 0. */
  function ReadKeySignature(bytes: seq<Byte>, pos: nat): (r: Result<Parsed<KeySignature>>)
    ensures r.Success? <==> pos + 2 <= |bytes|
    ensures r.Success? ==> r.value.next == pos + 2 && r.value.value.numberOfSharpFlats == bytes[pos]
    ensures r.Success? ==> (r.value.value.majorKey <==> bytes[pos + 1] == 0)
    ensures r.Failure? ==> r.error == EndOfInput
  {
    var sharpsFlats :- ReadU8(bytes, pos);
    var majorKey :- ReadU8(bytes, sharpsFlats.next);
    Success(Parsed(KeySignature(sharpsFlats.value, majorKey.value == 0), majorKey.next))
  }

  /**
   * `SequencerSpecific::read(total_length)`: a VLQ id, then the remaining
   * `total_length - id_length` bytes. The u32 subtraction aborts (as an
   * overflow panic) when the id took more bytes than `total_length`.
   */
  function ReadSequencerSpecific(bytes: seq<Byte>, pos: nat, totalLength: U32): (r: Result<Parsed<SequencerSpecific>>)
    ensures Vlv(bytes, pos).Failure? ==> r == Failure(Vlv(bytes, pos).error)
    ensures Vlv(bytes, pos).Success? && totalLength < Vlv(bytes, pos).value.value.realLength ==>
      r == Failure(Panic(SubtractOverflow))
    ensures r.Success? <==>
      Vlv(bytes, pos).Success? && Vlv(bytes, pos).value.value.realLength <= totalLength && pos + totalLength <= |bytes|
    ensures r.Success? ==>
      var id := Vlv(bytes, pos).value;
      && id.value.realLength <= totalLength
      && r.value.next == pos + totalLength <= |bytes|
      && r.value.value.length == totalLength
      && r.value.value.id == id.value.data
      && r.value.value.data == bytes[id.next..pos + totalLength]
    ensures r.Failure? ==> r.error in {EndOfInput, VlvTooBig, Panic(SubtractOverflow)}
  {
    var id :- Vlv(bytes, pos);
    if totalLength < id.value.realLength then Failure(Panic(SubtractOverflow))
    else
      var data :- ReadExact(bytes, id.next, totalLength - id.value.realLength);
      Success(Parsed(SequencerSpecific(totalLength, id.value.data, data.value), data.next))
  }

  /** The format's tempo: three bytes, big-endian. */
  function StandardTempo(b0: Byte, b1: Byte, b2: Byte): nat
  {
    b0 as int * 0x1_0000 + b1 as int * 0x100 + b2
  }

  /**
   * Adding the third byte instead of shifting makes the tempo ambiguous: 00 00 01
   * and 00 01 00 both read as 1, and the usual 500000 microseconds per quarter
   * note (07 A1 20) reads as 0x07A1 + 0x20.
   */
  lemma SetTempoDivergesFromStandard(bytes: seq<Byte>)
    requires bytes == [0x00, 0x00, 0x01, 0x00, 0x01, 0x00, 0x07, 0xA1, 0x20]
    ensures ReadSetTempo(bytes, 0) == Success(Parsed(SetTempo(1), 3))
    ensures ReadSetTempo(bytes, 3) == Success(Parsed(SetTempo(1), 6))
    ensures ReadSetTempo(bytes, 6) == Success(Parsed(SetTempo(0x07A1 + 0x20), 9))
    ensures StandardTempo(bytes[6], bytes[7], bytes[8]) == 500000
  {
  }
}
