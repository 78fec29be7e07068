/**
 * `SMFHeaderChunk::read` (src/file/header/mod.rs) and the header types of
 * src/file/header/data.rs: the "MThd" tag, a big-endian chunk length, the
 * format word, the number of tracks and the division word, then a seek that
 * puts the cursor `length` bytes after the length field, whatever was read.
 */
module Header {
  import opened Reader

  datatype MidiFormat = SingleTrack | SimultaneousTracks | IndependentTracks

  datatype MidiTpqnDivisions = MidiTpqnDivisions(ticksPerQuarterNote: U16)

  datatype MidiSmtpeDivisions = MidiSmtpeDivisions(ticksPerSmtpeFrame: U16, smtpeFramesPerSecond: U16)

  datatype MidiDivisionsType =
    | TicksPerQuarterNote(tpqn: MidiTpqnDivisions)
    | SmtpeFrames(smtpe: MidiSmtpeDivisions)

  datatype SmfHeaderChunk = SmfHeaderChunk(length: U32, format: MidiFormat, nbTracks: U16, divisionSystem: MidiDivisionsType)

  /** "MThd" in ASCII. */
  const HeaderTag: seq<Byte> := [0x4D, 0x54, 0x68, 0x64]

  /** The format word each format is written as. */
  function FormatNumber(f: MidiFormat): U16
  {
    match f
    case SingleTrack => 0
    case SimultaneousTracks => 1
    case IndependentTracks => 2
  }

  /** The `match format_num`: 0, 1 and 2 name the three formats, anything else is an error. */
  function FormatOf(formatNum: U16): (r: Result<MidiFormat>)
    ensures r.Success? <==> formatNum <= 2
    ensures r.Success? ==> FormatNumber(r.value) == formatNum
    ensures r.Failure? ==> r.error == InvalidMidiFormat
  {
    if formatNum == 0 then Success(SingleTrack)
    else if formatNum == 1 then Success(SimultaneousTracks)
    else if formatNum == 2 then Success(IndependentTracks)
    else Failure(InvalidMidiFormat)
  }

  /** Mapping a format to its word and back gives the format. */
  lemma FormatRoundTrip(f: MidiFormat)
    ensures FormatOf(FormatNumber(f)) == Success(f)
  {
  }

  /**
   * The division word: bit 15 alone picks the system, and the fields put back
   * in their bit positions rebuild the word. With bit 15 clear, ticks per
   * quarter note are the whole word; with it set, the low byte (`& 0x00FF`) is
   * the ticks per frame and bits 8 to 14 (`& 0x7F00`, not shifted down) the
   * frames per second.
   */
  function DivisionOf(word: U16): (d: MidiDivisionsType)
    ensures d.TicksPerQuarterNote? <==> word < 0x8000
    ensures DivisionWord(d) == word
  {
    assert word >= 0x8000 ==> word / 0x100 == 0x80 + word / 0x100 % 0x80;
    assert word == word / 0x100 * 0x100 + word % 0x100;
    if word < 0x8000 then TicksPerQuarterNote(MidiTpqnDivisions(word))
    else SmtpeFrames(MidiSmtpeDivisions(word % 0x100, word / 0x100 % 0x80 * 0x100))
  }

  /** The word a division system was read from: the fields put back in their bit positions. */
  function DivisionWord(d: MidiDivisionsType): int
  {
    match d
    case TicksPerQuarterNote(t) => t.ticksPerQuarterNote
    case SmtpeFrames(s) => 0x8000 + s.smtpeFramesPerSecond + s.ticksPerSmtpeFrame
  }

  /**
   * With bit 15 set, the two masks split the rest of the word without
   * overlapping: ticks per frame fit in the low byte, and frames per second
   * keep bits 8 to 14 in place, a multiple of 0x100 below 0x8000.
   */
  lemma DivisionSplitsWord(word: U16)
    requires word >= 0x8000
    ensures var s := DivisionOf(word).smtpe;
      && s.ticksPerSmtpeFrame < 0x100
      && s.smtpeFramesPerSecond % 0x100 == 0 && s.smtpeFramesPerSecond < 0x8000
  {
  }

  /** Frames per second as the format stores them: the high byte is minus the rate (-24, -25, -29 or -30). */
  function StandardFramesPerSecond(word: U16): int
  {
    0x100 - word / 0x100
  }

  /**
   * 25 frames per second with 40 ticks per frame is written E7 28; the code
   * keeps 0x6700 (bits 8 to 14 in place) where the format means 25.
   */
  lemma FramesPerSecondUnshifted()
    ensures DivisionOf(0xE728) == SmtpeFrames(MidiSmtpeDivisions(0x28, 0x6700))
    ensures StandardFramesPerSecond(0xE728) == 25
  {
  }

  /** What `SMFHeaderChunk::read` yields at `pos`. */
  function HeaderChunk(bytes: seq<Byte>, pos: nat): (r: Result<Parsed<SmfHeaderChunk>>)
    ensures r.Success? ==> pos + 14 <= |bytes| && r.value.next == pos + 8 + r.value.value.length
    ensures r.Failure? ==> r.error in {EndOfInput, InvalidMidiFormat, Panic(MagicMismatch)}
  {
    var start :- ExpectTag(bytes, pos, HeaderTag);
    var length :- ReadBeU32(bytes, start);
    var formatNum :- ReadBeU16(bytes, length.next);
    var format :- FormatOf(formatNum.value);
    var nbTracks :- ReadBeU16(bytes, formatNum.next);
    var division :- ReadBeU16(bytes, nbTracks.next);
    // seek(SeekFrom::Current(length - 6)), from just after the division word
    var next := division.next + length.value - 6;
    Success(Parsed(SmfHeaderChunk(length.value, format, nbTracks.value, DivisionOf(division.value)), next))
  }

  /**
   * A header fails with `EndOfInput` when the tag is cut short, panics when it
   * is not "MThd", fails with `InvalidMidiFormat` as soon as a format word above
   * 2 is read (before the track count and division are needed), and otherwise
   * needs its fourteen bytes. On success every field is the big-endian value at
   * its offset, and the cursor ends `length` bytes after the length field.
   */
  lemma HeaderShape(bytes: seq<Byte>, pos: nat)
    ensures pos + 4 > |bytes| ==> HeaderChunk(bytes, pos) == Failure(EndOfInput)
    ensures pos + 4 <= |bytes| && bytes[pos..pos + 4] != HeaderTag ==>
      HeaderChunk(bytes, pos) == Failure(Panic(MagicMismatch))
    ensures pos + 10 <= |bytes| && bytes[pos..pos + 4] == HeaderTag && BeWord(bytes, pos + 8) > 2 ==>
      HeaderChunk(bytes, pos) == Failure(InvalidMidiFormat)
    ensures HeaderChunk(bytes, pos).Success? <==>
      pos + 14 <= |bytes| && bytes[pos..pos + 4] == HeaderTag && BeWord(bytes, pos + 8) <= 2
    ensures var r := HeaderChunk(bytes, pos);
      r.Success? ==>
        && r.value.value.length == BeValue(bytes, pos + 4, 4)
        && FormatNumber(r.value.value.format) == BeWord(bytes, pos + 8)
        && r.value.value.nbTracks == BeWord(bytes, pos + 10)
        && r.value.value.divisionSystem == DivisionOf(BeWord(bytes, pos + 12))
        && r.value.next == pos + 8 + r.value.value.length
    ensures HeaderChunk(bytes, pos).Failure? ==>
      HeaderChunk(bytes, pos).error in {EndOfInput, InvalidMidiFormat, Panic(MagicMismatch)}
  {
  }

  /**
   * A declared length below 6 seeks back into the fields just read: with
   * length 0 the cursor ends right after the length field.
   */
  lemma ShortLengthSeeksBack(bytes: seq<Byte>, pos: nat)
    requires HeaderChunk(bytes, pos).Success?
    ensures HeaderChunk(bytes, pos).value.value.length < 6 ==> HeaderChunk(bytes, pos).value.next < pos + 14
    ensures HeaderChunk(bytes, pos).value.value.length == 0 ==> HeaderChunk(bytes, pos).value.next == pos + 8
  {
    HeaderShape(bytes, pos);
  }

  /** `MThd 00 00 00 06 00 01 00 02 00 60`: format 1, two tracks, 96 ticks per quarter note. */
  lemma TwoTrackHeader()
    ensures HeaderChunk([0x4D, 0x54, 0x68, 0x64, 0, 0, 0, 6, 0, 1, 0, 2, 0, 0x60], 0)
         == Success(Parsed(SmfHeaderChunk(6, SimultaneousTracks, 2, TicksPerQuarterNote(MidiTpqnDivisions(96))), 14))
  {
    var bytes: seq<Byte> := [0x4D, 0x54, 0x68, 0x64, 0, 0, 0, 6, 0, 1, 0, 2, 0, 0x60];
    assert bytes[0..4] == HeaderTag;
    assert BeValue(bytes, 4, 4) == 6;
  }
}
