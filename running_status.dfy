/**
 * The older channel voice readers of src/file/track/data/event/midi.rs. They
 * carry no channel and take `running_status_byte: Option<u8>`: with `Some(x)`
 * the first data byte has already been consumed by the caller and is `x`; with
 * `None` it is read from the stream. No decoder in the model calls them (the
 * dispatcher uses the readers of `ChannelVoice`).
 */
module RunningStatus {
  import opened Reader

  datatype NoteChange = NoteChange(key: Byte, velocity: Byte)
  datatype PolyphonicKeyPressure = PolyphonicKeyPressure(key: Byte, pressure: Byte)
  datatype ControllerChange = ControllerChange(controllerNumber: Byte, controllerValue: Byte)
  datatype ProgramChange = ProgramChange(newProgramNumber: Byte)
  datatype ChannelKeyPressure = ChannelKeyPressure(value: Byte)
  datatype PitchBend = PitchBend(value: U16)

  /** The first data byte: the one already consumed, or the next one in the stream. */
  function FirstDataByte(bytes: seq<Byte>, pos: nat, runningStatusByte: Option<Byte>): (r: Result<Parsed<Byte>>)
    ensures runningStatusByte.Some? ==> r == Success(Parsed(runningStatusByte.value, pos))
    ensures runningStatusByte.None? ==> r == ReadU8(bytes, pos)
  {
    match runningStatusByte
    case Some(x) => Success(Parsed(x, pos))
    case None => ReadU8(bytes, pos)
  }

  /** `NoteChange::read`: key (given or read), then velocity. */
  function ReadNoteChange(bytes: seq<Byte>, pos: nat, runningStatusByte: Option<Byte>): (r: Result<Parsed<NoteChange>>)
    ensures runningStatusByte.Some? ==>
      && (r.Success? <==> pos < |bytes|)
      && (r.Success? ==> r.value == Parsed(NoteChange(runningStatusByte.value, bytes[pos]), pos + 1))
    ensures runningStatusByte.None? ==>
      && (r.Success? <==> pos + 2 <= |bytes|)
      && (r.Success? ==> r.value == Parsed(NoteChange(bytes[pos], bytes[pos + 1]), pos + 2))
    ensures r.Failure? ==> r.error == EndOfInput
  {
    var key :- FirstDataByte(bytes, pos, runningStatusByte);
    var velocity :- ReadU8(bytes, key.next);
    Success(Parsed(NoteChange(key.value, velocity.value), velocity.next))
  }

  /** `PolyphonicKeyPressure::read`: key (given or read), then pressure. */
  function ReadPolyphonicKeyPressure(bytes: seq<Byte>, pos: nat, runningStatusByte: Option<Byte>): (r: Result<Parsed<PolyphonicKeyPressure>>)
    ensures runningStatusByte.Some? ==>
      && (r.Success? <==> pos < |bytes|)
      && (r.Success? ==> r.value == Parsed(PolyphonicKeyPressure(runningStatusByte.value, bytes[pos]), pos + 1))
    ensures runningStatusByte.None? ==>
      && (r.Success? <==> pos + 2 <= |bytes|)
      && (r.Success? ==> r.value == Parsed(PolyphonicKeyPressure(bytes[pos], bytes[pos + 1]), pos + 2))
    ensures r.Failure? ==> r.error == EndOfInput
  {
    var key :- FirstDataByte(bytes, pos, runningStatusByte);
    var pressure :- ReadU8(bytes, key.next);
    Success(Parsed(PolyphonicKeyPressure(key.value, pressure.value), pressure.next))
  }

  /** `ControllerChange::read`: controller number (given or read), then value. */
  function ReadControllerChange(bytes: seq<Byte>, pos: nat, runningStatusByte: Option<Byte>): (r: Result<Parsed<ControllerChange>>)
    ensures runningStatusByte.Some? ==>
      && (r.Success? <==> pos < |bytes|)
      && (r.Success? ==> r.value == Parsed(ControllerChange(runningStatusByte.value, bytes[pos]), pos + 1))
    ensures runningStatusByte.None? ==>
      && (r.Success? <==> pos + 2 <= |bytes|)
      && (r.Success? ==> r.value == Parsed(ControllerChange(bytes[pos], bytes[pos + 1]), pos + 2))
    ensures r.Failure? ==> r.error == EndOfInput
  {
    var number :- FirstDataByte(bytes, pos, runningStatusByte);
    var value :- ReadU8(bytes, number.next);
    Success(Parsed(ControllerChange(number.value, value.value), value.next))
  }

  /** `ProgramChange::read`: the given byte, or one byte read. */
  function ReadProgramChange(bytes: seq<Byte>, pos: nat, runningStatusByte: Option<Byte>): (r: Result<Parsed<ProgramChange>>)
    ensures runningStatusByte.Some? ==> r == Success(Parsed(ProgramChange(runningStatusByte.value), pos))
    ensures runningStatusByte.None? ==>
      && (r.Success? <==> pos < |bytes|)
      && (r.Success? ==> r.value == Parsed(ProgramChange(bytes[pos]), pos + 1))
    ensures r.Failure? ==> r.error == EndOfInput
  {
    var program :- FirstDataByte(bytes, pos, runningStatusByte);
    Success(Parsed(ProgramChange(program.value), program.next))
  }

  /** `ChannelKeyPressure::read`: the given byte, or one byte read. */
  function ReadChannelKeyPressure(bytes: seq<Byte>, pos: nat, runningStatusByte: Option<Byte>): (r: Result<Parsed<ChannelKeyPressure>>)
    ensures runningStatusByte.Some? ==> r == Success(Parsed(ChannelKeyPressure(runningStatusByte.value), pos))
    ensures runningStatusByte.None? ==>
      && (r.Success? <==> pos < |bytes|)
      && (r.Success? ==> r.value == Parsed(ChannelKeyPressure(bytes[pos]), pos + 1))
    ensures r.Failure? ==> r.error == EndOfInput
  {
    var value :- FirstDataByte(bytes, pos, runningStatusByte);
    Success(Parsed(ChannelKeyPressure(value.value), value.next))
  }

  /**
   * `PitchBend::read`. With `None`, a big-endian word. With `Some(x)`, one more
   * byte `b` is read and `[x, b]` is reinterpreted as a native 16-bit word; a
   * little-endian target is assumed, so the value is `x + 0x100 * b`.
   */
  function ReadPitchBend(bytes: seq<Byte>, pos: nat, runningStatusByte: Option<Byte>): (r: Result<Parsed<PitchBend>>)
    ensures runningStatusByte.Some? ==>
      && (r.Success? <==> pos < |bytes|)
      && (r.Success? ==> r.value == Parsed(PitchBend(runningStatusByte.value + 0x100 * bytes[pos] as int), pos + 1))
    ensures runningStatusByte.None? ==>
      && (r.Success? <==> pos + 2 <= |bytes|)
      && (r.Success? ==> r.value == Parsed(PitchBend(BeWord(bytes, pos)), pos + 2))
    ensures r.Failure? ==> r.error == EndOfInput
  {
    match runningStatusByte
    case Some(x) =>
      var b :- ReadU8(bytes, pos);
      Success(Parsed(PitchBend(x + 0x100 * b.value as int), b.next))
    case None =>
      var value :- ReadBeU16(bytes, pos);
      Success(Parsed(PitchBend(value.value), value.next))
  }

  /** The stream with `x` put back in front of the byte at `pos`. */
  function PutBack(bytes: seq<Byte>, pos: nat, x: Byte): (s: seq<Byte>)
    requires pos <= |bytes|
    ensures |s| == |bytes| + 1 && s[pos] == x
    ensures forall k :: 0 <= k < pos ==> s[k] == bytes[k]
    ensures forall k :: pos <= k < |bytes| ==> s[k + 1] == bytes[k]
  {
    bytes[..pos] + [x] + bytes[pos..]
  }

  /** The same result, read one byte further on. */
  function Later<T>(r: Result<Parsed<T>>): Result<Parsed<T>>
  {
    match r
    case Success(p) => Success(Parsed(p.value, p.next + 1))
    case Failure(e) => Failure(e)
  }

  /**
   * For the two-field and one-field readers, handing over `x` as the consumed
   * first data byte is the same as reading it from the stream: the result with
   * `Some(x)` equals the result with `None` on the stream with `x` put back.
   */
  lemma GivenByteEqualsReadByte(bytes: seq<Byte>, pos: nat, x: Byte)
    requires pos <= |bytes|
    ensures ReadNoteChange(PutBack(bytes, pos, x), pos, None) == Later(ReadNoteChange(bytes, pos, Some(x)))
    ensures ReadPolyphonicKeyPressure(PutBack(bytes, pos, x), pos, None) == Later(ReadPolyphonicKeyPressure(bytes, pos, Some(x)))
    ensures ReadControllerChange(PutBack(bytes, pos, x), pos, None) == Later(ReadControllerChange(bytes, pos, Some(x)))
    ensures ReadProgramChange(PutBack(bytes, pos, x), pos, None) == Later(ReadProgramChange(bytes, pos, Some(x)))
    ensures ReadChannelKeyPressure(PutBack(bytes, pos, x), pos, None) == Later(ReadChannelKeyPressure(bytes, pos, Some(x)))
  {
  }

  /**
   * PitchBend breaks that pattern: with the byte put back, `None` reads
   * `x * 0x100 + b` while `Some(x)` reads `x + 0x100 * b`; they agree only when
   * the two bytes are equal.
   */
  lemma PitchBendGivenByteSwapsOrder(bytes: seq<Byte>, pos: nat, x: Byte)
    requires pos < |bytes|
    ensures ReadPitchBend(PutBack(bytes, pos, x), pos, None).Success?
    ensures ReadPitchBend(bytes, pos, Some(x)).Success?
    ensures (ReadPitchBend(PutBack(bytes, pos, x), pos, None).value.value
             == ReadPitchBend(bytes, pos, Some(x)).value.value) <==> x == bytes[pos]
  {
  }
}
