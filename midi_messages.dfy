/**
 * The channel message unions of src/file/track/data/event/midi/mod.rs, and the
 * bytes a channel voice message is decoded from: its status byte (message kind
 * in the high nibble, channel in the low one) and its data bytes.
 */
module MidiMessages {
  import opened Reader
  import CV = ChannelVoice
  import CM = ChannelMode

  datatype VoiceEventType =
    | NoteOff(noteOff: CV.NoteChange)
    | NoteOn(noteOn: CV.NoteChange)
    | PolyphonicKeyPressure(polyphonicKeyPressure: CV.PolyphonicKeyPressure)
    | ControllerChange(controllerChange: CV.ControllerChange)
    | ProgramChange(programChange: CV.ProgramChange)
    | ChannelKeyPressure(channelKeyPressure: CV.ChannelKeyPressure)
    | PitchBend(pitchBend: CV.PitchBend)

  datatype ModeEventType =
    | AllSoundOff(allSoundOff: CM.AllSoundOff)
    | ResetAllControllers(resetAllControllers: CM.ResetAllControllers)
    | LocalControl(localControl: CM.LocalControl)
    | AllNotesOff(allNotesOff: CM.AllNotesOff)
    | OmniModeOff(omniModeOff: CM.OmniModeOff)
    | OmniModeOn(omniModeOn: CM.OmniModeOn)
    | MonoModeOn(monoModeOn: CM.MonoModeOn)
    | PolyModeOn(polyModeOn: CM.PolyModeOn)

  /** The high nibble of the status byte for each kind of voice message. */
  function Kind(v: VoiceEventType): (nibble: nat)
    ensures 0x8 <= nibble <= 0xE
  {
    match v
    case NoteOff(_) => 0x8
    case NoteOn(_) => 0x9
    case PolyphonicKeyPressure(_) => 0xA
    case ControllerChange(_) => 0xB
    case ProgramChange(_) => 0xC
    case ChannelKeyPressure(_) => 0xD
    case PitchBend(_) => 0xE
  }

  /** The number of data bytes after the status byte, by high nibble. */
  function DataLength(nibble: nat): nat
  {
    if nibble == 0xC || nibble == 0xD then 1 else 2
  }

  function Channel(v: VoiceEventType): Byte
  {
    match v
    case NoteOff(m) => m.channel
    case NoteOn(m) => m.channel
    case PolyphonicKeyPressure(m) => m.channel
    case ControllerChange(m) => m.channel
    case ProgramChange(m) => m.channel
    case ChannelKeyPressure(m) => m.channel
    case PitchBend(m) => m.channel
  }

  /** The data bytes of a voice message, in stream order; pitch bend as a big-endian word. */
  function DataBytes(v: VoiceEventType): (s: seq<Byte>)
    ensures |s| == DataLength(Kind(v))
  {
    match v
    case NoteOff(m) => [m.key, m.velocity]
    case NoteOn(m) => [m.key, m.velocity]
    case PolyphonicKeyPressure(m) => [m.key, m.pressure]
    case ControllerChange(m) => [m.controllerNumber, m.controllerValue]
    case ProgramChange(m) => [m.newProgramNumber]
    case ChannelKeyPressure(m) => [m.value]
    case PitchBend(m) => [m.value / 0x100, m.value % 0x100]
  }

  /** A voice message has a status byte when its channel fits the low nibble. */
  predicate HasStatusByte(v: VoiceEventType)
  {
    Channel(v) < 0x10
  }

  function StatusByte(v: VoiceEventType): (b: Byte)
    requires HasStatusByte(v)
    ensures b / 0x10 == Kind(v) && b % 0x10 == Channel(v)
  {
    Kind(v) * 0x10 + Channel(v)
  }

  /** A voice message is determined by its status byte and its data bytes. */
  lemma {:induction false} VoiceBytesDetermineMessage(v: VoiceEventType, w: VoiceEventType)
    requires HasStatusByte(v) && HasStatusByte(w)
    requires StatusByte(v) == StatusByte(w) && DataBytes(v) == DataBytes(w)
    ensures v == w
  {
    assert Kind(v) == Kind(w) && Channel(v) == Channel(w);
    if v.PitchBend? {
      assert DataBytes(v)[0] == DataBytes(w)[0] && DataBytes(v)[1] == DataBytes(w)[1];
    }
  }
}
