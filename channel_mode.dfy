/**
 * The channel mode message records of
 * src/file/track/data/event/midi/channel_mode_message.rs. No reader in the
 * original builds them; they exist as types only.
 */
module ChannelMode {
  import opened Reader

  datatype AllSoundOff = AllSoundOff(channel: Byte)
  datatype ResetAllControllers = ResetAllControllers(channel: Byte)
  datatype LocalControl = LocalControl(channel: Byte, reconnect: bool)
  datatype AllNotesOff = AllNotesOff(channel: Byte)
  datatype OmniModeOff = OmniModeOff(channel: Byte)
  datatype OmniModeOn = OmniModeOn(channel: Byte)
  datatype MonoModeOn = MonoModeOn(channel: Byte, number: Byte)
  datatype PolyModeOn = PolyModeOn(channel: Byte)
}
