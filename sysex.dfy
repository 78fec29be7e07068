/**
 * The system-exclusive event records of src/file/track/data/event/sysex.rs.
 * The dispatcher rejects F0 and F7 status bytes, so no decoder builds them.
 */
module Sysex {
  import opened Reader

  datatype F0SysexEvent = F0SysexEvent(length: U32, data: U32)
  datatype F7SysexEvent = F7SysexEvent(length: U32, anyData: U32)
}
