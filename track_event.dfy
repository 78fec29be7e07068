/**
 * `TrackEvent::new` (src/file/track/data/mod.rs): a delta-time, read as a
 * variable-length quantity, followed by one event. Of the `(value, length)`
 * pair the quantity reader returns, the delta-time keeps the value.
 */
module TrackEvents {
  import opened Reader
  import opened VlvRead
  import opened Events
  import MidiMessages
  import ChannelVoice

  datatype TrackEvent = TrackEvent(deltaTime: U32, event: Event)

  /** What `TrackEvent::new` yields at `pos`. */
  function TrackEventNew(bytes: seq<Byte>, pos: nat, lastEvent: Option<Event>, payloadLength: nat -> U32): (r: Result<Parsed<TrackEvent>>)
    ensures r.Success? ==> pos + 3 <= r.value.next <= |bytes|
  {
    var delta :- Vlv(bytes, pos);
    var event :- EventNew(bytes, delta.next, lastEvent, payloadLength);
    Success(Parsed(TrackEvent(delta.value.data, event.value), event.next))
  }

  /**
   * The delta-time first, then the event at the position right after it, with
   * `lastEvent` handed on unchanged. Either failure propagates, and the event
   * reader is not reached when the delta-time fails. The bytes consumed are
   * those of the delta-time and those of the event.
   */
  lemma TrackEventComposition(bytes: seq<Byte>, pos: nat, lastEvent: Option<Event>, payloadLength: nat -> U32)
    ensures var r := TrackEventNew(bytes, pos, lastEvent, payloadLength);
      && (Vlv(bytes, pos).Failure? ==> r == Failure(Vlv(bytes, pos).error))
      && (Vlv(bytes, pos).Success? ==>
            var delta := Vlv(bytes, pos).value;
            var e := EventNew(bytes, delta.next, lastEvent, payloadLength);
            && (r.Success? <==> e.Success?)
            && (r.Failure? ==> r.error == e.error)
            && (r.Success? ==>
                  && r.value.value == TrackEvent(delta.value.data, e.value.value)
                  && r.value.next - pos == delta.value.realLength + (e.value.next - delta.next)))
  {
  }

  /** `00 90 3C 40`: delta-time 0, then note on, channel 0, key 0x3C, velocity 0x40. */
  lemma NoteOnAtDeltaZero(bytes: seq<Byte>, pos: nat, lastEvent: Option<Event>, payloadLength: nat -> U32)
    requires pos + 4 <= |bytes|
    requires bytes[pos] == 0x00 && bytes[pos + 1] == 0x90 && bytes[pos + 2] == 0x3C && bytes[pos + 3] == 0x40
    ensures TrackEventNew(bytes, pos, lastEvent, payloadLength)
         == Success(Parsed(TrackEvent(0, Voice(MidiMessages.NoteOn(ChannelVoice.NoteChange(0, 0x3C, 0x40)))), pos + 4))
  {
    VlvSingleByte(bytes, pos);
  }

  /** `00 FF 2F 00`: delta-time 0, then the end-of-track meta event. */
  lemma EndOfTrackAtDeltaZero(bytes: seq<Byte>, pos: nat, lastEvent: Option<Event>, payloadLength: nat -> U32)
    requires pos + 4 <= |bytes|
    requires bytes[pos] == 0x00 && bytes[pos + 1] == 0xFF && bytes[pos + 2] == 0x2F && bytes[pos + 3] == 0x00
    ensures TrackEventNew(bytes, pos, lastEvent, payloadLength)
         == Success(Parsed(TrackEvent(0, MetaEvent(EndOfTrack(Meta.EndOfTrack))), pos + 4))
  {
    VlvSingleByte(bytes, pos);
  }

  /**
   * A one-byte delta-time followed by a data byte where the status byte should
   * be: `NoPreviousEvent` for the first event, the `unimplemented!` panic after one.
   */
  lemma DataByteAfterDeltaTime(bytes: seq<Byte>, pos: nat, lastEvent: Option<Event>, payloadLength: nat -> U32)
    requires pos + 2 <= |bytes| && bytes[pos] < 0x80 && bytes[pos + 1] < 0x80
    ensures lastEvent.None? ==> TrackEventNew(bytes, pos, lastEvent, payloadLength) == Failure(NoPreviousEvent)
    ensures lastEvent.Some? ==> TrackEventNew(bytes, pos, lastEvent, payloadLength) == Failure(Panic(Unimplemented))
  {
    VlvSingleByte(bytes, pos);
    DataByteInStatusPosition(bytes, pos + 1, lastEvent, payloadLength);
  }
}
