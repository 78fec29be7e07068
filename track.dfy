/**
 * `SMFTrackChunk::read` (src/file/track/mod.rs): the "MTrk" tag, a big-endian
 * length, then track events until the cursor reaches or passes the end the
 * length announces. The first event is read with no previous event, every later
 * one with the event read just before it.
 *
 * The loop is written over any event reader that advances the cursor; the
 * chunk reader proper hands it `TrackEvent::new`.
 */
module Track {
  import opened Reader
  import opened Events
  import opened TrackEvents

  datatype SmfTrackChunk = SmfTrackChunk(length: U32, trackEvents: seq<TrackEvent>)

  /** "MTrk" in ASCII. */
  const TrackTag: seq<Byte> := [0x4D, 0x54, 0x72, 0x6B]

  /** Reads one track event at a position, given the previous event (`None` for the first). */
  type EventReader = (nat, Option<Event>) -> Result<Parsed<TrackEvent>>

  /** Every successful read moves the cursor forward and stays within `limit`. */
  ghost predicate Advances(read: EventReader, limit: nat)
  {
    forall p: nat, last: Option<Event> :: read(p, last).Success? ==> p < read(p, last).value.next <= limit
  }

  /** `TrackEvent::new` over `bytes`: it consumes at least three bytes and never runs past the end. */
  function TrackEventReader(bytes: seq<Byte>, payloadLength: nat -> U32): (read: EventReader)
    ensures Advances(read, |bytes|)
    ensures forall p: nat, last: Option<Event> :: read(p, last) == TrackEventNew(bytes, p, last, payloadLength)
  {
    (p: nat, last: Option<Event>) => TrackEventNew(bytes, p, last, payloadLength)
  }

  /** The events the loop reads from `pos`, while the cursor is below `end`, each after `last`. */
  function ReadEvents(read: EventReader, limit: nat, pos: nat, end: int, last: Event): Result<Parsed<seq<TrackEvent>>>
    requires Advances(read, limit)
    decreases limit - pos
  {
    if pos >= end then Success(Parsed([], pos))
    else
      var e :- read(pos, Some(last));
      Prepend([e.value], ReadEvents(read, limit, e.next, end, e.value.event))
  }

  /** The first event, read with no previous event whatever `end` says, then the loop's events. */
  function EventsFrom(read: EventReader, limit: nat, pos: nat, end: int): Result<Parsed<seq<TrackEvent>>>
    requires Advances(read, limit)
  {
    var first :- read(pos, None);
    Prepend([first.value], ReadEvents(read, limit, first.next, end, first.value.event))
  }

  /** The chunk holding the events of `r`, or the failure of `r`. */
  function ChunkOf(length: U32, r: Result<Parsed<seq<TrackEvent>>>): Result<Parsed<SmfTrackChunk>>
  {
    match r
    case Success(p) => Success(Parsed(SmfTrackChunk(length, p.value), p.next))
    case Failure(e) => Failure(e)
  }

  /** The chunk read at `pos` with `read` as the event reader. */
  function ChunkWith(bytes: seq<Byte>, pos: nat, read: EventReader): Result<Parsed<SmfTrackChunk>>
    requires Advances(read, |bytes|)
  {
    var start :- ExpectTag(bytes, pos, TrackTag);
    var length :- ReadBeU32(bytes, start);
    ChunkOf(length.value, EventsFrom(read, |bytes|, length.next, length.next + length.value))
  }

  /** What `SMFTrackChunk::read` yields at `pos`. */
  function TrackChunk(bytes: seq<Byte>, pos: nat, payloadLength: nat -> U32): Result<Parsed<SmfTrackChunk>>
  {
    ChunkWith(bytes, pos, TrackEventReader(bytes, payloadLength))
  }

  /** The loop of `SMFTrackChunk::read`, pushing each event and keeping it as the previous one. */
  method ReadChunkWith(bytes: seq<Byte>, pos: nat, read: EventReader) returns (r: Result<Parsed<SmfTrackChunk>>)
    requires Advances(read, |bytes|)
    ensures r == ChunkWith(bytes, pos, read)
  {
    var start := ExpectTag(bytes, pos, TrackTag);
    if start.Failure? {
      return Failure(start.error);
    }
    var length := ReadBeU32(bytes, start.value);
    if length.Failure? {
      return Failure(length.error);
    }
    var trackEventStart := length.value.next;
    var end := trackEventStart + length.value.value;
    ghost var events := EventsFrom(read, |bytes|, trackEventStart, end);
    var current := read(trackEventStart, None);
    if current.Failure? {
      return Failure(current.error);
    }
    var trackEvents := [current.value.value];
    var lastEvent := current.value.value.event;
    var p := current.value.next;
    while p < end
      invariant p <= |bytes|
      invariant Prepend(trackEvents, ReadEvents(read, |bytes|, p, end, lastEvent)) == events
      decreases |bytes| - p
    {
      var next := read(p, Some(lastEvent));
      if next.Failure? {
        return Failure(next.error);
      }
      PrependPrepend(trackEvents, [next.value.value], ReadEvents(read, |bytes|, next.value.next, end, next.value.value.event));
      lastEvent := next.value.value.event;
      trackEvents := trackEvents + [next.value.value];
      p := next.value.next;
    }
    assert trackEvents + [] == trackEvents;
    r := Success(Parsed(SmfTrackChunk(length.value.value, trackEvents), p));
  }

  /** `SMFTrackChunk::read`: the loop above with `TrackEvent::new` as the event reader. */
  method ReadTrackChunk(bytes: seq<Byte>, pos: nat, payloadLength: nat -> U32) returns (r: Result<Parsed<SmfTrackChunk>>)
    ensures r == TrackChunk(bytes, pos, payloadLength)
  {
    r := ReadChunkWith(bytes, pos, TrackEventReader(bytes, payloadLength));
  }

  /**
   * The loop reads nothing when the cursor already is at or past `end`;
   * otherwise it either fails with what the reader failed with, or reads at
   * least one event and stops at or past `end`, within the input.
   */
  lemma {:induction false} ReadEventsBounds(read: EventReader, limit: nat, pos: nat, end: int, last: Event)
    requires Advances(read, limit)
    ensures pos >= end ==> ReadEvents(read, limit, pos, end, last) == Success(Parsed([], pos))
    ensures var r := ReadEvents(read, limit, pos, end, last);
      r.Success? && pos < end ==> r.value.value != [] && end <= r.value.next <= limit
    decreases limit - pos
  {
    if pos < end {
      var e := read(pos, Some(last));
      if e.Success? {
        ReadEventsBounds(read, limit, e.value.next, end, e.value.value.event);
      }
    }
  }

  /**
   * A chunk fails with `EndOfInput` when fewer than four bytes are left, panics
   * when they are not "MTrk", and otherwise, on success, holds the big-endian
   * length of the next four bytes and at least one event, and ends at or past
   * the end that length announces.
   */
  lemma ChunkShape(bytes: seq<Byte>, pos: nat, read: EventReader)
    requires Advances(read, |bytes|)
    ensures pos + 4 > |bytes| ==> ChunkWith(bytes, pos, read) == Failure(EndOfInput)
    ensures pos + 4 <= |bytes| && bytes[pos..pos + 4] != TrackTag ==>
      ChunkWith(bytes, pos, read) == Failure(Panic(MagicMismatch))
    ensures var r := ChunkWith(bytes, pos, read);
      r.Success? ==>
        && pos + 8 <= |bytes| && bytes[pos..pos + 4] == TrackTag
        && r.value.value.length == BeValue(bytes, pos + 4, 4)
        && |r.value.value.trackEvents| >= 1
        && pos + 8 + r.value.value.length <= r.value.next <= |bytes|
        && pos + 8 < r.value.next
  {
    var r := ChunkWith(bytes, pos, read);
    if r.Success? {
      var end := pos + 8 + BeValue(bytes, pos + 4, 4);
      var first := read(pos + 8, None);
      ReadEventsBounds(read, |bytes|, first.value.next, end, first.value.value.event);
    }
  }

  /**
   * `events` are read one after the other from `p`: each at a position below
   * `end` with the one before it (`last` for the first) as the previous event,
   * the next where it ends, and the last one ends at `q`.
   */
  ghost predicate Chain(read: EventReader, p: nat, end: int, last: Event, events: seq<TrackEvent>, q: nat)
    decreases |events|
  {
    if events == [] then q == p
    else
      var e := read(p, Some(last));
      && p < end
      && e.Success? && e.value.value == events[0]
      && Chain(read, e.value.next, end, events[0].event, events[1..], q)
  }

  /** `events` are what the loop reads from `p`: a chain that stops at the first position `q` at or past `end`. */
  ghost predicate Decodes(read: EventReader, p: nat, end: int, last: Event, events: seq<TrackEvent>, q: nat)
  {
    Chain(read, p, end, last, events, q) && end <= q
  }

  /** The previous event after reading `events`: the last of them, or `last` when there are none. */
  function LastOf(last: Event, events: seq<TrackEvent>): Event
  {
    if events == [] then last else events[|events| - 1].event
  }

  /** The loop's result is exactly such a chain of events, in the order they were read. */
  lemma {:induction false} ReadEventsIsChain(read: EventReader, limit: nat, p: nat, end: int, last: Event, events: seq<TrackEvent>, q: nat)
    requires Advances(read, limit)
    ensures ReadEvents(read, limit, p, end, last) == Success(Parsed(events, q))
        <==> Decodes(read, p, end, last, events, q)
    decreases limit - p, |events|
  {
    if p < end {
      var e := read(p, Some(last));
      if e.Success? {
        var rest := ReadEvents(read, limit, e.value.next, end, e.value.value.event);
        if events != [] {
          ReadEventsIsChain(read, limit, e.value.next, end, e.value.value.event, events[1..], q);
          assert [events[0]] + events[1..] == events;
        }
        if rest.Success? {
          assert ([e.value.value] + rest.value.value)[1..] == rest.value.value;
        }
      }
    }
  }

  /**
   * The first event is read right after the eight chunk-header bytes with no
   * previous event, and the others follow it as a chain up to the announced end.
   */
  lemma FirstEventHasNoPreviousEvent(bytes: seq<Byte>, pos: nat, read: EventReader)
    requires Advances(read, |bytes|)
    requires ChunkWith(bytes, pos, read).Success?
    ensures var c := ChunkWith(bytes, pos, read).value;
      var first := read(pos + 8, None);
      && first.Success?
      && c.value.trackEvents[0] == first.value.value
      && Decodes(read, first.value.next, pos + 8 + BeValue(bytes, pos + 4, 4), first.value.value.event,
                 c.value.trackEvents[1..], c.next)
  {
    var c := ChunkWith(bytes, pos, read).value;
    var first := read(pos + 8, None);
    var end := pos + 8 + BeValue(bytes, pos + 4, 4);
    var rest := ReadEvents(read, |bytes|, first.value.next, end, first.value.value.event);
    assert c.value.trackEvents[1..] == rest.value.value;
    ReadEventsIsChain(read, |bytes|, first.value.next, end, first.value.value.event, rest.value.value, rest.value.next);
  }

  /**
   * The loop only starts after the first event, so a chunk whose first event
   * already reaches the announced end (for instance a declared length of 0)
   * holds exactly that one event.
   */
  lemma FirstEventReachingEndIsAlone(bytes: seq<Byte>, pos: nat, read: EventReader)
    requires Advances(read, |bytes|)
    requires pos + 8 <= |bytes| && bytes[pos..pos + 4] == TrackTag
    requires read(pos + 8, None).Success?
    requires pos + 8 + BeValue(bytes, pos + 4, 4) <= read(pos + 8, None).value.next
    ensures ChunkWith(bytes, pos, read)
         == Success(Parsed(SmfTrackChunk(BeValue(bytes, pos + 4, 4), [read(pos + 8, None).value.value]),
                           read(pos + 8, None).value.next))
  {
    var first := read(pos + 8, None);
    assert [first.value.value] + [] == [first.value.value];
  }

  /**
   * After any chain of successful reads below `end`, a failing read is the
   * result of the whole loop: the events read before it are lost.
   */
  lemma {:induction false} FailureAfterChainAborts(read: EventReader, limit: nat, p: nat, end: int, last: Event, events: seq<TrackEvent>, q: nat)
    requires Advances(read, limit)
    requires Chain(read, p, end, last, events, q) && q < end
    requires read(q, Some(LastOf(last, events))).Failure?
    ensures ReadEvents(read, limit, p, end, last) == Failure(read(q, Some(LastOf(last, events))).error)
    decreases |events|
  {
    if events != [] {
      var e := read(p, Some(last));
      assert LastOf(events[0].event, events[1..]) == LastOf(last, events);
      FailureAfterChainAborts(read, limit, e.value.next, end, events[0].event, events[1..], q);
    }
  }

  /**
   * A failing read of any event after the first, however many were read
   * before it, is the result of the whole chunk.
   */
  lemma LaterFailureLosesChunk(bytes: seq<Byte>, pos: nat, read: EventReader, events: seq<TrackEvent>, q: nat)
    requires Advances(read, |bytes|)
    requires pos + 8 <= |bytes| && bytes[pos..pos + 4] == TrackTag
    requires read(pos + 8, None).Success?
    requires var first := read(pos + 8, None).value;
      && Chain(read, first.next, pos + 8 + BeValue(bytes, pos + 4, 4), first.value.event, events, q)
      && q < pos + 8 + BeValue(bytes, pos + 4, 4)
      && read(q, Some(LastOf(first.value.event, events))).Failure?
    ensures ChunkWith(bytes, pos, read)
         == Failure(read(q, Some(LastOf(read(pos + 8, None).value.value.event, events))).error)
  {
    var first := read(pos + 8, None).value;
    FailureAfterChainAborts(read, |bytes|, first.next, pos + 8 + BeValue(bytes, pos + 4, 4), first.value.event, events, q);
  }

  /**
   * A declared length of 0 still yields one event (here the end-of-track
   * event 00 FF 2F 00), and the cursor ends four bytes past the announced end.
   */
  lemma ZeroLengthStillReadsOneEvent(payloadLength: nat -> U32)
    ensures TrackChunk([0x4D, 0x54, 0x72, 0x6B, 0, 0, 0, 0, 0x00, 0xFF, 0x2F, 0x00], 0, payloadLength)
         == Success(Parsed(SmfTrackChunk(0, [TrackEvent(0, MetaEvent(EndOfTrack(Meta.EndOfTrack)))]), 12))
  {
    var bytes: seq<Byte> := [0x4D, 0x54, 0x72, 0x6B, 0, 0, 0, 0, 0x00, 0xFF, 0x2F, 0x00];
    assert bytes[0..4] == TrackTag;
    assert BeValue(bytes, 4, 4) == 0;
    EndOfTrackAtDeltaZero(bytes, 8, None, payloadLength);
    FirstEventReachingEndIsAlone(bytes, 0, TrackEventReader(bytes, payloadLength));
  }

  /**
   * A second note on written with running status (no status byte) reaches the
   * `unimplemented!` branch, and the whole chunk is lost.
   */
  lemma RunningStatusAbortsTrack(payloadLength: nat -> U32)
    ensures TrackChunk([0x4D, 0x54, 0x72, 0x6B, 0, 0, 0, 7, 0x00, 0x90, 0x3C, 0x40, 0x00, 0x3C, 0x00], 0, payloadLength)
         == Failure(Panic(Unimplemented))
  {
    var bytes: seq<Byte> := [0x4D, 0x54, 0x72, 0x6B, 0, 0, 0, 7, 0x00, 0x90, 0x3C, 0x40, 0x00, 0x3C, 0x00];
    assert bytes[0..4] == TrackTag;
    assert BeValue(bytes, 4, 4) == 7;
    NoteOnThenDataByte(bytes, payloadLength);
  }

  lemma NoteOnThenDataByte(bytes: seq<Byte>, payloadLength: nat -> U32)
    requires |bytes| >= 14 && bytes[0..4] == TrackTag && BeValue(bytes, 4, 4) > 4
    requires bytes[8] == 0x00 && bytes[9] == 0x90 && bytes[10] == 0x3C && bytes[11] == 0x40
    requires bytes[12] < 0x80 && bytes[13] < 0x80
    ensures TrackChunk(bytes, 0, payloadLength) == Failure(Panic(Unimplemented))
  {
    NoteOnAtDeltaZero(bytes, 8, None, payloadLength);
    var noteOn := Voice(MidiMessages.NoteOn(ChannelVoice.NoteChange(0, 0x3C, 0x40)));
    DataByteAfterDeltaTime(bytes, 12, Some(noteOn), payloadLength);
    LaterFailureLosesChunk(bytes, 0, TrackEventReader(bytes, payloadLength), [], 12);
  }

  /** A chunk whose first event has no status byte fails with `NoPreviousEvent`. */
  lemma FirstEventWithoutStatusByte(payloadLength: nat -> U32)
    ensures TrackChunk([0x4D, 0x54, 0x72, 0x6B, 0, 0, 0, 3, 0x00, 0x40, 0x7F], 0, payloadLength)
         == Failure(NoPreviousEvent)
  {
    var bytes: seq<Byte> := [0x4D, 0x54, 0x72, 0x6B, 0, 0, 0, 3, 0x00, 0x40, 0x7F];
    assert bytes[0..4] == TrackTag;
    DataByteAfterDeltaTime(bytes, 8, None, payloadLength);
  }
}
