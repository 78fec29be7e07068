/**
 * `SMF::read` (src/file/mod.rs): the header chunk, then as many track chunks
 * as the header announces, one after the other. The first failure, in the
 * header or in any track, is the result; no partial file is returned.
 *
 * The loop is written over any track-chunk reader; `SMF::read` proper hands
 * it `SMFTrackChunk::read`.
 */
module Smf {
  import opened Reader
  import opened Header
  import opened Track

  datatype Smf = Smf(header: SmfHeaderChunk, tracks: seq<SmfTrackChunk>)

  /** Reads one track chunk at a position. */
  type ChunkReader = nat -> Result<Parsed<SmfTrackChunk>>

  /**
   * `SMFTrackChunk::read` over `bytes`: a chunk it reads moves the cursor past
   * its eight header bytes, stays within the input and holds at least one event.
   */
  function TrackChunkReader(bytes: seq<Byte>, payloadLength: nat -> U32): (read: ChunkReader)
    ensures forall p: nat :: read(p).Success? ==>
      p + 8 < read(p).value.next <= |bytes| && |read(p).value.value.trackEvents| >= 1
    ensures forall p: nat :: read(p) == TrackChunk(bytes, p, payloadLength)
  {
    assert forall p: nat :: TrackChunk(bytes, p, payloadLength).Success? ==>
      p + 8 < TrackChunk(bytes, p, payloadLength).value.next <= |bytes|
      && |TrackChunk(bytes, p, payloadLength).value.value.trackEvents| >= 1
    by {
      forall p: nat
        ensures TrackChunk(bytes, p, payloadLength).Success? ==>
          p + 8 < TrackChunk(bytes, p, payloadLength).value.next <= |bytes|
          && |TrackChunk(bytes, p, payloadLength).value.value.trackEvents| >= 1
      {
        ChunkShape(bytes, p, TrackEventReader(bytes, payloadLength));
      }
    }
    (p: nat) => TrackChunk(bytes, p, payloadLength)
  }

  /** The `count` track chunks read one after the other from `pos`. */
  function Tracks(read: ChunkReader, pos: nat, count: nat): Result<Parsed<seq<SmfTrackChunk>>>
    decreases count
  {
    if count == 0 then Success(Parsed([], pos))
    else
      var t :- read(pos);
      Prepend([t.value], Tracks(read, t.next, count - 1))
  }

  /** The file of `header` holding the tracks of `r`, or the failure of `r`. */
  function FileOf(header: SmfHeaderChunk, r: Result<Parsed<seq<SmfTrackChunk>>>): Result<Parsed<Smf>>
  {
    match r
    case Success(p) => Success(Parsed(Smf(header, p.value), p.next))
    case Failure(e) => Failure(e)
  }

  /** The file read from `pos` with `read` as the track-chunk reader. */
  function SmfWith(bytes: seq<Byte>, pos: nat, read: ChunkReader): Result<Parsed<Smf>>
  {
    var header :- HeaderChunk(bytes, pos);
    FileOf(header.value, Tracks(read, header.next, header.value.nbTracks))
  }

  /** What `SMF::read` yields from `pos`. */
  function SmfAt(bytes: seq<Byte>, pos: nat, payloadLength: nat -> U32): Result<Parsed<Smf>>
  {
    SmfWith(bytes, pos, TrackChunkReader(bytes, payloadLength))
  }

  /** The loop of `SMF::read`: `nb_tracks` times, read a track chunk and push it. */
  method ReadSmfWith(bytes: seq<Byte>, pos: nat, read: ChunkReader) returns (r: Result<Parsed<Smf>>)
    ensures r == SmfWith(bytes, pos, read)
  {
    var header := HeaderChunk(bytes, pos);
    if header.Failure? {
      return Failure(header.error);
    }
    var nbTracks := header.value.value.nbTracks;
    ghost var all := Tracks(read, header.value.next, nbTracks);
    var tracks: seq<SmfTrackChunk> := [];
    var p := header.value.next;
    assert all.Success? ==> [] + all.value.value == all.value.value;
    for i := 0 to nbTracks
      invariant Prepend(tracks, Tracks(read, p, nbTracks - i)) == all
    {
      var t := read(p);
      if t.Failure? {
        return Failure(t.error);
      }
      PrependPrepend(tracks, [t.value.value], Tracks(read, t.value.next, nbTracks - i - 1));
      tracks := tracks + [t.value.value];
      p := t.value.next;
    }
    assert tracks + [] == tracks;
    r := Success(Parsed(Smf(header.value.value, tracks), p));
  }

  /** `SMF::read`: the loop above with `SMFTrackChunk::read` as the track-chunk reader. */
  method ReadSmf(bytes: seq<Byte>, pos: nat, payloadLength: nat -> U32) returns (r: Result<Parsed<Smf>>)
    ensures r == SmfAt(bytes, pos, payloadLength)
  {
    r := ReadSmfWith(bytes, pos, TrackChunkReader(bytes, payloadLength));
  }

  /**
   * `chunks` are read one after the other from `p`, each where the one before
   * it ended, and the last ends at `q`.
   */
  ghost predicate Chunks(read: ChunkReader, p: nat, chunks: seq<SmfTrackChunk>, q: nat)
    decreases |chunks|
  {
    if chunks == [] then q == p
    else
      && read(p).Success? && read(p).value.value == chunks[0]
      && Chunks(read, read(p).value.next, chunks[1..], q)
  }

  /** Reading `count` chunks succeeds exactly with `count` chunks in stream order. */
  lemma {:induction false} TracksInStreamOrder(read: ChunkReader, p: nat, count: nat, chunks: seq<SmfTrackChunk>, q: nat)
    ensures Tracks(read, p, count) == Success(Parsed(chunks, q)) <==> |chunks| == count && Chunks(read, p, chunks, q)
    decreases count
  {
    if count > 0 {
      var t := read(p);
      if t.Success? {
        var rest := Tracks(read, t.value.next, count - 1);
        if chunks != [] {
          TracksInStreamOrder(read, t.value.next, count - 1, chunks[1..], q);
          assert [chunks[0]] + chunks[1..] == chunks;
        }
        if rest.Success? {
          assert ([t.value.value] + rest.value.value)[1..] == rest.value.value;
        }
      }
    }
  }

  /** After fewer than `count` chunks, a failing read is the result of the whole loop. */
  lemma {:induction false} FirstFailureAborts(read: ChunkReader, p: nat, count: nat, chunks: seq<SmfTrackChunk>, q: nat)
    requires Chunks(read, p, chunks, q) && |chunks| < count && read(q).Failure?
    ensures Tracks(read, p, count) == Failure(read(q).error)
    decreases |chunks|
  {
    if chunks != [] {
      FirstFailureAborts(read, read(p).value.next, count - 1, chunks[1..], q);
    }
  }

  /**
   * A file holds exactly as many tracks as its header announces, read in
   * stream order from where the header ends; a header failure is the result.
   */
  lemma SmfShape(bytes: seq<Byte>, pos: nat, read: ChunkReader)
    ensures HeaderChunk(bytes, pos).Failure? ==> SmfWith(bytes, pos, read) == Failure(HeaderChunk(bytes, pos).error)
    ensures var r := SmfWith(bytes, pos, read);
      r.Success? ==>
        && HeaderChunk(bytes, pos).Success?
        && r.value.value.header == HeaderChunk(bytes, pos).value.value
        && |r.value.value.tracks| == r.value.value.header.nbTracks
        && Chunks(read, HeaderChunk(bytes, pos).value.next, r.value.value.tracks, r.value.next)
  {
    var r := SmfWith(bytes, pos, read);
    if r.Success? {
      var h := HeaderChunk(bytes, pos).value;
      TracksInStreamOrder(read, h.next, h.value.nbTracks, r.value.value.tracks, r.value.next);
    }
  }

  /** With `nb_tracks` = 0 nothing after the header is read and the file has no tracks. */
  lemma NoTracksReadsOnlyHeader(bytes: seq<Byte>, pos: nat, read: ChunkReader)
    requires HeaderChunk(bytes, pos).Success? && HeaderChunk(bytes, pos).value.value.nbTracks == 0
    ensures SmfWith(bytes, pos, read)
         == Success(Parsed(Smf(HeaderChunk(bytes, pos).value.value, []), HeaderChunk(bytes, pos).value.next))
  {
  }
}
