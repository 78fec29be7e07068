/**
 * The byte source every decoder reads from: a sequence of byte values and a
 * cursor position. A read either succeeds with the value and the position just
 * after it, or fails with an error. Seeks are position arithmetic; a position
 * past the end is allowed (as for a seekable stream) and every later read fails.
 */
module Reader {

  type Byte = x: int | 0 <= x < 0x100
  type U16 = x: int | 0 <= x < 0x1_0000
  type U32 = x: int | 0 <= x < 0x1_0000_0000

  datatype Option<+T> = None | Some(value: T)

  /** The ways the original aborts the process; here they are failure values. */
  datatype PanicCause =
    | UnwrapOnEndOfInput   // `read_to_u8().unwrap()` with nothing left to read
    | MagicMismatch        // `assert_eq!` on a chunk tag that does not match
    | Unimplemented        // `unimplemented!()` for a data byte after a previous event
    | SubtractOverflow     // `total_length - id_length` below zero in u32 arithmetic

  /** Error tags: the error structs of the decoder, the stream's own failure, and panics. */
  datatype Error =
    | EndOfInput           // a read propagated with `?` found too few bytes
    | VlvTooBig            // `VLVTooBigError`
    | NoPreviousEvent      // `NoPreviousEvent`
    | UnknownEvent         // `UnknownEventError`
    | InvalidMidiFormat    // `InvalidMidiFormatError`
    | Panic(cause: PanicCause)

  /** A decoded value together with the cursor position after it. */
  datatype Parsed<+T> = Parsed(value: T, next: nat)

  datatype Result<+T> = Success(value: T) | Failure(error: Error) {
    predicate IsFailure() {
      Failure?
    }

    function PropagateFailure<U>(): Result<U>
      requires Failure?
    {
      Failure(error)
    }

    function Extract(): T
      requires Success?
    {
      value
    }
  }

  /** `read_to_u8`: one byte. */
  function ReadU8(bytes: seq<Byte>, pos: nat): (r: Result<Parsed<Byte>>)
    ensures r.Success? <==> pos < |bytes|
    ensures r.Success? ==> r.value == Parsed(bytes[pos], pos + 1)
    ensures r.Failure? ==> r.error == EndOfInput
  {
    if pos < |bytes| then Success(Parsed(bytes[pos], pos + 1)) else Failure(EndOfInput)
  }

  /** The big-endian word of the two bytes at `pos`: `BeValue` of two bytes. */
  function BeWord(bytes: seq<Byte>, pos: nat): (w: U16)
    requires pos + 2 <= |bytes|
    ensures w == bytes[pos] as int * 0x100 + bytes[pos + 1]
  {
    assert BeValue(bytes, pos, 1) == bytes[pos];
    BeValue(bytes, pos, 2)
  }

  /** `read_be_to_u16`: two bytes, most significant first. */
  function ReadBeU16(bytes: seq<Byte>, pos: nat): (r: Result<Parsed<U16>>)
    ensures r.Success? <==> pos + 2 <= |bytes|
    ensures r.Success? ==> r.value == Parsed(BeWord(bytes, pos), pos + 2)
    ensures r.Failure? ==> r.error == EndOfInput
  {
    if pos + 2 <= |bytes| then Success(Parsed(BeWord(bytes, pos), pos + 2))
    else Failure(EndOfInput)
  }

  /** `read_be_to_u32`: four bytes, most significant first. */
  function ReadBeU32(bytes: seq<Byte>, pos: nat): (r: Result<Parsed<U32>>)
    ensures r.Success? <==> pos + 4 <= |bytes|
    ensures r.Success? ==> r.value == Parsed(BeValue(bytes, pos, 4), pos + 4)
    ensures r.Failure? ==> r.error == EndOfInput
  {
    if pos + 4 <= |bytes| then Success(Parsed(BeValue(bytes, pos, 4), pos + 4)) else Failure(EndOfInput)
  }

  function Pow256(n: nat): nat
  {
    if n == 0 then 1 else 0x100 * Pow256(n - 1)
  }

  /** The big-endian value of the `n` bytes at `pos`, most significant first. */
  function BeValue(bytes: seq<Byte>, pos: nat, n: nat): (v: nat)
    requires pos + n <= |bytes|
    ensures v < Pow256(n)
  {
    if n == 0 then 0 else BeValue(bytes, pos, n - 1) * 0x100 + bytes[pos + n - 1]
  }

  /** `read_exact` into a buffer of `n` bytes; reading nothing always succeeds. */
  function ReadExact(bytes: seq<Byte>, pos: nat, n: nat): (r: Result<Parsed<seq<Byte>>>)
    ensures r.Success? <==> n == 0 || pos + n <= |bytes|
    ensures r.Success? ==> |r.value.value| == n && r.value.next == pos + n
    ensures r.Success? && n > 0 ==> r.value.value == bytes[pos..pos + n]
    ensures r.Failure? ==> r.error == EndOfInput
  {
    if n == 0 then Success(Parsed([], pos))
    else if pos + n <= |bytes| then Success(Parsed(bytes[pos..pos + n], pos + n))
    else Failure(EndOfInput)
  }

  /** `assert_eq!(tag, read_to_string_n(4)?)`: the next four bytes must spell the tag. */
  function ExpectTag(bytes: seq<Byte>, pos: nat, tag: seq<Byte>): (r: Result<nat>)
    requires |tag| == 4
    ensures r.Success? <==> pos + 4 <= |bytes| && bytes[pos..pos + 4] == tag
    ensures r.Success? ==> r.value == pos + 4
    ensures r.Failure? && pos + 4 <= |bytes| ==> r.error == Panic(MagicMismatch)
    ensures pos + 4 > |bytes| ==> r == Failure(EndOfInput)
  {
    var got :- ReadExact(bytes, pos, 4);
    if got.value == tag then Success(got.next) else Failure(Panic(MagicMismatch))
  }

  /** Puts `done` in front of the values of a successful result; a failure passes through. */
  function Prepend<T>(done: seq<T>, r: Result<Parsed<seq<T>>>): Result<Parsed<seq<T>>>
  {
    match r
    case Success(p) => Success(Parsed(done + p.value, p.next))
    case Failure(e) => Failure(e)
  }

  lemma PrependPrepend<T>(a: seq<T>, b: seq<T>, r: Result<Parsed<seq<T>>>)
    ensures Prepend(a, Prepend(b, r)) == Prepend(a + b, r)
  {
    if r.Success? {
      assert a + (b + r.value.value) == (a + b) + r.value.value;
    }
  }
}
