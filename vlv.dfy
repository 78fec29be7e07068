/**
 * `VLVRead::read_vlv` (src/lib.rs): the variable-length quantity reader.
 *
 * The code reads up to five bytes, stopping at the first one whose bit 7 is
 * clear, and ADDS the low seven bits of every byte it reads. (The Standard MIDI
 * Files format shifts the accumulated value left by seven bits before adding
 * each group; `StandardValue` below is that rule, kept only for comparison.)
 */
module VlvRead {
  import opened Reader

  /** The `(u32, u8)` pair `read_vlv` returns: the value and the number of bytes read. */
  datatype VlvValue = VlvValue(data: U32, realLength: Byte)

  /** The number of consecutive bytes with bit 7 set from `pos` on, counting at most `cap`. */
  function ContinuationRun(bytes: seq<Byte>, pos: nat, cap: nat): (n: nat)
    ensures n <= cap
    ensures n > 0 ==> pos + n <= |bytes|
    ensures forall k :: pos <= k < pos + n ==> bytes[k] >= 0x80
    ensures n < cap ==> pos + n >= |bytes| || bytes[pos + n] < 0x80
    decreases cap
  {
    if cap == 0 || pos >= |bytes| || bytes[pos] < 0x80 then 0
    else 1 + ContinuationRun(bytes, pos + 1, cap - 1)
  }

  /** The sum of the low seven bits of the bytes: what `out += current & 0x7F` accumulates. */
  function SumLow7(s: seq<Byte>): (v: nat)
    ensures v <= 0x7F * |s|
  {
    if s == [] then 0 else SumLow7(s[..|s| - 1]) + s[|s| - 1] % 0x80
  }

  lemma SumLow7Step(bytes: seq<Byte>, pos: nat, p: nat)
    requires pos <= p < |bytes|
    ensures SumLow7(bytes[pos..p + 1]) == (if p == pos then 0 else SumLow7(bytes[pos..p])) + bytes[p] % 0x80
  {
    assert bytes[pos..p + 1][..p - pos] == bytes[pos..p];
  }

  /**
   * What `read_vlv` yields at `pos`: it fails with `VlvTooBig` when the five
   * bytes from `pos` all have bit 7 set, with `EndOfInput` when the input ends
   * first, and otherwise returns the sum of the low bits of the bytes up to and
   * including the first one with bit 7 clear, with their count.
   */
  function Vlv(bytes: seq<Byte>, pos: nat): (r: Result<Parsed<VlvValue>>)
    ensures r.Success? ==>
      && 1 <= r.value.value.realLength <= 5
      && r.value.next == pos + r.value.value.realLength <= |bytes|
      && bytes[r.value.next - 1] < 0x80
      && (forall k :: pos <= k < r.value.next - 1 ==> bytes[k] >= 0x80)
      && r.value.value.data == SumLow7(bytes[pos..r.value.next])
      && r.value.value.data <= 5 * 0x7F
    ensures r.Failure? ==> r.error == EndOfInput || r.error == VlvTooBig
  {
    var n := ContinuationRun(bytes, pos, 5);
    if n == 5 then Failure(VlvTooBig)
    else if pos + n >= |bytes| then Failure(EndOfInput)
    else Success(Parsed(VlvValue(SumLow7(bytes[pos..pos + n + 1]), n + 1), pos + n + 1))
  }

  /** The loop of `read_vlv`, reading byte by byte and counting continuation bytes. */
  method ReadVlv(bytes: seq<Byte>, pos: nat) returns (r: Result<Parsed<VlvValue>>)
    ensures r == Vlv(bytes, pos)
  {
    var out: nat := 0;
    var counter: nat := 0;
    var p := pos;
    while true
      invariant counter <= 4 && p == pos + counter
      invariant ContinuationBytes(bytes, pos, counter)
      invariant counter > 0 ==> p <= |bytes|
      invariant out == if counter == 0 then 0 else SumLow7(bytes[pos..p])
      decreases 4 - counter
    {
      var current := ReadU8(bytes, p);
      if current.Failure? {
        VlvOutcome(bytes, pos, counter);
        return Failure(current.error);
      }
      SumLow7Step(bytes, pos, p);
      p := current.value.next;
      out := out + current.value.value % 0x80;
      if current.value.value < 0x80 {
        break;
      }
      if counter >= 4 {
        VlvOutcome(bytes, pos, counter);
        return Failure(VlvTooBig);
      }
      counter := counter + 1;
    }
    VlvOutcome(bytes, pos, counter);
    r := Success(Parsed(VlvValue(out, counter + 1), p));
  }

  /** The `count` bytes from `pos` are present and all have bit 7 set. */
  ghost predicate ContinuationBytes(bytes: seq<Byte>, pos: nat, count: nat)
  {
    (count > 0 ==> pos + count <= |bytes|) && forall k :: pos <= k < pos + count ==> bytes[k] >= 0x80
  }

  /** What `Vlv` yields once `counter` continuation bytes have been read. */
  lemma VlvOutcome(bytes: seq<Byte>, pos: nat, counter: nat)
    requires counter <= 4 && ContinuationBytes(bytes, pos, counter)
    ensures pos + counter >= |bytes| ==> Vlv(bytes, pos) == Failure(EndOfInput)
    ensures pos + counter < |bytes| && bytes[pos + counter] < 0x80 ==>
      Vlv(bytes, pos) == Success(Parsed(VlvValue(SumLow7(bytes[pos..pos + counter + 1]), counter + 1), pos + counter + 1))
    ensures counter == 4 && pos + 4 < |bytes| && bytes[pos + 4] >= 0x80 ==> Vlv(bytes, pos) == Failure(VlvTooBig)
  {
    RunOfContinuationBytes(bytes, pos, counter);
    RunSplit(bytes, pos, counter, 5);
  }

  lemma {:induction false} RunSplit(bytes: seq<Byte>, pos: nat, counter: nat, cap: nat)
    requires counter <= cap && ContinuationBytes(bytes, pos, counter)
    ensures ContinuationRun(bytes, pos, cap) == counter + ContinuationRun(bytes, pos + counter, cap - counter)
    decreases counter
  {
    if counter > 0 {
      RunSplit(bytes, pos + 1, counter - 1, cap - 1);
    }
  }

  /** `VlvTooBig` is exactly the case of five leading bytes that all have bit 7 set. */
  lemma VlvTooBigIff(bytes: seq<Byte>, pos: nat)
    ensures Vlv(bytes, pos) == Failure(VlvTooBig) <==>
      pos + 5 <= |bytes| && forall k :: pos <= k < pos + 5 ==> bytes[k] >= 0x80
  {
    if pos + 5 <= |bytes| && forall k :: pos <= k < pos + 5 ==> bytes[k] >= 0x80 {
      RunOfContinuationBytes(bytes, pos, 5);
    }
  }

  lemma {:induction false} RunOfContinuationBytes(bytes: seq<Byte>, pos: nat, cap: nat)
    requires ContinuationBytes(bytes, pos, cap)
    ensures ContinuationRun(bytes, pos, cap) == cap
    decreases cap
  {
    if cap > 0 {
      RunOfContinuationBytes(bytes, pos + 1, cap - 1);
    }
  }

  /** Decoding succeeds exactly when a byte with bit 7 clear comes within the first five. */
  lemma VlvSuccessIff(bytes: seq<Byte>, pos: nat)
    ensures Vlv(bytes, pos).Success? <==>
      exists k :: pos <= k < pos + 5 && k < |bytes| && bytes[k] < 0x80
  {
    var n := ContinuationRun(bytes, pos, 5);
    if exists k :: pos <= k < pos + 5 && k < |bytes| && bytes[k] < 0x80 {
      var k :| pos <= k < pos + 5 && k < |bytes| && bytes[k] < 0x80;
      assert n <= k - pos;
    }
  }

  /** A single byte below 0x80 decodes to itself, in one byte. */
  lemma VlvSingleByte(bytes: seq<Byte>, pos: nat)
    requires pos < |bytes| && bytes[pos] < 0x80
    ensures Vlv(bytes, pos) == Success(Parsed(VlvValue(bytes[pos], 1), pos + 1))
  {
    assert bytes[pos..pos + 1] == [bytes[pos]];
    assert SumLow7([bytes[pos]]) == SumLow7([]) + bytes[pos] % 0x80;
  }

  /** Shift-or accumulation of the low seven bits, as the format prescribes. */
  function StandardValue(s: seq<Byte>): nat
  {
    if s == [] then 0 else StandardValue(s[..|s| - 1]) * 0x80 + s[|s| - 1] % 0x80
  }

  /** The sum the code computes never exceeds the shift-or value of the same bytes. */
  lemma {:induction false} SumBelowStandard(s: seq<Byte>)
    ensures SumLow7(s) <= StandardValue(s)
  {
    if s != [] {
      SumBelowStandard(s[..|s| - 1]);
    }
  }

  /** The two readings agree on one byte, and differ from two bytes on: 81 00 is 1, not 128. */
  lemma AdditionDivergesFromStandard(b: Byte)
    ensures SumLow7([b]) == StandardValue([b])
    ensures Vlv([0x81, 0x00], 0) == Success(Parsed(VlvValue(1, 2), 2))
    ensures StandardValue([0x81, 0x00]) == 0x80
  {
    assert [b][..0] == [];
    assert [0x81, 0x00][..1] == [0x81];
    assert [0x81][..0] == [];
    var s: seq<Byte> := [0x81, 0x00];
    assert ContinuationRun(s, 0, 5) == 1;
    assert s[0..2] == s;
  }
}
