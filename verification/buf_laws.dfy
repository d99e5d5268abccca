/** Properties that relate several operations of the `Buf` binding. */
module BufLaws {
  import opened BufEngine
  import opened Buf
  import opened BufSlice

  /** Setting the length to the current size changes nothing. */
  lemma ResizeToSizeIsIdentity(b: Buffer)
    ensures Resized(b, Length(b)) == b
  {
  }

  /** Setting the same length twice is the same as setting it once. */
  lemma ResizeIdempotent(b: Buffer, len: nat)
    ensures Resized(Resized(b, len), len) == Resized(b, len)
  {
  }

  /** Lengthening by `k` and then setting the old length back restores the
      original bytes. */
  lemma ResizeRoundTrip(b: Buffer, k: nat)
    ensures Resized(Resized(b, Length(b) + k), Length(b)) == b
  {
  }

  /** Shrinking and then growing back keeps the kept prefix and pads the rest. */
  lemma ShrinkThenGrow(b: Buffer, len: nat)
    requires len <= Length(b)
    ensures Resized(Resized(b, len), Length(b)).bytes == b.bytes[..len] + Spaces(Length(b) - len)
  {
  }

  /** Reading back the position just written gives the written byte; every
      other position reads as before. */
  lemma GetAfterSet(b: Buffer, index: nat, c: bv8, other: nat)
    requires index < Length(b)
    ensures GetIndex(SetIndex(b, index, c).0, index) == Some(c)
    ensures other != index ==> GetIndex(SetIndex(b, index, c).0, other) == GetIndex(b, other)
  {
  }

  /** Popping what a successful put reported restores the buffer. */
  lemma PopUndoesPut(b: Buffer, s: seq<bv8>)
    ensures Put(b, s, true).Ok?
    ensures Pop(Put(b, s, true).value.0, Put(b, s, true).value.1) == b
  {
  }

  /** A put of bytes without NUL appends all of them. */
  lemma PutWithoutNulAppendsAll(b: Buffer, s: seq<bv8>)
    requires forall i :: 0 <= i < |s| ==> s[i] != 0
    ensures Put(b, s, true).value.1 == |s|
    ensures Put(b, s, true).value.0.bytes == b.bytes + s
  {
  }

  /** A second clear leaves the buffer as the first did and reports 0. */
  lemma ClearIdempotent(b: Buffer)
    ensures Clear(Clear(b).0) == (Clear(b).0, 0)
  {
  }

  /** Slicing from 0 with no end selects exactly what `copy` duplicates. */
  lemma WholeSliceIsCopy(src: Buffer)
    requires Valid(src)
    ensures PySlice(src.bytes, 0, None) == Copy(src).bytes
    ensures SliceLen(0, None, Length(src)) == Length(Copy(src))
  {
  }

  /** A one-byte slice at a valid index holds the byte indexed read returns. */
  lemma OneByteSliceIsGet(b: Buffer, index: nat)
    requires index < Length(b)
    ensures PySlice(b.bytes, index, Some(index + 1)) == [GetIndex(b, index).value]
  {
  }

  /** Slicing the original length back out of a padded buffer recovers the
      original bytes. */
  lemma SliceUndoesPadding(b: Buffer, len: nat)
    requires Length(b) <= len
    ensures PySlice(Resized(b, len).bytes, 0, Some(Length(b))) == b.bytes
  {
  }

  /** With bytes "abcdef", `slice(-3, -1)` adjusts to [3, 5) and yields "de";
      `slice(4, 2)` yields nothing. */
  lemma SliceExamples()
    ensures var s: seq<bv8> := [0x61, 0x62, 0x63, 0x64, 0x65, 0x66];
            && SliceBegin(-3, |s|) == 3 && SliceEnd(Some(-1), |s|) == 5
            && PySlice(s, -3, Some(-1)) == [0x64, 0x65]
            && SliceLen(4, Some(2), |s|) == 0
  {
  }

  /** A buffer holding the single byte NUL: the binding answers "" for
      `buf[0]`, and a non-NUL byte followed in memory by other non-NUL bytes
      reads as a longer string; the intended answer is always one byte. */
  lemma GetIndexStringDiscrepancy()
    ensures GetIndexStringAsWritten(Buffer(1, [0x00]), 0, [0x61, 0x00]) == Some([])
    ensures GetIndexString(Buffer(1, [0x00]), 0) == Some([0x00])
    ensures GetIndexStringAsWritten(Buffer(1, [0x61]), 0, [0x62, 0x00]) == Some([0x61, 0x62])
    ensures GetIndexString(Buffer(1, [0x61]), 0) == Some([0x61])
  {
    assert CString([0x00 as bv8, 0x61, 0x00]) == [];
    assert CString([0x61 as bv8, 0x62, 0x00]) == [0x61, 0x62];
  }
}
