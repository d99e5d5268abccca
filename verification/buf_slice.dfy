/** `slice(begin[, end])` of src/cc/buf.cc: index normalisation, the copy loop,
    and a Python-style reference the result is proved to agree with. */
module BufSlice {
  import opened BufEngine
  import opened Buf

  /** `begin` after the binding's adjustment: a negative index counts from the
      end, and one that is still negative becomes 0. It is never clamped from
      above, so it may lie past the end. */
  function SliceBegin(begin: int, size: nat): (lo: int)
    ensures 0 <= lo
    ensures 0 <= begin ==> lo == begin
    ensures begin < 0 ==> lo == if begin + size < 0 then 0 else begin + size
  {
    var shifted := if begin < 0 then begin + size else begin;
    if shifted < 0 then 0 else shifted
  }

  /** `end` after the binding's adjustment: a missing end means the size, a
      negative one counts from the end, and one past the end becomes the size.
      It is never clamped from below, so it may still be negative. */
  function SliceEnd(end: Option<int>, size: nat): (hi: int)
    ensures hi <= size
    ensures end.None? ==> hi == size
    ensures end.Some? && size < end.value ==> hi == size
    ensures end.Some? && 0 <= end.value <= size ==> hi == end.value
    ensures end.Some? && end.value < 0 ==> hi == end.value + size
  {
    var given := match end case None => size case Some(e) => e;
    var shifted := if given < 0 then given + size else given;
    if shifted > size then size else shifted
  }

  /** How many bytes the slice copies: `end - begin` after adjustment when
      positive, otherwise none. Whenever it copies anything, every position it
      reads, `begin + idx` for `idx < len`, lies inside the source. */
  function SliceLen(begin: int, end: Option<int>, size: nat): (len: nat)
    ensures len > 0 ==> SliceBegin(begin, size) < SliceEnd(end, size)
    ensures len > 0 ==> 0 <= SliceBegin(begin, size) && SliceBegin(begin, size) + len <= size
    ensures SliceBegin(begin, size) < SliceEnd(end, size) ==> len == SliceEnd(end, size) - SliceBegin(begin, size)
    ensures len <= size
  {
    var lo := SliceBegin(begin, size);
    var hi := SliceEnd(end, size);
    if lo < hi then hi - lo else 0
  }

  /** Python's rule for one slice bound: shift a negative index by the size,
      then clamp into [0, size]. */
  function PyBound(i: int, size: nat): (k: nat)
    ensures k <= size
  {
    var shifted := if i < 0 then i + size else i;
    if shifted < 0 then 0 else if shifted > size then size else shifted
  }

  /** Python's `s[begin:end]`, with a missing end meaning the whole tail. */
  function PySlice(s: seq<bv8>, begin: int, end: Option<int>): seq<bv8>
  {
    var lo := PyBound(begin, |s|);
    var hi := match end case None => |s| case Some(e) => PyBound(e, |s|);
    if lo < hi then s[lo..hi] else []
  }

  /** The binding's one-sided clamping together with its `begin >= end` test
      selects exactly the range Python's two-sided clamping selects. */
  lemma SliceAgreesWithPython(s: seq<bv8>, begin: int, end: Option<int>)
    ensures var len := SliceLen(begin, end, |s|);
            var lo := SliceBegin(begin, |s|);
            PySlice(s, begin, end) == if len == 0 then [] else s[lo..lo + len]
  {
  }

  /** The copy loop: a new buffer made through the constructor with the
      source's unit, then one buf_putc per selected byte. */
  method Slice(src: Buffer, begin: int, end: Option<int>) returns (r: Buffer)
    requires Valid(src)
    ensures Valid(r) && r.unit == src.unit
    ensures Length(r) == SliceLen(begin, end, Length(src))
    ensures forall i :: 0 <= i < Length(r) ==> r.bytes[i] == src.bytes[SliceBegin(begin, Length(src)) + i]
    ensures r.bytes == PySlice(src.bytes, begin, end)
  {
    r := New(src.unit).value;
    var size := Length(src);
    var lo := SliceBegin(begin, size);
    var len := SliceLen(begin, end, size);
    var idx := 0;
    while idx < len
      invariant idx <= len
      invariant r.unit == src.unit && Length(r) == idx
      invariant forall i :: 0 <= i < idx ==> r.bytes[i] == src.bytes[lo + i]
    {
      r := BufPutc(r, src.bytes[lo + idx]);
      idx := idx + 1;
    }
    SliceAgreesWithPython(src.bytes, begin, end);
    if len > 0 {
      assert r.bytes == src.bytes[lo..lo + len];
    }
  }
}
