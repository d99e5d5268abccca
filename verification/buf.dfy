/** The operations the `Buf` class of src/cc/buf.cc exposes, on top of the
    engine primitives of BufEngine. Buffers are values: an operation that
    mutates the buffer in place returns the buffer after the call together
    with whatever the binding hands back to its caller. */
module Buf {
  import opened BufEngine

  /** The failures the binding reports: the two constructor checks and an
      allocation the engine could not satisfy. */
  datatype BufError = UnitIsZero | UnitTooLarge | NoMemory

  datatype Result<T> = Ok(value: T) | Err(error: BufError)

  datatype Option<T> = None | Some(value: T)

  /** What an indexed assignment answers: `false` when the index is past the
      end, otherwise the byte that was stored. */
  datatype SetReply = Refused | Stored(c: bv8)

  /** Every buffer the binding wraps was made by `New`, so its unit is in range. */
  predicate Valid(b: Buffer)
  {
    0 < b.unit <= BUF_MAX_UNIT
  }

  /** The `length` getter. */
  function Length(b: Buffer): nat
  {
    |b.bytes|
  }

  /** `new Buf(unit)`: rejects a zero unit and a unit above BUF_MAX_UNIT,
      otherwise wraps a fresh empty buffer. */
  function New(unit: nat): (r: Result<Buffer>)
    ensures r.Ok? <==> 0 < unit <= BUF_MAX_UNIT
    ensures r == Err(UnitIsZero) <==> unit == 0
    ensures r == Err(UnitTooLarge) <==> unit > BUF_MAX_UNIT
    ensures r.Ok? ==> Valid(r.value) && r.value.unit == unit && Length(r.value) == 0
  {
    if unit == 0 then Err(UnitIsZero)
    else if unit > BUF_MAX_UNIT then Err(UnitTooLarge)
    else Ok(BufNew(unit))
  }

  /** `len` ASCII spaces. */
  function Spaces(len: nat): (r: seq<bv8>)
    ensures |r| == len
    ensures forall i :: 0 <= i < len ==> r[i] == SPACE
  {
    seq(len, _ => SPACE)
  }

  /** The buffer the `length` setter leaves behind: the first `len` bytes when
      shrinking, the old bytes followed by spaces when growing. */
  function Resized(b: Buffer, len: nat): (r: Buffer)
    ensures r.unit == b.unit && Length(r) == len
  {
    if len < Length(b) then Buffer(b.unit, b.bytes[..len])
    else Buffer(b.unit, b.bytes + Spaces(len - Length(b)))
  }

  /** The `length` setter: truncate through buf_rrm, or pad one space at a
      time through buf_putc; answers the new size. */
  method SetLength(b: Buffer, len: nat) returns (r: Buffer, size: nat)
    ensures size == len && Length(r) == len && r.unit == b.unit
    ensures len <= Length(b) ==> r.bytes == b.bytes[..len]
    ensures Length(b) <= len ==> r.bytes[..Length(b)] == b.bytes
    ensures forall i :: Length(b) <= i < len ==> r.bytes[i] == SPACE
    ensures r == Resized(b, len)
  {
    r := b;
    if len < Length(r) {
      r := BufRrm(r, Length(r) - len);
    }
    if len > Length(r) {
      // buf_grow only reserves capacity; the bytes are written by the loop.
      while Length(r) < len
        invariant r.unit == b.unit
        invariant Length(b) <= Length(r) <= len
        invariant r.bytes[..Length(b)] == b.bytes
        invariant forall i :: Length(b) <= i < Length(r) ==> r.bytes[i] == SPACE
        decreases len - Length(r)
      {
        r := BufPutc(r, SPACE);
      }
    }
    size := Length(r);
  }

  /** Indexed read `buf[index]`: absent at or past the end. */
  function GetIndex(b: Buffer, index: nat): (r: Option<bv8>)
    ensures r.None? <==> Length(b) <= index
    ensures r.Some? ==> index < Length(b) && r.value == b.bytes[index]
  {
    if index >= Length(b) then None else Some(b.bytes[index])
  }

  /** The string `buf[index]` answers, as the binding builds it: the byte is
      placed in a one-element `char` array with no terminator and read back as
      a C string, so the string runs on through `beyond`, whatever bytes follow
      the array in memory, up to a NUL; a NUL byte itself reads as "". */
  function GetIndexStringAsWritten(b: Buffer, index: nat, beyond: seq<bv8>): (r: Option<seq<bv8>>)
    ensures r.None? <==> Length(b) <= index
    ensures r.Some? ==> r.value <= [b.bytes[index]] + beyond
    ensures r.Some? && b.bytes[index] == 0 ==> r.value == []
    ensures r.Some? && b.bytes[index] != 0 ==> 1 <= |r.value| && r.value[0] == b.bytes[index]
    ensures r.Some? ==> forall i :: 0 <= i < |r.value| ==> r.value[i] != 0
    ensures r.Some? ==> |r.value| == 1 + |beyond| || ([b.bytes[index]] + beyond)[|r.value|] == 0
  {
    match GetIndex(b, index)
    case None => None
    case Some(c) => Some(CString([c] + beyond))
  }

  /** The string `buf[index]` is meant to answer: exactly the one byte stored
      at that index. */
  function GetIndexString(b: Buffer, index: nat): (r: Option<seq<bv8>>)
    ensures r.None? <==> Length(b) <= index
    ensures r.Some? ==> |r.value| == 1 && r.value[0] == b.bytes[index]
  {
    match GetIndex(b, index)
    case None => None
    case Some(c) => Some([c])
  }

  /** Indexed write `buf[index] = c`: refused at or past the end (the buffer is
      not extended); otherwise only position `index` changes. */
  function SetIndex(b: Buffer, index: nat, c: bv8): (r: (Buffer, SetReply))
    ensures Length(b) <= index ==> r == (b, Refused)
    ensures index < Length(b) ==> r.1 == Stored(c)
    ensures r.0.unit == b.unit && Length(r.0) == Length(b)
    ensures index < Length(b) ==> r.0.bytes[index] == c
    ensures forall j :: 0 <= j < Length(b) && j != index ==> r.0.bytes[j] == b.bytes[j]
  {
    if index >= Length(b) then (b, Refused)
    else (Buffer(b.unit, b.bytes[index := c]), Stored(c))
  }

  /** `put(s)`: appends the argument as a C string through buf_puts and answers
      how much the size grew. `granted` says whether the engine's allocator
      satisfies the growth; when it does not, the call fails with NoMemory and
      the buffer is left as it was. */
  function Put(b: Buffer, s: seq<bv8>, granted: bool): (r: Result<(Buffer, nat)>)
    ensures r.Err? <==> !granted
    ensures r.Err? ==> r.error == NoMemory
    ensures r.Ok? ==> r.value.0.unit == b.unit
    ensures r.Ok? ==> r.value.1 == Length(r.value.0) - Length(b)
    ensures r.Ok? ==> r.value.0.bytes[..Length(b)] == b.bytes
    ensures r.Ok? ==> r.value.0.bytes[Length(b)..] <= s
    ensures r.Ok? ==> forall i :: Length(b) <= i < Length(r.value.0) ==> r.value.0.bytes[i] != 0
    ensures r.Ok? ==> r.value.1 == |s| || s[r.value.1] == 0
  {
    if !granted then Err(NoMemory)
    else
      var after := BufPuts(b, s);
      assert after.bytes[Length(b)..] == CString(s);
      Ok((after, Length(after) - Length(b)))
  }

  /** `pop(n)`: the buffer after buf_rrm has dropped `n` bytes from the tail,
      or every byte when `n` is not less than the size. */
  function Pop(b: Buffer, n: nat): (r: Buffer)
    ensures r.unit == b.unit
    ensures Length(r) == if n < Length(b) then Length(b) - n else 0
    ensures r.bytes == b.bytes[..Length(r)]
  {
    BufRrm(b, n)
  }

  /** `clear()`: empties the buffer and answers the size it had before. */
  function Clear(b: Buffer): (r: (Buffer, nat))
    ensures r.1 == Length(b)
    ensures r.0.unit == b.unit && Length(r.0) == 0
  {
    (BufClear(b), Length(b))
  }

  /** `copy()`: a new buffer built through the constructor with the source's
      unit, filled with all of the source's bytes by buf_put. */
  function Copy(b: Buffer): (r: Buffer)
    requires Valid(b)
    ensures Valid(r)
    ensures r.unit == b.unit && r.bytes == b.bytes
  {
    BufPut(New(b.unit).value, b.bytes)
  }
}
