/** The byte-buffer engine the binding calls into (buf_new, buf_put, buf_puts,
    buf_putc, buf_rrm, buf_clear). Its C implementation is not part of this
    model: a buffer is seen here only as its growth unit and the bytes it
    logically holds, and each primitive as the sequence operation it performs.
    Capacity, the growth policy and the terminator byte are left abstract. */
module BufEngine {

  type PosNat = n: nat | 0 < n witness 1

  /** Largest growth unit the engine accepts. Its value belongs to the engine;
      the model only knows that it is positive. */
  const BUF_MAX_UNIT: PosNat

  /** The ASCII space used to pad a buffer that is lengthened. */
  const SPACE: bv8 := 0x20

  /** A buffer: the growth unit fixed at construction and the `size` valid bytes. */
  datatype Buffer = Buffer(unit: nat, bytes: seq<bv8>)

  /** buf_new: an empty buffer with the given unit. */
  function BufNew(unit: nat): Buffer
  {
    Buffer(unit, [])
  }

  /** buf_putc: append one byte. */
  function BufPutc(b: Buffer, c: bv8): Buffer
  {
    Buffer(b.unit, b.bytes + [c])
  }

  /** buf_put: append the given bytes. */
  function BufPut(b: Buffer, s: seq<bv8>): Buffer
  {
    Buffer(b.unit, b.bytes + s)
  }

  /** buf_rrm: drop up to `n` bytes from the tail. */
  function BufRrm(b: Buffer, n: nat): Buffer
  {
    if n < |b.bytes| then Buffer(b.unit, b.bytes[..|b.bytes| - n]) else Buffer(b.unit, [])
  }

  /** buf_clear: drop every byte, keep the unit. */
  function BufClear(b: Buffer): Buffer
  {
    Buffer(b.unit, [])
  }

  /** The bytes a C string argument contributes: everything before the first
      NUL byte, or the whole sequence when it holds none. */
  function CString(s: seq<bv8>): (c: seq<bv8>)
    ensures c <= s
    ensures forall i :: 0 <= i < |c| ==> c[i] != 0
    ensures |c| == |s| || s[|c|] == 0
  {
    if |s| == 0 || s[0] == 0 then [] else [s[0]] + CString(s[1..])
  }

  /** buf_puts: append a C string. */
  function BufPuts(b: Buffer, s: seq<bv8>): Buffer
  {
    BufPut(b, CString(s))
  }
}
