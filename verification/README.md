# bbuf `Buf` binding — a Dafny model

bbuf exposes a growable byte buffer to Node.js as the class `Buf`. The class
(src/cc/buf.cc) is a thin layer over a C buffer engine: it validates the
growth unit at construction, implements the `length` setter (truncate or pad
with spaces), bounds-checked indexed read and write, `put`, `pop`, `clear`,
`copy`, and `slice` with Python-style negative indices and clamping.

The model treats a buffer as a value `Buffer(unit, bytes)`: the growth unit
fixed at construction and the `size` valid bytes. The engine primitives the
binding calls (`buf_new`, `buf_put`, `buf_puts`, `buf_putc`, `buf_rrm`,
`buf_clear`) are not part of this model; module `BufEngine` states each as the
sequence operation it performs (append bytes, append a C string, append one
byte, drop from the tail, empty). Operations that mutate a `Buf` in place
return the buffer after the call together with the value the binding answers.
Every buffer the binding wraps comes from the constructor, so its unit is in
range (`Valid`); every operation keeps the unit, and `copy` and `slice`, which
build their result through the constructor with the source's unit, rely on it.

Modules:

- `BufEngine` (buf_engine.dfy): the buffer value, the engine primitives, and
  the C-string view of an argument (the bytes before the first NUL).
  `BUF_MAX_UNIT` is a positive constant whose value the model leaves open.
- `Buf` (buf.dfy): construction, the `length` setter, indexed get/set, `put`,
  `pop`, `clear`, `copy`.
- `BufSlice` (buf_slice.dfy): `slice` index normalisation, the byte-by-byte
  copy loop, and a Python-style reference (`PySlice`, both bounds clamped into
  `[0, size]`) that the result is proved equal to.
- `BufLaws` (buf_laws.dfy): properties relating several operations.

Indexed write answers `false` past the end and otherwise its argument, which
the model takes to be the stored byte; `copy`, `slice` and the
`length` setter do not check the engine's allocation result, so no allocation
failure is reported from them (see below); only `put` reports `No memory`.

## Model

| member | source | states |
|---|---|---|
| Buf.New | src/cc/buf.cc:117-128 | construction succeeds exactly when `0 < unit <= BUF_MAX_UNIT`; unit 0 and an oversized unit give their own distinct errors and no buffer; on success the buffer is empty, has the requested unit and is valid |
| Buf.Resized | src/cc/buf.cc:183-196 | the buffer the length setter leaves has the target length and the same unit |
| Buf.SetLength | src/cc/buf.cc:175-197 | answers the new size, which equals the target; a shorter target keeps the first `len` bytes; a longer one keeps all old bytes and fills every new position with 0x20; the unit is unchanged; the padding loop agrees with `Resized` |
| Buf.Length | src/cc/buf.cc:166-170 | the getter answers the number of valid bytes |
| Buf.GetIndexStringAsWritten | src/cc/buf.cc:207-213 | as written: absent exactly past the end; otherwise the stored byte followed by whatever memory follows the one-byte array, read up to but not including the first NUL: it starts with the stored byte when that is not NUL, is "" when it is, contains no NUL, and stops only at a NUL or at the end of the memory given |
| Buf.GetIndexString | src/cc/buf.cc:207-213 | as intended: absent exactly past the end; otherwise a one-byte string holding the stored byte |
| BufLaws.GetIndexStringDiscrepancy | src/cc/buf.cc:210-212 | a stored NUL reads as "" and a stored 'a' followed in memory by 'b' reads as "ab", where the intended answers are the one stored byte |
| Buf.GetIndex | src/cc/buf.cc:202-214 | absent exactly when the index is at or past the size, otherwise the byte at that index |
| Buf.SetIndex | src/cc/buf.cc:219-239 | an index at or past the size is refused and the buffer is unchanged; otherwise the reply is the argument, modelled as the stored byte, that position holds it, and the size, unit and every other byte are unchanged |
| Buf.Put | src/cc/buf.cc:244-263 | without allocation the call fails with NoMemory; otherwise it answers the growth of the size, the old bytes stay in front, and the appended bytes are a NUL-free prefix of the argument that stops only at the argument's end or at a NUL |
| Buf.Pop | src/cc/buf.cc:268-276 | the buffer keeps its unit and loses `n` bytes from the tail, or all bytes when `n` is not less than the size; what remains is a prefix of the old bytes |
| Buf.Clear | src/cc/buf.cc:292-300 | answers the size from before the call; the buffer is empty and keeps its unit |
| Buf.Copy | src/cc/buf.cc:319-328 | the copy is a valid buffer with the same unit and byte-for-byte the same contents |
| BufEngine.CString | src/cc/buf.cc:250-253 | the bytes `put` appends are a prefix of the argument, contain no NUL, and end at the argument's end or just before a NUL |
| BufSlice.SliceBegin | src/cc/buf.cc:363-364 | the adjusted begin is never negative; a non-negative begin is kept; a negative one is shifted by the size and floored at 0 |
| BufSlice.SliceEnd | src/cc/buf.cc:358-367 | the adjusted end never exceeds the size; a missing end or one past the size becomes the size; a negative one is shifted by the size; an end within `[0, size]` is kept |
| BufSlice.SliceLen | src/cc/buf.cc:369-378 | the copy count is `end - begin` when positive and 0 otherwise, at most the size; whenever it is positive, every read `begin + idx` with `idx < len` lies in `[0, size)` |
| BufSlice.SliceAgreesWithPython | src/cc/buf.cc:358-378 | the one-sided clamping plus the `begin >= end` test select the same bytes as clamping both bounds into `[0, size]` |
| BufSlice.Slice | src/cc/buf.cc:333-380 | the result is valid and has the source's unit; its length is the copy count; byte `i` is source byte `begin + i`; the bytes equal the Python-style slice |
| BufLaws.ResizeToSizeIsIdentity | src/cc/buf.cc:183-196 | setting the length to the current size changes nothing |
| BufLaws.ResizeIdempotent | src/cc/buf.cc:183-196 | setting the same length twice equals setting it once |
| BufLaws.ResizeRoundTrip | src/cc/buf.cc:183-194 | lengthening by `k` then setting the old length back restores the original buffer |
| BufLaws.ShrinkThenGrow | src/cc/buf.cc:183-194 | shrinking to `len` then growing back gives the first `len` bytes followed by spaces |
| BufLaws.GetAfterSet | src/cc/buf.cc:207-236 | after an in-range write, reading that index gives the written byte and reading any other index gives what it gave before |
| BufLaws.PopUndoesPut | src/cc/buf.cc:244-276 | popping the count a successful `put` answered restores the buffer |
| BufLaws.PutWithoutNulAppendsAll | src/cc/buf.cc:250-257 | a NUL-free argument is appended whole and the answer is its length |
| BufLaws.ClearIdempotent | src/cc/buf.cc:296-299 | a second clear leaves the same empty buffer and answers 0 |
| BufLaws.WholeSliceIsCopy | src/cc/buf.cc:319-380 | `slice(0)` selects exactly the bytes `copy` duplicates, and copies as many |
| BufLaws.OneByteSliceIsGet | src/cc/buf.cc:207-213 | `slice(i, i + 1)` at a valid index holds exactly the byte `buf[i]` reads |
| BufLaws.SliceUndoesPadding | src/cc/buf.cc:188-193 | slicing the original length out of a space-padded buffer recovers the original bytes |
| BufLaws.SliceExamples | src/cc/buf.cc:358-370 | on "abcdef", `slice(-3, -1)` adjusts to [3, 5) and yields "de"; `slice(4, 2)` copies nothing |

## Left out

- Host-runtime glue: `Initialize`, `HasInstance`, `IsStringLike`, `IsBuf`, accessor and prototype registration, the redirect of a plain call to a construct call, the argument-count and argument-type checks and their error messages.
- The `cap` getter and setter, `buf_grow`, and the engine's capacity and growth policy: the engine is not part of this model, so no capacity or unit-multiple invariant is stated.
- Buf.Pop: its answer is whatever `buf_rrm` returns, which is not visible, so only the buffer after the call is modelled; dropping every byte when `n` is not less than the size is the assumed behaviour of the engine, not something buf.cc shows.
- Buf.Copy: the result of `buf_put` is ignored by the binding, so an allocation failure while copying is not modelled; the model assumes the copy is filled.
- BufSlice.Slice: the results of `buf_grow` and `buf_putc` are ignored by the binding, so an allocation failure while slicing is not modelled.
- Buf.SetLength: the results of `buf_grow` and `buf_putc` are ignored; an allocation that keeps failing would keep the padding loop from finishing, which the model does not represent.
- Buf.Put: allocation is an oracle flag rather than a capacity computation; the conversion of the JavaScript argument to UTF-8 is not modelled, the argument is given as bytes.
- Buf.GetIndex: answers the byte; the string the binding builds from it is modelled separately by Buf.GetIndexStringAsWritten and Buf.GetIndexString (see Findings), and its UTF-16 decoding by the host is not modelled.
- Buf.SetIndex: takes the byte to store; the JavaScript "single char" length check and the UTF-8 conversion that picks the first byte are not modelled; the binding answers the whole argument string (buf.cc:236), which equals the stored byte only for a character in U+0001–U+007F.
- `toString` and `inspect`: both go through the engine's C-string view and `sprintf` formatting, which are not part of this model.
- BufSlice.SliceBegin: `int`/`size_t` mixing is modelled with mathematical integers, assuming the size fits in a 32-bit signed integer.
- BufSlice.SliceEnd: `end = size` (buf.cc:359) and `int(size)` (buf.cc:367) would wrap once the size reaches 2^31; the model assumes it does not.
- BufSlice.SliceLen and BufSlice.Slice: inherit the same 32-bit assumption through the adjusted bounds.

## Findings

| source | as written | input that shows it | evidently intended | confidence | as-written member | corrected member |
|---|---|---|---|---|---|---|
| src/cc/buf.cc:210-212 | the byte is copied into `char s[1]`, which has no room for a terminator, and `NanNew<String>(s)` reads it as a C string: the read runs past the array until some NUL, and a stored NUL gives "" | a buffer holding the one byte 0x00, read as `buf[0]` (answers "" rather than a one-byte string); a stored 'a' followed in memory by 'b' and a NUL answers "ab" | a one-byte string holding exactly the stored byte (e.g. `char s[2] = {0}` with the length passed explicitly) | high, not executed | Buf.GetIndexStringAsWritten, BufLaws.GetIndexStringDiscrepancy | Buf.GetIndexString |
