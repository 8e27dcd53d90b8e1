# Kernel dispatch and Parquet value helpers, in Dafny

This project models two small pieces of the Arrow C++ code base and proves
properties about them.

1. **The compute kernel dispatcher** (`cpp/src/arrow/compute/kernels/util-internal.cc`),
   in module `KernelUtil`, over the containers of module `ArrowData`. It covers:
   - `InvokeUnaryArrayKernel`, which calls a one-array kernel once for a plain
     array or once per chunk;
   - both forms of `InvokeBinaryArrayKernel`, which walk two chunk lists with one
     cursor per side and call a two-array kernel on equal-length slices;
   - `WrapArraysLike` and `WrapDatumsLike`, which give results the shape of a
     reference datum;
   - `ZeroLastByte` and the buffer layout that `PrimitiveAllocatingUnaryKernel::Call`
     prepares for its delegate.

   A kernel is a total function value that returns either an output datum or an
   error status. Its element-wise meaning is not modelled.

   The imperative parts are methods with loops over explicit cursors and an
   output vector:
   - `InvokeUnaryArrayKernel`;
   - `MergeChunks`, the loop of the vector form of `InvokeBinaryArrayKernel`;
   - `WrapDatumsLike`;
   - `ZeroLastByte`, which writes into a buffer.

   Each method is proved against a specification function:
   - `Apply` gives the `RETURN_NOT_OK` semantics of a sequence of calls;
   - `Pieces` and `Alignment` give the slice pairs that the merge loop visits;
   - `BinaryRun` gives the outcome of a whole binary invocation.

   Lemmas then state what those functions promise:
   - the slices cover both inputs exactly, with no gap and no overlap;
   - every call gets slices of equal length;
   - there are at most as many calls as chunks on both sides;
   - the first failure stops the run and leaves the earlier outputs in place.

2. **The Parquet physical-layer value helpers** (`cpp/src/parquet/types.h`), in
   module `ParquetTypes`:
   - `EncryptionProperties`, a class with fields `algorithm`, `key` and `aad`.
     The destructor wipe and the `aad` setter are methods that change the object.
     The lengths, `str2bytes` and the uint32 frame-size arithmetic are functions
     that read it.
   - `ByteArray` equality, through `memcmp`.
   - The `Int96` timestamp, a three-word `array<uint32>`. `Int96SetNanoSeconds`
     writes words 0 and 1 in place. `Int96GetNanoSeconds` reads all three words.
     `Int96` equality compares them.

Strings (`std::string`) are modelled as their byte sequences. C++ fixed-width
integers are subset types of `int`, and their wrap-around is written out
explicitly.

### Behaviour worth knowing

- **`CalculatePlainSize` has no guard below the frame overhead.** For a
  `cipher_len` smaller than the overhead it returns `cipher_len - overhead`
  modulo 2^32 (`types.h:171`, `types.h:173`). The function's contract states
  the wrapped value, and `CipherOfPlain` shows that the wrap is still the
  inverse of `CalculateCipherSize`.
- **The `Int96` round trip needs the epoch day in word 2.**
  `Int96SetNanoSeconds` writes only words 0 and 1. So reading back gives the
  written nanoseconds exactly when word 2 already holds 2440588, the Julian day
  of the Unix epoch (`SetGetRoundTrip`).
- **A plain `left` against a chunked `right` gives several outputs.** For a
  plain `left` of length 4 and `right` chunks of lengths [1, 3], the merge loop
  makes two kernel calls and pushes two outputs. `WrapDatumsLike` unwraps only
  element 0 of them, behind a `DCHECK` that there is exactly one
  (`PlainLeftChunkedRight`). A zero-length plain `left` yields no output at all
  (`EmptyPlainLeftHasNoOutput`).

## Model

| member | source | states |
|---|---|---|
| ArrowData.Slice | cpp/src/arrow/compute/kernels/util-internal.cc:101-102 | a slice has the requested length, moves the offset by `start`, and holds exactly the elements `start .. start+length` |
| ArrowData.SingleChunk | cpp/src/arrow/compute/kernels/util-internal.cc:62-64 | a plain array seen as a one-chunk list has the array's length and elements |
| KernelUtil.ApplyCalls | cpp/src/arrow/compute/kernels/util-internal.cc:46-50 | a run of calls succeeds iff every call succeeds; output k is the result of call k; a failed run ends with the status of its first failing call, after exactly the outputs of the calls before it |
| KernelUtil.ApplyAppend | cpp/src/arrow/compute/kernels/util-internal.cc:46-50 | after a prefix of successful calls the loop continues with the rest, keeping the outputs already pushed |
| KernelUtil.InvokeUnaryArrayKernel | cpp/src/arrow/compute/kernels/util-internal.cc:38-55 | one call for a plain array, one call per chunk in chunk order otherwise; outputs are appended to the caller's vector in call order; the first failure is returned with the earlier outputs kept; a non-array-like datum is `Invalid` and appends nothing |
| KernelUtil.StartCursor | cpp/src/arrow/compute/kernels/util-internal.cc:89-92 | the cursors start at chunk 0, offset 0, and see the whole length and every element |
| KernelUtil.Advance | cpp/src/arrow/compute/kernels/util-internal.cc:109-122 | advancing by a step that fits in the current chunk keeps the cursor in bounds (a start strictly inside a chunk, or 0), lowers what remains by exactly the step, and moves to the next chunk iff the step exhausts the current one |
| KernelUtil.NextChunkRemaining | cpp/src/arrow/compute/kernels/util-internal.cc:110-112 | a cursor reset to the start of the next chunk sees exactly the later chunks |
| KernelUtil.AdvanceValues | cpp/src/arrow/compute/kernels/util-internal.cc:101-122 | the elements a step skips are exactly the next `n` elements of the current chunk, followed by what the advanced cursor sees |
| KernelUtil.SkipRestOfChunk | cpp/src/arrow/compute/kernels/util-internal.cc:110-112 | exhausting the current chunk leaves exactly the later chunks' elements |
| KernelUtil.SkipWithinChunk | cpp/src/arrow/compute/kernels/util-internal.cc:113-115 | a step inside the current chunk leaves the rest of that chunk followed by the later chunks |
| KernelUtil.Calls | cpp/src/arrow/compute/kernels/util-internal.cc:101-104 | the call list has one entry per planned call, and equal slice lengths per call carry over to it |
| KernelUtil.StepLength | cpp/src/arrow/compute/kernels/util-internal.cc:96-99 | while elements remain both chunk indices are in bounds; `min` of the two remainders fits in both current chunks and exhausts at least one of them |
| KernelUtil.Pieces | cpp/src/arrow/compute/kernels/util-internal.cc:94-123 | from any cursors on, every call gets slices of equal length, the step lengths add up to what remained, and there are at most as many calls as chunks left on both sides |
| KernelUtil.PiecesUnfold | cpp/src/arrow/compute/kernels/util-internal.cc:96-104 | while elements remain, the next call is on `StepLength` elements from both cursors, followed by the calls from the advanced cursors |
| KernelUtil.PiecesCoverLeft | cpp/src/arrow/compute/kernels/util-internal.cc:94-123 | the left slices, concatenated in call order, are exactly the left elements that remained |
| KernelUtil.PiecesCoverRight | cpp/src/arrow/compute/kernels/util-internal.cc:94-123 | the right slices, concatenated in call order, are exactly the right elements that remained |
| KernelUtil.AlignmentCovers | cpp/src/arrow/compute/kernels/util-internal.cc:88-123 | no gaps and no overlaps: left slices concatenate to the concatenated left chunks, right slices to the right chunks; slice lengths are equal per call and add up to the common length; at most `num_left_chunks + num_right_chunks` calls |
| KernelUtil.RunPlanStep | cpp/src/arrow/compute/kernels/util-internal.cc:104-105 | a failing call ends the run with its status and no further outputs; a successful call's output comes first, then the rest of the run |
| KernelUtil.MergeStep | cpp/src/arrow/compute/kernels/util-internal.cc:96-122 | one loop iteration: the call on the current slice pair, then the run from the advanced cursors |
| KernelUtil.BinaryRunCases | cpp/src/arrow/compute/kernels/util-internal.cc:62-126 | a non-array-like operand or unequal lengths give `Invalid` with no call and no output; otherwise the run succeeds iff every aligned call does, output k comes from call k on equal-length slices, and success means one output per call |
| KernelUtil.InvokeBinaryArrayKernel | cpp/src/arrow/compute/kernels/util-internal.cc:57-126 | validates left, then right, then the lengths, with the source's messages, before any call; then appends the outputs of the aligned calls to the caller's vector, returning the first failure |
| KernelUtil.MergeChunks | cpp/src/arrow/compute/kernels/util-internal.cc:88-125 | the cursor loop makes exactly the aligned calls, in order, appending each output, and stops at the first failure; its invariants keep both cursors in bounds and both remainders equal |
| KernelUtil.WrapArraysLike | cpp/src/arrow/compute/kernels/util-internal.cc:136-147 | the result has the reference's shape: the first array for a plain reference, a chunked array of all arrays in order for a chunked one |
| KernelUtil.ArraysOf | cpp/src/arrow/compute/kernels/util-internal.cc:155-159 | one array per datum, in order, each the datum's array |
| KernelUtil.WrapDatumsLike | cpp/src/arrow/compute/kernels/util-internal.cc:149-165 | under the debug checks, a plain reference gives datum 0's array and a chunked reference gives a chunked array of all the datums' arrays, in order |
| KernelUtil.InvokeBinaryArrayKernelToDatum | cpp/src/arrow/compute/kernels/util-internal.cc:128-134 | returns the vector form's status; on failure the output is untouched; on success the outputs are wrapped like `left` |
| KernelUtil.PlainOperandsSingleCall | cpp/src/arrow/compute/kernels/util-internal.cc:128-134 | two plain operands of the same positive length give one call on both whole arrays, so a successful array result can be wrapped like a plain `left` |
| KernelUtil.EmptyPlainLeftHasNoOutput | cpp/src/arrow/compute/kernels/util-internal.cc:151-153 | a zero-length plain `left` gives no call and no output, so the single output `WrapDatumsLike` expects does not exist |
| KernelUtil.ChunkedLeftPlainRight | cpp/src/arrow/compute/kernels/util-internal.cc:94-123 | left chunks [2, 3] against a plain right of 5 give the calls (chunk 0, right[0..2]) and (chunk 1, right[2..5]) |
| KernelUtil.PlainLeftChunkedRight | cpp/src/arrow/compute/kernels/util-internal.cc:94-134 | a plain left of 4 against right chunks [1, 3] gives the calls (left[0..1], chunk 0) and (left[1..4], chunk 1); a successful run has two outputs, which a plain `left` cannot be wrapped from |
| KernelUtil.ZeroLastByte | cpp/src/arrow/compute/kernels/util-internal.cc:171-173 | byte `size - 1` becomes 0 and every other byte keeps its value; needs a buffer of at least one byte |
| KernelUtil.EmptyInputBitmapHasNoLastByte | cpp/src/arrow/compute/kernels/util-internal.cc:187-191 | the bitmap for a zero-length input has zero bytes, so it has no byte `size - 1` |
| KernelUtil.AllocateBitmap | cpp/src/arrow/compute/kernels/util-internal.cc:187-201 | a fresh bitmap of `BytesForBits(length)` bytes whose last byte, if any, is 0 |
| KernelUtil.AllocatingKernelCall | cpp/src/arrow/compute/kernels/util-internal.cc:175-206 | exactly two buffer slots; the validity slot is empty iff the input offset is 0; the value slot is always a fresh bitmap; every fresh bitmap has the input's bit count and a cleared last byte; the output length is the input length; the delegate's status is returned |
| ParquetTypes.Str2Bytes | cpp/src/parquet/types.h:133-138 | null exactly for the empty string, otherwise the string's bytes |
| ParquetTypes.ToInt32 | cpp/src/parquet/types.h:148 | `static_cast<int>` of a length: the length itself below 2^31, and always equal to it modulo 2^32 |
| ParquetTypes.EncryptionProperties.constructor | cpp/src/parquet/types.h:142-144 | stores the algorithm, key and aad, the aad defaulting to empty |
| ParquetTypes.EncryptionProperties.Destroy | cpp/src/parquet/types.h:146 | the key keeps its length and every byte becomes `'\0'`; the algorithm and aad are untouched |
| ParquetTypes.EncryptionProperties.KeyLength | cpp/src/parquet/types.h:148 | the key's length, when it fits in an `int` |
| ParquetTypes.EncryptionProperties.KeyBytes | cpp/src/parquet/types.h:149 | null iff the key is empty, otherwise the key's bytes |
| ParquetTypes.EncryptionProperties.SetAad | cpp/src/parquet/types.h:151 | the aad becomes the given string; the algorithm and key are untouched |
| ParquetTypes.EncryptionProperties.AadLength | cpp/src/parquet/types.h:152 | the aad's length, when it fits in an `int` |
| ParquetTypes.EncryptionProperties.AadBytes | cpp/src/parquet/types.h:153 | null iff the aad is empty, otherwise the aad's bytes |
| ParquetTypes.EncryptionProperties.CalculateCipherSize | cpp/src/parquet/types.h:160-167 | the plaintext length plus the frame overhead, modulo 2^32; exactly the sum when it fits |
| ParquetTypes.EncryptionProperties.CalculatePlainSize | cpp/src/parquet/types.h:169-176 | the cipher length minus the frame overhead, modulo 2^32: exactly the difference at or above the overhead, the difference plus 2^32 below it |
| ParquetTypes.EncryptionProperties.Overheads | cpp/src/parquet/types.h:160-176 | metadata and AES-GCM-V1 frames add exactly 32 bytes; AES-GCM-CTR-V1 data frames add exactly 20; both directions |
| ParquetTypes.EncryptionProperties.PlainOfCipher | cpp/src/parquet/types.h:160-176 | `CalculatePlainSize(CalculateCipherSize(p, m), m) == p` for every uint32 `p`, both algorithms and both `is_metadata` values |
| ParquetTypes.EncryptionProperties.CipherOfPlain | cpp/src/parquet/types.h:160-176 | `CalculateCipherSize(CalculatePlainSize(c, m), m) == c` for every uint32 `c`, the wrapped cases included |
| ParquetTypes.MemCmp | cpp/src/parquet/types.h:228 | `memcmp` over `n` bytes is 0 iff the first `n` bytes agree |
| ParquetTypes.ByteArray.Bytes | cpp/src/parquet/types.h:219-224 | the value a byte array denotes has exactly `len` bytes |
| ParquetTypes.ByteArrayEquals | cpp/src/parquet/types.h:226-229 | equal iff the denoted byte strings are equal: same length and, when non-empty, the same `len` bytes; the pointers of empty arrays are never read |
| ParquetTypes.ByteArrayNotEquals | cpp/src/parquet/types.h:231-233 | not equal iff the denoted byte strings differ |
| ParquetTypes.ByteArrayEquivalence | cpp/src/parquet/types.h:226-233 | equality is reflexive, symmetric and transitive, and `!=` is its negation |
| ParquetTypes.EmptyByteArraysEqual | cpp/src/parquet/types.h:226-229 | two empty byte arrays are equal whatever their pointers, null included |
| ParquetTypes.Unsigned64 | cpp/src/parquet/types.h:269-271 | the two's-complement bit pattern of an int64, as a number below 2^64 congruent to it |
| ParquetTypes.Signed64 | cpp/src/parquet/types.h:276-277 | the int64 whose little-endian words are `lo` and `hi`, congruent to `hi * 2^32 + lo` modulo 2^64 |
| ParquetTypes.WordsRoundTrip | cpp/src/parquet/types.h:269-277 | copying an int64 into two words and back gives the same int64 |
| ParquetTypes.Int96SetNanoSeconds | cpp/src/parquet/types.h:269-271 | on a little-endian host, words 0 and 1 become the low and high words of the nanoseconds and read back as them; word 2 is unchanged |
| ParquetTypes.Int96GetNanoSeconds | cpp/src/parquet/types.h:273-279 | the days since the Unix epoch (word 2 minus 2440588) times 86 400 000 000 000, plus the signed nanoseconds of words 0 and 1; on the epoch day, just those nanoseconds |
| ParquetTypes.SetGetRoundTrip | cpp/src/parquet/types.h:269-279 | reading back written nanoseconds gives the written value iff word 2 holds 2440588 |
| ParquetTypes.DayShift | cpp/src/parquet/types.h:273-279 | each Julian day in word 2 moves the timestamp by exactly 86 400 000 000 000 ns |
| ParquetTypes.Int96Equals | cpp/src/parquet/types.h:259-261 | equal iff all three words are equal |
| ParquetTypes.Int96NotEquals | cpp/src/parquet/types.h:263 | not equal iff some word differs |
| ParquetTypes.EqualInt96SameNanos | cpp/src/parquet/types.h:259-279 | equal `Int96` values denote the same timestamp |

## Left out

- Allocation failure: `AllocateBitmap` gives a fresh array of
  `BytesForBits(length)` bytes with unspecified contents, apart from the
  cleared last byte, and its allocation always succeeds. The out-of-memory
  status it can return is not modelled.
  Nor is `Buffer::ZeroPadding`, which only touches capacity beyond the bitmap's
  size.
- `ArrayData::Make`, `MakeArray`, `Datum::make_array`, `shared_ptr` ownership
  and the `null()` type of the prepared output are not modelled. An array is
  its elements and its offset.
- What a kernel computes element by element, its `FunctionContext`, and the
  delegate's work in the allocating kernel are not modelled. Each is a
  parameter function returning an output or an error status. For the same
  reason, no property relates different chunkings of the same data through
  the kernel's results.
- `InvokeBinaryArrayKernelToDatum`: the debug checks of `WrapDatumsLike` are a
  precondition. A successful run must yield outputs that `WrapDatumsLike`
  accepts. Release builds that skip the checks and read element 0 of an empty
  or longer vector are not modelled.
- `WrapArraysLike` and `WrapDatumsLike` on a non-array-like reference hit a
  debug check, so they are called only on array-like references. The release
  build's empty `Datum()` result is not modelled.
- `int` and `int64` lengths and indices of the dispatcher are unbounded
  naturals. The model does not capture overflow of `elements_compared` or of
  `int` chunk indices.
- `Int96SetNanoSeconds` / `Int96GetNanoSeconds`: the model fixes a
  little-endian host. Their 8-byte `memcpy` uses host byte order, so on a
  big-endian host word 0 holds the high half and word 1 the low half. The
  Set/Get round trip is unaffected, because both directions use the same order.
- `Int96GetNanoSeconds` requires that the int64 multiplication and addition do
  not overflow (signed overflow is undefined in C++).
- The `EncryptionProperties` default constructor, which leaves the algorithm
  uninitialised, is not modelled. Nor are the plain `algorithm()`, `key()`
  and `aad()` getters.
- The fallback `return plain_len` and `return cipher_len` branches of the
  sizing functions are not modelled. With `Encryption` as a two-value
  datatype, they cannot be reached.
- The declared-only helpers of `types.h` have no body to model. These are
  `TypeToString`, `EncodingToString`, `CompressionToString`,
  `LogicalTypeToString`, `FormatStatValue`, `GetTypeByteSize`,
  `DefaultSortOrder` and `GetSortOrder`.
- The Thrift-mirroring enums, `ColumnOrder` and the type traits are left out.
- The string formatters are left out: `Int96ToString`,
  `FixedLenByteArrayToString` and `ByteArrayToString`.
- `FixedLenByteArray` is left out because it carries no length of its own.
- The AES-GCM cryptography is left out; only its frame sizes are modelled.

## Findings

| source | as written | input that shows it | evidently intended | confidence | as-written member | corrected member |
|---|---|---|---|---|---|---|
| cpp/src/arrow/compute/kernels/util-internal.cc:171-201 | `ZeroLastByte` writes byte `size - 1` of every bitmap `Call` allocates, including the bitmap for a zero-length input | an input array of length 0 (with a non-zero offset for the validity bitmap, always for the value bitmap): the bitmap has 0 bytes and the write lands at index -1 | clear the last byte only when the bitmap has one | medium, not executed | KernelUtil.EmptyInputBitmapHasNoLastByte | KernelUtil.AllocatingKernelCall |
