/**
 * The contract of the Arrow containers that the kernel utilities consume:
 * statuses, array views with zero-copy slicing, chunk lists and the Datum
 * tagged union. Only lengths, offsets and element values are modelled.
 */
module ArrowData {

  /**
   * An Arrow `Status`: OK, or an error code with its message. `Invalid` is the
   * code the dispatcher itself returns; `ExecutionError` stands for the other
   * error codes a kernel may return.
   */
  datatype Status = OK | Invalid(message: string) | ExecutionError(message: string)

  /** A status that is not OK, as carried by a failed kernel call. */
  type ErrorStatus = s: Status | !s.OK? witness Invalid("")

  /** What a kernel call hands back: its output datum, or the error status it returned. */
  datatype Result<+V> = Ok(value: V) | Fail(status: ErrorStatus)

  /**
   * `ArrayData` as the dispatcher sees it: the logical elements of the array
   * and its offset into the backing buffer. `Array::Slice` moves the offset
   * and copies nothing; here a slice carries the sliced elements.
   */
  datatype Array<T> = Array(values: seq<T>, offset: nat) {
    const length: nat := |values|
  }

  /** `Array::Slice(start, length)`: the view on `length` elements from `start`. */
  function Slice<T>(a: Array<T>, start: nat, length: nat): (s: Array<T>)
    requires start + length <= a.length
    ensures s.length == length && s.offset == a.offset + start
    ensures s.values == a.values[start..start + length]
  {
    Array(a.values[start..start + length], a.offset + start)
  }

  /**
   * `Datum`: the kinds a compute function can be handed. Only `ArrayDatum`
   * and `ChunkedDatum` are array-like; `TabularDatum` stands for the record
   * batch, table and collection kinds.
   */
  datatype Datum<T> =
    | NoneDatum
    | ScalarDatum(scalar: T)
    | ArrayDatum(data: Array<T>)
    | ChunkedDatum(chunks: seq<Array<T>>)
    | TabularDatum

  predicate ArrayLike<T>(d: Datum<T>) {
    d.ArrayDatum? || d.ChunkedDatum?
  }

  /** The number of elements in the chunks from index `i` on. */
  function LengthFrom<T>(chunks: seq<Array<T>>, i: nat): nat
    requires i <= |chunks|
    decreases |chunks| - i
  {
    if i == |chunks| then 0 else chunks[i].length + LengthFrom(chunks, i + 1)
  }

  /** The elements of the chunks from index `i` on, in chunk order. */
  function ValuesFrom<T>(chunks: seq<Array<T>>, i: nat): (vs: seq<T>)
    requires i <= |chunks|
    ensures |vs| == LengthFrom(chunks, i)
    decreases |chunks| - i
  {
    if i == |chunks| then [] else chunks[i].values + ValuesFrom(chunks, i + 1)
  }

  /** `ChunkedArray::length()`: the sum of the chunk lengths. */
  function TotalLength<T>(chunks: seq<Array<T>>): nat {
    LengthFrom(chunks, 0)
  }

  /** The elements of all chunks, in chunk order. */
  function Flatten<T>(chunks: seq<Array<T>>): (vs: seq<T>)
    ensures |vs| == TotalLength(chunks)
  {
    ValuesFrom(chunks, 0)
  }

  /** A single array seen as a chunk list of one chunk. */
  lemma SingleChunk<T>(a: Array<T>)
    ensures TotalLength([a]) == a.length
    ensures Flatten([a]) == a.values
  {
    assert ValuesFrom([a], 1) == [];
  }
}
