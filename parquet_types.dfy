/**
 * The physical-layer value helpers of Parquet's `types.h`: the frame-size
 * arithmetic of the encryption properties and their key wipe, the
 * `ByteArray` and `Int96` value types with their equality operators, and the
 * legacy `Int96` timestamp layout (nanoseconds of the day in words 0 and 1,
 * Julian day number in word 2).
 */
module ParquetTypes {
  import opened Wrappers

  /** Fixed-width integers of the C++ source, as ranges of `int`. */
  type uint8 = x: int | 0 <= x < 0x100
  type uint32 = x: int | 0 <= x < 0x1_0000_0000
  type int32 = x: int | -0x8000_0000 <= x < 0x8000_0000
  type int64 = x: int | -0x8000_0000_0000_0000 <= x < 0x8000_0000_0000_0000

  const Two32: int := 0x1_0000_0000
  const Two64: int := 0x1_0000_0000_0000_0000

  /** Unsigned 32-bit arithmetic: the value modulo 2^32. */
  function Wrap32(x: int): (r: uint32)
    ensures r == x % Two32
    ensures 0 <= x < Two32 ==> r == x
  {
    x % Two32
  }

  /** Adding `k` after wrapping wraps to the same value as adding `k` first. */
  lemma WrapAdd(x: int, k: int)
    ensures Wrap32(Wrap32(x) + k) == Wrap32(x + k)
  {
    var q := x / Two32;
    assert x == q * Two32 + Wrap32(x);
    ShiftByMultiple(Wrap32(x) + k, q);
  }

  /** Adding a multiple of 2^32 does not change the wrapped value. */
  lemma {:induction false} ShiftByMultiple(y: int, q: int)
    ensures (y + q * Two32) % Two32 == y % Two32
    decreases if q < 0 then -q else q
  {
    if q > 0 {
      ShiftByMultiple(y, q - 1);
      assert y + q * Two32 == (y + (q - 1) * Two32) + Two32;
    } else if q < 0 {
      ShiftByMultiple(y, q + 1);
      assert y + q * Two32 == (y + (q + 1) * Two32) - Two32;
    }
  }

  // ---------------------------------------------------------------------
  // Encryption properties

  /** `Encryption::type`: the two page-encryption algorithms. */
  datatype Encryption = AesGcmV1 | AesGcmCtrV1

  /**
   * The bytes a cipher frame adds to its plaintext: a 4-byte length prefix
   * plus 28 bytes of nonce and tag for AES-GCM (always used for metadata),
   * or 16 bytes of nonce for AES-GCM-CTR.
   */
  function FrameOverhead(algorithm: Encryption, isMetadata: bool): nat {
    if isMetadata || algorithm == AesGcmV1 then 28 + 4 else 16 + 4
  }

  /** `str2bytes`: a null pointer for the empty string, else the string's bytes. */
  function Str2Bytes(s: seq<uint8>): (p: Option<seq<uint8>>)
    ensures p.None? <==> |s| == 0
    ensures p.Some? ==> p.value == s
  {
    if |s| == 0 then None else Some(s)
  }

  /** `static_cast<int>` of a string length: the low 32 bits, read as signed. */
  function ToInt32(n: nat): (r: int32)
    ensures n < 0x8000_0000 ==> r == n
    ensures (r - n) % Two32 == 0
  {
    var w := Wrap32(n);
    assert n == (n / Two32) * Two32 + w;
    if w < 0x8000_0000 then w else w - Two32
  }

  /** All bytes are zero. */
  predicate Wiped(s: seq<uint8>) {
    forall i :: 0 <= i < |s| ==> s[i] == 0
  }

  /**
   * `EncryptionProperties`: the algorithm with its key and additional
   * authenticated data. Strings are modelled as their bytes.
   */
  class EncryptionProperties {
    var algorithm: Encryption
    var key: seq<uint8>
    var aad: seq<uint8>

    constructor (algorithm: Encryption, key: seq<uint8>, aad: seq<uint8> := [])
      ensures this.algorithm == algorithm && this.key == key && this.aad == aad
    {
      this.algorithm := algorithm;
      this.key := key;
      this.aad := aad;
    }

    /**
     * The destructor: overwrites every byte of the key with `'\0'` and keeps
     * its length, so no key material outlives the object.
     */
    method Destroy()
      modifies this
      ensures |key| == |old(key)| && Wiped(key)
      ensures algorithm == old(algorithm) && aad == old(aad)
    {
      key := seq(|key|, _ => 0);
    }

    function KeyLength(): (n: int32)
      reads this
      ensures |key| < 0x8000_0000 ==> n == |key|
    {
      ToInt32(|key|)
    }

    function KeyBytes(): (p: Option<seq<uint8>>)
      reads this
      ensures p.None? <==> |key| == 0
      ensures p.Some? ==> p.value == key
    {
      Str2Bytes(key)
    }

    /** The `aad(const std::string&)` setter: replaces the aad and nothing else. */
    method SetAad(aad: seq<uint8>)
      modifies this
      ensures this.aad == aad
      ensures algorithm == old(algorithm) && key == old(key)
    {
      this.aad := aad;
    }

    function AadLength(): (n: int32)
      reads this
      ensures |aad| < 0x8000_0000 ==> n == |aad|
    {
      ToInt32(|aad|)
    }

    function AadBytes(): (p: Option<seq<uint8>>)
      reads this
      ensures p.None? <==> |aad| == 0
      ensures p.Some? ==> p.value == aad
    {
      Str2Bytes(aad)
    }

    /** The size of the cipher frame for `plainLen` bytes, in uint32 arithmetic. */
    function CalculateCipherSize(plainLen: uint32, isMetadata: bool := false): (r: uint32)
      reads this
      ensures r == Wrap32(plainLen + FrameOverhead(algorithm, isMetadata))
      ensures plainLen + FrameOverhead(algorithm, isMetadata) < Two32 ==>
                r == plainLen + FrameOverhead(algorithm, isMetadata)
    {
      if isMetadata || algorithm == AesGcmV1 then
        WrapAdd(plainLen + 28, 4);
        Wrap32(Wrap32(plainLen + 28) + 4)
      else
        WrapAdd(plainLen + 16, 4);
        Wrap32(Wrap32(plainLen + 16) + 4)
    }

    /**
     * The plaintext size of a cipher frame of `cipherLen` bytes, in uint32
     * arithmetic: below the overhead the subtraction wraps around.
     */
    function CalculatePlainSize(cipherLen: uint32, isMetadata: bool := false): (r: uint32)
      reads this
      ensures r == Wrap32(cipherLen - FrameOverhead(algorithm, isMetadata))
      ensures cipherLen >= FrameOverhead(algorithm, isMetadata) ==>
                r == cipherLen - FrameOverhead(algorithm, isMetadata)
      ensures cipherLen < FrameOverhead(algorithm, isMetadata) ==>
                r == cipherLen - FrameOverhead(algorithm, isMetadata) + Two32
    {
      if isMetadata || algorithm == AesGcmV1 then
        WrapAdd(cipherLen - 28, -4);
        Wrap32(Wrap32(cipherLen - 28) - 4)
      else
        WrapAdd(cipherLen - 16, -4);
        Wrap32(Wrap32(cipherLen - 16) - 4)
    }

    /** Metadata and AES-GCM frames add 32 bytes; AES-GCM-CTR data frames add 20. */
    lemma Overheads(len: uint32, isMetadata: bool)
      requires len < Two32 - 32
      ensures isMetadata || algorithm == AesGcmV1 ==> CalculateCipherSize(len, isMetadata) == len + 32
      ensures !isMetadata && algorithm == AesGcmCtrV1 ==> CalculateCipherSize(len, isMetadata) == len + 20
      ensures isMetadata || algorithm == AesGcmV1 ==> CalculatePlainSize(len + 32, isMetadata) == len
      ensures !isMetadata && algorithm == AesGcmCtrV1 ==> CalculatePlainSize(len + 20, isMetadata) == len
    {
    }

    /** Sizing a frame and then unsizing it gives back the plaintext length, for every length. */
    lemma PlainOfCipher(plainLen: uint32, isMetadata: bool)
      ensures CalculatePlainSize(CalculateCipherSize(plainLen, isMetadata), isMetadata) == plainLen
    {
      var o: int := FrameOverhead(algorithm, isMetadata);
      WrapAdd(plainLen + o, -o);
    }

    /** And the other way round: every cipher length is the size of some frame. */
    lemma CipherOfPlain(cipherLen: uint32, isMetadata: bool)
      ensures CalculateCipherSize(CalculatePlainSize(cipherLen, isMetadata), isMetadata) == cipherLen
    {
      var o: int := FrameOverhead(algorithm, isMetadata);
      WrapAdd(cipherLen - o, o);
    }
  }

  // ---------------------------------------------------------------------
  // ByteArray

  /**
   * `ByteArray`: a length and a pointer. A present pointer is modelled by
   * the bytes readable from it; a null pointer by `None`.
   */
  datatype ByteArray = ByteArray(len: uint32, ptr: Option<seq<uint8>>) {
    /** A non-empty byte array points at `len` readable bytes. */
    predicate Valid() {
      len == 0 || (ptr.Some? && len <= |ptr.value|)
    }

    /** The value the byte array denotes: its first `len` bytes. */
    function Bytes(): (bs: seq<uint8>)
      requires Valid()
      ensures |bs| == len
    {
      if len == 0 then [] else ptr.value[..len]
    }
  }

  /**
   * `memcmp` over the first `n` bytes: the difference of the first bytes
   * that differ, or 0 when all `n` agree.
   */
  function MemCmp(a: seq<uint8>, b: seq<uint8>, n: nat): (r: int)
    requires n <= |a| && n <= |b|
    ensures r == 0 <==> a[..n] == b[..n]
    decreases n
  {
    if n == 0 then 0
    else if a[0] != b[0] then a[0] - b[0]
    else
      var r := MemCmp(a[1..], b[1..], n - 1);
      assert a[..n] == [a[0]] + a[1..][..n - 1];
      assert b[..n] == [b[0]] + b[1..][..n - 1];
      r
  }

  /** `operator==` on byte arrays: equal lengths and equal bytes; pointers of empty arrays are never read. */
  function ByteArrayEquals(left: ByteArray, right: ByteArray): (eq: bool)
    requires left.Valid() && right.Valid()
    ensures eq <==> left.Bytes() == right.Bytes()
  {
    left.len == right.len &&
    (left.len == 0 || MemCmp(left.ptr.value, right.ptr.value, left.len) == 0)
  }

  function ByteArrayNotEquals(left: ByteArray, right: ByteArray): (ne: bool)
    requires left.Valid() && right.Valid()
    ensures ne <==> left.Bytes() != right.Bytes()
  {
    !ByteArrayEquals(left, right)
  }

  /** Byte-array equality is an equivalence relation, and ignores what lies past `len`. */
  lemma ByteArrayEquivalence(a: ByteArray, b: ByteArray, c: ByteArray)
    requires a.Valid() && b.Valid() && c.Valid()
    ensures ByteArrayEquals(a, a)
    ensures ByteArrayEquals(a, b) == ByteArrayEquals(b, a)
    ensures ByteArrayEquals(a, b) && ByteArrayEquals(b, c) ==> ByteArrayEquals(a, c)
    ensures ByteArrayNotEquals(a, b) == !ByteArrayEquals(a, b)
  {
  }

  /** An empty byte array equals every other empty one, null pointer or not. */
  lemma EmptyByteArraysEqual(p: Option<seq<uint8>>, q: Option<seq<uint8>>)
    ensures ByteArrayEquals(ByteArray(0, p), ByteArray(0, q))
  {
  }

  // ---------------------------------------------------------------------
  // Int96 timestamps

  /** The Julian day number of the Unix epoch, 1970-01-01. */
  const JulianToUnixEpochDays: int64 := 2440588
  const SecondsPerDay: int64 := 60 * 60 * 24
  const MillisecondsPerDay: int64 := SecondsPerDay * 1000
  const MicrosecondsPerDay: int64 := MillisecondsPerDay * 1000
  const NanosecondsPerDay: int64 := MicrosecondsPerDay * 1000

  /** The two's-complement bit pattern of a signed 64-bit value, as an unsigned number. */
  function Unsigned64(v: int64): (u: nat)
    ensures u < Two64 && (u - v) % Two64 == 0
  {
    if v < 0 then v + Two64 else v
  }

  /** The low and high 32-bit words of the little-endian layout of `v`. */
  function LowWord(v: int64): uint32 { Unsigned64(v) % Two32 }
  function HighWord(v: int64): uint32 { Unsigned64(v) / Two32 }

  /** The signed 64-bit value whose little-endian words are `lo` and `hi`. */
  function Signed64(lo: uint32, hi: uint32): (v: int64)
    ensures (v - (hi * Two32 + lo)) % Two64 == 0
  {
    var u := hi * Two32 + lo;
    if u < 0x8000_0000_0000_0000 then u else u - Two64
  }

  /** Splitting a value into its two words and reading them back gives the value. */
  lemma WordsRoundTrip(v: int64)
    ensures Signed64(LowWord(v), HighWord(v)) == v
  {
    var u := Unsigned64(v);
    assert HighWord(v) * Two32 + LowWord(v) == u;
  }

  /** The nanoseconds since the Unix epoch that an `Int96` timestamp denotes. */
  function Nanos(w0: uint32, w1: uint32, w2: uint32): int {
    (w2 - JulianToUnixEpochDays) * NanosecondsPerDay + Signed64(w0, w1)
  }

  /** `Int96GetNanoSeconds` is defined: the int64 multiplication and addition do not overflow. */
  predicate GetDefined(w0: uint32, w1: uint32, w2: uint32) {
    var day := (w2 - JulianToUnixEpochDays) * NanosecondsPerDay;
    -0x8000_0000_0000_0000 <= day < 0x8000_0000_0000_0000 &&
    -0x8000_0000_0000_0000 <= Nanos(w0, w1, w2) < 0x8000_0000_0000_0000
  }

  /**
   * `Int96GetNanoSeconds`: the day count since the epoch, in nanoseconds,
   * plus the signed nanoseconds held in words 0 and 1.
   */
  function Int96GetNanoSeconds(i96: array<uint32>): (r: int64)
    requires i96.Length == 3 && GetDefined(i96[0], i96[1], i96[2])
    reads i96
    ensures r == Nanos(i96[0], i96[1], i96[2])
    ensures i96[2] == JulianToUnixEpochDays ==> r == Signed64(i96[0], i96[1])
  {
    var daysSinceEpoch: int64 := i96[2] - JulianToUnixEpochDays;
    var nanoseconds: int64 := Signed64(i96[0], i96[1]);
    daysSinceEpoch * NanosecondsPerDay + nanoseconds
  }

  /**
   * `Int96SetNanoSeconds`: copies the 8 bytes of `nanoseconds` over words 0
   * and 1; word 2, the Julian day, keeps whatever it held.
   */
  method Int96SetNanoSeconds(i96: array<uint32>, nanoseconds: int64)
    requires i96.Length == 3
    modifies i96
    ensures i96[0] == LowWord(nanoseconds) && i96[1] == HighWord(nanoseconds)
    ensures i96[2] == old(i96[2])
    ensures Signed64(i96[0], i96[1]) == nanoseconds
  {
    i96[0] := LowWord(nanoseconds);
    i96[1] := HighWord(nanoseconds);
    WordsRoundTrip(nanoseconds);
  }

  /**
   * Reading back a timestamp written by `Int96SetNanoSeconds` gives the
   * written value exactly when word 2 holds the epoch's Julian day.
   */
  lemma SetGetRoundTrip(nanoseconds: int64, day: uint32)
    ensures Nanos(LowWord(nanoseconds), HighWord(nanoseconds), day) == nanoseconds
            <==> day == JulianToUnixEpochDays
  {
    WordsRoundTrip(nanoseconds);
  }

  /** Each Julian day in word 2 moves the timestamp by exactly one day of nanoseconds. */
  lemma DayShift(w0: uint32, w1: uint32, w2: uint32)
    requires w2 + 1 < Two32
    ensures Nanos(w0, w1, w2 + 1) == Nanos(w0, w1, w2) + 86_400_000_000_000
  {
  }

  /** `operator==` on `Int96`: all three words agree. */
  predicate Int96Equals(left: array<uint32>, right: array<uint32>)
    requires left.Length == 3 && right.Length == 3
    reads left, right
    ensures Int96Equals(left, right) <==> left[..] == right[..]
  {
    forall i :: 0 <= i < 3 ==> left[i] == right[i]
  }

  predicate Int96NotEquals(left: array<uint32>, right: array<uint32>)
    requires left.Length == 3 && right.Length == 3
    reads left, right
    ensures Int96NotEquals(left, right) <==> left[..] != right[..]
  {
    !Int96Equals(left, right)
  }

  /** Equal `Int96` values denote the same timestamp. */
  lemma EqualInt96SameNanos(left: array<uint32>, right: array<uint32>)
    requires left.Length == 3 && right.Length == 3
    requires Int96Equals(left, right) && GetDefined(left[0], left[1], left[2])
    ensures GetDefined(right[0], right[1], right[2])
    ensures Int96GetNanoSeconds(left) == Int96GetNanoSeconds(right)
  {
    assert left[..][0] == right[..][0] && left[..][1] == right[..][1] && left[..][2] == right[..][2];
  }
}
