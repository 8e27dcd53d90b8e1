/**
 * Kernel invocation helpers of the compute layer: applying a one-array or
 * two-array kernel across plain and chunked datums, re-wrapping the results
 * in the shape of a reference datum, and the allocating unary kernel that
 * prepares the output bitmaps before delegating.
 *
 * A kernel is a total function value that either produces an output datum
 * or returns an error status; what it computes element by element is not
 * modelled.
 */
module KernelUtil {
  import opened Wrappers
  import opened ArrowData

  // ------------------------------------------------------------------
  // Running a sequence of kernel calls

  /** The status a sequence of kernel calls ends with and the outputs pushed before it. */
  datatype Run<U> = Run(status: Status, produced: seq<Datum<U>>)

  /**
   * Calls `kernel` on each argument in order, pushing each output, and stops
   * at the first call that fails, returning that call's status
   * (`RETURN_NOT_OK` followed by `push_back`).
   */
  function Apply<A, U>(kernel: A -> Result<Datum<U>>, args: seq<A>): Run<U> {
    if args == [] then Run(OK, [])
    else
      match kernel(args[0])
      case Fail(e) => Run(e, [])
      case Ok(out) =>
        var rest := Apply(kernel, args[1..]);
        Run(rest.status, [out] + rest.produced)
  }

  /**
   * A run succeeds iff every call succeeds; then it produces one output per
   * argument, in argument order. A failed run returns the status of its first
   * failing call, after the outputs of all earlier calls.
   */
  lemma {:induction false} ApplyCalls<A, U>(kernel: A -> Result<Datum<U>>, args: seq<A>)
    ensures var r := Apply(kernel, args);
      && |r.produced| <= |args|
      && (forall k :: 0 <= k < |r.produced| ==> kernel(args[k]) == Ok(r.produced[k]))
      && (r.status.OK? ==> |r.produced| == |args|)
      && (!r.status.OK? ==> |r.produced| < |args| && kernel(args[|r.produced|]) == Fail(r.status))
      && (r.status.OK? <==> forall k :: 0 <= k < |args| ==> kernel(args[k]).Ok?)
  {
    if args != [] {
      ApplyCalls(kernel, args[1..]);
      var r := Apply(kernel, args);
      if kernel(args[0]).Ok? {
        var rest := Apply(kernel, args[1..]);
        assert r.produced == [kernel(args[0]).value] + rest.produced;
        forall k | 0 <= k < |r.produced|
          ensures kernel(args[k]) == Ok(r.produced[k])
        {
          if k > 0 {
            assert args[k] == args[1..][k - 1];
          }
        }
        if !r.status.OK? {
          assert args[|r.produced|] == args[1..][|rest.produced|];
        }
        if forall k :: 0 <= k < |args| ==> kernel(args[k]).Ok? {
          assert forall k :: 0 <= k < |args| - 1 ==> args[1..][k] == args[k + 1];
        }
        if r.status.OK? {
          forall k | 0 <= k < |args| ensures kernel(args[k]).Ok? {
            if k > 0 {
              assert args[k] == args[1..][k - 1];
            }
          }
        }
      }
    }
  }

  /** Once a prefix of calls has succeeded, running the rest continues where it left off. */
  lemma {:induction false} ApplyAppend<A, U>(kernel: A -> Result<Datum<U>>, xs: seq<A>, ys: seq<A>)
    requires Apply(kernel, xs).status.OK?
    ensures Apply(kernel, xs + ys)
         == Run(Apply(kernel, ys).status, Apply(kernel, xs).produced + Apply(kernel, ys).produced)
  {
    if xs == [] {
      assert xs + ys == ys;
    } else {
      assert (xs + ys)[1..] == xs[1..] + ys;
      ApplyAppend(kernel, xs[1..], ys);
    }
  }

  /** The operand arrays of an array-like datum: the array itself, or its chunks. */
  function Operands<T>(d: Datum<T>): (chunks: seq<Array<T>>)
    requires ArrayLike(d)
  {
    if d.ArrayDatum? then [d.data] else d.chunks
  }

  /** The logical length of an array-like datum. */
  function Length<T>(d: Datum<T>): nat
    requires ArrayLike(d)
  {
    TotalLength(Operands(d))
  }

  // ------------------------------------------------------------------
  // Unary dispatch

  /** What `InvokeUnaryArrayKernel` returns and appends, as a function of its inputs. */
  function UnaryRun<T, U>(kernel: Array<T> -> Result<Datum<U>>, value: Datum<T>): Run<U> {
    if ArrayLike(value) then Apply(kernel, Operands(value))
    else Run(Invalid("Input Datum was not array-like"), [])
  }

  /**
   * `InvokeUnaryArrayKernel`: one kernel call for a plain array, one per
   * chunk (in chunk order) for a chunked array, `Invalid` for any other kind.
   * `outputs0` is the caller's vector; the returned `outputs` is that vector
   * after the calls.
   */
  method InvokeUnaryArrayKernel<T, U>(kernel: Array<T> -> Result<Datum<U>>, value: Datum<T>,
                                      outputs0: seq<Datum<U>>)
    returns (status: Status, outputs: seq<Datum<U>>)
    ensures !ArrayLike(value) ==> status == Invalid("Input Datum was not array-like") && outputs == outputs0
    ensures status == UnaryRun(kernel, value).status
    ensures outputs == outputs0 + UnaryRun(kernel, value).produced
  {
    outputs := outputs0;
    if value.ArrayDatum? {
      var result := kernel(value.data);
      assert Operands(value)[1..] == [];
      assert Apply(kernel, Operands(value)[1..]) == Run(OK, []);
      if result.Fail? {
        return result.status, outputs;
      }
      outputs := outputs + [result.value];
    } else if value.ChunkedDatum? {
      var chunks := value.chunks;
      for i := 0 to |chunks|
        invariant Apply(kernel, chunks[..i]).status.OK?
        invariant outputs == outputs0 + Apply(kernel, chunks[..i]).produced
      {
        var result := kernel(chunks[i]);
        if result.Fail? {
          ApplyAppend(kernel, chunks[..i], chunks[i..]);
          assert chunks[..i] + chunks[i..] == chunks;
          return result.status, outputs;
        }
        ApplyAppend(kernel, chunks[..i], [chunks[i]]);
        assert chunks[..i + 1] == chunks[..i] + [chunks[i]];
        outputs := outputs + [result.value];
      }
      assert chunks[..|chunks|] == chunks;
    } else {
      return Invalid("Input Datum was not array-like"), outputs;
    }
    return OK, outputs;
  }

  // ------------------------------------------------------------------
  // Chunk alignment for binary dispatch

  /** A position in a chunk list: a chunk index and an offset inside that chunk. */
  datatype Cursor = Cursor(chunk: nat, start: nat)

  /**
   * A cursor the merge loop can hold: the chunk index is at most the chunk
   * count, and the start is 0 or strictly inside the current chunk.
   */
  predicate CursorOk<T>(chunks: seq<Array<T>>, c: Cursor) {
    c.chunk <= |chunks| && (c.start == 0 || (c.chunk < |chunks| && c.start < chunks[c.chunk].length))
  }

  /** The number of elements at or after the cursor. */
  function Remaining<T>(chunks: seq<Array<T>>, c: Cursor): nat
    requires CursorOk(chunks, c)
  {
    if c.chunk == |chunks| then 0
    else chunks[c.chunk].length - c.start + LengthFrom(chunks, c.chunk + 1)
  }

  /** The elements at or after the cursor, in order. */
  function RemainingValues<T>(chunks: seq<Array<T>>, c: Cursor): seq<T>
    requires CursorOk(chunks, c)
  {
    if c.chunk == |chunks| then []
    else chunks[c.chunk].values[c.start..] + ValuesFrom(chunks, c.chunk + 1)
  }

  /** A cursor at the very beginning sees every element of the chunk list. */
  lemma StartCursor<T>(chunks: seq<Array<T>>)
    ensures CursorOk(chunks, Cursor(0, 0))
    ensures Remaining(chunks, Cursor(0, 0)) == TotalLength(chunks)
    ensures RemainingValues(chunks, Cursor(0, 0)) == Flatten(chunks)
  {
    if chunks != [] {
      assert chunks[0].values[0..] == chunks[0].values;
    }
  }

  /**
   * Moves the cursor past `n` elements of its current chunk: to the start of
   * the next chunk when that exhausts the chunk, otherwise `n` further on.
   */
  function Advance<T>(chunks: seq<Array<T>>, c: Cursor, n: nat): (next: Cursor)
    requires CursorOk(chunks, c) && c.chunk < |chunks|
    requires c.start + n <= chunks[c.chunk].length
    ensures CursorOk(chunks, next)
    ensures Remaining(chunks, next) == Remaining(chunks, c) - n
    ensures next.chunk == c.chunk + 1 <==> c.start + n == chunks[c.chunk].length
  {
    if c.start + n == chunks[c.chunk].length then
      NextChunkRemaining(chunks, c.chunk);
      Cursor(c.chunk + 1, 0)
    else Cursor(c.chunk, c.start + n)
  }

  /** What remains from the start of the chunk after chunk `i` is the sum of the later chunks. */
  lemma NextChunkRemaining<T>(chunks: seq<Array<T>>, i: nat)
    requires i < |chunks|
    ensures CursorOk(chunks, Cursor(i + 1, 0))
    ensures Remaining(chunks, Cursor(i + 1, 0)) == LengthFrom(chunks, i + 1)
    ensures RemainingValues(chunks, Cursor(i + 1, 0)) == ValuesFrom(chunks, i + 1)
  {
    if i + 1 < |chunks| {
      assert chunks[i + 1].values[0..] == chunks[i + 1].values;
    }
  }

  /** The elements skipped by `Advance` are exactly the next `n` elements. */
  lemma AdvanceValues<T>(chunks: seq<Array<T>>, c: Cursor, n: nat)
    requires CursorOk(chunks, c) && c.chunk < |chunks|
    requires c.start + n <= chunks[c.chunk].length
    ensures RemainingValues(chunks, c)
         == chunks[c.chunk].values[c.start..c.start + n] + RemainingValues(chunks, Advance(chunks, c, n))
  {
    if c.start + n == chunks[c.chunk].length {
      assert Advance(chunks, c, n) == Cursor(c.chunk + 1, 0);
      SkipRestOfChunk(chunks, c);
    } else {
      assert Advance(chunks, c, n) == Cursor(c.chunk, c.start + n);
      SkipWithinChunk(chunks, c, n);
    }
  }

  /** Skipping the rest of the current chunk leaves the later chunks. */
  lemma SkipRestOfChunk<T>(chunks: seq<Array<T>>, c: Cursor)
    requires CursorOk(chunks, c) && c.chunk < |chunks|
    ensures CursorOk(chunks, Cursor(c.chunk + 1, 0))
    ensures RemainingValues(chunks, c)
         == chunks[c.chunk].values[c.start..chunks[c.chunk].length] + RemainingValues(chunks, Cursor(c.chunk + 1, 0))
  {
    NextChunkRemaining(chunks, c.chunk);
    var vs := chunks[c.chunk].values;
    assert vs[c.start..] == vs[c.start..|vs|];
  }

  /** Skipping `n` elements that do not exhaust the current chunk. */
  lemma SkipWithinChunk<T>(chunks: seq<Array<T>>, c: Cursor, n: nat)
    requires CursorOk(chunks, c) && c.chunk < |chunks|
    requires c.start + n < chunks[c.chunk].length
    ensures RemainingValues(chunks, c)
         == chunks[c.chunk].values[c.start..c.start + n] + RemainingValues(chunks, Cursor(c.chunk, c.start + n))
  {
    var vs, j := chunks[c.chunk].values, c.start + n;
    InChunk(chunks, c);
    InChunk(chunks, Cursor(c.chunk, j));
    SplitSuffixThen(vs, c.start, j, ValuesFrom(chunks, c.chunk + 1));
  }

  /** The elements after a cursor inside a chunk: the rest of that chunk, then the later chunks. */
  lemma InChunk<T>(chunks: seq<Array<T>>, c: Cursor)
    requires CursorOk(chunks, c) && c.chunk < |chunks|
    ensures RemainingValues(chunks, c) == chunks[c.chunk].values[c.start..] + ValuesFrom(chunks, c.chunk + 1)
  {
  }

  /** A suffix of a sequence is a middle part followed by a later suffix. */
  lemma SplitSuffix<T>(vs: seq<T>, i: nat, j: nat)
    requires i <= j <= |vs|
    ensures vs[i..] == vs[i..j] + vs[j..]
  {
  }

  /** The same split, with a tail appended after the suffix. */
  lemma SplitSuffixThen<T>(vs: seq<T>, i: nat, j: nat, rest: seq<T>)
    requires i <= j <= |vs|
    ensures vs[i..] + rest == vs[i..j] + (vs[j..] + rest)
  {
    SplitSuffix(vs, i, j);
    ConcatAssoc(vs[i..j], vs[j..], rest);
  }

  lemma ConcatAssoc<T>(a: seq<T>, b: seq<T>, c: seq<T>)
    ensures (a + b) + c == a + (b + c)
  {
  }

  /** The two slices handed to one binary kernel call. */
  datatype SlicePair<T> = SlicePair(left: Array<T>, right: Array<T>)

  /** The kernel calls of a binary invocation, first call first. */
  datatype Plan<T> = Finished | Call(pair: SlicePair<T>, next: Plan<T>)

  function Min(a: nat, b: nat): nat { if a <= b then a else b }

  /** The number of kernel calls of a plan. */
  function Count<T>(plan: Plan<T>): nat {
    if plan.Finished? then 0 else 1 + Count(plan.next)
  }

  /** Sum of the left slice lengths of a plan. */
  function SumLength<T>(plan: Plan<T>): nat {
    if plan.Finished? then 0 else plan.pair.left.length + SumLength(plan.next)
  }

  /** Every call of the plan gets two slices of the same length. */
  predicate EqualLengths<T>(plan: Plan<T>) {
    plan.Call? ==> plan.pair.left.length == plan.pair.right.length && EqualLengths(plan.next)
  }

  /** The left slices' elements, concatenated in call order. */
  function LeftValues<T>(plan: Plan<T>): seq<T> {
    if plan.Finished? then [] else plan.pair.left.values + LeftValues(plan.next)
  }

  /** The right slices' elements, concatenated in call order. */
  function RightValues<T>(plan: Plan<T>): seq<T> {
    if plan.Finished? then [] else plan.pair.right.values + RightValues(plan.next)
  }

  /** The calls of a plan as the argument list of `Apply`. */
  function Calls<T>(plan: Plan<T>): (ps: seq<SlicePair<T>>)
    ensures |ps| == Count(plan)
    ensures EqualLengths(plan) ==> forall k :: 0 <= k < |ps| ==> ps[k].left.length == ps[k].right.length
  {
    if plan.Finished? then [] else [plan.pair] + Calls(plan.next)
  }

  /**
   * The length of the next merge step: the shorter of the two current
   * chunks' remainders. It exhausts at least one of the two current chunks.
   */
  function StepLength<T>(ls: seq<Array<T>>, rs: seq<Array<T>>, lc: Cursor, rc: Cursor): (n: nat)
    requires CursorOk(ls, lc) && CursorOk(rs, rc)
    requires Remaining(ls, lc) == Remaining(rs, rc) != 0
    ensures lc.chunk < |ls| && rc.chunk < |rs|
    ensures lc.start + n <= ls[lc.chunk].length && rc.start + n <= rs[rc.chunk].length
    ensures lc.start + n == ls[lc.chunk].length || rc.start + n == rs[rc.chunk].length
  {
    Min(ls[lc.chunk].length - lc.start, rs[rc.chunk].length - rc.start)
  }

  /**
   * The kernel calls the merge loop of `InvokeBinaryArrayKernel` makes from
   * cursors `lc` and `rc` on: while elements remain, take the shorter of the
   * two remainders of the current chunks, slice that many elements from both
   * sides and advance each cursor on its own. Every call gets slices of equal
   * length, the lengths add up to what remained, and since every step
   * exhausts at least one current chunk there are at most as many calls as
   * chunks left on both sides.
   */
  function Pieces<T>(ls: seq<Array<T>>, rs: seq<Array<T>>, lc: Cursor, rc: Cursor): (plan: Plan<T>)
    requires CursorOk(ls, lc) && CursorOk(rs, rc)
    requires Remaining(ls, lc) == Remaining(rs, rc)
    ensures EqualLengths(plan)
    ensures SumLength(plan) == Remaining(ls, lc)
    ensures Count(plan) <= (|ls| - lc.chunk) + (|rs| - rc.chunk)
    decreases (|ls| - lc.chunk) + (|rs| - rc.chunk)
  {
    if Remaining(ls, lc) == 0 then Finished
    else
      var n := StepLength(ls, rs, lc, rc);
      Call(SlicePair(Slice(ls[lc.chunk], lc.start, n), Slice(rs[rc.chunk], rc.start, n)),
           Pieces(ls, rs, Advance(ls, lc, n), Advance(rs, rc, n)))
  }

  /** While elements remain, the next call is on the next `StepLength` elements of both current chunks. */
  lemma PiecesUnfold<T>(ls: seq<Array<T>>, rs: seq<Array<T>>, lc: Cursor, rc: Cursor)
    requires CursorOk(ls, lc) && CursorOk(rs, rc)
    requires Remaining(ls, lc) == Remaining(rs, rc) != 0
    ensures var n := StepLength(ls, rs, lc, rc);
      Pieces(ls, rs, lc, rc)
      == Call(SlicePair(Slice(ls[lc.chunk], lc.start, n), Slice(rs[rc.chunk], rc.start, n)),
              Pieces(ls, rs, Advance(ls, lc, n), Advance(rs, rc, n)))
  {
  }

  /** The kernel calls of a whole binary invocation over chunk lists of equal total length. */
  function Alignment<T>(ls: seq<Array<T>>, rs: seq<Array<T>>): Plan<T>
    requires TotalLength(ls) == TotalLength(rs)
  {
    StartCursor(ls);
    StartCursor(rs);
    Pieces(ls, rs, Cursor(0, 0), Cursor(0, 0))
  }

  /** From any pair of cursors on, the left slices cover what remains on the left, in order. */
  lemma {:induction false} PiecesCoverLeft<T>(ls: seq<Array<T>>, rs: seq<Array<T>>, lc: Cursor, rc: Cursor)
    requires CursorOk(ls, lc) && CursorOk(rs, rc)
    requires Remaining(ls, lc) == Remaining(rs, rc)
    ensures LeftValues(Pieces(ls, rs, lc, rc)) == RemainingValues(ls, lc)
    decreases (|ls| - lc.chunk) + (|rs| - rc.chunk)
  {
    if Remaining(ls, lc) != 0 {
      var n := StepLength(ls, rs, lc, rc);
      PiecesCoverLeft(ls, rs, Advance(ls, lc, n), Advance(rs, rc, n));
      AdvanceValues(ls, lc, n);
      assert Slice(ls[lc.chunk], lc.start, n).values == ls[lc.chunk].values[lc.start..lc.start + n];
    }
  }

  /** From any pair of cursors on, the right slices cover what remains on the right, in order. */
  lemma {:induction false} PiecesCoverRight<T>(ls: seq<Array<T>>, rs: seq<Array<T>>, lc: Cursor, rc: Cursor)
    requires CursorOk(ls, lc) && CursorOk(rs, rc)
    requires Remaining(ls, lc) == Remaining(rs, rc)
    ensures RightValues(Pieces(ls, rs, lc, rc)) == RemainingValues(rs, rc)
    decreases (|ls| - lc.chunk) + (|rs| - rc.chunk)
  {
    if Remaining(ls, lc) != 0 {
      var n := StepLength(ls, rs, lc, rc);
      PiecesCoverRight(ls, rs, Advance(ls, lc, n), Advance(rs, rc, n));
      AdvanceValues(rs, rc, n);
      assert Slice(rs[rc.chunk], rc.start, n).values == rs[rc.chunk].values[rc.start..rc.start + n];
    }
  }

  /**
   * No gaps and no overlaps: concatenating the left slices in call order
   * gives the concatenated left chunks, and likewise on the right; every
   * call gets slices of equal length, the lengths add up to the common total
   * length, and there are at most as many calls as chunks on both sides.
   */
  lemma AlignmentCovers<T>(ls: seq<Array<T>>, rs: seq<Array<T>>)
    requires TotalLength(ls) == TotalLength(rs)
    ensures LeftValues(Alignment(ls, rs)) == Flatten(ls)
    ensures RightValues(Alignment(ls, rs)) == Flatten(rs)
    ensures EqualLengths(Alignment(ls, rs))
    ensures SumLength(Alignment(ls, rs)) == TotalLength(ls)
    ensures Count(Alignment(ls, rs)) <= |ls| + |rs|
  {
    StartCursor(ls);
    StartCursor(rs);
    PiecesCoverLeft(ls, rs, Cursor(0, 0), Cursor(0, 0));
    PiecesCoverRight(ls, rs, Cursor(0, 0), Cursor(0, 0));
  }

  /** The binary kernel seen as a function of one slice pair. */
  function Pairwise<T, U>(kernel: (Array<T>, Array<T>) -> Result<Datum<U>>): SlicePair<T> -> Result<Datum<U>> {
    (p: SlicePair<T>) => kernel(p.left, p.right)
  }

  /** What the kernel calls of a plan return and push. */
  function RunPlan<T, U>(kernel: (Array<T>, Array<T>) -> Result<Datum<U>>, plan: Plan<T>): Run<U> {
    Apply(Pairwise(kernel), Calls(plan))
  }

  /** Running a plan: its first call, then (if that succeeded) the rest of the plan. */
  lemma RunPlanStep<T, U>(kernel: (Array<T>, Array<T>) -> Result<Datum<U>>, p: SlicePair<T>, next: Plan<T>)
    ensures var r := RunPlan(kernel, Call(p, next));
      match kernel(p.left, p.right)
      case Fail(e) => r == Run(e, [])
      case Ok(out) => r == Run(RunPlan(kernel, next).status, [out] + RunPlan(kernel, next).produced)
  {
    var args := Calls(Call(p, next));
    assert args[0] == p && args[1..] == Calls(next);
  }

  /**
   * One iteration of the merge loop: while elements remain, the remaining
   * calls are the call on the next `StepLength` elements of both current
   * chunks, then (if it succeeded) the calls from the advanced cursors.
   */
  lemma MergeStep<T, U>(kernel: (Array<T>, Array<T>) -> Result<Datum<U>>,
                        ls: seq<Array<T>>, rs: seq<Array<T>>, lc: Cursor, rc: Cursor)
    requires CursorOk(ls, lc) && CursorOk(rs, rc)
    requires Remaining(ls, lc) == Remaining(rs, rc) != 0
    ensures var n := StepLength(ls, rs, lc, rc);
      var here := RunPlan(kernel, Pieces(ls, rs, lc, rc));
      var later := RunPlan(kernel, Pieces(ls, rs, Advance(ls, lc, n), Advance(rs, rc, n)));
      match kernel(Slice(ls[lc.chunk], lc.start, n), Slice(rs[rc.chunk], rc.start, n))
      case Fail(e) => here == Run(e, [])
      case Ok(out) => here == Run(later.status, [out] + later.produced)
  {
    var n := StepLength(ls, rs, lc, rc);
    PiecesUnfold(ls, rs, lc, rc);
    RunPlanStep(kernel, SlicePair(Slice(ls[lc.chunk], lc.start, n), Slice(rs[rc.chunk], rc.start, n)),
                Pieces(ls, rs, Advance(ls, lc, n), Advance(rs, rc, n)));
  }

  /** What the vector form of `InvokeBinaryArrayKernel` returns and appends. */
  function BinaryRun<T, U>(kernel: (Array<T>, Array<T>) -> Result<Datum<U>>, left: Datum<T>, right: Datum<T>): Run<U> {
    if !ArrayLike(left) then Run(Invalid("Left input Datum was not array-like"), [])
    else if !ArrayLike(right) then Run(Invalid("Right input Datum was not array-like"), [])
    else if Length(left) != Length(right) then Run(Invalid("Right and left have different lengths"), [])
    else RunPlan(kernel, Alignment(Operands(left), Operands(right)))
  }

  /**
   * Inputs are validated before any kernel call: a non-array-like operand or
   * unequal lengths return `Invalid` and produce nothing. Otherwise the
   * kernel is called on the aligned slice pairs, in order, until one fails;
   * the run succeeds iff every call does, and then there is one output per
   * call.
   */
  lemma BinaryRunCases<T, U>(kernel: (Array<T>, Array<T>) -> Result<Datum<U>>, left: Datum<T>, right: Datum<T>)
    ensures var r := BinaryRun(kernel, left, right);
      (!ArrayLike(left) || !ArrayLike(right) || Length(left) != Length(right)) ==> r.status.Invalid? && r.produced == []
    ensures var r := BinaryRun(kernel, left, right);
      ArrayLike(left) && ArrayLike(right) && Length(left) == Length(right) ==>
        var ps := Calls(Alignment(Operands(left), Operands(right)));
        && (r.status.OK? <==> forall k :: 0 <= k < |ps| ==> kernel(ps[k].left, ps[k].right).Ok?)
        && |r.produced| <= |ps|
        && (forall k :: 0 <= k < |r.produced| ==>
              ps[k].left.length == ps[k].right.length && kernel(ps[k].left, ps[k].right) == Ok(r.produced[k]))
        && (r.status.OK? ==> |r.produced| == |ps|)
  {
    if ArrayLike(left) && ArrayLike(right) && Length(left) == Length(right) {
      var ps := Calls(Alignment(Operands(left), Operands(right)));
      ApplyCalls(Pairwise(kernel), ps);
      assert forall k :: 0 <= k < |ps| ==> Pairwise(kernel)(ps[k]) == kernel(ps[k].left, ps[k].right);
    }
  }

  /**
   * The vector form of `InvokeBinaryArrayKernel`: validates both operands,
   * then walks both chunk lists with one cursor per side, calling the kernel
   * on equal-length slices and appending each output to `outputs0`.
   */
  method InvokeBinaryArrayKernel<T, U>(kernel: (Array<T>, Array<T>) -> Result<Datum<U>>,
                                       left: Datum<T>, right: Datum<T>, outputs0: seq<Datum<U>>)
    returns (status: Status, outputs: seq<Datum<U>>)
    ensures status == BinaryRun(kernel, left, right).status
    ensures outputs == outputs0 + BinaryRun(kernel, left, right).produced
  {
    var leftLength: nat;
    var leftArrays: seq<Array<T>>;
    if left.ArrayDatum? {
      leftLength := left.data.length;
      leftArrays := [left.data];
      SingleChunk(left.data);
    } else if left.ChunkedDatum? {
      leftLength := TotalLength(left.chunks);
      leftArrays := left.chunks;
    } else {
      return Invalid("Left input Datum was not array-like"), outputs0;
    }

    var rightLength: nat;
    var rightArrays: seq<Array<T>>;
    if right.ArrayDatum? {
      rightLength := right.data.length;
      rightArrays := [right.data];
      SingleChunk(right.data);
    } else if right.ChunkedDatum? {
      rightLength := TotalLength(right.chunks);
      rightArrays := right.chunks;
    } else {
      return Invalid("Right input Datum was not array-like"), outputs0;
    }

    assert leftArrays == Operands(left) && leftLength == Length(left);
    assert rightArrays == Operands(right) && rightLength == Length(right);
    if rightLength != leftLength {
      return Invalid("Right and left have different lengths"), outputs0;
    }

    status, outputs := MergeChunks(kernel, leftArrays, rightArrays, outputs0);
  }

  /**
   * The merge loop of `InvokeBinaryArrayKernel` over two chunk lists of equal
   * total length: one cursor (chunk index, start) per side; each iteration
   * calls the kernel on the next `StepLength` elements of both current
   * chunks, pushes the output, and moves each cursor to the next chunk when
   * its current one is exhausted.
   */
  method MergeChunks<T, U>(kernel: (Array<T>, Array<T>) -> Result<Datum<U>>,
                           leftArrays: seq<Array<T>>, rightArrays: seq<Array<T>>, outputs0: seq<Datum<U>>)
    returns (status: Status, outputs: seq<Datum<U>>)
    requires TotalLength(leftArrays) == TotalLength(rightArrays)
    ensures status == RunPlan(kernel, Alignment(leftArrays, rightArrays)).status
    ensures outputs == outputs0 + RunPlan(kernel, Alignment(leftArrays, rightArrays)).produced
  {
    var leftLength := TotalLength(leftArrays);
    var leftChunkIdx, leftStartIdx := 0, 0;
    var rightChunkIdx, rightStartIdx := 0, 0;
    var elementsCompared := 0;
    ghost var whole := RunPlan(kernel, Alignment(leftArrays, rightArrays));
    StartCursor(leftArrays);
    StartCursor(rightArrays);
    outputs := outputs0;

    // `whole` is what the remaining calls from the current cursors complete.
    while elementsCompared < leftLength
      invariant CursorOk(leftArrays, Cursor(leftChunkIdx, leftStartIdx))
      invariant CursorOk(rightArrays, Cursor(rightChunkIdx, rightStartIdx))
      invariant elementsCompared + Remaining(leftArrays, Cursor(leftChunkIdx, leftStartIdx)) == leftLength
      invariant Remaining(leftArrays, Cursor(leftChunkIdx, leftStartIdx))
             == Remaining(rightArrays, Cursor(rightChunkIdx, rightStartIdx))
      invariant var later := RunPlan(kernel, Pieces(leftArrays, rightArrays,
                                                   Cursor(leftChunkIdx, leftStartIdx),
                                                   Cursor(rightChunkIdx, rightStartIdx)));
        whole.status == later.status && outputs0 + whole.produced == outputs + later.produced
      decreases (|leftArrays| - leftChunkIdx) + (|rightArrays| - rightChunkIdx)
    {
      ghost var lc, rc := Cursor(leftChunkIdx, leftStartIdx), Cursor(rightChunkIdx, rightStartIdx);
      var leftArray := leftArrays[leftChunkIdx];
      var rightArray := rightArrays[rightChunkIdx];
      var commonLength := Min(leftArray.length - leftStartIdx, rightArray.length - rightStartIdx);

      var leftOp := Slice(leftArray, leftStartIdx, commonLength);
      var rightOp := Slice(rightArray, rightStartIdx, commonLength);
      ghost var next := Pieces(leftArrays, rightArrays,
                               Advance(leftArrays, lc, commonLength), Advance(rightArrays, rc, commonLength));
      assert commonLength == StepLength(leftArrays, rightArrays, lc, rc);
      MergeStep(kernel, leftArrays, rightArrays, lc, rc);

      var result := kernel(leftOp, rightOp);
      if result.Fail? {
        return result.status, outputs;
      }
      ConcatAssoc(outputs, [result.value], RunPlan(kernel, next).produced);
      outputs := outputs + [result.value];

      elementsCompared := elementsCompared + commonLength;

      if leftStartIdx + commonLength == leftArray.length {
        leftChunkIdx := leftChunkIdx + 1;
        leftStartIdx := 0;
      } else {
        leftStartIdx := leftStartIdx + commonLength;
      }

      if rightStartIdx + commonLength == rightArray.length {
        rightChunkIdx := rightChunkIdx + 1;
        rightStartIdx := 0;
      } else {
        rightStartIdx := rightStartIdx + commonLength;
      }
      assert Cursor(leftChunkIdx, leftStartIdx) == Advance(leftArrays, lc, commonLength);
      assert Cursor(rightChunkIdx, rightStartIdx) == Advance(rightArrays, rc, commonLength);
    }
    assert Pieces(leftArrays, rightArrays, Cursor(leftChunkIdx, leftStartIdx), Cursor(rightChunkIdx, rightStartIdx))
        == Finished;
    assert Calls<T>(Finished) == [];
    assert outputs + [] == outputs;
    return OK, outputs;
  }

  // ------------------------------------------------------------------
  // Re-wrapping results like a reference datum

  /**
   * `WrapArraysLike`: a plain-array reference gives the first array, a
   * chunked reference gives a chunked array of all arrays in order; the
   * result always has the reference's shape.
   */
  function WrapArraysLike<T, U>(reference: Datum<T>, arrays: seq<Array<U>>): (r: Datum<U>)
    requires ArrayLike(reference)
    requires reference.ArrayDatum? ==> |arrays| >= 1
    ensures r.ArrayDatum? <==> reference.ArrayDatum?
    ensures r.ChunkedDatum? <==> reference.ChunkedDatum?
    ensures r.ArrayDatum? ==> r.data == arrays[0]
    ensures r.ChunkedDatum? ==> r.chunks == arrays
  {
    if reference.ArrayDatum? then ArrayDatum(arrays[0]) else ChunkedDatum(arrays)
  }

  /**
   * The debug checks of `WrapDatumsLike`: the reference is array-like, every
   * datum is an array datum, and a plain-array reference comes with exactly
   * one datum.
   */
  predicate WrapsLike<T, U>(reference: Datum<T>, datums: seq<Datum<U>>) {
    && ArrayLike(reference)
    && (forall k :: 0 <= k < |datums| ==> datums[k].ArrayDatum?)
    && (reference.ArrayDatum? ==> |datums| == 1)
  }

  /** The arrays held by a list of array datums, in order. */
  function ArraysOf<U>(datums: seq<Datum<U>>): (arrays: seq<Array<U>>)
    requires forall k :: 0 <= k < |datums| ==> datums[k].ArrayDatum?
    ensures |arrays| == |datums|
    ensures forall k :: 0 <= k < |datums| ==> arrays[k] == datums[k].data
  {
    if datums == [] then [] else [datums[0].data] + ArraysOf(datums[1..])
  }

  /** `WrapDatumsLike`: re-wraps the arrays of `datums` in the shape of `reference`. */
  method WrapDatumsLike<T, U>(reference: Datum<T>, datums: seq<Datum<U>>) returns (r: Datum<U>)
    requires WrapsLike(reference, datums)
    ensures r == WrapArraysLike(reference, ArraysOf(datums))
  {
    if reference.ArrayDatum? {
      return ArrayDatum(datums[0].data);
    }
    var arrays: seq<Array<U>> := [];
    for i := 0 to |datums|
      invariant |arrays| == i
      invariant forall k :: 0 <= k < i ==> arrays[k] == datums[k].data
    {
      arrays := arrays + [datums[i].data];
    }
    assert arrays == ArraysOf(datums);
    return ChunkedDatum(arrays);
  }

  /**
   * The convenience form of `InvokeBinaryArrayKernel`: runs the vector form
   * and wraps its outputs like `left`. Its caller must ensure that a
   * successful run yields outputs `WrapDatumsLike` accepts. On failure the
   * caller's `output0` is left as it was.
   */
  method InvokeBinaryArrayKernelToDatum<T, U>(kernel: (Array<T>, Array<T>) -> Result<Datum<U>>,
                                              left: Datum<T>, right: Datum<T>, output0: Datum<U>)
    returns (status: Status, output: Datum<U>)
    requires BinaryRun(kernel, left, right).status.OK? ==> WrapsLike(left, BinaryRun(kernel, left, right).produced)
    ensures status == BinaryRun(kernel, left, right).status
    ensures !status.OK? ==> output == output0
    ensures status.OK? ==> output == WrapArraysLike(left, ArraysOf(BinaryRun(kernel, left, right).produced))
  {
    var result;
    status, result := InvokeBinaryArrayKernel(kernel, left, right, []);
    if !status.OK? {
      return status, output0;
    }
    ghost var produced := BinaryRun(kernel, left, right).produced;
    assert result == produced by {
      assert result == [] + produced;
    }
    output := WrapDatumsLike(left, result);
  }

  /**
   * Two plain operands of the same positive length are handled by a single
   * kernel call on the whole of both arrays, so the convenience form can wrap
   * a successful array result like a plain `left`.
   */
  lemma PlainOperandsSingleCall<T, U>(kernel: (Array<T>, Array<T>) -> Result<Datum<U>>, a: Array<T>, b: Array<T>)
    requires a.length == b.length > 0
    ensures TotalLength([a]) == TotalLength([b])
    ensures Alignment([a], [b]) == Call(SlicePair(Slice(a, 0, a.length), Slice(b, 0, b.length)), Finished)
    ensures kernel(Slice(a, 0, a.length), Slice(b, 0, b.length)).Ok? &&
            kernel(Slice(a, 0, a.length), Slice(b, 0, b.length)).value.ArrayDatum? ==>
              WrapsLike(ArrayDatum(a), BinaryRun(kernel, ArrayDatum(a), ArrayDatum(b)).produced)
  {
    SingleChunk(a);
    SingleChunk(b);
    StartCursor([a]);
    StartCursor([b]);
    var p := SlicePair(Slice(a, 0, a.length), Slice(b, 0, b.length));
    var lc, rc := Advance([a], Cursor(0, 0), a.length), Advance([b], Cursor(0, 0), b.length);
    assert lc == Cursor(1, 0) && rc == Cursor(1, 0);
    assert Pieces([a], [b], lc, rc) == Finished;
    assert Alignment([a], [b]) == Call(p, Finished);
    RunPlanStep(kernel, p, Finished);
    assert Calls<T>(Finished) == [];
  }

  /**
   * A zero-length plain `left` yields no kernel call and no output, so the
   * convenience form's requirement (exactly one output to unwrap) cannot be
   * met: `WrapDatumsLike` would read element 0 of an empty vector.
   */
  lemma EmptyPlainLeftHasNoOutput<T, U>(kernel: (Array<T>, Array<T>) -> Result<Datum<U>>, a: Array<T>, right: Datum<T>)
    requires a.length == 0 && ArrayLike(right) && Length(right) == 0
    ensures BinaryRun(kernel, ArrayDatum(a), right) == Run(OK, [])
    ensures !WrapsLike(ArrayDatum(a), BinaryRun(kernel, ArrayDatum(a), right).produced)
  {
    SingleChunk(a);
    StartCursor([a]);
    StartCursor(Operands(right));
    assert Alignment([a], Operands(right)) == Finished;
    assert Calls<T>(Finished) == [];
  }

  /**
   * A chunked `left` of lengths [2, 3] against a plain `right` of length 5:
   * two calls, on (chunk 0, right[0..2]) and (chunk 1, right[2..5]).
   */
  lemma ChunkedLeftPlainRight<T>(l0: Array<T>, l1: Array<T>, r: Array<T>)
    requires l0.length == 2 && l1.length == 3 && r.length == 5
    ensures TotalLength([l0, l1]) == TotalLength([r]) == 5
    ensures Alignment([l0, l1], [r])
         == Call(SlicePair(Slice(l0, 0, 2), Slice(r, 0, 2)), Call(SlicePair(Slice(l1, 0, 3), Slice(r, 2, 3)), Finished))
  {
    var ls, rs := [l0, l1], [r];
    SingleChunk(r);
    assert LengthFrom(ls, 1) == 3;
    StartCursor(ls);
    StartCursor(rs);
    var lc1, rc1 := Advance(ls, Cursor(0, 0), 2), Advance(rs, Cursor(0, 0), 2);
    assert lc1 == Cursor(1, 0) && rc1 == Cursor(0, 2);
    var lc2, rc2 := Advance(ls, lc1, 3), Advance(rs, rc1, 3);
    assert lc2 == Cursor(2, 0) && rc2 == Cursor(1, 0);
    assert Pieces(ls, rs, lc2, rc2) == Finished;
    assert Pieces(ls, rs, lc1, rc1) == Call(SlicePair(Slice(l1, 0, 3), Slice(r, 2, 3)), Finished);
  }

  /**
   * A plain `left` of length 4 against a chunked `right` of lengths [1, 3]:
   * two calls, on (left[0..1], chunk 0) and (left[1..4], chunk 1). The run
   * therefore produces two outputs when it succeeds, and the convenience
   * form's requirement of exactly one output for a plain `left` is not met.
   */
  lemma PlainLeftChunkedRight<T, U>(kernel: (Array<T>, Array<T>) -> Result<Datum<U>>, l: Array<T>, r0: Array<T>, r1: Array<T>)
    requires l.length == 4 && r0.length == 1 && r1.length == 3
    ensures TotalLength([l]) == TotalLength([r0, r1]) == 4
    ensures Alignment([l], [r0, r1])
         == Call(SlicePair(Slice(l, 0, 1), Slice(r0, 0, 1)), Call(SlicePair(Slice(l, 1, 3), Slice(r1, 0, 3)), Finished))
    ensures BinaryRun(kernel, ArrayDatum(l), ChunkedDatum([r0, r1])).status.OK? ==>
              !WrapsLike(ArrayDatum(l), BinaryRun(kernel, ArrayDatum(l), ChunkedDatum([r0, r1])).produced)
  {
    var ls, rs := [l], [r0, r1];
    SingleChunk(l);
    assert LengthFrom(rs, 1) == 3;
    StartCursor(ls);
    StartCursor(rs);
    var lc1, rc1 := Advance(ls, Cursor(0, 0), 1), Advance(rs, Cursor(0, 0), 1);
    assert lc1 == Cursor(0, 1) && rc1 == Cursor(1, 0);
    var lc2, rc2 := Advance(ls, lc1, 3), Advance(rs, rc1, 3);
    assert lc2 == Cursor(1, 0) && rc2 == Cursor(2, 0);
    assert Pieces(ls, rs, lc2, rc2) == Finished;
    assert Pieces(ls, rs, lc1, rc1) == Call(SlicePair(Slice(l, 1, 3), Slice(r1, 0, 3)), Finished);
    var plan := Alignment(ls, rs);
    assert Count(plan) == 2;
    ApplyCalls(Pairwise(kernel), Calls(plan));
  }

  // ------------------------------------------------------------------
  // The allocating unary kernel

  /** `BitUtil::BytesForBits`: the bytes of a bitmap holding `bits` bits. */
  function BytesForBits(bits: nat): nat {
    (bits + 7) / 8
  }

  /** `ZeroLastByte`: clears byte `size - 1` of a buffer and nothing else. */
  method ZeroLastByte(buffer: array<bv8>)
    requires buffer.Length >= 1
    modifies buffer
    ensures buffer[buffer.Length - 1] == 0
    ensures forall i :: 0 <= i < buffer.Length - 1 ==> buffer[i] == old(buffer[i])
  {
    buffer[buffer.Length - 1] := 0;
  }

  /** The bitmap allocated for an empty input has no byte `size - 1` for `ZeroLastByte` to clear. */
  lemma EmptyInputBitmapHasNoLastByte()
    ensures BytesForBits(0) == 0
  {
  }

  /** The `ArrayData` prepared for the delegate: its length and its buffer slots. */
  datatype OutputData = OutputData(length: nat, buffers: seq<Option<array<bv8>>>)

  /** A freshly allocated bitmap for `length` bits, with its last byte (if any) cleared. */
  method AllocateBitmap(length: nat) returns (buffer: array<bv8>)
    ensures fresh(buffer) && buffer.Length == BytesForBits(length)
    ensures buffer.Length > 0 ==> buffer[buffer.Length - 1] == 0
  {
    buffer := new bv8[BytesForBits(length)];
    if buffer.Length > 0 {
      ZeroLastByte(buffer);
    }
  }

  /**
   * `PrimitiveAllocatingUnaryKernel::Call`: builds exactly two buffer slots
   * for the output (validity, then values) of the input's length, and then
   * returns the delegate's status. The validity slot is left empty (to be
   * shared with the input) iff the input's offset is 0; otherwise it and the
   * value slot are fresh bitmaps with their last byte cleared. Unlike
   * `PrimitiveAllocatingUnaryKernel::Call`, clearing is skipped for a bitmap
   * of zero bytes.
   */
  method AllocatingKernelCall<T>(delegate: (Array<T>, OutputData) -> Status, input: Array<T>)
    returns (status: Status, out: OutputData)
    ensures out.length == input.length && |out.buffers| == 2
    ensures out.buffers[0].None? <==> input.offset == 0
    ensures out.buffers[1].Some?
    ensures forall k :: 0 <= k < 2 && out.buffers[k].Some? ==>
              && fresh(out.buffers[k].value)
              && out.buffers[k].value.Length == BytesForBits(input.length)
              && (input.length > 0 ==> out.buffers[k].value[out.buffers[k].value.Length - 1] == 0)
    ensures status == delegate(input, out)
  {
    var validity: Option<array<bv8>>;
    if input.offset == 0 {
      validity := None;
    } else {
      var buffer := AllocateBitmap(input.length);
      validity := Some(buffer);
    }
    var values := AllocateBitmap(input.length);
    out := OutputData(input.length, [validity, Some(values)]);
    status := delegate(input, out);
  }
}
