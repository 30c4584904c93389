/** Summation of a tensor over one axis, batch entry by batch entry.  The
  * loop visits the flat offsets of a batch entry in order and, for each, adds
  * the element of every batch entry to the reduced position of its index
  * tuple. */
module Summation {
  import opened Shapes
  import opened Errors
  import opened Blocks
  import opened Reductions
  import opened Tensors

  /** The result shape of a one-axis sum: `shape` without `axis`, copied
    * entry by entry into an array one shorter than `shape`.  An empty shape
    * cannot have an array one shorter; an axis outside the shape overruns the
    * copy. */
  method RemoveAxis(shape: seq<int>, axis: int) returns (r: Result<seq<int>>)
    ensures |shape| == 0 ==> r == Err(NegativeSize)
    ensures |shape| > 0 ==> (r.Ok? <==> 0 <= axis < |shape|)
    ensures |shape| > 0 && r.Err? ==> r.error == IndexOutOfRange
    ensures r.Ok? ==> 0 <= axis < |shape| && r.value == RemoveAt(shape, axis)
  {
    if |shape| == 0 {
      return Err(NegativeSize);
    }
    var res := new int[|shape| - 1];
    var i, j := 0, 0;
    while i < |shape|
      invariant 0 <= i <= |shape| && j <= res.Length
      invariant j == if 0 <= axis < i then i - 1 else i
      invariant forall k :: 0 <= k < j ==> res[k] == shape[if 0 <= axis <= k then k + 1 else k]
    {
      if i != axis {
        if j >= res.Length {
          return Err(IndexOutOfRange);
        }
        res[j] := shape[i];
        j := j + 1;
      }
      i := i + 1;
    }
    r := Ok(res[..]);
  }

  /** Batch entry `b` of `dst` (entries of `rlen` elements) holds what the
    * scatter of batch entry `b` of `src` (entries of `len` elements) to the
    * targets `tg` has built after `bound` steps. */
  ghost predicate EntrySummed(dst: seq<real>, src: seq<real>, tg: seq<int>, len: nat, rlen: nat, b: int, bound: int)
    requires |tg| == len && Aimed(tg, rlen) && 0 <= b
  {
    && 0 <= bound <= len && (b + 1) * len <= |src| && (b + 1) * rlen <= |dst|
    && Slab(dst, b, rlen) == Scatter(Slab(src, b, len), tg, rlen, bound)
  }

  /** `src` holds `n` batch entries of `len` elements and `dst` holds `n`
    * entries of `rlen`; entries below `bb` have been scattered over the flat
    * offsets below `hi`, the others over those below `lo`. */
  ghost predicate Accumulated(dst: seq<real>, src: seq<real>, tg: seq<int>, n: nat, len: nat, rlen: nat,
                              lo: int, hi: int, bb: int)
  {
    && |tg| == len && Aimed(tg, rlen)
    && |src| == len * n && |dst| == rlen * n
    && (forall b :: 0 <= b < bb && b < n ==> EntrySummed(dst, src, tg, len, rlen, b, hi))
    && (forall b :: bb <= b < n && 0 <= b ==> EntrySummed(dst, src, tg, len, rlen, b, lo))
  }

  /** Freshly allocated zeros: nothing scattered yet. */
  lemma AccumulatedStart(dst: seq<real>, src: seq<real>, tg: seq<int>, n: nat, len: nat, rlen: nat)
    requires |tg| == len && Aimed(tg, rlen)
    requires |src| == len * n && |dst| == rlen * n && dst == ZeroBuffer(|dst|)
    ensures Accumulated(dst, src, tg, n, len, rlen, 0, 1, 0)
  {
    forall b | 0 <= b < n
      ensures EntrySummed(dst, src, tg, len, rlen, b, 0)
    {
      SlabInside(b, n, len);
      SlabInside(b, n, rlen);
      assert Slab(dst, b, rlen) == ZeroBuffer(rlen);
    }
  }

  /** A write inside batch entry `bb` leaves what entry `b` holds. */
  lemma EntryUntouched(dst: seq<real>, src: seq<real>, tg: seq<int>, n: nat, len: nat, rlen: nat,
                       b: int, bound: int, bb: int, o: int, t: int, v: real)
    requires |tg| == len && Aimed(tg, rlen) && |dst| == rlen * n
    requires 0 <= b < n && b != bb && 0 <= bb < n && 0 <= o < rlen && t == bb * rlen + o
    requires EntrySummed(dst, src, tg, len, rlen, b, bound)
    ensures 0 <= t < |dst|
    ensures EntrySummed(dst[t := v], src, tg, len, rlen, b, bound)
  {
    InSlab(bb, n, rlen, o);
    SlabInside(bb, n, rlen);
    SlabUpdateOther(dst, rlen, bb, o, t, v, b);
  }

  /** Adding element `i` of batch entry `bb` (flat position `k` of `src`)
    * at its target (flat position `t` of `dst`) moves that entry past
    * offset `i`. */
  lemma EntryAdvance(dst: seq<real>, src: seq<real>, tg: seq<int>, n: nat, len: nat, rlen: nat,
                     i: int, bb: int, t: int, k: int)
    requires |tg| == len && Aimed(tg, rlen) && |src| == len * n && |dst| == rlen * n
    requires 0 <= i < len && 0 <= bb < n && t == bb * rlen + tg[i] && k == bb * len + i
    requires EntrySummed(dst, src, tg, len, rlen, bb, i)
    ensures 0 <= k < |src| && 0 <= t < |dst|
    ensures EntrySummed(dst[t := dst[t] + src[k]], src, tg, len, rlen, bb, i + 1)
  {
    SlabAdd(dst, src, n, len, rlen, bb, i, tg[i], t, k);
  }

  /** One pass of the inner loop: element `i` of batch entry `bb` added at
    * its target. */
  lemma AccumulatedStep(dst: seq<real>, src: seq<real>, tg: seq<int>, n: nat, len: nat, rlen: nat,
                        i: int, bb: int, t: int, k: int)
    requires Accumulated(dst, src, tg, n, len, rlen, i, i + 1, bb)
    requires 0 <= i < len && 0 <= bb < n && t == bb * rlen + tg[i] && k == bb * len + i
    ensures 0 <= k < |src| && 0 <= t < |dst|
    ensures Accumulated(dst[t := dst[t] + src[k]], src, tg, n, len, rlen, i, i + 1, bb + 1)
  {
    EntryAdvance(dst, src, tg, n, len, rlen, i, bb, t, k);
    var v := dst[t] + src[k];
    var next := i + 1;
    var dst' := dst[t := v];
    forall b | 0 <= b < bb
      ensures EntrySummed(dst', src, tg, len, rlen, b, next)
    {
      EntryUntouched(dst, src, tg, n, len, rlen, b, next, bb, tg[i], t, v);
    }
    forall b | bb < b < n
      ensures EntrySummed(dst', src, tg, len, rlen, b, i)
    {
      EntryUntouched(dst, src, tg, n, len, rlen, b, i, bb, tg[i], t, v);
    }
  }

  /** Every batch entry past offset `i` is the start of offset `i + 1`. */
  lemma AccumulatedNext(dst: seq<real>, src: seq<real>, tg: seq<int>, n: nat, len: nat, rlen: nat, i: int)
    requires Accumulated(dst, src, tg, n, len, rlen, i, i + 1, n)
    ensures Accumulated(dst, src, tg, n, len, rlen, i + 1, i + 2, 0)
  {
  }

  /** Batch entry `b` of `dst` is batch entry `b` of `src` summed over
    * `axis`. */
  ghost predicate EntryIsSum(dst: seq<real>, src: seq<real>, shape: seq<int>, axis: int, b: int)
    requires 0 <= axis < |shape| && NonNegative(shape) && 0 <= b
  {
    var len, rlen := ShapeToArrayLength(shape), ShapeToArrayLength(RemoveAt(shape, axis));
    && (b + 1) * len <= |src| && 0 <= rlen && (b + 1) * rlen <= |dst|
    && Slab(dst, b, rlen) == SumBlock(Slab(src, b, len), shape, axis)
  }

  /** Every one of the `n` batch entries of `dst` is the matching entry of
    * `src` summed over `axis`. */
  ghost predicate Summed(dst: seq<real>, src: seq<real>, shape: seq<int>, axis: int, n: int)
    requires 0 <= axis < |shape| && NonNegative(shape)
  {
    forall b :: 0 <= b < n ==> EntryIsSum(dst, src, shape, axis, b)
  }

  /** Every offset scattered to its reduced position: each batch entry of
    * `dst` is the sum of the matching entry of `src`. */
  lemma AccumulatedDone(dst: seq<real>, src: seq<real>, tg: seq<int>, shape: seq<int>, axis: int, n: nat, hi: int)
    requires 0 <= axis < |shape| && NonNegative(shape) && TargetsOf(tg, shape, axis)
    requires Accumulated(dst, src, tg, n, ShapeToArrayLength(shape),
                         ShapeToArrayLength(RemoveAt(shape, axis)), ShapeToArrayLength(shape), hi, 0)
    ensures Summed(dst, src, shape, axis, n)
  {
    var len, rlen := ShapeToArrayLength(shape), ShapeToArrayLength(RemoveAt(shape, axis));
    TargetsOfIs(tg, shape, axis);
    forall b | 0 <= b < n
      ensures EntryIsSum(dst, src, shape, axis, b)
    {
      assert EntrySummed(dst, src, tg, len, rlen, b, len);
      ScatterAll(Slab(src, b, len), shape, axis);
    }
  }

  /** The reduced position the loop computes for flat offset `i` (its index
    * tuple without `axis`, flattened in the reduced shape) is its target. */
  lemma TargetOfTuple(shape: seq<int>, axis: int, i: int, dims: seq<int>, ridx: seq<int>,
                      rs: seq<int>, rlen: int, local: int)
    requires 0 <= axis < |shape| && NonNegative(shape) && 0 <= i < ShapeToArrayLength(shape)
    requires Positive(shape) && dims == Unflatten(shape, i % ShapeToArrayLength(shape))
    requires ridx == RemoveAt(dims, axis) && rs == RemoveAt(shape, axis)
    requires local == 0 * rlen + Offset(rs[..|ridx|], ridx)
    ensures local == Target(shape, axis, i)
  {
    var len := ShapeToArrayLength(shape);
    DivModUnique(0, len, i);
    assert i % len == i;
    assert dims == Unflatten(shape, i);
    assert rs[..|ridx|] == rs;
    assert local == Offset(rs, ridx);
  }

  /** The body of the outer summing loop up to the inner loop: the index
    * tuple of flat offset `i`, without `axis`, flattened in the result's
    * shape.  A rank-one input leaves an empty tuple, whose last entry is read
    * at position -1. */
  method ReducedIndex(a: NdArray, result: NdArray, axis: int, i: int, ghost tg: seq<int>) returns (r: Option<int>)
    requires a.Shaped() && 0 <= axis < |a.Shape| && 0 <= i < a.Length
    requires result.Shape == RemoveAt(a.Shape, axis) && TargetsOf(tg, a.Shape, axis)
    ensures r.Some? <==> |a.Shape| > 1
    ensures r.Some? ==> r.value == tg[i]
  {
    var found := a.GetDimensionsIndex(i);
    var dims := found.value;
    var index := RemoveAt(dims, axis);
    if |index| == 0 {
      return None;
    }
    var localIndex := result.GetLocalIndex(0, index);
    TargetOfTuple(a.Shape, axis, i, dims, index, result.Shape, result.Length, localIndex);
    TargetsOfAt(tg, a.Shape, axis, i);
    r := Some(localIndex);
  }

  /** The two nested loops of `Sum(a, axis)`: for every flat offset of a
    * batch entry, the element of every batch entry is added at its reduced
    * position in `result`.  They stop at the first offset whose reduced index
    * tuple is empty, which happens for a rank-one input with elements. */
  method AddAlongAxis(a: NdArray, result: NdArray, axis: int, ghost tg: seq<int>) returns (ok: bool)
    requires a.Shaped() && result.Shaped() && 0 <= axis < |a.Shape|
    requires result.Shape == RemoveAt(a.Shape, axis) && result.BatchCount == a.BatchCount
    requires a.Data != result.Data && a.Data != result.Grad && a.Grad != result.Data && a.Grad != result.Grad
    requires TargetsOf(tg, a.Shape, axis)
    requires Accumulated(result.Data[..], a.Data[..], tg, a.BatchCount, a.Length, result.Length, 0, 1, 0)
    requires Accumulated(result.Grad[..], a.Grad[..], tg, a.BatchCount, a.Length, result.Length, 0, 1, 0)
    modifies result.Data, result.Grad
    ensures ok <==> |a.Shape| > 1 || a.Length == 0
    ensures ok ==> Accumulated(result.Data[..], a.Data[..], tg, a.BatchCount, a.Length, result.Length,
                               a.Length, a.Length + 1, 0)
    ensures ok ==> Accumulated(result.Grad[..], a.Grad[..], tg, a.BatchCount, a.Length, result.Length,
                               a.Length, a.Length + 1, 0)
  {
    ghost var n, len, rlen := a.BatchCount, a.Length, result.Length;
    var i := 0;
    while i < a.Length
      invariant 0 <= i <= a.Length && (i > 0 ==> |a.Shape| > 1)
      invariant Accumulated(result.Data[..], a.Data[..], tg, n, len, rlen, i, i + 1, 0)
      invariant Accumulated(result.Grad[..], a.Grad[..], tg, n, len, rlen, i, i + 1, 0)
    {
      var localIndex := ReducedIndex(a, result, axis, i, tg);
      if localIndex.None? {
        return false;
      }
      var batchCount := 0;
      while batchCount < a.BatchCount
        invariant 0 <= batchCount <= a.BatchCount
        invariant Accumulated(result.Data[..], a.Data[..], tg, n, len, rlen, i, i + 1, batchCount)
        invariant Accumulated(result.Grad[..], a.Grad[..], tg, n, len, rlen, i, i + 1, batchCount)
      {
        var t := batchCount * result.Length + localIndex.value;
        var k := batchCount * a.Length + i;
        AccumulatedStep(result.Data[..], a.Data[..], tg, n, len, rlen, i, batchCount, t, k);
        AccumulatedStep(result.Grad[..], a.Grad[..], tg, n, len, rlen, i, batchCount, t, k);
        result.Data[t] := result.Data[t] + a.Data[k];
        result.Grad[t] := result.Grad[t] + a.Grad[k];
        batchCount := batchCount + 1;
      }
      AccumulatedNext(result.Data[..], a.Data[..], tg, n, len, rlen, i);
      AccumulatedNext(result.Grad[..], a.Grad[..], tg, n, len, rlen, i);
      i := i + 1;
    }
    return true;
  }

  /** `Sum(a, axis)`: a fresh tensor of the shape without `axis` and the same
    * batch count whose data and gradient are those of `a` summed over
    * `axis`, batch entry by batch entry.  An empty shape has no shorter
    * shape; an axis outside the shape overruns the result shape; a rank-one
    * input with elements reads its reduced index tuple at position -1. */
  method SumAxis(a: NdArray, axis: int) returns (r: Result<NdArray>)
    requires a.Shaped()
    ensures r.Ok? <==> 0 <= axis < |a.Shape| && (|a.Shape| > 1 || a.Length == 0)
    ensures r.Err? ==> r.error == if |a.Shape| == 0 then NegativeSize else IndexOutOfRange
    ensures r.Ok? ==> && 0 <= axis < |a.Shape|
                      && fresh(r.value) && fresh(r.value.Data) && fresh(r.value.Grad)
                      && r.value.Shaped() && r.value.Shape == RemoveAt(a.Shape, axis)
                      && r.value.BatchCount == a.BatchCount
                      && r.value.UseCount == 0 && r.value.TrainCount == 0
                      && Summed(r.value.Data[..], a.Data[..], a.Shape, axis, a.BatchCount)
                      && Summed(r.value.Grad[..], a.Grad[..], a.Shape, axis, a.BatchCount)
  {
    var resultShape := RemoveAxis(a.Shape, axis);
    if resultShape.Err? {
      return Err(resultShape.error);
    }
    RemoveKeepsSign(a.Shape, axis);
    MulMono(0, ShapeToArrayLength(resultShape.value), a.BatchCount);
    var result := new NdArray.Allocate(resultShape.value, a.BatchCount);
    ghost var tg := TargetsFor(a.Shape, axis);
    AccumulatedStart(result.Data[..], a.Data[..], tg, a.BatchCount, a.Length, result.Length);
    AccumulatedStart(result.Grad[..], a.Grad[..], tg, a.BatchCount, a.Length, result.Length);
    var ok := AddAlongAxis(a, result, axis, tg);
    if !ok {
      return Err(IndexOutOfRange);
    }
    AccumulatedDone(result.Data[..], a.Data[..], tg, a.Shape, axis, a.BatchCount, a.Length + 1);
    AccumulatedDone(result.Grad[..], a.Grad[..], tg, a.Shape, axis, a.BatchCount, a.Length + 1);
    r := Ok(result);
  }
}
