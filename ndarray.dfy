/** The tensor: flat `Data` and `Grad` buffers holding `BatchCount` batch
  * entries of `Length` elements each, read through a `Shape` whose product is
  * `Length`.  Batch entry `b` occupies `[b * Length, (b + 1) * Length)`, and
  * inside it an index tuple is laid out row-major, last axis fastest. */
module Tensors {
  import opened Shapes
  import opened Errors
  import opened Blocks
  import opened Reshaping

  class NdArray {
    var Data: array<real>
    var Grad: array<real>
    var Shape: seq<int>
    var Length: int
    var BatchCount: int
    /** How many pending stage backward calls still consume this tensor;
      * the backward traversal reads it as a node's `useCount`. */
    var UseCount: int
    /** Backward passes accumulated since the last optimizer step. */
    var TrainCount: int

    /** The buffers hold `BatchCount` batch entries of `Length` elements. */
    ghost predicate Valid()
      reads this
    {
      && Length >= 0 && BatchCount >= 0
      && Data.Length == Length * BatchCount
      && Grad.Length == Data.Length
      && Data != Grad
    }

    /** Valid, and `Length` is the product of a shape of non-negative sizes. */
    ghost predicate Shaped()
      reads this
    {
      Valid() && NonNegative(Shape) && Length == ShapeToArrayLength(Shape)
    }

    /** `new NdArray(shape...)`: one batch entry of zeros.  The shape's
      * product is the element count and is not negative here (`NewArray` is
      * the throwing call). */
    constructor (shape: seq<int>)
      requires ShapeToArrayLength(shape) >= 0
      ensures Shape == shape && Length == ShapeToArrayLength(shape) && BatchCount == 1
      ensures Data[..] == ZeroBuffer(Length) && Grad[..] == ZeroBuffer(Length)
      ensures TrainCount == 0 && UseCount == 0
      ensures fresh(Data) && fresh(Grad) && Data != Grad
      ensures Valid() && (NonNegative(shape) ==> Shaped())
    {
      var n := ShapeToArrayLength(shape);
      Data := new real[n](_ => 0.0);
      Shape := shape;
      Length := n;
      BatchCount := 1;
      Grad := new real[n](_ => 0.0);
      TrainCount := 0;
      UseCount := 0;
    }

    /** `new NdArray(data, shape, batchCount)`: a copy of `data`, zero gradient
      * sized from the shape.  Only the gradient's element count can be
      * negative (`NewFromData` is the throwing call). */
    constructor FromData(data: seq<real>, shape: seq<int>, batchCount: int)
      requires ShapeToArrayLength(shape) * batchCount >= 0
      ensures Shape == shape && Length == ShapeToArrayLength(shape) && BatchCount == batchCount
      ensures Data[..] == data && Grad[..] == ZeroBuffer(Length * batchCount)
      ensures TrainCount == 0 && UseCount == 0
      ensures fresh(Data) && fresh(Grad) && Data != Grad
      ensures Valid() <==> Length >= 0 && batchCount >= 0 && |data| == Length * batchCount
    {
      var n := ShapeToArrayLength(shape);
      Shape := shape;
      Length := n;
      BatchCount := batchCount;
      Data := new real[|data|](i requires 0 <= i < |data| => data[i]);
      Grad := new real[n * batchCount](_ => 0.0);
      TrainCount := 0;
      UseCount := 0;
    }

    /** `new NdArray(shape, batchCount)`: `batchCount` batch entries of zeros.
      * The element count is the product `Length * batchCount`, which is not
      * negative here (`NewAllocate` is the throwing call); a negative size
      * times zero entries, or the reverse, still allocates. */
    constructor Allocate(shape: seq<int>, batchCount: int)
      requires ShapeToArrayLength(shape) * batchCount >= 0
      ensures Shape == shape && Length == ShapeToArrayLength(shape) && BatchCount == batchCount
      ensures Data[..] == ZeroBuffer(Length * batchCount)
      ensures Grad[..] == ZeroBuffer(Length * batchCount)
      ensures TrainCount == 0 && UseCount == 0
      ensures fresh(Data) && fresh(Grad) && Data != Grad
      ensures Valid() <==> Length >= 0 && batchCount >= 0
      ensures NonNegative(shape) && batchCount >= 0 ==> Shaped()
    {
      var n := ShapeToArrayLength(shape);
      Shape := shape;
      Length := n;
      BatchCount := batchCount;
      Data := new real[n * batchCount](_ => 0.0);
      Grad := new real[n * batchCount](_ => 0.0);
      TrainCount := 0;
      UseCount := 0;
    }

    /** The object initializer used by `Clone`: every field given. */
    constructor Init(data: seq<real>, grad: seq<real>, shape: seq<int>, length: int,
                     batchCount: int, useCount: int, trainCount: int)
      ensures Data[..] == data && Grad[..] == grad && fresh(Data) && fresh(Grad) && Data != Grad
      ensures Shape == shape && Length == length && BatchCount == batchCount
      ensures UseCount == useCount && TrainCount == trainCount
    {
      Data := new real[|data|](i requires 0 <= i < |data| => data[i]);
      Grad := new real[|grad|](i requires 0 <= i < |grad| => grad[i]);
      Shape := shape;
      Length := length;
      BatchCount := batchCount;
      UseCount := useCount;
      TrainCount := trainCount;
    }

    /** Flat position of `indices` in batch entry `batchIndex`.  The strides
      * come from the leading `|indices|` axes of the shape, accumulated from
      * the last index towards the first. */
    method GetLocalIndex(batchIndex: int, indices: seq<int>) returns (index: int)
      requires Addressable(Shape, indices)
      ensures index == batchIndex * Length + LocalOffset(Shape, indices)
      ensures Shaped() && InBounds(Shape, indices) ==> 0 <= index - batchIndex * Length < Length
    {
      var n := |indices|;
      ghost var base := batchIndex * Length;
      ghost var fits := n <= |Shape|;
      assert n >= 2 ==> fits;
      var last := n - 1;
      index := batchIndex * Length + indices[last];
      var rankOffset := 1;
      if fits {
        StridePeel(Shape, indices, last, n);
        assert Shape[last + 1..n] == [] && indices[last + 1..] == [];
      }
      var i := 1;
      while i < n
        invariant 1 <= i <= n && last == n - i
        invariant fits ==> rankOffset == ShapeToArrayLength(Shape[last + 1..n])
        invariant fits ==> index == base + Offset(Shape[last..n], indices[last..])
        invariant !fits ==> index == base + indices[0]
      {
        StridePeel(Shape, indices, last, n);
        rankOffset := rankOffset * Shape[last];
        last := last - 1;
        StridePeel(Shape, indices, last, n);
        index := index + indices[last] * rankOffset;
        i := i + 1;
      }
      ghost var local := LocalOffset(Shape, indices);
      if fits {
        assert Shape[0..n] == Shape[..n] && indices[0..] == indices;
        assert local == Offset(Shape[..n], indices);
      } else {
        assert local == indices[0];
      }
      assert index == base + local;
    }

    /** Index tuple of a flat position: the batch part is dropped, then the
      * remainder is split by repeated remainder and quotient from the last
      * axis, with C#'s truncating `/` and `%`.  A zero `Length`, or a zero
      * size anywhere in the shape, divides by zero. */
    method GetDimensionsIndex(index: int) returns (r: Result<seq<int>>)
      ensures r.Ok? <==> Length != 0 && 0 !in Shape
      ensures r.Err? ==> r.error == DivideByZero
      ensures r.Ok? ==> |r.value| == |Shape|
      ensures Length > 0 && Positive(Shape) && index >= 0 ==>
                r.Ok? && r.value == Unflatten(Shape, index % Length)
      ensures Shaped() && Length > 0 && index >= 0 ==>
                r.Ok? && InBounds(Shape, r.value) && Offset(Shape, r.value) == index % Length
    {
      if Length == 0 {
        return Err(DivideByZero);
      }
      var batchCount := CsDiv(index, Length);
      var rest := index - Length * batchCount;
      ghost var good := Length > 0 && Positive(Shape) && index >= 0;
      ghost var r0 := if good then index % Length else 0;
      if good {
        DivSplit(index, Length);
        assert rest == r0;
      }
      var d := new int[|Shape|];
      var i := |Shape| - 1;
      assert Shape[..i + 1] == Shape;
      while i >= 0
        invariant -1 <= i < |Shape|
        invariant forall k :: i < k < |Shape| ==> Shape[k] != 0
        invariant good ==> && rest >= 0 && Positive(Shape[..i + 1])
                           && Unflatten(Shape, r0) == Unflatten(Shape[..i + 1], rest) + d[i + 1..]
      {
        if Shape[i] == 0 {
          return Err(DivideByZero);
        }
        ghost var tail := d[i + 1..];
        if good {
          UnflattenPeel(Shape, i, rest, tail, Unflatten(Shape, r0));
        }
        d[i] := CsRem(rest, Shape[i]);
        rest := CsDiv(rest, Shape[i]);
        assert d[i..] == [d[i]] + tail;
        i := i - 1;
      }
      r := Ok(d[..]);
      if good && Shaped() {
        OffsetOfUnflatten(Shape, r0);
      }
    }

    /** The indexer's getter. */
    method Get(batch: int, indices: seq<int>) returns (r: Result<real>)
      ensures r.Ok? <==> Addressable(Shape, indices)
                         && 0 <= batch * Length + LocalOffset(Shape, indices) < Data.Length
      ensures r.Ok? ==> r.value == Data[batch * Length + LocalOffset(Shape, indices)]
      ensures r.Err? ==> r.error == IndexOutOfRange
      ensures (Shaped() && 1 <= |indices| && InBounds(Shape, indices) && 0 <= batch < BatchCount)
                ==> r.Ok?
    {
      if !Addressable(Shape, indices) {
        return Err(IndexOutOfRange);
      }
      var index := GetLocalIndex(batch, indices);
      if Shaped() && InBounds(Shape, indices) && 0 <= batch < BatchCount {
        InSlab(batch, BatchCount, Length, index - batch * Length);
      }
      if index < 0 || index >= Data.Length {
        return Err(IndexOutOfRange);
      }
      r := Ok(Data[index]);
    }

    /** The indexer's setter: writes one element of `Data`, nothing else. */
    method Set(batch: int, indices: seq<int>, value: real) returns (r: Outcome)
      modifies Data
      ensures r.Pass? <==> Addressable(Shape, indices)
                           && 0 <= batch * Length + LocalOffset(Shape, indices) < Data.Length
      ensures r.Pass? ==> Data[..] == old(Data[..])[batch * Length + LocalOffset(Shape, indices) := value]
      ensures r.Fail? ==> r.error == IndexOutOfRange && Data[..] == old(Data[..])
      ensures (Shaped() && 1 <= |indices| && InBounds(Shape, indices) && 0 <= batch < BatchCount)
                ==> r.Pass?
    {
      if !Addressable(Shape, indices) {
        return Fail(IndexOutOfRange);
      }
      var index := GetLocalIndex(batch, indices);
      if Shaped() && InBounds(Shape, indices) && 0 <= batch < BatchCount {
        InSlab(batch, BatchCount, Length, index - batch * Length);
      }
      if index < 0 || index >= Data.Length {
        return Fail(IndexOutOfRange);
      }
      Data[index] := value;
      r := Pass;
    }

    /** Replaces the shape.  A -1 entry is inferred, and written back into the
      * caller's array; only `Shape` and that array change. */
    method Reshape(shape: array<int>) returns (res: Outcome)
      modifies this`Shape, shape
      ensures var r := ReshapeResult(Length, old(shape[..]));
              && (r.Ok? ==> res == Pass && Shape == r.value && shape[..] == r.value)
              && (r.Err? ==> res == Fail(r.error) && Shape == old(Shape) && shape[..] == old(shape[..]))
    {
      var s := shape[..];
      if -1 in s {
        var val := 0;
        var dimension := Length;
        var minusIndex := -1;
        var i := 0;
        while i < shape.Length
          invariant 0 <= i <= |s| && val == 0
          invariant forall k :: 0 <= k < i ==> !Rejects(Length, s, k) && s[k] != 0
          invariant dimension == InferredSize(Length, s[..i])
          invariant minusIndex == if -1 in s[..i] then IndexOf(s, -1) else -1
        {
          assert s[..i + 1] == s[..i] + [s[i]] && s[..i + 1][..i] == s[..i];
          if s[i] != -1 {
            if s[i] == 0 {
              assert Rejects(Length, s, i);
              assert FirstRejection(Length, s) == i;
              return Fail(DivideByZero);
            }
            val := val + CsRem(Length, s[i]);
            if val == 0 {
              dimension := CsDiv(dimension, s[i]);
            } else {
              assert Rejects(Length, s, i);
              assert FirstRejection(Length, s) == i;
              return Fail(ElementSpecification);
            }
          } else {
            if minusIndex != -1 {
              assert Rejects(Length, s, i);
              assert FirstRejection(Length, s) == i;
              return Fail(MultipleInferred);
            }
            minusIndex := i;
          }
          i := i + 1;
        }
        assert s[..i] == s;
        shape[minusIndex] := dimension;
      } else if Length != ShapeToArrayLength(s) {
        return Fail(SizeMismatch);
      }
      Shape := shape[..];
      res := Pass;
    }

    /** One more backward pass accumulated. */
    method CountUp()
      modifies this`TrainCount
      ensures TrainCount == old(TrainCount) + 1
    {
      TrainCount := TrainCount + 1;
    }

    /** Averages the accumulated gradient over the passes counted. */
    method Reduce() returns (reduced: bool)
      modifies Grad
      ensures reduced == (TrainCount > 0)
      ensures reduced ==> forall i :: 0 <= i < Grad.Length ==> Grad[i] == old(Grad[i]) / (TrainCount as real)
      ensures !reduced ==> Grad[..] == old(Grad[..])
    {
      if TrainCount > 0 {
        var i := 0;
        while i < Grad.Length
          invariant 0 <= i <= Grad.Length
          invariant forall k :: 0 <= k < i ==> Grad[k] == old(Grad[k]) / (TrainCount as real)
          invariant forall k :: i <= k < Grad.Length ==> Grad[k] == old(Grad[k])
        {
          Grad[i] := Grad[i] / (TrainCount as real);
          i := i + 1;
        }
        return true;
      }
      return false;
    }

    /** A fresh zero gradient as long as `Data`, and the pass counter reset. */
    method ClearGrad()
      modifies this`Grad, this`TrainCount
      ensures fresh(Grad) && Grad[..] == ZeroBuffer(Data.Length) && TrainCount == 0
      ensures old(Valid()) ==> Valid()
    {
      Grad := new real[Data.Length](_ => 0.0);
      TrainCount := 0;
    }

    /** A copy with its own buffers and the same shape and counters. */
    method Clone() returns (c: NdArray)
      ensures fresh(c) && fresh(c.Data) && fresh(c.Grad)
      ensures c.Data[..] == Data[..] && c.Grad[..] == Grad[..]
      ensures c.Shape == Shape && c.Length == Length && c.BatchCount == BatchCount
      ensures c.UseCount == UseCount && c.TrainCount == TrainCount
      ensures Valid() ==> c.Valid()
      ensures Shaped() ==> c.Shaped()
    {
      c := new NdArray.Init(Data[..], Grad[..], Shape, Length, BatchCount, UseCount, TrainCount);
    }

    /** Batch entry `i` as a tensor of its own: a copy of the slab, one batch
      * entry, a zero gradient.  The copy buffer of `Length` elements is
      * allocated first, then `Array.Copy` checks its offset and its range,
      * then the new tensor allocates its gradient from the shape. */
    method GetSingleArray(i: int) returns (r: Result<NdArray>)
      ensures r.Ok? <==> && 0 <= Length && 0 <= i * Length && i * Length + Length <= Data.Length
                         && ShapeToArrayLength(Shape) >= 0
      ensures r.Err? ==> r.error == (if Length < 0 then NegativeSize
                                     else if i * Length < 0 then ArgumentOutOfRange
                                     else if i * Length + Length > Data.Length then InvalidArgument
                                     else NegativeSize)
      ensures r.Ok? ==> && fresh(r.value) && fresh(r.value.Data) && fresh(r.value.Grad)
                        && r.value.Data[..] == Data[i * Length .. i * Length + Length]
                        && r.value.Length == ShapeToArrayLength(Shape)
                        && r.value.Grad[..] == ZeroBuffer(ShapeToArrayLength(Shape))
                        && r.value.Shape == Shape && r.value.BatchCount == 1
      ensures r.Ok? && Shaped() ==> r.value.Shaped()
    {
      if Length < 0 {
        return Err(NegativeSize);
      }
      if i * Length < 0 {
        return Err(ArgumentOutOfRange);
      }
      if i * Length + Length > Data.Length {
        return Err(InvalidArgument);
      }
      var data := Data[i * Length .. i * Length + Length];
      if ShapeToArrayLength(Shape) < 0 {
        return Err(NegativeSize);
      }
      var a := new NdArray.FromData(data, Shape, 1);
      r := Ok(a);
    }

    /** `t` is batch entry `b` as a tensor of its own: slab `b` of `Data`,
      * the same shape, one batch entry, a zero gradient. */
    ghost predicate HoldsEntry(t: NdArray, b: int)
      reads this, Data, t, t.Data, t.Grad
    {
      && 0 <= b && 0 <= Length && (b + 1) * Length <= Data.Length
      && t.Data[..] == Slab(Data[..], b, Length)
      && ShapeToArrayLength(Shape) >= 0 && t.Length == ShapeToArrayLength(Shape)
      && t.Grad[..] == ZeroBuffer(ShapeToArrayLength(Shape))
      && t.Shape == Shape && t.BatchCount == 1
    }

    /** Every batch entry as a tensor of its own, in batch order: an array of
      * `BatchCount` results (a negative count cannot be allocated), filled
      * by `GetSingleArray` until one fails. */
    method DivideArrays() returns (r: Result<seq<NdArray>>)
      ensures r.Ok? <==> || BatchCount == 0
                         || (&& BatchCount > 0 && 0 <= Length && BatchCount * Length <= Data.Length
                             && ShapeToArrayLength(Shape) >= 0)
      ensures r.Err? ==> r.error == (if || BatchCount < 0 || Length < 0
                                        || (Length <= Data.Length && ShapeToArrayLength(Shape) < 0)
                                     then NegativeSize else InvalidArgument)
      ensures r.Ok? ==> |r.value| == BatchCount
      ensures r.Ok? ==> forall b :: 0 <= b < BatchCount ==>
                fresh(r.value[b]) && fresh(r.value[b].Data) && fresh(r.value[b].Grad) && HoldsEntry(r.value[b], b)
    {
      if BatchCount < 0 {
        return Err(NegativeSize);
      }
      var result: seq<NdArray> := [];
      var i := 0;
      while i < BatchCount
        invariant 0 <= i <= BatchCount && |result| == i
        invariant i > 0 ==> 0 <= Length && ShapeToArrayLength(Shape) >= 0 && i * Length <= Data.Length
        invariant forall b :: 0 <= b < i ==>
                    fresh(result[b]) && fresh(result[b].Data) && fresh(result[b].Grad) && HoldsEntry(result[b], b)
      {
        var single := GetSingleArray(i);
        if single.Err? {
          EntryFailure(i, BatchCount, Length, Data.Length, ShapeToArrayLength(Shape));
          return Err(single.error);
        }
        SlabInside(i, i + 1, Length);
        assert HoldsEntry(single.value, i);
        result := result + [single.value];
        i := i + 1;
      }
      r := Ok(result);
    }
  }

  /** The arithmetic of a failed `DivideArrays`: when entry `i` cannot be
    * taken although the entries before it could, the whole buffer cannot be
    * divided, and the reason `GetSingleArray` gives for entry `i` is the one
    * read off the tensor's sizes. */
  lemma EntryFailure(i: int, n: int, len: int, dlen: int, p: int)
    requires 0 <= i < n
    requires i > 0 ==> 0 <= len && p >= 0 && i * len <= dlen
    requires !(0 <= len && 0 <= i * len && i * len + len <= dlen && p >= 0)
    ensures !(0 <= len && n * len <= dlen && p >= 0)
    ensures (if len < 0 then NegativeSize
             else if i * len < 0 then ArgumentOutOfRange
             else if i * len + len > dlen then InvalidArgument
             else NegativeSize)
            == (if n < 0 || len < 0 || (len <= dlen && p < 0) then NegativeSize else InvalidArgument)
  {
    if 0 <= len {
      SlabInside(i, n, len);
      if i > 0 {
        MulMono(1, i, len);
      }
    }
  }

  /** Stacks `arrays` as the batch entries of one tensor.  `shape` is the
    * dimensions of `arrays[0]`; each entry contributes its first
    * `|arrays[0]|` elements. */
  method FromArrays(arrays: seq<seq<real>>, shape: seq<int>) returns (r: Result<NdArray>)
    requires |arrays| > 0 ==> NonNegative(shape) && ShapeToArrayLength(shape) == |arrays[0]|
    ensures r.Ok? <==> |arrays| > 0 && forall i :: 0 <= i < |arrays| ==> |arrays[i]| >= |arrays[0]|
    ensures r.Err? ==> r.error == if |arrays| == 0 then IndexOutOfRange else InvalidArgument
    ensures r.Ok? ==> && fresh(r.value) && fresh(r.value.Data) && r.value.Shaped()
                      && r.value.Shape == shape && r.value.BatchCount == |arrays|
                      && r.value.Data[..] == Stack(arrays, |arrays[0]|)
                      && r.value.Grad[..] == ZeroBuffer(|arrays[0]| * |arrays|)
  {
    if |arrays| == 0 {
      return Err(IndexOutOfRange);
    }
    var length := |arrays[0]|;
    var result := new real[length * |arrays|](_ => 0.0);
    var i := 0;
    while i < |arrays|
      invariant 0 <= i <= |arrays|
      invariant forall k :: 0 <= k < i ==> |arrays[k]| >= length
      invariant result.Length == length * |arrays| && i * length <= result.Length
      invariant result[..i * length] == Stack(arrays[..i], length)
    {
      if |arrays[i]| < length {
        return Err(InvalidArgument);
      }
      CopyBlock(result, arrays, i, length);
      i := i + 1;
    }
    assert arrays[..i] == arrays && result[..i * length] == result[..];
    MulMono(0, length, |arrays|);
    var a := new NdArray.FromData(result[..], shape, |arrays|);
    r := Ok(a);
  }

  /** `Array.Copy` of entry `i`'s first `length` elements to slab `i`. */
  method CopyBlock(result: array<real>, arrays: seq<seq<real>>, i: int, length: int)
    requires 0 <= i < |arrays| && length >= 0 && |arrays[i]| >= length
    requires forall k :: 0 <= k < i ==> |arrays[k]| >= length
    requires result.Length == length * |arrays|
    requires result[..i * length] == Stack(arrays[..i], length)
    modifies result
    ensures forall k :: 0 <= k <= i ==> |arrays[k]| >= length
    ensures (i + 1) * length <= result.Length
    ensures result[..(i + 1) * length] == Stack(arrays[..i + 1], length)
  {
    SlabInside(i, |arrays|, length);
    ghost var base := i * length;
    assert (i + 1) * length == base + length;
    ghost var done := result[..base];
    var j := 0;
    while j < length
      invariant 0 <= j <= length
      invariant result[..base] == done
      invariant forall k :: 0 <= k < j ==> result[base + k] == arrays[i][k]
    {
      result[i * length + j] := arrays[i][j];
      j := j + 1;
    }
    assert arrays[..i + 1][..i] == arrays[..i];
    assert result[..base + length] == done + arrays[i][..length];
  }

  /** Stacking arrays of one shape with `FromArrays` and taking the result
    * apart with `DivideArrays` gives every array back, in order. */
  method DivideFromArrays(arrays: seq<seq<real>>, shape: seq<int>) returns (r: Result<seq<NdArray>>)
    requires |arrays| > 0 && NonNegative(shape)
    requires forall i :: 0 <= i < |arrays| ==> |arrays[i]| == ShapeToArrayLength(shape)
    ensures r.Ok? && |r.value| == |arrays|
    ensures forall i :: 0 <= i < |arrays| ==>
              r.value[i].Data[..] == arrays[i] && r.value[i].Shape == shape && r.value[i].BatchCount == 1
    ensures forall i :: 0 <= i < |arrays| ==>
              r.value[i].Length == |arrays[i]| && r.value[i].Grad[..] == ZeroBuffer(|arrays[i]|)
  {
    var stacked := FromArrays(arrays, shape);
    var t := stacked.value;
    var len := |arrays[0]|;
    r := t.DivideArrays();
    forall i | 0 <= i < |arrays|
      ensures r.value[i].Data[..] == arrays[i]
    {
      StackSlab(arrays, len, i);
      assert arrays[i][..len] == arrays[i];
    }
  }

  /** A rank-0 tensor, `new NdArray()`, holds one element, and the indexer
    * reaches it with a single index although the shape has no axis. */
  method ScalarRead() returns (r: Result<real>)
    ensures r == Ok(0.0)
  {
    var t := new NdArray([]);
    r := t.Get(0, [0]);
  }

  /** `new NdArray(shape...)` as its caller sees it: allocating a negative
    * number of elements throws. */
  method NewArray(shape: seq<int>) returns (r: Result<NdArray>)
    ensures r.Err? <==> ShapeToArrayLength(shape) < 0
    ensures r.Err? ==> r.error == NegativeSize
    ensures r.Ok? ==> && fresh(r.value) && fresh(r.value.Data) && fresh(r.value.Grad)
                      && r.value.Shape == shape && r.value.BatchCount == 1
                      && r.value.Length == ShapeToArrayLength(shape)
                      && r.value.Data[..] == ZeroBuffer(r.value.Length)
                      && r.value.Grad[..] == ZeroBuffer(r.value.Length)
                      && r.value.Valid() && (NonNegative(shape) ==> r.value.Shaped())
  {
    if ShapeToArrayLength(shape) < 0 {
      return Err(NegativeSize);
    }
    var t := new NdArray(shape);
    r := Ok(t);
  }

  /** `new NdArray(data, shape, batchCount)` as its caller sees it: the
    * gradient's element count `Length * batchCount` must not be negative. */
  method NewFromData(data: seq<real>, shape: seq<int>, batchCount: int) returns (r: Result<NdArray>)
    ensures r.Err? <==> ShapeToArrayLength(shape) * batchCount < 0
    ensures r.Err? ==> r.error == NegativeSize
    ensures r.Ok? ==> && fresh(r.value) && fresh(r.value.Data) && fresh(r.value.Grad)
                      && r.value.Shape == shape && r.value.BatchCount == batchCount
                      && r.value.Length == ShapeToArrayLength(shape)
                      && r.value.Data[..] == data
                      && r.value.Grad[..] == ZeroBuffer(r.value.Length * batchCount)
                      && (r.value.Valid() <==> r.value.Length >= 0 && batchCount >= 0
                                               && |data| == r.value.Length * batchCount)
  {
    if ShapeToArrayLength(shape) * batchCount < 0 {
      return Err(NegativeSize);
    }
    var t := new NdArray.FromData(data, shape, batchCount);
    r := Ok(t);
  }

  /** `new NdArray(shape, batchCount)` as its caller sees it: the element
    * count `Length * batchCount` must not be negative. */
  method NewAllocate(shape: seq<int>, batchCount: int) returns (r: Result<NdArray>)
    ensures r.Err? <==> ShapeToArrayLength(shape) * batchCount < 0
    ensures r.Err? ==> r.error == NegativeSize
    ensures r.Ok? ==> && fresh(r.value) && fresh(r.value.Data) && fresh(r.value.Grad)
                      && r.value.Shape == shape && r.value.BatchCount == batchCount
                      && r.value.Length == ShapeToArrayLength(shape)
                      && r.value.Data[..] == ZeroBuffer(r.value.Length * batchCount)
                      && r.value.Grad[..] == r.value.Data[..]
                      && (r.value.Valid() <==> r.value.Length >= 0 && batchCount >= 0)
                      && (NonNegative(shape) && batchCount >= 0 ==> r.value.Shaped())
  {
    if ShapeToArrayLength(shape) * batchCount < 0 {
      return Err(NegativeSize);
    }
    var t := new NdArray.Allocate(shape, batchCount);
    r := Ok(t);
  }

  /** `Convert`: a tensor of zeros of the given shape whose `Data` is then
    * replaced by the caller's array itself (shared, not copied).  The zeros
    * are allocated first, so a negative element count throws. */
  method Convert(data: array<real>, shape: seq<int>, batchCount: int) returns (r: Result<NdArray>)
    ensures r.Err? <==> ShapeToArrayLength(shape) * batchCount < 0
    ensures r.Err? ==> r.error == NegativeSize
    ensures r.Ok? ==> && fresh(r.value) && fresh(r.value.Grad) && r.value.Data == data
                      && r.value.Shape == shape && r.value.BatchCount == batchCount
                      && r.value.Length == ShapeToArrayLength(shape)
                      && r.value.Grad[..] == ZeroBuffer(r.value.Length * batchCount)
                      && (r.value.Valid() <==> r.value.Length >= 0 && batchCount >= 0
                                               && data.Length == r.value.Length * batchCount)
  {
    if ShapeToArrayLength(shape) * batchCount < 0 {
      return Err(NegativeSize);
    }
    var t := new NdArray.Allocate(shape, batchCount);
    t.Data := data;
    r := Ok(t);
  }

  /** A zero tensor with the shape and batch count of `baseArray`, sized
    * from the shape (not from `baseArray.Length`). */
  method ZerosLike(baseArray: NdArray) returns (r: Result<NdArray>)
    ensures r.Err? <==> ShapeToArrayLength(baseArray.Shape) * baseArray.BatchCount < 0
    ensures r.Err? ==> r.error == NegativeSize
    ensures r.Ok? ==> && fresh(r.value) && fresh(r.value.Data) && fresh(r.value.Grad)
                      && r.value.Shape == baseArray.Shape && r.value.BatchCount == baseArray.BatchCount
                      && r.value.Length == ShapeToArrayLength(baseArray.Shape)
                      && r.value.Data[..] == ZeroBuffer(r.value.Length * r.value.BatchCount)
                      && r.value.Grad[..] == r.value.Data[..]
    ensures baseArray.Shaped() ==> r.Ok? && r.value.Shaped() && r.value.Length == baseArray.Length
  {
    if baseArray.Shaped() {
      MulMono(0, baseArray.Length, baseArray.BatchCount);
    }
    if ShapeToArrayLength(baseArray.Shape) * baseArray.BatchCount < 0 {
      return Err(NegativeSize);
    }
    var t := new NdArray.Allocate(baseArray.Shape, baseArray.BatchCount);
    r := Ok(t);
  }
}
