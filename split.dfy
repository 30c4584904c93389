/** `Split`: a tensor cut into consecutive pieces along one axis at a list of
  * positions.  Every piece keeps the other axes and the batch count; batch
  * entry `b` of a piece is the piece of batch entry `b` of the input. */
module Splitting {
  import opened Errors
  import opened Shapes
  import opened Blocks
  import opened Reductions
  import opened Pieces
  import opened Tensors

  /** Where piece `i` starts along the axis: 0 for the first, the cut
    * position before it for the others. */
  function StartAt(indices: seq<int>, i: int): int
    requires 0 <= i <= |indices|
  {
    if i == 0 then 0 else indices[i - 1]
  }

  /** Where piece `i` ends along an axis of size `extent`: the cut position
    * after it, or the end of the axis for the last. */
  function EndAt(indices: seq<int>, extent: int, i: int): int
    requires 0 <= i <= |indices|
  {
    if i < |indices| then indices[i] else extent
  }

  /** Where each piece starts along the axis: 0, then every cut position. */
  function Starts(indices: seq<int>): (r: seq<int>)
    ensures |r| == |indices| + 1
    ensures forall i :: 0 <= i < |r| ==> r[i] == StartAt(indices, i)
  {
    seq(|indices| + 1, i requires 0 <= i < |indices| + 1 => StartAt(indices, i))
  }

  /** The size of each piece along an axis of size `extent`. */
  function Sizes(indices: seq<int>, extent: int): (r: seq<int>)
    ensures |r| == |indices| + 1
    ensures forall i :: 0 <= i < |r| ==> r[i] == EndAt(indices, extent, i) - StartAt(indices, i)
  {
    seq(|indices| + 1, i requires 0 <= i < |indices| + 1 => EndAt(indices, extent, i) - StartAt(indices, i))
  }

  /** The sum of a list of integers. */
  function IntTotal(s: seq<int>): int
  {
    if |s| == 0 then 0 else IntTotal(s[..|s| - 1]) + s[|s| - 1]
  }

  /** The cut positions are in order, from the start of the axis to its end. */
  ghost predicate Ascending(indices: seq<int>, extent: int)
  {
    && |indices| > 0 && 0 <= indices[0] && indices[|indices| - 1] <= extent
    && forall p, q :: 0 <= p < q < |indices| ==> indices[p] <= indices[q]
  }

  /** The sizes of the first `m` pieces add up to where the last of them
    * ends. */
  lemma {:induction false} SizesPrefix(indices: seq<int>, extent: int, m: int)
    requires 1 <= m <= |indices| + 1
    ensures IntTotal(Sizes(indices, extent)[..m]) == EndAt(indices, extent, m - 1)
  {
    var sz := Sizes(indices, extent);
    if m > 1 {
      SizesPrefix(indices, extent, m - 1);
      assert sz[..m][..m - 1] == sz[..m - 1];
    } else {
      assert sz[..1][..0] == [];
    }
  }

  /** The pieces cover the axis: their sizes add up to its size. */
  lemma SizesTotal(indices: seq<int>, extent: int)
    ensures IntTotal(Sizes(indices, extent)) == extent
  {
    var sz := Sizes(indices, extent);
    SizesPrefix(indices, extent, |sz|);
    assert sz[..|sz|] == sz;
  }

  /** With no negative piece the starts of the pieces climb. */
  lemma {:induction false} StartsClimb(indices: seq<int>, extent: int, p: int, q: int)
    requires forall i :: 0 <= i < |indices| + 1 ==> Sizes(indices, extent)[i] >= 0
    requires 0 <= p <= q <= |indices|
    ensures Starts(indices)[p] <= Starts(indices)[q]
    decreases q - p
  {
    if p < q {
      StartsClimb(indices, extent, p + 1, q);
      assert Sizes(indices, extent)[p] >= 0;
    }
  }

  /** No piece has a negative size exactly when the cut positions ascend
    * within the axis. */
  lemma SizesAscending(indices: seq<int>, extent: int)
    requires |indices| > 0
    ensures (forall i :: 0 <= i < |indices| + 1 ==> Sizes(indices, extent)[i] >= 0) <==> Ascending(indices, extent)
  {
    var n := |indices|;
    var sz := Sizes(indices, extent);
    if forall i :: 0 <= i < n + 1 ==> sz[i] >= 0 {
      forall p, q | 0 <= p < q < n
        ensures indices[p] <= indices[q]
      {
        StartsClimb(indices, extent, p + 1, q + 1);
      }
      StartsClimb(indices, extent, 0, 1);
      assert sz[n] >= 0;
    }
    if Ascending(indices, extent) {
      forall i | 0 <= i < n + 1
        ensures sz[i] >= 0
      {
        if 0 < i < n {
          assert indices[i - 1] <= indices[i];
        }
      }
    }
  }

  /** When the cut positions ascend every piece lies inside the axis. */
  lemma AscendingCuttable(shape: seq<int>, axis: int, indices: seq<int>, i: int)
    requires 0 <= axis < |shape| && NonNegative(shape) && Ascending(indices, shape[axis])
    requires 0 <= i < |indices| + 1
    ensures Cuttable(shape, axis, Starts(indices)[i], Sizes(indices, shape[axis])[i])
  {
    SizesAscending(indices, shape[axis]);
    var n := |indices|;
    if 0 < i {
      assert 0 <= indices[0] <= indices[i - 1];
    }
    if i < n {
      assert indices[i] <= indices[n - 1];
    }
  }

  /** Every piece has a size product that is not negative, so it can be
    * allocated however many batch entries there are. */
  ghost predicate Allocatable(shape: seq<int>, axis: int, sizes: seq<int>)
    requires 0 <= axis < |shape|
  {
    forall i :: 0 <= i < |sizes| ==> ShapeToArrayLength(shape[axis := sizes[i]]) >= 0
  }

  /** One more allocatable size extends an allocatable prefix. */
  lemma AllocatableGrows(shape: seq<int>, axis: int, sizes: seq<int>, i: int)
    requires 0 <= axis < |shape| && 0 <= i < |sizes| && Allocatable(shape, axis, sizes[..i])
    requires ShapeToArrayLength(shape[axis := sizes[i]]) >= 0
    ensures Allocatable(shape, axis, sizes[..i + 1])
  {
    assert forall k :: 0 <= k < i ==> sizes[..i + 1][k] == sizes[..i][k];
  }

  /** When the pieces can be allocated although one has a negative size,
    * another axis has size zero and every piece is empty. */
  lemma NegativeSizeEmpty(shape: seq<int>, axis: int, sizes: seq<int>, m: int, i: int)
    requires 0 <= axis < |shape| && NonNegative(shape) && Allocatable(shape, axis, sizes)
    requires 0 <= m < |sizes| && sizes[m] < 0 && 0 <= i < |sizes|
    ensures ShapeToArrayLength(shape[axis := sizes[i]]) == 0
  {
    var rest := ShapeToArrayLength(RemoveAt(shape, axis));
    RemoveKeepsSign(shape, axis);
    ProductAt(shape, axis, sizes[m]);
    ProductAt(shape, axis, sizes[i]);
    NegativeFactor(sizes[m], rest);
  }

  /** A product of a negative number and a non-negative one that is not
    * negative has a zero second factor. */
  lemma NegativeFactor(x: int, y: int)
    requires x < 0 && y >= 0 && x * y >= 0
    ensures y == 0
  {
    if y > 0 {
      MulMono(1, -x, y);
    }
  }

  /** Batch entry `b` of `dst` is the piece of batch entry `b` of `src` of
    * `size` positions from `lo` along `axis`. */
  ghost predicate EntryCut(dst: seq<real>, src: seq<real>, shape: seq<int>, axis: int, lo: int, size: int, b: int)
  {
    && Cuttable(shape, axis, lo, size) && 0 <= b
    && (b + 1) * ShapeToArrayLength(shape) <= |src|
    && (b + 1) * ShapeToArrayLength(shape[axis := size]) <= |dst|
    && Slab(dst, b, ShapeToArrayLength(shape[axis := size]))
       == Piece(Slab(src, b, ShapeToArrayLength(shape)), shape, axis, lo, size)
  }

  /** The first `n` batch entries of `dst` are pieces of those of `src`. */
  ghost predicate Cut(dst: seq<real>, src: seq<real>, shape: seq<int>, axis: int, lo: int, size: int, n: int)
  {
    forall b :: 0 <= b < n ==> EntryCut(dst, src, shape, axis, lo, size, b)
  }

  /** `p` is the piece of `a` of `size` positions from `lo` along `axis`:
    * the shape of `a` with that size, the batch count of `a`, fresh counters,
    * and, when the piece lies inside the axis, every batch entry of its data
    * and gradient the piece of that of `a`.  A piece outside the axis is
    * empty: its size is zero, or there are no batch entries (and then its
    * size may even be negative). */
  ghost predicate IsPiece(p: NdArray, a: NdArray, axis: int, lo: int, size: int)
    reads p, p.Data, p.Grad, a, a.Data, a.Grad
  {
    && p.Data.Length == p.Length * p.BatchCount && p.Grad.Length == p.Data.Length && p.Data != p.Grad
    && 0 <= axis < |a.Shape|
    && p.Shape == a.Shape[axis := size] && p.Length == ShapeToArrayLength(p.Shape)
    && p.BatchCount == a.BatchCount && p.UseCount == 0 && p.TrainCount == 0
    && (p.Length >= 0 || p.BatchCount == 0)
    && (Cuttable(a.Shape, axis, lo, size) || p.Length == 0 || p.BatchCount == 0)
    && (Cuttable(a.Shape, axis, lo, size) ==>
          && p.Shaped()
          && Cut(p.Data[..], a.Data[..], a.Shape, axis, lo, size, a.BatchCount)
          && Cut(p.Grad[..], a.Grad[..], a.Shape, axis, lo, size, a.BatchCount))
  }

  /** `want` holds, at every tuple of the piece's shape, the element of the
    * batch entry of `src` that starts at `base` at that tuple moved to where
    * the piece starts. */
  ghost predicate Spread(want: seq<real>, src: seq<real>, shape: seq<int>, axis: int, lo: int, size: int, base: int)
  {
    && Cuttable(shape, axis, lo, size) && 0 <= base && base + ShapeToArrayLength(shape) <= |src|
    && |want| == ShapeToArrayLength(shape[axis := size])
    && forall u :: InBounds(shape[axis := size], u) ==>
         && InBounds(shape, Shift(u, axis, lo))
         && want[Offset(shape[axis := size], u)] == src[base + Offset(shape, Shift(u, axis, lo))]
  }

  /** Reading one element of a spread block. */
  lemma SpreadRead(want: seq<real>, src: seq<real>, shape: seq<int>, axis: int, lo: int, size: int, base: int,
                   u: seq<int>, j: int, k: int)
    requires Spread(want, src, shape, axis, lo, size, base)
    requires InBounds(shape[axis := size], u) && j == Offset(shape[axis := size], u)
    requires k == base + Offset(shape, Shift(u, axis, lo))
    ensures 0 <= j < |want| && 0 <= k < |src| && want[j] == src[k]
  {
  }

  /** A block laid out tuple by tuple like a piece of an entry of `src`
    * that starts at `base` is spread that way. */
  lemma SpreadOfTuples(p: seq<real>, blk: seq<real>, src: seq<real>, shape: seq<int>, axis: int, lo: int, size: int,
                       base: int)
    requires Cuttable(shape, axis, lo, size) && |p| == ShapeToArrayLength(shape[axis := size])
    requires |blk| == ShapeToArrayLength(shape) && 0 <= base && base + |blk| <= |src|
    requires forall x :: 0 <= x < |blk| ==> blk[x] == src[base + x]
    requires forall u :: InBounds(shape[axis := size], u) ==>
               && InBounds(shape, Shift(u, axis, lo))
               && p[Offset(shape[axis := size], u)] == blk[Offset(shape, Shift(u, axis, lo))]
    ensures Spread(p, src, shape, axis, lo, size, base)
  {
  }

  /** The piece of a batch entry is spread that way. */
  lemma PieceSpread(src: seq<real>, shape: seq<int>, axis: int, lo: int, size: int, b: int)
    requires Cuttable(shape, axis, lo, size) && 0 <= b && (b + 1) * ShapeToArrayLength(shape) <= |src|
    ensures Spread(Piece(Slab(src, b, ShapeToArrayLength(shape)), shape, axis, lo, size), src, shape, axis, lo, size,
                   b * ShapeToArrayLength(shape))
  {
    var len := ShapeToArrayLength(shape);
    SlabInside(b, b + 1, len);
    var slab := Slab(src, b, len);
    PieceTuples(slab, shape, axis, lo, size);
    SpreadOfTuples(Piece(slab, shape, axis, lo, size), slab, src, shape, axis, lo, size, b * len);
  }

  /** One more batch entry cut, the earlier ones left alone. */
  lemma CutNext(dst: seq<real>, dst': seq<real>, src: seq<real>, shape: seq<int>, axis: int,
                lo: int, size: int, b: int)
    requires Cut(dst, src, shape, axis, lo, size, b) && EntryCut(dst', src, shape, axis, lo, size, b)
    requires |dst'| == |dst|
    requires forall k :: 0 <= k < |dst| && !(b * ShapeToArrayLength(shape[axis := size]) <= k
                 < b * ShapeToArrayLength(shape[axis := size]) + ShapeToArrayLength(shape[axis := size]))
               ==> dst'[k] == dst[k]
    ensures Cut(dst', src, shape, axis, lo, size, b + 1)
  {
    var plen := ShapeToArrayLength(shape[axis := size]);
    forall c | 0 <= c < b
      ensures EntryCut(dst', src, shape, axis, lo, size, c)
    {
      assert EntryCut(dst, src, shape, axis, lo, size, c);
      SlabKeep(dst, dst', plen, b, c);
    }
  }

  /** The copy loop for batch entry `b` of one piece: it writes `wantData`
    * and `wantGrad`, the spread batch entries of the data and gradient of
    * `a`, into that batch entry of the piece. */
  method FillEntry(piece: NdArray, a: NdArray, axis: int, lo: int, size: int, b: int,
                   ghost wantData: seq<real>, ghost wantGrad: seq<real>)
    requires a.Shaped() && piece.Valid() && 0 <= axis < |a.Shape|
    requires piece.Shape == a.Shape[axis := size] && piece.Length == ShapeToArrayLength(piece.Shape)
    requires piece.BatchCount == a.BatchCount && 0 <= b < a.BatchCount
    requires piece.Length > 0 ==> Cuttable(a.Shape, axis, lo, size)
    requires Cuttable(a.Shape, axis, lo, size) ==>
               && Spread(wantData, a.Data[..], a.Shape, axis, lo, size, b * a.Length)
               && Spread(wantGrad, a.Grad[..], a.Shape, axis, lo, size, b * a.Length)
    requires a.Data != piece.Data && a.Data != piece.Grad && a.Grad != piece.Data && a.Grad != piece.Grad
    modifies piece.Data, piece.Grad
    ensures Cuttable(a.Shape, axis, lo, size) ==>
              Slab(piece.Data[..], b, piece.Length) == wantData && Slab(piece.Grad[..], b, piece.Length) == wantGrad
    ensures forall k :: 0 <= k < piece.Data.Length && !(b * piece.Length <= k < b * piece.Length + piece.Length)
              ==> piece.Data[k] == old(piece.Data[k]) && piece.Grad[k] == old(piece.Grad[k])
  {
    ghost var len, plen, n := a.Length, piece.Length, a.BatchCount;
    SlabInside(b, n, plen);
    ghost var base := b * plen;
    var j := 0;
    while j < piece.Length
      invariant 0 <= j <= plen
      invariant j > 0 ==> Cuttable(a.Shape, axis, lo, size)
      invariant forall k :: 0 <= k < j ==> piece.Data[base + k] == wantData[k] && piece.Grad[base + k] == wantGrad[k]
      invariant forall k :: 0 <= k < piece.Data.Length && !(base <= k < base + j)
                  ==> piece.Data[k] == old(piece.Data[k]) && piece.Grad[k] == old(piece.Grad[k])
    {
      CopyElement(piece, a, axis, lo, size, b, j, wantData, wantGrad);
      j := j + 1;
    }
    if Cuttable(a.Shape, axis, lo, size) {
      assert Slab(piece.Data[..], b, plen) == wantData;
      assert Slab(piece.Grad[..], b, plen) == wantGrad;
    }
  }

  /** One pass of the innermost copy loop: element `j` of batch entry `b`
    * of the piece, read through the tuple it stands for. */
  method CopyElement(piece: NdArray, a: NdArray, axis: int, lo: int, size: int, b: int, j: int,
                     ghost wantData: seq<real>, ghost wantGrad: seq<real>)
    requires a.Shaped() && piece.Valid() && 0 <= axis < |a.Shape|
    requires piece.Shape == a.Shape[axis := size] && piece.Length == ShapeToArrayLength(piece.Shape)
    requires piece.BatchCount == a.BatchCount && 0 <= b < a.BatchCount && 0 <= j < piece.Length
    requires Cuttable(a.Shape, axis, lo, size)
    requires Spread(wantData, a.Data[..], a.Shape, axis, lo, size, b * a.Length)
    requires Spread(wantGrad, a.Grad[..], a.Shape, axis, lo, size, b * a.Length)
    requires a.Data != piece.Data && a.Data != piece.Grad && a.Grad != piece.Data && a.Grad != piece.Grad
    modifies piece.Data, piece.Grad
    ensures 0 <= b * piece.Length + j < piece.Data.Length && j < |wantData| && j < |wantGrad|
    ensures piece.Data[..] == old(piece.Data[..])[b * piece.Length + j := wantData[j]]
    ensures piece.Grad[..] == old(piece.Grad[..])[b * piece.Length + j := wantGrad[j]]
  {
    InSlab(b, a.BatchCount, piece.Length, j);
    var localIndex := SourceIndex(piece, a, axis, lo, size, b, j, wantData, wantGrad);
    var t := b * piece.Length + j;
    piece.Data[t] := a.Data[localIndex];
    piece.Grad[t] := a.Grad[localIndex];
  }

  /** `piece.GetDimensionsIndex(j)`: the tuple of element `j` in the
    * piece's shape, which is in bounds and whose offset is `j`. */
  method PieceDims(piece: NdArray, j: int) returns (u: seq<int>)
    requires piece.Shaped() && 0 <= j < piece.Length
    ensures InBounds(piece.Shape, u) && Offset(piece.Shape, u) == j
  {
    assert j % piece.Length == j by {
      DivModUnique(0, piece.Length, j);
      assert 0 * piece.Length + j == j;
    }
    var found := piece.GetDimensionsIndex(j);
    u := found.value;
  }

  /** Where element `j` of batch entry `b` of the piece is read from: the
    * tuple of `j` in the piece's shape, moved by `lo` along `axis`, located
    * in batch entry `b` of the source. */
  method SourceIndex(piece: NdArray, a: NdArray, axis: int, lo: int, size: int, b: int, j: int,
                     ghost wantData: seq<real>, ghost wantGrad: seq<real>) returns (localIndex: int)
    requires a.Shaped() && piece.Valid() && 0 <= axis < |a.Shape|
    requires piece.Shape == a.Shape[axis := size] && piece.Length == ShapeToArrayLength(piece.Shape)
    requires 0 <= b && 0 <= j < piece.Length
    requires Spread(wantData, a.Data[..], a.Shape, axis, lo, size, b * a.Length)
    requires Spread(wantGrad, a.Grad[..], a.Shape, axis, lo, size, b * a.Length)
    ensures 0 <= localIndex < a.Data.Length && localIndex < a.Grad.Length && j < |wantData| && j < |wantGrad|
    ensures a.Data[localIndex] == wantData[j] && a.Grad[localIndex] == wantGrad[j]
  {
    assert piece.Shaped() by {
      assert Cuttable(a.Shape, axis, lo, size);
    }
    var dims := PieceDims(piece, j);
    ghost var u := dims;
    dims := dims[axis := dims[axis] + lo];
    assert dims == Shift(u, axis, lo);
    localIndex := a.GetLocalIndex(b, dims);
    assert a.Shape[..|dims|] == a.Shape;
    assert LocalOffset(a.Shape, dims) == Offset(a.Shape, dims);
    assert localIndex == b * a.Length + Offset(a.Shape, Shift(u, axis, lo));
    assert InBounds(a.Shape[axis := size], u) && j == Offset(a.Shape[axis := size], u);
    SpreadRead(wantData, a.Data[..], a.Shape, axis, lo, size, b * a.Length, u, j, localIndex);
    SpreadRead(wantGrad, a.Grad[..], a.Shape, axis, lo, size, b * a.Length, u, j, localIndex);
  }

  /** The copy loops for one piece, batch entry by batch entry. */
  method FillPiece(piece: NdArray, a: NdArray, axis: int, lo: int, size: int)
    requires a.Shaped() && 0 <= axis < |a.Shape|
    requires piece.Data.Length == piece.Length * piece.BatchCount && piece.Grad.Length == piece.Data.Length
    requires piece.Data != piece.Grad && (piece.Length >= 0 || a.BatchCount == 0)
    requires piece.Shape == a.Shape[axis := size] && piece.Length == ShapeToArrayLength(piece.Shape)
    requires piece.BatchCount == a.BatchCount
    requires Cuttable(a.Shape, axis, lo, size) || piece.Length == 0 || a.BatchCount == 0
    requires a.Data != piece.Data && a.Data != piece.Grad && a.Grad != piece.Data && a.Grad != piece.Grad
    modifies piece.Data, piece.Grad
    ensures Cuttable(a.Shape, axis, lo, size) ==>
              && Cut(piece.Data[..], a.Data[..], a.Shape, axis, lo, size, a.BatchCount)
              && Cut(piece.Grad[..], a.Grad[..], a.Shape, axis, lo, size, a.BatchCount)
  {
    ghost var cut := Cuttable(a.Shape, axis, lo, size);
    var b := 0;
    while b < a.BatchCount
      invariant 0 <= b <= a.BatchCount
      invariant cut ==> Cut(piece.Data[..], a.Data[..], a.Shape, axis, lo, size, b)
      invariant cut ==> Cut(piece.Grad[..], a.Grad[..], a.Shape, axis, lo, size, b)
    {
      ghost var data, grad := piece.Data[..], piece.Grad[..];
      ghost var wantData, wantGrad := [], [];
      if cut {
        SlabInside(b, a.BatchCount, a.Length);
        wantData := Piece(Slab(a.Data[..], b, a.Length), a.Shape, axis, lo, size);
        wantGrad := Piece(Slab(a.Grad[..], b, a.Length), a.Shape, axis, lo, size);
        PieceSpread(a.Data[..], a.Shape, axis, lo, size, b);
        PieceSpread(a.Grad[..], a.Shape, axis, lo, size, b);
      }
      FillEntry(piece, a, axis, lo, size, b, wantData, wantGrad);
      if cut {
        SlabInside(b, a.BatchCount, piece.Length);
        CutNext(data, piece.Data[..], a.Data[..], a.Shape, axis, lo, size, b);
        CutNext(grad, piece.Grad[..], a.Grad[..], a.Shape, axis, lo, size, b);
      }
      b := b + 1;
    }
  }

  /** The cut positions and piece sizes, as the two arrays of the source. */
  method Bounds(indices: seq<int>, extent: int) returns (starts: seq<int>, sizes: seq<int>)
    requires |indices| > 0
    ensures starts == Starts(indices) && sizes == Sizes(indices, extent)
  {
    var n := |indices|;
    var offsets := new int[n + 1](_ => 0);
    var shapes := new int[n + 1](_ => 0);
    var i := 0;
    while i < n
      invariant 0 <= i <= n
      invariant forall k :: 0 <= k <= i ==> offsets[k] == StartAt(indices, k)
      invariant forall k :: 0 <= k < i ==> shapes[k] == EndAt(indices, extent, k) - StartAt(indices, k)
    {
      offsets[i + 1] := indices[i];
      shapes[i] := indices[i] - offsets[i];
      i := i + 1;
    }
    shapes[n] := extent - indices[n - 1];
    starts, sizes := offsets[..], shapes[..];
    assert starts == Starts(indices);
    assert sizes == Sizes(indices, extent);
  }

  /** `Split(array, indices, axis)`: the pieces of `a` between consecutive
    * cut positions along `axis`, each a fresh tensor.  No cut position, or an
    * axis outside the shape, overruns an array; a piece whose element count
    * (its size product times the batch count) is negative cannot be
    * allocated.  When the cut positions do not ascend within the axis but
    * every piece can still be allocated, the pieces are all empty. */
  method Split(a: NdArray, indices: seq<int>, axis: int) returns (r: Result<seq<NdArray>>)
    requires a.Shaped()
    ensures r.Ok? <==> && |indices| > 0 && 0 <= axis < |a.Shape|
                       && (Allocatable(a.Shape, axis, Sizes(indices, a.Shape[axis])) || a.BatchCount == 0)
    ensures r.Err? ==> r.error == if |indices| == 0 || !(0 <= axis < |a.Shape|) then IndexOutOfRange else NegativeSize
    ensures r.Ok? ==> && |r.value| == |indices| + 1
                      && (Ascending(indices, a.Shape[axis]) ==>
                            forall i :: 0 <= i < |r.value| ==>
                              Cuttable(a.Shape, axis, Starts(indices)[i], Sizes(indices, a.Shape[axis])[i]))
                      && forall i :: 0 <= i < |r.value| ==>
                           && fresh(r.value[i]) && fresh(r.value[i].Data) && fresh(r.value[i].Grad)
                           && IsPiece(r.value[i], a, axis, Starts(indices)[i], Sizes(indices, a.Shape[axis])[i])
  {
    if |indices| == 0 || !(0 <= axis < |a.Shape|) {
      return Err(IndexOutOfRange);
    }
    var n := |indices|;
    var starts, sizes := Bounds(indices, a.Shape[axis]);
    var made := AllocatePieces(a, axis, sizes);
    if made.Err? {
      return Err(NegativeSize);
    }
    var pieces := made.value;
    forall k | 0 <= k < n + 1
      ensures Cuttable(a.Shape, axis, starts[k], sizes[k]) || pieces[k].Length == 0 || a.BatchCount == 0
    {
      SizesAscending(indices, a.Shape[axis]);
      if Ascending(indices, a.Shape[axis]) {
        AscendingCuttable(a.Shape, axis, indices, k);
      } else if a.BatchCount > 0 {
        var m :| 0 <= m < n + 1 && sizes[m] < 0;
        NegativeSizeEmpty(a.Shape, axis, sizes, m, k);
      }
    }
    FillPieces(pieces, a, axis, starts, sizes);
    if Ascending(indices, a.Shape[axis]) {
      forall k | 0 <= k < n + 1
        ensures Cuttable(a.Shape, axis, starts[k], sizes[k])
      {
        AscendingCuttable(a.Shape, axis, indices, k);
      }
    }
    r := Ok(pieces);
  }

  /** A freshly allocated piece: zero-filled buffers shaped like `a` with
    * `size` positions along `axis`. */
  ghost predicate Blank(p: NdArray, a: NdArray, axis: int, size: int)
    reads p, a
  {
    && p.Data.Length == p.Length * p.BatchCount && p.Grad.Length == p.Data.Length && p.Data != p.Grad
    && (p.Length >= 0 || p.BatchCount == 0) && 0 <= axis < |a.Shape|
    && p.Shape == a.Shape[axis := size] && p.Length == ShapeToArrayLength(p.Shape)
    && p.BatchCount == a.BatchCount && p.UseCount == 0 && p.TrainCount == 0
  }

  /** Each of the pieces is blank with the size of its position. */
  ghost predicate AllBlank(ps: seq<NdArray>, a: NdArray, axis: int, sizes: seq<int>)
    reads set k | 0 <= k < |ps| :: ps[k]
    reads a
  {
    |ps| <= |sizes| && forall k :: 0 <= k < |ps| ==> Blank(ps[k], a, axis, sizes[k])
  }

  /** A blank piece of the next size extends blank pieces. */
  lemma AllBlankAppend(ps: seq<NdArray>, p: NdArray, a: NdArray, axis: int, sizes: seq<int>)
    requires AllBlank(ps, a, axis, sizes) && |ps| < |sizes| && Blank(p, a, axis, sizes[|ps|])
    ensures AllBlank(ps + [p], a, axis, sizes)
  {
    assert forall k :: 0 <= k < |ps| ==> (ps + [p])[k] == ps[k];
  }

  /** No two pieces share a buffer, and none shares one with `a`. */
  ghost predicate Apart(ps: seq<NdArray>, a: NdArray)
    reads set k | 0 <= k < |ps| :: ps[k]
    reads a
  {
    && (forall k :: 0 <= k < |ps| ==>
          && ps[k].Data != a.Data && ps[k].Data != a.Grad && ps[k].Grad != a.Data && ps[k].Grad != a.Grad)
    && (forall k, l :: 0 <= k < l < |ps| ==>
          && ps[k].Data != ps[l].Data && ps[k].Data != ps[l].Grad
          && ps[k].Grad != ps[l].Data && ps[k].Grad != ps[l].Grad)
  }

  /** A tensor whose buffers are new to `ps` and `a` keeps them apart. */
  lemma ApartAppend(ps: seq<NdArray>, p: NdArray, a: NdArray)
    requires Apart(ps, a)
    requires p.Data != a.Data && p.Data != a.Grad && p.Grad != a.Data && p.Grad != a.Grad
    requires forall k :: 0 <= k < |ps| ==>
               && ps[k].Data != p.Data && ps[k].Data != p.Grad && ps[k].Grad != p.Data && ps[k].Grad != p.Grad
    ensures Apart(ps + [p], a)
  {
  }

  /** The allocation loop of `Split`: one new tensor per piece, in order;
    * the first piece whose element count is negative stops it.  With no
    * batch entries every element count is zero, so nothing stops it. */
  method AllocatePieces(a: NdArray, axis: int, sizes: seq<int>) returns (r: Result<seq<NdArray>>)
    requires a.Shaped() && 0 <= axis < |a.Shape|
    ensures r.Ok? <==> Allocatable(a.Shape, axis, sizes) || a.BatchCount == 0
    ensures r.Err? ==> r.error == NegativeSize
    ensures r.Ok? ==> && |r.value| == |sizes| && Apart(r.value, a)
                      && forall k :: 0 <= k < |sizes| ==>
                           && fresh(r.value[k]) && fresh(r.value[k].Data) && fresh(r.value[k].Grad)
                           && Blank(r.value[k], a, axis, sizes[k])
  {
    var pieces: seq<NdArray> := [];
    var i := 0;
    while i < |sizes|
      invariant 0 <= i <= |sizes| && |pieces| == i
      invariant Allocatable(a.Shape, axis, sizes[..i]) || a.BatchCount == 0
      invariant forall k :: 0 <= k < i ==> fresh(pieces[k]) && fresh(pieces[k].Data) && fresh(pieces[k].Grad)
      invariant AllBlank(pieces, a, axis, sizes)
      invariant Apart(pieces, a)
    {
      var shape := a.Shape[axis := sizes[i]];
      if ShapeToArrayLength(shape) >= 0 {
        MulMono(0, ShapeToArrayLength(shape), a.BatchCount);
      }
      if ShapeToArrayLength(shape) * a.BatchCount < 0 {
        return Err(NegativeSize);
      }
      if a.BatchCount > 0 {
        if ShapeToArrayLength(shape) < 0 {
          NegativeFactor(ShapeToArrayLength(shape), a.BatchCount);
        }
        AllocatableGrows(a.Shape, axis, sizes, i);
      }
      var piece := AllocateNext(pieces, a, axis, sizes[i]);
      AllBlankAppend(pieces, piece, a, axis, sizes);
      assert forall k :: 0 <= k < i ==> (pieces + [piece])[k] == pieces[k];
      pieces := pieces + [piece];
      i := i + 1;
    }
    assert sizes[..i] == sizes;
    assert forall k :: 0 <= k < |sizes| ==> fresh(pieces[k]) && fresh(pieces[k].Data) && fresh(pieces[k].Grad);
    r := Ok(pieces);
  }

  /** One pass of the allocation loop: `new NdArray(resultShape, BatchCount)`. */
  method AllocateNext(pieces: seq<NdArray>, a: NdArray, axis: int, size: int) returns (piece: NdArray)
    requires a.Shaped() && 0 <= axis < |a.Shape| && ShapeToArrayLength(a.Shape[axis := size]) * a.BatchCount >= 0
    requires Apart(pieces, a)
    ensures fresh(piece) && fresh(piece.Data) && fresh(piece.Grad)
    ensures Blank(piece, a, axis, size) && Apart(pieces + [piece], a)
  {
    if ShapeToArrayLength(a.Shape[axis := size]) < 0 {
      NegativeFactor(ShapeToArrayLength(a.Shape[axis := size]), a.BatchCount);
    }
    piece := new NdArray.Allocate(a.Shape[axis := size], a.BatchCount);
    ApartAppend(pieces, piece, a);
  }

  /** The copy loops of `Split`, piece by piece. */
  method FillPieces(pieces: seq<NdArray>, a: NdArray, axis: int, starts: seq<int>, sizes: seq<int>)
    requires a.Shaped() && 0 <= axis < |a.Shape| && |starts| == |pieces| && |sizes| == |pieces|
    requires forall k :: 0 <= k < |pieces| ==>
               && Blank(pieces[k], a, axis, sizes[k])
               && (Cuttable(a.Shape, axis, starts[k], sizes[k]) || pieces[k].Length == 0 || a.BatchCount == 0)
    requires Apart(pieces, a)
    modifies set k | 0 <= k < |pieces| :: pieces[k].Data
    modifies set k | 0 <= k < |pieces| :: pieces[k].Grad
    ensures forall k :: 0 <= k < |pieces| ==> IsPiece(pieces[k], a, axis, starts[k], sizes[k])
  {
    var i := 0;
    while i < |pieces|
      invariant 0 <= i <= |pieces|
      invariant forall k :: 0 <= k < i ==> IsPiece(pieces[k], a, axis, starts[k], sizes[k])
    {
      FillPiece(pieces[i], a, axis, starts[i], sizes[i]);
      i := i + 1;
    }
  }

  /** `Split(array, index, axis)`: the two pieces on either side of one cut
    * position. */
  method SplitAt(a: NdArray, index: int, axis: int) returns (r: Result<seq<NdArray>>)
    requires a.Shaped()
    ensures r.Ok? <==> && 0 <= axis < |a.Shape|
                       && (|| a.BatchCount == 0
                           || (&& ShapeToArrayLength(a.Shape[axis := index]) >= 0
                               && ShapeToArrayLength(a.Shape[axis := a.Shape[axis] - index]) >= 0))
    ensures r.Err? ==> r.error == if !(0 <= axis < |a.Shape|) then IndexOutOfRange else NegativeSize
    ensures r.Ok? ==> && |r.value| == 2
                      && fresh(r.value[0]) && fresh(r.value[0].Data) && fresh(r.value[0].Grad)
                      && fresh(r.value[1]) && fresh(r.value[1].Data) && fresh(r.value[1].Grad)
                      && IsPiece(r.value[0], a, axis, 0, index)
                      && IsPiece(r.value[1], a, axis, index, a.Shape[axis] - index)
                      && (0 <= index <= a.Shape[axis] ==>
                            Cuttable(a.Shape, axis, 0, index) && Cuttable(a.Shape, axis, index, a.Shape[axis] - index))
  {
    if 0 <= axis < |a.Shape| {
      var sz := Sizes([index], a.Shape[axis]);
      assert sz[0] == index && sz[1] == a.Shape[axis] - index;
      assert Starts([index])[1] == index;
      if 0 <= index <= a.Shape[axis] {
        assert Ascending([index], a.Shape[axis]);
      }
    }
    r := Split(a, [index], axis);
  }
}
