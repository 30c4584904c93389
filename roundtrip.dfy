/** `Split` undoes `Concatenate`: cutting the concatenation of two tensors at
  * the first one's size along the joining axis gives both tensors back,
  * data and gradient. */
module RoundTrips {
  import opened Errors
  import opened Shapes
  import opened Blocks
  import opened Pieces
  import opened Tensors
  import opened Splitting
  import opened Concatenation

  /** Batch entry `c`: the piece of a glued entry below the first block's
    * size is the first block's entry. */
  lemma FrontOfGlued(p: seq<real>, d: seq<real>, x: seq<real>, y: seq<real>,
                     ashape: seq<int>, bshape: seq<int>, axis: int, c: int)
    requires Joinable(ashape, bshape, axis)
    requires EntryGlued(d, x, y, ashape, bshape, axis, true, c)
    requires EntryCut(p, d, JoinShape(ashape, bshape, axis), axis, 0, ashape[axis], c)
    ensures (c + 1) * ShapeToArrayLength(ashape) <= |p|
    ensures Slab(p, c, ShapeToArrayLength(ashape)) == Slab(x, c, ShapeToArrayLength(ashape))
  {
    PieceOfJoinedFront(Slab(x, c, ShapeToArrayLength(ashape)), ashape,
                       Slab(y, c, ShapeToArrayLength(bshape)), bshape, axis);
  }

  /** Batch entry `c`: the piece of a glued entry above the first block's
    * size is the second block's entry. */
  lemma BackOfGlued(q: seq<real>, d: seq<real>, x: seq<real>, y: seq<real>,
                    ashape: seq<int>, bshape: seq<int>, axis: int, c: int)
    requires Joinable(ashape, bshape, axis)
    requires EntryGlued(d, x, y, ashape, bshape, axis, true, c)
    requires EntryCut(q, d, JoinShape(ashape, bshape, axis), axis, ashape[axis], bshape[axis], c)
    ensures (c + 1) * ShapeToArrayLength(bshape) <= |q|
    ensures Slab(q, c, ShapeToArrayLength(bshape)) == Slab(y, c, ShapeToArrayLength(bshape))
  {
    PieceOfJoinedBack(Slab(x, c, ShapeToArrayLength(ashape)), ashape,
                      Slab(y, c, ShapeToArrayLength(bshape)), bshape, axis);
  }

  /** Buffer by buffer: when `d` holds the entries of `x` and `y` joined
    * along `axis`, the piece of `d` below the first block's size is `x`. */
  lemma FrontCutOfGlued(p: seq<real>, d: seq<real>, x: seq<real>, y: seq<real>,
                        ashape: seq<int>, bshape: seq<int>, axis: int, n: int)
    requires Joinable(ashape, bshape, axis) && n >= 0
    requires |x| == n * ShapeToArrayLength(ashape) && |p| == n * ShapeToArrayLength(ashape)
    requires Glued(d, x, y, ashape, bshape, axis, true, n)
    requires Cut(p, d, JoinShape(ashape, bshape, axis), axis, 0, ashape[axis], n)
    ensures p == x
  {
    forall c | 0 <= c < n
      ensures (c + 1) * ShapeToArrayLength(ashape) <= |p|
      ensures Slab(p, c, ShapeToArrayLength(ashape)) == Slab(x, c, ShapeToArrayLength(ashape))
    {
      FrontOfGlued(p, d, x, y, ashape, bshape, axis, c);
    }
    SlabsEqual(p, x, n, ShapeToArrayLength(ashape));
  }

  /** Buffer by buffer: the piece of `d` above the first block's size is
    * `y`. */
  lemma BackCutOfGlued(q: seq<real>, d: seq<real>, x: seq<real>, y: seq<real>,
                       ashape: seq<int>, bshape: seq<int>, axis: int, n: int)
    requires Joinable(ashape, bshape, axis) && n >= 0
    requires |y| == n * ShapeToArrayLength(bshape) && |q| == n * ShapeToArrayLength(bshape)
    requires Glued(d, x, y, ashape, bshape, axis, true, n)
    requires Cut(q, d, JoinShape(ashape, bshape, axis), axis, ashape[axis], bshape[axis], n)
    ensures q == y
  {
    forall c | 0 <= c < n
      ensures (c + 1) * ShapeToArrayLength(bshape) <= |q|
      ensures Slab(q, c, ShapeToArrayLength(bshape)) == Slab(y, c, ShapeToArrayLength(bshape))
    {
      BackOfGlued(q, d, x, y, ashape, bshape, axis, c);
    }
    SlabsEqual(q, y, n, ShapeToArrayLength(bshape));
  }

  /** `Split(Concatenate(a, b, axis), a.Shape[axis], axis)`: two tensors
    * that agree off `axis` and in batch count come back exactly. */
  method SplitOfConcatenate(a: NdArray, b: NdArray, axis: int) returns (r: Result<seq<NdArray>>)
    requires a.Shaped() && b.Shaped()
    requires Joinable(a.Shape, b.Shape, axis) && a.BatchCount == b.BatchCount
    ensures r.Ok? && |r.value| == 2
    ensures r.value[0].Shape == a.Shape && r.value[0].BatchCount == a.BatchCount
    ensures r.value[0].Data[..] == a.Data[..] && r.value[0].Grad[..] == a.Grad[..]
    ensures r.value[1].Shape == b.Shape && r.value[1].BatchCount == b.BatchCount
    ensures r.value[1].Data[..] == b.Data[..] && r.value[1].Grad[..] == b.Grad[..]
  {
    assert SameOffAxis(a.Shape, b.Shape, axis);
    ConcatCheckPass(a.Shape, b.Shape, axis, a.BatchCount, b.BatchCount);
    var joined := Concatenate(a, b, axis);
    var c := joined.value;
    assert a.Shape[axis := b.Shape[axis]] == b.Shape;
    assert c.Shape == JoinShape(a.Shape, b.Shape, axis);
    assert c.Shape[axis := a.Shape[axis]] == a.Shape;
    assert c.Shape[axis := c.Shape[axis] - a.Shape[axis]] == b.Shape;
    r := SplitAt(c, a.Shape[axis], axis);
    var front, back := r.value[0], r.value[1];
    FrontCutOfGlued(front.Data[..], c.Data[..], a.Data[..], b.Data[..], a.Shape, b.Shape, axis, a.BatchCount);
    BackCutOfGlued(back.Data[..], c.Data[..], a.Data[..], b.Data[..], a.Shape, b.Shape, axis, a.BatchCount);
    FrontCutOfGlued(front.Grad[..], c.Grad[..], a.Grad[..], b.Grad[..], a.Shape, b.Shape, axis, a.BatchCount);
    BackCutOfGlued(back.Grad[..], c.Grad[..], a.Grad[..], b.Grad[..], a.Shape, b.Shape, axis, a.BatchCount);
  }
}
