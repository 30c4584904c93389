/** Cutting one batch entry along an axis and putting two of them side by
  * side along an axis: what `Split` and `Concatenate` do to every batch
  * entry, as functions on flat blocks. */
module Pieces {
  import opened Shapes

  /** `idx` moved by `d` along `axis`. */
  function Shift(idx: seq<int>, axis: int, d: int): (r: seq<int>)
    requires 0 <= axis < |idx|
    ensures |r| == |idx| && r[axis] == idx[axis] + d
    ensures forall k :: 0 <= k < |r| && k != axis ==> r[k] == idx[k]
  {
    idx[axis := idx[axis] + d]
  }

  /** The piece of `size` positions from `lo` along `axis` lies inside
    * `shape`. */
  ghost predicate Cuttable(shape: seq<int>, axis: int, lo: int, size: int)
  {
    0 <= axis < |shape| && NonNegative(shape) && 0 <= lo && 0 <= size && lo + size <= shape[axis]
  }

  /** Moving by nothing leaves a tuple as it is, and moving back undoes a move. */
  lemma ShiftBack(idx: seq<int>, axis: int, d: int)
    requires 0 <= axis < |idx|
    ensures Shift(idx, axis, 0) == idx
    ensures Shift(Shift(idx, axis, d), axis, -d) == idx
    ensures Shift(Shift(idx, axis, -d), axis, d) == idx
  {
  }

  /** Moving along one axis by the same amount keeps tuples apart. */
  lemma ShiftInjective(u: seq<int>, v: seq<int>, axis: int, d: int)
    requires 0 <= axis < |u| && |u| == |v| && Shift(u, axis, d) == Shift(v, axis, d)
    ensures u == v
  {
    ShiftBack(u, axis, d);
    ShiftBack(v, axis, d);
  }

  /** The length of a shape is linear in the size along any one axis: it is
    * that size times the length of the shape without the axis. */
  lemma ProductAt(shape: seq<int>, axis: int, x: int)
    requires 0 <= axis < |shape|
    ensures ShapeToArrayLength(shape[axis := x]) == x * ShapeToArrayLength(RemoveAt(shape, axis))
  {
    var pre, post := shape[..axis], shape[axis + 1..];
    assert shape[axis := x] == pre + ([x] + post);
    assert RemoveAt(shape, axis) == pre + post;
    ProductAppend(pre, [x] + post);
    ProductCons(x, post);
    ProductAppend(pre, post);
    MulAssoc(ShapeToArrayLength(pre), x, ShapeToArrayLength(post));
    MulAssoc(x, ShapeToArrayLength(pre), ShapeToArrayLength(post));
  }

  /** A tuple of the piece, moved to where the piece starts, is a tuple of
    * the whole. */
  lemma ShiftInBounds(shape: seq<int>, axis: int, lo: int, size: int, u: seq<int>)
    requires Cuttable(shape, axis, lo, size) && InBounds(shape[axis := size], u)
    ensures InBounds(shape, Shift(u, axis, lo))
  {
  }

  /** The flat position in the whole block of element `j` of the piece. */
  function PieceSource(shape: seq<int>, axis: int, lo: int, size: int, j: int): (o: int)
    requires Cuttable(shape, axis, lo, size) && 0 <= j < ShapeToArrayLength(shape[axis := size])
    ensures 0 <= o < ShapeToArrayLength(shape)
  {
    var ps := shape[axis := size];
    assert NonNegative(ps);
    ShiftInBounds(shape, axis, lo, size, Unflatten(ps, j));
    Offset(shape, Shift(Unflatten(ps, j), axis, lo))
  }

  /** The piece of the block `blk` (of shape `shape`) that has `size`
    * positions from `lo` along `axis`. */
  function Piece(blk: seq<real>, shape: seq<int>, axis: int, lo: int, size: int): (r: seq<real>)
    requires Cuttable(shape, axis, lo, size) && |blk| == ShapeToArrayLength(shape)
    ensures |r| == ShapeToArrayLength(shape[axis := size])
    ensures forall j :: 0 <= j < |r| ==> r[j] == blk[PieceSource(shape, axis, lo, size, j)]
  {
    assert NonNegative(shape[axis := size]);
    seq(ShapeToArrayLength(shape[axis := size]),
        j requires 0 <= j < ShapeToArrayLength(shape[axis := size]) => blk[PieceSource(shape, axis, lo, size, j)])
  }

  /** The element of the piece at tuple `u` is the element of the whole at
    * `u` moved to where the piece starts. */
  lemma PieceAt(blk: seq<real>, shape: seq<int>, axis: int, lo: int, size: int, u: seq<int>)
    requires Cuttable(shape, axis, lo, size) && |blk| == ShapeToArrayLength(shape)
    requires InBounds(shape[axis := size], u)
    ensures InBounds(shape, Shift(u, axis, lo))
    ensures 0 <= Offset(shape[axis := size], u) < |Piece(blk, shape, axis, lo, size)|
    ensures Piece(blk, shape, axis, lo, size)[Offset(shape[axis := size], u)] == blk[Offset(shape, Shift(u, axis, lo))]
  {
    var ps := shape[axis := size];
    UnflattenOfOffset(ps, u);
  }

  /** Every tuple of the piece at once. */
  lemma PieceTuples(blk: seq<real>, shape: seq<int>, axis: int, lo: int, size: int)
    requires Cuttable(shape, axis, lo, size) && |blk| == ShapeToArrayLength(shape)
    ensures forall u :: InBounds(shape[axis := size], u) ==>
              && InBounds(shape, Shift(u, axis, lo))
              && Piece(blk, shape, axis, lo, size)[Offset(shape[axis := size], u)] == blk[Offset(shape, Shift(u, axis, lo))]
  {
    forall u | InBounds(shape[axis := size], u)
      ensures InBounds(shape, Shift(u, axis, lo))
      ensures Piece(blk, shape, axis, lo, size)[Offset(shape[axis := size], u)] == blk[Offset(shape, Shift(u, axis, lo))]
    {
      PieceAt(blk, shape, axis, lo, size, u);
    }
  }

  /** Two blocks that agree on every axis but `axis` can be put side by side
    * along it. */
  ghost predicate Joinable(ashape: seq<int>, bshape: seq<int>, axis: int)
  {
    && 0 <= axis < |ashape| == |bshape| && NonNegative(ashape) && NonNegative(bshape)
    && forall k :: 0 <= k < |ashape| && k != axis ==> ashape[k] == bshape[k]
  }

  /** The shape of the two side by side: the sizes along `axis` add up. */
  function JoinShape(ashape: seq<int>, bshape: seq<int>, axis: int): (r: seq<int>)
    requires 0 <= axis < |ashape| == |bshape|
    ensures |r| == |ashape|
  {
    ashape[axis := ashape[axis] + bshape[axis]]
  }

  /** A tuple of the joined shape is a tuple of the first block when it is
    * below the first block's size along `axis`, and otherwise, moved back by
    * that size, a tuple of the second. */
  lemma JoinInBounds(ashape: seq<int>, bshape: seq<int>, axis: int, u: seq<int>)
    requires Joinable(ashape, bshape, axis) && InBounds(JoinShape(ashape, bshape, axis), u)
    ensures u[axis] < ashape[axis] ==> InBounds(ashape, u)
    ensures u[axis] >= ashape[axis] ==> InBounds(bshape, Shift(u, axis, -ashape[axis]))
  {
  }

  /** The element of the joined block at flat position `j`. */
  function JoinedElement(ablk: seq<real>, ashape: seq<int>, bblk: seq<real>, bshape: seq<int>, axis: int, j: int): real
    requires Joinable(ashape, bshape, axis)
    requires |ablk| == ShapeToArrayLength(ashape) && |bblk| == ShapeToArrayLength(bshape)
    requires 0 <= j < ShapeToArrayLength(JoinShape(ashape, bshape, axis))
  {
    var js := JoinShape(ashape, bshape, axis);
    assert NonNegative(js);
    var u := Unflatten(js, j);
    JoinInBounds(ashape, bshape, axis, u);
    if u[axis] < ashape[axis] then ablk[Offset(ashape, u)]
    else bblk[Offset(bshape, Shift(u, axis, -ashape[axis]))]
  }

  /** The blocks `ablk` and `bblk` side by side along `axis`. */
  function Joined(ablk: seq<real>, ashape: seq<int>, bblk: seq<real>, bshape: seq<int>, axis: int): (r: seq<real>)
    requires Joinable(ashape, bshape, axis)
    requires |ablk| == ShapeToArrayLength(ashape) && |bblk| == ShapeToArrayLength(bshape)
    ensures |r| == ShapeToArrayLength(JoinShape(ashape, bshape, axis))
    ensures forall j :: 0 <= j < |r| ==> r[j] == JoinedElement(ablk, ashape, bblk, bshape, axis, j)
  {
    var js := JoinShape(ashape, bshape, axis);
    assert NonNegative(js);
    seq(ShapeToArrayLength(js), j requires 0 <= j < ShapeToArrayLength(js) => JoinedElement(ablk, ashape, bblk, bshape, axis, j))
  }

  /** At a tuple below the first block's size along `axis` the joined block
    * holds the first block's element; above it, the second block's element
    * moved back by that size. */
  lemma JoinedAt(ablk: seq<real>, ashape: seq<int>, bblk: seq<real>, bshape: seq<int>, axis: int, u: seq<int>)
    requires Joinable(ashape, bshape, axis)
    requires |ablk| == ShapeToArrayLength(ashape) && |bblk| == ShapeToArrayLength(bshape)
    requires InBounds(JoinShape(ashape, bshape, axis), u)
    ensures 0 <= Offset(JoinShape(ashape, bshape, axis), u) < |Joined(ablk, ashape, bblk, bshape, axis)|
    ensures u[axis] < ashape[axis] ==> InBounds(ashape, u)
    ensures u[axis] >= ashape[axis] ==> InBounds(bshape, Shift(u, axis, -ashape[axis]))
    ensures Joined(ablk, ashape, bblk, bshape, axis)[Offset(JoinShape(ashape, bshape, axis), u)]
         == if u[axis] < ashape[axis] then ablk[Offset(ashape, u)]
            else bblk[Offset(bshape, Shift(u, axis, -ashape[axis]))]
  {
    var js := JoinShape(ashape, bshape, axis);
    JoinInBounds(ashape, bshape, axis, u);
    UnflattenOfOffset(js, u);
  }

  /** Every flat position of a shape with elements is the offset of a tuple. */
  lemma TupleOf(shape: seq<int>, j: int) returns (u: seq<int>)
    requires NonNegative(shape) && 0 <= j < ShapeToArrayLength(shape)
    ensures Positive(shape) && InBounds(shape, u) && Offset(shape, u) == j
  {
    u := Unflatten(shape, j);
    OffsetOfUnflatten(shape, j);
  }

  /** A sequence that holds, at every tuple of the piece's shape, the
    * element of the whole at that tuple moved to where the piece starts, is
    * the piece. */
  lemma {:induction false} PieceIs(blk: seq<real>, shape: seq<int>, axis: int, lo: int, size: int, p: seq<real>)
    requires Cuttable(shape, axis, lo, size) && |blk| == ShapeToArrayLength(shape)
    requires |p| == ShapeToArrayLength(shape[axis := size])
    requires forall u :: InBounds(shape[axis := size], u) ==>
               InBounds(shape, Shift(u, axis, lo)) && p[Offset(shape[axis := size], u)] == blk[Offset(shape, Shift(u, axis, lo))]
    ensures Piece(blk, shape, axis, lo, size) == p
  {
    var ps := shape[axis := size];
    assert NonNegative(ps);
    var q := Piece(blk, shape, axis, lo, size);
    forall j | 0 <= j < |p|
      ensures q[j] == p[j]
    {
      var u := TupleOf(ps, j);
      PieceAt(blk, shape, axis, lo, size, u);
    }
  }

  /** A sequence that holds the first block's elements at the tuples below
    * the first block's size along `axis`, and the second block's elements,
    * moved up by that size, at the rest, is the two blocks joined. */
  lemma {:induction false} JoinedIs(ablk: seq<real>, ashape: seq<int>, bblk: seq<real>, bshape: seq<int>, axis: int, r: seq<real>)
    requires Joinable(ashape, bshape, axis)
    requires |ablk| == ShapeToArrayLength(ashape) && |bblk| == ShapeToArrayLength(bshape)
    requires |r| == ShapeToArrayLength(JoinShape(ashape, bshape, axis))
    requires forall u :: InBounds(ashape, u) ==>
               InBounds(JoinShape(ashape, bshape, axis), u) && r[Offset(JoinShape(ashape, bshape, axis), u)] == ablk[Offset(ashape, u)]
    requires forall v :: InBounds(bshape, v) ==>
               InBounds(JoinShape(ashape, bshape, axis), Shift(v, axis, ashape[axis]))
               && r[Offset(JoinShape(ashape, bshape, axis), Shift(v, axis, ashape[axis]))] == bblk[Offset(bshape, v)]
    ensures Joined(ablk, ashape, bblk, bshape, axis) == r
  {
    var js := JoinShape(ashape, bshape, axis);
    assert NonNegative(js);
    var q := Joined(ablk, ashape, bblk, bshape, axis);
    forall j | 0 <= j < |r|
      ensures q[j] == r[j]
    {
      var u := TupleOf(js, j);
      if u[axis] < ashape[axis] {
        assert q[j] == ablk[Offset(ashape, u)] by {
          JoinedAt(ablk, ashape, bblk, bshape, axis, u);
        }
        assert InBounds(ashape, u);
      } else {
        var v := Shift(u, axis, -ashape[axis]);
        assert q[j] == bblk[Offset(bshape, v)] && InBounds(bshape, v) by {
          JoinedAt(ablk, ashape, bblk, bshape, axis, u);
        }
        ShiftBack(u, axis, ashape[axis]);
        assert Shift(v, axis, ashape[axis]) == u;
      }
    }
  }

  /** Cutting a joined block at the first block's size along the joining
    * axis gives back the first block ... */
  lemma {:induction false} PieceOfJoinedFront(ablk: seq<real>, ashape: seq<int>, bblk: seq<real>, bshape: seq<int>, axis: int)
    requires Joinable(ashape, bshape, axis)
    requires |ablk| == ShapeToArrayLength(ashape) && |bblk| == ShapeToArrayLength(bshape)
    ensures Cuttable(JoinShape(ashape, bshape, axis), axis, 0, ashape[axis])
    ensures JoinShape(ashape, bshape, axis)[axis := ashape[axis]] == ashape
    ensures Piece(Joined(ablk, ashape, bblk, bshape, axis), JoinShape(ashape, bshape, axis), axis, 0, ashape[axis]) == ablk
  {
    var js := JoinShape(ashape, bshape, axis);
    assert js[axis := ashape[axis]] == ashape;
    var whole := Joined(ablk, ashape, bblk, bshape, axis);
    forall u | InBounds(ashape, u)
      ensures InBounds(js, Shift(u, axis, 0)) && ablk[Offset(ashape, u)] == whole[Offset(js, Shift(u, axis, 0))]
    {
      ShiftBack(u, axis, 0);
      JoinedAt(ablk, ashape, bblk, bshape, axis, u);
    }
    PieceIs(whole, js, axis, 0, ashape[axis], ablk);
  }

  /** ... and the rest of it is the second block. */
  lemma {:induction false} PieceOfJoinedBack(ablk: seq<real>, ashape: seq<int>, bblk: seq<real>, bshape: seq<int>, axis: int)
    requires Joinable(ashape, bshape, axis)
    requires |ablk| == ShapeToArrayLength(ashape) && |bblk| == ShapeToArrayLength(bshape)
    ensures Cuttable(JoinShape(ashape, bshape, axis), axis, ashape[axis], bshape[axis])
    ensures JoinShape(ashape, bshape, axis)[axis := bshape[axis]] == bshape
    ensures Piece(Joined(ablk, ashape, bblk, bshape, axis), JoinShape(ashape, bshape, axis), axis, ashape[axis], bshape[axis]) == bblk
  {
    var js := JoinShape(ashape, bshape, axis);
    assert js[axis := bshape[axis]] == bshape;
    var whole := Joined(ablk, ashape, bblk, bshape, axis);
    forall v | InBounds(bshape, v)
      ensures InBounds(js, Shift(v, axis, ashape[axis])) && bblk[Offset(bshape, v)] == whole[Offset(js, Shift(v, axis, ashape[axis]))]
    {
      ShiftBack(v, axis, ashape[axis]);
      JoinedAt(ablk, ashape, bblk, bshape, axis, Shift(v, axis, ashape[axis]));
    }
    PieceIs(whole, js, axis, ashape[axis], bshape[axis], bblk);
  }

  /** The piece that starts at the beginning of the axis holds the whole's
    * elements at the same tuples. */
  lemma FrontAgrees(blk: seq<real>, shape: seq<int>, axis: int, k: int)
    requires Cuttable(shape, axis, 0, k) && |blk| == ShapeToArrayLength(shape)
    ensures forall u :: InBounds(shape[axis := k], u) ==>
              InBounds(shape, u) && blk[Offset(shape, u)] == Piece(blk, shape, axis, 0, k)[Offset(shape[axis := k], u)]
  {
    forall u | InBounds(shape[axis := k], u)
      ensures InBounds(shape, u) && blk[Offset(shape, u)] == Piece(blk, shape, axis, 0, k)[Offset(shape[axis := k], u)]
    {
      PieceAt(blk, shape, axis, 0, k, u);
      ShiftBack(u, axis, 0);
    }
  }

  /** Cutting a block in two along an axis and joining the two pieces
    * along the same axis gives back the block. */
  lemma {:induction false} JoinedOfPieces(blk: seq<real>, shape: seq<int>, axis: int, k: int)
    requires 0 <= axis < |shape| && NonNegative(shape) && 0 <= k <= shape[axis]
    requires |blk| == ShapeToArrayLength(shape)
    ensures Cuttable(shape, axis, 0, k) && Cuttable(shape, axis, k, shape[axis] - k)
    ensures Joinable(shape[axis := k], shape[axis := shape[axis] - k], axis)
    ensures JoinShape(shape[axis := k], shape[axis := shape[axis] - k], axis) == shape
    ensures Joined(Piece(blk, shape, axis, 0, k), shape[axis := k],
                   Piece(blk, shape, axis, k, shape[axis] - k), shape[axis := shape[axis] - k], axis) == blk
  {
    var fs, bs := shape[axis := k], shape[axis := shape[axis] - k];
    assert JoinShape(fs, bs, axis) == shape;
    var front := Piece(blk, shape, axis, 0, k);
    var back := Piece(blk, shape, axis, k, shape[axis] - k);
    FrontAgrees(blk, shape, axis, k);
    forall v | InBounds(bs, v)
      ensures InBounds(JoinShape(fs, bs, axis), Shift(v, axis, fs[axis]))
              && blk[Offset(JoinShape(fs, bs, axis), Shift(v, axis, fs[axis]))] == back[Offset(bs, v)]
    {
      PieceAt(blk, shape, axis, k, shape[axis] - k, v);
    }
    JoinedIs(front, fs, back, bs, axis, blk);
  }
}
