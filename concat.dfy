/** `NdArray.Concatenate`: two tensors side by side along one axis.
  *
  * The result has the first tensor's shape with the sizes along `axis`
  * added.  For every batch entry the first tensor's elements are copied to
  * their own tuples, and the second tensor's elements to their tuples moved
  * up by the first tensor's size along `axis`. */
module Concatenation {
  import opened Errors
  import opened Shapes
  import opened Blocks
  import opened Pieces
  import opened Tensors

  // ---------------------------------------------------------------------
  // The checks made before the result is allocated
  // ---------------------------------------------------------------------

  /** Axis `k` of `ashape` is `axis`, or exists in `bshape` with the same
    * size. */
  predicate AxisMatches(ashape: seq<int>, bshape: seq<int>, axis: int, k: int)
    requires 0 <= k < |ashape|
  {
    k != axis ==> k < |bshape| && ashape[k] == bshape[k]
  }

  /** Every axis of `ashape` other than `axis` exists in `bshape` with the
    * same size. */
  predicate SameOffAxis(ashape: seq<int>, bshape: seq<int>, axis: int)
  {
    forall k :: 0 <= k < |ashape| ==> AxisMatches(ashape, bshape, axis, k)
  }

  /** The size check from axis `i` on: the first axis other than `axis`
    * that `bshape` lacks fails reading it, the first that `bshape` sizes
    * differently fails with "Array sizes are not matched". */
  function SizeCheck(ashape: seq<int>, bshape: seq<int>, axis: int, i: nat): (r: Outcome)
    ensures r.Fail? ==> r.error == IndexOutOfRange || r.error == ArraySizeMismatch
    decreases |ashape| - i
  {
    if i >= |ashape| then Pass
    else if i != axis && i >= |bshape| then Fail(IndexOutOfRange)
    else if i != axis && ashape[i] != bshape[i] then Fail(ArraySizeMismatch)
    else SizeCheck(ashape, bshape, axis, i + 1)
  }

  /** The size check passes exactly when the remaining axes other than
    * `axis` all match. */
  lemma {:induction false} SizeCheckPass(ashape: seq<int>, bshape: seq<int>, axis: int, i: nat)
    ensures SizeCheck(ashape, bshape, axis, i).Pass? <==>
              forall k :: i <= k < |ashape| ==> AxisMatches(ashape, bshape, axis, k)
    decreases |ashape| - i
  {
    if i < |ashape| {
      SizeCheckPass(ashape, bshape, axis, i + 1);
      assert (forall k :: i <= k < |ashape| ==> AxisMatches(ashape, bshape, axis, k)) <==>
             AxisMatches(ashape, bshape, axis, i) && forall k :: i + 1 <= k < |ashape| ==> AxisMatches(ashape, bshape, axis, k);
    }
  }

  /** The first failing axis decides the error: reading past the end of
    * `bshape` when it is too short there, a size mismatch otherwise. */
  lemma {:induction false} SizeCheckFirst(ashape: seq<int>, bshape: seq<int>, axis: int, i: nat, k: int)
    requires i <= k < |ashape| && k != axis && (k >= |bshape| || ashape[k] != bshape[k])
    requires forall m :: i <= m < k ==> AxisMatches(ashape, bshape, axis, m)
    ensures SizeCheck(ashape, bshape, axis, i) == if k >= |bshape| then Fail(IndexOutOfRange) else Fail(ArraySizeMismatch)
    decreases k - i
  {
    if i < k {
      assert AxisMatches(ashape, bshape, axis, i);
      SizeCheckFirst(ashape, bshape, axis, i + 1, k);
    }
  }

  /** The `#if DEBUG` loop of `Concatenate` over the axes of the first
    * tensor. */
  method CheckSizes(ashape: seq<int>, bshape: seq<int>, axis: int) returns (r: Outcome)
    ensures r == SizeCheck(ashape, bshape, axis, 0)
  {
    var i := 0;
    while i < |ashape|
      invariant 0 <= i <= |ashape|
      invariant SizeCheck(ashape, bshape, axis, 0) == SizeCheck(ashape, bshape, axis, i)
    {
      if i != axis {
        if i >= |bshape| {
          return Fail(IndexOutOfRange);
        }
        if ashape[i] != bshape[i] {
          return Fail(ArraySizeMismatch);
        }
      }
      i := i + 1;
    }
    return Pass;
  }

  /** Everything `Concatenate` checks before it allocates, in its order:
    * `axis` indexes both shapes, the other sizes match, the batch counts
    * match. */
  function ConcatCheck(ashape: seq<int>, bshape: seq<int>, axis: int, an: int, bn: int): Outcome
  {
    if !(0 <= axis < |ashape|) || axis >= |bshape| then Fail(IndexOutOfRange)
    else if SizeCheck(ashape, bshape, axis, 0).Fail? then SizeCheck(ashape, bshape, axis, 0)
    else if an != bn then Fail(BatchMismatch)
    else Pass
  }

  /** The checks pass exactly for an axis of both shapes, matching other
    * sizes and matching batch counts; the second shape then has at least
    * as many axes as the first, and with as many axes it is the first shape
    * with its own size along `axis`. */
  lemma ConcatCheckPass(ashape: seq<int>, bshape: seq<int>, axis: int, an: int, bn: int)
    ensures ConcatCheck(ashape, bshape, axis, an, bn).Pass? <==>
              0 <= axis < |ashape| && axis < |bshape| && SameOffAxis(ashape, bshape, axis) && an == bn
    ensures ConcatCheck(ashape, bshape, axis, an, bn).Pass? ==>
              && |bshape| >= |ashape|
              && (|bshape| == |ashape| ==> bshape == ashape[axis := bshape[axis]])
  {
    SizeCheckPass(ashape, bshape, axis, 0);
    if ConcatCheck(ashape, bshape, axis, an, bn).Pass? {
      assert AxisMatches(ashape, bshape, axis, |ashape| - 1);
      if |bshape| == |ashape| {
        forall k | 0 <= k < |bshape|
          ensures bshape[k] == ashape[axis := bshape[axis]][k]
        {
          assert AxisMatches(ashape, bshape, axis, k);
        }
      }
    }
  }

  // ---------------------------------------------------------------------
  // Where the elements go
  // ---------------------------------------------------------------------

  /** Joinable shapes join into a shape of non-negative sizes. */
  lemma JoinNonNegative(ashape: seq<int>, bshape: seq<int>, axis: int)
    requires Joinable(ashape, bshape, axis)
    ensures NonNegative(JoinShape(ashape, bshape, axis))
  {
    var js := JoinShape(ashape, bshape, axis);
    assert forall k :: 0 <= k < |js| ==> js[k] == if k == axis then ashape[k] + bshape[k] else ashape[k];
  }

  /** After the checks pass, the first shape with the second's size along
    * `axis` can be joined to the first, and the joined shape and its length
    * are the ones `Concatenate` allocates. */
  lemma PassedShapes(ashape: seq<int>, bshape: seq<int>, axis: int, an: int, bn: int)
    requires NonNegative(ashape) && NonNegative(bshape)
    requires ConcatCheck(ashape, bshape, axis, an, bn).Pass?
    ensures 0 <= axis < |ashape| && axis < |bshape| && an == bn
    ensures |bshape| >= |ashape| && (|bshape| == |ashape| ==> bshape == ashape[axis := bshape[axis]])
    ensures Joinable(ashape, ashape[axis := bshape[axis]], axis)
    ensures ashape[axis := ashape[axis] + bshape[axis]] == JoinShape(ashape, ashape[axis := bshape[axis]], axis)
    ensures NonNegative(ashape[axis := ashape[axis] + bshape[axis]])
    ensures ShapeToArrayLength(ashape[axis := ashape[axis] + bshape[axis]])
            == ShapeToArrayLength(ashape) + ShapeToArrayLength(ashape[axis := bshape[axis]])
  {
    ConcatCheckPass(ashape, bshape, axis, an, bn);
    var bs := ashape[axis := bshape[axis]];
    assert forall k :: 0 <= k < |ashape| && k != axis ==> ashape[k] == bs[k];
    assert Joinable(ashape, bs, axis);
    JoinNonNegative(ashape, bs, axis);
    JoinLength(ashape, bs, axis);
  }

  /** Multiplication distributes over a sum. */
  lemma Distribute(x: int, y: int, z: int)
    ensures (x + y) * z == x * z + y * z
  {
  }

  /** The joined length is the sum of the two lengths. */
  lemma JoinLength(ashape: seq<int>, bshape: seq<int>, axis: int)
    requires Joinable(ashape, bshape, axis)
    ensures ShapeToArrayLength(JoinShape(ashape, bshape, axis))
            == ShapeToArrayLength(ashape) + ShapeToArrayLength(bshape)
  {
    var x, y := ashape[axis], bshape[axis];
    var rest := ShapeToArrayLength(RemoveAt(ashape, axis));
    assert JoinShape(ashape, bshape, axis) == ashape[axis := x + y];
    assert ashape[axis := x] == ashape;
    assert ashape[axis := y] == bshape;
    ProductAt(ashape, axis, x + y);
    ProductAt(ashape, axis, x);
    ProductAt(ashape, axis, y);
    Distribute(x, y, rest);
  }

  /** Flat position in the joined block of element `i` of the first block:
    * the offset of its own tuple. */
  function FrontDest(ashape: seq<int>, bshape: seq<int>, axis: int, i: int): (d: int)
    requires Joinable(ashape, bshape, axis) && 0 <= i < ShapeToArrayLength(ashape)
    ensures 0 <= d < ShapeToArrayLength(JoinShape(ashape, bshape, axis))
  {
    var u := Unflatten(ashape, i);
    assert InBounds(JoinShape(ashape, bshape, axis), u);
    Offset(JoinShape(ashape, bshape, axis), u)
  }

  /** Flat position in the joined block of element `i` of the second block:
    * the offset of its tuple moved up by the first block's size along
    * `axis`. */
  function BackDest(ashape: seq<int>, bshape: seq<int>, axis: int, i: int): (d: int)
    requires Joinable(ashape, bshape, axis) && 0 <= i < ShapeToArrayLength(bshape)
    ensures 0 <= d < ShapeToArrayLength(JoinShape(ashape, bshape, axis))
  {
    var w := Shift(Unflatten(bshape, i), axis, ashape[axis]);
    assert InBounds(JoinShape(ashape, bshape, axis), w);
    Offset(JoinShape(ashape, bshape, axis), w)
  }

  /** Flat position `x` of the joined block lies in the first block's part:
    * its tuple is below the first block's size along `axis`. */
  ghost predicate InFront(ashape: seq<int>, bshape: seq<int>, axis: int, x: int)
    requires Joinable(ashape, bshape, axis)
  {
    JoinNonNegative(ashape, bshape, axis);
    0 <= x < ShapeToArrayLength(JoinShape(ashape, bshape, axis))
    && Unflatten(JoinShape(ashape, bshape, axis), x)[axis] < ashape[axis]
  }

  /** Flat position `x` of the joined block lies in the second block's
    * part. */
  ghost predicate InBack(ashape: seq<int>, bshape: seq<int>, axis: int, x: int)
    requires Joinable(ashape, bshape, axis)
  {
    JoinNonNegative(ashape, bshape, axis);
    0 <= x < ShapeToArrayLength(JoinShape(ashape, bshape, axis))
    && Unflatten(JoinShape(ashape, bshape, axis), x)[axis] >= ashape[axis]
  }

  /** Element `i` of the first block lands in the first block's part, at
    * the offset of its own tuple. */
  lemma FrontPlace(ashape: seq<int>, bshape: seq<int>, axis: int, i: int)
    requires Joinable(ashape, bshape, axis) && 0 <= i < ShapeToArrayLength(ashape)
    ensures InBounds(ashape, Unflatten(ashape, i)) && Offset(ashape, Unflatten(ashape, i)) == i
    ensures Unflatten(JoinShape(ashape, bshape, axis), FrontDest(ashape, bshape, axis, i)) == Unflatten(ashape, i)
    ensures InFront(ashape, bshape, axis, FrontDest(ashape, bshape, axis, i))
    ensures !InBack(ashape, bshape, axis, FrontDest(ashape, bshape, axis, i))
  {
    var u := Unflatten(ashape, i);
    OffsetOfUnflatten(ashape, i);
    assert InBounds(JoinShape(ashape, bshape, axis), u);
    UnflattenOfOffset(JoinShape(ashape, bshape, axis), u);
  }

  /** The tuple of the position element `i` of the second block lands at is
    * its own tuple moved up along `axis`. */
  lemma BackLanding(ashape: seq<int>, bshape: seq<int>, axis: int, i: int)
    requires Joinable(ashape, bshape, axis) && 0 <= i < ShapeToArrayLength(bshape)
    ensures Offset(bshape, Unflatten(bshape, i)) == i
    ensures Unflatten(JoinShape(ashape, bshape, axis), BackDest(ashape, bshape, axis, i))
            == Shift(Unflatten(bshape, i), axis, ashape[axis])
  {
    BackPlace(ashape, bshape, axis, i);
  }

  /** Element `i` of the second block lands in the second block's part, at
    * the offset of its tuple moved up. */
  lemma BackPlace(ashape: seq<int>, bshape: seq<int>, axis: int, i: int)
    requires Joinable(ashape, bshape, axis) && 0 <= i < ShapeToArrayLength(bshape)
    ensures InBounds(bshape, Unflatten(bshape, i)) && Offset(bshape, Unflatten(bshape, i)) == i
    ensures Unflatten(JoinShape(ashape, bshape, axis), BackDest(ashape, bshape, axis, i))
            == Shift(Unflatten(bshape, i), axis, ashape[axis])
    ensures InBack(ashape, bshape, axis, BackDest(ashape, bshape, axis, i))
    ensures !InFront(ashape, bshape, axis, BackDest(ashape, bshape, axis, i))
  {
    var w := Shift(Unflatten(bshape, i), axis, ashape[axis]);
    OffsetOfUnflatten(bshape, i);
    assert InBounds(JoinShape(ashape, bshape, axis), w);
    UnflattenOfOffset(JoinShape(ashape, bshape, axis), w);
  }

  /** Different elements of the first block land at different positions. */
  lemma FrontApart(ashape: seq<int>, bshape: seq<int>, axis: int, k: int, i: int)
    requires Joinable(ashape, bshape, axis)
    requires 0 <= k < ShapeToArrayLength(ashape) && 0 <= i < ShapeToArrayLength(ashape)
    ensures FrontDest(ashape, bshape, axis, k) == FrontDest(ashape, bshape, axis, i) ==> k == i
  {
    FrontPlace(ashape, bshape, axis, k);
    FrontPlace(ashape, bshape, axis, i);
  }

  /** Different elements of the second block land at different positions. */
  lemma BackApart(ashape: seq<int>, bshape: seq<int>, axis: int, k: int, i: int)
    requires Joinable(ashape, bshape, axis)
    requires 0 <= k < ShapeToArrayLength(bshape) && 0 <= i < ShapeToArrayLength(bshape)
    ensures BackDest(ashape, bshape, axis, k) == BackDest(ashape, bshape, axis, i) ==> k == i
  {
    if BackDest(ashape, bshape, axis, k) == BackDest(ashape, bshape, axis, i) {
      BackSame(ashape, bshape, axis, k, i);
    }
  }

  /** Two elements of the second block landing at one position are one
    * element. */
  lemma BackSame(ashape: seq<int>, bshape: seq<int>, axis: int, k: int, i: int)
    requires Joinable(ashape, bshape, axis)
    requires 0 <= k < ShapeToArrayLength(bshape) && 0 <= i < ShapeToArrayLength(bshape)
    requires BackDest(ashape, bshape, axis, k) == BackDest(ashape, bshape, axis, i)
    ensures k == i
  {
    BackLanding(ashape, bshape, axis, k);
    BackLanding(ashape, bshape, axis, i);
    ShiftInjective(Unflatten(bshape, k), Unflatten(bshape, i), axis, ashape[axis]);
  }

  /** The element of the first block at tuple `u` lands at `u`. */
  lemma FrontTuple(ashape: seq<int>, bshape: seq<int>, axis: int, u: seq<int>)
    requires Joinable(ashape, bshape, axis) && InBounds(ashape, u)
    ensures 0 <= Offset(ashape, u) < ShapeToArrayLength(ashape)
    ensures InBounds(JoinShape(ashape, bshape, axis), u)
    ensures FrontDest(ashape, bshape, axis, Offset(ashape, u)) == Offset(JoinShape(ashape, bshape, axis), u)
  {
    UnflattenOfOffset(ashape, u);
  }

  /** The element of the second block at tuple `v` lands at `v` moved up. */
  lemma BackTuple(ashape: seq<int>, bshape: seq<int>, axis: int, v: seq<int>)
    requires Joinable(ashape, bshape, axis) && InBounds(bshape, v)
    ensures 0 <= Offset(bshape, v) < ShapeToArrayLength(bshape)
    ensures InBounds(JoinShape(ashape, bshape, axis), Shift(v, axis, ashape[axis]))
    ensures BackDest(ashape, bshape, axis, Offset(bshape, v))
            == Offset(JoinShape(ashape, bshape, axis), Shift(v, axis, ashape[axis]))
  {
    UnflattenOfOffset(bshape, v);
  }

  /** A block that holds every element of `ablk` where it lands and every
    * element of `bblk` where it lands is the two blocks joined. */
  lemma EntryJoined(r: seq<real>, ablk: seq<real>, ashape: seq<int>, bblk: seq<real>, bshape: seq<int>, axis: int)
    requires Joinable(ashape, bshape, axis)
    requires |ablk| == ShapeToArrayLength(ashape) && |bblk| == ShapeToArrayLength(bshape)
    requires |r| == ShapeToArrayLength(JoinShape(ashape, bshape, axis))
    requires forall k :: 0 <= k < |ablk| ==> r[FrontDest(ashape, bshape, axis, k)] == ablk[k]
    requires forall k :: 0 <= k < |bblk| ==> r[BackDest(ashape, bshape, axis, k)] == bblk[k]
    ensures Joined(ablk, ashape, bblk, bshape, axis) == r
  {
    var js := JoinShape(ashape, bshape, axis);
    forall u | InBounds(ashape, u)
      ensures InBounds(js, u) && r[Offset(js, u)] == ablk[Offset(ashape, u)]
    {
      FrontTuple(ashape, bshape, axis, u);
    }
    forall v | InBounds(bshape, v)
      ensures InBounds(js, Shift(v, axis, ashape[axis])) && r[Offset(js, Shift(v, axis, ashape[axis]))] == bblk[Offset(bshape, v)]
    {
      BackTuple(ashape, bshape, axis, v);
    }
    JoinedIs(ablk, ashape, bblk, bshape, axis, r);
  }

  // ---------------------------------------------------------------------
  // What the copy loops leave behind
  // ---------------------------------------------------------------------

  /** Where the elements of the first block land, in order. */
  function FrontDests(ashape: seq<int>, bshape: seq<int>, axis: int): (r: seq<int>)
    requires Joinable(ashape, bshape, axis)
    ensures |r| == ShapeToArrayLength(ashape)
    ensures forall k :: 0 <= k < |r| ==> r[k] == FrontDest(ashape, bshape, axis, k)
  {
    seq(ShapeToArrayLength(ashape), k requires 0 <= k < ShapeToArrayLength(ashape) => FrontDest(ashape, bshape, axis, k))
  }

  /** Where the elements of the second block land, in order. */
  function BackDests(ashape: seq<int>, bshape: seq<int>, axis: int): (r: seq<int>)
    requires Joinable(ashape, bshape, axis)
    ensures |r| == ShapeToArrayLength(bshape)
    ensures forall k :: 0 <= k < |r| ==> r[k] == BackDest(ashape, bshape, axis, k)
  {
    seq(ShapeToArrayLength(bshape), k requires 0 <= k < ShapeToArrayLength(bshape) => BackDest(ashape, bshape, axis, k))
  }

  /** The first `n` elements of `src` from `sbase` on sit in `d` at `rbase`
    * plus their destinations. */
  ghost predicate PlacedUpTo(d: seq<real>, src: seq<real>, dest: seq<int>, rbase: int, sbase: int, n: int)
  {
    && 0 <= n <= |dest| && 0 <= sbase && sbase + |dest| <= |src|
    && (forall k :: 0 <= k < |dest| ==> 0 <= rbase + dest[k] < |d|)
    && forall k :: 0 <= k < n ==> d[rbase + dest[k]] == src[sbase + k]
  }

  /** `d` agrees with `d0` at every position that is not `rbase` plus a
    * destination. */
  ghost predicate KeptOff(d: seq<real>, d0: seq<real>, dest: seq<int>, rbase: int)
  {
    && |d| == |d0|
    && forall x :: 0 <= x < |d| && x - rbase !in dest ==> d[x] == d0[x]
  }

  /** Destination `i` differs from every earlier one. */
  ghost predicate FreshDest(dest: seq<int>, i: int)
  {
    0 <= i < |dest| && forall k :: 0 <= k < i ==> dest[k] != dest[i]
  }

  /** Writing element `i` to a destination no earlier element used places
    * one more element. */
  lemma PlaceStep(d: seq<real>, d': seq<real>, src: seq<real>, dest: seq<int>, rbase: int, sbase: int, i: int)
    requires PlacedUpTo(d, src, dest, rbase, sbase, i) && FreshDest(dest, i)
    requires d' == d[rbase + dest[i] := src[sbase + i]]
    ensures PlacedUpTo(d', src, dest, rbase, sbase, i + 1)
  {
  }

  /** Writing at a destination keeps every other position. */
  lemma KeptStep(d0: seq<real>, d: seq<real>, d': seq<real>, dest: seq<int>, rbase: int, i: int, v: real)
    requires KeptOff(d, d0, dest, rbase) && 0 <= i < |dest| && 0 <= rbase + dest[i] < |d|
    requires d' == d[rbase + dest[i] := v]
    ensures KeptOff(d', d0, dest, rbase)
  {
    forall x | 0 <= x < |d'| && x - rbase !in dest
      ensures d'[x] == d0[x]
    {
      assert x != rbase + dest[i];
    }
  }

  /** Destinations all below `len` leave every position outside
    * `[rbase, rbase + len)` alone. */
  lemma KeptSlab(d: seq<real>, d0: seq<real>, dest: seq<int>, rbase: int, len: int)
    requires KeptOff(d, d0, dest, rbase) && forall k :: 0 <= k < |dest| ==> 0 <= dest[k] < len
    ensures SameOutside(d, d0, rbase, rbase + len)
  {
    forall x | 0 <= x < |d| && !(rbase <= x < rbase + len)
      ensures d[x] == d0[x]
    {
      assert x - rbase !in dest;
    }
  }

  /** Placed elements read back from the slice of `d` at `rbase`. */
  lemma PlacedSlice(d: seq<real>, src: seq<real>, dest: seq<int>, rbase: int, sbase: int, len: int)
    requires PlacedUpTo(d, src, dest, rbase, sbase, |dest|) && 0 <= rbase && rbase + len <= |d|
    requires forall k :: 0 <= k < |dest| ==> 0 <= dest[k] < len
    ensures forall k :: 0 <= k < |dest| ==> d[rbase .. rbase + len][dest[k]] == src[sbase .. sbase + |dest|][k]
  {
  }

  /** The first block's elements no element of the first block lands on
    * where the second block's do. */
  lemma FrontOffBack(ashape: seq<int>, bshape: seq<int>, axis: int)
    requires Joinable(ashape, bshape, axis)
    ensures forall k :: 0 <= k < ShapeToArrayLength(ashape) ==> FrontDests(ashape, bshape, axis)[k] !in BackDests(ashape, bshape, axis)
    ensures forall j :: 0 <= j < ShapeToArrayLength(bshape) ==> BackDests(ashape, bshape, axis)[j] !in FrontDests(ashape, bshape, axis)
  {
    var fd, bd := FrontDests(ashape, bshape, axis), BackDests(ashape, bshape, axis);
    forall k, j | 0 <= k < |fd| && 0 <= j < |bd|
      ensures fd[k] != bd[j]
    {
      FrontPlace(ashape, bshape, axis, k);
      BackPlace(ashape, bshape, axis, j);
    }
  }

  /** Every element of the first block sits where it lands. */
  ghost predicate FrontPlaced(d: seq<real>, src: seq<real>, ashape: seq<int>, bshape: seq<int>, axis: int,
                              rbase: int, sbase: int)
  {
    Joinable(ashape, bshape, axis)
    && PlacedUpTo(d, src, FrontDests(ashape, bshape, axis), rbase, sbase, ShapeToArrayLength(ashape))
  }

  /** Every element of the second block sits where it lands. */
  ghost predicate BackPlaced(d: seq<real>, src: seq<real>, ashape: seq<int>, bshape: seq<int>, axis: int,
                             rbase: int, sbase: int)
  {
    Joinable(ashape, bshape, axis)
    && PlacedUpTo(d, src, BackDests(ashape, bshape, axis), rbase, sbase, ShapeToArrayLength(bshape))
  }

  /** `d` agrees with `d0` outside `[lo, hi)`. */
  ghost predicate SameOutside(d: seq<real>, d0: seq<real>, lo: int, hi: int)
  {
    && |d| == |d0|
    && forall x :: 0 <= x < |d| && !(lo <= x < hi) ==> d[x] == d0[x]
  }

  /** Agreeing outside the same range is transitive. */
  lemma SameOutsideTrans(d2: seq<real>, d1: seq<real>, d0: seq<real>, lo: int, hi: int)
    requires SameOutside(d2, d1, lo, hi) && SameOutside(d1, d0, lo, hi)
    ensures SameOutside(d2, d0, lo, hi)
  {
  }

  /** Zeros from `lo` on, and only `[lo, hi)` changed: zeros from `hi` on. */
  lemma ZeroPast(d: seq<real>, d0: seq<real>, lo: int, hi: int)
    requires ZeroFrom(d0, lo) && SameOutside(d, d0, lo, hi) && 0 <= lo <= hi
    ensures ZeroFrom(d, hi)
  {
  }

  /** Every position from `from` on holds zero. */
  ghost predicate ZeroFrom(d: seq<real>, from: int)
  {
    forall x :: 0 <= from <= x < |d| ==> d[x] == 0.0
  }

  /** Batch entry `bb` of `dst` is batch entry `bb` of the first buffer
    * joined with batch entry `bb` of the second, or with zeros when the
    * second is not read (`useB` false). */
  ghost predicate EntryGlued(dst: seq<real>, asrc: seq<real>, bsrc: seq<real>, ashape: seq<int>, bshape: seq<int>,
                             axis: int, useB: bool, bb: int)
  {
    && Joinable(ashape, bshape, axis) && 0 <= bb
    && (JoinNonNegative(ashape, bshape, axis);
        && (bb + 1) * ShapeToArrayLength(JoinShape(ashape, bshape, axis)) <= |dst|
        && (bb + 1) * ShapeToArrayLength(ashape) <= |asrc|
        && (useB ==> (bb + 1) * ShapeToArrayLength(bshape) <= |bsrc|)
        && Slab(dst, bb, ShapeToArrayLength(JoinShape(ashape, bshape, axis)))
           == Joined(Slab(asrc, bb, ShapeToArrayLength(ashape)), ashape,
                     if useB then Slab(bsrc, bb, ShapeToArrayLength(bshape)) else ZeroBuffer(ShapeToArrayLength(bshape)),
                     bshape, axis))
  }

  /** The first `n` batch entries of `dst` are glued. */
  ghost predicate Glued(dst: seq<real>, asrc: seq<real>, bsrc: seq<real>, ashape: seq<int>, bshape: seq<int>,
                        axis: int, useB: bool, n: int)
  {
    forall c :: 0 <= c < n ==> EntryGlued(dst, asrc, bsrc, ashape, bshape, axis, useB, c)
  }

  /** The second block's copy loop leaves the first block's elements in
    * place. */
  lemma FrontSurvives(d: seq<real>, d0: seq<real>, src: seq<real>, ashape: seq<int>, bshape: seq<int>, axis: int,
                      rbase: int, sbase: int)
    requires FrontPlaced(d0, src, ashape, bshape, axis, rbase, sbase)
    requires KeptOff(d, d0, BackDests(ashape, bshape, axis), rbase)
    ensures FrontPlaced(d, src, ashape, bshape, axis, rbase, sbase)
  {
    var fd := FrontDests(ashape, bshape, axis);
    FrontOffBack(ashape, bshape, axis);
    forall k | 0 <= k < |fd|
      ensures d[rbase + fd[k]] == src[sbase + k]
    {
      assert (rbase + fd[k]) - rbase == fd[k];
    }
  }

  /** Where the second block is not copied, its part keeps the zeros the
    * result was allocated with. */
  lemma BackZero(d: seq<real>, d0: seq<real>, ashape: seq<int>, bshape: seq<int>, axis: int, rbase: int)
    requires Joinable(ashape, bshape, axis) && 0 <= rbase
    requires rbase + ShapeToArrayLength(JoinShape(ashape, bshape, axis)) <= |d0|
    requires ZeroFrom(d0, rbase) && KeptOff(d, d0, FrontDests(ashape, bshape, axis), rbase)
    ensures BackPlaced(d, ZeroBuffer(ShapeToArrayLength(bshape)), ashape, bshape, axis, rbase, 0)
  {
    var bd := BackDests(ashape, bshape, axis);
    FrontOffBack(ashape, bshape, axis);
    forall k | 0 <= k < |bd|
      ensures d[rbase + bd[k]] == 0.0
    {
      assert (rbase + bd[k]) - rbase == bd[k];
    }
  }

  /** Both blocks in place make the entry the two blocks joined. */
  lemma GlueEntry(d: seq<real>, asrc: seq<real>, bsrc: seq<real>, ashape: seq<int>, bshape: seq<int>, axis: int,
                  rbase: int, abase: int, bbase: int)
    requires FrontPlaced(d, asrc, ashape, bshape, axis, rbase, abase)
    requires BackPlaced(d, bsrc, ashape, bshape, axis, rbase, bbase)
    requires 0 <= rbase && rbase + ShapeToArrayLength(JoinShape(ashape, bshape, axis)) <= |d|
    ensures Joined(asrc[abase .. abase + ShapeToArrayLength(ashape)], ashape,
                   bsrc[bbase .. bbase + ShapeToArrayLength(bshape)], bshape, axis)
            == d[rbase .. rbase + ShapeToArrayLength(JoinShape(ashape, bshape, axis))]
  {
    JoinNonNegative(ashape, bshape, axis);
    var len := ShapeToArrayLength(JoinShape(ashape, bshape, axis));
    PlacedSlice(d, asrc, FrontDests(ashape, bshape, axis), rbase, abase, len);
    PlacedSlice(d, bsrc, BackDests(ashape, bshape, axis), rbase, bbase, len);
    GlueSlices(d[rbase .. rbase + len], asrc[abase .. abase + ShapeToArrayLength(ashape)],
               bsrc[bbase .. bbase + ShapeToArrayLength(bshape)], ashape, bshape, axis);
  }

  /** `GlueEntry` on the entry and the two blocks cut out. */
  lemma GlueSlices(r: seq<real>, ablk: seq<real>, bblk: seq<real>, ashape: seq<int>, bshape: seq<int>, axis: int)
    requires Joinable(ashape, bshape, axis)
    requires |ablk| == ShapeToArrayLength(ashape) && |bblk| == ShapeToArrayLength(bshape)
    requires |r| == ShapeToArrayLength(JoinShape(ashape, bshape, axis))
    requires forall k :: 0 <= k < |ablk| ==> r[FrontDests(ashape, bshape, axis)[k]] == ablk[k]
    requires forall k :: 0 <= k < |bblk| ==> r[BackDests(ashape, bshape, axis)[k]] == bblk[k]
    ensures Joined(ablk, ashape, bblk, bshape, axis) == r
  {
    var fd, bd := FrontDests(ashape, bshape, axis), BackDests(ashape, bshape, axis);
    forall k | 0 <= k < |ablk|
      ensures r[FrontDest(ashape, bshape, axis, k)] == ablk[k]
    {
      assert fd[k] == FrontDest(ashape, bshape, axis, k);
    }
    forall k | 0 <= k < |bblk|
      ensures r[BackDest(ashape, bshape, axis, k)] == bblk[k]
    {
      assert bd[k] == BackDest(ashape, bshape, axis, k);
    }
    EntryJoined(r, ablk, ashape, bblk, bshape, axis);
  }

  /** No element of the first block lands where an earlier one did. */
  lemma FrontFresh(ashape: seq<int>, bshape: seq<int>, axis: int, i: int)
    requires Joinable(ashape, bshape, axis) && 0 <= i < ShapeToArrayLength(ashape)
    ensures FreshDest(FrontDests(ashape, bshape, axis), i)
  {
    var fd := FrontDests(ashape, bshape, axis);
    forall k | 0 <= k < i
      ensures fd[k] != fd[i]
    {
      FrontApart(ashape, bshape, axis, k, i);
    }
  }

  /** No element of the second block lands where an earlier one did. */
  lemma BackFresh(ashape: seq<int>, bshape: seq<int>, axis: int, i: int)
    requires Joinable(ashape, bshape, axis) && 0 <= i < ShapeToArrayLength(bshape)
    ensures FreshDest(BackDests(ashape, bshape, axis), i)
  {
    var bd := BackDests(ashape, bshape, axis);
    forall k | 0 <= k < i
      ensures bd[k] != bd[i]
    {
      BackApart(ashape, bshape, axis, k, i);
    }
  }

  /** One more batch entry glued, the earlier ones left alone. */
  lemma GluedNext(d: seq<real>, d': seq<real>, asrc: seq<real>, bsrc: seq<real>, ashape: seq<int>, bshape: seq<int>,
                  axis: int, useB: bool, bb: int)
    requires Glued(d, asrc, bsrc, ashape, bshape, axis, useB, bb)
    requires EntryGlued(d', asrc, bsrc, ashape, bshape, axis, useB, bb)
    requires SameOutside(d', d, bb * ShapeToArrayLength(JoinShape(ashape, bshape, axis)),
                         bb * ShapeToArrayLength(JoinShape(ashape, bshape, axis)) + ShapeToArrayLength(JoinShape(ashape, bshape, axis)))
    ensures Glued(d', asrc, bsrc, ashape, bshape, axis, useB, bb + 1)
  {
    JoinNonNegative(ashape, bshape, axis);
    var rlen := ShapeToArrayLength(JoinShape(ashape, bshape, axis));
    forall c | 0 <= c < bb
      ensures EntryGlued(d', asrc, bsrc, ashape, bshape, axis, useB, c)
    {
      assert EntryGlued(d, asrc, bsrc, ashape, bshape, axis, useB, c);
      SlabKeep(d, d', rlen, bb, c);
    }
  }

  // ---------------------------------------------------------------------
  // The copy loops
  // ---------------------------------------------------------------------

  /** The tuple `GetDimensionsIndex` gives for element `i` of the first
    * block has the offset in the joined shape where that element lands. */
  lemma FrontDims(ashape: seq<int>, bshape: seq<int>, axis: int, i: int, dims: seq<int>)
    requires Joinable(ashape, bshape, axis) && 0 <= i < ShapeToArrayLength(ashape)
    requires dims == Unflatten(ashape, i % ShapeToArrayLength(ashape))
    ensures |dims| == |JoinShape(ashape, bshape, axis)|
    ensures Offset(JoinShape(ashape, bshape, axis), dims) == FrontDest(ashape, bshape, axis, i)
  {
    DivModUnique(0, ShapeToArrayLength(ashape), i);
    assert 0 * ShapeToArrayLength(ashape) + i == i;
    assert dims == Unflatten(ashape, i);
  }

  /** The tuple `GetDimensionsIndex` gives for element `i` of the second
    * block, moved up along `axis`, has the offset in the joined shape where
    * that element lands. */
  lemma BackDims(ashape: seq<int>, bshape: seq<int>, axis: int, i: int, w: seq<int>)
    requires Joinable(ashape, bshape, axis) && 0 <= i < ShapeToArrayLength(bshape)
    requires w == Unflatten(bshape, i % ShapeToArrayLength(bshape))
    ensures |w| == |JoinShape(ashape, bshape, axis)|
    ensures Offset(JoinShape(ashape, bshape, axis), Shift(w, axis, ashape[axis])) == BackDest(ashape, bshape, axis, i)
  {
    DivModUnique(0, ShapeToArrayLength(bshape), i);
    assert 0 * ShapeToArrayLength(bshape) + i == i;
    assert w == Unflatten(bshape, i);
  }

  /** `result.GetLocalIndex(batchCount, a.GetDimensionsIndex(i))`: where
    * element `i` of batch entry `bb` of the first tensor goes. */
  method FrontIndex(r: NdArray, a: NdArray, axis: int, bb: int, i: int, ghost bshape: seq<int>) returns (t: int)
    requires a.Shaped() && Joinable(a.Shape, bshape, axis) && r.Shape == JoinShape(a.Shape, bshape, axis)
    requires 0 <= i < a.Length
    ensures t == bb * r.Length + FrontDest(a.Shape, bshape, axis, i)
  {
    var found := a.GetDimensionsIndex(i);
    var dims := found.value;
    FrontDims(a.Shape, bshape, axis, i, dims);
    assert |dims| == |r.Shape|;
    t := r.GetLocalIndex(bb, dims);
    assert r.Shape[..|dims|] == r.Shape;
    assert LocalOffset(r.Shape, dims) == Offset(r.Shape, dims);
  }

  /** One pass of the first copy loop. */
  method PlaceFront(r: NdArray, a: NdArray, axis: int, bb: int, i: int, aoff: int, ghost bshape: seq<int>,
                    ghost fd: seq<int>, ghost rbase: int)
    requires a.Shaped() && r.Valid() && Joinable(a.Shape, bshape, axis)
    requires r.Shape == JoinShape(a.Shape, bshape, axis) && r.Length == ShapeToArrayLength(r.Shape)
    requires 0 <= i < a.Length && 0 <= aoff && aoff + a.Length <= a.Data.Length
    requires 0 <= bb * r.Length && bb * r.Length + r.Length <= r.Data.Length
    requires r.Data != a.Data && r.Data != a.Grad && r.Grad != a.Data && r.Grad != a.Grad
    modifies r.Data, r.Grad
    requires fd == FrontDests(a.Shape, bshape, axis) && rbase == bb * r.Length
    ensures |fd| == a.Length && fd[i] == FrontDest(a.Shape, bshape, axis, i)
    ensures r.Data[..] == old(r.Data[..])[rbase + fd[i] := a.Data[..][aoff + i]]
    ensures r.Grad[..] == old(r.Grad[..])[rbase + fd[i] := a.Grad[..][aoff + i]]
  {
    var t := FrontIndex(r, a, axis, bb, i, bshape);
    assert fd[i] == FrontDest(a.Shape, bshape, axis, i);
    r.Data[t] := a.Data[i + aoff];
    r.Grad[t] := a.Grad[i + aoff];
  }

  /** One pass of the first copy loop, with what it keeps true. */
  method FrontPass(r: NdArray, a: NdArray, axis: int, bb: int, i: int, aoff: int, ghost bshape: seq<int>,
                   ghost fd: seq<int>, ghost rbase: int, ghost d0: seq<real>, ghost g0: seq<real>)
    requires a.Shaped() && r.Valid() && Joinable(a.Shape, bshape, axis)
    requires r.Shape == JoinShape(a.Shape, bshape, axis) && r.Length == ShapeToArrayLength(r.Shape)
    requires 0 <= i < a.Length && 0 <= aoff && aoff + a.Length <= a.Data.Length
    requires rbase == bb * r.Length && 0 <= rbase && rbase + r.Length <= r.Data.Length
    requires r.Data != a.Data && r.Data != a.Grad && r.Grad != a.Data && r.Grad != a.Grad
    requires fd == FrontDests(a.Shape, bshape, axis)
    requires PlacedUpTo(r.Data[..], a.Data[..], fd, rbase, aoff, i) && KeptOff(r.Data[..], d0, fd, rbase)
    requires PlacedUpTo(r.Grad[..], a.Grad[..], fd, rbase, aoff, i) && KeptOff(r.Grad[..], g0, fd, rbase)
    modifies r.Data, r.Grad
    ensures PlacedUpTo(r.Data[..], a.Data[..], fd, rbase, aoff, i + 1) && KeptOff(r.Data[..], d0, fd, rbase)
    ensures PlacedUpTo(r.Grad[..], a.Grad[..], fd, rbase, aoff, i + 1) && KeptOff(r.Grad[..], g0, fd, rbase)
  {
    ghost var data, grad := r.Data[..], r.Grad[..];
    PlaceFront(r, a, axis, bb, i, aoff, bshape, fd, rbase);
    FrontFresh(a.Shape, bshape, axis, i);
    PlaceStep(data, r.Data[..], a.Data[..], fd, rbase, aoff, i);
    PlaceStep(grad, r.Grad[..], a.Grad[..], fd, rbase, aoff, i);
    KeptStep(d0, data, r.Data[..], fd, rbase, i, a.Data[aoff + i]);
    KeptStep(g0, grad, r.Grad[..], fd, rbase, i, a.Grad[aoff + i]);
  }

  /** The first copy loop of batch entry `bb`: every element of the first
    * tensor's entry to its own tuple of the result's entry, nothing outside
    * the first tensor's part touched. */
  method CopyFront(r: NdArray, a: NdArray, axis: int, bb: int, ghost bshape: seq<int>)
    requires a.Shaped() && r.Valid() && Joinable(a.Shape, bshape, axis)
    requires r.Shape == JoinShape(a.Shape, bshape, axis) && r.Length == ShapeToArrayLength(r.Shape)
    requires r.BatchCount == a.BatchCount && 0 <= bb < a.BatchCount
    requires r.Data != a.Data && r.Data != a.Grad && r.Grad != a.Data && r.Grad != a.Grad
    modifies r.Data, r.Grad
    ensures FrontPlaced(r.Data[..], a.Data[..], a.Shape, bshape, axis, bb * r.Length, bb * a.Length)
    ensures FrontPlaced(r.Grad[..], a.Grad[..], a.Shape, bshape, axis, bb * r.Length, bb * a.Length)
    ensures KeptOff(r.Data[..], old(r.Data[..]), FrontDests(a.Shape, bshape, axis), bb * r.Length)
    ensures KeptOff(r.Grad[..], old(r.Grad[..]), FrontDests(a.Shape, bshape, axis), bb * r.Length)
  {
    SlabInside(bb, a.BatchCount, a.Length);
    SlabInside(bb, r.BatchCount, r.Length);
    var aoff := bb * a.Length;
    ghost var rbase := bb * r.Length;
    ghost var fd := FrontDests(a.Shape, bshape, axis);
    var i := 0;
    while i < a.Length
      invariant 0 <= i <= a.Length
      invariant PlacedUpTo(r.Data[..], a.Data[..], fd, rbase, aoff, i)
      invariant PlacedUpTo(r.Grad[..], a.Grad[..], fd, rbase, aoff, i)
      invariant KeptOff(r.Data[..], old(r.Data[..]), fd, rbase)
      invariant KeptOff(r.Grad[..], old(r.Grad[..]), fd, rbase)
    {
      FrontPass(r, a, axis, bb, i, aoff, bshape, fd, rbase, old(r.Data[..]), old(r.Grad[..]));
      i := i + 1;
    }
  }

  /** `tmpIndex = b.GetDimensionsIndex(i); tmpIndex[axis] += a.Shape[axis];
    * result.GetLocalIndex(batchCount, tmpIndex)`: where element `i` of batch
    * entry `bb` of the second tensor goes. */
  method BackIndex(r: NdArray, a: NdArray, b: NdArray, axis: int, bb: int, i: int) returns (t: int)
    requires b.Shaped() && Joinable(a.Shape, b.Shape, axis) && r.Shape == JoinShape(a.Shape, b.Shape, axis)
    requires 0 <= i < b.Length
    ensures t == bb * r.Length + BackDest(a.Shape, b.Shape, axis, i)
  {
    var found := b.GetDimensionsIndex(i);
    var tmpIndex := found.value;
    BackDims(a.Shape, b.Shape, axis, i, tmpIndex);
    tmpIndex := Shift(tmpIndex, axis, a.Shape[axis]);
    assert |tmpIndex| == |r.Shape|;
    t := r.GetLocalIndex(bb, tmpIndex);
    assert r.Shape[..|tmpIndex|] == r.Shape;
    assert LocalOffset(r.Shape, tmpIndex) == Offset(r.Shape, tmpIndex);
  }

  /** One pass of the second copy loop. */
  method PlaceBack(r: NdArray, a: NdArray, b: NdArray, axis: int, bb: int, i: int, boff: int,
                   ghost bd: seq<int>, ghost rbase: int)
    requires b.Shaped() && r.Valid() && Joinable(a.Shape, b.Shape, axis)
    requires r.Shape == JoinShape(a.Shape, b.Shape, axis) && r.Length == ShapeToArrayLength(r.Shape)
    requires 0 <= i < b.Length && 0 <= boff && boff + b.Length <= b.Data.Length
    requires 0 <= bb * r.Length && bb * r.Length + r.Length <= r.Data.Length
    requires r.Data != b.Data && r.Data != b.Grad && r.Grad != b.Data && r.Grad != b.Grad
    modifies r.Data, r.Grad
    requires bd == BackDests(a.Shape, b.Shape, axis) && rbase == bb * r.Length
    ensures |bd| == b.Length && bd[i] == BackDest(a.Shape, b.Shape, axis, i)
    ensures r.Data[..] == old(r.Data[..])[rbase + bd[i] := b.Data[..][boff + i]]
    ensures r.Grad[..] == old(r.Grad[..])[rbase + bd[i] := b.Grad[..][boff + i]]
  {
    var t := BackIndex(r, a, b, axis, bb, i);
    assert bd[i] == BackDest(a.Shape, b.Shape, axis, i);
    r.Data[t] := b.Data[i + boff];
    r.Grad[t] := b.Grad[i + boff];
  }

  /** One pass of the second copy loop, with what it keeps true. */
  method BackPass(r: NdArray, a: NdArray, b: NdArray, axis: int, bb: int, i: int, boff: int,
                  ghost bd: seq<int>, ghost rbase: int, ghost d0: seq<real>, ghost g0: seq<real>)
    requires b.Shaped() && r.Valid() && Joinable(a.Shape, b.Shape, axis)
    requires r.Shape == JoinShape(a.Shape, b.Shape, axis) && r.Length == ShapeToArrayLength(r.Shape)
    requires 0 <= i < b.Length && 0 <= boff && boff + b.Length <= b.Data.Length
    requires rbase == bb * r.Length && 0 <= rbase && rbase + r.Length <= r.Data.Length
    requires r.Data != b.Data && r.Data != b.Grad && r.Grad != b.Data && r.Grad != b.Grad
    requires bd == BackDests(a.Shape, b.Shape, axis)
    requires PlacedUpTo(r.Data[..], b.Data[..], bd, rbase, boff, i)
    requires PlacedUpTo(r.Grad[..], b.Grad[..], bd, rbase, boff, i)
    requires KeptOff(r.Data[..], d0, bd, rbase)
    requires KeptOff(r.Grad[..], g0, bd, rbase)
    modifies r.Data, r.Grad
    ensures PlacedUpTo(r.Data[..], b.Data[..], bd, rbase, boff, i + 1)
    ensures PlacedUpTo(r.Grad[..], b.Grad[..], bd, rbase, boff, i + 1)
    ensures KeptOff(r.Data[..], d0, bd, rbase)
    ensures KeptOff(r.Grad[..], g0, bd, rbase)
  {
    ghost var data, grad := r.Data[..], r.Grad[..];
    PlaceBack(r, a, b, axis, bb, i, boff, bd, rbase);
    BackFresh(a.Shape, b.Shape, axis, i);
    PlaceStep(data, r.Data[..], b.Data[..], bd, rbase, boff, i);
    PlaceStep(grad, r.Grad[..], b.Grad[..], bd, rbase, boff, i);
    KeptStep(d0, data, r.Data[..], bd, rbase, i, b.Data[boff + i]);
    KeptStep(g0, grad, r.Grad[..], bd, rbase, i, b.Grad[boff + i]);
  }

  /** The second copy loop of batch entry `bb`: every element of the second
    * tensor's entry to its tuple moved up along `axis`, nothing outside the
    * second tensor's part touched. */
  method CopyBack(r: NdArray, a: NdArray, b: NdArray, axis: int, bb: int)
    requires b.Shaped() && r.Valid() && Joinable(a.Shape, b.Shape, axis)
    requires r.Shape == JoinShape(a.Shape, b.Shape, axis) && r.Length == ShapeToArrayLength(r.Shape)
    requires r.BatchCount == b.BatchCount && 0 <= bb < b.BatchCount
    requires r.Data != b.Data && r.Data != b.Grad && r.Grad != b.Data && r.Grad != b.Grad
    modifies r.Data, r.Grad
    ensures BackPlaced(r.Data[..], b.Data[..], a.Shape, b.Shape, axis, bb * r.Length, bb * b.Length)
    ensures BackPlaced(r.Grad[..], b.Grad[..], a.Shape, b.Shape, axis, bb * r.Length, bb * b.Length)
    ensures KeptOff(r.Data[..], old(r.Data[..]), BackDests(a.Shape, b.Shape, axis), bb * r.Length)
    ensures KeptOff(r.Grad[..], old(r.Grad[..]), BackDests(a.Shape, b.Shape, axis), bb * r.Length)
  {
    SlabInside(bb, b.BatchCount, b.Length);
    SlabInside(bb, r.BatchCount, r.Length);
    var boff := bb * b.Length;
    ghost var rbase := bb * r.Length;
    ghost var bd := BackDests(a.Shape, b.Shape, axis);
    var i := 0;
    while i < b.Length
      invariant 0 <= i <= b.Length
      invariant PlacedUpTo(r.Data[..], b.Data[..], bd, rbase, boff, i)
      invariant PlacedUpTo(r.Grad[..], b.Grad[..], bd, rbase, boff, i)
      invariant KeptOff(r.Data[..], old(r.Data[..]), bd, rbase)
      invariant KeptOff(r.Grad[..], old(r.Grad[..]), bd, rbase)
    {
      BackPass(r, a, b, axis, bb, i, boff, bd, rbase, old(r.Data[..]), old(r.Grad[..]));
      i := i + 1;
    }
  }

  // ---------------------------------------------------------------------
  // One batch entry, all batch entries, and Concatenate itself
  // ---------------------------------------------------------------------

  /** The slice of a whole buffer is the buffer. */
  lemma WholeSlice(s: seq<real>)
    ensures s == s[0 .. |s|]
  {
  }

  /** Batch entry `bb` is glued when its three slabs, named `ds`, `aslab` and
    * `os`, are joined. */
  lemma GluedFromSlices(d: seq<real>, asrc: seq<real>, bsrc: seq<real>, ashape: seq<int>, bshape: seq<int>,
                        axis: int, useB: bool, bb: int, ds: seq<real>, aslab: seq<real>, os: seq<real>)
    requires Joinable(ashape, bshape, axis) && 0 <= bb
    requires 0 <= ShapeToArrayLength(ashape) && 0 <= ShapeToArrayLength(bshape)
    requires 0 <= ShapeToArrayLength(JoinShape(ashape, bshape, axis))
    requires (bb + 1) * ShapeToArrayLength(JoinShape(ashape, bshape, axis)) <= |d|
    requires (bb + 1) * ShapeToArrayLength(ashape) <= |asrc|
    requires useB ==> (bb + 1) * ShapeToArrayLength(bshape) <= |bsrc|
    requires Slab(d, bb, ShapeToArrayLength(JoinShape(ashape, bshape, axis))) == ds
    requires Slab(asrc, bb, ShapeToArrayLength(ashape)) == aslab
    requires useB ==> Slab(bsrc, bb, ShapeToArrayLength(bshape)) == os
    requires !useB ==> ZeroBuffer(ShapeToArrayLength(bshape)) == os
    requires Joined(aslab, ashape, os, bshape, axis) == ds
    ensures EntryGlued(d, asrc, bsrc, ashape, bshape, axis, useB, bb)
  {
  }

  /** Both blocks placed make batch entry `bb` glued.  Without `useB` the
    * second block's part is compared with zeros: `other` is the buffer the
    * second block is placed from, starting at `ob`. */
  lemma EntryFromPlaced(d: seq<real>, asrc: seq<real>, bsrc: seq<real>, ashape: seq<int>, bshape: seq<int>,
                        axis: int, useB: bool, bb: int, n: int, rbase: int, abase: int, other: seq<real>, ob: int)
    requires Joinable(ashape, bshape, axis) && 0 <= bb < n
    requires |d| == n * ShapeToArrayLength(JoinShape(ashape, bshape, axis))
    requires |asrc| == n * ShapeToArrayLength(ashape)
    requires useB ==> |bsrc| == n * ShapeToArrayLength(bshape)
    requires rbase == bb * ShapeToArrayLength(JoinShape(ashape, bshape, axis)) && abase == bb * ShapeToArrayLength(ashape)
    requires ShapeToArrayLength(bshape) >= 0
    requires other == if useB then bsrc else ZeroBuffer(ShapeToArrayLength(bshape))
    requires ob == if useB then bb * ShapeToArrayLength(bshape) else 0
    requires FrontPlaced(d, asrc, ashape, bshape, axis, rbase, abase)
    requires BackPlaced(d, other, ashape, bshape, axis, rbase, ob)
    ensures EntryGlued(d, asrc, bsrc, ashape, bshape, axis, useB, bb)
  {
    if useB {
      EntryFromBoth(d, asrc, bsrc, ashape, bshape, axis, bb, n, rbase, abase, ob);
    } else {
      EntryFromFront(d, asrc, bsrc, ashape, bshape, axis, bb, n, rbase, abase);
    }
  }

  /** `EntryFromPlaced` when the second block is read. */
  lemma EntryFromBoth(d: seq<real>, asrc: seq<real>, bsrc: seq<real>, ashape: seq<int>, bshape: seq<int>,
                      axis: int, bb: int, n: int, rbase: int, abase: int, ob: int)
    requires Joinable(ashape, bshape, axis) && 0 <= bb < n
    requires |d| == n * ShapeToArrayLength(JoinShape(ashape, bshape, axis))
    requires |asrc| == n * ShapeToArrayLength(ashape)
    requires rbase == bb * ShapeToArrayLength(JoinShape(ashape, bshape, axis)) && abase == bb * ShapeToArrayLength(ashape)
    requires ShapeToArrayLength(bshape) >= 0
    requires FrontPlaced(d, asrc, ashape, bshape, axis, rbase, abase)
    requires |bsrc| == n * ShapeToArrayLength(bshape) && ob == bb * ShapeToArrayLength(bshape)
    requires BackPlaced(d, bsrc, ashape, bshape, axis, rbase, ob)
    ensures EntryGlued(d, asrc, bsrc, ashape, bshape, axis, true, bb)
  {
    JoinNonNegative(ashape, bshape, axis);
    SlabInside(bb, n, ShapeToArrayLength(ashape));
    SlabInside(bb, n, ShapeToArrayLength(bshape));
    SlabInside(bb, n, ShapeToArrayLength(JoinShape(ashape, bshape, axis)));
    SlabAt(d, bb, ShapeToArrayLength(JoinShape(ashape, bshape, axis)), rbase);
    SlabAt(asrc, bb, ShapeToArrayLength(ashape), abase);
    GlueEntry(d, asrc, bsrc, ashape, bshape, axis, rbase, abase, ob);
    SlabAt(bsrc, bb, ShapeToArrayLength(bshape), ob);
    assert Joined(asrc[abase .. abase + ShapeToArrayLength(ashape)], ashape,
                  bsrc[ob .. ob + ShapeToArrayLength(bshape)], bshape, axis)
        == d[rbase .. rbase + ShapeToArrayLength(JoinShape(ashape, bshape, axis))];
    GluedFromSlices(d, asrc, bsrc, ashape, bshape, axis, true, bb,
                    d[rbase .. rbase + ShapeToArrayLength(JoinShape(ashape, bshape, axis))],
                    asrc[abase .. abase + ShapeToArrayLength(ashape)],
                    bsrc[ob .. ob + ShapeToArrayLength(bshape)]);
  }

  /** `EntryFromPlaced` when the second block's part is left at zeros. */
  lemma EntryFromFront(d: seq<real>, asrc: seq<real>, bsrc: seq<real>, ashape: seq<int>, bshape: seq<int>,
                       axis: int, bb: int, n: int, rbase: int, abase: int)
    requires Joinable(ashape, bshape, axis) && 0 <= bb < n
    requires |d| == n * ShapeToArrayLength(JoinShape(ashape, bshape, axis))
    requires |asrc| == n * ShapeToArrayLength(ashape)
    requires rbase == bb * ShapeToArrayLength(JoinShape(ashape, bshape, axis)) && abase == bb * ShapeToArrayLength(ashape)
    requires ShapeToArrayLength(bshape) >= 0
    requires FrontPlaced(d, asrc, ashape, bshape, axis, rbase, abase)
    requires BackPlaced(d, ZeroBuffer(ShapeToArrayLength(bshape)), ashape, bshape, axis, rbase, 0)
    ensures EntryGlued(d, asrc, bsrc, ashape, bshape, axis, false, bb)
  {
    JoinNonNegative(ashape, bshape, axis);
    SlabInside(bb, n, ShapeToArrayLength(ashape));
    SlabInside(bb, n, ShapeToArrayLength(JoinShape(ashape, bshape, axis)));
    SlabAt(d, bb, ShapeToArrayLength(JoinShape(ashape, bshape, axis)), rbase);
    SlabAt(asrc, bb, ShapeToArrayLength(ashape), abase);
    GlueEntry(d, asrc, ZeroBuffer(ShapeToArrayLength(bshape)), ashape, bshape, axis, rbase, abase, 0);
    WholeSlice(ZeroBuffer(ShapeToArrayLength(bshape)));
    assert Joined(asrc[abase .. abase + ShapeToArrayLength(ashape)], ashape,
                  ZeroBuffer(ShapeToArrayLength(bshape))[0 .. ShapeToArrayLength(bshape)], bshape, axis)
        == d[rbase .. rbase + ShapeToArrayLength(JoinShape(ashape, bshape, axis))];
    GluedFromSlices(d, asrc, bsrc, ashape, bshape, axis, false, bb,
                    d[rbase .. rbase + ShapeToArrayLength(JoinShape(ashape, bshape, axis))],
                    asrc[abase .. abase + ShapeToArrayLength(ashape)],
                    ZeroBuffer(ShapeToArrayLength(bshape))[0 .. ShapeToArrayLength(bshape)]);
  }


  /** Both copy loops of `Concatenate` for batch entry `bb`.  With a second
    * tensor of more axes than the first, the second loop fails on its first
    * element; `bshape` is the second tensor's shape as the first tensor's
    * axes see it.  Without the second tensor's axes matching, its part is
    * left at the zeros it was allocated with. */
  method CopyEntry(r: NdArray, a: NdArray, b: NdArray, axis: int, bb: int, ghost bshape: seq<int>) returns (ok: bool)
    requires a.Shaped() && b.Shaped() && r.Valid() && Joinable(a.Shape, bshape, axis)
    requires |b.Shape| >= |a.Shape| && bshape == a.Shape[axis := b.Shape[axis]]
    requires |b.Shape| == |a.Shape| ==> b.Shape == bshape
    requires r.Shape == JoinShape(a.Shape, bshape, axis) && r.Length == ShapeToArrayLength(r.Shape)
    requires r.BatchCount == a.BatchCount == b.BatchCount && 0 <= bb < a.BatchCount
    requires r.Data != a.Data && r.Data != a.Grad && r.Grad != a.Data && r.Grad != a.Grad
    requires r.Data != b.Data && r.Data != b.Grad && r.Grad != b.Data && r.Grad != b.Grad
    requires ZeroFrom(r.Data[..], bb * r.Length) && ZeroFrom(r.Grad[..], bb * r.Length)
    modifies r.Data, r.Grad
    ensures ok <==> !(b.Length > 0 && |b.Shape| > |a.Shape|)
    ensures ok ==> FrontPlaced(r.Data[..], a.Data[..], a.Shape, bshape, axis, bb * r.Length, bb * a.Length)
    ensures ok ==> FrontPlaced(r.Grad[..], a.Grad[..], a.Shape, bshape, axis, bb * r.Length, bb * a.Length)
    ensures ok ==> BackPlaced(r.Data[..], if |b.Shape| == |a.Shape| then b.Data[..] else ZeroBuffer(ShapeToArrayLength(bshape)),
                              a.Shape, bshape, axis, bb * r.Length, if |b.Shape| == |a.Shape| then bb * b.Length else 0)
    ensures ok ==> BackPlaced(r.Grad[..], if |b.Shape| == |a.Shape| then b.Grad[..] else ZeroBuffer(ShapeToArrayLength(bshape)),
                              a.Shape, bshape, axis, bb * r.Length, if |b.Shape| == |a.Shape| then bb * b.Length else 0)
    ensures SameOutside(r.Data[..], old(r.Data[..]), bb * r.Length, bb * r.Length + r.Length)
    ensures SameOutside(r.Grad[..], old(r.Grad[..]), bb * r.Length, bb * r.Length + r.Length)
  {
    JoinNonNegative(a.Shape, bshape, axis);
    SlabInside(bb, r.BatchCount, r.Length);
    ghost var rbase, abase := bb * r.Length, bb * a.Length;
    ghost var fd, bd := FrontDests(a.Shape, bshape, axis), BackDests(a.Shape, bshape, axis);
    CopyFront(r, a, axis, bb, bshape);
    KeptSlab(r.Data[..], old(r.Data[..]), fd, rbase, r.Length);
    KeptSlab(r.Grad[..], old(r.Grad[..]), fd, rbase, r.Length);
    if b.Length > 0 {
      if |b.Shape| > |a.Shape| {
        return false;
      }
      ghost var d1, g1 := r.Data[..], r.Grad[..];
      CopyBack(r, a, b, axis, bb);
      KeptSlab(r.Data[..], d1, bd, rbase, r.Length);
      KeptSlab(r.Grad[..], g1, bd, rbase, r.Length);
      SameOutsideTrans(r.Data[..], d1, old(r.Data[..]), rbase, rbase + r.Length);
      SameOutsideTrans(r.Grad[..], g1, old(r.Grad[..]), rbase, rbase + r.Length);
      FrontSurvives(r.Data[..], d1, a.Data[..], a.Shape, bshape, axis, rbase, abase);
      FrontSurvives(r.Grad[..], g1, a.Grad[..], a.Shape, bshape, axis, rbase, abase);
    } else {
      BackZero(r.Data[..], old(r.Data[..]), a.Shape, bshape, axis, rbase);
      BackZero(r.Grad[..], old(r.Grad[..]), a.Shape, bshape, axis, rbase);
      if |b.Shape| == |a.Shape| {
        SlabInside(bb, b.BatchCount, b.Length);
        assert BackPlaced(r.Data[..], b.Data[..], a.Shape, bshape, axis, rbase, bb * b.Length);
        assert BackPlaced(r.Grad[..], b.Grad[..], a.Shape, bshape, axis, rbase, bb * b.Length);
      }
    }
    ok := true;
  }

  /** One iteration of `Concatenate`'s batch loop: batch entry `bb` of the
    * result becomes the two tensors' entries joined (the second read only
    * when its axes match the first's), or the loop fails. */
  method JoinEntry(r: NdArray, a: NdArray, b: NdArray, axis: int, bb: int, ghost bshape: seq<int>) returns (ok: bool)
    requires a.Shaped() && b.Shaped() && r.Valid() && Joinable(a.Shape, bshape, axis)
    requires |b.Shape| >= |a.Shape| && bshape == a.Shape[axis := b.Shape[axis]]
    requires |b.Shape| == |a.Shape| ==> b.Shape == bshape
    requires r.Shape == JoinShape(a.Shape, bshape, axis) && r.Length == ShapeToArrayLength(r.Shape)
    requires r.BatchCount == a.BatchCount == b.BatchCount && 0 <= bb < a.BatchCount
    requires r.Data != a.Data && r.Data != a.Grad && r.Grad != a.Data && r.Grad != a.Grad
    requires r.Data != b.Data && r.Data != b.Grad && r.Grad != b.Data && r.Grad != b.Grad
    requires ZeroFrom(r.Data[..], bb * r.Length) && ZeroFrom(r.Grad[..], bb * r.Length)
    modifies r.Data, r.Grad
    ensures ok <==> !(b.Length > 0 && |b.Shape| > |a.Shape|)
    ensures ok ==> EntryGlued(r.Data[..], a.Data[..], b.Data[..], a.Shape, bshape, axis, |b.Shape| == |a.Shape|, bb)
    ensures ok ==> EntryGlued(r.Grad[..], a.Grad[..], b.Grad[..], a.Shape, bshape, axis, |b.Shape| == |a.Shape|, bb)
    ensures SameOutside(r.Data[..], old(r.Data[..]), bb * r.Length, bb * r.Length + r.Length)
    ensures SameOutside(r.Grad[..], old(r.Grad[..]), bb * r.Length, bb * r.Length + r.Length)
  {
    ok := CopyEntry(r, a, b, axis, bb, bshape);
    if ok {
      JoinNonNegative(a.Shape, bshape, axis);
      ghost var useB := |b.Shape| == |a.Shape|;
      ghost var blen := ShapeToArrayLength(bshape);
      ghost var od := if useB then b.Data[..] else ZeroBuffer(blen);
      ghost var og := if useB then b.Grad[..] else ZeroBuffer(blen);
      ghost var ob := if useB then bb * b.Length else 0;
      ghost var rbase, abase := bb * r.Length, bb * a.Length;
      SlabInside(bb, r.BatchCount, r.Length);
      SlabInside(bb, r.BatchCount, a.Length);
      SlabInside(bb, r.BatchCount, b.Length);
      assert |r.Data[..]| == r.BatchCount * r.Length && |r.Grad[..]| == r.BatchCount * r.Length;
      assert |a.Data[..]| == r.BatchCount * a.Length && |a.Grad[..]| == r.BatchCount * a.Length;
      assert useB ==> b.Length == blen;
      assert |b.Data[..]| == r.BatchCount * b.Length && |b.Grad[..]| == r.BatchCount * b.Length;
      EntryFromPlaced(r.Data[..], a.Data[..], b.Data[..], a.Shape, bshape, axis, useB, bb, r.BatchCount, rbase, abase, od, ob);
      EntryFromPlaced(r.Grad[..], a.Grad[..], b.Grad[..], a.Shape, bshape, axis, useB, bb, r.BatchCount, rbase, abase, og, ob);
    }
  }

  /** `Concatenate`'s batch loop over a freshly zeroed result. */
  method JoinEntries(r: NdArray, a: NdArray, b: NdArray, axis: int, ghost bshape: seq<int>) returns (ok: bool)
    requires a.Shaped() && b.Shaped() && r.Valid() && Joinable(a.Shape, bshape, axis)
    requires |b.Shape| >= |a.Shape| && bshape == a.Shape[axis := b.Shape[axis]]
    requires |b.Shape| == |a.Shape| ==> b.Shape == bshape
    requires r.Shape == JoinShape(a.Shape, bshape, axis) && r.Length == ShapeToArrayLength(r.Shape)
    requires r.BatchCount == a.BatchCount == b.BatchCount
    requires r.Data != a.Data && r.Data != a.Grad && r.Grad != a.Data && r.Grad != a.Grad
    requires r.Data != b.Data && r.Data != b.Grad && r.Grad != b.Data && r.Grad != b.Grad
    requires ZeroFrom(r.Data[..], 0) && ZeroFrom(r.Grad[..], 0)
    modifies r.Data, r.Grad
    ensures ok <==> !(a.BatchCount > 0 && b.Length > 0 && |b.Shape| > |a.Shape|)
    ensures ok ==> Glued(r.Data[..], a.Data[..], b.Data[..], a.Shape, bshape, axis, |b.Shape| == |a.Shape|, a.BatchCount)
    ensures ok ==> Glued(r.Grad[..], a.Grad[..], b.Grad[..], a.Shape, bshape, axis, |b.Shape| == |a.Shape|, a.BatchCount)
  {
    ghost var useB := |b.Shape| == |a.Shape|;
    var bb := 0;
    while bb < a.BatchCount
      invariant 0 <= bb <= a.BatchCount
      invariant bb > 0 ==> !(b.Length > 0 && |b.Shape| > |a.Shape|)
      invariant Glued(r.Data[..], a.Data[..], b.Data[..], a.Shape, bshape, axis, useB, bb)
      invariant Glued(r.Grad[..], a.Grad[..], b.Grad[..], a.Shape, bshape, axis, useB, bb)
      invariant ZeroFrom(r.Data[..], bb * r.Length) && ZeroFrom(r.Grad[..], bb * r.Length)
    {
      ghost var d0, g0 := r.Data[..], r.Grad[..];
      var entryOk := JoinEntry(r, a, b, axis, bb, bshape);
      if !entryOk {
        return false;
      }
      GluedNext(d0, r.Data[..], a.Data[..], b.Data[..], a.Shape, bshape, axis, useB, bb);
      GluedNext(g0, r.Grad[..], a.Grad[..], b.Grad[..], a.Shape, bshape, axis, useB, bb);
      SlabInside(bb, r.BatchCount, r.Length);
      ZeroPast(r.Data[..], d0, bb * r.Length, bb * r.Length + r.Length);
      ZeroPast(r.Grad[..], g0, bb * r.Length, bb * r.Length + r.Length);
      bb := bb + 1;
    }
    ok := true;
  }

  /** `new NdArray(shapeList.ToArray(), a.BatchCount)`: the zeroed result
    * of the joined shape. */
  method AllocateJoined(shape: seq<int>, batchCount: int) returns (result: NdArray)
    requires NonNegative(shape) && batchCount >= 0
    ensures fresh(result) && fresh(result.Data) && fresh(result.Grad)
    ensures result.Shaped() && result.Shape == shape && result.BatchCount == batchCount
    ensures result.UseCount == 0 && result.TrainCount == 0
    ensures ZeroFrom(result.Data[..], 0) && ZeroFrom(result.Grad[..], 0)
  {
    MulMono(0, ShapeToArrayLength(shape), batchCount);
    result := new NdArray.Allocate(shape, batchCount);
  }

  /** What `Concatenate` does once its checks pass: allocate the result of
    * the joined shape and run the batch loop. */
  method JoinChecked(a: NdArray, b: NdArray, axis: int) returns (r: Result<NdArray>)
    requires a.Shaped() && b.Shaped()
    requires ConcatCheck(a.Shape, b.Shape, axis, a.BatchCount, b.BatchCount).Pass?
    ensures r.Ok? <==> !(a.BatchCount > 0 && b.Length > 0 && |b.Shape| > |a.Shape|)
    ensures r.Err? ==> r.error == IndexOutOfRange
    ensures r.Ok? ==> fresh(r.value) && fresh(r.value.Data) && fresh(r.value.Grad) && r.value.Shaped()
    ensures r.Ok? ==> r.value.Shape == a.Shape[axis := a.Shape[axis] + b.Shape[axis]]
    ensures r.Ok? ==> r.value.Length == a.Length + ShapeToArrayLength(a.Shape[axis := b.Shape[axis]])
    ensures r.Ok? && |b.Shape| == |a.Shape| ==> r.value.Length == a.Length + b.Length
    ensures r.Ok? ==> r.value.BatchCount == a.BatchCount && r.value.UseCount == 0 && r.value.TrainCount == 0
    ensures r.Ok? ==> Glued(r.value.Data[..], a.Data[..], b.Data[..], a.Shape, a.Shape[axis := b.Shape[axis]], axis,
                            |b.Shape| == |a.Shape|, a.BatchCount)
    ensures r.Ok? ==> Glued(r.value.Grad[..], a.Grad[..], b.Grad[..], a.Shape, a.Shape[axis := b.Shape[axis]], axis,
                            |b.Shape| == |a.Shape|, a.BatchCount)
  {
    PassedShapes(a.Shape, b.Shape, axis, a.BatchCount, b.BatchCount);
    var result := AllocateJoined(a.Shape[axis := a.Shape[axis] + b.Shape[axis]], a.BatchCount);
    var ok := JoinEntries(result, a, b, axis, a.Shape[axis := b.Shape[axis]]);
    if !ok {
      return Err(IndexOutOfRange);
    }
    return Ok(result);
  }

  /** `NdArray.Concatenate(a, b, axis)`: the checks in their order, then a
    * fresh result of the first tensor's shape with the sizes along `axis`
    * added, each batch entry the two tensors' entries joined.  A second
    * tensor with more axes than the first passes the checks but fails in
    * the copy loop, once there is an element of it to copy. */
  method Concatenate(a: NdArray, b: NdArray, axis: int) returns (r: Result<NdArray>)
    requires a.Shaped() && b.Shaped()
    ensures r.Ok? <==> ConcatCheck(a.Shape, b.Shape, axis, a.BatchCount, b.BatchCount).Pass?
                       && !(a.BatchCount > 0 && b.Length > 0 && |b.Shape| > |a.Shape|)
    ensures r.Err? ==> r.error == match ConcatCheck(a.Shape, b.Shape, axis, a.BatchCount, b.BatchCount)
                                  case Fail(e) => e
                                  case Pass => IndexOutOfRange
    ensures r.Ok? ==> fresh(r.value) && fresh(r.value.Data) && fresh(r.value.Grad) && r.value.Shaped()
    ensures r.Ok? ==> r.value.Shape == a.Shape[axis := a.Shape[axis] + b.Shape[axis]]
    ensures r.Ok? ==> r.value.Length == a.Length + ShapeToArrayLength(a.Shape[axis := b.Shape[axis]])
    ensures r.Ok? && |b.Shape| == |a.Shape| ==> r.value.Length == a.Length + b.Length
    ensures r.Ok? ==> r.value.BatchCount == a.BatchCount && r.value.UseCount == 0 && r.value.TrainCount == 0
    ensures r.Ok? ==> Glued(r.value.Data[..], a.Data[..], b.Data[..], a.Shape, a.Shape[axis := b.Shape[axis]], axis,
                            |b.Shape| == |a.Shape|, a.BatchCount)
    ensures r.Ok? ==> Glued(r.value.Grad[..], a.Grad[..], b.Grad[..], a.Shape, a.Shape[axis := b.Shape[axis]], axis,
                            |b.Shape| == |a.Shape|, a.BatchCount)
  {
    if axis < 0 || axis >= |a.Shape| || axis >= |b.Shape| {
      return Err(IndexOutOfRange);
    }
    var sizes := CheckSizes(a.Shape, b.Shape, axis);
    if sizes.Fail? {
      return Err(sizes.error);
    }
    if a.BatchCount != b.BatchCount {
      return Err(BatchMismatch);
    }
    r := JoinChecked(a, b, axis);
  }
}
