/** The sum of one batch entry over one axis.  Element `o` of the result is
  * the sum, along the removed axis, of the input elements whose index tuple
  * without that axis is the tuple of `o` in the reduced shape.  The loop that
  * computes it visits the input in flat order and adds each element at its
  * reduced position; `Scatter` is its result after the elements below a flat
  * bound have been visited. */
module Reductions {
  import opened Shapes
  import opened Blocks

  /** Removing an axis keeps the sizes non-negative, or positive. */
  lemma RemoveKeepsSign(shape: seq<int>, axis: int)
    requires 0 <= axis < |shape|
    ensures NonNegative(shape) ==> NonNegative(RemoveAt(shape, axis))
    ensures Positive(shape) ==> Positive(RemoveAt(shape, axis))
  {
    var r := RemoveAt(shape, axis);
    assert forall k :: 0 <= k < |r| ==> r[k] == shape[if k < axis then k else k + 1];
  }

  /** The shape and buffer of a single batch entry that can be summed over
    * `axis`. */
  ghost predicate Summable(blk: seq<real>, shape: seq<int>, axis: int)
  {
    0 <= axis < |shape| && NonNegative(shape) && |blk| == ShapeToArrayLength(shape)
  }

  /** Flat offset of the element at position `k` along `axis` on the line
    * through the reduced index tuple `ridx`. */
  function LineOffset(shape: seq<int>, axis: int, ridx: seq<int>, k: int): (o: int)
    requires 0 <= axis < |shape|
    requires InBounds(RemoveAt(shape, axis), ridx) && 0 <= k < shape[axis]
    ensures 0 <= o < ShapeToArrayLength(shape)
  {
    InsertRemove(shape, axis, ridx, k);
    Offset(shape, InsertAt(ridx, axis, k))
  }

  /** Every offset of `offs` addresses an element of a buffer of length `n`. */
  predicate Within(offs: seq<int>, n: int)
  {
    forall k :: 0 <= k < |offs| ==> 0 <= offs[k] < n
  }

  /** No offset occurs twice. */
  predicate Distinct(offs: seq<int>)
  {
    forall p, q :: 0 <= p < q < |offs| ==> offs[p] != offs[q]
  }

  /** The flat offsets of the line through `ridx` along `axis`, in order of
    * their position on the axis. */
  function Line(shape: seq<int>, axis: int, ridx: seq<int>): (offs: seq<int>)
    requires 0 <= axis < |shape| && shape[axis] >= 0
    requires InBounds(RemoveAt(shape, axis), ridx)
    ensures |offs| == shape[axis] && Within(offs, ShapeToArrayLength(shape))
    ensures forall k :: 0 <= k < |offs| ==> offs[k] == LineOffset(shape, axis, ridx, k)
  {
    seq(shape[axis], k requires 0 <= k < shape[axis] => LineOffset(shape, axis, ridx, k))
  }

  /** Sum of the elements of `blk` at the offsets `offs`. */
  function SumAt(blk: seq<real>, offs: seq<int>): real
    requires Within(offs, |blk|)
  {
    if |offs| == 0 then 0.0
    else SumAt(blk, offs[..|offs| - 1]) + blk[offs[|offs| - 1]]
  }

  /** As `SumAt`, counting only the offsets below `bound`. */
  function SumBelow(blk: seq<real>, offs: seq<int>, bound: int): real
    requires Within(offs, |blk|)
  {
    if |offs| == 0 then 0.0
    else
      var o := offs[|offs| - 1];
      SumBelow(blk, offs[..|offs| - 1], bound) + (if o < bound then blk[o] else 0.0)
  }

  /** One batch entry summed over `axis`. */
  function SumBlock(blk: seq<real>, shape: seq<int>, axis: int): (r: seq<real>)
    requires Summable(blk, shape, axis)
    ensures |r| == ShapeToArrayLength(RemoveAt(shape, axis))
  {
    var rs := RemoveAt(shape, axis);
    RemoveKeepsSign(shape, axis);
    seq(ShapeToArrayLength(rs), o requires 0 <= o < ShapeToArrayLength(rs) =>
      SumAt(blk, Line(shape, axis, Unflatten(rs, o))))
  }

  lemma {:induction false} SumBelowNone(blk: seq<real>, offs: seq<int>)
    requires Within(offs, |blk|)
    ensures SumBelow(blk, offs, 0) == 0.0
  {
    if |offs| > 0 {
      SumBelowNone(blk, offs[..|offs| - 1]);
    }
  }

  lemma {:induction false} SumBelowAll(blk: seq<real>, offs: seq<int>)
    requires Within(offs, |blk|)
    ensures SumBelow(blk, offs, |blk|) == SumAt(blk, offs)
  {
    if |offs| > 0 {
      SumBelowAll(blk, offs[..|offs| - 1]);
    }
  }

  /** Raising the bound to `bound` adds the element at `bound - 1` once if
    * that is one of the offsets, which occur at most once each. */
  lemma {:induction false} SumBelowStep(blk: seq<real>, offs: seq<int>, bound: int)
    requires Within(offs, |blk|) && Distinct(offs) && 0 < bound <= |blk|
    ensures SumBelow(blk, offs, bound)
         == SumBelow(blk, offs, bound - 1) + (if bound - 1 in offs then blk[bound - 1] else 0.0)
  {
    if |offs| > 0 {
      var m := |offs| - 1;
      var init := offs[..m];
      SumBelowStep(blk, init, bound);
      assert offs == init + [offs[m]];
      if offs[m] == bound - 1 {
        assert bound - 1 !in init;
      } else {
        assert (bound - 1 in offs) == (bound - 1 in init);
      }
    }
  }

  /** Different positions on a line are different elements. */
  lemma LineDistinct(shape: seq<int>, axis: int, ridx: seq<int>)
    requires 0 <= axis < |shape| && shape[axis] >= 0
    requires InBounds(RemoveAt(shape, axis), ridx)
    ensures Distinct(Line(shape, axis, ridx))
  {
    var offs := Line(shape, axis, ridx);
    forall p, q | 0 <= p < q < |offs| ensures offs[p] != offs[q] {
      InsertRemove(shape, axis, ridx, p);
      InsertRemove(shape, axis, ridx, q);
      UnflattenOfOffset(shape, InsertAt(ridx, axis, p));
      UnflattenOfOffset(shape, InsertAt(ridx, axis, q));
      assert InsertAt(ridx, axis, p)[axis] != InsertAt(ridx, axis, q)[axis];
    }
  }

  /** The element at flat offset `i` lies on the line through `ridx` at
    * position `k` exactly when its index tuple is `ridx` with `k` inserted. */
  lemma OnLine(shape: seq<int>, axis: int, ridx: seq<int>, k: int, i: int)
    requires 0 <= axis < |shape| && Positive(shape) && 0 <= i < ShapeToArrayLength(shape)
    requires InBounds(RemoveAt(shape, axis), ridx) && 0 <= k < shape[axis]
    ensures var u := Unflatten(shape, i);
            (LineOffset(shape, axis, ridx, k) == i) <==> (RemoveAt(u, axis) == ridx && u[axis] == k)
  {
    var u := Unflatten(shape, i);
    var full := InsertAt(ridx, axis, k);
    InsertRemove(shape, axis, ridx, k);
    UnflattenOfOffset(shape, full);
    OffsetOfUnflatten(shape, i);
    RemoveInsert(shape, axis, u);
  }

  /** The element at flat offset `i` lies on the line through `ridx` exactly
    * when its index tuple without `axis` is `ridx`. */
  lemma LineHas(shape: seq<int>, axis: int, ridx: seq<int>, i: int)
    requires 0 <= axis < |shape| && Positive(shape) && 0 <= i < ShapeToArrayLength(shape)
    requires InBounds(RemoveAt(shape, axis), ridx)
    ensures (i in Line(shape, axis, ridx)) <==> RemoveAt(Unflatten(shape, i), axis) == ridx
  {
    var u := Unflatten(shape, i);
    var offs := Line(shape, axis, ridx);
    if i in offs {
      var k :| 0 <= k < |offs| && offs[k] == i;
      OnLine(shape, axis, ridx, k, i);
    }
    if RemoveAt(u, axis) == ridx {
      OnLine(shape, axis, ridx, u[axis], i);
      assert offs[u[axis]] == i;
    }
  }

  /** The reduced position of the element at flat offset `i`. */
  function Target(shape: seq<int>, axis: int, i: int): (o: int)
    requires 0 <= axis < |shape| && Positive(shape) && 0 <= i < ShapeToArrayLength(shape)
    ensures 0 <= o < ShapeToArrayLength(RemoveAt(shape, axis))
  {
    var u := Unflatten(shape, i);
    RemoveInsert(shape, axis, u);
    Offset(RemoveAt(shape, axis), RemoveAt(u, axis))
  }

  /** Raising the bound to `bound` adds `blk[bound - 1]` to the sum along a
    * line exactly when that element lies on the line. */
  lemma LineStep(blk: seq<real>, shape: seq<int>, axis: int, ridx: seq<int>, bound: int)
    requires Summable(blk, shape, axis) && 0 < bound <= |blk|
    requires InBounds(RemoveAt(shape, axis), ridx)
    ensures Positive(shape)
    ensures SumBelow(blk, Line(shape, axis, ridx), bound)
            == SumBelow(blk, Line(shape, axis, ridx), bound - 1)
               + (if RemoveAt(Unflatten(shape, bound - 1), axis) == ridx then blk[bound - 1] else 0.0)
  {
    var offs := Line(shape, axis, ridx);
    LineDistinct(shape, axis, ridx);
    SumBelowStep(blk, offs, bound);
    LineHas(shape, axis, ridx, bound - 1);
  }


  /** Element `i` lies on the line through the tuple of reduced position `p`
    * exactly when `p` is its target. */
  lemma TargetIs(shape: seq<int>, axis: int, i: int, p: int)
    requires 0 <= axis < |shape| && Positive(shape) && 0 <= i < ShapeToArrayLength(shape)
    requires 0 <= p < ShapeToArrayLength(RemoveAt(shape, axis))
    ensures Positive(RemoveAt(shape, axis))
    ensures (RemoveAt(Unflatten(shape, i), axis) == Unflatten(RemoveAt(shape, axis), p))
            <==> p == Target(shape, axis, i)
  {
    var rs := RemoveAt(shape, axis);
    RemoveKeepsSign(shape, axis);
    var u := Unflatten(shape, i);
    var ru := RemoveAt(u, axis);
    RemoveInsert(shape, axis, u);
    UnflattenOfOffset(rs, ru);
    OffsetOfUnflatten(rs, p);
  }

  /** Raising the bound to `bound` adds `blk[bound - 1]` to the sum along the
    * line through reduced position `p` exactly when `p` is that element's
    * target. */
  lemma TargetStep(blk: seq<real>, shape: seq<int>, axis: int, bound: int, p: int)
    requires Summable(blk, shape, axis) && 0 < bound <= |blk|
    requires 0 <= p < ShapeToArrayLength(RemoveAt(shape, axis))
    ensures Positive(shape) && Positive(RemoveAt(shape, axis))
    ensures SumBelow(blk, Line(shape, axis, Unflatten(RemoveAt(shape, axis), p)), bound)
         == SumBelow(blk, Line(shape, axis, Unflatten(RemoveAt(shape, axis), p)), bound - 1)
            + (if p == Target(shape, axis, bound - 1) then blk[bound - 1] else 0.0)
  {
    assert Positive(shape);
    TargetIs(shape, axis, bound - 1, p);
    LineStep(blk, shape, axis, Unflatten(RemoveAt(shape, axis), p), bound);
  }



  /** Every target lies inside a block of `rlen` elements. */
  predicate Aimed(tg: seq<int>, rlen: int)
  {
    forall k :: 0 <= k < |tg| ==> 0 <= tg[k] < rlen
  }

  /** A block of `rlen` zeros after the first `bound` elements of `blk`, one
    * after the other, have each been added to the position `tg` names for
    * them: what the summing loop has built after `bound` steps. */
  function Scatter(blk: seq<real>, tg: seq<int>, rlen: nat, bound: int): (r: seq<real>)
    requires 0 <= bound <= |blk| == |tg| && Aimed(tg, rlen)
    ensures |r| == rlen
    decreases bound
  {
    if bound == 0 then ZeroBuffer(rlen)
    else
      var prev := Scatter(blk, tg, rlen, bound - 1);
      prev[tg[bound - 1] := prev[tg[bound - 1]] + blk[bound - 1]]
  }

  /** One more step of the scatter adds one element at its target and leaves
    * the other positions as they were. */
  lemma ScatterStep(blk: seq<real>, tg: seq<int>, rlen: nat, bound: int, p: int)
    requires 0 < bound <= |blk| == |tg| && Aimed(tg, rlen) && 0 <= p < rlen
    ensures 0 <= tg[bound - 1] < rlen
    ensures Scatter(blk, tg, rlen, bound)[p]
         == Scatter(blk, tg, rlen, bound - 1)[p] + (if tg[bound - 1] == p then blk[bound - 1] else 0.0)
  {
  }


  /** The reduced position of every flat offset of `shape`. */
  function Targets(shape: seq<int>, axis: int): (tg: seq<int>)
    requires 0 <= axis < |shape| && NonNegative(shape)
    ensures |tg| == ShapeToArrayLength(shape)
    ensures Aimed(tg, ShapeToArrayLength(RemoveAt(shape, axis)))
    ensures forall i :: 0 <= i < |tg| ==> Positive(shape) && tg[i] == Target(shape, axis, i)
  {
    seq(ShapeToArrayLength(shape), i requires 0 <= i < ShapeToArrayLength(shape) => Target(shape, axis, i))
  }

  /** A trigger helper, always true: a marker for flat offset `j`.
    * `TargetsOf` states its facts under this
    * marker, so they are brought in only where a proof names the offset it
    * needs, and a loop that merely carries the targets along never sees the
    * index arithmetic behind them. */
  predicate Named(j: int)
  {
    true
  }

  /** `tg` holds the reduced position of every flat offset of `shape`. */
  ghost predicate TargetsOf(tg: seq<int>, shape: seq<int>, axis: int)
    requires 0 <= axis < |shape| && NonNegative(shape)
  {
    && |tg| == ShapeToArrayLength(shape)
    && Aimed(tg, ShapeToArrayLength(RemoveAt(shape, axis)))
    && forall j {:trigger Named(j)} :: 0 <= j < |tg| ==>
         Named(j) && Positive(shape) && tg[j] == Target(shape, axis, j)
  }

  /** The targets of a shape, with only `TargetsOf` to say what they are. */
  lemma TargetsFor(shape: seq<int>, axis: int) returns (tg: seq<int>)
    requires 0 <= axis < |shape| && NonNegative(shape)
    ensures TargetsOf(tg, shape, axis)
  {
    tg := Targets(shape, axis);
    forall j | 0 <= j < |tg|
      ensures Named(j) && Positive(shape) && tg[j] == Target(shape, axis, j)
    {
    }
  }

  /** The target of one flat offset. */
  lemma TargetsOfAt(tg: seq<int>, shape: seq<int>, axis: int, i: int)
    requires 0 <= axis < |shape| && NonNegative(shape) && TargetsOf(tg, shape, axis)
    requires 0 <= i < |tg|
    ensures Positive(shape) && tg[i] == Target(shape, axis, i)
  {
    assert Named(i);
  }

  /** There is one sequence of targets. */
  lemma TargetsOfIs(tg: seq<int>, shape: seq<int>, axis: int)
    requires 0 <= axis < |shape| && NonNegative(shape) && TargetsOf(tg, shape, axis)
    ensures tg == Targets(shape, axis)
  {
    forall j | 0 <= j < |tg|
      ensures tg[j] == Targets(shape, axis)[j]
    {
      TargetsOfAt(tg, shape, axis, j);
    }
  }

  /** Scattering the first `bound` elements to their reduced positions leaves
    * at each position the sum along its line over the offsets below
    * `bound`. */
  lemma {:induction false} ScatterAt(blk: seq<real>, shape: seq<int>, axis: int, bound: int, p: int)
    requires Summable(blk, shape, axis) && 0 <= bound <= |blk|
    requires 0 <= p < ShapeToArrayLength(RemoveAt(shape, axis))
    ensures Positive(RemoveAt(shape, axis))
    ensures Scatter(blk, Targets(shape, axis), ShapeToArrayLength(RemoveAt(shape, axis)), bound)[p]
         == SumBelow(blk, Line(shape, axis, Unflatten(RemoveAt(shape, axis), p)), bound)
    decreases bound
  {
    RemoveKeepsSign(shape, axis);
    if bound == 0 {
      SumBelowNone(blk, Line(shape, axis, Unflatten(RemoveAt(shape, axis), p)));
      assert Scatter(blk, Targets(shape, axis), ShapeToArrayLength(RemoveAt(shape, axis)), 0)[p] == 0.0;
    } else {
      ScatterAt(blk, shape, axis, bound - 1, p);
      ScatterStep(blk, Targets(shape, axis), ShapeToArrayLength(RemoveAt(shape, axis)), bound, p);
      TargetStep(blk, shape, axis, bound, p);
      assert Targets(shape, axis)[bound - 1] == Target(shape, axis, bound - 1);
    }
  }

  /** Scattering every element to its reduced position gives the sum over
    * `axis`. */
  lemma ScatterAll(blk: seq<real>, shape: seq<int>, axis: int)
    requires Summable(blk, shape, axis)
    ensures ShapeToArrayLength(RemoveAt(shape, axis)) >= 0
    ensures Scatter(blk, Targets(shape, axis), ShapeToArrayLength(RemoveAt(shape, axis)), |blk|)
         == SumBlock(blk, shape, axis)
  {
    var rs := RemoveAt(shape, axis);
    RemoveKeepsSign(shape, axis);
    forall p | 0 <= p < ShapeToArrayLength(rs)
      ensures Scatter(blk, Targets(shape, axis), ShapeToArrayLength(rs), |blk|)[p] == SumBlock(blk, shape, axis)[p]
    {
      ScatterAt(blk, shape, axis, |blk|, p);
      SumBelowAll(blk, Line(shape, axis, Unflatten(rs, p)));
    }
  }

  /** The element of the sum at a reduced index tuple is the sum of the input
    * along the removed axis through that tuple. */
  lemma SumBlockAt(blk: seq<real>, shape: seq<int>, axis: int, ridx: seq<int>)
    requires Summable(blk, shape, axis) && InBounds(RemoveAt(shape, axis), ridx)
    ensures 0 <= Offset(RemoveAt(shape, axis), ridx) < |SumBlock(blk, shape, axis)|
    ensures SumBlock(blk, shape, axis)[Offset(RemoveAt(shape, axis), ridx)]
            == SumAt(blk, Line(shape, axis, ridx))
  {
    UnflattenOfOffset(RemoveAt(shape, axis), ridx);
  }

  /** In shape [2, 3] the element in row `r` of column `p` is at flat
    * offset `3 * r + p`. */
  lemma RowOffset(p: int, r: int)
    requires 0 <= p < 3 && 0 <= r < 2
    ensures RemoveAt([2, 3], 0) == [3] && InBounds([3], [p])
    ensures LineOffset([2, 3], 0, [p], r) == 3 * r + p
  {
    assert RemoveAt([2, 3], 0) == [3];
    assert InsertAt([p], 0, r) == [r, p];
    assert [2, 3][..1] == [2] && [2][..0] == [] && [r, p][..1] == [r] && [r][..0] == [];
    assert Offset([2], [r]) == r;
    assert Offset([2, 3], [r, p]) == r * 3 + p;
  }

  /** In shape [2, 3] the line along axis 0 through column `p` holds the
    * elements at offsets `p` and `3 + p`. */
  lemma ExampleLine(p: int)
    requires 0 <= p < 3
    ensures RemoveAt([2, 3], 0) == [3] && InBounds([3], [p])
    ensures Line([2, 3], 0, [p]) == [p, 3 + p]
  {
    RowOffset(p, 0);
    RowOffset(p, 1);
  }

  /** The buffer 1..6 in shape [2, 3] can be summed over axis 0. */
  lemma ExampleShape()
    ensures Summable([1.0, 2.0, 3.0, 4.0, 5.0, 6.0], [2, 3], 0)
    ensures ShapeToArrayLength(RemoveAt([2, 3], 0)) == 3
  {
    assert [2, 3][..1] == [2] && [2][..0] == [] && [3][..0] == [];
    assert RemoveAt([2, 3], 0) == [3];
  }

  /** Sum of two elements. */
  lemma SumPair(blk: seq<real>, a: int, b: int)
    requires 0 <= a < |blk| && 0 <= b < |blk|
    ensures Within([a, b], |blk|) && SumAt(blk, [a, b]) == blk[a] + blk[b]
  {
    assert [a, b][..1] == [a] && [a][..0] == [];
    assert SumAt(blk, [a]) == SumAt(blk, []) + blk[a];
  }

  /** Column `p` of the reduced shape [3] is at flat offset `p`. */
  lemma ColumnOffset(p: int)
    requires 0 <= p < 3
    ensures RemoveAt([2, 3], 0) == [3] && InBounds([3], [p]) && Offset([3], [p]) == p
  {
    assert RemoveAt([2, 3], 0) == [3];
    assert [3][..0] == [] && [p][..0] == [];
  }

  /** Column `p` of shape [2, 3] sums the elements at offsets `p` and
    * `3 + p`. */
  lemma ExampleColumn(blk: seq<real>, shape: seq<int>, p: int)
    requires shape == [2, 3] && |blk| == 6 && Summable(blk, shape, 0) && 0 <= p < 3
    ensures ShapeToArrayLength(RemoveAt(shape, 0)) == 3
    ensures SumBlock(blk, shape, 0)[p] == blk[p] + blk[3 + p]
  {
    ColumnOffset(p);
    ExampleLine(p);
    SumBlockAt(blk, shape, 0, [p]);
    SumPair(blk, p, 3 + p);
  }

  /** Shape [2, 3] holding 1..6, summed over axis 0: [5, 7, 9]. */
  lemma SumBlockExample()
    ensures Summable([1.0, 2.0, 3.0, 4.0, 5.0, 6.0], [2, 3], 0)
    ensures SumBlock([1.0, 2.0, 3.0, 4.0, 5.0, 6.0], [2, 3], 0) == [5.0, 7.0, 9.0]
  {
    ExampleShape();
    ExampleColumn([1.0, 2.0, 3.0, 4.0, 5.0, 6.0], [2, 3], 0);
    ExampleColumn([1.0, 2.0, 3.0, 4.0, 5.0, 6.0], [2, 3], 1);
    ExampleColumn([1.0, 2.0, 3.0, 4.0, 5.0, 6.0], [2, 3], 2);
    ThreeElements(SumBlock([1.0, 2.0, 3.0, 4.0, 5.0, 6.0], [2, 3], 0), 5.0, 7.0, 9.0);
  }

  /** A sequence of three elements is the display of those elements. */
  lemma ThreeElements(s: seq<real>, a: real, b: real, c: real)
    requires |s| == 3 && s[0] == a && s[1] == b && s[2] == c
    ensures s == [a, b, c]
  {
  }
}
