/** Shape and index algebra of an NdArray.
  *
  * A shape is the list of axis sizes of one batch entry.  Its flat length is
  * the product of the sizes (ShapeToArrayLength, the product of the empty
  * shape being 1).  An index tuple is turned into a flat offset row-major,
  * last axis fastest (Offset), and a flat offset is turned back into an index
  * tuple by repeated remainder and quotient from the last axis (Unflatten).
  * Both are written by recursion on the LAST axis, which is the order in which
  * GetLocalIndex and GetDimensionsIndex walk the shape.
  */
module Shapes {

  /** Every axis size is at least zero. */
  predicate NonNegative(shape: seq<int>)
  {
    forall k :: 0 <= k < |shape| ==> shape[k] >= 0
  }

  /** Every axis size is at least one. */
  predicate Positive(shape: seq<int>)
  {
    forall k :: 0 <= k < |shape| ==> shape[k] > 0
  }

  /** The fold `shapes.Aggregate(1, (current, shape) => current * shape)`:
    * the elements of one batch entry. */
  function ShapeToArrayLength(shape: seq<int>): (r: int)
    ensures |shape| == 0 ==> r == 1
    ensures NonNegative(shape) ==> r >= 0
    ensures NonNegative(shape) ==> (r > 0 <==> Positive(shape))
  {
    if |shape| == 0 then 1
    else
      var init := shape[..|shape| - 1];
      assert forall k :: 0 <= k < |init| ==> init[k] == shape[k];
      ShapeToArrayLength(init) * shape[|shape| - 1]
  }

  /** `idx` names an element of `shape`: one index per axis, each within its axis. */
  predicate InBounds(shape: seq<int>, idx: seq<int>)
  {
    |idx| == |shape| && forall k :: 0 <= k < |idx| ==> 0 <= idx[k] < shape[k]
  }

  /** Row-major flat offset of an index tuple, last axis fastest. */
  function Offset(shape: seq<int>, idx: seq<int>): (r: int)
    requires |idx| == |shape|
    ensures InBounds(shape, idx) ==> 0 <= r < ShapeToArrayLength(shape)
  {
    if |idx| == 0 then 0
    else
      var n := |idx| - 1;
      var o := Offset(shape[..n], idx[..n]);
      assert InBounds(shape, idx) ==> InBounds(shape[..n], idx[..n]);
      if InBounds(shape, idx) then
        OffsetStep(o, ShapeToArrayLength(shape[..n]), shape[n], idx[n]);
        o * shape[n] + idx[n]
      else
        o * shape[n] + idx[n]
  }

  /** Index tuple of flat offset `r`: remainder by the last axis, then the
    * quotient is unflattened over the remaining axes. */
  function Unflatten(shape: seq<int>, r: int): (idx: seq<int>)
    requires Positive(shape) && r >= 0
    ensures InBounds(shape, idx)
  {
    if |shape| == 0 then []
    else
      var n := |shape| - 1;
      Unflatten(shape[..n], r / shape[n]) + [r % shape[n]]
  }

  /** One step of the offset bound: an offset below `p` scaled by `x`, plus an
    * index below `x`, stays below `p * x`. */
  lemma OffsetStep(o: int, p: int, x: int, i: int)
    requires 0 <= o < p && 0 <= i < x
    ensures 0 <= o * x + i < p * x
  {
    MulMono(o, p - 1, x);
    assert (p - 1) * x == p * x - x;
  }

  lemma MulMono(a: int, b: int, c: int)
    requires 0 <= a <= b && c >= 0
    ensures 0 <= a * c <= b * c
  {
  }

  /** Dividing a non-negative number by a positive one. */
  lemma DivNonNeg(r: int, x: int)
    requires r >= 0 && x > 0
    ensures r / x >= 0 && 0 <= r % x < x
  {
  }

  /** Euclidean division by a positive divisor. */
  lemma DivSplit(r: int, x: int)
    requires x > 0
    ensures r == (r / x) * x + r % x && 0 <= r % x < x
  {
  }

  lemma MulAssoc(a: int, b: int, c: int)
    ensures (a * b) * c == a * (b * c)
  {
  }

  /** One more axis in Horner form: an offset over the axes `a ++ b[..n]`,
    * extended by the last axis of `b`, splits into whole blocks of `b` and an
    * offset inside `b`. */
  lemma HornerStep(r: int, inner: int, oa: int, pb: int, ob: int, x: int, j: int, p: int, o: int)
    requires inner == oa * pb + ob && r == inner * x + j
    requires p == pb * x && o == ob * x + j
    ensures r == oa * p + o
  {
    assert (oa * pb + ob) * x == oa * (pb * x) + ob * x;
  }

  /** Quotient and remainder are determined: `(q * x + m) / x == q` for `0 <= m < x`. */
  lemma DivModUnique(q: int, x: int, m: int)
    requires x > 0 && 0 <= m < x
    ensures (q * x + m) / x == q && (q * x + m) % x == m
  {
    var a := q * x + m;
    var k := a / x - q;
    assert a == x * (a / x) + a % x;
    assert x * k == m - a % x;
    if k >= 1 {
      MulMono(1, k, x);
      assert false;
    } else if k <= -1 {
      MulMono(1, -k, x);
      assert false;
    }
  }

  /** A quotient of something below `p * x` by `x` is below `p`. */
  lemma DivBelow(r: int, p: int, x: int)
    requires x > 0 && 0 <= r < p * x
    ensures 0 <= r / x < p
  {
    assert r == x * (r / x) + r % x;
    if r / x >= p {
      MulMono(p, r / x, x);
      assert false;
    }
  }

  /** GetDimensionsIndex inverts GetLocalIndex: the offset of the index tuple of
    * an in-range flat offset is that offset. */
  lemma {:induction false} OffsetOfUnflatten(shape: seq<int>, r: int)
    requires Positive(shape) && 0 <= r < ShapeToArrayLength(shape)
    ensures Offset(shape, Unflatten(shape, r)) == r
  {
    if |shape| > 0 {
      var n := |shape| - 1;
      var x := shape[n];
      var init := shape[..n];
      var q, m := r / x, r % x;
      DivSplit(r, x);
      DivBelow(r, ShapeToArrayLength(init), x);
      OffsetOfUnflatten(init, q);
      var idx := Unflatten(shape, r);
      assert idx == Unflatten(init, q) + [m];
      assert idx[..n] == Unflatten(init, q) && idx[n] == m;
    }
  }

  /** GetLocalIndex inverts GetDimensionsIndex: the index tuple of the offset of
    * an in-bounds index tuple is that tuple. */
  lemma {:induction false} UnflattenOfOffset(shape: seq<int>, idx: seq<int>)
    requires InBounds(shape, idx)
    ensures Positive(shape)
    ensures Unflatten(shape, Offset(shape, idx)) == idx
  {
    if |shape| > 0 {
      var n := |shape| - 1;
      var init := shape[..n];
      var x := shape[n];
      var head := idx[..n];
      assert InBounds(init, head);
      UnflattenOfOffset(init, head);
      assert shape == init + [x];
      var o := Offset(init, head);
      var v := Offset(shape, idx);
      assert v == o * x + idx[n];
      DivModUnique(o, x, idx[n]);
      assert Unflatten(shape, v) == Unflatten(init, v / x) + [v % x];
      assert idx == head + [idx[n]];
    }
  }

  /** The length of a concatenation of shapes is the product of their lengths. */
  lemma {:induction false} ProductAppend(a: seq<int>, b: seq<int>)
    ensures ShapeToArrayLength(a + b) == ShapeToArrayLength(a) * ShapeToArrayLength(b)
  {
    if |b| > 0 {
      var n := |b| - 1;
      assert (a + b)[..|a + b| - 1] == a + b[..n];
      ProductAppend(a, b[..n]);
      MulAssoc(ShapeToArrayLength(a), ShapeToArrayLength(b[..n]), b[n]);
    } else {
      assert a + b == a;
    }
  }

  /** The last axis of an index tuple moves the offset by one. */
  lemma OffsetLast(shape: seq<int>, idx: seq<int>)
    requires |idx| == |shape| > 0
    ensures Offset(shape, idx) == Offset(shape[..|idx| - 1], idx[..|idx| - 1]) * shape[|idx| - 1] + idx[|idx| - 1]
  {
  }

  /** Offsets compose over a split of the axes: the outer axes count in units
    * of the inner block's length. */
  lemma {:induction false} OffsetAppend(a: seq<int>, b: seq<int>, i: seq<int>, j: seq<int>)
    requires |i| == |a| && |j| == |b|
    ensures Offset(a + b, i + j) == Offset(a, i) * ShapeToArrayLength(b) + Offset(b, j)
  {
    if |b| > 0 {
      var n := |b| - 1;
      assert (a + b)[..|a + b| - 1] == a + b[..n];
      assert (i + j)[..|i + j| - 1] == i + j[..n];
      OffsetAppend(a, b[..n], i, j[..n]);
      var oa := Offset(a, i);
      var pb := ShapeToArrayLength(b[..n]);
      var ob := Offset(b[..n], j[..n]);
      var inner := Offset(a + b[..n], i + j[..n]);
      OffsetLast(a + b, i + j);
      OffsetLast(b, j);
      assert ShapeToArrayLength(b) == pb * b[n];
      HornerStep(Offset(a + b, i + j), inner, oa, pb, ob, b[n], j[n], ShapeToArrayLength(b), Offset(b, j));
    } else {
      assert a + b == a && i + j == i;
    }
  }

  /** The first axis of an index tuple counts in units of the remaining axes'
    * length (the stride GetLocalIndex accumulates). */
  lemma OffsetCons(x: int, s: seq<int>, i: int, idx: seq<int>)
    requires |idx| == |s|
    ensures Offset([x] + s, [i] + idx) == i * ShapeToArrayLength(s) + Offset(s, idx)
    ensures ShapeToArrayLength([x] + s) == x * ShapeToArrayLength(s)
  {
    OffsetAppend([x], s, [i], idx);
    ProductAppend([x], s);
    assert [x][..0] == [] && [i][..0] == [];
    assert Offset([x], [i]) == Offset([], []) * x + i;
    assert ShapeToArrayLength([x]) == ShapeToArrayLength([]) * x;
  }

  /** The length of a shape with one more leading axis. */
  lemma ProductCons(x: int, s: seq<int>)
    ensures ShapeToArrayLength([x] + s) == x * ShapeToArrayLength(s)
  {
    ProductAppend([x], s);
    assert [x][..0] == [];
    assert ShapeToArrayLength([x]) == ShapeToArrayLength([]) * x;
  }

  /** Peeling the last axis off an index tuple: its entry is the remainder by
    * that axis and the rest is the tuple of the quotient. */
  lemma UnflattenLast(shape: seq<int>, r: int)
    requires Positive(shape) && |shape| > 0 && r >= 0
    ensures Positive(shape[..|shape| - 1]) && shape[|shape| - 1] > 0
    ensures r / shape[|shape| - 1] >= 0
    ensures Unflatten(shape, r)
            == Unflatten(shape[..|shape| - 1], r / shape[|shape| - 1]) + [r % shape[|shape| - 1]]
  {
    PositivePrefix(shape, |shape| - 1);
    DivNonNeg(r, shape[|shape| - 1]);
  }

  /** The index tuples the indexer can address: one index at any rank (the
    * stride loop never runs, so the shape is not read), or between one and
    * as many indices as the shape has axes. */
  predicate Addressable(shape: seq<int>, idx: seq<int>)
  {
    |idx| == 1 || 1 <= |idx| <= |shape|
  }

  /** The offset inside one batch entry that GetLocalIndex computes: a lone
    * index is taken as it is, otherwise the leading `|idx|` axes give the
    * strides. */
  function LocalOffset(shape: seq<int>, idx: seq<int>): (r: int)
    requires Addressable(shape, idx)
    ensures |idx| <= |shape| ==> r == Offset(shape[..|idx|], idx)
    ensures InBounds(shape, idx) ==> 0 <= r < ShapeToArrayLength(shape)
  {
    if |idx| == 1 then
      assert |shape| >= 1 ==> Offset(shape[..1], idx) == Offset(shape[..0], idx[..0]) * shape[0] + idx[0];
      idx[0]
    else
      assert InBounds(shape, idx) ==> shape[..|idx|] == shape;
      Offset(shape[..|idx|], idx)
  }

  /** One step of GetLocalIndex: the axes from `k` on have one more axis than
    * those from `k + 1` on, so their stride and offset grow by that axis. */
  lemma StridePeel(shape: seq<int>, idx: seq<int>, k: int, n: int)
    requires 0 <= k < n <= |shape| && |idx| == n
    ensures ShapeToArrayLength(shape[k..n]) == ShapeToArrayLength(shape[k + 1..n]) * shape[k]
    ensures Offset(shape[k..n], idx[k..])
            == idx[k] * ShapeToArrayLength(shape[k + 1..n]) + Offset(shape[k + 1..n], idx[k + 1..])
  {
    assert shape[k..n] == [shape[k]] + shape[k + 1..n];
    assert idx[k..] == [idx[k]] + idx[k + 1..];
    OffsetCons(shape[k], shape[k + 1..n], idx[k], idx[k + 1..]);
  }

  /** One step of GetDimensionsIndex: with the axes after `i` already split
    * off into `tail`, axis `i` takes the remainder of `rest` and the axes
    * before it split the quotient. */
  lemma UnflattenPeel(shape: seq<int>, i: int, rest: int, tail: seq<int>, whole: seq<int>)
    requires 0 <= i < |shape| && Positive(shape[..i + 1]) && rest >= 0
    requires whole == Unflatten(shape[..i + 1], rest) + tail
    ensures shape[i] > 0 && Positive(shape[..i]) && rest / shape[i] >= 0
    ensures whole == Unflatten(shape[..i], rest / shape[i]) + ([rest % shape[i]] + tail)
  {
    UnflattenLast(shape[..i + 1], rest);
    assert shape[..i + 1][..i] == shape[..i] && shape[..i + 1][i] == shape[i];
  }

  /** A prefix of a positive shape is positive. */
  lemma PositivePrefix(shape: seq<int>, n: int)
    requires Positive(shape) && 0 <= n <= |shape|
    ensures Positive(shape[..n])
  {
    assert forall k :: 0 <= k < n ==> shape[..n][k] == shape[k];
  }

  /** `idx` without its entry at `axis`. */
  function RemoveAt(idx: seq<int>, axis: int): (r: seq<int>)
    requires 0 <= axis < |idx|
    ensures |r| == |idx| - 1
    ensures forall k :: 0 <= k < axis ==> r[k] == idx[k]
    ensures forall k :: axis <= k < |r| ==> r[k] == idx[k + 1]
  {
    idx[..axis] + idx[axis + 1..]
  }

  /** `idx` with `v` placed at position `axis`. */
  function InsertAt(idx: seq<int>, axis: int, v: int): (r: seq<int>)
    requires 0 <= axis <= |idx|
    ensures |r| == |idx| + 1 && r[axis] == v
    ensures forall k :: 0 <= k < axis ==> r[k] == idx[k]
    ensures forall k :: axis < k < |r| ==> r[k] == idx[k - 1]
  {
    idx[..axis] + [v] + idx[axis..]
  }

  /** Removing an axis and putting its entry back restores the tuple, and the
    * other way round; an in-bounds reduced tuple with an in-range entry on the
    * removed axis is in bounds for the full shape. */
  lemma InsertRemove(shape: seq<int>, axis: int, ridx: seq<int>, k: int)
    requires 0 <= axis < |shape|
    requires InBounds(RemoveAt(shape, axis), ridx) && 0 <= k < shape[axis]
    ensures InBounds(shape, InsertAt(ridx, axis, k))
    ensures RemoveAt(InsertAt(ridx, axis, k), axis) == ridx
  {
    var full := InsertAt(ridx, axis, k);
    forall m | 0 <= m < |full| ensures 0 <= full[m] < shape[m] {
      if m > axis {
        assert full[m] == ridx[m - 1];
      }
    }
  }

  lemma RemoveInsert(shape: seq<int>, axis: int, idx: seq<int>)
    requires 0 <= axis < |shape| && InBounds(shape, idx)
    ensures InBounds(RemoveAt(shape, axis), RemoveAt(idx, axis))
    ensures InsertAt(RemoveAt(idx, axis), axis, idx[axis]) == idx
  {
    var r := RemoveAt(idx, axis);
    var rs := RemoveAt(shape, axis);
    forall m | 0 <= m < |r| ensures 0 <= r[m] < rs[m] {
      if m >= axis {
        assert r[m] == idx[m + 1] && rs[m] == shape[m + 1];
      }
    }
  }

  /** Integer division of the source language: truncates toward zero. */
  function CsDiv(a: int, b: int): (q: int)
    requires b != 0
    ensures a >= 0 && b > 0 ==> q == a / b
  {
    var q := Abs(a) / Abs(b);
    if (a >= 0) == (b > 0) then q else -q
  }

  /** Remainder of the source language: carries the sign of the dividend. */
  function CsRem(a: int, b: int): (r: int)
    requires b != 0
    ensures a >= 0 ==> 0 <= r < Abs(b)
    ensures a >= 0 && b > 0 ==> r == a % b
  {
    a - b * CsDiv(a, b)
  }

  function Abs(a: int): int
  {
    if a < 0 then -a else a
  }
}
