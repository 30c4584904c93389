/** The public `Sum(a, keepDims, axis...)`: the axes are checked, sorted and
  * reduced one after the other by the single-axis sum, each axis shifted
  * down by the number of axes already removed before it. */
module SumOverAxes {
  import opened Errors
  import opened Shapes
  import opened Blocks
  import opened Reductions
  import opened Tensors
  import opened Summation

  // ---------------------------------------------------------------------
  // The grand total of a buffer, kept by every reduction

  /** The sum of all elements of `s`. */
  function Total(s: seq<real>): real
  {
    if |s| == 0 then 0.0 else Total(s[..|s| - 1]) + s[|s| - 1]
  }

  lemma {:induction false} TotalZero(n: nat)
    ensures Total(ZeroBuffer(n)) == 0.0
  {
    if n > 0 {
      assert ZeroBuffer(n)[..n - 1] == ZeroBuffer(n - 1);
      TotalZero(n - 1);
    }
  }

  /** Adding `x` to one element adds `x` to the total. */
  lemma {:induction false} TotalUpdate(s: seq<real>, t: int, x: real)
    requires 0 <= t < |s|
    ensures Total(s[t := s[t] + x]) == Total(s) + x
  {
    var u := s[t := s[t] + x];
    var last := |s| - 1;
    if t == last {
      assert u[..last] == s[..last];
    } else {
      assert u[..last] == s[..last][t := s[t] + x];
      TotalUpdate(s[..last], t, x);
    }
  }

  /** Scattering the first `bound` elements adds exactly their total. */
  lemma {:induction false} ScatterTotal(blk: seq<real>, tg: seq<int>, rlen: nat, bound: int)
    requires 0 <= bound <= |blk| == |tg| && Aimed(tg, rlen)
    ensures Total(Scatter(blk, tg, rlen, bound)) == Total(blk[..bound])
    decreases bound
  {
    if bound == 0 {
      TotalZero(rlen);
    } else {
      ScatterTotal(blk, tg, rlen, bound - 1);
      var prev := Scatter(blk, tg, rlen, bound - 1);
      TotalUpdate(prev, tg[bound - 1], blk[bound - 1]);
      assert blk[..bound][..bound - 1] == blk[..bound - 1];
    }
  }

  /** Summing over one axis neither loses nor adds anything: the reduced
    * block has the total of the block. */
  lemma SumBlockTotal(blk: seq<real>, shape: seq<int>, axis: int)
    requires Summable(blk, shape, axis)
    ensures Total(SumBlock(blk, shape, axis)) == Total(blk)
  {
    ScatterAll(blk, shape, axis);
    ScatterTotal(blk, Targets(shape, axis), ShapeToArrayLength(RemoveAt(shape, axis)), |blk|);
    assert blk[..|blk|] == blk;
  }

  // ---------------------------------------------------------------------
  // The axis list

  predicate Sorted(xs: seq<int>)
  {
    forall p, q :: 0 <= p < q < |xs| ==> xs[p] <= xs[q]
  }

  /** `x` put in its place in the ascending list `xs`. */
  function Insert(x: int, xs: seq<int>): (r: seq<int>)
    requires Sorted(xs)
    ensures Sorted(r) && multiset(r) == multiset(xs) + multiset{x}
  {
    if |xs| == 0 || x <= xs[0] then [x] + xs
    else
      var rest := Insert(x, xs[1..]);
      HeadSplit(xs);
      BoundedBelow(xs[0], x, xs[1..], rest);
      ConsSorted(xs[0], rest);
      [xs[0]] + rest
  }

  lemma HeadSplit(xs: seq<int>)
    requires |xs| > 0 && Sorted(xs)
    ensures multiset(xs) == multiset{xs[0]} + multiset(xs[1..])
    ensures Sorted(xs[1..]) && forall k :: 0 <= k < |xs[1..]| ==> xs[0] <= xs[1..][k]
  {
    assert xs == [xs[0]] + xs[1..];
  }

  lemma BoundedBelow(low: int, x: int, tail: seq<int>, rest: seq<int>)
    requires low <= x && forall k :: 0 <= k < |tail| ==> low <= tail[k]
    requires multiset(rest) == multiset(tail) + multiset{x}
    ensures forall k :: 0 <= k < |rest| ==> low <= rest[k]
  {
    forall k | 0 <= k < |rest|
      ensures low <= rest[k]
    {
      assert rest[k] in multiset(rest);
      if rest[k] != x {
        assert rest[k] in multiset(tail);
        var j :| 0 <= j < |tail| && tail[j] == rest[k];
      }
    }
  }

  lemma ConsSorted(h: int, rest: seq<int>)
    requires Sorted(rest) && forall k :: 0 <= k < |rest| ==> h <= rest[k]
    ensures Sorted([h] + rest)
  {
    var r := [h] + rest;
    assert forall k :: 0 < k < |r| ==> r[k] == rest[k - 1];
  }

  /** Inserting an axis not yet named keeps the axes distinct. */
  lemma {:induction false} InsertDistinct(x: int, xs: seq<int>)
    requires Sorted(xs) && Distinct(xs) && x !in xs
    ensures Distinct(Insert(x, xs))
  {
    if |xs| > 0 && x > xs[0] {
      assert xs == [xs[0]] + xs[1..];
      var rest := Insert(x, xs[1..]);
      InsertDistinct(x, xs[1..]);
      assert xs[0] !in xs[1..] by {
        assert forall k :: 0 <= k < |xs| - 1 ==> xs[1..][k] == xs[k + 1] != xs[0];
      }
      assert xs[0] !in multiset(rest);
    }
  }

  /** `Array.Sort` on the axis list: the same axes in ascending order. */
  function Sort(xs: seq<int>): (r: seq<int>)
    ensures Sorted(r) && multiset(r) == multiset(xs)
  {
    if |xs| == 0 then []
    else
      assert xs == [xs[0]] + xs[1..];
      Insert(xs[0], Sort(xs[1..]))
  }

  /** Sorting keeps the number of axes and their distinctness. */
  lemma {:induction false} SortDistinct(xs: seq<int>)
    requires Distinct(xs)
    ensures |Sort(xs)| == |xs| && Distinct(Sort(xs))
  {
    if |xs| > 0 {
      assert xs == [xs[0]] + xs[1..];
      var rest := Sort(xs[1..]);
      SortDistinct(xs[1..]);
      assert xs[0] !in xs[1..] by {
        assert forall k :: 0 <= k < |xs| - 1 ==> xs[1..][k] == xs[k + 1] != xs[0];
      }
      assert xs[0] !in multiset(rest);
      InsertDistinct(xs[0], rest);
    }
    assert |multiset(Sort(xs))| == |xs|;
  }

  /** `axis.Max()`: the largest axis named. */
  function Max(xs: seq<int>): (m: int)
    requires |xs| > 0
    ensures m in xs && forall k :: 0 <= k < |xs| ==> xs[k] <= m
  {
    if |xs| == 1 then xs[0]
    else
      var m := Max(xs[1..]);
      if xs[0] >= m then xs[0] else m
  }

  /** `Enumerable.Range(0, rank)`: every axis of a shape of rank `rank`. */
  function AllAxes(rank: nat): (r: seq<int>)
    ensures |r| == rank && forall k :: 0 <= k < rank ==> r[k] == k
  {
    seq(rank, k => k)
  }

  /** The axis actually reduced at step `i`: the sorted axis shifted down by
    * the `i` axes already removed before it. */
  function Steps(sorted: seq<int>): (r: seq<int>)
    ensures |r| == |sorted| && forall i :: 0 <= i < |r| ==> r[i] == sorted[i] - i
  {
    seq(|sorted|, i requires 0 <= i < |sorted| => sorted[i] - i)
  }

  // ---------------------------------------------------------------------
  // Successive single-axis sums

  /** The shape after the single-axis sums over `steps`, one after the
    * other, or the error of the first that fails. */
  function Plan(shape: seq<int>, steps: seq<int>): (r: Result<seq<int>>)
    ensures r.Ok? ==> |r.value| == |shape| - |steps|
    ensures NonNegative(shape) && r.Ok? ==> NonNegative(r.value)
    decreases |steps|
  {
    if |steps| == 0 then Ok(shape)
    else if 0 <= steps[0] < |shape| && (|shape| > 1 || ShapeToArrayLength(shape) == 0) then
      RemoveKeepsSign(shape, steps[0]);
      Plan(RemoveAt(shape, steps[0]), steps[1..])
    else Err(if |shape| == 0 then NegativeSize else IndexOutOfRange)
  }

  /** One batch entry after the single-axis sums over `steps`. */
  ghost function Folded(blk: seq<real>, shape: seq<int>, steps: seq<int>): (r: seq<real>)
    requires NonNegative(shape) && |blk| == ShapeToArrayLength(shape) && Plan(shape, steps).Ok?
    ensures |r| == ShapeToArrayLength(Plan(shape, steps).value)
    decreases |steps|
  {
    if |steps| == 0 then blk
    else
      RemoveKeepsSign(shape, steps[0]);
      Folded(SumBlock(blk, shape, steps[0]), RemoveAt(shape, steps[0]), steps[1..])
  }

  /** Any sequence of successful reductions keeps the total of each batch
    * entry. */
  lemma {:induction false} FoldedTotal(blk: seq<real>, shape: seq<int>, steps: seq<int>)
    requires NonNegative(shape) && |blk| == ShapeToArrayLength(shape) && Plan(shape, steps).Ok?
    ensures Total(Folded(blk, shape, steps)) == Total(blk)
    decreases |steps|
  {
    if |steps| > 0 {
      RemoveKeepsSign(shape, steps[0]);
      SumBlockTotal(blk, shape, steps[0]);
      FoldedTotal(SumBlock(blk, shape, steps[0]), RemoveAt(shape, steps[0]), steps[1..]);
    }
  }

  // ---------------------------------------------------------------------
  // The whole reduction

  /** The axes reduced, in order: the named ones, or every axis when none is
    * named, sorted. */
  function Chosen(shape: seq<int>, axis: seq<int>): seq<int>
  {
    Sort(if |axis| == 0 then AllAxes(|shape|) else axis)
  }

  /** `Sum`'s checks let `axis` through: no axis repeated, none above the
    * rank. */
  predicate AxesAccepted(shape: seq<int>, axis: seq<int>)
  {
    Distinct(axis) && !(|axis| != 0 && |shape| < Max(axis))
  }

  /** The shape `Sum(a, false, axis...)` produces from a tensor of shape
    * `shape`, or the error it stops with: a repeated axis, an axis above the
    * rank (the rank itself is let through), no axis at all (rank zero), or
    * the first single-axis sum that fails. */
  function SumShape(shape: seq<int>, axis: seq<int>): (r: Result<seq<int>>)
    ensures !Distinct(axis) ==> r == Err(DuplicateAxis)
    ensures Distinct(axis) && |axis| > 0 && Max(axis) > |shape| ==> r == Err(AxisOutOfRange)
    ensures r.Ok? ==> |r.value| == |shape| - |axis| || (|axis| == 0 && |r.value| == 0)
  {
    if !Distinct(axis) then Err(DuplicateAxis)
    else if |axis| != 0 && |shape| < Max(axis) then Err(AxisOutOfRange)
    else
      var sorted := Chosen(shape, axis);
      SortDistinct(if |axis| == 0 then AllAxes(|shape|) else axis);
      if |sorted| == 0 then Err(IndexOutOfRange) else Plan(shape, Steps(sorted))
  }

  /** The outcome of `Sum`'s checks, case by case: past the checks, a
    * non-empty list of chosen axes is planned step by step. */
  lemma SumShapeCases(shape: seq<int>, axis: seq<int>)
    ensures Distinct(axis) && !(|axis| != 0 && |shape| < Max(axis)) && |Chosen(shape, axis)| == 0
            ==> SumShape(shape, axis) == Err(IndexOutOfRange)
    ensures Distinct(axis) && !(|axis| != 0 && |shape| < Max(axis)) && |Chosen(shape, axis)| > 0
            ==> SumShape(shape, axis) == Plan(shape, Steps(Chosen(shape, axis)))
  {
  }

  /** A sorted list of distinct axes climbs by at least one per position. */
  lemma {:induction false} Climbs(s: seq<int>, p: int, q: int)
    requires Sorted(s) && Distinct(s) && 0 <= p <= q < |s|
    ensures s[q] - s[p] >= q - p
    decreases q - p
  {
    if p < q {
      Climbs(s, p, q - 1);
    }
  }

  /** Steps that stay inside the shrinking shape, fewer than its rank, all
    * succeed, each removing one axis. */
  lemma {:induction false} PlanInside(shape: seq<int>, steps: seq<int>)
    requires |steps| < |shape|
    requires forall j :: 0 <= j < |steps| ==> 0 <= steps[j] < |shape| - j
    ensures Plan(shape, steps).Ok?
    decreases |steps|
  {
    if |steps| > 0 {
      var rest := steps[1..];
      assert forall j :: 0 <= j < |rest| ==> rest[j] == steps[j + 1];
      PlanInside(RemoveAt(shape, steps[0]), rest);
    }
  }

  /** Removing the first axis again and again reaches a single axis, where
    * the sum of a non-empty tensor reads its reduced index at position -1. */
  lemma {:induction false} PlanFirstAxisFails(shape: seq<int>, steps: seq<int>)
    requires |shape| == |steps| > 0 && Positive(shape)
    requires forall j :: 0 <= j < |steps| ==> steps[j] == 0
    ensures Plan(shape, steps) == Err(IndexOutOfRange)
    decreases |steps|
  {
    if |shape| > 1 {
      var rest := steps[1..];
      assert forall j :: 0 <= j < |rest| ==> rest[j] == steps[j + 1];
      RemoveKeepsSign(shape, 0);
      PlanFirstAxisFails(RemoveAt(shape, 0), rest);
    } else {
      assert Positive(shape) && ShapeToArrayLength(shape) > 0 by {
        assert NonNegative(shape);
      }
    }
  }

  /** Distinct axes, each inside the shape and fewer than its rank, pass the
    * checks and all the single-axis sums: the result has one axis less per
    * named axis. */
  lemma SumSucceeds(shape: seq<int>, axis: seq<int>)
    requires Distinct(axis) && 0 < |axis| < |shape|
    requires forall k :: 0 <= k < |axis| ==> 0 <= axis[k] < |shape|
    ensures SumShape(shape, axis).Ok? && |SumShape(shape, axis).value| == |shape| - |axis|
  {
    var sorted := Sort(axis);
    SortDistinct(axis);
    SortWithin(axis, 0, |shape|);
    var steps := Steps(sorted);
    forall j | 0 <= j < |steps| ensures 0 <= steps[j] < |shape| - j {
      Climbs(sorted, 0, j);
    }
    PlanInside(shape, steps);
  }

  /** `rank` distinct ascending values in `[0, rank)` are `0, 1, ...`. */
  lemma Packed(s: seq<int>, rank: int)
    requires Sorted(s) && Distinct(s) && |s| == rank
    requires forall k :: 0 <= k < |s| ==> 0 <= s[k] < rank
    ensures forall j :: 0 <= j < rank ==> s[j] == j
  {
    forall j | 0 <= j < rank ensures s[j] == j {
      Climbs(s, 0, j);
      Climbs(s, j, rank - 1);
    }
  }

  /** Sorting keeps every axis inside the bounds the list kept. */
  lemma SortWithin(xs: seq<int>, lo: int, hi: int)
    requires forall k :: 0 <= k < |xs| ==> lo <= xs[k] < hi
    ensures forall k :: 0 <= k < |Sort(xs)| ==> lo <= Sort(xs)[k] < hi
  {
    var sorted := Sort(xs);
    forall k | 0 <= k < |sorted| ensures lo <= sorted[k] < hi {
      assert sorted[k] in multiset(xs);
    }
  }

  /** Sorted, the axes of a rank-`rank` shape are `0, 1, ...` again, so every
    * shifted step is axis 0. */
  lemma AllAxesSteps(rank: nat)
    ensures |Steps(Sort(AllAxes(rank)))| == rank
    ensures forall j :: 0 <= j < rank ==> Steps(Sort(AllAxes(rank)))[j] == 0
  {
    var all := AllAxes(rank);
    assert Distinct(all);
    SortDistinct(all);
    SortWithin(all, 0, rank);
    Packed(Sort(all), rank);
  }

  /** Every axis of a tensor with elements, named or by default, cannot be
    * summed away: the last single-axis sum, of a rank-one tensor, reads its
    * reduced index at position -1. */
  lemma SumAllAxesFails(shape: seq<int>)
    requires |shape| > 0 && Positive(shape)
    ensures SumShape(shape, []) == Err(IndexOutOfRange)
    ensures SumShape(shape, AllAxes(|shape|)) == Err(IndexOutOfRange)
  {
    var all := AllAxes(|shape|);
    assert Distinct(all);
    AllAxesSteps(|shape|);
    PlanFirstAxisFails(shape, Steps(Sort(all)));
    var m := Max(all);
    assert m < |shape| by {
      var k :| 0 <= k < |all| && all[k] == m;
    }
  }

  /** The range check lets the rank itself through as an axis; the
    * single-axis sum then overruns the result shape. */
  lemma SumAxisAtRankFails(shape: seq<int>)
    requires |shape| > 0
    ensures Distinct([|shape|]) && !(|shape| < Max([|shape|]))
    ensures SumShape(shape, [|shape|]) == Err(IndexOutOfRange)
  {
    assert Sort([|shape|]) == Insert(|shape|, Sort([])) == [|shape|];
  }

  /** The range check the exception message describes: a named axis at or
    * above the rank is out of range. */
  function CheckedSumShape(shape: seq<int>, axis: seq<int>): (r: Result<seq<int>>)
    ensures |axis| > 0 && Distinct(axis) && Max(axis) >= |shape| ==> r == Err(AxisOutOfRange)
    ensures r.Ok? ==> forall k :: 0 <= k < |axis| ==> axis[k] < |shape|
  {
    if !Distinct(axis) then Err(DuplicateAxis)
    else if |axis| != 0 && |shape| <= Max(axis) then Err(AxisOutOfRange)
    else SumShape(shape, axis)
  }

  /** The corrected check reports the axis at the rank as out of range, and
    * agrees with the source's check on lists whose axes are all below the
    * rank. */
  lemma CheckedSumShapeAgrees(shape: seq<int>, axis: seq<int>)
    ensures |shape| > 0 ==> CheckedSumShape(shape, [|shape|]) == Err(AxisOutOfRange)
    ensures (forall k :: 0 <= k < |axis| ==> axis[k] < |shape|) ==> CheckedSumShape(shape, axis) == SumShape(shape, axis)
  {
    assert Distinct([|shape|]) && Max([|shape|]) == |shape|;
    if |axis| > 0 && forall k :: 0 <= k < |axis| ==> axis[k] < |shape| {
      assert Max(axis) in axis;
    }
  }

  /** A single axis is sorted as it is. */
  lemma SortSingle(x: int)
    ensures Sort([x]) == [x]
  {
    assert [x][1..] == [];
    assert Sort([x]) == Insert(x, Sort([]));
  }

  /** The axes 2 and 0 sort to 0 and 2, shifted to the steps 0 and 1. */
  lemma SortExample()
    ensures Sort([2, 0]) == [0, 2] && Steps(Sort([2, 0])) == [0, 1]
  {
    assert [2, 0][1..] == [0];
    SortSingle(0);
    assert Sort([2, 0]) == Insert(2, [0]);
    assert [0][1..] == [];
    assert Insert(2, [0]) == [0] + Insert(2, []);
  }

  /** Removing axis 0 and then axis 1 of a [2, 3, 4] shape leaves [3]. */
  lemma PlanExample()
    ensures Plan([2, 3, 4], [0, 1]) == Ok([3])
  {
    assert RemoveAt([2, 3, 4], 0) == [3, 4] && RemoveAt([3, 4], 1) == [3];
    assert Plan([3, 4], [1]) == Plan([3], []) by {
      assert [1][1..] == [];
    }
    assert Plan([2, 3, 4], [0, 1]) == Plan([3, 4], [1]) by {
      assert [0, 1][1..] == [1];
    }
  }

  /** Summing a [2, 3, 4] tensor over axes 2 and 0 removes axis 0 and then
    * axis 2 - 1 of the [3, 4] left. */
  lemma SumShapeExample()
    ensures SumShape([2, 3, 4], [2, 0]) == Ok([3])
  {
    assert Distinct([2, 0]) && Max([2, 0]) == 2;
    SortExample();
    PlanExample();
  }

  /** `count` ones in front of `shape`: the shape `keepDims` asks for. */
  function KeepDims(count: int, shape: seq<int>): (r: seq<int>)
    ensures |r| == (if count > 0 then count else 0) + |shape|
    ensures forall k :: 0 <= k < |r| - |shape| ==> r[k] == 1
    ensures forall k :: 0 <= k < |shape| ==> r[|r| - |shape| + k] == shape[k]
  {
    seq(if count > 0 then count else 0, _ => 1) + shape
  }

  /** Leading ones alone hold a single element. */
  lemma {:induction false} OnesLength(count: int)
    ensures NonNegative(KeepDims(count, [])) && ShapeToArrayLength(KeepDims(count, [])) == 1
    decreases count
  {
    var r := KeepDims(count, []);
    if count > 0 {
      assert r[..|r| - 1] == KeepDims(count - 1, []);
      OnesLength(count - 1);
      assert ShapeToArrayLength(r) == ShapeToArrayLength(r[..|r| - 1]) * 1;
    }
  }

  /** Dropping the last axis commutes with putting ones in front. */
  lemma KeepDimsInit(count: int, shape: seq<int>)
    requires |shape| > 0
    ensures var r := KeepDims(count, shape);
            r[..|r| - 1] == KeepDims(count, shape[..|shape| - 1]) && r[|r| - 1] == shape[|shape| - 1]
  {
  }

  /** Leading ones change neither the sign of the shape nor the number of
    * elements it holds. */
  lemma {:induction false} KeepDimsLength(count: int, shape: seq<int>)
    requires NonNegative(shape)
    ensures NonNegative(KeepDims(count, shape))
    ensures ShapeToArrayLength(KeepDims(count, shape)) == ShapeToArrayLength(shape)
    decreases |shape|
  {
    if |shape| == 0 {
      OnesLength(count);
    } else {
      var r := KeepDims(count, shape);
      var init := shape[..|shape| - 1];
      KeepDimsInit(count, shape);
      KeepDimsLength(count, init);
      var p, q := ShapeToArrayLength(init), shape[|shape| - 1];
      assert ShapeToArrayLength(r) == p * q;
    }
  }

  /** A list of ones as long as `KeepDims` asks, in front of `shape`. */
  lemma KeepDimsIs(ones: seq<int>, count: int, shape: seq<int>)
    requires |ones| == (if count > 0 then count else 0) && forall j :: 0 <= j < |ones| ==> ones[j] == 1
    ensures ones + shape == KeepDims(count, shape)
  {
    var r := KeepDims(count, shape);
    forall j | 0 <= j < |r| ensures (ones + shape)[j] == r[j] {
      if j >= |ones| {
        assert r[|r| - |shape| + (j - |ones|)] == shape[j - |ones|];
      }
    }
  }

  /** Batch entry `b` of `dst` (of shape `dshape`), reduced further over the
    * remaining `rest` steps, is batch entry `b` of `src` (of shape `shape`)
    * reduced over all of `steps`. */
  ghost predicate EntryPending(dst: seq<real>, dshape: seq<int>, rest: seq<int>,
                               src: seq<real>, shape: seq<int>, steps: seq<int>, b: int)
  {
    var dlen, len := ShapeToArrayLength(dshape), ShapeToArrayLength(shape);
    && 0 <= b && NonNegative(dshape) && NonNegative(shape)
    && (b + 1) * dlen <= |dst| && (b + 1) * len <= |src|
    && Plan(dshape, rest).Ok? && Plan(shape, steps).Ok?
    && Folded(Slab(dst, b, dlen), dshape, rest) == Folded(Slab(src, b, len), shape, steps)
  }

  /** What the loop of `Sum` keeps: after `i` single-axis sums, every batch
    * entry still needs the remaining steps. */
  ghost predicate Pending(dst: seq<real>, dshape: seq<int>, src: seq<real>, shape: seq<int>,
                          steps: seq<int>, i: int, n: int)
  {
    0 <= i <= |steps| && forall b :: 0 <= b < n ==> EntryPending(dst, dshape, steps[i..], src, shape, steps, b)
  }

  /** Batch entry `b` of `dst` is batch entry `b` of `src` reduced over
    * `steps`. */
  ghost predicate EntryReduced(dst: seq<real>, src: seq<real>, shape: seq<int>, steps: seq<int>, b: int)
    requires NonNegative(shape) && Plan(shape, steps).Ok?
  {
    var rlen, len := ShapeToArrayLength(Plan(shape, steps).value), ShapeToArrayLength(shape);
    && 0 <= b && (b + 1) * rlen <= |dst| && (b + 1) * len <= |src|
    && Slab(dst, b, rlen) == Folded(Slab(src, b, len), shape, steps)
  }

  /** Batch entry by batch entry, `dst` is `src` reduced over `steps`. */
  ghost predicate Reduced(dst: seq<real>, src: seq<real>, shape: seq<int>, steps: seq<int>, n: int)
    requires NonNegative(shape) && Plan(shape, steps).Ok?
  {
    forall b :: 0 <= b < n ==> EntryReduced(dst, src, shape, steps, b)
  }

  /** Before any step, every batch entry needs all of them. */
  lemma PendingStart(src: seq<real>, shape: seq<int>, steps: seq<int>, n: nat)
    requires NonNegative(shape) && Plan(shape, steps).Ok? && |src| == ShapeToArrayLength(shape) * n
    ensures Pending(src, shape, src, shape, steps, 0, n)
  {
    assert steps[0..] == steps;
    forall b | 0 <= b < n ensures EntryPending(src, shape, steps, src, shape, steps, b) {
      SlabInside(b, n, ShapeToArrayLength(shape));
    }
  }

  /** One batch entry moved one step on by a single-axis sum. */
  lemma EntryStep(x: seq<real>, xshape: seq<int>, y: seq<real>, src: seq<real>, shape: seq<int>,
                  steps: seq<int>, i: int, j: int, n: nat, b: int)
    requires 0 <= i < |steps| && j == i + 1 && EntryPending(x, xshape, steps[i..], src, shape, steps, b)
    requires 0 <= steps[i] < |xshape| && b < n
    requires |y| == ShapeToArrayLength(RemoveAt(xshape, steps[i])) * n
    requires Summed(y, x, xshape, steps[i], n)
    ensures EntryPending(y, RemoveAt(xshape, steps[i]), steps[j..], src, shape, steps, b)
  {
    var ys := RemoveAt(xshape, steps[i]);
    RemoveKeepsSign(xshape, steps[i]);
    assert steps[i..][0] == steps[i] && steps[i..][1..] == steps[i + 1..];
    assert EntryIsSum(y, x, xshape, steps[i], b);
    SlabInside(b, n, ShapeToArrayLength(ys));
  }

  /** One more single-axis sum over the next step moves every batch entry one
    * step on. */
  lemma PendingStep(x: seq<real>, xshape: seq<int>, y: seq<real>, src: seq<real>, shape: seq<int>,
                    steps: seq<int>, i: int, n: nat)
    requires Pending(x, xshape, src, shape, steps, i, n) && i < |steps|
    requires 0 <= steps[i] < |xshape| && NonNegative(xshape)
    requires |y| == ShapeToArrayLength(RemoveAt(xshape, steps[i])) * n
    requires Summed(y, x, xshape, steps[i], n)
    ensures Pending(y, RemoveAt(xshape, steps[i]), src, shape, steps, i + 1, n)
  {
    var j, ys := i + 1, RemoveAt(xshape, steps[i]);
    forall b | 0 <= b < n ensures EntryPending(y, ys, steps[j..], src, shape, steps, b) {
      EntryStep(x, xshape, y, src, shape, steps, i, j, n, b);
    }
  }

  /** With no step left, every batch entry is reduced. */
  lemma PendingDone(dst: seq<real>, dshape: seq<int>, src: seq<real>, shape: seq<int>, steps: seq<int>, n: nat)
    requires Pending(dst, dshape, src, shape, steps, |steps|, n)
    requires NonNegative(shape) && Plan(shape, steps) == Ok(dshape)
    ensures Reduced(dst, src, shape, steps, n)
  {
    assert steps[|steps|..] == [];
    forall b | 0 <= b < n ensures EntryReduced(dst, src, shape, steps, b) {
      assert EntryPending(dst, dshape, steps[|steps|..], src, shape, steps, b);
    }
  }

  /** Each batch entry of a reduced buffer has the total of its source
    * entry. */
  lemma ReducedTotal(dst: seq<real>, src: seq<real>, shape: seq<int>, steps: seq<int>, n: int, b: int)
    requires NonNegative(shape) && Plan(shape, steps).Ok? && Reduced(dst, src, shape, steps, n)
    requires 0 <= b < n
    ensures (b + 1) * ShapeToArrayLength(Plan(shape, steps).value) <= |dst|
    ensures (b + 1) * ShapeToArrayLength(shape) <= |src|
    ensures Total(Slab(dst, b, ShapeToArrayLength(Plan(shape, steps).value)))
         == Total(Slab(src, b, ShapeToArrayLength(shape)))
  {
    assert EntryReduced(dst, src, shape, steps, b);
    FoldedTotal(Slab(src, b, ShapeToArrayLength(shape)), shape, steps);
  }

  /** What the loop of `Sum` keeps about its current tensor `x`: after `i`
    * single-axis sums, the data and the gradient of every batch entry of `x`
    * still need the remaining steps to become those of `a` reduced. */
  ghost predicate Tracks(x: NdArray, a: NdArray, steps: seq<int>, i: int)
    reads x, x.Data, x.Grad, a, a.Data, a.Grad
  {
    Plan(a.Shape, steps).Ok? ==>
      && Pending(x.Data[..], x.Shape, a.Data[..], a.Shape, steps, i, a.BatchCount)
      && Pending(x.Grad[..], x.Shape, a.Grad[..], a.Shape, steps, i, a.BatchCount)
  }

  lemma TracksStart(a: NdArray, steps: seq<int>)
    requires a.Shaped()
    ensures Tracks(a, a, steps, 0)
  {
    if Plan(a.Shape, steps).Ok? {
      PendingStart(a.Data[..], a.Shape, steps, a.BatchCount);
      PendingStart(a.Grad[..], a.Shape, steps, a.BatchCount);
    }
  }

  /** The single-axis sum of `x` over the next step keeps the loop on
    * track. */
  lemma TracksStep(x: NdArray, y: NdArray, a: NdArray, steps: seq<int>, i: int)
    requires x.Shaped() && y.Shaped() && 0 <= i < |steps| && 0 <= steps[i] < |x.Shape|
    requires y.Shape == RemoveAt(x.Shape, steps[i]) && y.BatchCount == x.BatchCount == a.BatchCount
    requires Summed(y.Data[..], x.Data[..], x.Shape, steps[i], x.BatchCount)
    requires Summed(y.Grad[..], x.Grad[..], x.Shape, steps[i], x.BatchCount)
    requires Tracks(x, a, steps, i)
    ensures Tracks(y, a, steps, i + 1)
  {
    if Plan(a.Shape, steps).Ok? {
      PendingStep(x.Data[..], x.Shape, y.Data[..], a.Data[..], a.Shape, steps, i, a.BatchCount);
      PendingStep(x.Grad[..], x.Shape, y.Grad[..], a.Grad[..], a.Shape, steps, i, a.BatchCount);
    }
  }

  lemma TracksDone(x: NdArray, a: NdArray, steps: seq<int>)
    requires a.Shaped() && Tracks(x, a, steps, |steps|) && Plan(a.Shape, steps) == Ok(x.Shape)
    ensures Reduced(x.Data[..], a.Data[..], a.Shape, steps, a.BatchCount)
    ensures Reduced(x.Grad[..], a.Grad[..], a.Shape, steps, a.BatchCount)
  {
    PendingDone(x.Data[..], x.Shape, a.Data[..], a.Shape, steps, a.BatchCount);
    PendingDone(x.Grad[..], x.Shape, a.Grad[..], a.Shape, steps, a.BatchCount);
  }

  /** One turn of the loop of `Sum`: the single-axis sum of the current
    * tensor `x` over step `i`, which keeps the loop on track. */
  method SumStep(x: NdArray, axis: int, ghost a: NdArray, ghost steps: seq<int>, ghost i: int)
    returns (r: Result<NdArray>)
    requires x.Shaped() && 0 <= i < |steps| && steps[i] == axis && x.BatchCount == a.BatchCount
    requires Tracks(x, a, steps, i)
    ensures r.Ok? <==> 0 <= axis < |x.Shape| && (|x.Shape| > 1 || x.Length == 0)
    ensures r.Err? ==> r.error == if |x.Shape| == 0 then NegativeSize else IndexOutOfRange
    ensures r.Ok? ==> && 0 <= axis < |x.Shape|
                      && fresh(r.value) && fresh(r.value.Data) && fresh(r.value.Grad)
                      && r.value.Shaped() && r.value.Shape == RemoveAt(x.Shape, axis)
                      && r.value.BatchCount == a.BatchCount
                      && r.value.UseCount == 0 && r.value.TrainCount == 0
                      && Tracks(r.value, a, steps, i + 1)
  {
    r := SumAxis(x, axis);
    if r.Ok? {
      TracksStep(x, r.value, a, steps, i);
    }
  }

  /** The loop of `Sum`: the single-axis sums over `axes[i] - i`, one after
    * the other, starting from `a`; the first that fails ends it. */
  method ReduceSteps(a: NdArray, axes: seq<int>) returns (r: Result<NdArray>)
    requires a.Shaped() && |axes| > 0
    ensures r.Ok? <==> Plan(a.Shape, Steps(axes)).Ok?
    ensures r.Err? ==> r.error == Plan(a.Shape, Steps(axes)).error
    ensures r.Ok? ==> && NonNegative(a.Shape) && Plan(a.Shape, Steps(axes)) == Ok(r.value.Shape)
                      && fresh(r.value) && fresh(r.value.Data) && fresh(r.value.Grad)
                      && r.value.Shaped() && r.value.BatchCount == a.BatchCount
                      && r.value.UseCount == 0 && r.value.TrainCount == 0
                      && Reduced(r.value.Data[..], a.Data[..], a.Shape, Steps(axes), a.BatchCount)
                      && Reduced(r.value.Grad[..], a.Grad[..], a.Shape, Steps(axes), a.BatchCount)
  {
    ghost var steps := Steps(axes);
    assert steps[0..][1..] == steps[1..];
    TracksStart(a, steps);
    var first := SumStep(a, axes[0], a, steps, 0);
    if first.Err? {
      return Err(first.error);
    }
    var result := first.value;
    var i := 1;
    while i < |axes|
      invariant 1 <= i <= |axes| == |steps|
      invariant fresh(result) && fresh(result.Data) && fresh(result.Grad) && result.Shaped()
      invariant result.BatchCount == a.BatchCount && result.UseCount == 0 && result.TrainCount == 0
      invariant Plan(result.Shape, steps[i..]) == Plan(a.Shape, steps)
      invariant Tracks(result, a, steps, i)
    {
      assert steps[i..][0] == axes[i] - i && steps[i..][1..] == steps[i + 1..];
      var next := SumStep(result, axes[i] - i, a, steps, i);
      if next.Err? {
        return Err(next.error);
      }
      result := next.value;
      i := i + 1;
    }
    assert steps[i..] == [];
    TracksDone(result, a, steps);
    r := Ok(result);
  }

  /** The `keepDims` branch of `Sum`: `count` ones put in front of the shape
    * of the result; its elements stay as they are. */
  method KeepRank(result: NdArray, count: int)
    requires result.Shaped()
    modifies result
    ensures result.Shaped() && result.Shape == KeepDims(count, old(result.Shape))
    ensures result.Data == old(result.Data) && result.Grad == old(result.Grad)
    ensures result.Length == old(result.Length) && result.BatchCount == old(result.BatchCount)
    ensures result.UseCount == old(result.UseCount) && result.TrainCount == old(result.TrainCount)
  {
    var ones: seq<int> := [];
    var k := 0;
    while k < count
      invariant 0 <= k <= (if count > 0 then count else 0)
      invariant |ones| == k && forall j :: 0 <= j < k ==> ones[j] == 1
    {
      ones := ones + [1];
      k := k + 1;
    }
    ghost var before := result.Shape;
    KeepDimsLength(count, before);
    KeepDimsIs(ones, count, before);
    result.Shape := ones + result.Shape;
    assert result.Shape == KeepDims(count, before);
    assert result.Valid();
  }

  /** The summing part of `Sum`, once the axes are checked and sorted: the
    * reduction steps, then the leading ones `keepDims` asks for. */
  method SumChosen(a: NdArray, axes: seq<int>, keepDims: bool) returns (r: Result<NdArray>)
    requires a.Shaped() && |axes| > 0
    ensures r.Ok? <==> Plan(a.Shape, Steps(axes)).Ok?
    ensures r.Err? ==> r.error == Plan(a.Shape, Steps(axes)).error
    ensures r.Ok? ==> fresh(r.value) && fresh(r.value.Data) && fresh(r.value.Grad)
    ensures r.Ok? ==> && r.value.Shaped() && r.value.BatchCount == a.BatchCount
                      && r.value.UseCount == 0 && r.value.TrainCount == 0
    ensures r.Ok? ==> var plan := Plan(a.Shape, Steps(axes)).value;
                      r.value.Shape == (if keepDims then KeepDims(|a.Shape| - |plan|, plan) else plan)
    ensures r.Ok? ==> Reduced(r.value.Data[..], a.Data[..], a.Shape, Steps(axes), a.BatchCount)
    ensures r.Ok? ==> Reduced(r.value.Grad[..], a.Grad[..], a.Shape, Steps(axes), a.BatchCount)
  {
    r := ReduceSteps(a, axes);
    if r.Ok? && keepDims {
      ghost var data, grad := r.value.Data[..], r.value.Grad[..];
      KeepRank(r.value, |a.Shape| - |r.value.Shape|);
      assert r.value.Data[..] == data && r.value.Grad[..] == grad;
    }
  }

  /** `Array.Sort(axis)`: the caller's array ends up holding its own
    * elements in ascending order. */
  method SortInPlace(axis: array<int>)
    modifies axis
    ensures axis[..] == Sort(old(axis[..]))
  {
    var sorted := Sort(axis[..]);
    assert |sorted| == |multiset(axis[..])| == axis.Length;
    forall k | 0 <= k < axis.Length {
      axis[k] := sorted[k];
    }
  }

  /** `Sum(a, keepDims, axis...)`: the named axes (every axis when none is
    * named) are checked, sorted and summed away one after the other; with
    * `keepDims` the result shape gets back the rank of `a` through leading
    * ones.  Past the checks a non-empty `axis` array, which is the caller's
    * own, is sorted in place before any sum is taken. */
  method Sum(a: NdArray, keepDims: bool, axis: array<int>) returns (r: Result<NdArray>)
    requires a.Shaped()
    modifies axis
    ensures axis[..] == if AxesAccepted(a.Shape, old(axis[..])) then Sort(old(axis[..])) else old(axis[..])
    ensures r.Ok? <==> SumShape(a.Shape, old(axis[..])).Ok?
    ensures r.Err? ==> r.error == SumShape(a.Shape, old(axis[..])).error
    ensures r.Ok? ==> Plan(a.Shape, Steps(Chosen(a.Shape, old(axis[..])))) == SumShape(a.Shape, old(axis[..]))
    ensures r.Ok? ==> fresh(r.value) && fresh(r.value.Data) && fresh(r.value.Grad)
    ensures r.Ok? ==> && r.value.Shaped() && r.value.BatchCount == a.BatchCount
                      && r.value.UseCount == 0 && r.value.TrainCount == 0
    ensures r.Ok? ==> var plan := SumShape(a.Shape, old(axis[..])).value;
                      r.value.Shape == (if keepDims then KeepDims(|a.Shape| - |plan|, plan) else plan)
    ensures r.Ok? ==> Reduced(r.value.Data[..], a.Data[..], a.Shape, Steps(Chosen(a.Shape, old(axis[..]))), a.BatchCount)
    ensures r.Ok? ==> Reduced(r.value.Grad[..], a.Grad[..], a.Shape, Steps(Chosen(a.Shape, old(axis[..]))), a.BatchCount)
  {
    var given := axis[..];
    SumShapeCases(a.Shape, given);
    if !Distinct(given) {
      return Err(DuplicateAxis);
    }
    if axis.Length != 0 && |a.Shape| < Max(given) {
      return Err(AxisOutOfRange);
    }
    var axes := Chosen(a.Shape, given);
    if axis.Length != 0 {
      SortInPlace(axis);
    }
    if |axes| == 0 {
      return Err(IndexOutOfRange);
    }
    assert SumShape(a.Shape, given) == Plan(a.Shape, Steps(axes));
    r := SumChosen(a, axes, keepDims);
  }

}
