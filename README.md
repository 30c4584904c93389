# KelpNet tensor core, modelled in Dafny

This project models the core of KelpNet's reverse-mode differentiation engine.
The model covers three parts:

- **`NdArray`**, the tensor. It holds a flat `Data` buffer and a flat `Grad`
  buffer with `BatchCount` batch entries of `Length` elements each. A `Shape`
  describes one entry. `Length` is set from the product of the shape when a
  tensor is made (`Shaped()` holds). A `Reshape` that infers a size can leave
  them apart (see Findings). Entry `b` occupies `[b·Length, (b+1)·Length)`,
  and an index tuple inside it is laid out row-major, last axis fastest.
- **The backward walk** of `NdArray.Backward`, over an explicit arena of
  nodes and stages.
- **The momentum SGD optimizer**, with one velocity buffer per registered
  parameter tensor.

Elements are exact `real`s. The `#if DEBUG` checks of the source are modelled
as always on. Every exception the source raises, either explicitly or from the
runtime, is a `Result`/`Outcome` error from `Errors`:

- an array or list read out of range (`IndexOutOfRange`, or
  `ArgumentOutOfRange` for a list);
- a division or remainder by zero (`DivideByZero`);
- an array of negative length (`NegativeSize`);
- an `Array.Copy` with a negative offset (`ArgumentOutOfRange`);
- an `Array.Copy` whose range runs past its source (`InvalidArgument`).

Dafny constructors cannot fail. So each `new NdArray(...)` is a constructor
whose precondition is exactly that the allocation succeeds. A method
`NewArray`, `NewFromData` or `NewAllocate` is the same call as a caller sees
it, with `NegativeSize` when the element count is negative. Operations that
allocate inside (`Convert`, `ZerosLike`, `GetSingleArray`, `Split`) return
that error themselves.

Modules, leaf first:

- `Errors` (errors.dfy): error kinds, `Result`, `Outcome`, `Option`
- `Shapes` (shapes.dfy): `ShapeToArrayLength`, the index pair `Offset`/`Unflatten` and their round trips, the language's truncating `/` and `%`
- `Blocks` (blocks.dfy): batch slabs of flat buffers, zero buffers, stacking
- `Reshaping` (reshape.dfy): the decision `Reshape` takes, as a function of the length
- `Tensors` (ndarray.dfy): class `NdArray`: constructors, indexer, index pair, `Reshape`, gradient bookkeeping, batch decomposition; `FromArrays`, `Convert`, `ZerosLike`
- `Reductions` (reductions.dfy): one batch entry summed over one axis (`SumBlock`)
- `Summation` (sum.dfy): the private single-axis `Sum`
- `SumOverAxes` (sumaxes.dfy): the public `Sum(a, keepDims, axis...)`
- `Pieces` (pieces.dfy): one batch entry cut along an axis, two joined along an axis, and their round trips
- `Splitting` (split.dfy): `Split`
- `Concatenation` (concat.dfy): `Concatenate`
- `Backpropagation` (backward.dfy): the arena, `Backward()` and static `Backward`
- `RoundTrips` (roundtrip.dfy): `Split` of a `Concatenate` at the first tensor's size
- `Optimizers` (momentum.dfy): `MomentumSGD`, `MomentumSGDParameter`

Behaviour of the code that the model reproduces as written:

- **Reshape.** With a `-1`, each other entry must divide the current
  `Length`, not what is left of it. So `[4, 6, -1]` on 12 elements is
  accepted and gives `[4, 6, 0]`. The caller's array gets the inferred size
  written into it.
- **Sum's range check.** `Shape.Length < axis.Max()` lets an axis equal to the
  rank through. The single-axis sum then overruns its result shape.
- **Sum down to rank 0.** A single-axis sum of a rank-1 tensor with elements
  reads its empty reduced index at position -1. So `Sum` over every axis of a
  tensor with elements always fails.
- **keepDims.** The ones go in front of the shape, not where the reduced axes
  were.
- **Backward's filter.** The `Where(t => t.UseCount == 0)` of static
  `Backward` is lazy. Each input is tested only after the walks into the
  inputs before it have run. In a residual-style diamond, a shared input
  therefore passes the filter twice. The second visit reads its producer's
  empty `PrevInputs` at index -1. An input captured twice by one stage is
  entered twice in the same way.

The stage's own backward (`Function.Backward`) is not part of this model.
Static `Backward` takes it as a parameter `step`. The model ASSUMES that it
behaves as the predicate `StageConforms` says:

- it pops the newest `PrevInputs` entry of its stage;
- it lowers each captured input's `UseCount` once per occurrence;
- it changes no gradient outside the captured inputs;
- it keeps producers and gradient lengths.

This is an assumption about code that is not shown, not a verified property
of it.

## Model

| member | source | states |
|---|---|---|
| `Shapes.ShapeToArrayLength` | KelpNet/Common/NdArray.cs:326-329 | the product of the empty shape is 1; with non-negative sizes the product is non-negative, and positive exactly when every size is |
| `Shapes.Offset` | KelpNet/Common/NdArray.cs:1082-1095 | the row-major offset of an in-bounds index tuple lies in `[0, product(shape))` |
| `Shapes.LocalOffset` | KelpNet/Common/NdArray.cs:1082-1095 | the indexer's offset within one batch entry agrees with the row-major `Offset` of the leading axes whenever the shape has as many axes as indices, and lies in `[0, product(shape))` for an in-bounds tuple |
| `Shapes.Unflatten` | KelpNet/Common/NdArray.cs:1056-1071 | the tuple of a non-negative offset has one in-range index per axis |
| `Shapes.OffsetOfUnflatten` | KelpNet/Common/NdArray.cs:1056-1095 | for every `0 <= i < Length`, the offset of the tuple of `i` is `i` |
| `Shapes.UnflattenOfOffset` | KelpNet/Common/NdArray.cs:1056-1095 | for every in-bounds tuple, the tuple of its offset is that tuple |
| `Shapes.ProductAppend` | KelpNet/Common/NdArray.cs:326-329 | the product of two concatenated shapes is the product of their products |
| `Shapes.CsDiv` | KelpNet/Common/NdArray.cs:1059 | truncating integer division agrees with Euclidean division on non-negative operands |
| `Shapes.CsRem` | KelpNet/Common/NdArray.cs:1066 | the remainder of a non-negative dividend lies in `[0, |divisor|)` and agrees with Euclidean `%` |
| `Tensors.NdArray.constructor` | KelpNet/Common/NdArray.cs:106-114 | when `product(shape)` is not negative, so that the allocation succeeds: one batch entry; `Data` and `Grad` are fresh, distinct zero buffers of `product(shape)` elements |
| `Tensors.NdArray.FromData` | KelpNet/Common/NdArray.cs:125-134 | when `product(shape)·batchCount` is not negative: `Data` is a copy of the argument; `Grad` is zeros of `product(shape)·batchCount`; the tensor is `Valid` exactly when length and count are not negative and the data has `product(shape)·batchCount` elements |
| `Tensors.NdArray.Allocate` | KelpNet/Common/NdArray.cs:144-153 | when `product(shape)·batchCount` is not negative: `Data` and `Grad` are both zeros of that many elements, counters zero; `Valid` exactly when neither factor is negative, `Shaped` when no size is negative either |
| `Tensors.NewArray` | KelpNet/Common/NdArray.cs:106-114 | fails with `NegativeSize` exactly when `product(shape)` is negative; otherwise the constructor's tensor |
| `Tensors.NewFromData` | KelpNet/Common/NdArray.cs:125-134 | fails with `NegativeSize` exactly when `product(shape)·batchCount` is negative; otherwise `FromData`'s tensor |
| `Tensors.NewAllocate` | KelpNet/Common/NdArray.cs:144-153 | fails with `NegativeSize` exactly when `product(shape)·batchCount` is negative; otherwise `Allocate`'s tensor |
| `Tensors.NdArray.Init` | KelpNet/Common/NdArray.cs:812-823 | every field takes the given value, with fresh distinct buffers |
| `Tensors.NdArray.GetLocalIndex` | KelpNet/Common/NdArray.cs:1082-1095 | accepts one index at any rank, including rank 0, or up to as many indices as axes; the loop computes `b·Length + LocalOffset(Shape, indices)`, that is `b·Length + Offset(Shape[..|indices|], indices)` whenever the shape has that many axes; for an in-bounds tuple it lies in `[b·Length, (b+1)·Length)` |
| `Tensors.NdArray.GetDimensionsIndex` | KelpNet/Common/NdArray.cs:1056-1071 | fails with `DivideByZero` exactly when `Length` or some size is zero; for positive sizes and a non-negative index the loop computes the tuple of `index mod Length`, in bounds, whose offset is `index mod Length` when `Length` is the product |
| `Tensors.NdArray.Get` | KelpNet/Common/NdArray.cs:225-227 | reads `Data` at the local index when the tuple is addressable and that index lies in the buffer, so a single index reads a rank-0 tensor; fails with an index error otherwise; in-bounds tuple and batch always succeed |
| `Tensors.ScalarRead` | KelpNet/Common/NdArray.cs:225-227 | `new NdArray()` has shape `[]` and one element, and the indexer with the single index `0` reads it (zero) |
| `Tensors.NdArray.Set` | KelpNet/Common/NdArray.cs:225-228 | writes exactly that element of `Data` under the same condition, rank 0 included, changes nothing on failure |
| `Tensors.NdArray.Reshape` | KelpNet/Common/NdArray.cs:239-282 | the new `Shape` and the caller's array both become `ReshapeResult(Length, shape)` on success, and both stay on failure; only `Shape` and the argument may change |
| `Tensors.NdArray.CountUp` | KelpNet/Common/NdArray.cs:368-371 | `TrainCount` rises by one |
| `Tensors.NdArray.Reduce` | KelpNet/Common/NdArray.cs:379-392 | returns whether `TrainCount > 0`; if so every `Grad` entry is divided by `TrainCount`, otherwise `Grad` is unchanged; `TrainCount` is not reset |
| `Tensors.NdArray.ClearGrad` | KelpNet/Common/NdArray.cs:395-401 | `Grad` becomes fresh zeros of `Data`'s length and `TrainCount` zero, whatever they were |
| `Tensors.NdArray.Clone` | KelpNet/Common/NdArray.cs:810-824 | a fresh tensor with copies of both buffers and equal shape, length, batch count and counters |
| `Tensors.NdArray.GetSingleArray` | KelpNet/Common/NdArray.cs:310-316 | batch entry `i` exactly: `Data[i·Length .. (i+1)·Length)`, same shape, one batch entry, zero `Grad`; a negative `Length` or product fails with `NegativeSize`, a negative offset with `ArgumentOutOfRange`, a range past `Data` with `InvalidArgument`, in the source's order |
| `Tensors.NdArray.DivideArrays` | KelpNet/Common/NdArray.cs:290-300 | succeeds exactly when there is no batch entry, or every entry lies inside `Data` and the product is not negative; then one fresh tensor per entry, in order, tensor `b` holding slab `b` of `Data`, the shape, one batch entry and a fresh zero `Grad` of the product's length; otherwise the error of the first entry that fails |
| `Tensors.EntryFailure` | KelpNet/Common/NdArray.cs:290-316 | when entry `i` cannot be taken but the ones before it could, no division of the whole buffer succeeds, and `GetSingleArray`'s reason for entry `i` is the one read off the sizes |
| `Tensors.FromArrays` | KelpNet/Common/NdArray.cs:164-182 | `BatchCount` is the number of arrays; `Data` is their stack; `Grad` is zero; no array fails with an index error, a short one fails the copy with `InvalidArgument` |
| `Tensors.CopyBlock` | KelpNet/Common/NdArray.cs:176-179 | one `Array.Copy` extends the stacked prefix by the next array |
| `Tensors.DivideFromArrays` | KelpNet/Common/NdArray.cs:164-182 | `DivideArrays` of `FromArrays` of equal-length arrays of one shape succeeds and gives every array back, in order, with that shape, one batch entry, `Length` equal to the array's length and a zero gradient each |
| `Tensors.Convert` | KelpNet/Common/NdArray.cs:195-198 | fails with `NegativeSize` exactly when `product(shape)·batchCount` is negative; otherwise the caller's array becomes `Data` itself, not a copy, and `Grad` is zeros of `product(shape)·batchCount` |
| `Tensors.ZerosLike` | KelpNet/Common/NdArray.cs:208-211 | fails with `NegativeSize` exactly when the argument's shape product times its batch count is negative; otherwise zero data and gradient with its shape and batch count, `Length` taken from the shape; never fails for a `Shaped` argument, and keeps its `Length` then |
| `Blocks.StackSlab` | KelpNet/Common/NdArray.cs:164-182 | slab `i` of stacked arrays is array `i`, so splitting `FromArrays` into batch entries gives each array back |
| `Blocks.SlabInside` | KelpNet/Common/NdArray.cs:312-313 | slab `b` of a buffer of `n` entries lies inside it |
| `Blocks.SlabsEqual` | KelpNet/Common/NdArray.cs:290-300 | two buffers of `n` entries that agree batch entry by batch entry are equal |
| `Reshaping.FirstRejection` | KelpNet/Common/NdArray.cs:249-273 | the first entry at which the scan throws, or the rank when none does; no entry before it is zero |
| `Reshaping.IndexOf` | KelpNet/Common/NdArray.cs:247-271 | the position of the first `-1`, which `minusIndex` ends up holding |
| `Reshaping.SecondInferredFails` | KelpNet/Common/NdArray.cs:264-269 | a second `-1` makes the reshape fail |
| `Reshaping.NonDividingFails` | KelpNet/Common/NdArray.cs:251-262 | an entry that does not divide `Length` makes a reshape with `-1` fail |
| `Reshaping.ReshapeInfers` | KelpNet/Common/NdArray.cs:245-276 | with one `-1`, other entries positive and dividing `Length`, and their product dividing `Length`, the `-1` becomes `Length / product(others)` and the new product is `Length` |
| `Reshaping.ReshapeAcceptsNonDividingProduct` | KelpNet/Common/NdArray.cs:253-258 | `[4, 6, -1]` on 12 elements is accepted as `[4, 6, 0]`, whose product is 0 |
| `Reshaping.CheckedReshapeKeepsLength` | KelpNet/Common/NdArray.cs:239-282 | dividing the running quotient instead, every accepted shape has product `Length` |
| `Reshaping.CheckedReshapeRejectsNonDividingProduct` | KelpNet/Common/NdArray.cs:253-258 | the running-quotient check rejects `[4, 6, -1]` on 12 elements |
| `Reductions.Line` | KelpNet/Common/NdArray.cs:905-909 | the offsets summed into one output element: one per position along the axis, all inside the entry |
| `Reductions.SumBlockAt` | KelpNet/Common/NdArray.cs:905-916 | the summed entry at a reduced tuple is the sum of the input along the removed axis through that tuple |
| `Reductions.SumBlockExample` | KelpNet/Common/NdArray.cs:891-919 | shape `[2, 3]` holding `1..6` summed over axis 0 is `[5, 7, 9]` |
| `Summation.RemoveAxis` | KelpNet/Common/NdArray.cs:893-901 | the result shape is the shape without `axis`; an empty shape or an axis outside it fails |
| `Summation.ReducedIndex` | KelpNet/Common/NdArray.cs:907-909 | the reduced position of offset `i`; it fails exactly when the input has rank 1 |
| `Summation.AddAlongAxis` | KelpNet/Common/NdArray.cs:905-916 | the nested loops add every element of every batch entry, `Data` and `Grad`, at its reduced position |
| `Summation.SumAxis` | KelpNet/Common/NdArray.cs:891-919 | a fresh tensor of the shape without `axis`, the same batch count, each entry's `Data` and `Grad` the input's summed over `axis`; it fails for an axis outside the shape and for rank 1 with elements |
| `SumOverAxes.Sort` | KelpNet/Common/NdArray.cs:856 | `Array.Sort`: an ascending permutation of the axes |
| `SumOverAxes.SortInPlace` | KelpNet/Common/NdArray.cs:856 | the caller's array ends up holding `Sort` of its old contents |
| `SumOverAxes.SortDistinct` | KelpNet/Common/NdArray.cs:856 | sorting keeps the number of axes and their distinctness |
| `SumOverAxes.Max` | KelpNet/Common/NdArray.cs:846 | `axis.Max()` is one of the axes and none is above it |
| `SumOverAxes.AllAxes` | KelpNet/Common/NdArray.cs:851-854 | no axis named means every axis `0 .. rank-1` |
| `SumOverAxes.Steps` | KelpNet/Common/NdArray.cs:858-863 | step `i` reduces the sorted axis `i` shifted down by `i` |
| `SumOverAxes.Plan` | KelpNet/Common/NdArray.cs:858-863 | each successful step removes one axis and keeps sizes non-negative |
| `SumOverAxes.SumShape` | KelpNet/Common/NdArray.cs:838-863 | duplicate axes fail; an axis above the rank fails; on success one axis is removed per named axis |
| `SumOverAxes.SumSucceeds` | KelpNet/Common/NdArray.cs:838-863 | distinct axes inside the shape, fewer than the rank, always succeed |
| `SumOverAxes.SumAllAxesFails` | KelpNet/Common/NdArray.cs:851-863 | summing every axis of a tensor with elements, by default or by name, fails |
| `SumOverAxes.SumAxisAtRankFails` | KelpNet/Common/NdArray.cs:846-848 | an axis equal to the rank passes the range check and fails later |
| `SumOverAxes.CheckedSumShapeAgrees` | KelpNet/Common/NdArray.cs:846-848 | the `<=` check rejects the axis at the rank as out of range and agrees with the source on axes below the rank |
| `SumOverAxes.SumBlockTotal` | KelpNet/Common/NdArray.cs:905-916 | a single-axis sum keeps the total of each batch entry |
| `SumOverAxes.FoldedTotal` | KelpNet/Common/NdArray.cs:858-863 | any sequence of successful single-axis sums keeps the total |
| `SumOverAxes.SumShapeExample` | KelpNet/Common/NdArray.cs:856-863 | axes `[2, 0]` on shape `[2, 3, 4]` reduce axis 0 and then axis 1, leaving `[3]` |
| `SumOverAxes.KeepDims` | KelpNet/Common/NdArray.cs:867-876 | `count` ones followed by the result shape |
| `SumOverAxes.KeepRank` | KelpNet/Common/NdArray.cs:865-877 | only the shape changes, to the ones in front of the old shape |
| `SumOverAxes.ReduceSteps` | KelpNet/Common/NdArray.cs:858-863 | the loop of single-axis sums succeeds exactly when the plan does, and each entry's `Data` and `Grad` are the input's reduced over every step |
| `SumOverAxes.Sum` | KelpNet/Common/NdArray.cs:838-880 | succeeds exactly when `SumShape` does, with the same error otherwise; keeps `BatchCount`; with `keepDims` the rank of the input is restored by leading ones; `Data` and `Grad` are reduced over the sorted, shifted axes; once the checks pass the caller's axis array holds its axes sorted (`Sort` of its old contents), and it is untouched when they fail |
| `Pieces.Piece` | KelpNet/Common/NdArray.cs:971-978 | the piece's element `j` is the whole block's element at the tuple of `j` moved along the axis to the piece's start |
| `Pieces.PieceAt` | KelpNet/Common/NdArray.cs:973-978 | the same, stated for every tuple of the piece |
| `Pieces.Joined` | KelpNet/Common/NdArray.cs:1025-1042 | the joined block takes the first block below its size along the axis, and the second block shifted back above it |
| `Pieces.JoinedAt` | KelpNet/Common/NdArray.cs:1025-1042 | the same, stated for every tuple of the joined shape |
| `Pieces.PieceOfJoinedFront` | KelpNet/Common/NdArray.cs:946-984 | cutting the joined block at the first block's size gives back the first block |
| `Pieces.PieceOfJoinedBack` | KelpNet/Common/NdArray.cs:998-1046 | the rest of the cut is the second block |
| `Pieces.JoinedOfPieces` | KelpNet/Common/NdArray.cs:946-1046 | joining the two pieces of a cut gives back the block |
| `Splitting.Sizes` | KelpNet/Common/NdArray.cs:951-956 | piece `i` spans from the cut before it to the cut after it |
| `Splitting.SizesTotal` | KelpNet/Common/NdArray.cs:951-956 | the piece sizes add up to the axis size |
| `Splitting.SizesAscending` | KelpNet/Common/NdArray.cs:951-956 | no piece size is negative exactly when the cuts ascend within the axis |
| `Splitting.Bounds` | KelpNet/Common/NdArray.cs:948-956 | the loop computes the starts and sizes of the pieces |
| `Splitting.AllocatePieces` | KelpNet/Common/NdArray.cs:958-965 | one fresh zero tensor per piece, with the input's shape except on the axis; fails with `NegativeSize` exactly when some piece has a negative size product and there are batch entries |
| `Splitting.FillPieces` | KelpNet/Common/NdArray.cs:967-981 | every piece's `Data` and `Grad` are the input's piece, batch entry by batch entry |
| `Splitting.Split` | KelpNet/Common/NdArray.cs:946-984 | `len(indices)+1` fresh pieces with the input's batch count, shape and cut sizes, each holding its piece of `Data` and `Grad`; no cut or a bad axis fails; a piece with a negative size product fails unless there is no batch entry |
| `Splitting.SplitAt` | KelpNet/Common/NdArray.cs:931-934 | the two pieces on either side of one cut; fails exactly for a bad axis, or for a negative size product on either side when there are batch entries |
| `Concatenation.SizeCheck` | KelpNet/Common/NdArray.cs:1004-1010 | the per-axis size check fails only with an index error (an axis the second shape lacks) or a size mismatch |
| `Concatenation.ConcatCheckPass` | KelpNet/Common/NdArray.cs:1000-1016 | the checks pass exactly when the axis is in both shapes, the other sizes match and the batch counts match |
| `Concatenation.CheckSizes` | KelpNet/Common/NdArray.cs:1004-1010 | the checking loop returns `SizeCheck`'s verdict |
| `Concatenation.AllocateJoined` | KelpNet/Common/NdArray.cs:1018 | a fresh, shaped result of the joined shape and the batch count, all zeros, counters zero |
| `Concatenation.JoinChecked` | KelpNet/Common/NdArray.cs:1018-1045 | after the checks: the result's axis size is the sum, and every batch entry of `Data` and `Grad` is the two entries joined |
| `Concatenation.Concatenate` | KelpNet/Common/NdArray.cs:998-1046 | fails on a mismatched size or batch count; otherwise a fresh tensor whose axis size is `a.Shape[axis] + b.Shape[axis]` and whose entries are `a`'s and `b`'s joined |
| `RoundTrips.FrontCutOfGlued` | KelpNet/Common/NdArray.cs:946-1046 | in a buffer of joined entries, the piece of every entry below the first block's size is the first buffer |
| `RoundTrips.BackCutOfGlued` | KelpNet/Common/NdArray.cs:946-1046 | the piece of every entry above it is the second buffer |
| `RoundTrips.SplitOfConcatenate` | KelpNet/Common/NdArray.cs:946-1046 | for two tensors of one rank that agree off `axis` and in batch count, `Split(Concatenate(a, b, axis), a.Shape[axis], axis)` succeeds with two tensors whose shapes, batch counts, `Data` and `Grad` are exactly `a`'s and `b`'s |
| `Backpropagation.Pop` | KelpNet/Common/NdArray.cs:355-356 | the captured lists without the newest one |
| `Backpropagation.Visit` | KelpNet/Common/NdArray.cs:351-365 | static `Backward` as written: the arena stays well formed, each stage backward that runs consumes exactly one pending input list, and the first one runs for the node entered when it has a producer |
| `Backpropagation.VisitKeeps` | KelpNet/Common/NdArray.cs:351-365 | every stage backward a walk runs belongs to a node with a producer; the walk keeps producers and gradient lengths, never raises a use count, and leaves nodes no pending list captures untouched |
| `Backpropagation.NoneReady` | KelpNet/Common/NdArray.cs:358-363 | when no captured input reaches a zero count, exactly one stage backward runs |
| `Backpropagation.Exhausted` | KelpNet/Common/NdArray.cs:355-356 | entering a node whose producer has no pending list fails reading index -1 |
| `Backpropagation.Ready` | KelpNet/Common/NdArray.cs:360 | the inputs whose count is zero, once each, in order |
| `Backpropagation.Seeded` | KelpNet/Common/NdArray.cs:334-339 | a leaf is left as it is; otherwise only the root's gradient changes, to all ones |
| `Backpropagation.Arena.Propagate` | KelpNet/Common/NdArray.cs:351-365 | the method computes what `Visit` describes, in place |
| `Backpropagation.Arena.PropagateEach` | KelpNet/Common/NdArray.cs:360-363 | the `foreach` with its lazy filter computes what `VisitEach` describes |
| `Backpropagation.Arena.Backward` | KelpNet/Common/NdArray.cs:332-343 | a leaf changes nothing; otherwise the root's gradient is all ones and the walk runs from it |
| `Backpropagation.LazyFilterRevisitsShared` | KelpNet/Common/NdArray.cs:351-365 | on the residual diamond the walk as written enters the shared input twice and fails |
| `Backpropagation.LazyFilterRepeatsInput` | KelpNet/Common/NdArray.cs:351-365 | an input captured twice by one stage is entered twice and the walk fails |
| `Backpropagation.EagerReadyVisitsDiamondOnce` | KelpNet/Common/NdArray.cs:351-365 | with the ready list taken before recursing, the diamond's stages each run backward once |
| `Backpropagation.EagerReadyVisitsSquareOnce` | KelpNet/Common/NdArray.cs:351-365 | the same for the input captured twice |
| `Optimizers.Velocity` | KelpNet/Optimizers/MomentumSGD.cs:92-93 | the new velocity has the old one's length |
| `Optimizers.UpdateIsOneStep` | KelpNet/Optimizers/MomentumSGD.cs:88-97 | one update is, entry by entry, `v' = m·v − lr·g` and `p' = p + v'` |
| `Optimizers.ZeroIsFixedPoint` | KelpNet/Optimizers/MomentumSGD.cs:88-97 | zero velocity and zero gradient leave data and velocity unchanged |
| `Optimizers.RestStaysAtRest` | KelpNet/Optimizers/MomentumSGD.cs:88-97 | under zero gradient an entry at rest stays put for any number of updates |
| `Optimizers.TwoStepsFromRest` | KelpNet/Optimizers/MomentumSGD.cs:88-97 | two updates from rest with gradient `g` give velocity `−lr·g·(1+m)` and a total move of `−lr·g·(2+m)` |
| `Optimizers.ExampleSteps` | KelpNet/Optimizers/MomentumSGD.cs:88-97 | `p=1, g=2, lr=0.1, m=0.9` gives `p = 0.8`, then `0.42` |
| `Optimizers.MomentumSGD.constructor` | KelpNet/Optimizers/MomentumSGD.cs:30-34 | the hyperparameters given, no registered parameter |
| `Optimizers.MomentumSGD.Default` | KelpNet/Optimizers/MomentumSGD.cs:30-34 | `LearningRate = 0.01` and `Momentum = 0.9` |
| `Optimizers.MomentumSGD.AddFunctionParameters` | KelpNet/Optimizers/MomentumSGD.cs:44-50 | appends exactly one fresh adapter per tensor, in order, each with a zero velocity of its data's length; earlier adapters stay |
| `Optimizers.MomentumSGDParameter.constructor` | KelpNet/Optimizers/MomentumSGD.cs:76-80 | a fresh zero velocity of `Data.Length` elements; the adapter is ready to update exactly when the tensor's gradient covers its data in a buffer of its own |
| `Optimizers.MomentumSGDParameter.UpdateFunctionParameters` | KelpNet/Optimizers/MomentumSGD.cs:88-97 | `v` becomes `Velocity(v, Grad)` and `Data` moves by the new `v`; `Grad` is unchanged and only `v` and `Data` may change |

## Left out

- `NdArray(Array)`, the implicit conversions and `FromArrays`'s reading of CLR arrays: they rest on `Real.GetArray` and array rank reflection, which are not part of this model. `Tensors.FromArrays` takes the arrays as flat sequences with the first one's shape given.
- `ToString` and the arithmetic operators: text formatting of doubles, and delegations to stages whose code is not part of this model.
- `Name` and `ParentFunc` of `NdArray`: the arena's `Node.parent` stands for `ParentFunc`; names carry no behaviour.
- `Function.Backward`, `PrevInputs` bookkeeping and the stages themselves (`Sin`, `Tan`, `SplitFunction`) are not part of this model. They enter only as the assumed `StageConforms` step.
- The fan-out gradient sum for concrete stages: it depends on the stages' arithmetic, which is not modelled.
- `MomentumSGD` rounding: exact reals stand for `Real` (float or double), so IEEE rounding is not modelled.
- 32-bit overflow of `int` products such as `Length * batchCount`: integers are unbounded.
- Concurrency, serialization and GPU kernels.
- Summation.SumAxis: requires `Shaped()`, which excludes three kinds of tensor that the constructors and `Reshape` can build. The model does not say what the source computes, or where it throws, for any of them:
  - a tensor whose `Length` is not its shape's product. `Reshape` with an inferred size builds one (see Findings); the source's loops then use both numbers.
  - a shape with a negative size whose product is not negative, such as `new NdArray(-2, -3)` with `Length` 6. The source's `Sum` over axis 0 then allocates `new Real[-3]` and throws.
  - a data buffer whose length is not `Length * BatchCount`. The data constructor and `Convert` take the caller's buffer unchecked, and the source's loops then read past its end, which is an index error, or leave part of it unread.
  - A negative `Length` or `BatchCount`, or a gradient that does not match the data, is excluded too. These already fail `Valid()`.
- SumOverAxes.Sum: requires `Shaped()`, for the same reasons as `SumAxis`, and with the same three kinds of tensor excluded.
- Splitting.Split: requires `Shaped()`, for the same reasons as `SumAxis`, and with the same three kinds of tensor excluded.
- Splitting.SplitAt: requires `Shaped()`, for the same reasons as `SumAxis`, and with the same three kinds of tensor excluded.
- Splitting.AllocatePieces: requires `Shaped()`, for the same reasons as `SumAxis`, and with the same three kinds of tensor excluded.
- Concatenation.Concatenate: requires `Shaped()` of both tensors, for the same reasons as `SumAxis`, and with the same three kinds of tensor excluded.
- Tensors.NdArray.GetDimensionsIndex: for a shape with a negative size, the model says only that the tuple has one entry per axis, not which entries the truncating `/` and `%` give.
- RoundTrips.SplitOfConcatenate: stated for tensors of equal rank only. When `b` has more axes than `a`, `Concatenate` fails unless `b` is empty or there is no batch entry, and its pieces then have `a`'s rank, not `b`'s.
- Tensors.NdArray.Reduce: stated with real division, where the source divides floats by an `int` count.

## Findings

| source | as written | input that shows it | evidently intended | confidence | as-written member | corrected member |
|---|---|---|---|---|---|---|
| KelpNet/Common/NdArray.cs:253-258 | each entry beside `-1` is checked against `Length`, then divides the running quotient | `Reshape(4, 6, -1)` on 12 elements gives shape `[4, 6, 0]` | each entry divides what is left, so the new product is `Length` | high, not executed | `Reshaping.ReshapeAcceptsNonDividingProduct` | `Reshaping.CheckedReshapeKeepsLength` |
| KelpNet/Common/NdArray.cs:846 | `a.Shape.Length < axis.Max()` | `Sum(a, false, rank)` passes the check and fails later with an index error | `<=`, reporting the axis as out of range | high, not executed | `SumOverAxes.SumAxisAtRankFails` | `SumOverAxes.CheckedSumShapeAgrees` |
| KelpNet/Common/NdArray.cs:360-363 | lazy `Where(t => t.UseCount == 0)` tested after earlier siblings' walks | `y = f2(p, t)`, `p = f1(t)`, `t = f0(x)`: `t` is entered twice and `f0`'s empty `PrevInputs` is read at index -1 | the ready inputs taken once, right after the stage backward | medium (rests on the assumed stage behaviour), not executed | `Backpropagation.LazyFilterRevisitsShared` | `Backpropagation.EagerReadyVisitsDiamondOnce` |
