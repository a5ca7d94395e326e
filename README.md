# Mesh normalisation, quantisation and seam tokens in Dafny

This project models the numeric core of a mesh preprocessing pipeline and
the prototype tokeniser for mesh seams, and proves properties of both.

The pipeline takes the vertex positions of a triangle mesh through four steps:

- It normalises them, either into the bounding box `[0,1]^3` (min-max) or
  into the unit ball around the centroid (unit sphere).
- It quantises them onto an integer grid of `bins` cells per axis.
- It dequantises them and denormalises them back.
- It measures the per-axis mean squared error and mean absolute error
  against the original positions.

The unit-sphere path shifts `[-1,1]` onto `[0,1]` with `(n + 1) / 2` before
quantising, and undoes the shift with `* 2 - 1` before denormalising.

The seam tokeniser does three things:

- It picks every 50th unique edge as a seam, which is the UV branch of
  `identify_seams`.
- It writes each seam `(a, b)` as the text token `E(a,b)`.
- It parses tokens back with Python's `str.strip("E()")`, `str.split(",")` and
  `int`.

Modules:

- `Wrappers` (wrappers.dfy): `Option`.
- `Vectors` (vectors.dfy): three-axis points `Vec3`, grid cells `Cell`,
  differences and squared norms.
- `RealArith` (real_arith.dfy): scalar facts about real multiplication, division
  and `Floor`.
- `NormalizeQuantize` (normalize_quantize.dfy): `minmax_normalize`,
  `unit_sphere_normalize`, the shift and `quantize`, from
  src/task2_normalize_quantize.py.
- `ReconstructError` (reconstruct_error.dfy): dequantisation, the two
  denormalisers, the end-to-end pipelines and `compute_errors`, from
  src/task3_reconstruct_error.py.
- `PythonText` (python_text.dfy): the string built-ins that the tokeniser calls,
  limited to ASCII text: `strip` with a character set, `split` on one
  character, `str` of an integer and `int` of a string.
- `SeamTokenization` (seam_tokenization.dfy): the seam selection, the encoder
  and the decoder, from src/seam_tokenization.py. The decoder is a `for` loop
  that appends to a list. It is modelled as a method with a `while` loop,
  proved equal to the function `DecodeAll`.

Coordinates are exact reals. A Python exception (`ValueError` from `int`, or a
failed unpacking of `a, b`) is `None`.

The model makes these points explicit:

- The Euclidean norm needs a square root. So `max_dist` is passed in, and the
  predicate `IsMaxDist` pins it down: it is non-negative and its square is the
  largest squared distance to the centroid.
- A finer grid does not always reconstruct better. At `x = 1/15`, a 16-cell
  grid is exact and a 1024-cell grid is not (lemma `FinerGridCanBeWorse`).
  The only bound that holds for every input is the per-cell bound
  `1 / (bins - 1)`.
- Vertices on a face of the bounding box come back exactly through the min-max
  pipeline (lemma `MinMaxExactOnBoxFaces`). So every corner of an axis-aligned
  box mesh is reconstructed without error.
- The decoder accepts more than the encoder produces. `strip` removes any run
  of `E`, `(` and `)` at either end, so `((E1,2)E` decodes to `(1, 2)` (lemma
  `AcceptsLooseBrackets`). `int` accepts surrounding whitespace, a sign and
  underscores between digits; its whitespace is space and `\t` to `\r`
  only, so a field starting with the separator `\x1c` raises (lemma
  `RejectsSeparatorInField`).

## Model

| member | source | states |
|---|---|---|
| `NormalizeQuantize.AxisMin` | src/task2_normalize_quantize.py:12 | the per-axis minimum is at most every vertex's coordinate and is the coordinate of some vertex |
| `NormalizeQuantize.AxisMax` | src/task2_normalize_quantize.py:13 | the per-axis maximum is at least every vertex's coordinate and is the coordinate of some vertex |
| `NormalizeQuantize.BoundingBoxAt` | src/task2_normalize_quantize.py:12-13 | the `v_min`/`v_max` metadata holds the per-axis minimum and maximum |
| `NormalizeQuantize.BoundingBox` | src/task2_normalize_quantize.py:12-13 | the `(v_min, v_max)` metadata; specified by `BoundingBoxAt` and `BoundingBoxTight` |
| `NormalizeQuantize.BoundingBoxTight` | src/task2_normalize_quantize.py:12-13 | every vertex lies inside the box, and each face of the box is touched by a vertex |
| `NormalizeQuantize.MinMaxScale` | src/task2_normalize_quantize.py:14 | one vertex rescaled into its box; specified by `MinMaxScaleAt`, `ScaleIntoUnit` and `DenormalizeScaleVertex` |
| `NormalizeQuantize.MinMaxNormalize` | src/task2_normalize_quantize.py:10-16 | one output per vertex, in order; each vertex scaled by the set's bounding box, which is returned as the metadata |
| `NormalizeQuantize.MinMaxScaleAt` | src/task2_normalize_quantize.py:14 | each coordinate becomes `(c - v_min) / (v_max - v_min)` on its own axis |
| `NormalizeQuantize.ScaleIntoUnit` | src/task2_normalize_quantize.py:14 | a coordinate inside `[lo, hi]` maps into `[0, 1]`, `lo` to 0 and `hi` to 1 |
| `NormalizeQuantize.MinMaxNormalizeInUnitCube` | src/task2_normalize_quantize.py:14 | every normalised coordinate lies in `[0, 1]` |
| `NormalizeQuantize.MinMaxNormalizeAttainsEnds` | src/task2_normalize_quantize.py:12-14 | on every axis some vertex normalises to 0 and some to 1 |
| `NormalizeQuantize.Mean` | src/task2_normalize_quantize.py:20 | the centre times the vertex count is the column sum, per axis |
| `NormalizeQuantize.AxisMean` | src/task2_normalize_quantize.py:20 | one column of `v.mean(axis=0)`; specified by `MeanBetween` and `MeanBetweenExtremes` |
| `NormalizeQuantize.Centered` | src/task2_normalize_quantize.py:21 | one centred vertex per input vertex, row `i` being `v[i] - c` |
| `NormalizeQuantize.SumOfCentered` | src/task2_normalize_quantize.py:21 | subtracting `c` from every vertex lowers a column sum by `n * c` |
| `NormalizeQuantize.MeanCentersColumns` | src/task2_normalize_quantize.py:20-21 | after centring on the mean, every column sums to 0 |
| `NormalizeQuantize.SumBetween` | src/task2_normalize_quantize.py:20 | a column sum of `n` entries in `[lo, hi]` lies in `[n * lo, n * hi]` |
| `NormalizeQuantize.MeanBetween` | src/task2_normalize_quantize.py:20 | a column mean lies between any bounds of its entries |
| `NormalizeQuantize.MeanBetweenExtremes` | src/task2_normalize_quantize.py:20 | a column mean lies between the column minimum and maximum |
| `NormalizeQuantize.MeanWithinBox` | src/task2_normalize_quantize.py:20 | the centroid lies inside the bounding box |
| `NormalizeQuantize.MaxSqDist` | src/task2_normalize_quantize.py:22 | the largest squared distance to the centre bounds every vertex's and is reached by one |
| `NormalizeQuantize.IsMaxDist` | src/task2_normalize_quantize.py:22 | `max_dist` is the non-negative root of the largest squared distance to the centre; specified by `MaxSqDist` and `UnitSphereInBall` |
| `NormalizeQuantize.Shrink` | src/task2_normalize_quantize.py:23 | one centred vertex divided by `max_dist`; specified by `SqNormShrink`, `ShrinkIntoBall` and `ShrinkOntoSphere` |
| `NormalizeQuantize.UnitSphereNormalize` | src/task2_normalize_quantize.py:18-25 | one output per vertex, in order, each `(v - center) / max_dist`; the metadata is the centroid and `max_dist` |
| `NormalizeQuantize.SqNormShrink` | src/task2_normalize_quantize.py:23 | dividing by `s` divides the squared norm by `s * s` |
| `NormalizeQuantize.ShrinkIntoBall` | src/task2_normalize_quantize.py:23 | a point within `d` of the centre lands in the unit ball, every coordinate in `[-1, 1]` |
| `NormalizeQuantize.ShrinkOntoSphere` | src/task2_normalize_quantize.py:22-23 | a point at distance exactly `d` lands on the unit sphere |
| `NormalizeQuantize.UnitSphereInBall` | src/task2_normalize_quantize.py:22-23 | every output has norm at most 1 and coordinates in `[-1, 1]`; the farthest vertex has norm exactly 1 |
| `NormalizeQuantize.ShiftToUnit` | src/task2_normalize_quantize.py:46 | `(n + 1) / 2` for one vertex; specified by `ShiftRange`, `ShiftOnto` and `ShiftInverse` |
| `NormalizeQuantize.ShiftAll` | src/task2_normalize_quantize.py:46 | the shift keeps the vertex count, row `i` being `(n[i] + 1) / 2` |
| `NormalizeQuantize.ShiftRange` | src/task2_normalize_quantize.py:46 | a coordinate lies in `[-1, 1]` if and only if its shifted value lies in `[0, 1]` |
| `NormalizeQuantize.ShiftOnto` | src/task2_normalize_quantize.py:46 | every value in `[0, 1]` is the shift of a value in `[-1, 1]`, so the shift is onto |
| `NormalizeQuantize.ShiftedUnitSphereInUnitCube` | src/task2_normalize_quantize.py:45-47 | the shifted unit-sphere output, which is what gets quantised, lies in `[0, 1]^3` |
| `NormalizeQuantize.Clip` | src/task2_normalize_quantize.py:28 | the clipped value lies in `[0, 1]` and equals the input when the input already does |
| `RealArith.ScaledFloor` | src/task2_normalize_quantize.py:29 | `floor(c * b)` for `c` in `[0, 1]` and `b >= 0` lies in `0 .. floor(b)` |
| `RealArith.ScaledFloorMono` | src/task2_normalize_quantize.py:29 | `floor(c * b)` is monotone in `c` |
| `NormalizeQuantize.QuantizeCoord` | src/task2_normalize_quantize.py:28-29 | a quantised coordinate lies in `0 .. bins - 1` |
| `NormalizeQuantize.QuantizeVertex` | src/task2_normalize_quantize.py:28-29 | one vertex quantised axis by axis; specified by the per-axis ensures of `Quantize` and by `QuantizeCoord` |
| `NormalizeQuantize.Quantize` | src/task2_normalize_quantize.py:27-30 | one cell per vertex, in order, each axis quantised on its own, every index below `bins` |
| `NormalizeQuantize.QuantizeMonotone` | src/task2_normalize_quantize.py:28-29 | `x <= y` gives `Q(x) <= Q(y)` |
| `NormalizeQuantize.QuantizeEnds` | src/task2_normalize_quantize.py:28-29 | `Q(0) = 0` and `Q(1) = bins - 1`; inputs below 0 or above 1 clamp to those cells |
| `NormalizeQuantize.QuantizeFitsInt32` | src/task2_normalize_quantize.py:29 | for `bins <= 2^31` every index fits `int32`, so the cast changes nothing |
| `ReconstructError.DequantizeCoord` | src/task3_reconstruct_error.py:42 | `q / (bins - 1)` for one index; specified by `DequantizeRange`, `QuantizeDequantize` and `QuantizationError` |
| `ReconstructError.DequantizeVertex` | src/task3_reconstruct_error.py:42 | one cell dequantised axis by axis; specified by the ensures of `Dequantize` and by `DequantizeRange` |
| `ReconstructError.Dequantize` | src/task3_reconstruct_error.py:42 | one point per cell, in order, each coordinate `q / (bins - 1)` |
| `ReconstructError.DenormalizeCoord` | src/task3_reconstruct_error.py:13 | `d * (v_max - v_min) + v_min` for one coordinate; specified by `DenormalizeScaleCoord` and `MinMaxCoordError` |
| `ReconstructError.DenormalizeMinMaxVertex` | src/task3_reconstruct_error.py:13 | one point denormalised axis by axis; specified by `DenormalizeScaleVertex` and the ensures of `DenormalizeMinMax` |
| `ReconstructError.DequantizeRange` | src/task3_reconstruct_error.py:42 | a dequantised value lies in `[0, 1]` if and only if the index lies in `0 .. bins - 1` |
| `ReconstructError.QuantizeUnclipped` | src/task2_normalize_quantize.py:28-29 | on `[0, 1]` the clip does nothing, and `Q(x)` is `floor(x * (bins - 1))` |
| `ReconstructError.QuantizeDequantize` | src/task3_reconstruct_error.py:42 | quantising a dequantised index gives the index back |
| `ReconstructError.QuantizationError` | src/task3_reconstruct_error.py:42 | for `x` in `[0, 1]` the dequantised cell is at most `x` and within `1 / (bins - 1)` below it |
| `ReconstructError.FinerGridCanBeWorse` | src/task3_reconstruct_error.py:42 | at `x = 1/15` a 16-cell grid is exact and a 1024-cell grid is not |
| `ReconstructError.DenormalizeMinMax` | src/task3_reconstruct_error.py:11-13 | one point per input, in order, each coordinate `d * (v_max - v_min) + v_min` |
| `ReconstructError.DenormalizeScaleCoord` | src/task3_reconstruct_error.py:13 | denormalising a min-max scaled coordinate gives the coordinate back |
| `ReconstructError.DenormalizeScaleVertex` | src/task3_reconstruct_error.py:13 | the same for a whole vertex |
| `ReconstructError.Unshift` | src/task3_reconstruct_error.py:17 | `s * 2 - 1` for one coordinate; specified by `ShiftInverse` |
| `ReconstructError.Unshrink` | src/task3_reconstruct_error.py:18 | `n * max_dist + center` for one coordinate; specified by `UnshrinkShrinkCoord` and `UnitSphereRoundTripVertex` |
| `ReconstructError.DenormalizeUnitSphereVertex` | src/task3_reconstruct_error.py:17-18 | one point unshifted and unshrunk axis by axis; specified by `UnitSphereRoundTripVertex` and the ensures of `DenormalizeUnitSphere` |
| `ReconstructError.MinMaxRoundTrip` | src/task3_reconstruct_error.py:11-13 | `denormalize_minmax(minmax_normalize(v))` is `v` exactly |
| `ReconstructError.DenormalizeUnitSphere` | src/task3_reconstruct_error.py:15-18 | one point per input, in order, each coordinate `(s * 2 - 1) * max_dist + center` |
| `ReconstructError.ShiftInverse` | src/task3_reconstruct_error.py:17 | `* 2 - 1` and `(n + 1) / 2` are each other's inverse |
| `ReconstructError.UnshrinkShrinkCoord` | src/task3_reconstruct_error.py:17-18 | one coordinate centred, shrunk, shifted, unshifted and unshrunk comes back unchanged |
| `ReconstructError.UnitSphereRoundTripVertex` | src/task3_reconstruct_error.py:15-18 | the same for a whole vertex |
| `ReconstructError.UnitSphereRoundTrip` | src/task3_reconstruct_error.py:15-18 | denormalising the shifted unit-sphere output gives `v` back exactly |
| `ReconstructError.MinMaxReconstruct` | src/task3_reconstruct_error.py:42-43 | the min-max pipeline yields one point per vertex; each point is given by `MinMaxReconstructAt` |
| `ReconstructError.UnitSphereReconstruct` | src/task3_reconstruct_error.py:51-52 | the unit-sphere pipeline yields one point per vertex; each point is given by `UnitSphereReconstructAt` |
| `ReconstructError.MinMaxReconstructAt` | src/task3_reconstruct_error.py:42-43 | each vertex is quantised, dequantised and denormalised on its own, against the box of the whole set |
| `ReconstructError.UnitSphereReconstructAt` | src/task3_reconstruct_error.py:51-52 | each vertex is centred, shrunk, shifted, quantised, dequantised and mapped back on its own, against the centroid and `max_dist` |
| `ReconstructError.MinMaxCoordError` | src/task3_reconstruct_error.py:42-43 | one coordinate through the min-max pipeline comes back at most its value, and less than `(hi - lo) / (bins - 1)` below it |
| `ReconstructError.MinMaxReconstructionError` | src/task3_reconstruct_error.py:42-43 | every reconstructed min-max coordinate is within one grid step `(v_max - v_min) / (bins - 1)` below the original |
| `ReconstructError.MinMaxCoordExactAtEnds` | src/task3_reconstruct_error.py:42-43 | a coordinate equal to `lo` or `hi` comes back exactly |
| `ReconstructError.MinMaxExactOnBoxFaces` | src/task3_reconstruct_error.py:42-43 | a vertex coordinate on a face of the bounding box is reconstructed exactly |
| `ReconstructError.SphereCoordError` | src/task3_reconstruct_error.py:51-52 | one coordinate through the unit-sphere pipeline comes back less than `2 * max_dist / (bins - 1)` below its value, and not above it |
| `ReconstructError.UnitSphereReconstructionError` | src/task3_reconstruct_error.py:51-52 | every reconstructed unit-sphere coordinate is at most the original and less than `2 * max_dist / (bins - 1)` below it |
| `ReconstructError.UnitSphereReconstructCoord` | src/task3_reconstruct_error.py:51-52 | coordinate `a` of reconstructed vertex `i` is `(deq(Q(((v - c) / max_dist + 1) / 2)) * 2 - 1) * max_dist + c` for the centroid coordinate `c` |
| `ReconstructError.UnitSphereAbsErrors` | src/task3_reconstruct_error.py:51-52 | every reconstructed unit-sphere coordinate differs from the original by less than `2 * max_dist / (bins - 1)` |
| `ReconstructError.Aligned` | src/task3_reconstruct_error.py:21 | `n` is the shorter of the two lengths |
| `ReconstructError.Diff` | src/task3_reconstruct_error.py:22 | the difference has `n` rows, row `i` being `original[i] - reconstructed[i]` |
| `ReconstructError.DiffAt` | src/task3_reconstruct_error.py:22 | row `i` of the difference is `original[i] - reconstructed[i]`, per axis |
| `ReconstructError.SquaresOf` | src/task3_reconstruct_error.py:23 | one square per row, of that row's coordinate on the axis |
| `ReconstructError.AbsOf` | src/task3_reconstruct_error.py:24 | one absolute value per row, of that row's coordinate on the axis |
| `ReconstructError.TotalNonNegative` | src/task3_reconstruct_error.py:23-24 | a sum of non-negative entries is non-negative |
| `ReconstructError.TotalZeroIff` | src/task3_reconstruct_error.py:23-24 | a sum of non-negative entries is 0 if and only if every entry is 0 |
| `ReconstructError.TotalBelow` | src/task3_reconstruct_error.py:23-24 | a sum of `n >= 1` entries each below `B` is below `n * B` |
| `ReconstructError.AxisMse` | src/task3_reconstruct_error.py:23 | the per-axis MSE is non-negative |
| `ReconstructError.AxisMae` | src/task3_reconstruct_error.py:24 | the per-axis MAE is non-negative |
| `ReconstructError.ComputeErrors` | src/task3_reconstruct_error.py:20-25 | both error vectors are non-negative on every axis, each axis computed from that axis only |
| `ReconstructError.ErrorsZeroIff` | src/task3_reconstruct_error.py:22-24 | on an axis, MSE is 0, and likewise MAE is 0, if and only if the aligned rows agree on that axis |
| `ReconstructError.ErrorsZeroOnEqualPrefix` | src/task3_reconstruct_error.py:21-25 | equal aligned prefixes give zero MSE and MAE on every axis |
| `ReconstructError.ErrorsPerAxis` | src/task3_reconstruct_error.py:23-24 | an axis's errors depend only on that axis's coordinates |
| `ReconstructError.ErrorsIgnoreTail` | src/task3_reconstruct_error.py:21-22 | vertices past `n` in the longer input do not change the errors |
| `ReconstructError.AxisErrorsFromTotals` | src/task3_reconstruct_error.py:23-24 | the per-axis errors are the column totals divided by `n` |
| `ReconstructError.ExampleDiff` | src/task3_reconstruct_error.py:21-22 | for the two-vertex example, `n = 2` and the difference is `[(0,0,0), (0,-2,0)]` |
| `ReconstructError.ExampleColumns` | src/task3_reconstruct_error.py:23-24 | that difference has column totals 0, 4, 0 for squares and 0, 2, 0 for absolute values |
| `ReconstructError.ErrorsExample` | src/task3_reconstruct_error.py:20-25 | the example's errors are MSE `(0, 2, 0)` and MAE `(0, 1, 0)` |
| `ReconstructError.MaeBelow` | src/task3_reconstruct_error.py:24 | pairs that differ by less than `B` give an MAE below `B` |
| `ReconstructError.MseBelow` | src/task3_reconstruct_error.py:23 | pairs that differ by less than `B` give an MSE below `B * B` |
| `ReconstructError.ErrorsBelowBound` | src/task3_reconstruct_error.py:23-24 | both bounds together, for one axis |
| `ReconstructError.MinMaxPipelineErrors` | src/task3_reconstruct_error.py:42-45 | the min-max MAE is below one grid step on each axis and the MSE below its square |
| `ReconstructError.UnitSpherePipelineErrors` | src/task3_reconstruct_error.py:51-54 | the unit-sphere MAE is below `2 * max_dist / (bins - 1)` on each axis and the MSE below its square |
| `SeamTokenization.UvSeams` | src/seam_tokenization.py:18 | `ceil(len / 50)` seams, seam `k` being edge `50 * k` |
| `SeamTokenization.UvSeamsSelectsMultiples` | src/seam_tokenization.py:18 | every edge whose index is a multiple of 50 is selected, at position `index / 50` |
| `SeamTokenization.Inner` | src/seam_tokenization.py:33 | the text `a,b` between the brackets; specified by `SplitInner` |
| `SeamTokenization.EncodeToken` | src/seam_tokenization.py:33 | the token `E(a,b)`; specified by `StripToken` and `DecodeEncodeToken` |
| `SeamTokenization.EncodeSeams` | src/seam_tokenization.py:28-34 | one token per seam, in order, token `i` being `E(a,b)` for seam `i` |
| `SeamTokenization.EncodeExample` | src/seam_tokenization.py:31-33 | `[[1,2],[2,3]]` encodes to `["E(1,2)", "E(2,3)"]` |
| `SeamTokenization.DecodeToken` | src/seam_tokenization.py:44-45 | one loop step, `None` where Python raises; specified by `DecodeInner`, `DecodeEncodeToken`, `DecodeNeedsOneComma`, `RejectsThreeFields`, `RejectsOneField`, `RejectsNonInteger`, `RejectsSeparatorInField` and `AcceptsLooseBrackets` |
| `SeamTokenization.TryMap` | src/seam_tokenization.py:43-46 | the loop succeeds if and only if every element succeeds; then it keeps count and order |
| `SeamTokenization.TryMapYields` | src/seam_tokenization.py:43-46 | when every element yields its counterpart, the loop yields the whole list |
| `SeamTokenization.DecodeAll` | src/seam_tokenization.py:42-47 | the whole loop as a function; specified by `DecodeAllPointwise`, `DecodeEncodeSeams` and `DecodeExample` |
| `SeamTokenization.DecodeAllPointwise` | src/seam_tokenization.py:42-47 | decoding succeeds exactly when every token decodes, and keeps count and order |
| `SeamTokenization.DecodeTokensToSeams` | src/seam_tokenization.py:37-47 | the loop's result is exactly `DecodeAll` of the tokens, `None` when a token raises |
| `SeamTokenization.StripToken` | src/seam_tokenization.py:44 | on an encoded token, `strip("E()")` removes exactly `E(` and `)` |
| `SeamTokenization.SplitInner` | src/seam_tokenization.py:45 | the inner text splits at its one comma into the two decimal indices |
| `SeamTokenization.DecodeInner` | src/seam_tokenization.py:44-45 | any token that strips down to `a,b` decodes to the seam `(a, b)` |
| `SeamTokenization.DecodeEncodeToken` | src/seam_tokenization.py:33-45 | decoding an encoded seam gives the seam back |
| `SeamTokenization.DecodeEncodeSeams` | src/seam_tokenization.py:28-47 | `decode(encode(seams)) == seams` |
| `SeamTokenization.DecodeExample` | src/seam_tokenization.py:40-46 | `["E(1,2)"]` decodes to `[[1,2]]` |
| `SeamTokenization.DecodeNeedsOneComma` | src/seam_tokenization.py:45 | a token decodes only when its stripped text holds exactly one comma |
| `SeamTokenization.RejectsThreeFields` | src/seam_tokenization.py:45 | `E(1,2,3)` raises |
| `SeamTokenization.RejectsOneField` | src/seam_tokenization.py:45 | `E(12)` raises |
| `SeamTokenization.RejectsNonInteger` | src/seam_tokenization.py:45 | `E(a,1)` raises |
| `SeamTokenization.RejectsSeparatorInField` | src/seam_tokenization.py:44-45 | `E(\x1c1,2)` raises, its first field not being an integer |
| `SeamTokenization.AcceptsLooseBrackets` | src/seam_tokenization.py:44 | `((E1,2)E` still decodes, to `(1, 2)` |
| `PythonText.StripLeftDropsPrefix` | src/seam_tokenization.py:44 | `lstrip` drops the longest prefix made of stripped characters, and keeps the rest |
| `PythonText.StripRightDropsSuffix` | src/seam_tokenization.py:44 | `rstrip` drops the longest suffix made of stripped characters, and keeps the rest |
| `PythonText.StripLeft` | src/seam_tokenization.py:44 | `lstrip(chars)`; specified by `StripLeftDropsPrefix` and `StripLeftPrefix` |
| `PythonText.StripRight` | src/seam_tokenization.py:44 | `rstrip(chars)`; specified by `StripRightDropsSuffix` and `StripRightSuffix` |
| `PythonText.Strip` | src/seam_tokenization.py:44 | `strip(chars)`, the right strip of the left strip; specified by `StripBetween` and `StripUntouched` |
| `PythonText.StripLeftPrefix` | src/seam_tokenization.py:44 | stripped characters in front of a text that does not start with one are all removed |
| `PythonText.StripRightSuffix` | src/seam_tokenization.py:44 | the same at the back |
| `PythonText.StripBetween` | src/seam_tokenization.py:44 | `strip` of `p + s + q` is `s` when `p` and `q` are made of stripped characters and `s` has none at its ends |
| `PythonText.StripUntouched` | src/seam_tokenization.py:44 | a text with no stripped character at either end is unchanged |
| `PythonText.Split` | src/seam_tokenization.py:45 | `split` gives one more field than there are separators, none holding a separator |
| `PythonText.JoinSplit` | src/seam_tokenization.py:45 | joining the fields of a split gives the text back |
| `PythonText.SplitJoin` | src/seam_tokenization.py:45 | splitting a join of separator-free fields gives the fields back |
| `PythonText.SplitPrepend` | src/seam_tokenization.py:45 | a separator-free prefix merges into the first field |
| `PythonText.SplitField` | src/seam_tokenization.py:45 | a separator-free field followed by a separator is the first field |
| `PythonText.NatToString` | src/seam_tokenization.py:33 | `str(n)` for `n >= 0` is at least one decimal digit, with a leading `0` only for 0 |
| `PythonText.IntToString` | src/seam_tokenization.py:33 | `str(n)` ends in a digit, starts with `-` or a digit, and holds no comma |
| `PythonText.NatToStringValue` | src/seam_tokenization.py:33 | the digits of `str(n)` read back as `n` |
| `PythonText.DigitsAreGrouped` | src/seam_tokenization.py:45 | a plain digit string is a valid `int` literal with its decimal value |
| `PythonText.ParseSignedNat` | src/seam_tokenization.py:45 | the unsigned digits of `str(n)` parse to `n` |
| `PythonText.ParseSignedNegative` | src/seam_tokenization.py:45 | `-` followed by the digits of `n` parses to `-n` |
| `PythonText.ParseSigned` | src/seam_tokenization.py:45 | an optionally signed digit group with no whitespace; specified by `ParseSignedNat` and `ParseSignedNegative` |
| `PythonText.ParseInt` | src/seam_tokenization.py:45 | `int(s)` in base 10, `None` where Python raises; specified by `ParseIntToString`, `ParseIntNeedsDigit` and the `ParseInt*` examples |
| `PythonText.ParseIntTrimmed` | src/seam_tokenization.py:45 | `int` of a text without surrounding whitespace parses it as it is |
| `PythonText.ParseIntNat` | src/seam_tokenization.py:45 | `int(str(n)) == n` for `n >= 0` |
| `PythonText.ParseIntNegative` | src/seam_tokenization.py:45 | `int(str(n)) == n` for `n < 0` |
| `PythonText.ParseIntToString` | src/seam_tokenization.py:33-45 | `int(str(n)) == n` for every integer |
| `PythonText.ParseIntNeedsDigit` | src/seam_tokenization.py:45 | a text without a digit raises |
| `PythonText.ParseIntSkipsSpace` | src/seam_tokenization.py:45 | `int(" 7\n") == 7` |
| `PythonText.ParseIntSigned` | src/seam_tokenization.py:45 | `int("-12") == -12` |
| `PythonText.ParseIntUnderscore` | src/seam_tokenization.py:45 | `int("1_000") == 1000` |
| `PythonText.ParseIntRejects` | src/seam_tokenization.py:45 | `1__0`, `1 2` and the empty text raise |
| `PythonText.ParseIntRejectsSeparator` | src/seam_tokenization.py:45 | `int("\x1c1")` raises: the separator 28 is not whitespace to `int` |

Members without a contract of their own are specified by the lemmas named in
their rows. `SeamTokenization.DecodeAllPointwise` restates what `TryMap`
guarantees for the decoder; Dafny proves it from `TryMap`'s contract alone.

## Left out

- File and mesh I/O is not modelled: loading meshes, `save_mesh`, `np.savez`/`np.load` and the `.obj` storage of grid indices as floats. The pipelines (`MinMaxReconstruct`, `UnitSphereReconstruct`) pass the quantised cells straight to dequantisation.
- Plotting, printing, `run_task2`/`run_task3` orchestration and the `__main__` drivers are not modelled. view_seams.py and main.py are not part of this model.
- Floating point is replaced by exact reals. IEEE rounding, and the `1e-9` tolerance it would call for, do not arise; the round trips hold exactly.
- Square root: the model does not compute `np.linalg.norm`. The caller supplies `max_dist`, and `IsMaxDist` requires it to be the non-negative root of the largest squared centroid distance.
- Degenerate inputs are preconditions. Five are excluded this way:
  - an empty vertex set (`|vs| > 0`), on which `v.min(axis=0)` and the `.max()` of the norms raise `ValueError`;
  - an axis with `v_max == v_min` (`HasExtent`), where numpy divides by zero and returns NaN or Inf;
  - coincident vertices, where `max_dist == 0` (`maxDist > 0`), with the same NaN or Inf;
  - `bins == 1` in dequantisation (`bins != 1`), with the same NaN or Inf;
  - no aligned rows in `compute_errors`, where `n == 0` (`Aligned(o, r) >= 1` on `ComputeErrors`, `AxisMse` and `AxisMae`) and `np.mean` of an empty column returns NaN.
  No substitute-value policy is modelled, because the code has none.
- `Quantize` does not check `bins`, and its default `bins=1024`, also the default of `run_task2` and `run_task3`, becomes an explicit argument. The range results (`QuantizeCoord`, `Quantize`) are stated for `bins >= 1`, and the error bounds for `bins >= 2`.
- The `int32` cast is modelled only as far as `QuantizeFitsInt32`: for `bins <= 2^31` the cast is exact. For `bins > 2^31`, `Q(1) = bins - 1` is at least `2^31`. numpy leaves the conversion of such an out-of-range float64 to `int32` platform-defined, and it does not wrap around. That case is not modelled.
- The random-sampling branch of `identify_seams` (no UV map) is left out, because it depends on randomness. So is the test for whether a UV map exists. `UvSeams` takes the list of unique edges as its input.
- `str` and `int` are modelled on ASCII text only. Non-ASCII digits and whitespace are not modelled, nor is the 4300-digit limit on conversions. Neither appears in tokens that `encode_seams_to_tokens` writes.
- The seams' Python list type is replaced by the pair datatype `Edge`. A seam that does not have exactly two entries, which makes the encoder's unpacking raise, does not arise.
