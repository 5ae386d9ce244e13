# bores grid preprocessing, saturation equilibrium and registry core in Dafny

This project models the deterministic core of the `bores` black-oil reservoir simulator and
proves properties of that model:

- the grid builders, geometry and upscaling of `bores.grids.base` (uniform and layered grids,
  depth and elevation stacking, structural dip, edge padding, block coarsening, Cardwell–Parsons
  permeability coarsening, surface flattening, and the flow-rate grid helpers);
- the saturation equilibrium builder of `bores.grids.saturation` (validation, sharp contacts,
  transition bands, normalisation);
- the clip, mask and extremum helpers of `bores.utils`;
- the type registrar, the registry serializer and deserializer, the global type-serializer
  tables, the ndarray wire-format validation and the primitivity sort of `bores.serialization`.

Values are `real`. NaN is the constructor `NaN` of `Numeric.Num`, so numpy's `nan*` reductions
and the NaN-propagating reductions are two distinct functions. Code that mutates arrays in place
is modelled by methods over `array`, `array2` and `array3`. Each such method is proved against a
per-cell function, and the properties are then proved about those functions:

- masked assignment and masked copy;
- the saturation builders and normalisation;
- the layered grid and the depth/elevation recurrences;
- the structural dip;
- the permeability workers;
- `RateGrids`.

Arrays whose rank is not fixed are modelled in one of two ways:

- nested values (`NdArrays.Nd`), by pad/unpad, coarsening and flattening;
- flat C-order storage next to their shape, by the masking and saturation code.

Modules follow the source: `Utils` (utils.py), `SaturationModel` and `Saturation`
(saturation.py), and for base.py `GridBuild`, `StructuralDip`, `NdArrays`, `Coarsening`,
`CoarseningExamples`, `Permeability`, `SurfaceFlatten` and `RateGridModel`. `Serialization` covers
serialization.py. `Numeric` (NaN-aware reductions and harmonic means) and `Wrappers`
(`Option`, `Result`) are shared.

Where the source's documentation and its code differ, the model follows the code:

- `unpad_grid` with width 0 empties the grid (see Findings).
- The `weighted_mean` strategy with NaNs ignored keeps the weights of NaN cells in its
  denominator.
- The 3-D `max` example in `coarsen_grid`'s documentation shows values that the code does not
  compute. `CoarseningExamples.MaxOfArange` proves what the code computes: the first coarse cell
  of `arange(64).reshape(4, 4, 4)` is 21, not the documented 5.

## Model

| member | source | states |
|---|---|---|
| Utils.ClipScalar | src/bores/utils.py:26-31 | below the lower bound gives the lower bound; above the upper bound gives the upper bound; otherwise the value itself |
| Utils.Clip | src/bores/utils.py:21-22 | `max(min(v, hi), lo)` is never below `lo`, is at most `hi` when the bounds are ordered, and is one of `lo`, `hi`, `v` |
| Utils.ClipAll | src/bores/utils.py:20-22 | elementwise clip: same length, each element clipped with the scalar bounds |
| Utils.ClipScalarInRange | src/bores/utils.py:26-31 | with `lo <= hi` the result lies in `[lo, hi]`, and clipping twice equals clipping once |
| Utils.ClipAgreesWithClipScalar | src/bores/utils.py:20-31 | `clip` and `clip_scalar` agree exactly when `lo <= hi` or the value is below `lo` |
| Utils.ClipAllIdempotent | src/bores/utils.py:20-22 | with ordered bounds, clipping an array twice equals clipping it once |
| Utils.ApplyMask2D | src/bores/utils.py:47-63 | in place: masked cells take `values[idx]` and every other cell keeps its old value |
| Utils.ApplyMask3D | src/bores/utils.py:66-82 | the same per-cell effect over three nested loops |
| Utils.ApplyMaskND | src/bores/utils.py:85-98 | the same per-cell effect over every index in C order |
| Utils.ApplyMask | src/bores/utils.py:101-118 | the rank-2, rank-3 and rank-n dispatch all have that one per-cell effect |
| Utils.GetMask2D | src/bores/utils.py:121-139 | a fresh array holding `arr[idx]` where the mask holds and the fill value elsewhere; `arr` is not modified |
| Utils.GetMask3D | src/bores/utils.py:142-161 | the same result over three nested loops |
| Utils.GetMaskND | src/bores/utils.py:164-180 | the same result over every index |
| Utils.GetMask | src/bores/utils.py:183-200 | every branch of the rank dispatch returns that masked copy |
| Utils.GetMaskDefault | src/bores/utils.py:183-185 | without a fill value, the masked-out cells are NaN |
| Utils.Min | src/bores/utils.py:204-207 | a float is returned unchanged; an empty array raises; an array with a NaN gives NaN; otherwise the result is an element bounding all cells from below |
| Utils.Max | src/bores/utils.py:210-213 | a float is returned unchanged; an empty array raises; an array with a NaN gives NaN; otherwise the result is an element bounding all cells from above |
| SaturationModel.ActiveMask | src/bores/grids/saturation.py:255-257 | a cell is active exactly when its porosity is finite and positive |
| SaturationModel.EndpointError | src/bores/grids/saturation.py:384-425 | no error exactly when every active cell has Swc, Sor_w, Sor_g, Sgr in [0, 1] and Swc+Sor_g, Swc+Sgr, Sor_w+Sgr at most 1; the first failing check, in source order, is the reported one |
| SaturationModel.TransitionError | src/bores/grids/saturation.py:446-462 | no error exactly when both thicknesses and the exponent are positive and `GOC + h_go/2 < OWC - h_ow/2` |
| SaturationModel.Validate | src/bores/grids/saturation.py:370-471 | GOC >= OWC fails first, then a shape mismatch, then the first failing end-point check (with no warnings issued), then (with transitions) the first failing band check (after the first two warnings); no error exactly when all pass; once the end-points pass, the Sor_g > Sor_w warning and the thin-oil-column warning are issued exactly when their conditions hold, and the thin-column-between-transitions warning exactly when the bands pass and less than 1 unit separates them |
| SaturationModel.WarningsNeverAbort | src/bores/grids/saturation.py:428-443 | the oil-zone thickness constant (which only drives warnings) never changes whether validation fails |
| SaturationModel.ZoneTriplesSumToOne | src/bores/grids/saturation.py:535-551 | gas cap, oil zone and water zone triples, and both blends for any weight, sum to exactly 1 |
| SaturationModel.BandShapes | src/bores/grids/saturation.py:646-722 | Sw is Swc throughout the gas–oil band, and Sg is Sgr·(1−w) throughout the oil–water band |
| SaturationModel.BlendEndsMatchZones | src/bores/grids/saturation.py:652-722 | at weight 0 each blend equals the zone above it, at weight 1 the zone below it |
| SaturationModel.ZoneTriplesInUnit | src/bores/grids/saturation.py:535-551 | under the validated pair constraints and a weight in [0, 1], every component of every zone triple lies in [0, 1] |
| SaturationModel.SharpZonesPartition | src/bores/grids/saturation.py:528-532 | with GOC < OWC the three zones are disjoint and cover exactly the active cells; a cell at GOC is oil zone, a cell at OWC water zone |
| SaturationModel.TransitionZonesPartition | src/bores/grids/saturation.py:632-725 | with valid thicknesses the band edges are strictly ordered, and the five zones are disjoint and cover exactly the active cells |
| SaturationModel.TransitionContinuousAtEdges | src/bores/grids/saturation.py:638-728 | a cell at a band's top edge holds the value of the zone above it, and a cell at the band's bottom edge the value of the zone below it: there is no jump at the edges |
| SaturationModel.BandWeightInUnit | src/bores/grids/saturation.py:652-657 | `clip(frac, 0, 1) ** n` lies in [0, 1] |
| SaturationModel.NormalizedSumsToOne | src/bores/grids/saturation.py:763-768 | an active cell with a positive total sums to exactly 1 after division |
| SaturationModel.NormalizedFixesUnitTotal | src/bores/grids/saturation.py:763-768 | a cell already summing to 1 is unchanged by normalisation |
| SaturationModel.ZonedCellIsNormal | src/bores/grids/saturation.py:275-321 | on validated inputs the zone builders already give every active cell total 1 and every inactive cell zeros |
| SaturationModel.ZonedCellInUnit | src/bores/grids/saturation.py:275-321 | on validated inputs with a power-like weight, every zoned value lies in [0, 1] |
| Saturation.AssignZone | src/bores/grids/saturation.py:535-551 | one zone's three masked assignments: zone cells take the triple, all other cells keep theirs |
| Saturation.BuildSharpContacts | src/bores/grids/saturation.py:474-552 | every cell ends as its sharp-zone triple, or keeps its value outside all zones |
| Saturation.BuildTransitionZones | src/bores/grids/saturation.py:555-729 | every cell ends as its five-zone triple (blends weighted by the band weight), or keeps its value outside all zones |
| Saturation.NormalizeSaturations | src/bores/grids/saturation.py:732-774 | the total is taken once; valid cells are divided by it, inactive cells become 0, and active cells with a non-positive total are left unchanged |
| Saturation.BuildSaturationGrids | src/bores/grids/saturation.py:14-322 | returns validation's warnings; fails exactly with validation's error; otherwise every cell is the zoned cell, active cells sum to 1, inactive cells are 0, and with a power-like weight every value is in [0, 1] |
| GridBuild.BuildUniformGrid | src/bores/grids/base.py:58-74 | the grid has the requested shape and every cell holds the value |
| GridBuild.LayeredAccepts | src/bores/grids/base.py:98-140 | layering succeeds exactly when values are given, the orientation is X/Y/Z (Z on a 3-D shape) and there is one value per cell along that axis |
| GridBuild.SetSlice | src/bores/grids/base.py:110-133 | a slice assignment sets exactly the cells at that position along the axis |
| GridBuild.BuildLayeredGrid | src/bores/grids/base.py:80-140 | fails exactly with the first failing check; otherwise returns a fresh grid whose cells at position `p` along the axis hold `layer_values[p]` |
| GridBuild.DepthRecurrence | src/bores/grids/base.py:163-169 | `depth[0] = t[0]/2` and `depth[k] = depth[k-1] + t[k-1]/2 + t[k]/2` for the closed form "thicknesses above plus half the own" |
| GridBuild.HeightRecurrence | src/bores/grids/base.py:187-197 | the upward recurrence from `k = nz-1` for the closed form "thicknesses below plus half the own" |
| GridBuild.DepthPlusHeight | src/bores/grids/base.py:163-197 | depth plus elevation of every cell is the column's total thickness |
| GridBuild.DepthMonotone | src/bores/grids/base.py:163-169 | with non-negative thicknesses, depth is nondecreasing down the column and elevation nonincreasing |
| GridBuild.HalfLayer | src/bores/grids/base.py:163 | layer `k` becomes half the thickness; other layers are kept |
| GridBuild.StackLayer | src/bores/grids/base.py:165-169 | layer `k` becomes layer `p` plus the two half-thicknesses; other layers are kept |
| GridBuild.ComputeElevationDownward | src/bores/grids/base.py:147-171 | a fresh grid whose every cell is its depth below the column top |
| GridBuild.ComputeElevationUpward | src/bores/grids/base.py:175-199 | a fresh grid whose every cell is its height above the column base |
| GridBuild.BuildElevationGrid | src/bores/grids/base.py:202-225 | rejects any direction other than "downward" and "upward"; otherwise gives depths or heights respectively |
| GridBuild.BuildDepthGrid | src/bores/grids/base.py:245-256 | every cell is its depth below the top |
| GridBuild.BuildHeightGrid | src/bores/grids/base.py:228-239 | every cell is its height above the base |
| StructuralDip.ShiftColumns | src/bores/grids/base.py:284-293 | every cell of column `(i, j)` moves by the same `sign · DipOffset(i, j)`; nothing else changes |
| StructuralDip.ApplyDipUpward | src/bores/grids/base.py:263-295 | every cell drops by its column's offset |
| StructuralDip.ApplyDipDownward | src/bores/grids/base.py:299-331 | every cell grows by its column's offset |
| StructuralDip.OriginUnshifted | src/bores/grids/base.py:284-293 | column (0, 0) is not shifted |
| StructuralDip.FlatUnshifted | src/bores/grids/base.py:284-293 | a zero dip angle (`tan = 0`) shifts nothing |
| StructuralDip.OffsetIsPlanar | src/bores/grids/base.py:286-290 | the offsets form a plane: `i` steps of the (1,0) offset plus `j` steps of the (0,1) offset |
| StructuralDip.DirectionsAreInverse | src/bores/grids/base.py:408-420 | dipping upward then downward by the same offset, or the reverse, restores the value |
| StructuralDip.ApplyStructuralDip | src/bores/grids/base.py:334-420 | fails exactly on a bad direction, an angle outside [0, 90] or an azimuth outside [0, 360), first failure first; otherwise a fresh copy with every cell moved by its column's offset in the direction's sense, the input untouched |
| NdArrays.Tabulate | src/bores/grids/base.py:69-74 | the array built from a cell function has the shape asked for and that function's value at every index |
| NdArrays.AtFull | src/bores/grids/base.py:69-74 | every cell of `np.full(shape, v)` is `v` |
| NdArrays.AtPadAfter | src/bores/grids/base.py:562-564 | constant padding after each axis keeps every original cell and puts the constant everywhere else |
| NdArrays.AtPadEdge | src/bores/grids/base.py:435 | every cell of an edge-padded array repeats the nearest original cell |
| NdArrays.StripBoxPadAfter | src/bores/grids/base.py:546-575 | a block of a constant-padded array, with the cells equal to the pad value dropped, lists the same cells as that block clipped to the original grid, with the same cells dropped |
| NdArrays.CropPadEdge | src/bores/grids/base.py:435-485 | cropping `w` cells off both ends of every axis undoes edge padding of width `w` (for `w >= 1`, or for the intended stop rule) |
| NdArrays.PadGrid | src/bores/grids/base.py:423-435 | fails exactly when a positive width meets an empty axis; otherwise has each axis grown by `2w` and every cell repeating the nearest original one |
| NdArrays.UnpadGrid | src/bores/grids/base.py:464-487 | fails exactly when the rank is not 2 or 3; otherwise has the `[w:-w]` crop shape |
| NdArrays.UnpadGridIntended | src/bores/grids/base.py:464-487 | the `[w:n-w]` crop `unpad_grid` means: same errors, crop shape `n - 2w` |
| NdArrays.UnpadPadRoundTrip | src/bores/grids/base.py:423-487 | for 2-D/3-D grids and `w >= 1`, padding succeeds exactly on non-empty axes and `unpad_grid(pad_grid(g, w), w) == g` |
| NdArrays.UnpadZeroWidthEmpties | src/bores/grids/base.py:476-481 | as written, `unpad_grid(pad_grid(g, 0), 0)` is not `g` for a grid with rows |
| NdArrays.UnpadIntendedRoundTrip | src/bores/grids/base.py:423-487 | with the intended crop, unpadding undoes padding for every width, 0 included |
| Numeric.NanMean | src/bores/grids/base.py:580-581 | `np.nanmean` is NaN exactly when no cell is finite |
| Numeric.NanMax | src/bores/grids/base.py:586-587 | `np.nanmax` is NaN exactly when no cell is finite |
| Numeric.NanMin | src/bores/grids/base.py:589-590 | `np.nanmin` is NaN exactly when no cell is finite |
| Numeric.BlockHarmonic | src/bores/grids/base.py:595-611 | the block harmonic mean is NaN exactly when the block has no finite cell |
| Numeric.AxisHarmonic | src/bores/grids/base.py:870-900 | `_axis_harmonic_mean` along a line is NaN exactly when the line has no finite cell |
| Numeric.HarmonicPositive | src/bores/grids/base.py:595-611 | on non-negative finite data with positive epsilon, both harmonic means are finite and positive |
| Numeric.BlockHarmonicOfUniform | src/bores/grids/base.py:595-611 | `n` equal values `x` have block harmonic mean `x + eps` |
| Numeric.FiniteIgnoresNaNPadding | src/bores/grids/base.py:555-564 | appending NaN cells never changes what a `nan*` reduction sees |
| Numeric.NanMaxOfLastLargest | src/bores/grids/base.py:586-587 | on finite cells whose last is the largest, `np.nanmax` is that last cell |
| Coarsening.ParseMethod | src/bores/grids/base.py:540-544 | only the five method names are accepted, each as its own method |
| Coarsening.ParseMethodName | src/bores/grids/base.py:540-544 | a method is parsed from a name exactly when the name is that method's |
| Coarsening.CeilDiv | src/bores/grids/base.py:546-553 | the block count is the least `q` with `q·b >= n` |
| Coarsening.PadFor | src/bores/grids/base.py:546-553 | `n` plus the padding is the block count times `b` |
| Coarsening.CoarseShape | src/bores/grids/base.py:566-575 | the output extent is `ceil(n/b)` on every axis |
| Coarsening.StripZeroKeepsSum | src/bores/grids/base.py:555-560 | zero padding changes neither whether a block is all finite nor its sum |
| Coarsening.ReduceIgnoresPadding | src/bores/grids/base.py:556-611 | two blocks that differ only in padding cells reduce to the same value under every method |
| Coarsening.BlockOfCoarseCell | src/bores/grids/base.py:566-575 | the block of every coarse cell lies in the padded grid and starts inside the original one |
| Coarsening.CoarsenBlocks | src/bores/grids/base.py:562-611 | the coarsened array has shape `ceil(n/b)` per axis |
| Coarsening.CoarsenBlocksCell | src/bores/grids/base.py:546-611 | each coarse cell is the method's reduction of exactly the original cells of its block, partial blocks included |
| Coarsening.CoarsenGrid | src/bores/grids/base.py:490-613 | fails on a block rank that differs from the data rank, then on an unknown method; succeeds exactly with matching rank, a known method and positive blocks; then each coarse cell reduces its block's original cells |
| Coarsening.CoarsenByName | src/bores/grids/base.py:579-611 | a successful call reduces each block with the method it was named by |
| CoarseningExamples.MeanOfArange | src/bores/grids/base.py:521-525 | 2×2 means of `arange(n0·n1).reshape(n0, n1)` are `2·n1·I + 2J + (n1+1)/2` (the documented `[[2.5, 4.5], [10.5, 12.5]]` for `n1 = 4`) |
| CoarseningExamples.MaxOfArange | src/bores/grids/base.py:526-531 | 2×2×2 maxima of `arange(n0·n1·n2)` are each block's last cell (21 for the documented 4×4×4 example's first cell) |
| Permeability.Shape | src/bores/grids/base.py:656-663 | a 2-D grid has a rank-2 shape and a 3-D grid a rank-3 one |
| Permeability.LineX | src/bores/grids/base.py:704-712 | a line of a block along x lists the NaN-padded cells `[x0 + t, y]` |
| Permeability.LineY | src/bores/grids/base.py:715-725 | a line of a block along y lists the NaN-padded cells `[x, y0 + u]` |
| Permeability.DispatchAccepts | src/bores/grids/base.py:934-966 | the call succeeds exactly when a block size is given, 2-D grids come without `kz` and 3-D grids with it, all shapes agree, and the block sizes match the rank and are positive |
| Permeability.RankOfShape | src/bores/grids/base.py:660-663 | a grid whose checked rank is 2 (3) is a 2-D (3-D) grid |
| Permeability.Fill2 | src/bores/grids/base.py:702-725 | the nested loop writes every coarse cell with the harmonic-then-mean value of its block |
| Permeability.Fill3 | src/bores/grids/base.py:828-865 | the triple loop writes every coarse cell with the harmonic-then-mean value of its block |
| Permeability.Coarsen2D | src/bores/grids/base.py:616-727 | fails exactly with the first failing check; otherwise returns two distinct fresh `ceil(n/b)` grids holding the `kx` and `ky` coarse values |
| Permeability.Coarsen3D | src/bores/grids/base.py:730-867 | fails exactly with the first failing check; otherwise returns three pairwise distinct fresh grids holding the `kx`, `ky`, `kz` coarse values |
| Permeability.CoarsenPermeabilityGrids | src/bores/grids/base.py:903-966 | fails exactly with the dispatcher's or the worker's first failing check; otherwise returns the 2-D pair or the 3-D triple of coarse values |
| Permeability.Transpose | src/bores/grids/base.py:616-727 | the transpose is a grid with the extents exchanged |
| Permeability.LinesOfTranspose | src/bores/grids/base.py:704-725 | a line along x of the transpose is the matching line along y, and back |
| Permeability.TransposeSwapsDirections | src/bores/grids/base.py:704-725 | `ky` of a grid is `kx` of its transpose with the block sizes exchanged, and the other way round |
| Permeability.LayeredExample | src/bores/grids/base.py:640-650 | on 100/1 mD layers in 2×2 blocks, `kx` is the harmonic `200/101` (≈1.98) and `ky` the arithmetic `50.5` |
| SurfaceFlatten.ParseStrategy | src/bores/grids/base.py:1073-1102 | each of "max", "min", "mean", "sum", "top", "bottom" is parsed as its strategy, and only that name is |
| SurfaceFlatten.FlattenSurface | src/bores/grids/base.py:975-1102 | fails exactly with the first failing check (rank, weights, unknown name, no layer to reduce or index); otherwise an `(nx, ny)` surface whose every cell is its column's `sum(w·x)/sum(w)` under "weighted_mean", and its column reduced by the named strategy otherwise |
| SurfaceFlatten.StrategyCell | src/bores/grids/base.py:1073-1096 | for a named strategy, each surface cell is its column reduced by that strategy |
| SurfaceFlatten.TopAndBottom | src/bores/grids/base.py:1090-1096 | "top" is layer 0 and "bottom" layer `nz-1` of each column |
| SurfaceFlatten.MaxIsLargestLayer | src/bores/grids/base.py:1074-1076 | NaN-ignoring "max" is NaN exactly on an all-NaN column; otherwise it is a cell of the column at least every finite cell |
| SurfaceFlatten.MinIsSmallestLayer | src/bores/grids/base.py:1078-1080 | NaN-ignoring "min" is NaN exactly on an all-NaN column; otherwise it is a cell of the column at most every finite cell |
| SurfaceFlatten.MeanBetweenMinAndMax | src/bores/grids/base.py:1074-1084 | NaN-ignoring "mean" lies between "min" and "max" on each column with a finite cell |
| SurfaceFlatten.ColumnMeanBetween | src/bores/grids/base.py:1074-1084 | the NaN-ignoring mean of a column lies between its NaN-ignoring minimum and maximum |
| SurfaceFlatten.VariantsAgreeWithoutNaN | src/bores/grids/base.py:1073-1096 | on a column without NaN the NaN-ignoring and NaN-propagating variants agree |
| SurfaceFlatten.WeightedMeanOfUniformWeights | src/bores/grids/base.py:1055-1070 | one non-zero weight on a NaN-free column gives the column's plain mean, in both variants |
| SurfaceFlatten.WeightedMeanOfZeroWeights | src/bores/grids/base.py:1065-1070 | a column whose weights sum to zero flattens to NaN |
| SurfaceFlatten.WeightedMeanKeepsWeightsOfNaNCells | src/bores/grids/base.py:1056-1059 | with NaNs ignored, values `[1, NaN]` with weights `[1, 1]` give 0.5: a NaN cell's weight still counts |
| SurfaceFlatten.WeightedSurfaceCell | src/bores/grids/base.py:1044-1071 | under "weighted_mean" each surface cell is `sum(w·x)/sum(w)` of its column |
| SurfaceFlatten.StrategyFor | src/bores/grids/base.py:1195-1198 | a per-grid mapping defaults to "max" for a name it lacks |
| SurfaceFlatten.CollectFails | src/bores/grids/base.py:1193-1210 | filling the result fails exactly when one of the visited grids fails |
| SurfaceFlatten.CollectFirstError | src/bores/grids/base.py:1193-1210 | the failure raised is the first failing grid's |
| SurfaceFlatten.CollectKeys | src/bores/grids/base.py:1193-1210 | a filled result has the visited names as keys |
| SurfaceFlatten.CollectEntries | src/bores/grids/base.py:1193-1210 | with distinct names each key maps to its own grid's outcome |
| SurfaceFlatten.FlattenAllFails | src/bores/grids/base.py:1148-1210 | `flatten_multilayer_grids` fails exactly when some grid fails to flatten, with the first such grid's error |
| SurfaceFlatten.FlattenAllEntries | src/bores/grids/base.py:1148-1210 | on success its keys are the grids' names and each maps to its grid flattened with its own strategy and weights |
| SurfaceFlatten.FlattenMultilayerGrids | src/bores/grids/base.py:1193-1210 | the loop over the mapping returns what `FlattenAll` specifies |
| RateGridModel.RateGrids.GetItem | src/bores/grids/base.py:1477-1489 | `(oil, water, gas)` at a cell, 0.0 for a phase without a grid; an index error exactly when a defined grid lacks the cell |
| RateGridModel.RateGrids.Total | src/bores/grids/base.py:1452-1475 | `None` exactly when no phase has a grid; otherwise a fresh grid whose every cell is the sum of the three rates `GetItem` gives |
| RateGridModel.CopyOf | src/bores/grids/base.py:1464 | `grid.copy()` is fresh with the same contents |
| RateGridModel.AddInto | src/bores/grids/base.py:1469 | `total += grid` adds cell by cell |
| RateGridModel.RateGridsProxy.SetItem | src/bores/grids/base.py:1506-1518 | writes oil, water, gas in that order; an index error exactly when some grid lacks the key, leaving earlier grids written; every other cell is kept |
| RateGridModel.ProxyWritesReadBack | src/bores/grids/base.py:1477-1518 | a triple written through the proxy reads back through `RateGrids`, and another cell reads as before |
| Serialization.SetAttr | src/bores/serialization.py:1000 | `setattr` keeps the class table well formed |
| Serialization.SetAttrKeepsSubclass | src/bores/serialization.py:1000-1002 | writing a class attribute never changes `issubclass` |
| Serialization.SetAttrSetsOwn | src/bores/serialization.py:997-1000 | after `setattr(cls, key_attr, key)`, `getattr(cls, key_attr)` is `key` |
| Serialization.Lower | src/bores/serialization.py:999 | `str.lower()` keeps the length and lower-cases each letter |
| Serialization.Register | src/bores/serialization.py:990-1009 | the registrar keeps the class table well formed and the registry pointing at existing classes |
| Serialization.Registrar.RegisterClass | src/bores/serialization.py:990-1009 | the new registry, classes and outcome are those of `Register`; on success no key other than the class's key changes |
| Serialization.RegisteredKeyIsRecorded | src/bores/serialization.py:997-1007 | after a successful registration the class's key attribute holds its key and the registry maps that key to the class |
| Serialization.RegistrationFails | src/bores/serialization.py:992-1005 | the registrar fails exactly on a class outside `base_cls` or on a collision that neither `override` nor subclassing permits; a failure leaves the registry unchanged |
| Serialization.SubclassTakesOverInheritedKey | src/bores/serialization.py:997-1007 | a subclass without its own key inherits its parent's and replaces the parent's entry |
| Serialization.SerializeRegistered | src/bores/serialization.py:1049-1059 | fails exactly when the key is falsy or unregistered; otherwise returns the one-entry mapping `{key: dump}` |
| Serialization.DeserializeRegistered | src/bores/serialization.py:1077-1086 | fails exactly on a non-mapping, a length other than 1, or an unknown key; otherwise loads the value with the registered class |
| Serialization.RegistryRoundTrip | src/bores/serialization.py:1049-1086 | deserializing a serialization loads the state into the class registered under the key, which is the object exactly when that class is the object's |
| Serialization.RegisteredClassRoundTrips | src/bores/serialization.py:990-1086 | an object of a class just registered round-trips to itself |
| Serialization.TypeTables.RegisterTypeSerializer | src/bores/serialization.py:1095-1101 | only the serializer table entry for the type changes |
| Serialization.TypeTables.RegisterTypeDeserializer | src/bores/serialization.py:1104-1110 | only the deserializer table entry for the type changes |
| Serialization.MakeRegistrar | src/bores/serialization.py:960-1033 | an empty `key_attr` is rejected; otherwise the serializer and deserializer are installed for the base class as the flags ask and a registrar over the given registry is returned |
| Serialization.DeserializeNdarray | src/bores/serialization.py:1142-1217 | an ndarray passes through unchanged without a `dtype=` override and is cast with one; a list is converted with the override, if any; a failed cast or conversion (a ragged list, an uncastable dtype) is a conversion error, and no other input yields it; any other non-mapping is a type error; a wire dict without a truthy sentinel is rejected, then one missing any of `dtype`, `shape`, `data` is rejected naming exactly the missing keys; a complete wire dict then fails with a bad dtype, a bad shape or bad data, in that order, as `np.dtype`, the shape conversion and the base64 decoder (each applied to the stored value, whatever its JSON type) reject it; a decoded wire dict carries exactly `itemsize × prod(shape)` bytes (one element for an empty shape) |
| Serialization.ShapeOfShapeJson | src/bores/serialization.py:1135 | a stored shape list reads back as the same shape |
| Serialization.NdarrayRoundTrip | src/bores/serialization.py:1113-1217 | a serialized array validates back to the same itemsize, shape and bytes |
| Serialization.NullDtypeIsAccepted | src/bores/serialization.py:1202-1217 | a wire dict with a `null` dtype (float64 to numpy), shape `[1]` and eight bytes decodes to a one-element array |
| Serialization.WireDictIgnoresOverride | src/bores/serialization.py:1162-1163 | a `dtype=` override never changes the result for a wire dict: the stored dtype is authoritative |
| Serialization.ByteLengthIsChecked | src/bores/serialization.py:1202-1217 | once dtype, shape and data decode, the dict is accepted exactly when the byte count is `itemsize × prod(shape)`, and then yields those decoded parts; any other length, shorter or longer, is rejected with the expected and the actual length |
| Serialization.ShortDataIsRejected | src/bores/serialization.py:1206-1214 | a wire dict one element short is rejected with the expected and actual lengths |
| Serialization.SortByPrimitivity | src/bores/serialization.py:199-211 | the sort keeps the number of types |
| Serialization.SortIsPermutation | src/bores/serialization.py:199-211 | the sorted list is a permutation of the input |
| Serialization.SortPutsNonPrimitivesFirst | src/bores/serialization.py:199-211 | every non-primitive type comes before every primitive one |
| Serialization.SortIsStable | src/bores/serialization.py:199-211 | the order within each group matches the input's |
| Serialization.PartitionCount | src/bores/serialization.py:177-179 | the primitive and the non-primitive types together are exactly the input, as a multiset |

## Left out

- Floating point: values are reals. There is no rounding, no `inf` and no dtype casting
  (`get_dtype()`, `astype`).
- NaN only appears where the source relies on it: coarsening, flattening, the porosity activity
  test and the `get_mask` default. Depths, thicknesses and saturation end-points are finite reals.
- `StructuralDip.ApplyStructuralDip`: `np.radians`, `sin`, `cos` and `tan` are not modelled. The
  three direction factors are inputs (`DipComponents`).
- `SaturationModel.BandWeight`: `np.power(frac, n)` is an abstract weight function. The lemmas
  that need it require `w(0) = 0`, `w(1) = 1` and `0 <= w <= 1` on [0, 1] (`PowerLike`).
- The numba `prange` parallelism of the dip helpers is modelled as sequential loops. The columns
  are independent.
- `NdArrays.PadGrid`, `NdArrays.UnpadGrid`: the pad width is a natural number. For a negative
  width the source either raises from `np.pad` or slices `grid[-w:w]`, and this is not modelled.
- `get_pad_mask` is not modelled. Its slices mark one corner region rather than the ghost border.
- `PadMixin` `pad`/`unpad`/`apply_hook` are not modelled. They rely on attrs field reflection.
- Callable flatten strategies are not modelled: they are arbitrary user functions with a
  vectorised try, a fallback and a warning. Only the built-in strategies are.
- The unused `datum` parameter of the elevation helpers is dropped.
- `GridBuild.ComputeElevationDownward`, `GridBuild.ComputeElevationUpward`,
  `GridBuild.BuildElevationGrid`, `GridBuild.BuildDepthGrid`, `GridBuild.BuildHeightGrid`: these
  require at least one layer. For `nz = 0` the numba-compiled slice `[:, :, 0]` is not
  bounds-checked, so the source's behaviour there is undefined.
- `GridBuild.BuildLayeredGrid`: X and Y layering index three axes, so the model requires a 3-D
  shape for them. An unrecognised orientation value is modelled as its own constructor.
- Warnings are not emitted: `warnings.warn` becomes a returned list of warnings.
  `MIN_OIL_ZONE_THICKNESS` comes from a constants module that is not part of this model, so it is
  a parameter.
- `SurfaceFlatten.FlattenSurface`: with `nz = 0`, "max"/"min" are treated as numpy's zero-size
  reduction error and "top"/"bottom" as an index error, even when `nx · ny = 0`.
- `SurfaceFlatten.FlattenSurface`: raising for a shape given other than as a sequence of extents
  is not modelled.
- `RateGridModel.RateGrids.Total`: grids are flat arrays and a key is a flat position. The
  requirement that all defined grids have one size is stated through a ghost size.
- `RateGridModel.RateGridsProxy.SetItem`: requires the three grids to be distinct arrays.
  Aliased grids are not modelled.
- `Serialization.Register`: classes have single inheritance and string-valued class attributes.
  Multiple inheritance and the MRO are not modelled.
- The registrar's lock and threading are not modelled.
- `key_factory` is a total function of the class.
- `Serialization.Lower` lower-cases ASCII letters only.
- `obj.dump(recurse)` and `cls.load(value)` are abstracted: an object is its class plus the
  mapping its dump returns, and load rebuilds exactly that.
- `Serialization.DeserializeNdarray`: `np.dtype(...).itemsize` and `base64.b64decode` are
  function parameters. Each is applied to the stored JSON value, whatever its type.
- `Serialization.DeserializeNdarray`: the element count `int(np.prod(shape))` is a numpy int64,
  which wraps around for shapes whose product exceeds 2^63 - 1. The model's count is an
  unbounded integer. For such shapes the model's expected byte length differs from the source's.
- `Serialization.DeserializeNdarray`: whether `astype` or `np.asarray` succeeds is a function
  parameter, and the cast, converted or passed-through array carries no contents. The final
  `frombuffer(...).reshape(...)` is not modelled.
- `Serialization.DeserializeNdarray`: a shape is read only from a JSON list of integers or
  booleans. Other element types, and non-list values such as a string of digits, are rejected as
  a bad shape. The source iterates such values with `int(...)` instead.
- The rest of `serialization.py` is not modelled: `_serialize`/`_deserialize`, type discovery,
  `SerializableMeta`, the cattrs converter, `_sort_types_by_specificity` and the ndarray hooks.
- The JSON, base64 and orjson helpers of `utils.py` are not modelled.
- `states.py`, the visualization config, the scenarios, the benchmarks and the tests are not part
  of this model.

## Findings

| source | as written | input that shows it | evidently intended | confidence | as-written member | corrected member |
|---|---|---|---|---|---|---|
| src/bores/grids/base.py:476-481 | `grid[pad_width:-pad_width, ...]` | `pad_width = 0` on a grid with at least one row: `-0` is `0`, so every axis slice is `[0:0]` and the result is empty | unpadding by 0 returns the grid unchanged, as padding by 0 does | not executed | NdArrays.UnpadZeroWidthEmpties | NdArrays.UnpadIntendedRoundTrip |
