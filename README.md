# Fault separation geometry

A Dafny model of the geometric core of a structural-geology tool that works
out the dip and strike separation of a bedding plane cut by a fault with a
known net slip. Two parts are modelled:

- `utils/geometry.py`: the plane and line geometry. It covers the unit normal
  of a plane given as (dip, dip direction), plane equations `Ax + By + Cz + D = 0`,
  the line where two planes meet, the projection of a 3D line into the slope
  and intercept of a 2D frame, the meeting point of two 2D lines, and the
  displacement of a point along a vector.
- The computational part of `section_map` in `utils/analysis.py`:
  - the in-place nudge of a dip direction of exactly 90;
  - the rake fold and the slip sign;
  - the planes through the origin and the slipped hangingwall bedding;
  - the section view (a vertical plane along the fault strike) and the map
    view (the horizontal plane);
  - the cut-off points where the bedding traces meet the fault trace;
  - the sampled polylines;
  - the eight-case table that trims the map polylines.

Files:

- `numerics.dfy`: trigonometry, the square root and the stereonet
  rake-to-plunge/bearing conversion. These are floating-point library code,
  so they are a record of function values. Each lemma that needs one of
  them states its law at the single argument it uses, e.g. `SqrtAt` or
  `PythagoreanAt`.
- `linalg.dfy`: `np.dot`, `np.cross` and vector sums on 3-vectors, which
  are `seq<real>`.
- `geometry.dfy`: `utils/geometry.py`. Each exception of the source is an
  `Err` value.
- `trimming.dfy`: the trimming table and the branch chain that applies it.
- `analysis.dfy`: `section_map`. The method works on the caller's `fault`
  and `bedding` arrays in place.

The linear algebra uses exact reals. Some divisions by zero give numpy
non-finite values rather than an exception: a zero norm, a projected line
with `p2 == 0`, and a meeting point of two numpy-float lines of equal slope.
The model returns an explicit error for each.

Where the docstrings and the code disagree, the model follows the code:

- The intersection anchor solves the planes with `B = [D1, D2]`, so it lies
  on the planes with their constant terms negated
  (`MapAnchorOnPlanes`, `SectionAnchorOnPlanes`).
- The "parallel" branch of the intersection functions indexes `None`. The
  model treats it as a failure (`Singular`), not as a result.
- The projector's `m` is the negated slope of the projected line
  (`ProjectedLineNegatesSlope`).

The anchor's sign and the `-net_slip_value` passed to the slip cancel out:
the hangingwall trace is the bedding plane through the origin slipped by
`+net_slip_value` (`AnchorOnReflectedPlane`). The hangingwall cut-off
points of both views lie on the fault plane and on that slipped bedding
plane (`CutOffsCutsOnPlanes`).

## Model

| member | source | states |
|---|---|---|
| Geometry.NormalVector | utils/geometry.py:16-47 | Err(BadPlane) exactly when the plane is not a pair; an Ok normal is orthogonal to both the strike vector `u` and the dip vector `v` |
| Geometry.RawNormal | utils/geometry.py:35-42 | the cross product `v x u` is orthogonal to the strike vector and to the dip vector |
| Geometry.Normalize | utils/geometry.py:44-45 | fails exactly when the norm is zero; otherwise the result times the norm is the input |
| Geometry.RawNormalUpward | utils/geometry.py:35-42 | with the quarter-turn and Pythagorean laws, `v x u` is (tan(dip) sin(dd), tan(dip) cos(dd), 1), which always points up |
| Geometry.NormalizeUnit | utils/geometry.py:44-45 | with an exact square root, normalising a nonzero vector succeeds and gives a unit vector |
| Geometry.NormalVectorUnit | utils/geometry.py:26-47 | with exact trigonometry and square root, every (dip, dip direction) pair has a unit normal with a positive z component |
| Geometry.LineEquation3Dto2D | utils/geometry.py:49-88 | WrongDimension exactly when a vector is not of length 3; VerticalLine exactly when `j . (k x v) == 0`; the intercept is `m (i . A) + j . A`, so the projected anchor lies on `y = -m x + a` |
| Geometry.ProjectedLineNegatesSlope | utils/geometry.py:72-88 | in a right-handed frame `m == -(j . v) / (i . v)` and every projected point `A + t v` lies on `y = -m x + a`: `m` is the negated slope |
| Geometry.LineEquationOdd | utils/geometry.py:72-88 | negating the anchor keeps the slope and negates the intercept; an anchor at the origin gives intercept 0 |
| Geometry.CalIntersection | utils/geometry.py:90-122 | None exactly when the slopes are equal; otherwise the point lies on both lines |
| Geometry.CalIntersectionUnique | utils/geometry.py:111-118 | the returned point is the only point on both lines |
| Geometry.CalIntersectionMirror | utils/geometry.py:111-118 | negating both slopes mirrors the meeting point in the y axis |
| Geometry.CalIntersectionOdd | utils/geometry.py:111-118 | two lines through the origin meet at the origin; negating one intercept negates the meeting point with a line through the origin |
| Geometry.PlaneEquation | utils/geometry.py:124-149 | WrongDimension exactly when `n` or `P` is not of length 3; otherwise the first three coefficients are `n` and `P` is on the plane |
| Geometry.PlaneEquationPoints | utils/geometry.py:146-149 | Q is on the plane built from (n, P) exactly when `n . (Q - P) == 0` |
| Geometry.PlaneEquationNeg | utils/geometry.py:146-149 | the plane through `-P` has the same normal and the negated constant term |
| Geometry.Solve2 | utils/geometry.py:187-196 | None exactly when the determinant is zero; otherwise the pair solves the system |
| Geometry.Solve2Unique | utils/geometry.py:187-196 | a nonzero determinant leaves a single solution |
| Geometry.PlaneIntersectionMap | utils/geometry.py:151-199 | WrongDimension exactly when a plane is not of length 4; Singular exactly when `A1 C2 - C1 A2 == 0`; the direction is `n1 x n2`, orthogonal to both normals, with y component `-(A1 C2 - C1 A2)`, so it is never zero; the anchor has y == 0 and solves `A x + C z == D` for both planes |
| Geometry.PlaneIntersectionSection | utils/geometry.py:201-249 | WrongDimension exactly when a plane is not of length 4; Singular exactly when `A1 B2 - B1 A2 == 0`; the direction is `n1 x n2`, orthogonal to both normals, with z component `A1 B2 - B1 A2`, so it is never zero; the anchor has z == 0 and solves `A x + B y == D` for both planes |
| Geometry.MapAnchorOnPlanes | utils/geometry.py:181-199 | the map anchor lies on a plane exactly when that plane's D is 0; the negated anchor line lies on both planes |
| Geometry.SectionAnchorOnPlanes | utils/geometry.py:231-249 | the section anchor lies on a plane exactly when that plane's D is 0; the negated anchor line lies on both planes |
| Geometry.LineOnPlane | utils/geometry.py:187-198 | a point with `n . X == D` is on the plane exactly when D is 0; every point of the negated line is on the plane |
| Geometry.AnchorOnReflectedPlane | utils/geometry.py:181-249 | in both variants, intersecting the plane through P with a plane through the origin anchors the line on the plane through `-P` and on the other plane |
| Geometry.CoincidentPlanesSingular | utils/geometry.py:190-198 | a plane intersected with itself reaches the failing branch in both variants |
| Geometry.SectionAnchorOdd | utils/geometry.py:231-249 | negating the first plane's D keeps success and direction and negates the section anchor |
| Geometry.MapAnchorOdd | utils/geometry.py:181-199 | negating the first plane's D keeps success and direction and negates the map anchor |
| Geometry.OriginAnchors | utils/geometry.py:237-248 | two planes through the origin meet in a line anchored at the origin |
| Geometry.ApplyNetSlip | utils/geometry.py:251-280 | WrongDimension exactly when the lengths differ; otherwise each component is `P[n] + a v[n]` and the length is that of P |
| Geometry.ApplyNetSlipCompose | utils/geometry.py:275-280 | a zero magnitude returns P; two slips along v add up; slipping by `-a` undoes slipping by `a` |
| Geometry.ApplyNetSlipFromOrigin | utils/geometry.py:275-280 | slipping the origin by `a` gives `a v` |
| Analysis.NudgeDipDirection | utils/analysis.py:27-30 | the result is never 90, and any value other than 90 is kept |
| Analysis.RestoreDipDirection | utils/analysis.py:189-190 | the result is 90 exactly for 90.00001 and 90, and any other value is kept |
| Analysis.NudgeThenRestore | utils/analysis.py:189-190 | restoring after the nudge gives back every dip direction except 90.00001 itself, which comes back as 90 |
| Analysis.FoldRake | utils/analysis.py:42-45 | rakes in [0, 360) land in [0, 180); 180 is subtracted exactly for rakes in [180, 360), and other rakes are kept |
| Analysis.RakeFullTurn | utils/analysis.py:42-55 | a rake of 360 is used as 360 with the slip reversed, unlike a rake of 0 |
| Analysis.RawNetSlip | utils/analysis.py:47-55 | the trend vector (sin bearing, cos bearing, -tan plunge) of the folded rake, negated exactly for rakes of 180 and over, which keeps its length |
| Analysis.NetSlipDirection | utils/analysis.py:47-56 | `u_ns` fails exactly when the raw vector's norm is zero; otherwise `u_ns` times the norm is the raw vector |
| Analysis.NetSlipOpposite | utils/analysis.py:42-56 | a rake and the same rake plus 180 give opposite unit net-slip vectors, and fail together |
| Analysis.NetSlipUnit | utils/analysis.py:50-56 | with exact trigonometry at the bearing and an exact square root, `u_ns` is a unit vector |
| Analysis.FoldDipDirection | utils/analysis.py:145-151 | 180 is subtracted exactly from values above 180, so [0, 360] lands in [0, 180] |
| Analysis.CutView | utils/analysis.py:88-90 | fails exactly when the fault trace is parallel to a bedding trace; otherwise each cut-off point lies on the fault trace and on its bedding trace |
| Analysis.FramesRightHanded | utils/analysis.py:80-86 | the section frame (i = j x k, j vertical, k = ns) and the map frame are right-handed |
| Analysis.MapTraceAsProjected | utils/analysis.py:110-133 | every point of a 3D line lies, in map view, on the trace drawn with the negated projector slope: the map shows the line as projected |
| Analysis.SectionTraceMirrored | utils/analysis.py:80-99 | for a horizontal unit `ns` and a direction whose projection is not vertical, the trace exists and every point of the 3D line lies on it taken along `-i`: the section trace, drawn with the projector's slope as it is, is the mirror image of the projected line |
| Analysis.SectionTrace | utils/analysis.py:80-86 | fails exactly for a line of the wrong dimension or one whose projected direction is vertical; otherwise the anchor's projection lies on `y = -m x + a` (see SectionTraceMirrored for every point) |
| Analysis.MapTrace | utils/analysis.py:110-120 | fails exactly for a line of the wrong dimension or a direction with zero x; otherwise the anchor lies on the trace with the negated slope (see MapTraceAsProjected for every point) |
| Analysis.SectionView | utils/analysis.py:75-90 | a section view exists only when all three section intersections and their traces do, its traces are those projections, and each cut-off point lies on the fault trace and on its bedding trace; conversely it exists whenever the intersections and traces do and the fault slope differs from both bedding slopes |
| Analysis.MapView | utils/analysis.py:105-120 | a map view exists only when all three map intersections and their traces do, its traces are those projections, and each cut-off point lies on the fault trace and on its bedding trace; conversely it exists whenever the intersections and traces do and the fault slope differs from both bedding slopes |
| Analysis.Views | utils/analysis.py:61-120 | in both views each cut-off point lies on the fault trace and its bedding trace, and the fault normal's x component is nonzero (ViewsCutsOnPlanes places the points on the 3D planes) |
| Analysis.TracesOdd | utils/analysis.py:80-120 | negating an anchor negates the drawn intercept in both views; an anchor at the origin is drawn through the origin |
| Analysis.MapTracePoint | utils/analysis.py:105-120 | a point on the drawn map trace of a plane, at height zero, lies on the map plane and on that plane with its constant term negated |
| Analysis.SectionTracePoint | utils/analysis.py:75-90 | for a horizontal unit `ns`, a point (x, y) on the drawn section trace of a plane is the 3D point `-x i + y Up`, which lies on the section plane and on that plane with its constant term negated |
| Analysis.SectionFramePoint | utils/analysis.py:80-83 | a point of the section plane is recovered from its coordinate along `-i` and its height |
| Analysis.SectionCutsOnPlanes | utils/analysis.py:75-90 | in a section view, both cut-off points lie on the section plane and on the fault plane, and each on its bedding plane (constant terms negated) |
| Analysis.MapCutsOnPlanes | utils/analysis.py:105-120 | in a map view, both cut-off points at height zero lie on the horizontal plane and on the fault plane, and each on its bedding plane (constant terms negated) |
| Analysis.ViewsCutsOnPlanes | utils/analysis.py:61-120 | every cut-off point of both views lies on the fault plane through the origin; the footwall ones on the bedding plane through the origin, the hangingwall ones on the bedding plane through the reversed hangingwall point; section ones on the section plane, map ones on the horizontal plane |
| Analysis.CutOffsCutsOnPlanes | utils/analysis.py:35-120 | with exact trigonometry at the strike, both hangingwall cut-off points lie on the fault plane through the origin and on the bedding plane through `net_slip_value * u_ns` |
| Analysis.ViewsOdd | utils/analysis.py:61-120 | the footwall cut-off points are the origin in both views; reversing the hangingwall point reverses both hangingwall cut-off points |
| Analysis.SectionViewOdd | utils/analysis.py:75-90 | in the section view the footwall cut-off is the origin, and negating the hangingwall plane's D reverses the hangingwall cut-off |
| Analysis.MapViewOdd | utils/analysis.py:105-120 | in the map view the footwall cut-off is the origin, and negating the hangingwall plane's D reverses the hangingwall cut-off |
| Analysis.CutViewOdd | utils/analysis.py:118-120 | lines through the origin meet at the origin; negating the hangingwall intercept negates its cut-off point |
| Analysis.SampleCount | utils/analysis.py:93-95 | `np.arange(start, stop, 1)` takes the least count reaching `stop`, and none for an empty range |
| Analysis.Arange | utils/analysis.py:127-129 | element n is `start + n` and below `stop`, and the next one would not be |
| Analysis.Polyline | utils/analysis.py:131-133 | one row per sample, with the sample as its x, and every row on the trace |
| Analysis.HangingwallPoint | utils/analysis.py:66-70 | succeeds exactly when `u_ns` exists; the point is `-net_slip_value * u_ns` |
| Analysis.Prepare | utils/analysis.py:32-133 | succeeds exactly when both views exist and carries those views; the normal's map projection is `(nf[0], nf[1])` of the fault normal; the section polylines are sampled on [-20, 20), [-20, footwall cut-off x + 1) and [hangingwall cut-off x, 20), the map polylines on [-50, 50), each on its drawn trace |
| Analysis.CutOffs | utils/analysis.py:35-120 | Err(BadPlane) when the fault is not a pair, an error when the bedding is not; on success both normals and `u_ns` exist and every cut-off point lies on its traces (CutOffsCutsOnPlanes places the hangingwall points on the 3D planes) |
| Analysis.TrimMap | utils/analysis.py:145-178 | only the two map bedding polylines change, each to a subsequence of itself, and a zero normal x component changes nothing |
| Analysis.PreparedSideNonZero | utils/analysis.py:106-178 | a prepared analysis always has a nonzero normal x component, so the table's `x == 0` case is not reached |
| Analysis.FootwallCutsAtOrigin | utils/analysis.py:61-120 | every successful analysis has its footwall cut-off points at the origin in both views |
| Analysis.SlipMagnitudeSymmetry | utils/analysis.py:61-143 | reversing the net-slip magnitude keeps success and the dip and strike separations |
| Analysis.RakeHalfTurnSymmetry | utils/analysis.py:42-143 | a rake and the same rake plus 180 give the same success and the same separations |
| Analysis.HalfTurnHangingwall | utils/analysis.py:42-67 | a rake and the same rake plus 180 give opposite hangingwall points |
| Analysis.ReversedCutOffs | utils/analysis.py:61-120 | opposite hangingwall points give the same success and the same separations |
| Analysis.ReversedViews | utils/analysis.py:61-120 | views built from opposite hangingwall points have the same separations |
| Analysis.SectionMap | utils/analysis.py:10-190 | both arrays are checked for a second entry. Both dip directions of 90 are nudged in place. The result is the prepared analysis with the table applied to the folded dip directions, or its error. Only on success is the fault's nudged value set back to 90, and the bedding keeps its nudge |
| Trimming.Opposite | utils/analysis.py:153-178 | every row is kept by a cut or by its opposite |
| Trimming.Trim | utils/analysis.py:153-178 | every row the cut keeps appears as often as in the input, every other row not at all; never longer than the input |
| Trimming.TrimIsSubsequence | utils/analysis.py:153-178 | a trimmed polyline is a subsequence of the original, in the original order |
| Trimming.TrimKeepAll | utils/analysis.py:153-178 | the no-cut case leaves a polyline unchanged |
| Trimming.Table | utils/analysis.py:153-178 | both blocks keep everything exactly when x == 0 or the bedding and fault dip directions are equal (bed not 0 or 180). Otherwise the footwall is cut on the sign of y, and the hangingwall against `hwm.x` for bed 0 or 180 and against `hwm.y` otherwise |
| Trimming.TableMirror | utils/analysis.py:153-178 | the negative-x rule keeps the opposite halves of the positive-x rule |
| Trimming.TrimBlocks | utils/analysis.py:153-178 | the branch chain applies the table's rule to each polyline, and each result is a subsequence of its input |

## Left out

- Printing and plotting: the printed separations (utils/analysis.py:141-143), the figure drawing, text labels and saving (utils/analysis.py:180-188 and 191-221) and `utils/plotting.py` produce no values the analysis uses.
- The table's `x == 0` branch (utils/analysis.py:153 and 166 falling through) is dead in the pipeline: the map intersection raises first (`PreparedSideNonZero`). It is modelled for `TrimBlocks` on its own.
- `main.py` is interactive input and a menu. Its `int()` truncation is input plumbing. It passes tuples, so the in-place write to the dip direction would raise there. The model takes the path where the caller passes mutable sequences.
- Floating point: all arithmetic is exact `real` arithmetic. Sin, cos, tan, the norm's square root and the stereonet rake conversion (utils/analysis.py:48-49) are uninterpreted functions. Equality tests such as `== 90` and `det == 0` are exact.
- The printed dip and strike separations use `math.dist` and `round`. The model compares the squared distances from the cut-off points to the origin (`SameSeparations`), not the rounded printed numbers.
- The `isinstance` checks on numeric elements are type-level in the source. Every value here is a `real`, so only the length checks are modelled.
- Analysis.CutView: `section_map` passes numpy floats, so `cal_intersection` never returns `None` there. With a parallel section trace the division gives a non-finite point and `np.arange` then fails (utils/analysis.py:94-95). With a parallel map trace the run completes with a non-finite strike separation and hangingwall point. The model turns both cases into `Err(Parallel)`.
- Geometry.LineEquation3Dto2D: numpy divides by `p2 == 0` to give a non-finite slope. The model returns `Err(VerticalLine)`.
- Geometry.Normalize: numpy divides by a zero norm to give non-finite components. The model returns `Err(ZeroNorm)`.
- Analysis.SectionMap: when the fault and bedding are the same array, the contract does not state the bedding's final contents separately.
