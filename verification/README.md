# VoxAtx registration and segmentation core, modelled in Dafny

This project models the parts of the VoxAtx image registration and segmentation
toolkit whose logic is fully visible in its sources, and proves what each part
promises. Every double is modelled as a `real`, and every `int` as an unbounded integer.

- **Nelder–Mead simplex minimiser** (`amotry`, `amoeba`, `minimize`), in
  `minimizer.dfy` and `simplex.dfy`.
  - The simplex is an `array2<real>` of n+1 vertices, with their costs and the running
    column sums `psum`.
  - The cost function is a pure oracle held by a `FunctionMinimizer` object. That object
    also counts evaluations and carries the abort flag and the iteration limit.
  - The proofs show that:
    - `psum` stays equal to the column sums;
    - the costs stay equal to the oracle's values at the vertices;
    - the best cost never rises;
    - the evaluation count stays within its budget.
- **Powell line search** (`PowellBrent`, `PowellBracket`), in `powell.dfy`.
  - Brent's loop keeps the best value `fx` from ever rising and keeps x inside a
    bracket that only shrinks.
  - Every probe lies strictly inside the bracket and at least `tol1` from x.
  - Brent's loop fits its parabola as the source writes it (the two products added).
    The bracket and probe bounds hold for any parabola. For three points of a parabola,
    the fit with the products subtracted finds the vertex, and the fit as written does not
    (see Findings).
  - Golden-ratio bracketing is modelled as its start and one pass of its loop.
- **Fixed-point and rounding helpers** of the amoeba grid filter (radix 14), in
  `fixedpoint.dfy`, and the per-thread statistics of the amoeba grid filter, in
  `amoeba_grid.dfy`.
- **Connectivity filter** (`connectivity.dfy`):
  - seeds and regions, extent intersection, and smallest/largest region selection;
  - the enum-to-string getters and the constructor defaults;
  - the clamping of the active component and of the lower scalar bound.
- **Morphological interpolator** (`morphological.dfy`): operation and radius
  clamping, the odd support sizes, the block widths, loop limits and distance table of
  the interpolation kernel, and the deep copy.
- **Label interpolator** (`label_interpolator.dfy`):
  - the even support sizes, including how a matrix widens them;
  - the half-size clamp, and the packing of the mode word with a proof that every
    field reads back;
  - the setters' modification rules and the deep copy.
- **ITK XFM / MATLAB writer** (`xfm_writer.dfy`): the layout of a 4x4 matrix as twelve
  ITK affine parameters about the transform centre. A proof shows that the written
  transform maps every point where the matrix maps it. The header of the MATLAB file
  describes the parameters.
- **The `register` program** (`register.dfy`):
  - guessing a file's type from its name;
  - the de-duplication of DICOM file names;
  - the series number and description rules, the DICOM generator choice and the NIFTI
    matrix choice.

Things outside the model are parameters:
- the cost function and the observer's abort decision (`FunctionMinimizer.f`, `requestAbort`);
- the square root used by the label interpolator (`sqrt`);
- the first line of a `.txt` file, and the meta data of DICOM readers.

## Model

| member | source | states |
|---|---|---|
| Minimizer.FunctionMinimizer.EvaluateFunction | ImageRegistration/vtkPowellMinimizer.cxx:133-134 | The reported value is the cost at the point; one more evaluation is counted; the abort flag is raised once the observer asks for it and never lowered |
| Simplex.TrialPointIsOnCentroidLine | AtamaiWarp/vtkFunctionMinimizer.cxx:36-41 | The trial point `psum*fac1 - worst*fac2` is `(1-fac)*centroid + fac*worst`, where the centroid is of the other n vertices (reflection, expansion, contraction) |
| Simplex.Converged | AtamaiWarp/vtkFunctionMinimizer.cxx:104-109 | Convergence needs ftol > 0; when \|yhi\|+\|ylo\| >= ftol it holds iff 2\|yhi-ylo\| < ftol*(\|yhi\|+\|ylo\|), and a zero divisor never converges |
| Simplex.SelectVertices | AtamaiWarp/vtkFunctionMinimizer.cxx:80-102 | y[ilo] is minimal with ties going to the later index, y[ihi] is maximal, inhi != ihi and y[inhi] is the largest cost apart from ihi |
| Simplex.ComputeTrialPoint | AtamaiWarp/vtkFunctionMinimizer.cxx:36-41 | ptry holds TrialPoint of psum and the worst row |
| Simplex.ReplaceVertex | AtamaiWarp/vtkFunctionMinimizer.cxx:47-51 | Row ihi becomes ptry, every other row is unchanged, and psum stays equal to the column sums |
| Simplex.Amotry | AtamaiWarp/vtkFunctionMinimizer.cxx:29-54 | Evaluates the trial point once and returns its cost; row ihi and y[ihi] are replaced iff the trial is strictly better; other rows are unchanged; psum and the cost invariant are kept |
| Simplex.Shrink | AtamaiWarp/vtkFunctionMinimizer.cxx:132-141 | Row ilo and y[ilo] are untouched; every other vertex moves to its midpoint with ilo and is re-evaluated; ndim evaluations are counted |
| Simplex.ComputeColumnSums | AtamaiWarp/vtkFunctionMinimizer.cxx:68-76 | psum[j] is the sum of column j over all n+1 vertices |
| Simplex.SwapBestIntoFirst | AtamaiWarp/vtkFunctionMinimizer.cxx:109-118 | Cost slots 1 and ilo are exchanged, and so are vertex rows 0 and ilo; other rows are unchanged |
| Simplex.Step | AtamaiWarp/vtkFunctionMinimizer.cxx:125-152 | One iteration keeps psum and the costs consistent, never raises y[ilo], and adds between 1 and ndim+2 to nfunk, exactly the evaluations made |
| Simplex.Converge | AtamaiWarp/vtkFunctionMinimizer.cxx:104-119 | On convergence y[1] is the old best cost, it is the cost of row 0, and it is the minimum of y |
| Simplex.Amoeba | AtamaiWarp/vtkFunctionMinimizer.cxx:57-158 | Returns 0 or -1; nfunk counts the evaluations within the budget; the best cost never rises; -1 only once nfunk >= maxnfunk; on 0, y[1] is the cost of row 0 and the simplex has converged |
| Simplex.Minimize | AtamaiWarp/vtkFunctionMinimizer.cxx:161-179 | Evaluates all n+1 vertices and then runs amoeba; the evaluation count and budget are as for Amoeba; on success y[1] is minimal and is the cost of vertex row 0 |
| Powell.SetLinePoint | ImageRegistration/vtkPowellMinimizer.cxx:166-169 | The buffer holds p0 + u*vec |
| Powell.EvaluateAt | ImageRegistration/vtkPowellMinimizer.cxx:128-134 | Writes p0 + u*vec and returns the cost there, with one evaluation counted |
| Powell.ParabolaFitFindsVertex | ImageRegistration/vtkPowellMinimizer.cxx:88-96 | For three distinct points of a parabola with vertex mid, the (corrected) fit has q != 0 and the step -p/q lands on mid |
| Powell.ParabolaAsWrittenMissesVertex | ImageRegistration/vtkPowellMinimizer.cxx:91-94 | On f(u)=u*u with x=1, w=-2, v=3 the numerator as written gives the step 1.4 instead of -1 to the vertex |
| Powell.UsefulStepInside | ImageRegistration/vtkPowellMinimizer.cxx:100-103 | A useful parabolic step lands strictly inside (a, b) and is shorter than half the step before last |
| Powell.ChooseStep | ImageRegistration/vtkPowellMinimizer.cxx:82-116 | Golden section whenever the step before last is within tol1; a non-golden step only when the parabola is useful, and then e takes the old d |
| Powell.Probe | ImageRegistration/vtkPowellMinimizer.cxx:118-126 | Every probe is at least tol1 from x, and is x + d when \|d\| >= tol1 |
| Powell.BrentDoneNarrow | ImageRegistration/vtkPowellMinimizer.cxx:73-81 | The loop stops only once b - a < 4*tol1 |
| Powell.ProbeInsideBracket | ImageRegistration/vtkPowellMinimizer.cxx:82-126 | While the search goes on, the probe lies strictly inside (a, b), whatever the parabola |
| Powell.GoldenProbeInside | ImageRegistration/vtkPowellMinimizer.cxx:82-87 | A golden-section probe lies strictly inside (a, b) |
| Powell.ParabolicProbeInside | ImageRegistration/vtkPowellMinimizer.cxx:103-108 | A parabolic probe, nudged by tol1 near an end, lies strictly inside (a, b) |
| Powell.Advance | ImageRegistration/vtkPowellMinimizer.cxx:136-163 | fx never rises; x moves to u iff fu <= fx; with u inside, the new bracket lies within the old and contains x |
| Powell.AdvanceKeepsBracket | ImageRegistration/vtkPowellMinimizer.cxx:82-163 | An iteration that does not stop, with the parabola fitted as written at :91-94, keeps a <= x <= b inside a bracket that only shrinks |
| Powell.PowellBrent | ImageRegistration/vtkPowellMinimizer.cxx:41-171 | The loop runs the parabola fit as written (:93). The returned fx is at most y0, and is either y0 at the untouched middle point or the cost of the point left in the buffer; with tol > 0 that point stays inside the initial bracket; at most MaxIterations evaluations; none once the abort flag is set, and no abort request before the last one |
| Powell.BracketStart | ImageRegistration/vtkPowellMinimizer.cxx:183-208 | Probes at 1, orders the points so that fb <= fa, sets xc = xb + g*(xb - xa) and evaluates it: two evaluations |
| Powell.BracketTrial | ImageRegistration/vtkPowellMinimizer.cxx:213-220 | The divisor is at least 2e-21 and the growth limit is xb + 110*(xc - xb) |
| Powell.BracketTrialFindsVertex | ImageRegistration/vtkPowellMinimizer.cxx:213-219 | On three points of a parabola, the trial point is its vertex |
| Powell.BracketPassCount | ImageRegistration/vtkPowellMinimizer.cxx:221-224 | The test `ii++ > MaxIterations` lets exactly MaxIterations+1 passes run |
| Powell.BracketPass | ImageRegistration/vtkPowellMinimizer.cxx:210-294 | A pass stops iff the pass limit is exceeded or abort is set; a bracket it returns is valid (middle point strictly between the ends, lowest cost); otherwise fb and fc never rise |
| Powell.SignOfProduct | ImageRegistration/vtkPowellMinimizer.cxx:227 | The test (w-xc)*(xb-w) > 0 holds exactly when w is strictly between xb and xc |
| FixedPoint.Floor | AtamaiWarp/vtkImageAmoebaGrid.cxx:213-216 | x >> 14 is the largest r with r*16384 <= x |
| FixedPoint.Ceil | AtamaiWarp/vtkImageAmoebaGrid.cxx:219-222 | (16383 + x) >> 14 is the smallest r with r*16384 >= x |
| FixedPoint.Round | AtamaiWarp/vtkImageAmoebaGrid.cxx:225-228 | (x + 8192) >> 14 is within half a unit of x |
| FixedPoint.FloorFraction | AtamaiWarp/vtkImageAmoebaGrid.cxx:232-238 | x == (ix << 14) + f with 0 <= f < 16384 and ix the floor |
| FixedPoint.QuikMul | AtamaiWarp/vtkImageAmoebaGrid.cxx:242-245 | A radix-28 product is rounded to the nearest radix-14 value |
| FixedPoint.Multiply | AtamaiWarp/vtkImageAmoebaGrid.cxx:249-257 | The split multiplication equals (x*y + 8192) >> 14 |
| FixedPoint.TruncatedDivision | AtamaiWarp/vtkImageAmoebaGrid.cxx:262 | C's integer division: the remainder is smaller than the divisor and has the dividend's sign |
| FixedPoint.Inverse | AtamaiWarp/vtkImageAmoebaGrid.cxx:260-263 | For x > 0, r*x is within x/2 of 1.0*1.0 in radix 28 |
| FixedPoint.OneMinusX | AtamaiWarp/vtkImageAmoebaGrid.cxx:286-289 | r + x is 1.0, and r is an integer iff x is |
| FixedPoint.IsEqualToOne | AtamaiWarp/vtkImageAmoebaGrid.cxx:293-296 | Holds iff x is an integer whose floor is 1 |
| FixedPoint.IsInteger | AtamaiWarp/vtkImageAmoebaGrid.cxx:300-303 | Holds iff x is a multiple of 16384, iff floor and ceil agree |
| FixedPoint.FloorReal | AtamaiWarp/vtkImageAmoebaGrid.cxx:339-357 | The mathematical floor |
| FixedPoint.CeilReal | AtamaiWarp/vtkImageAmoebaGrid.cxx:360-363 | -floor(-x-1)-1 is the mathematical ceiling |
| FixedPoint.RoundReal | AtamaiWarp/vtkImageAmoebaGrid.cxx:366-369 | floor(x+0.5) is within half a unit of x |
| FixedPoint.FloorFractionReal | AtamaiWarp/vtkImageAmoebaGrid.cxx:391-397 | x is its floor plus a fraction in [0, 1) |
| FixedPoint.IsIntegerReal | AtamaiWarp/vtkImageAmoebaGrid.cxx:443-446 | Holds iff floor and ceiling agree, iff the fraction is 0 |
| AmoebaGrid.AmoebaGridStatistics.constructor | AtamaiWarp/vtkImageAmoebaGrid.cxx:85-88 | No thread count seen yet, and empty arrays |
| AmoebaGrid.AmoebaGridStatistics.ComputeInputUpdateExtents | AtamaiWarp/vtkImageAmoebaGrid.cxx:500-529 | On a new thread count, three fresh zeroed arrays of that length (all sums 0); otherwise the same arrays |
| AmoebaGrid.AmoebaGridStatistics.GetVectorsMinimized | AtamaiWarp/vtkImageAmoebaGrid.cxx:575-583 | The sum of the per-thread counts |
| AmoebaGrid.AmoebaGridStatistics.GetMeanVectorLength | AtamaiWarp/vtkImageAmoebaGrid.cxx:534-550 | 0 when no vector was minimised; otherwise mean*count == total length |
| AmoebaGrid.AmoebaGridStatistics.GetMeanCost | AtamaiWarp/vtkImageAmoebaGrid.cxx:554-570 | 0 when no vector was minimised; otherwise mean*count == total cost |
| AmoebaGrid.Total | AtamaiWarp/vtkImageAmoebaGrid.cxx:536-540 | The loop total is the sum of the array |
| AmoebaGrid.Mean | AtamaiWarp/vtkImageAmoebaGrid.cxx:542-549 | The zero-count guard: 0 for count 0, otherwise mean*count == total |
| Connectivity.LabelScalarTypeAsString | ImageSegmentation/vtkImageConnectivityFilter.cxx:168-187 | Each listed type has its name, and "Unknown" is returned iff the type is unlisted |
| Connectivity.LabelModeAsString | ImageSegmentation/vtkImageConnectivityFilter.cxx:190-206 | Each listed mode has its name, and "Unknown" is returned iff the mode is unlisted |
| Connectivity.ExtractionModeAsString | ImageSegmentation/vtkImageConnectivityFilter.cxx:209-225 | Each listed mode has its name, and "Unknown" is returned iff the mode is unlisted |
| Connectivity.ConnectivityFilter.constructor | ImageSegmentation/vtkImageConnectivityFilter.cxx:47-68 | The defaults: seed scalar, seeded regions, range [0.5, DOUBLE_MAX], sizes [1, ID_MAX], constant 255, component 0, unsigned char labels, no region extents |
| Connectivity.DefaultSeed | ImageSegmentation/vtkImageConnectivityFilter.cxx:357-358 | All coordinates and the value are 0 |
| Connectivity.SeedAt | ImageSegmentation/vtkImageConnectivityFilter.cxx:360-361 | The given coordinates, and value 0 |
| Connectivity.SeedCopy | ImageSegmentation/vtkImageConnectivityFilter.cxx:366-383 | The copy constructor and assignment rebuild the seed from `seed[0..2]` and `*seed`, which gives back the same seed |
| Connectivity.DefaultRegion | ImageSegmentation/vtkImageConnectivityFilter.cxx:397-399 | Size 0, id 0, and an all-zero extent |
| Connectivity.Smallest | ImageSegmentation/vtkImageConnectivityFilter.cxx:413-428 | An index >= 1 of minimal size, the last such index; with only the background, the end index 1 |
| Connectivity.Largest | ImageSegmentation/vtkImageConnectivityFilter.cxx:431-446 | An index >= 1 of maximal size, the first such index; with only the background, the end index 1 |
| Connectivity.IntersectExtents | ImageSegmentation/vtkImageConnectivityFilter.cxx:451-467 | Each axis becomes [max lo, min hi]; returns true iff every axis is non-empty; a point lies in the output iff it lies in both extents, and on false no point lies in both |
| Connectivity.IntersectionMembership | ImageSegmentation/vtkImageConnectivityFilter.cxx:459-462 | The per-axis max/min extent contains exactly the points in both extents |
| Connectivity.ActiveComponentAsWritten | ImageSegmentation/vtkImageConnectivityFilter.cxx:476-481 | The clamp as written keeps any value in [0, nComponents], the count itself included |
| Connectivity.ActiveComponentAsWrittenOutOfRange | ImageSegmentation/vtkImageConnectivityFilter.cxx:478 | With one component, component 1 is kept although it does not exist |
| Connectivity.ActiveComponentClampsDiffer | ImageSegmentation/vtkImageConnectivityFilter.cxx:478 | The clamp as written and the corrected clamp differ exactly when the value equals a positive component count |
| Connectivity.ActiveComponent | ImageSegmentation/vtkImageConnectivityFilter.cxx:476-481 | The corrected clamp: a valid index is kept, anything else becomes 0, and the result is always a valid index |
| Connectivity.Truncate | ImageSegmentation/vtkImageConnectivityFilter.cxx:495 | static_cast to an integer truncates toward zero |
| Connectivity.ClampLowerScalar | ImageSegmentation/vtkImageConnectivityFilter.cxx:486-496 | The lower bound lands in [min, max]: above max it is max; above min it is the truncated value; otherwise it is min |
| Connectivity.ThresholdSetup | ImageSegmentation/vtkImageConnectivityFilter.cxx:475-496 | The clamp as written: the component is kept iff it lies in [0, nComponents], the count itself included, and is 0 otherwise; the lower bound lies in the type's range |
| Morphological.OperationAsString | ImageRegistration/vtkMorphologicalInterpolator.cxx:90-105 | "Dilate" iff dilate, "Erode" iff erode, and "" otherwise |
| Morphological.ClampRadius | ImageRegistration/vtkMorphologicalInterpolator.cxx:132-136 | The radius is clamped into [0, (KERNEL_SIZE_MAX-1)/2] and left alone inside it |
| Morphological.InverseRadius | ImageRegistration/vtkMorphologicalInterpolator.cxx:137-139 | The inverse is positive and is 1/max(r, 1e-17) |
| Morphological.SupportSize | ImageRegistration/vtkMorphologicalInterpolator.cxx:64-66 | 1 + 2*int(r) is odd, at least 1, and fits the kernel for a clamped radius |
| Morphological.MorphologicalInterpolator.constructor | ImageRegistration/vtkMorphologicalInterpolator.cxx:34-40 | Dilation with radius 0.5 on every axis |
| Morphological.MorphologicalInterpolator.GetOperationAsString | ImageRegistration/vtkMorphologicalInterpolator.cxx:90-105 | The stored operation always has the name "Dilate" or "Erode" |
| Morphological.MorphologicalInterpolator.SetOperation | ImageRegistration/vtkMorphologicalInterpolator.cxx:76-87 | The mode is clamped into [Dilate, Erode]; the object is marked modified iff the stored value changes |
| Morphological.MorphologicalInterpolator.SetRadius | ImageRegistration/vtkMorphologicalInterpolator.cxx:108-120 | The radius is set; the object is marked modified iff some component differs |
| Morphological.MorphologicalInterpolator.ComputeInternalRadius | ImageRegistration/vtkMorphologicalInterpolator.cxx:123-141 | Entries 0..2 are the clamped radii, and entries 3..5 their positive inverses |
| Morphological.MorphologicalInterpolator.InternalUpdate | ImageRegistration/vtkMorphologicalInterpolator.cxx:161-166 | Refreshes the internal radii from the radius and hands the operation to the kernel |
| Morphological.MorphologicalInterpolator.ComputeSupportSize | ImageRegistration/vtkMorphologicalInterpolator.cxx:59-67 | Each size is 1 + 2*int(clamped radius): odd, at least 1, at most KERNEL_SIZE_MAX |
| Morphological.MorphologicalInterpolator.InternalDeepCopy | ImageRegistration/vtkMorphologicalInterpolator.cxx:144-158 | From a morphological interpolator: the operation, the radius and all six internal radius entries are copied, and the object is marked modified once per setter whose value changed; from any other interpolator (a failed down-cast) nothing changes |
| Morphological.BlockWidths | ImageRegistration/vtkMorphologicalInterpolator.cxx:223-234 | Each width is the odd support size 2r+1, and mm is the largest of the three |
| Morphological.SliceLimits | ImageRegistration/vtkMorphologicalInterpolator.cxx:303-311 | The limits are [0, 2r], collapsing to the centre r for a single slice |
| Morphological.DistanceWeight | ImageRegistration/vtkMorphologicalInterpolator.cxx:296-298 | The weight is non-negative, and 0 within half a voxel |
| Morphological.DistanceTable | ImageRegistration/vtkMorphologicalInterpolator.cxx:289-301 | Entry l is the weight at offset -r - f + l, and is non-negative |
| LabelInterpolation.Truncate | ImageRegistration/vtkLabelInterpolator.cxx:129-130 | static_cast to an integer truncates toward zero |
| LabelInterpolation.Extent | ImageRegistration/vtkLabelInterpolator.cxx:129-130 | 2*int(r + 1 - tol) is even, and is the largest even number at most 2(r + 1 - tol); it is at least 2 once r >= tol |
| LabelInterpolation.ExtentMonotone | ImageRegistration/vtkLabelInterpolator.cxx:129-135 | A larger radius never gives a smaller extent |
| LabelInterpolation.DefaultSize | ImageRegistration/vtkLabelInterpolator.cxx:117-138 | KERNEL_SIZE_MAX with antialiasing; otherwise the radius's extent, scaled by a blur factor above 1+tol; always even |
| LabelInterpolation.RowSquare | ImageRegistration/vtkLabelInterpolator.cxx:174-179 | The sum of squares of a matrix row is non-negative |
| LabelInterpolation.RowLengthSquared | ImageRegistration/vtkLabelInterpolator.cxx:173-179 | The loop accumulates the squared length of row i |
| LabelInterpolation.Prepared | ImageRegistration/vtkLabelInterpolator.cxx:145-161 | With a matrix, antialiasing resets the blur to 1 and the kernel to the radius's extent; without it the kernel takes the size |
| LabelInterpolation.Rescaled | ImageRegistration/vtkLabelInterpolator.cxx:186-206 | A scale above 1+tol becomes the blur factor, and the size and kernel widen to its extent; otherwise the axis is unchanged |
| LabelInterpolation.SupportIsEven | ImageRegistration/vtkLabelInterpolator.cxx:114-211 | Every size reported and every kernel size stored is even |
| LabelInterpolation.MatrixIgnoredWithoutAntialiasing | ImageRegistration/vtkLabelInterpolator.cxx:191-195 | Without antialiasing the matrix changes nothing: the kernel is the default size |
| LabelInterpolation.BlurNeverNarrows | ImageRegistration/vtkLabelInterpolator.cxx:114-211 | Blurring never narrows: the size (without antialiasing) and the kernel (with a matrix) are at least the radius's extent |
| LabelInterpolation.ScaledExtent | ImageRegistration/vtkLabelInterpolator.cxx:132-136 | A blurring scale never gives a smaller extent than the radius itself |
| LabelInterpolation.HalfSize | ImageRegistration/vtkLabelInterpolator.cxx:295-302 | KernelSize/2 clamped into [1, KERNEL_SIZE_MAX/2] |
| LabelInterpolation.ModeWord | ImageRegistration/vtkLabelInterpolator.cxx:307-322 | The mode word fits in 32 bits |
| LabelInterpolation.ModeWordFields | ImageRegistration/vtkLabelInterpolator.cxx:53-62 | Each size field and blur bit reads back through its mask and shift, and the window field stays 0 |
| LabelInterpolation.LabelInterpolator.constructor | ImageRegistration/vtkLabelInterpolator.cxx:71-89 | Radius factors 3, kernels 6, blur and last blur factors 1, antialiasing off |
| LabelInterpolation.LabelInterpolator.SetRadiusFactors | ImageRegistration/vtkLabelInterpolator.cxx:220-232 | The factors are set; the object is marked modified iff a component changes |
| LabelInterpolation.LabelInterpolator.SetBlurFactors | ImageRegistration/vtkLabelInterpolator.cxx:235-246 | The factors are set; the object is marked modified iff a component changes |
| LabelInterpolation.LabelInterpolator.SetAntialiasing | ImageRegistration/vtkLabelInterpolator.cxx:249-257 | Any nonzero value becomes 1; the object is marked modified iff the flag changes |
| LabelInterpolation.LabelInterpolator.ComputeSupportSize | ImageRegistration/vtkLabelInterpolator.cxx:114-211 | Each axis's size, blur factor and kernel size are AxisSupport's: a null matrix only writes the sizes, and a perspective matrix stops after the kernel sizes |
| LabelInterpolation.LabelInterpolator.AxisOf | ImageRegistration/vtkLabelInterpolator.cxx:114-115 | Reads one axis's size, blur factor and kernel size |
| LabelInterpolation.LabelInterpolator.ComputeDefaultSize | ImageRegistration/vtkLabelInterpolator.cxx:117-138 | Each size is DefaultSize of the axis |
| LabelInterpolation.LabelInterpolator.PrepareForMatrix | ImageRegistration/vtkLabelInterpolator.cxx:145-161 | Each axis becomes Prepared |
| LabelInterpolation.LabelInterpolator.RescaleRows | ImageRegistration/vtkLabelInterpolator.cxx:170-207 | Each axis becomes Rescaled by its row's scale |
| LabelInterpolation.LabelInterpolator.InternalUpdate | ImageRegistration/vtkLabelInterpolator.cxx:290-322 | The mode word packs the clamped half-sizes and the blur bits; blurChange iff some blur factor moved by tol since the tables were built |
| LabelInterpolation.LabelInterpolator.InternalDeepCopy | ImageRegistration/vtkLabelInterpolator.cxx:260-287 | Copies the radius factors, antialiasing and blur factors, with exactly the modifications the setters make; every kernel size becomes 6 |
| XfmWriter.Parameters | ImageRegistration/vtkITKXFMWriter.cxx:138-146 | Twelve parameters: p[3i+j] is M[i][j], and p[9+i] is (M.c)[i] - c[i] |
| XfmWriter.ParametersPreserveTransform | ImageRegistration/vtkITKXFMWriter.cxx:130-146 | For every centre and point, the ITK transform with the written parameters maps the point where M does |
| XfmWriter.ParametersLaidOut | ImageRegistration/vtkITKXFMWriter.cxx:138-146 | A sequence holding the 3x3 block and the translation in their places is the parameter vector |
| XfmWriter.ZeroCentreTranslation | ImageRegistration/vtkITKXFMWriter.cxx:130-136 | With the zero centre, the translation is M's last column |
| XfmWriter.LittleEndian32 | ImageRegistration/vtkITKXFMWriter.cxx:148-154 | Four bytes, each in [0, 256) |
| XfmWriter.MatHeader | ImageRegistration/vtkITKXFMWriter.cxx:148-154 | The visible header is 16 bytes |
| XfmWriter.LittleEndianRoundTrip | ImageRegistration/vtkITKXFMWriter.cxx:148-154 | Every 32-bit word reads back from its little-endian bytes |
| XfmWriter.HeaderDescribesParameters | ImageRegistration/vtkITKXFMWriter.cxx:148-154 | The header declares type 0, as many rows as there are parameters, and 1 column |
| XfmWriter.XFMWriter.constructor | ImageRegistration/vtkITKXFMWriter.cxx:68-76 | The transform centre starts at the origin |
| XfmWriter.XFMWriter.WriteLinearTransform | ImageRegistration/vtkITKXFMWriter.cxx:116-146 | Refuses (returns 0, lays out nothing) iff the bottom row is not (0,0,0,1); otherwise p is exactly Parameters about the centre |
| Register.FileTypeOrdering | Programs/register.cxx:114-117 | Each image type is in [DICOM, LastImageType], each transform type in (LastImageType, LastTransformType], and no type is both |
| Register.GuessFileType | Programs/register.cxx:167-219 | A transform type iff a transform suffix; ITK iff .tfm or a .txt whose first line starts with the ITK header; MINC iff .mnc; NIFTI iff a NIFTI suffix; DICOM otherwise |
| Register.BareSuffixIsDicom | Programs/register.cxx:171-213 | A name equal to a suffix (".xfm", ".nii.gz") is not matched and is DICOM |
| Register.Dedup | Programs/register.cxx:289-309 | The same names, with no duplicates |
| Register.DedupKeepsFirstOccurrenceOrder | Programs/register.cxx:289-309 | The kept names appear in the order of their first occurrences |
| Register.FrameFileNames | Programs/register.cxx:290-293 | The i-th name is the file name of frame i |
| Register.FilterFileNames | Programs/register.cxx:284-309 | The nested loop yields Dedup of the frames' file names |
| Register.RegisteredSeriesNumber | Programs/register.cxx:361-362 | The series number plus 1000, in unsigned 32-bit arithmetic |
| Register.RegisteredDescription | Programs/register.cxx:363-368 | " REG" is appended iff the result is shorter than 64 characters; otherwise the description is unchanged |
| Register.GeneratorFor | Programs/register.cxx:384-400 | CT generator iff a CT storage class, MR generator iff an MR storage class, none otherwise |
| Register.DicomMetaData.constructor | Programs/register.cxx:357-360 | A copy of the four attributes |
| Register.PrepareMetaData | Programs/register.cxx:351-400 | With a DICOM target: its meta data, renumbered, with the description marked, and the generator of its SOP class; with a DICOM source: its frame of reference; no target, no generator |
| Register.NiftiMatrixAsWritten | Programs/register.cxx:643-653 | QForm, else SForm, else whatever the static buffer held |
| Register.NiftiMatrix | Programs/register.cxx:643-653 | QForm, else SForm, else the identity |
| Register.NiftiMatrixFirstRead | Programs/register.cxx:644-645 | While the static buffer still holds its identity initialiser, the two agree |
| Register.NiftiMatrixLeaksBetweenReads | Programs/register.cxx:644-653 | After a file with QForm diag(2,2,2,1), a file with neither form gets that QForm, not the identity |

## Left out

- Floating point: every double (and float) is a `real`. Rounding, NaN and infinity are not modelled. The one exception is a zero divisor in the amoeba convergence test, which is modelled as never converging, as a NaN comparison would.
- Integer width:
  - C `int` arithmetic is unbounded here, and overflow in the fixed-point helpers is not modelled.
  - The one wrap-around the program relies on, the unsigned series number, is modelled explicitly.
- Powell.BracketPass and PowellBracket: ImageRegistration/vtkPowellMinimizer.cxx ends inside the last branch of the bracketing loop (line 294), so the loop's end and the bracket written back are not visible.
  - The model gives the start and one pass.
  - After the default magnification the pass reports only the point it set.
- Powell.PowellBrent: the bracket is promised only for tol > 0 and a middle point inside the bracket. The point xmin is a ghost result.
- Simplex.Minimize: the source file ends at the call to amoeba (line 179). What minimize does afterwards is not part of this model.
- Simplex: after convergence the source swaps cost slot 1, not slot 0, with slot ilo, while it swaps vertex rows 0 and ilo. This is modelled as written. Afterwards y[1] is the cost of row 0, and the other swapped slots no longer pair costs with rows.
- Constants from headers that are not part of this model:
  - VTK_IMI_KERNEL_SIZE_MAX and VTK_LABEL_KERNEL_SIZE_MAX are taken as 32.
  - The morphological operations are taken as Dilate 0 and Erode 1.
  - The connectivity modes are numbered in enum order.
  - The VTK scalar type codes are 3, 4, 5, 6.
  - VTK_INTERPOLATE_FLOOR_TOL is taken as 2^-17.
  - DOUBLE_MAX is written out as the exact decimal integer 17976931348623157 * 10^292, which is 1.7976931348623157e308.
- LabelInterpolation.LabelInterpolator.InternalUpdate: the source compares the mode word and blurChange with the stored state and rebuilds the kernel lookup tables. The tables, their freeing in InternalDeepCopy, and the interpolation kernels are not part of this model.
- LabelInterpolation.ModeWord: the word is the value of its unsigned 32-bit pattern. The Z blur bit makes the C `int` negative, which is not modelled.
- LabelInterpolation.LabelInterpolator.ComputeSupportSize: the square root is a parameter. The call that only checks that matrix elements are integers (vtkInterpolationMath::Floor) has no effect and is left out.
- Morphological and label interpolation kernels: the inner loops, border modes (Wrap, Mirror, Clamp) and offset tables are not part of this model. Only the block widths, loop limits and distance table are modelled.
- Connectivity.ClampLowerScalar: modelled for integer scalar types only. The upper bound of the range (line 497 onwards) is not part of this model.
- XfmWriter: the stream output, the MINC and ITK text formats, the test for a .mat file name, and the fifth header word are not part of this model. vtkMatrix4x4::MultiplyPoint is modelled by RowTimesPoint.
- Register:
  - file and directory access, the image readers and writers, rendering and `exit(1)` are not part of this model;
  - the first line of a `.txt` file is a parameter.
- Register: the DICOM coordinate flip of the NIFTI matrix (Programs/register.cxx:656-666) is not modelled.
- Minimizer.FunctionMinimizer.EvaluateFunction: its body is in a file that is not part of this model; it is modelled from its uses, a call followed by a read of FunctionValue.
- Minimizer.FunctionMinimizer: the cost callback is a pure function of the parameters, and the observer's abort decision is a function of the evaluation number. The callback's side effects and threads are left out.
- AmoebaGrid: the grid minimisation itself, the stencil and the per-thread workers are not part of this model.

## Findings

| source | as written | input that shows it | evidently intended | confidence | as-written member | corrected member |
|---|---|---|---|---|---|---|
| ImageRegistration/vtkPowellMinimizer.cxx:93 | `p = (x - v)*q + (x - w)*r` | f(u) = u*u with x = 1, w = -2, v = 3: p = -84, q = 60, the step goes to 2.4 instead of the vertex 0 | `p = (x - v)*q - (x - w)*r` (Brent's parabolic step), which lands on the vertex of any parabola | not executed | Powell.ParabolaAsWrittenMissesVertex | Powell.ParabolaFitFindsVertex |
| ImageSegmentation/vtkImageConnectivityFilter.cxx:478 | `activeComponent > nComponents` | a one-component image with ActiveComponent 1 keeps component 1, which does not exist | `activeComponent >= nComponents` | not executed | Connectivity.ActiveComponentAsWrittenOutOfRange | Connectivity.ActiveComponent |
| Programs/register.cxx:644-645 | `static double nMatrix[16]` | reading a NIFTI file with QForm diag(2,2,2,1), then one with neither QForm nor SForm: the second gets the first's matrix | the identity for every file without QForm and SForm | not executed | Register.NiftiMatrixLeaksBetweenReads | Register.NiftiMatrix |

Brent's loop (`Powell.PowellBrent`) and the thresholding set-up (`Connectivity.ThresholdSetup`)
follow the code as written. The corrected members state the evidently intended behaviour
beside them.
