# Liquid-chromatography optimiser core, modelled in Dafny

This project models the computational core of a port of a legacy
liquid-chromatography method optimiser (HPLC retention modelling). The core is
made of three C# files:

- `src/MeasurementService.cs`, the retention and resolution engine. It covers:
  - column physics (mobile-phase volume, dead time, linear velocity);
  - the two-point linearisation fitter;
  - the axis-variable transforms;
  - the literal 1/2/3-variable log-retention polynomial;
  - the retention-factor, retention-time and peak-width table;
  - the critical-pair resolution score.
- `src/Utility.cs`, the numeric and string helpers:
  - range scaling and its inverse;
  - clamping, linear and bilinear interpolation;
  - the range check of `ValidateNumericInput`;
  - the variable-name classifier and its label table;
  - Gaussian peaks and their sum into a chromatogram;
  - a Lomuto quicksort that permutes an index array in lockstep with the values.
- `src/DataModel.cs`, the data objects:
  - the `Parameters` object, whose guarded setters keep an invariant;
  - the result holder and the container;
  - the `VariableType` codes and the experimental-data record.

Files of the model:

| file | module | contents |
|---|---|---|
| `numerics.dfy` | `Numerics` | the failure outcome, the abstract `Math` functions, double constants |
| `datamodel.dfy` | `Model` | `VariableType`, `ParameterValues`, the classes `Parameters`, `CalculationResults`, `DataModel`, `ExperimentalData` |
| `measurement.dfy` | `Measurement` | the engine: pure functions, the loops as methods, class `MeasurementService` |
| `utility.dfy` | `Utilities` | the helpers, the chromatogram loops and the in-place quicksort |

Conventions:

- **Doubles and integers.** Doubles are modelled as `real` and C# `int` as `int`. `Math.Abs(d) < double.Epsilon` is true exactly when `d` is 0, since `double.Epsilon` is the smallest positive double, so it is modelled as `d == 0`.
- **Library functions.** `Math.Sqrt`, `Math.Exp`, `Math.Log` and `Math.Pow` are fields of a `Maths` record passed as a parameter. `Maths.Valid()` holds the only facts assumed globally, each true of IEEE doubles:
  - `sqrt(x) >= 0` for `x >= 0`;
  - `exp(x) >= 0`;
  - `pow(10, e) >= 0`.

  A few lemmas take further facts about these functions as their own hypotheses:
  - `RetentionFactorSaturates` assumes `exp(log(1E32)) == 1E32`;
  - `GaussianApex` assumes `exp(0) == 1`;
  - `PhTransformsAgree` assumes a positive `10^-pH` and the exponent law `10^-pKa == 10^-pH * 10^(pH - pKa)`;
  - `ResolutionSign` (for its strict conclusion) and `ResolutionDependsOnOrder` assume `sqrt(N) > 0`.
- **Failures.** Every public engine method catches whatever is thrown and rethrows it as an `InvalidOperationException`; a rejected setter throws an `ArgumentException`. The engine methods report them as the single outcome `Failure` of `Result<T>`, or as `ok == false` when they return arrays through out-parameters. The `Parameters` setters return `ok == false` for a rejected value.
- **Division by zero.** A C# division by zero does not throw: it yields an infinity or a NaN. Where the code can divide by zero, the model has a precondition naming that divisor.
- **Classes and methods.** Code that updates objects or arrays in place is a Dafny `class` or a `method` over `array`s, with loop invariants. Switch expressions and arithmetic are functions.
- **Parameters.** `Parameters` keeps its fields as class fields. `Values()` takes a snapshot of them as the record `ParameterValues`, which the pure functions of the engine read.

Where the code behaves differently from the documented intent, the model follows the code:

- `TransformVariable` treats every code other than 1 and 2 as the identity, including codes with no `VariableType`. Nothing reports an error for an unknown code.
- Two equal calibration abscissae make the fitter divide by zero. There is no degenerate-fit error in the code.
- The resolution formula divides by `k1` and by `k1 + k2 + 2`. Nothing guards against either being zero.
- The resolution score is not invariant under permuting the factors when differences tie (`ResolutionDependsOnOrder`).
- The pH transform of the predictor is 1/(1 + 10^(pH - pKa)): the code raises 10 to `-pKa + value`. The documented intent is 1/(1 + 10^(pKa - pH)). The fitter's 10^-pH/(10^-pH + 10^-pKa) is the same fraction as the code's, so the two code paths agree with each other (`PhTransformsAgree`) but not with the documented formula.
- The three-variable polynomial ends in `B1*z + B1`, and `B2`/`B3` are never read. This literal expression is modelled, not a guessed correction.
- With the default column (25 x 0.46, flow 1.0) the mobile-phase volume and the dead time are about 2.770, and the linear velocity about 9.026 (`DefaultColumnExample`).

## Model

| member | source | states |
|---|---|---|
| Model.VariableType.Code | src/DataModel.cs:283-294 | every enumeration member has a code in 1..9 |
| Model.VariableTypeOf | src/DataModel.cs:283-294 | a member exists exactly for codes 1..9, and its code is the one asked for |
| Model.CodeRoundTrip | src/DataModel.cs:283-294 | looking up a member's code gives back that member (the codes are distinct) |
| Model.DefaultsSatisfyGuards | src/DataModel.cs:28-173 | the initial field values pass every setter guard, and every one of the fifteen per-component arrays holds as many entries as the initial number of components, 13 |
| Model.Parameters.constructor | src/DataModel.cs:28-36 | a new object holds the field initialisers and satisfies the invariant |
| Model.Parameters.SetColumnLength | src/DataModel.cs:39-48 | accepts exactly a positive value and then changes only the column length; a rejected value changes nothing; the invariant is kept |
| Model.Parameters.SetColumnDiameter | src/DataModel.cs:50-59 | accepts exactly a positive value, changes only that field, keeps the invariant |
| Model.Parameters.SetFlowRate | src/DataModel.cs:61-70 | accepts exactly a positive value, changes only that field, keeps the invariant |
| Model.Parameters.SetParticleDiameter | src/DataModel.cs:72-81 | accepts exactly a positive value, changes only that field, keeps the invariant |
| Model.Parameters.SetPlateNumber | src/DataModel.cs:83-92 | accepts exactly a positive value, changes only that field, keeps the invariant |
| Model.Parameters.SetFlowRateReference | src/DataModel.cs:94-103 | accepts exactly a positive value, changes only that field, keeps the invariant |
| Model.Parameters.SetDeadTimeExperimental | src/DataModel.cs:105-114 | accepts exactly a non-negative value (zero included, unlike the other guards), changes only that field |
| Model.Parameters.SetNumberOfVariables | src/DataModel.cs:117-126 | accepts exactly 1, 2 or 3, changes only that field |
| Model.Parameters.SetNumberOfComponents | src/DataModel.cs:128-137 | accepts exactly a positive count and changes only the count: no array is resized |
| Model.ComponentCountIsNotEnforced | src/DataModel.cs:128-173 | after an accepted count of 5 the object is valid while every coefficient, pKa and intensity array still holds 13 entries |
| Model.CalculationResults.constructor | src/DataModel.cs:190-272 | every scalar starts at 0 and each per-component array as 13 zeros |
| Model.DataModel.constructor | src/DataModel.cs:12-16 | fresh parameters holding the defaults, and fresh results |
| Model.ExperimentalData.constructor | src/DataModel.cs:304-307 | the retention-time array has componentCount zero entries |
| Measurement.Physics | src/MeasurementService.cs:20-37 | succeeds exactly when length, diameter and flow rate are positive; then volume, dead time and velocity are positive, deadTime*flowRate = volume and velocity*deadTime = length |
| Measurement.LinearVelocityIsFlowOverOpenSection | src/MeasurementService.cs:30-37 | the linear velocity equals flow / (pi*(d/2)^2*(2/3)), independent of the column length |
| Measurement.DefaultColumnExample | src/MeasurementService.cs:30-37 | the default column gives a volume and dead time of about 2.770 and a velocity of about 9.026 |
| Measurement.TemperatureTransform | src/MeasurementService.cs:131-132 | 1/(T + 273.15) is invertible (1/r - 273.15 = T) and positive above absolute zero |
| Measurement.TemperatureTransformInjective | src/MeasurementService.cs:64-67 | two temperatures have equal transforms exactly when they are equal |
| Measurement.PhTransform | src/MeasurementService.cs:133-134 | the pH fraction 1/(1 + 10^(pH - pKa)), with the exponent as the code writes it, lies in (0, 1] |
| Measurement.TransformVariable | src/MeasurementService.cs:127-138 | code 1 gives the temperature transform, code 2 the pH transform with pKa[0] (failing on an empty pKa array), any other code the value itself |
| Measurement.UnknownCodeIsIdentity | src/MeasurementService.cs:135-136 | a code that names no variable type leaves the value unchanged |
| Measurement.CalibrationPh | src/MeasurementService.cs:68-70 | the fitter's pH fraction 10^-pH/(10^-pH + 10^-pKa) lies in [0, 1] |
| Measurement.CalibrationTransform | src/MeasurementService.cs:62-76 | code 1 gives an invertible transform (1/r - 273.15 recovers the temperature), code 2 a fraction in [0, 1], any other code the range itself |
| Measurement.PhTransformsAgree | src/MeasurementService.cs:68-70 | the fitter's pH transform 10^-pH/(10^-pH + 10^-pKa) equals the predictor's 1/(1 + 10^(pH - pKa)) when pow obeys the exponent law, so the two code paths agree |
| Measurement.FitLine | src/MeasurementService.cs:79-80 | the fitted line passes through both calibration points |
| Measurement.FitLineUnique | src/MeasurementService.cs:79-80 | any line through both points is the fitted one |
| Measurement.TemperatureFitDefined | src/MeasurementService.cs:64-67 | two distinct calibration temperatures never make the fit divide by zero |
| Measurement.ComponentLine | src/MeasurementService.cs:79-80 | component i's fitted line passes through both of its calibration points in transformed coordinates |
| Measurement.Abscissae | src/MeasurementService.cs:62-76 | component i's two transformed abscissae: the temperature transforms for code 1, the per-component pH fractions for code 2, the raw ranges otherwise; they differ |
| Measurement.BilinearAtZero | src/MeasurementService.cs:149-152 | the two-variable polynomial at y = 0 is the one-variable line in AB1, B1 |
| Measurement.TrilinearAtZero | src/MeasurementService.cs:155-158 | the three-variable polynomial at z = 0 is a two-variable polynomial |
| Measurement.CalculateLogRetentionFactor | src/MeasurementService.cs:140-162 | fails exactly when a coefficient the configured polynomial reads is missing; evaluates the literal 1-, 2- or 3-variable polynomial (B1 in both the 2- and 3-variable cases), and 0 for any other number of variables |
| Measurement.B2AndB3AreNeverRead | src/MeasurementService.cs:146-160 | replacing the B2 and B3 arrays never changes a log-retention factor |
| Measurement.ThreeVariablesReduceToTwo | src/MeasurementService.cs:151-158 | at z = 0, with AAB, BAB, ABB equal to AA1, AB1, BA1, the 3-variable value is the 2-variable value |
| Measurement.ClampLogK | src/MeasurementService.cs:108-110 | logK is capped at log(1E32) and left alone below it |
| Measurement.RetentionFactorSaturates | src/MeasurementService.cs:108-112 | a logK above the cap gives a retention factor of exactly 1E32 when exp inverts log there |
| Measurement.RetentionTime | src/MeasurementService.cs:115 | t0*k + t0 = t0*(1 + k), and it is no earlier than t0 for non-negative t0 and k |
| Measurement.PeakWidth | src/MeasurementService.cs:118 | sqrt(2/N)*tR/2.5 is non-negative for positive N and non-negative tR |
| Measurement.TransformPoint | src/MeasurementService.cs:99-101 | the three axes transform successfully unless some axis is pH and the pKa array is empty |
| Measurement.Prediction | src/MeasurementService.cs:106-118 | the factor is exp of the capped logK, the time is t0*(1 + k); with t0 >= 0 and N > 0 the factor and width are non-negative and the time is at least t0 |
| Measurement.PredictionFromLogK | src/MeasurementService.cs:106-118 | from a computed logK, the prediction is exp(capped logK), t0*k + t0 and sqrt(2/N)*tR/2.5 |
| Measurement.DefaultRetentionTimesAreZero | src/MeasurementService.cs:115 | with the default dead time 0 every predicted retention time is 0 |
| Measurement.DefaultsPredictThirteenComponents | src/MeasurementService.cs:103-106 | the defaults predict 13 components, fail for 14, and the configured number of components plays no part |
| Measurement.CriticalPairUnique | src/MeasurementService.cs:169-184 | at most one pair is the critical pair (the first minimiser) |
| Measurement.CriticalPairIsClosest | src/MeasurementService.cs:172-183 | the critical pair's difference is the minimum of abs(k_i - k_j) over all pairs i < j |
| Measurement.CriticalPairExample | src/MeasurementService.cs:169-184 | for factors 1.0, 1.05, 2.0 the critical pair is (0, 1) |
| Measurement.SearchStep | src/MeasurementService.cs:174-183 | visiting a pair keeps the search invariant: a strictly smaller difference replaces the pair held, a tie keeps the earlier pair |
| Measurement.SearchNextRow | src/MeasurementService.cs:172-184 | finishing row i of the search is starting row i + 1 |
| Measurement.SearchComplete | src/MeasurementService.cs:169-184 | after the last row the pair held is the critical pair |
| Measurement.ScanRow | src/MeasurementService.cs:174-183 | the inner loop carries the search invariant from the start of row i to its end |
| Measurement.FindCriticalPair | src/MeasurementService.cs:169-184 | with two or more factors the nested loops leave the critical pair; with fewer the initial (0, 1) |
| Measurement.Resolution | src/MeasurementService.cs:187-200 | the score of a pair is 0 when its two factors are equal |
| Measurement.OrderPair | src/MeasurementService.cs:190-195 | after the swap k1 <= k2, and they are the min and max of the pair |
| Measurement.ResolutionClosedForm | src/MeasurementService.cs:197-200 | the formula equals 1.25*sqrt(N)*(k2 - k1)/(k1 + k2 + 2) |
| Measurement.ResolutionSign | src/MeasurementService.cs:197-200 | positive factors give a defined, non-negative score, 0 when the factors are equal and positive when they differ and sqrt(N) > 0 |
| Measurement.ResolutionDependsOnOrder | src/MeasurementService.cs:172-200 | [1, 2, 3] and [3, 2, 1] pick pairs with different scores: permuting the factors can change the result |
| Measurement.PredictComponent | src/MeasurementService.cs:106-118 | succeeds exactly when component i has its coefficients, and then returns its prediction |
| Measurement.PredictRetention | src/MeasurementService.cs:94-119 | succeeds exactly when the count is non-negative, the axes transform and every component has coefficients; then fresh arrays of componentCount entries hold each component's prediction |
| Measurement.MeasurementService.constructor | src/MeasurementService.cs:10-13 | the service holds the given data model |
| Measurement.MeasurementService.ComputeParameters | src/MeasurementService.cs:15-45 | fails exactly on a non-positive length, diameter or flow rate; otherwise a fresh result object holds the column physics |
| Measurement.FitComponents | src/MeasurementService.cs:52-81 | fails exactly when values2 (or, on a pH axis, pKa) is shorter than values1; otherwise fresh coefficient arrays of values1.Length entries hold each component's fitted line |
| Measurement.MeasurementService.ComputeLinearisation | src/MeasurementService.cs:47-87 | fails exactly when values2 (or, on a pH axis, pKa) is shorter than values1; otherwise both coefficient arrays have values1.Length entries and each line passes through both transformed points |
| Measurement.MeasurementService.ComputeRetentionFactors | src/MeasurementService.cs:89-125 | the contract of PredictRetention, over the current parameters |
| Measurement.MeasurementService.CalculateResolution | src/MeasurementService.cs:164-206 | fails exactly with fewer than two factors; otherwise returns the resolution of the critical pair |
| Utilities.ScaleValue | src/Utility.cs:18-32 | a degenerate domain gives rangeMin; otherwise the point divides the range in the same ratio as the value divides the domain |
| Utilities.InverseScaleValue | src/Utility.cs:43-57 | the same affine map with the canvas interval as domain |
| Utilities.ScaleEndpoints | src/Utility.cs:18-27 | domainMin maps to rangeMin and domainMax to rangeMax |
| Utilities.ScaleRoundTrip | src/Utility.cs:18-57 | inverse-scaling a scaled value gives it back when neither interval is degenerate |
| Utilities.ScaleMonotone | src/Utility.cs:18-27 | for increasing intervals, scaling preserves order |
| Utilities.Clamp | src/Utility.cs:66-71 | the result lies in [min, max] for min <= max; in-range values are returned unchanged; below min gives min, above max gives max |
| Utilities.ClampIdempotent | src/Utility.cs:66-71 | clamping twice equals clamping once |
| Utilities.ClampEmptyInterval | src/Utility.cs:66-71 | with min > max, values below min give min and all others max, and clamping is not idempotent |
| Utilities.Interpolate | src/Utility.cs:229-233 | factor <= 0 gives value1, factor >= 1 gives value2, and the result always lies between the two values |
| Utilities.InterpolateInside | src/Utility.cs:229-233 | inside [0, 1] the result is (1 - f)*value1 + f*value2 |
| Utilities.BilinearInterpolation | src/Utility.cs:249-269 | a cell flat in x or y gives value11; the result lies between the smallest and largest corner values |
| Utilities.BilinearCorners | src/Utility.cs:249-263 | a non-degenerate cell reproduces each corner value at its corner |
| Utilities.ValidateNumericInput | src/Utility.cs:286-292 | succeeds, with true, exactly for values inside [min, max] |
| Utilities.ValidIffClampFixes | src/Utility.cs:66-71 | a value passes validation exactly when clamping leaves it unchanged |
| Utilities.UpperChar | src/Utility.cs:305 | maps a-z to A-Z, leaves everything else, and never yields a lower-case ASCII letter |
| Utilities.ToUpper | src/Utility.cs:305 | upper-cases each character, keeping the length |
| Utilities.ToUpperIdempotent | src/Utility.cs:305 | upper-casing twice is upper-casing once |
| Utilities.ContainsIffOccurs | src/Utility.cs:307 | the recursive Contains holds exactly when the word occurs at some position |
| Utilities.GetVariableTypeCode | src/Utility.cs:300-335 | the code is in 0..9, 0 for the empty name, 1 for any name containing TEMP, and every non-zero code names a VariableType |
| Utilities.TypeCodeIgnoresCase | src/Utility.cs:305 | the code of a name equals the code of its upper-cased form |
| Utilities.TypeCodeSevenOnlyForTgs | src/Utility.cs:307-326 | code 7 is returned exactly for TGS: the TEMP-and-GRAD clause is unreachable |
| Utilities.TypeCodeExamples | src/Utility.cs:300-311 | "" gives 0, "t" gives 1, "pH" gives 2 |
| Utilities.TypeCodeAbbreviations | src/Utility.cs:313-332 | "tgrad" gives 3, "gs" gives 6, "%b" gives 9 |
| Utilities.GetVariableDisplayName | src/Utility.cs:342-357 | the label is "Unknown" exactly for codes that name no VariableType |
| Utilities.DisplayNamesDistinct | src/Utility.cs:344-354 | the nine labels are pairwise distinct |
| Utilities.GaussianSample | src/Utility.cs:85-92 | the Gaussian value is non-negative for a positive width and a non-negative intensity |
| Utilities.GaussianSymmetric | src/Utility.cs:91-92 | the peak is symmetric about its retention time |
| Utilities.GaussianApex | src/Utility.cs:86-92 | at the retention time the peak equals intensity/(sigma*sqrt(2*pi)) |
| Utilities.PeakProfile | src/Utility.cs:85-95 | one Gaussian sample per time point |
| Utilities.GenerateGaussianPeak | src/Utility.cs:81-101 | returns a fresh array that is the peak's profile over the time points |
| Utilities.ChromatogramIsPeakSum | src/Utility.cs:118-129 | each chromatogram point is the sum over all peaks of their value at that time |
| Utilities.ChromatogramNonNegative | src/Utility.cs:118-129 | peaks of positive width and non-negative intensity give a chromatogram that is never negative |
| Utilities.ChromatogramStep | src/Utility.cs:120-128 | one more peak adds its profile pointwise |
| Utilities.AddPeak | src/Utility.cs:125-128 | the accumulation loop adds the peak into the chromatogram pointwise |
| Utilities.GenerateChromatogram | src/Utility.cs:111-137 | fails exactly on mismatched peak-array lengths; otherwise a fresh array of timePoints.Length entries that is the sum of every peak's profile |
| Utilities.Swap | src/Utility.cs:193-205 | exchanges two cells and nothing else |
| Utilities.SwapInLockstep | src/Utility.cs:183-189 | swapping the same two cells of values and indices keeps them a joint permutation of the originals |
| Utilities.SwapBoth | src/Utility.cs:183-189 | the paired Swap calls exchange the two cells in both arrays and keep the joint permutation |
| Utilities.LockstepTransitive | src/Utility.cs:167-169 | a joint permutation of a joint permutation is one |
| Utilities.PartitionScan | src/Utility.cs:178-186 | the loop leaves every value no larger than the pivot before position i + 1 and every larger one after it, permuting values and indices together inside [low, high] |
| Utilities.Partition | src/Utility.cs:173-191 | returns p in [low, high]; the pivot ends at p with no larger value to its left and no smaller or equal value to its right; cells outside [low, high] are untouched; indices move with values |
| Utilities.LeftStaysBelowPivot | src/Utility.cs:167-168 | sorting the left part keeps it below the pivot |
| Utilities.SortedAfterBothHalves | src/Utility.cs:165-170 | sorting both sides of a partitioned segment sorts the segment |
| Utilities.QuickSortRecursive | src/Utility.cs:163-171 | [low, high] ends sorted, a joint permutation of values and indices that touches nothing outside it |
| Utilities.IdentityTracksOrigin | src/Utility.cs:148-155 | starting from the identity, each sorted value sits next to the position it came from |
| Utilities.QuickSort | src/Utility.cs:144-161 | the values end sorted and permuted; a given index array is permuted in lockstep, its tail is untouched, and starting from the identity values'[k] = values[indices'[k]] |

## Left out

- The real values of `Math.Sqrt`, `Math.Exp`, `Math.Log` and `Math.Pow` are left abstract. Results are stated in terms of them. `Maths.Valid()` holds the only facts assumed globally; the lemmas listed above under "Library functions" take their extra facts as hypotheses.
- Floating-point rounding, overflow to infinity and NaN are not modelled: doubles are reals. In particular, a retention factor of `exp(log(1E32))` is only 1E32 under the hypothesis of `RetentionFactorSaturates`.
- Several divisions that yield an infinity or a NaN in C# become preconditions:
  - Measurement.TemperatureTransform: a temperature of exactly -273.15. Through `TransformDefined` this also applies to Measurement.TransformVariable, Measurement.TransformPoint, Measurement.PredictRetention and Measurement.MeasurementService.ComputeRetentionFactors, and through `FitDefined` to Measurement.FitComponents;
  - Measurement.MeasurementService.ComputeLinearisation and Measurement.FitComponents: a fit with equal transformed abscissae (`FitDefined`), for every component whose values2 entry exists;
  - Measurement.PredictRetention and Measurement.MeasurementService.ComputeRetentionFactors: a plate number of 0;
  - Measurement.MeasurementService.CalculateResolution: a critical pair whose smaller factor, or whose k1 + k2 + 2, is 0 (`ResolutionDefined`);
  - Utilities.GaussianSample, Utilities.GenerateGaussianPeak and Utilities.GenerateChromatogram: a zero peak width, or sqrt(2*pi) computed as 0.
- Utilities.ValidateNumericInput: the NaN/infinity check and the messages naming the parameter are not modelled, because reals have neither NaN nor infinity.
- Utilities.ToUpper: the model assumes an invariant culture and maps only ASCII a-z to A-Z. The parameterless `ToUpper()` follows the current culture, also for ASCII letters: under a Turkish culture 'i' becomes 'İ', so "gradient time" gets code 0 instead of 3, and the same happens to IONIC and ISOCRATIC. Non-ASCII letters that upper-case to ASCII ones, such as 'ı' to 'I' and 'ſ' to 'S', are left unchanged by the model, so "ıonic" gets 0 in the model and 5 in the source.
- Utilities.GetVariableTypeCode: a null name (which gives 0) is not modelled, because Dafny strings are never null. The empty name is modelled.
- Null array arguments, which throw in C#, are not modelled: every array parameter is non-null. The one exception is the optional index array of `QuickSort`.
- Utilities.QuickSort: an index array shorter than the values is a precondition. With two or more values the source throws during the first partition: its final `Swap(indices, i + 1, high)` reads past the end of the index array, after some cells may already have been swapped. With a single value and an empty index array the source does nothing and does not throw; the model excludes that input too.
- Utilities.GenerateGaussianPeak: the source computes the variance and normalisation factor once before the loop. The model evaluates each sample through `GaussianSample`, which gives the same value.
- Some loops are methods of their own, and their callers are otherwise unchanged:
  - Utilities.GenerateChromatogram: the inner accumulation loop is the method `AddPeak`;
  - Measurement.FindCriticalPair: the inner loop is `ScanRow`;
  - Utilities.Partition: the loop is `PartitionScan`, and each pair of Swap calls is grouped in `SwapBoth`, which calls `Swap` on each array in turn;
  - Measurement.MeasurementService.ComputeLinearisation: the loop is the module-level `FitComponents`, given the current pKa array.
- Measurement.FitComponents: the check that values2 is long enough comes before the transform of the same component. The source transforms first, but a transform has no observable effect, so the outcome is the same.
- The `double[]` properties of `Parameters` are `seq<real>` fields. The arrays are therefore values: aliasing them, or a caller writing into an array it obtained from a getter, is not modelled. The engine itself only reads them.
- Model.Parameters setters require `Valid()`. In the source the backing fields are private and only the guarded setters write them, so the invariant always holds. In the model the fields are visible, so the setters require it.
- Model.ExperimentalData.constructor takes a `nat`: a negative count, which throws in C#, is not modelled.
- Measurement.MeasurementService.ComputeRetentionFactors reads the parameters as one snapshot (`Values()`). The source reads them field by field while nothing else runs, which gives the same values.
- `CalculateDistance` is not modelled. It is a square root of a sum of squares, with no logic beyond the abstract `sqrt`.
- Not modelled, because none of it is behaviour of the engine:
  - property-change notification (`INotifyPropertyChanged`, `OnPropertyChanged`);
  - the file-name and `ScreenOnZAxis` settings;
  - `src/GraphicsRenderer.cs` (drawing) and `src/MainWindow.xaml.cs` (UI glue).
- Exception types and messages are not distinguished. Every failure is the single `Failure` outcome.
