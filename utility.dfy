/**
 * The numeric and string helpers of the Utility class: range scaling and its
 * inverse, clamping, linear and bilinear interpolation, the range check of
 * ValidateNumericInput, the variable-name classifier and its label table, the
 * chromatogram accumulation loop, and the Lomuto quicksort that carries an
 * index array along with the values.
 *
 * Doubles are modelled as reals. A `Math.Abs(d) < double.Epsilon` test is
 * true exactly when d is 0 (double.Epsilon is the smallest positive double),
 * so it is modelled as `d == 0`.
 */
module Utilities {
  import opened Numerics
  import Model

  // ---------------------------------------------------------------------------
  // Scaling
  // ---------------------------------------------------------------------------

  /** Affine map of [domainMin, domainMax] onto [rangeMin, rangeMax]; a
      degenerate domain maps everything to rangeMin. */
  function ScaleValue(value: real, domainMin: real, domainMax: real, rangeMin: real, rangeMax: real): (r: real)
    ensures domainMax == domainMin ==> r == rangeMin
    ensures domainMax != domainMin ==>
      (r - rangeMin) * (domainMax - domainMin) == (value - domainMin) * (rangeMax - rangeMin)
  {
    if domainMax - domainMin == 0.0 then rangeMin
    else
      var ratio := (value - domainMin) / (domainMax - domainMin);
      assert ratio * (domainMax - domainMin) == value - domainMin;
      rangeMin + ratio * (rangeMax - rangeMin)
  }

  /** Canvas coordinates back to data coordinates: the same affine map read
      with the two intervals exchanged. */
  function InverseScaleValue(canvasValue: real, canvasMin: real, canvasMax: real, dataMin: real, dataMax: real): (r: real)
    ensures r == ScaleValue(canvasValue, canvasMin, canvasMax, dataMin, dataMax)
  {
    if canvasMax - canvasMin == 0.0 then dataMin
    else
      var ratio := (canvasValue - canvasMin) / (canvasMax - canvasMin);
      dataMin + ratio * (dataMax - dataMin)
  }

  /** The domain's end points land on the range's end points. */
  lemma ScaleEndpoints(domainMin: real, domainMax: real, rangeMin: real, rangeMax: real)
    requires domainMin != domainMax
    ensures ScaleValue(domainMin, domainMin, domainMax, rangeMin, rangeMax) == rangeMin
    ensures ScaleValue(domainMax, domainMin, domainMax, rangeMin, rangeMax) == rangeMax
  {
    assert (domainMax - domainMin) / (domainMax - domainMin) == 1.0;
  }

  /** Scaling to canvas coordinates and back gives the original value when
      neither interval is degenerate. */
  lemma ScaleRoundTrip(value: real, domainMin: real, domainMax: real, rangeMin: real, rangeMax: real)
    requires domainMin != domainMax && rangeMin != rangeMax
    ensures InverseScaleValue(ScaleValue(value, domainMin, domainMax, rangeMin, rangeMax),
                              rangeMin, rangeMax, domainMin, domainMax) == value
  {
    var d := domainMax - domainMin;
    var e := rangeMax - rangeMin;
    var s := ScaleValue(value, domainMin, domainMax, rangeMin, rangeMax);
    var back := InverseScaleValue(s, rangeMin, rangeMax, domainMin, domainMax);
    assert (s - rangeMin) * d == (value - domainMin) * e;
    assert (back - domainMin) * e == (s - rangeMin) * d;
    assert (back - domainMin - (value - domainMin)) * e == 0.0;
  }

  /** With both intervals increasing, scaling preserves order. */
  lemma ScaleMonotone(v1: real, v2: real, domainMin: real, domainMax: real, rangeMin: real, rangeMax: real)
    requires domainMin < domainMax && rangeMin <= rangeMax
    requires v1 <= v2
    ensures ScaleValue(v1, domainMin, domainMax, rangeMin, rangeMax) <= ScaleValue(v2, domainMin, domainMax, rangeMin, rangeMax)
  {
    var d := domainMax - domainMin;
    var e := rangeMax - rangeMin;
    var s1 := ScaleValue(v1, domainMin, domainMax, rangeMin, rangeMax);
    var s2 := ScaleValue(v2, domainMin, domainMax, rangeMin, rangeMax);
    assert (s2 - s1) * d == (v2 - v1) * e;
    ProductNonNegative(v2 - v1, e);
    if s2 < s1 {
      ProductPositive(s1 - s2, d);
    }
  }

  lemma ProductNonNegative(x: real, y: real)
    requires x >= 0.0 && y >= 0.0
    ensures x * y >= 0.0
  {
  }

  lemma ZeroProduct(x: real, y: real)
    requires x * y == 0.0
    ensures x == 0.0 || y == 0.0
  {
  }

  /** The product p = x*y of two non-zero factors is non-zero. */
  lemma ProductNonZero(x: real, y: real, p: real)
    requires x != 0.0 && y != 0.0 && p == x * y
    ensures p != 0.0
  {
    if p == 0.0 {
      ZeroProduct(x, y);
    }
  }

  // ---------------------------------------------------------------------------
  // Clamping and interpolation
  // ---------------------------------------------------------------------------

  /** Below min gives min, otherwise above max gives max, otherwise the value. */
  function Clamp(value: real, min: real, max: real): (r: real)
    ensures min <= max ==> min <= r <= max
    ensures min <= value <= max ==> r == value
    ensures value < min ==> r == min
    ensures min <= value && max < value ==> r == max
  {
    if value < min then min
    else if value > max then max
    else value
  }

  /** Clamping twice is clamping once, for a non-empty interval. */
  lemma ClampIdempotent(value: real, min: real, max: real)
    requires min <= max
    ensures Clamp(Clamp(value, min, max), min, max) == Clamp(value, min, max)
  {
  }

  /** With min > max the test against min wins: values below min give min,
      all others give max, and clamping is no longer idempotent. */
  lemma ClampEmptyInterval(value: real, min: real, max: real)
    requires max < min
    ensures Clamp(value, min, max) == if value < min then min else max
    ensures Clamp(Clamp(min - 1.0, min, max), min, max) == max
  {
  }

  /** value1 + f*(value2 - value1) with f the factor clamped into [0, 1]. */
  function Interpolate(value1: real, value2: real, factor: real): (r: real)
    ensures factor <= 0.0 ==> r == value1
    ensures factor >= 1.0 ==> r == value2
    ensures Min(value1, value2) <= r <= Max(value1, value2)
  {
    var f := Clamp(factor, 0.0, 1.0);
    InterpolationBetween(value1, value2, f);
    value1 + f * (value2 - value1)
  }

  lemma InterpolationBetween(value1: real, value2: real, f: real)
    requires 0.0 <= f <= 1.0
    ensures Min(value1, value2) <= value1 + f * (value2 - value1) <= Max(value1, value2)
  {
    if value1 <= value2 {
      ProductNonNegative(f, value2 - value1);
      ProductNonNegative(1.0 - f, value2 - value1);
    } else {
      ProductNonNegative(f, value1 - value2);
      ProductNonNegative(1.0 - f, value1 - value2);
    }
  }

  /** Inside [0, 1] the factor is used as given: the result divides the
      segment in the ratio f : 1 - f. */
  lemma InterpolateInside(value1: real, value2: real, factor: real)
    requires 0.0 <= factor <= 1.0
    ensures Interpolate(value1, value2, factor) == (1.0 - factor) * value1 + factor * value2
  {
  }

  function Min4(a: real, b: real, c: real, d: real): real
  {
    Min(Min(a, b), Min(c, d))
  }

  function Max4(a: real, b: real, c: real, d: real): real
  {
    Max(Max(a, b), Max(c, d))
  }

  /** Two interpolations along x, then one along y. A cell that is flat in x
      or in y gives value11. */
  function BilinearInterpolation(x: real, y: real, x1: real, y1: real, x2: real, y2: real,
                                 value11: real, value12: real, value21: real, value22: real): (r: real)
    ensures x2 - x1 == 0.0 || y2 - y1 == 0.0 ==> r == value11
    ensures Min4(value11, value12, value21, value22) <= r <= Max4(value11, value12, value21, value22)
  {
    if x2 - x1 == 0.0 || y2 - y1 == 0.0 then value11
    else
      var fx := (x - x1) / (x2 - x1);
      var fy := (y - y1) / (y2 - y1);
      var interpolatedValue1 := Interpolate(value11, value21, fx);
      var interpolatedValue2 := Interpolate(value12, value22, fx);
      Interpolate(interpolatedValue1, interpolatedValue2, fy)
  }

  /** A non-degenerate cell reproduces each corner value at its corner. */
  lemma BilinearCorners(x1: real, y1: real, x2: real, y2: real,
                        value11: real, value12: real, value21: real, value22: real)
    requires x1 != x2 && y1 != y2
    ensures BilinearInterpolation(x1, y1, x1, y1, x2, y2, value11, value12, value21, value22) == value11
    ensures BilinearInterpolation(x2, y1, x1, y1, x2, y2, value11, value12, value21, value22) == value21
    ensures BilinearInterpolation(x1, y2, x1, y1, x2, y2, value11, value12, value21, value22) == value12
    ensures BilinearInterpolation(x2, y2, x1, y1, x2, y2, value11, value12, value21, value22) == value22
  {
    assert (x2 - x1) / (x2 - x1) == 1.0;
    assert (y2 - y1) / (y2 - y1) == 1.0;
  }

  // ---------------------------------------------------------------------------
  // Input validation
  // ---------------------------------------------------------------------------

  /** The range part of ValidateNumericInput: true inside [min, max], an
      out-of-range error otherwise. */
  function ValidateNumericInput(value: real, min: real, max: real): (r: Result<bool>)
    ensures r.Success? <==> min <= value <= max
    ensures r.Success? ==> r.value
  {
    if value < min || value > max then Failure else Success(true)
  }

  /** A value passes validation exactly when clamping leaves it unchanged,
      for every interval (an empty one rejects and moves every value). */
  lemma ValidIffClampFixes(value: real, min: real, max: real)
    ensures ValidateNumericInput(value, min, max).Success? <==> Clamp(value, min, max) == value
  {
    if max < min {
      assert Clamp(value, min, max) != value;
    }
  }

  // ---------------------------------------------------------------------------
  // Variable names
  // ---------------------------------------------------------------------------

  /** Upper-casing of one character; only the ASCII letters are mapped. */
  function UpperChar(c: char): (u: char)
    ensures 'a' <= c <= 'z' ==> u as int == c as int - 32
    ensures !('a' <= c <= 'z') ==> u == c
    ensures !('a' <= u <= 'z')
  {
    if 'a' <= c <= 'z' then (c as int - 32) as char else c
  }

  function ToUpper(s: string): (u: string)
    ensures |u| == |s|
    ensures forall k :: 0 <= k < |s| ==> u[k] == UpperChar(s[k])
  {
    if |s| == 0 then [] else [UpperChar(s[0])] + ToUpper(s[1..])
  }

  /** Upper-casing an upper-cased name changes nothing. */
  lemma ToUpperIdempotent(s: string)
    ensures ToUpper(ToUpper(s)) == ToUpper(s)
  {
    var u := ToUpper(s);
    assert forall k :: 0 <= k < |u| ==> UpperChar(u[k]) == u[k];
  }

  /** t occurs in s, tested at the front and then in the rest. */
  predicate Contains(s: string, t: string)
    decreases |s|
  {
    if |t| > |s| then false
    else s[..|t|] == t || Contains(s[1..], t)
  }

  /** t occurs in s starting at position i. */
  predicate OccursAt(s: string, t: string, i: int)
  {
    0 <= i && i + |t| <= |s| && s[i..i + |t|] == t
  }

  /** Contains agrees with occurrence at some position. */
  lemma {:induction false} ContainsIffOccurs(s: string, t: string)
    ensures Contains(s, t) <==> exists i :: OccursAt(s, t, i)
    decreases |s|
  {
    if |t| <= |s| {
      if s[..|t|] == t {
        assert OccursAt(s, t, 0);
      } else {
        if |s| > 0 {
          ContainsIffOccurs(s[1..], t);
        }
        if Contains(s, t) {
          var i :| OccursAt(s[1..], t, i);
          assert s[i + 1..i + 1 + |t|] == s[1..][i..i + |t|];
          assert OccursAt(s, t, i + 1);
        }
        if exists i :: OccursAt(s, t, i) {
          var i :| OccursAt(s, t, i);
          assert i != 0;
          assert s[1..][i - 1..i - 1 + |t|] == s[i..i + |t|];
          assert OccursAt(s[1..], t, i - 1);
        }
      }
    }
  }

  /** A word with a letter the name lacks does not occur in the name. */
  lemma {:induction false} MissingLetterNotContained(s: string, t: string, k: int)
    requires 0 <= k < |t| && t[k] !in s
    ensures !Contains(s, t)
    decreases |s|
  {
    if |t| <= |s| {
      assert s[..|t|][k] == s[k];
      if |s| > 0 {
        MissingLetterNotContained(s[1..], t, k);
      }
    }
  }

  /** GetVariableTypeCode: the first matching test wins. Conjunctions bind
      tighter than disjunctions, as in the C# expressions. */
  function GetVariableTypeCode(variableName: string): (r: int)
    ensures 0 <= r <= 9
    ensures |variableName| == 0 ==> r == 0
    ensures Contains(ToUpper(variableName), "TEMP") ==> r == 1
    ensures 1 <= r ==> Model.VariableTypeOf(r).Success?
  {
    if |variableName| == 0 then 0
    else
      var upperName := ToUpper(variableName);
      if Contains(upperName, "TEMP") || upperName == "T" then 1
      else if upperName == "PH" then 2
      else if (Contains(upperName, "GRADIENT") && Contains(upperName, "TIME")) || upperName == "TGRAD" then 3
      else if (Contains(upperName, "FLOW") && Contains(upperName, "RATE")) || upperName == "FRATE" then 4
      else if Contains(upperName, "IONIC") || Contains(upperName, "BUFFER") then 5
      else if (Contains(upperName, "GRADIENT") && Contains(upperName, "SLOPE")) || upperName == "GS" then 6
      else if upperName == "TGS" || (Contains(upperName, "TEMP") && Contains(upperName, "GRAD")) then 7
      else if Contains(upperName, "FLOW") && Contains(upperName, "GRAD") then 8
      else if upperName == "%B" || Contains(upperName, "ISOCRATIC") then 9
      else 0
  }

  /** The classifier ignores letter case. */
  lemma TypeCodeIgnoresCase(variableName: string)
    ensures GetVariableTypeCode(ToUpper(variableName)) == GetVariableTypeCode(variableName)
  {
    ToUpperIdempotent(variableName);
  }

  /** A name containing TEMP is already taken by code 1, so the TEMP-and-GRAD
      alternative of code 7 never fires: code 7 comes from "TGS" alone. */
  lemma TypeCodeSevenOnlyForTgs(variableName: string)
    ensures GetVariableTypeCode(variableName) == 7 <==> ToUpper(variableName) == "TGS"
  {
    var u := ToUpper(variableName);
    if u == "TGS" {
      assert !Contains(u, "TEMP") && !Contains(u, "GRADIENT") && !Contains(u, "FLOW");
      assert !Contains(u, "IONIC") && !Contains(u, "BUFFER");
    }
  }

  /** Exact names of codes 1 and 2, in any letter case. */
  lemma TypeCodeExamples()
    ensures GetVariableTypeCode("") == 0
    ensures GetVariableTypeCode("t") == 1
    ensures GetVariableTypeCode("pH") == 2
  {
    assert ToUpper("t") == "T";
    assert ToUpper("pH") == "PH";
    assert !Contains("PH", "TEMP");
  }

  /** The short names of codes 3, 6 and 9 pass every earlier test. */
  lemma TypeCodeAbbreviations()
    ensures GetVariableTypeCode("tgrad") == 3
    ensures GetVariableTypeCode("gs") == 6
    ensures GetVariableTypeCode("%b") == 9
  {
    GradientTimeAbbreviation();
    ShortAbbreviations();
  }

  lemma GradientTimeAbbreviation()
    ensures GetVariableTypeCode("tgrad") == 3
  {
    assert ToUpper("tgrad") == "TGRAD";
    MissingLetterNotContained("TGRAD", "TEMP", 1);
  }

  lemma ShortAbbreviations()
    ensures GetVariableTypeCode("gs") == 6
    ensures GetVariableTypeCode("%b") == 9
  {
    assert ToUpper("gs") == "GS";
    assert ToUpper("%b") == "%B";
  }

  /** Axis label of each code; any other code is "Unknown". */
  function GetVariableDisplayName(variableType: int): (r: string)
    ensures r == "Unknown" <==> Model.VariableTypeOf(variableType).Failure?
  {
    match variableType
    case 1 => "T(°C)"
    case 2 => "pH"
    case 3 => "tG(min)"
    case 4 => "f-rate(ml/min)"
    case 5 => "ionic strength"
    case 6 => "Gs(1/min)"
    case 7 => "TgS(°C/min)"
    case 8 => "f-rate-Gs(ml/min²)"
    case 9 => "%B"
    case _ => "Unknown"
  }

  /** The nine labels are pairwise distinct, so a label identifies its code. */
  lemma DisplayNamesDistinct(a: int, b: int)
    requires 1 <= a <= 9 && 1 <= b <= 9 && a != b
    ensures GetVariableDisplayName(a) != GetVariableDisplayName(b)
  {
  }

  // ---------------------------------------------------------------------------
  // Chromatogram
  // ---------------------------------------------------------------------------

  /** GenerateGaussianPeak divides by peakWidth * sqrt(2*pi) and by twice the
      variance: both are non-zero exactly when this holds. */
  predicate GaussianDefined(m: Maths, peakWidth: real)
  {
    peakWidth != 0.0 && m.sqrt(2.0 * Pi) != 0.0
  }

  /** The Gaussian of GenerateGaussianPeak at time t:
      intensity / (sigma*sqrt(2*pi)) * exp(-(t - tR)^2 / (2*sigma^2)).
      It is never negative for a positive width and a non-negative intensity. */
  function GaussianSample(m: Maths, t: real, retentionTime: real, peakWidth: real, intensity: real): (r: real)
    requires GaussianDefined(m, peakWidth)
    ensures m.Valid() && peakWidth > 0.0 && intensity >= 0.0 ==> r >= 0.0
  {
    var variance := peakWidth * peakWidth;
    var root := m.sqrt(2.0 * Pi);
    ProductNonZero(peakWidth, peakWidth, variance);
    ProductNonZero(peakWidth, root, peakWidth * root);
    var normalizationFactor := intensity / (peakWidth * root);
    var timeDiff := t - retentionTime;
    var e := m.exp(-(timeDiff * timeDiff) / (2.0 * variance));
    assert m.Valid() && peakWidth > 0.0 && intensity >= 0.0 ==> normalizationFactor * e >= 0.0 by {
      if m.Valid() && peakWidth > 0.0 && intensity >= 0.0 {
        assert root > 0.0;
        ProductPositive(peakWidth, root);
        ProductNonNegative(normalizationFactor, e);
      }
    }
    normalizationFactor * e
  }

  /** The peak is symmetric about its retention time. */
  lemma GaussianSymmetric(m: Maths, d: real, retentionTime: real, peakWidth: real, intensity: real)
    requires GaussianDefined(m, peakWidth)
    ensures GaussianSample(m, retentionTime + d, retentionTime, peakWidth, intensity)
         == GaussianSample(m, retentionTime - d, retentionTime, peakWidth, intensity)
  {
    assert (retentionTime + d - retentionTime) * (retentionTime + d - retentionTime)
        == (retentionTime - d - retentionTime) * (retentionTime - d - retentionTime);
  }

  /** At the retention time the peak reaches its height
      intensity / (sigma*sqrt(2*pi)), given exp(0) = 1. */
  lemma GaussianApex(m: Maths, retentionTime: real, peakWidth: real, intensity: real)
    requires GaussianDefined(m, peakWidth)
    requires m.exp(0.0) == 1.0
    ensures GaussianSample(m, retentionTime, retentionTime, peakWidth, intensity)
         == intensity / (peakWidth * m.sqrt(2.0 * Pi))
  {
    ProductNonZero(peakWidth, peakWidth, peakWidth * peakWidth);
    assert -((retentionTime - retentionTime) * (retentionTime - retentionTime)) / (2.0 * (peakWidth * peakWidth)) == 0.0;
  }

  /** Every width of the first n peaks can be divided by. */
  predicate PeaksDefined(m: Maths, peakWidths: seq<real>, n: nat)
    requires n <= |peakWidths|
  {
    forall k :: 0 <= k < n ==> GaussianDefined(m, peakWidths[k])
  }

  /** GenerateGaussianPeak's output: the peak sampled at every time point. */
  function PeakProfile(m: Maths, timePoints: seq<real>, retentionTime: real, peakWidth: real, intensity: real): (r: seq<real>)
    requires GaussianDefined(m, peakWidth)
    ensures |r| == |timePoints|
    ensures forall i :: 0 <= i < |r| ==> r[i] == GaussianSample(m, timePoints[i], retentionTime, peakWidth, intensity)
  {
    seq(|timePoints|, i requires 0 <= i < |timePoints| => GaussianSample(m, timePoints[i], retentionTime, peakWidth, intensity))
  }

  /** Pointwise sum of two equally long sequences. */
  function AddPointwise(s: seq<real>, t: seq<real>): (r: seq<real>)
    requires |s| == |t|
    ensures |r| == |s| && forall i :: 0 <= i < |r| ==> r[i] == s[i] + t[i]
  {
    seq(|s|, i requires 0 <= i < |s| => s[i] + t[i])
  }

  /** The chromatogram of the first n peaks, accumulated peak by peak. */
  function Chromatogram(m: Maths, timePoints: seq<real>, retentionTimes: seq<real>,
                        peakWidths: seq<real>, intensities: seq<real>, n: nat): (r: seq<real>)
    requires n <= |retentionTimes| && n <= |peakWidths| && n <= |intensities|
    requires PeaksDefined(m, peakWidths, n)
    ensures |r| == |timePoints|
  {
    if n == 0 then seq(|timePoints|, _ => 0.0)
    else AddPointwise(Chromatogram(m, timePoints, retentionTimes, peakWidths, intensities, n - 1),
                      PeakProfile(m, timePoints, retentionTimes[n - 1], peakWidths[n - 1], intensities[n - 1]))
  }

  /** Sum over the first n peaks of their value at time t. */
  function PeakSum(m: Maths, t: real, retentionTimes: seq<real>, peakWidths: seq<real>,
                   intensities: seq<real>, n: nat): real
    requires n <= |retentionTimes| && n <= |peakWidths| && n <= |intensities|
    requires PeaksDefined(m, peakWidths, n)
  {
    if n == 0 then 0.0
    else PeakSum(m, t, retentionTimes, peakWidths, intensities, n - 1)
         + GaussianSample(m, t, retentionTimes[n - 1], peakWidths[n - 1], intensities[n - 1])
  }

  /** Each chromatogram point is the sum of every peak's value at that time. */
  lemma {:induction false} ChromatogramIsPeakSum(m: Maths, timePoints: seq<real>, retentionTimes: seq<real>,
                                                 peakWidths: seq<real>, intensities: seq<real>, n: nat)
    requires n <= |retentionTimes| && n <= |peakWidths| && n <= |intensities|
    requires PeaksDefined(m, peakWidths, n)
    ensures forall i :: 0 <= i < |timePoints| ==>
      Chromatogram(m, timePoints, retentionTimes, peakWidths, intensities, n)[i]
      == PeakSum(m, timePoints[i], retentionTimes, peakWidths, intensities, n)
  {
    if n > 0 {
      ChromatogramIsPeakSum(m, timePoints, retentionTimes, peakWidths, intensities, n - 1);
      var previous := Chromatogram(m, timePoints, retentionTimes, peakWidths, intensities, n - 1);
      var profile := PeakProfile(m, timePoints, retentionTimes[n - 1], peakWidths[n - 1], intensities[n - 1]);
      forall i | 0 <= i < |timePoints|
        ensures Chromatogram(m, timePoints, retentionTimes, peakWidths, intensities, n)[i]
             == PeakSum(m, timePoints[i], retentionTimes, peakWidths, intensities, n)
      {
        assert Chromatogram(m, timePoints, retentionTimes, peakWidths, intensities, n)[i] == previous[i] + profile[i];
        assert previous[i] == PeakSum(m, timePoints[i], retentionTimes, peakWidths, intensities, n - 1);
        assert profile[i] == GaussianSample(m, timePoints[i], retentionTimes[n - 1], peakWidths[n - 1], intensities[n - 1]);
      }
    }
  }

  /** Peaks of positive width and non-negative intensity give a chromatogram
      that is never negative. */
  lemma {:induction false} ChromatogramNonNegative(m: Maths, timePoints: seq<real>, retentionTimes: seq<real>,
                                                   peakWidths: seq<real>, intensities: seq<real>, n: nat)
    requires m.Valid()
    requires n <= |retentionTimes| && n <= |peakWidths| && n <= |intensities|
    requires PeaksDefined(m, peakWidths, n)
    requires forall k :: 0 <= k < n ==> peakWidths[k] > 0.0 && intensities[k] >= 0.0
    ensures forall i :: 0 <= i < |timePoints| ==>
      Chromatogram(m, timePoints, retentionTimes, peakWidths, intensities, n)[i] >= 0.0
  {
    if n > 0 {
      ChromatogramNonNegative(m, timePoints, retentionTimes, peakWidths, intensities, n - 1);
      ChromatogramIsPeakSum(m, timePoints, retentionTimes, peakWidths, intensities, n);
      ChromatogramIsPeakSum(m, timePoints, retentionTimes, peakWidths, intensities, n - 1);
    }
  }

  /** GenerateGaussianPeak: one sample of the peak per time point. */
  method GenerateGaussianPeak(m: Maths, timePoints: array<real>, retentionTime: real,
                              peakWidth: real, intensity: real) returns (peakValues: array<real>)
    requires GaussianDefined(m, peakWidth)
    ensures fresh(peakValues)
    ensures peakValues[..] == PeakProfile(m, timePoints[..], retentionTime, peakWidth, intensity)
  {
    peakValues := new real[timePoints.Length];
    for i := 0 to timePoints.Length
      invariant forall k :: 0 <= k < i ==>
        peakValues[k] == GaussianSample(m, timePoints[k], retentionTime, peakWidth, intensity)
    {
      peakValues[i] := GaussianSample(m, timePoints[i], retentionTime, peakWidth, intensity);
    }
  }

  /** GenerateChromatogram: fails when the three peak arrays differ in
      length, otherwise adds every peak into a zeroed array. */
  method GenerateChromatogram(m: Maths, timePoints: array<real>, retentionTimes: array<real>,
                              peakWidths: array<real>, intensities: array<real>) returns (r: Result<array<real>>)
    requires retentionTimes.Length == peakWidths.Length == intensities.Length ==>
      PeaksDefined(m, peakWidths[..], peakWidths.Length)
    ensures r.Success? <==> retentionTimes.Length == peakWidths.Length == intensities.Length
    ensures r.Success? ==> fresh(r.value)
    ensures r.Success? ==>
      r.value[..] == Chromatogram(m, timePoints[..], retentionTimes[..], peakWidths[..], intensities[..],
                                  retentionTimes.Length)
  {
    if retentionTimes.Length != peakWidths.Length || retentionTimes.Length != intensities.Length {
      return Failure;
    }
    ghost var times, centres, widths, heights := timePoints[..], retentionTimes[..], peakWidths[..], intensities[..];
    var chromatogram := new real[timePoints.Length](_ => 0.0);
    for peakIndex := 0 to retentionTimes.Length
      invariant chromatogram[..] == Chromatogram(m, times, centres, widths, heights, peakIndex)
    {
      var peak := GenerateGaussianPeak(m, timePoints, retentionTimes[peakIndex],
                                       peakWidths[peakIndex], intensities[peakIndex]);
      ChromatogramStep(m, times, centres, widths, heights, peakIndex);
      AddPeak(chromatogram, peak);
    }
    r := Success(chromatogram);
  }

  /** The inner loop of GenerateChromatogram: adds a peak into the
      chromatogram, point by point. */
  method AddPeak(chromatogram: array<real>, peak: array<real>)
    requires peak != chromatogram && peak.Length == chromatogram.Length
    modifies chromatogram
    ensures chromatogram[..] == AddPointwise(old(chromatogram[..]), peak[..])
  {
    ghost var before := chromatogram[..];
    for i := 0 to chromatogram.Length
      invariant forall k :: 0 <= k < i ==> chromatogram[k] == before[k] + peak[k]
      invariant forall k :: i <= k < chromatogram.Length ==> chromatogram[k] == before[k]
    {
      chromatogram[i] := chromatogram[i] + peak[i];
    }
  }

  /** One more peak adds its profile to the chromatogram so far. */
  lemma ChromatogramStep(m: Maths, timePoints: seq<real>, retentionTimes: seq<real>,
                         peakWidths: seq<real>, intensities: seq<real>, n: nat)
    requires n < |retentionTimes| && n < |peakWidths| && n < |intensities|
    requires PeaksDefined(m, peakWidths, n + 1)
    ensures Chromatogram(m, timePoints, retentionTimes, peakWidths, intensities, n + 1)
         == AddPointwise(Chromatogram(m, timePoints, retentionTimes, peakWidths, intensities, n),
                         PeakProfile(m, timePoints, retentionTimes[n], peakWidths[n], intensities[n]))
  {
  }

  // ---------------------------------------------------------------------------
  // Quicksort carrying an index array
  // ---------------------------------------------------------------------------

  predicate Sorted(s: seq<real>)
  {
    forall i, j :: 0 <= i < j < |s| ==> s[i] <= s[j]
  }

  /** s[lo..hi) is in ascending order. */
  predicate SortedRange(s: seq<real>, lo: int, hi: int)
    requires 0 <= lo <= hi <= |s|
  {
    forall i, j :: lo <= i < j < hi ==> s[i] <= s[j]
  }

  /** s and t agree everywhere outside [lo, hi). */
  predicate SameOutside<T(==)>(s: seq<T>, t: seq<T>, lo: int, hi: int)
  {
    |s| == |t| && forall k :: 0 <= k < |s| && !(lo <= k < hi) ==> s[k] == t[k]
  }

  /** Each value paired with the index entry at the same position. */
  function Pairs(values: seq<real>, indices: seq<int>): (r: seq<(real, int)>)
    requires |values| <= |indices|
    ensures |r| == |values|
    ensures forall k :: 0 <= k < |r| ==> r[k] == (values[k], indices[k])
  {
    seq(|values|, k requires 0 <= k < |values| => (values[k], indices[k]))
  }

  function Identity(n: nat): (r: seq<int>)
    ensures |r| == n && forall k :: 0 <= k < n ==> r[k] == k
  {
    seq(n, k => k)
  }

  /** Exchanges two cells; the same code serves the value and the index arrays. */
  method Swap<T>(a: array<T>, i: int, j: int)
    requires 0 <= i < a.Length && 0 <= j < a.Length
    modifies a
    ensures a[..] == old(a[..])[i := old(a[j])][j := old(a[i])]
  {
    var temp := a[i];
    a[i] := a[j];
    a[j] := temp;
  }

  /** values and indices are a joint permutation of values0 and indices0 that
      moves nothing outside [lo, hi): the values are permuted, and each value
      still sits next to the index entry it started beside. */
  ghost predicate Lockstep(values: seq<real>, indices: seq<int>, values0: seq<real>, indices0: seq<int>, lo: int, hi: int)
  {
    && |values| <= |indices|
    && |values0| <= |indices0|
    && SameOutside(values, values0, lo, hi)
    && SameOutside(indices, indices0, lo, hi)
    && multiset(values) == multiset(values0)
    && multiset(Pairs(values, indices)) == multiset(Pairs(values0, indices0))
  }

  /** Swapping the same two cells of the values and of the indices inside
      [lo, hi) keeps the joint permutation. */
  lemma SwapInLockstep(values: seq<real>, indices: seq<int>, values0: seq<real>, indices0: seq<int>,
                       lo: int, hi: int, i: int, j: int)
    requires Lockstep(values, indices, values0, indices0, lo, hi)
    requires lo <= i < hi && lo <= j < hi && 0 <= i < |values| && 0 <= j < |values|
    ensures Lockstep(values[i := values[j]][j := values[i]], indices[i := indices[j]][j := indices[i]],
                     values0, indices0, lo, hi)
  {
    var p := Pairs(values, indices);
    assert Pairs(values[i := values[j]][j := values[i]], indices[i := indices[j]][j := indices[i]])
        == p[i := p[j]][j := p[i]];
  }

  /** Lockstep composes: a joint permutation of a joint permutation. */
  lemma LockstepTransitive(v1: seq<real>, x1: seq<int>, v2: seq<real>, x2: seq<int>, v3: seq<real>, x3: seq<int>,
                           lo: int, hi: int, lo': int, hi': int)
    requires Lockstep(v3, x3, v2, x2, lo', hi') && Lockstep(v2, x2, v1, x1, lo, hi)
    requires lo <= lo' && hi' <= hi
    ensures Lockstep(v3, x3, v1, x1, lo, hi)
  {
  }

  /** Swaps the same two cells of the values and of the indices, with the
      source's Swap applied to each array in turn; for [lo, hi) holding both
      cells, a joint permutation of values0 and indices0 stays one. */
  method SwapBoth(values: array<real>, indices: array<int>, i: int, j: int,
                  ghost values0: seq<real>, ghost indices0: seq<int>, ghost lo: int, ghost hi: int)
    requires 0 <= i < values.Length <= indices.Length && 0 <= j < values.Length
    requires lo <= i < hi && lo <= j < hi
    requires Lockstep(values[..], indices[..], values0, indices0, lo, hi)
    modifies values, indices
    ensures values[i] == old(values[j]) && values[j] == old(values[i])
    ensures forall k :: 0 <= k < values.Length && k != i && k != j ==> values[k] == old(values[k])
    ensures indices[i] == old(indices[j]) && indices[j] == old(indices[i])
    ensures forall k :: 0 <= k < indices.Length && k != i && k != j ==> indices[k] == old(indices[k])
    ensures Lockstep(values[..], indices[..], values0, indices0, lo, hi)
  {
    ghost var v, x := values[..], indices[..];
    SwapInLockstep(v, x, values0, indices0, lo, hi, i, j);
    Swap(values, i, j);
    Swap(indices, i, j);
    assert values[..] == v[i := v[j]][j := v[i]];
  }

  /** Lomuto partition of [low, high] around the pivot values[high]: the pivot
      ends at the returned position, nothing larger lies to its left and
      nothing smaller or equal to its right; cells outside [low, high] are
      untouched and indices moves in lockstep with values. */
  method Partition(values: array<real>, indices: array<int>, low: int, high: int) returns (p: int)
    requires 0 <= low <= high < values.Length <= indices.Length
    modifies values, indices
    ensures low <= p <= high
    ensures values[p] == old(values[high])
    ensures forall k :: low <= k < p ==> values[k] <= values[p]
    ensures forall k :: p < k <= high ==> values[p] < values[k]
    ensures Lockstep(values[..], indices[..], old(values[..]), old(indices[..]), low, high + 1)
  {
    ghost var values0, indices0 := values[..], indices[..];
    var i := PartitionScan(values, indices, low, high);
    SwapBoth(values, indices, i + 1, high, values0, indices0, low, high + 1);
    return i + 1;
  }

  /** The loop of Partition: moves every value no larger than the pivot
      values[high] to the front of [low, high) and returns the last position
      of that front part. */
  method PartitionScan(values: array<real>, indices: array<int>, low: int, high: int) returns (i: int)
    requires 0 <= low <= high < values.Length <= indices.Length
    modifies values, indices
    ensures low - 1 <= i < high
    ensures values[high] == old(values[high])
    ensures forall k :: low <= k <= i ==> values[k] <= values[high]
    ensures forall k :: i < k < high ==> values[high] < values[k]
    ensures Lockstep(values[..], indices[..], old(values[..]), old(indices[..]), low, high + 1)
  {
    ghost var values0, indices0 := values[..], indices[..];
    var pivot := values[high];
    i := low - 1;
    for j := low to high
      invariant low - 1 <= i < j
      invariant values[high] == pivot
      invariant forall k :: low <= k <= i ==> values[k] <= pivot
      invariant forall k :: i < k < j ==> pivot < values[k]
      invariant Lockstep(values[..], indices[..], values0, indices0, low, high + 1)
    {
      if values[j] <= pivot {
        i := i + 1;
        SwapBoth(values, indices, i, j, values0, indices0, low, high + 1);
      }
    }
  }

  /** A permutation that moves nothing outside [lo, hi) permutes [lo, hi). */
  lemma SegmentPermuted(s: seq<real>, t: seq<real>, lo: int, hi: int)
    requires 0 <= lo <= hi <= |s|
    requires multiset(s) == multiset(t) && SameOutside(s, t, lo, hi)
    ensures multiset(s[lo..hi]) == multiset(t[lo..hi])
  {
    MultisetOfThreeParts(s, lo, hi);
    MultisetOfThreeParts(t, lo, hi);
    assert s[..lo] == t[..lo] && s[hi..] == t[hi..];
    forall x
      ensures multiset(s[lo..hi])[x] == multiset(t[lo..hi])[x]
    {
      assert multiset(s)[x] == multiset(t)[x];
    }
  }

  /** The multiset of a sequence is that of its three parts around [lo, hi). */
  lemma MultisetOfThreeParts(s: seq<real>, lo: int, hi: int)
    requires 0 <= lo <= hi <= |s|
    ensures multiset(s) == multiset(s[..lo]) + multiset(s[lo..hi]) + multiset(s[hi..])
  {
    assert s == s[..lo] + s[lo..hi] + s[hi..];
  }

  /** Bounds on every element of a segment survive a permutation of it. */
  lemma BoundsSurvivePermutation(s: seq<real>, t: seq<real>, lo: int, hi: int, x: real)
    requires 0 <= lo <= hi <= |s| == |t|
    requires multiset(s[lo..hi]) == multiset(t[lo..hi])
    ensures (forall k :: lo <= k < hi ==> s[k] <= x) ==> (forall k :: lo <= k < hi ==> t[k] <= x)
    ensures (forall k :: lo <= k < hi ==> x < s[k]) ==> (forall k :: lo <= k < hi ==> x < t[k])
  {
    forall k | lo <= k < hi
      ensures exists m :: lo <= m < hi && s[m] == t[k]
    {
      assert t[k] == t[lo..hi][k - lo];
      assert t[k] in multiset(s[lo..hi]);
      var m :| 0 <= m < hi - lo && s[lo..hi][m] == t[k];
      assert s[lo + m] == t[k];
    }
  }

  /** The recursive step: sorts [low, high], touching nothing outside it. */
  method QuickSortRecursive(values: array<real>, indices: array<int>, low: int, high: int)
    requires 0 <= low <= high + 1 <= values.Length <= indices.Length
    modifies values, indices
    ensures SortedRange(values[..], low, high + 1)
    ensures Lockstep(values[..], indices[..], old(values[..]), old(indices[..]), low, high + 1)
    decreases high - low
  {
    if low < high {
      var pivotIndex := Partition(values, indices, low, high);
      ghost var v1, x1 := values[..], indices[..];
      QuickSortRecursive(values, indices, low, pivotIndex - 1);
      ghost var v2, x2 := values[..], indices[..];
      QuickSortRecursive(values, indices, pivotIndex + 1, high);
      SortedAfterBothHalves(v1, v2, values[..], low, pivotIndex, high);
      LockstepTransitive(old(values[..]), old(indices[..]), v1, x1, v2, x2, low, high + 1, low, pivotIndex);
      LockstepTransitive(old(values[..]), old(indices[..]), v2, x2, values[..], indices[..],
                         low, high + 1, pivotIndex + 1, high + 1);
    } else {
      assert values[..] == old(values[..]) && indices[..] == old(indices[..]);
    }
  }

  /** After sorting the left side of a partitioned segment, every element
      there is still at most the pivot. */
  lemma LeftStaysBelowPivot(partitioned: seq<real>, leftSorted: seq<real>, low: int, p: int)
    requires 0 <= low <= p < |partitioned|
    requires forall k :: low <= k < p ==> partitioned[k] <= partitioned[p]
    requires multiset(leftSorted) == multiset(partitioned) && SameOutside(leftSorted, partitioned, low, p)
    ensures leftSorted[p] == partitioned[p]
    ensures forall k :: low <= k < p ==> leftSorted[k] <= partitioned[p]
  {
    SegmentPermuted(partitioned, leftSorted, low, p);
    BoundsSurvivePermutation(partitioned, leftSorted, low, p, partitioned[p]);
  }

  /** Sorting each side of a partitioned segment sorts the whole segment. */
  lemma SortedAfterBothHalves(partitioned: seq<real>, leftSorted: seq<real>, sorted: seq<real>, low: int, p: int, high: int)
    requires 0 <= low <= p <= high < |partitioned|
    requires forall k :: low <= k < p ==> partitioned[k] <= partitioned[p]
    requires forall k :: p < k <= high ==> partitioned[p] < partitioned[k]
    requires multiset(leftSorted) == multiset(partitioned) && SameOutside(leftSorted, partitioned, low, p)
    requires SortedRange(leftSorted, low, p)
    requires multiset(sorted) == multiset(leftSorted) && SameOutside(sorted, leftSorted, p + 1, high + 1)
    requires SortedRange(sorted, p + 1, high + 1)
    ensures SortedRange(sorted, low, high + 1)
  {
    var pivot := partitioned[p];
    LeftStaysBelowPivot(partitioned, leftSorted, low, p);
    SegmentPermuted(leftSorted, sorted, p + 1, high + 1);
    BoundsSurvivePermutation(leftSorted, sorted, p + 1, high + 1, pivot);
    assert sorted[p] == pivot;
    assert forall k :: low <= k <= p ==> sorted[k] <= pivot;
    assert forall k :: p < k <= high ==> pivot < sorted[k];
  }

  /** With indices starting as 0, 1, ..., n - 1, every value ends next to the
      position it came from. */
  lemma IdentityTracksOrigin(original: seq<real>, sorted: seq<real>, indices: seq<int>)
    requires |sorted| == |original| <= |indices|
    requires multiset(Pairs(sorted, indices)) == multiset(Pairs(original, Identity(|original|)))
    ensures forall k :: 0 <= k < |sorted| ==> 0 <= indices[k] < |original| && sorted[k] == original[indices[k]]
  {
    var before := Pairs(original, Identity(|original|));
    forall k | 0 <= k < |sorted|
      ensures 0 <= indices[k] < |original| && sorted[k] == original[indices[k]]
    {
      assert Pairs(sorted, indices)[k] in multiset(before);
      var m :| 0 <= m < |before| && before[m] == (sorted[k], indices[k]);
    }
  }

  /** QuickSort: sorts array ascending in place. A given index array is
      permuted in lockstep (its entries past values.Length stay); without one,
      a local identity array is used and discarded. */
  method QuickSort(values: array<real>, indices: array?<int>)
    requires indices != null ==> values.Length <= indices.Length
    modifies values, indices
    ensures Sorted(values[..])
    ensures multiset(values[..]) == multiset(old(values[..]))
    ensures indices != null ==>
      multiset(Pairs(values[..], indices[..])) == multiset(Pairs(old(values[..]), old(indices[..])))
    ensures indices != null ==> forall k :: values.Length <= k < indices.Length ==> indices[k] == old(indices[k])
    ensures indices != null && old(indices[..values.Length]) == Identity(values.Length) ==>
      forall k :: 0 <= k < values.Length ==>
        0 <= indices[k] < values.Length && values[k] == old(values[..])[indices[k]]
  {
    var order := indices;
    if order == null {
      order := new int[values.Length];
      for i := 0 to values.Length
        invariant unchanged(values)
        invariant forall k :: 0 <= k < i ==> order[k] == k
      {
        order[i] := i;
      }
    }
    ghost var original, originalOrder := values[..], order[..];
    assert original == old(values[..]);
    QuickSortRecursive(values, order, 0, values.Length - 1);
    assert Lockstep(values[..], order[..], original, originalOrder, 0, values.Length);
    if indices != null && originalOrder[..values.Length] == Identity(values.Length) {
      assert Pairs(original, originalOrder) == Pairs(original, Identity(values.Length));
      IdentityTracksOrigin(original, values[..], order[..]);
    }
  }
}
