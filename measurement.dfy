/**
 * The retention/resolution engine of MeasurementService: column physics, the
 * two-point linearisation fitter, the variable transform, the 1/2/3-variable
 * log-retention polynomial, the retention-factor table and the critical-pair
 * resolution score.
 *
 * Doubles are modelled as reals: rounding, overflow to infinity and NaN are
 * not. Where the C# code would divide by zero (which yields an infinity or a
 * NaN rather than an exception) the model has a precondition instead.
 */
module Measurement {
  import opened Numerics
  import opened Model

  // ---------------------------------------------------------------------------
  // Column physics
  // ---------------------------------------------------------------------------

  datatype ColumnPhysics = ColumnPhysics(mobilePhaseVolume: real, deadTime: real, linearVelocity: real)

  /** Interstitial porosity of the packed bed, a constant of the legacy model. */
  const Porosity: real := 2.0 / 3.0

  /** Mobile-phase volume pi*(d/2)^2*L*(2/3), dead time V/F and linear velocity
      L/t0; fails unless length, diameter and flow rate are all positive. */
  function Physics(columnLength: real, columnDiameter: real, flowRate: real): (r: Result<ColumnPhysics>)
    ensures r.Success? <==> columnLength > 0.0 && columnDiameter > 0.0 && flowRate > 0.0
    ensures r.Success? ==>
      r.value.mobilePhaseVolume > 0.0 && r.value.deadTime > 0.0 && r.value.linearVelocity > 0.0
    ensures r.Success? ==> r.value.deadTime * flowRate == r.value.mobilePhaseVolume
    ensures r.Success? ==> r.value.linearVelocity * r.value.deadTime == columnLength
  {
    if columnLength <= 0.0 || columnDiameter <= 0.0 || flowRate <= 0.0 then Failure
    else
      var radius := columnDiameter / 2.0;
      var section := Pi * radius;
      ProductPositive(Pi, radius);
      ProductPositive(section, radius);
      var area := Pi * radius * radius;
      assert area == section * radius;
      var volume := area * columnLength * Porosity;
      ProductPositive(area, columnLength);
      var deadTime := volume / flowRate;
      assert deadTime > 0.0;
      Success(ColumnPhysics(volume, deadTime, columnLength / deadTime))
  }

  /** The linear velocity does not depend on the column length: it is the flow
      rate over the open cross-section pi*(d/2)^2*(2/3). */
  lemma LinearVelocityIsFlowOverOpenSection(columnLength: real, columnDiameter: real, flowRate: real)
    requires columnLength > 0.0 && columnDiameter > 0.0 && flowRate > 0.0
    ensures Physics(columnLength, columnDiameter, flowRate).value.linearVelocity
         == flowRate / (Pi * (columnDiameter / 2.0) * (columnDiameter / 2.0) * Porosity)
  {
    var radius := columnDiameter / 2.0;
    assert Pi * radius > 0.0;
    var section := Pi * radius * radius * Porosity;
    var p := Physics(columnLength, columnDiameter, flowRate).value;
    assert p.mobilePhaseVolume == section * columnLength;
    assert p.deadTime * flowRate == section * columnLength;
    assert p.linearVelocity * p.deadTime == columnLength;
    assert p.linearVelocity * section == flowRate by {
      assert p.linearVelocity * p.deadTime * flowRate == columnLength * flowRate;
      assert p.linearVelocity * section * columnLength == flowRate * columnLength;
    }
  }

  /** The default column (25 x 0.46 at flow 1.0): about 2.770 of mobile phase,
      the same dead time, and a linear velocity of about 9.026. */
  lemma DefaultColumnExample()
    ensures var p := Physics(25.0, 0.46, 1.0).value;
      2.769 < p.mobilePhaseVolume < 2.771 && 2.769 < p.deadTime < 2.771 &&
      9.02 < p.linearVelocity < 9.03
  {
    var p := Physics(25.0, 0.46, 1.0).value;
    assert p.deadTime == p.mobilePhaseVolume;
    assert p.linearVelocity * p.deadTime == 25.0;
  }

  // ---------------------------------------------------------------------------
  // Variable transforms
  // ---------------------------------------------------------------------------

  /** Reciprocal absolute temperature 1/(T + 273.15). */
  function TemperatureTransform(celsius: real): (r: real)
    requires celsius + KelvinOffset != 0.0
    ensures r != 0.0 && 1.0 / r - KelvinOffset == celsius
    ensures celsius + KelvinOffset > 0.0 ==> r > 0.0
  {
    1.0 / (celsius + KelvinOffset)
  }

  /** Two distinct temperatures have distinct transformed coordinates. */
  lemma TemperatureTransformInjective(t1: real, t2: real)
    requires t1 + KelvinOffset != 0.0 && t2 + KelvinOffset != 0.0
    ensures TemperatureTransform(t1) == TemperatureTransform(t2) <==> t1 == t2
  {
    if TemperatureTransform(t1) == TemperatureTransform(t2) {
      calc {
        t1;
        1.0 / TemperatureTransform(t1) - KelvinOffset;
        1.0 / TemperatureTransform(t2) - KelvinOffset;
        t2;
      }
    }
  }

  /** Fraction 1/(1 + 10^(pH - pKa)) used when an axis is pH: the code raises
      10 to -pKa + pH, the opposite sign of the usual 1/(1 + 10^(pKa - pH)). */
  function PhTransform(m: Maths, pKa: real, pH: real): (r: real)
    requires m.Valid()
    ensures 0.0 < r <= 1.0
  {
    var p := m.pow(10.0, -pKa + pH);
    assert p >= 0.0;
    1.0 / (1.0 + p)
  }

  /** A transform that C# would evaluate without dividing by zero. */
  predicate TransformDefined(value: real, variableType: int)
  {
    variableType == 1 ==> value + KelvinOffset != 0.0
  }

  /** TransformVariable: code 1 is temperature, code 2 is pH with the first
      component's pKa whatever the component, any other code (including codes
      that name no variable type) leaves the value unchanged. Reading pKa[0]
      of an empty array throws. */
  function TransformVariable(m: Maths, p: ParameterValues, value: real, variableType: int): (r: Result<real>)
    requires m.Valid() && TransformDefined(value, variableType)
    ensures r.Failure? <==> variableType == 2 && |p.pKa| == 0
    ensures variableType == 1 ==> r == Success(TemperatureTransform(value))
    ensures variableType == 2 && |p.pKa| > 0 ==> r == Success(PhTransform(m, p.pKa[0], value))
    ensures variableType != 1 && variableType != 2 ==> r == Success(value)
  {
    match variableType
    case 1 => Success(TemperatureTransform(value))
    case 2 => if |p.pKa| == 0 then Failure else Success(PhTransform(m, p.pKa[0], value))
    case _ => Success(value)
  }

  /** Every code outside 1 and 2 is the identity, also codes no VariableType has. */
  lemma UnknownCodeIsIdentity(m: Maths, p: ParameterValues, value: real, variableType: int)
    requires m.Valid()
    requires VariableTypeOf(variableType).Failure?
    ensures TransformVariable(m, p, value, variableType) == Success(value)
  {
  }

  /** The pH transform of the calibration fitter, 10^-pH / (10^-pH + 10^-pKa). */
  function CalibrationPh(m: Maths, pKa: real, pH: real): (r: real)
    requires m.pow(10.0, -pH) + m.pow(10.0, -pKa) != 0.0
    ensures m.Valid() ==> 0.0 <= r <= 1.0
  {
    var a, b := m.pow(10.0, -pH), m.pow(10.0, -pKa);
    assert m.Valid() ==> 0.0 <= a / (a + b) <= 1.0 by {
      if m.Valid() {
        assert a >= 0.0 && b >= 0.0;
        ShareInUnitInterval(a, b);
      }
    }
    a / (a + b)
  }

  /** The fitter's and the predictor's pH transforms agree for one pKa as soon
      as 10^-pKa = 10^-pH * 10^(pH - pKa) and 10^-pH > 0. */
  lemma PhTransformsAgree(m: Maths, pKa: real, pH: real)
    requires m.Valid()
    requires m.pow(10.0, -pH) > 0.0
    requires m.pow(10.0, -pKa) == m.pow(10.0, -pH) * m.pow(10.0, -pKa + pH)
    ensures CalibrationPh(m, pKa, pH) == PhTransform(m, pKa, pH)
  {
    var a := m.pow(10.0, -pH);
    var c := m.pow(10.0, -pKa + pH);
    assert c >= 0.0;
    assert CalibrationPh(m, pKa, pH) == a / (a + a * c);
    CancelCommonFactor(a, c);
  }

  /** a / (a + a*c) == 1 / (1 + c) for a > 0 and c >= 0. */
  lemma CancelCommonFactor(a: real, c: real)
    requires a > 0.0 && c >= 0.0
    ensures a / (a + a * c) == 1.0 / (1.0 + c)
  {
    assert a + a * c == a * (1.0 + c);
    var r := 1.0 / (1.0 + c);
    assert r * (1.0 + c) == 1.0;
    assert r * (a + a * c) == a by {
      assert r * (a * (1.0 + c)) == a * (r * (1.0 + c));
    }
  }

  /** The per-component transform of the linearisation loop. */
  function CalibrationTransform(m: Maths, variableType: int, range: real, pKa: real): (r: real)
    requires CalibrationDefined(m, variableType, range, pKa)
    ensures variableType == 1 ==> r != 0.0 && 1.0 / r - KelvinOffset == range
    ensures variableType == 2 && m.Valid() ==> 0.0 <= r <= 1.0
    ensures variableType != 1 && variableType != 2 ==> r == range
  {
    match variableType
    case 1 => TemperatureTransform(range)
    case 2 => CalibrationPh(m, pKa, range)
    case _ => range
  }

  predicate CalibrationDefined(m: Maths, variableType: int, range: real, pKa: real)
  {
    && (variableType == 1 ==> range + KelvinOffset != 0.0)
    && (variableType == 2 ==> m.pow(10.0, -range) + m.pow(10.0, -pKa) != 0.0)
  }

  // ---------------------------------------------------------------------------
  // Linearisation fitter
  // ---------------------------------------------------------------------------

  datatype Line = Line(slope: real, intercept: real)

  /** Slope (v1 - v2)/(t1 - t2) and intercept v1 - slope*t1: the line passes through both points. */
  function FitLine(t1: real, t2: real, v1: real, v2: real): (l: Line)
    requires t1 != t2
    ensures l.slope * t1 + l.intercept == v1
    ensures l.slope * t2 + l.intercept == v2
  {
    var a := (v1 - v2) / (t1 - t2);
    assert a * (t1 - t2) == v1 - v2;
    Line(a, v1 - a * t1)
  }

  /** Only one line passes through two points with distinct abscissae. */
  lemma FitLineUnique(t1: real, t2: real, v1: real, v2: real, l: Line)
    requires t1 != t2
    requires l.slope * t1 + l.intercept == v1 && l.slope * t2 + l.intercept == v2
    ensures l == FitLine(t1, t2, v1, v2)
  {
    var f := FitLine(t1, t2, v1, v2);
    assert (l.slope - f.slope) * (t1 - t2) == 0.0;
    assert l.slope == f.slope;
  }

  /** pKa of component i, when the calibration transform needs it. */
  function ComponentPKa(pKa: seq<real>, i: int): real
  {
    if 0 <= i < |pKa| then pKa[i] else 0.0
  }

  /** Component i's fit neither divides by zero nor fits through two equal
      abscissae (or the pKa lookup throws first, so no division happens). */
  predicate FitDefined(m: Maths, variableType: int, range1: real, range2: real, pKa: seq<real>, i: int)
  {
    (variableType == 2 && i >= |pKa|) ||
    (var pk := ComponentPKa(pKa, i);
     && CalibrationDefined(m, variableType, range1, pk)
     && CalibrationDefined(m, variableType, range2, pk)
     && CalibrationTransform(m, variableType, range1, pk) != CalibrationTransform(m, variableType, range2, pk))
  }

  /** With a temperature axis, two distinct calibration temperatures always give a defined fit. */
  lemma TemperatureFitDefined(m: Maths, range1: real, range2: real, pKa: seq<real>, i: int)
    requires range1 != range2
    requires range1 + KelvinOffset != 0.0 && range2 + KelvinOffset != 0.0
    ensures FitDefined(m, 1, range1, range2, pKa, i)
  {
    TemperatureTransformInjective(range1, range2);
  }

  /** The two transformed calibration coordinates of component i; they differ. */
  function Abscissae(m: Maths, variableType: int, range1: real, range2: real, pKa: seq<real>, i: int): (t: (real, real))
    requires FitDefined(m, variableType, range1, range2, pKa, i)
    requires variableType == 2 ==> i < |pKa|
    ensures t.0 != t.1
    ensures variableType == 1 ==> t == (TemperatureTransform(range1), TemperatureTransform(range2))
    ensures variableType == 2 ==> t == (CalibrationPh(m, ComponentPKa(pKa, i), range1), CalibrationPh(m, ComponentPKa(pKa, i), range2))
    ensures variableType != 1 && variableType != 2 ==> t == (range1, range2)
  {
    var pk := ComponentPKa(pKa, i);
    (CalibrationTransform(m, variableType, range1, pk), CalibrationTransform(m, variableType, range2, pk))
  }

  /** The fitted line of component i: it passes through both calibration
      points in transformed coordinates. */
  function ComponentLine(m: Maths, variableType: int, range1: real, range2: real, pKa: seq<real>,
                         i: int, value1: real, value2: real): (l: Line)
    requires FitDefined(m, variableType, range1, range2, pKa, i)
    requires variableType == 2 ==> i < |pKa|
    ensures var t := Abscissae(m, variableType, range1, range2, pKa, i);
      && l.slope * t.0 + l.intercept == value1
      && l.slope * t.1 + l.intercept == value2
  {
    var t := Abscissae(m, variableType, range1, range2, pKa, i);
    var l := FitLine(t.0, t.1, value1, value2);
    assert l.slope * t.0 + l.intercept == value1 && l.slope * t.1 + l.intercept == value2;
    l
  }

  // ---------------------------------------------------------------------------
  // Log-retention polynomial
  // ---------------------------------------------------------------------------

  function Linear1(a: real, b: real, x: real): real
  {
    a * x + b
  }

  function Bilinear2(aa: real, ab: real, ba: real, b: real, x: real, y: real): real
  {
    (aa * y + ab) * x + ba * y + b
  }

  function Trilinear3(aaa: real, aab: real, baa: real, bab: real, aba: real, abb: real,
                      bz: real, b: real, x: real, y: real, z: real): real
  {
    ((aaa * z + aab) * y + (baa * z + bab)) * x + ((aba * z + abb) * y + (bz * z + b))
  }

  /** The two-variable polynomial at y = 0 is the one-variable line. */
  lemma BilinearAtZero(aa: real, ab: real, ba: real, b: real, x: real)
    ensures Bilinear2(aa, ab, ba, b, x, 0.0) == Linear1(ab, b, x)
  {
  }

  /** The three-variable polynomial at z = 0 is the two-variable one. */
  lemma TrilinearAtZero(aaa: real, aab: real, baa: real, bab: real, aba: real, abb: real,
                        bz: real, b: real, x: real, y: real)
    ensures Trilinear3(aaa, aab, baa, bab, aba, abb, bz, b, x, y, 0.0) == Bilinear2(aab, bab, abb, b, x, y)
  {
  }

  predicate Has(s: seq<real>, i: int)
  {
    0 <= i < |s|
  }

  /** Component i has every coefficient the configured polynomial reads. */
  predicate HasCoefficients(p: ParameterValues, i: int)
  {
    match p.numberOfVariables
    case 1 => Has(p.coefficientsA1, i) && Has(p.coefficientsB1, i)
    case 2 => Has(p.coefficientsAA1, i) && Has(p.coefficientsAB1, i) && Has(p.coefficientsBA1, i) && Has(p.coefficientsB1, i)
    case 3 => Has(p.coefficientsAAA, i) && Has(p.coefficientsAAB, i) && Has(p.coefficientsBAA, i) &&
              Has(p.coefficientsBAB, i) && Has(p.coefficientsABA, i) && Has(p.coefficientsABB, i) &&
              Has(p.coefficientsB1, i)
    case _ => true
  }

  /** CalculateLogRetentionFactor, as written: the two-variable case ends in
      B1 (not B2), the three-variable case ends in B1*z + B1 (B3 is never
      read), and any other number of variables gives 0. A missing coefficient
      throws. */
  function CalculateLogRetentionFactor(p: ParameterValues, i: int, x: real, y: real, z: real): (r: Result<real>)
    ensures r.Success? <==> HasCoefficients(p, i)
    ensures p.numberOfVariables == 1 && r.Success? ==>
      r.value == Linear1(p.coefficientsA1[i], p.coefficientsB1[i], x)
    ensures p.numberOfVariables == 2 && r.Success? ==>
      r.value == Bilinear2(p.coefficientsAA1[i], p.coefficientsAB1[i], p.coefficientsBA1[i], p.coefficientsB1[i], x, y)
    ensures p.numberOfVariables == 3 && r.Success? ==>
      r.value == Trilinear3(p.coefficientsAAA[i], p.coefficientsAAB[i], p.coefficientsBAA[i], p.coefficientsBAB[i],
                            p.coefficientsABA[i], p.coefficientsABB[i], p.coefficientsB1[i], p.coefficientsB1[i], x, y, z)
    ensures !(1 <= p.numberOfVariables <= 3) ==> r == Success(0.0)
  {
    if !HasCoefficients(p, i) then Failure
    else
      match p.numberOfVariables
      case 1 => Success(Linear1(p.coefficientsA1[i], p.coefficientsB1[i], x))
      case 2 => Success(Bilinear2(p.coefficientsAA1[i], p.coefficientsAB1[i], p.coefficientsBA1[i], p.coefficientsB1[i], x, y))
      case 3 => Success(Trilinear3(p.coefficientsAAA[i], p.coefficientsAAB[i], p.coefficientsBAA[i], p.coefficientsBAB[i],
                                   p.coefficientsABA[i], p.coefficientsABB[i], p.coefficientsB1[i], p.coefficientsB1[i], x, y, z))
      case _ => Success(0.0)
  }

  /** The arrays B2 and B3 never influence a log-retention factor. */
  lemma B2AndB3AreNeverRead(p: ParameterValues, b2: seq<real>, b3: seq<real>, i: int, x: real, y: real, z: real)
    ensures CalculateLogRetentionFactor(p.(coefficientsB2 := b2, coefficientsB3 := b3), i, x, y, z)
         == CalculateLogRetentionFactor(p, i, x, y, z)
  {
  }

  /** With z = 0 and the 3-variable arrays AAB, BAB, ABB equal to AA1, AB1, BA1,
      the 3-variable evaluation gives the 2-variable value. */
  lemma ThreeVariablesReduceToTwo(p: ParameterValues, i: int, x: real, y: real)
    requires p.coefficientsAAB == p.coefficientsAA1 && p.coefficientsBAB == p.coefficientsAB1
    requires p.coefficientsABB == p.coefficientsBA1
    requires HasCoefficients(p.(numberOfVariables := 3), i)
    ensures CalculateLogRetentionFactor(p.(numberOfVariables := 3), i, x, y, 0.0)
         == CalculateLogRetentionFactor(p.(numberOfVariables := 2), i, x, y, 0.0)
  {
    var q := p.(numberOfVariables := 3);
    TrilinearAtZero(q.coefficientsAAA[i], q.coefficientsAAB[i], q.coefficientsBAA[i], q.coefficientsBAB[i],
                    q.coefficientsABA[i], q.coefficientsABB[i], q.coefficientsB1[i], q.coefficientsB1[i], x, y);
  }

  // ---------------------------------------------------------------------------
  // Retention factors, times and peak widths
  // ---------------------------------------------------------------------------

  /** logK is capped at log(1E32) before it is exponentiated. */
  function ClampLogK(m: Maths, logK: real): (r: real)
    ensures r <= m.log(RetentionCap)
    ensures logK <= m.log(RetentionCap) ==> r == logK
    ensures logK > m.log(RetentionCap) ==> r == m.log(RetentionCap)
  {
    if logK > m.log(RetentionCap) then m.log(RetentionCap) else logK
  }

  /** A saturated logK gives exactly 1E32, provided exp inverts log at 1E32. */
  lemma RetentionFactorSaturates(m: Maths, logK: real)
    requires logK > m.log(RetentionCap)
    requires m.exp(m.log(RetentionCap)) == RetentionCap
    ensures m.exp(ClampLogK(m, logK)) == RetentionCap
  {
  }

  /** t0*k + t0, the standard relation t0*(1 + k). */
  function RetentionTime(deadTime: real, k: real): (r: real)
    ensures r == deadTime * (1.0 + k)
    ensures deadTime >= 0.0 && k >= 0.0 ==> r >= deadTime
  {
    deadTime * k + deadTime
  }

  /** sqrt(2/N) * tR / 2.5. */
  function PeakWidth(m: Maths, plateNumber: int, retentionTime: real): (r: real)
    requires plateNumber != 0
    ensures m.Valid() && plateNumber > 0 && retentionTime >= 0.0 ==> r >= 0.0
  {
    var s := m.sqrt(2.0 / plateNumber as real);
    assert m.Valid() && plateNumber > 0 ==> s >= 0.0;
    s * retentionTime / 2.5
  }

  /** The three axis values after TransformVariable, with each axis's type. */
  function TransformPoint(m: Maths, p: ParameterValues, x: real, y: real, z: real): (r: Result<(real, real, real)>)
    requires m.Valid()
    requires TransformDefined(x, p.variableTypeX) && TransformDefined(y, p.variableTypeY)
    requires TransformDefined(z, p.variableTypeZ)
    ensures r.Success? <==> !((p.variableTypeX == 2 || p.variableTypeY == 2 || p.variableTypeZ == 2) && |p.pKa| == 0)
  {
    var tx := TransformVariable(m, p, x, p.variableTypeX);
    var ty := TransformVariable(m, p, y, p.variableTypeY);
    var tz := TransformVariable(m, p, z, p.variableTypeZ);
    if tx.Failure? || ty.Failure? || tz.Failure? then Failure
    else Success((tx.value, ty.value, tz.value))
  }

  /** When ComputeRetentionFactors returns instead of throwing: the count is
      not negative, no pH axis meets an empty pKa array, and every component
      below the count has its coefficients. */
  predicate RetentionSucceeds(m: Maths, p: ParameterValues, componentCount: int, x: real, y: real, z: real)
    requires m.Valid()
    requires TransformDefined(x, p.variableTypeX) && TransformDefined(y, p.variableTypeY)
    requires TransformDefined(z, p.variableTypeZ)
  {
    componentCount >= 0 && TransformPoint(m, p, x, y, z).Success? &&
    forall i :: 0 <= i < componentCount ==> HasCoefficients(p, i)
  }

  /** The log-retention factor of component i at a transformed point. */
  function LogK(p: ParameterValues, i: int, t: (real, real, real)): real
    requires HasCoefficients(p, i)
  {
    CalculateLogRetentionFactor(p, i, t.0, t.1, t.2).value
  }

  /** Retention factor exp(min(logK, log 1E32)), retention time t0*(1 + k) and
      peak width of component i; non-negative, and no earlier than the dead
      time, when the dead time is not negative and the plate number positive. */
  function Prediction(m: Maths, p: ParameterValues, i: int, t: (real, real, real)): (r: (real, real, real))
    requires HasCoefficients(p, i) && p.plateNumber != 0
    ensures m.Valid() && p.deadTimeExperimental >= 0.0 && p.plateNumber > 0 ==>
      r.0 >= 0.0 && r.1 >= p.deadTimeExperimental && r.2 >= 0.0
    ensures r.0 == m.exp(ClampLogK(m, LogK(p, i, t)))
    ensures r.1 == p.deadTimeExperimental * (1.0 + r.0)
  {
    var k := m.exp(ClampLogK(m, LogK(p, i, t)));
    var retentionTime := RetentionTime(p.deadTimeExperimental, k);
    (k, retentionTime, PeakWidth(m, p.plateNumber, retentionTime))
  }

  /** Prediction spelled out from a computed log-retention factor. */
  lemma PredictionFromLogK(m: Maths, p: ParameterValues, i: int, t: (real, real, real), logK: real)
    requires p.plateNumber != 0
    requires CalculateLogRetentionFactor(p, i, t.0, t.1, t.2) == Success(logK)
    ensures HasCoefficients(p, i)
    ensures Prediction(m, p, i, t).0 == m.exp(ClampLogK(m, logK))
    ensures Prediction(m, p, i, t).1 == p.deadTimeExperimental * Prediction(m, p, i, t).0 + p.deadTimeExperimental
    ensures Prediction(m, p, i, t).2 == m.sqrt(2.0 / p.plateNumber as real) * Prediction(m, p, i, t).1 / 2.5
  {
    assert LogK(p, i, t) == logK;
  }

  /** The default experimental dead time is 0, so every predicted retention
      time is 0 until it is set. */
  lemma DefaultRetentionTimesAreZero(m: Maths, i: int, t: (real, real, real))
    requires HasCoefficients(Defaults(), i)
    ensures Prediction(m, Defaults(), i, t).1 == 0.0
  {
  }

  /** With the default parameters a prediction for all 13 components succeeds
      and one for 14 components fails, whatever number of components is set. */
  lemma DefaultsPredictThirteenComponents(m: Maths, x: real, y: real, z: real)
    requires m.Valid() && y + KelvinOffset != 0.0
    ensures RetentionSucceeds(m, Defaults(), 13, x, y, z)
    ensures !RetentionSucceeds(m, Defaults(), 14, x, y, z)
    ensures RetentionSucceeds(m, Defaults().(numberOfComponents := 20), 13, x, y, z)
  {
    assert !HasCoefficients(Defaults(), 13);
  }

  // ---------------------------------------------------------------------------
  // Critical pair and resolution
  // ---------------------------------------------------------------------------

  /** |k_i - k_j|, capped at double.MaxValue: the search starts from
      double.MaxValue and only a strictly smaller difference is taken. */
  function CappedDistance(k: seq<real>, i: int, j: int): real
    requires 0 <= i < |k| && 0 <= j < |k|
  {
    Min(Abs(k[i] - k[j]), DoubleMax)
  }

  /** Pair (a, b) is visited before pair (c, d) by the nested i/j loops. */
  predicate Precedes(a: int, b: int, c: int, d: int)
  {
    a < c || (a == c && b < d)
  }

  /** (c1, c2) is the pair the search picks: it minimises the capped
      difference over all pairs i < j, and every pair visited before it has a
      strictly larger capped difference (the first minimiser wins). */
  predicate IsCriticalPair(k: seq<real>, c1: int, c2: int)
  {
    && 0 <= c1 < c2 < |k|
    && (forall i, j :: 0 <= i < j < |k| ==> CappedDistance(k, c1, c2) <= CappedDistance(k, i, j))
    && (forall i, j :: 0 <= i < j < |k| && Precedes(i, j, c1, c2) ==> CappedDistance(k, c1, c2) < CappedDistance(k, i, j))
  }

  /** At most one pair is critical. */
  lemma CriticalPairUnique(k: seq<real>, a: int, b: int, c: int, d: int)
    requires IsCriticalPair(k, a, b) && IsCriticalPair(k, c, d)
    ensures a == c && b == d
  {
    assert CappedDistance(k, a, b) <= CappedDistance(k, c, d);
    assert CappedDistance(k, c, d) <= CappedDistance(k, a, b);
  }

  /** When the critical difference is below double.MaxValue it is the true
      minimum of |k_i - k_j| over all pairs. */
  lemma CriticalPairIsClosest(k: seq<real>, c1: int, c2: int, i: int, j: int)
    requires IsCriticalPair(k, c1, c2) && Abs(k[c1] - k[c2]) < DoubleMax
    requires 0 <= i < j < |k|
    ensures Abs(k[c1] - k[c2]) <= Abs(k[i] - k[j])
  {
    assert CappedDistance(k, c1, c2) <= CappedDistance(k, i, j);
  }

  /** For factors 1.0, 1.05, 2.0 the critical pair is the first two. */
  lemma CriticalPairExample()
    ensures IsCriticalPair([1.0, 1.05, 2.0], 0, 1)
  {
    var k := [1.0, 1.05, 2.0];
    assert CappedDistance(k, 0, 1) == 0.05;
    assert CappedDistance(k, 0, 2) == 1.0;
    assert CappedDistance(k, 1, 2) == 0.95;
  }

  /** The critical pair ordered so that k1 <= k2 (the swap in the source). */
  function OrderPair(ka: real, kb: real): (r: (real, real))
    ensures r.0 <= r.1
    ensures r == (Min(ka, kb), Max(ka, kb))
  {
    if ka > kb then (kb, ka) else (ka, kb)
  }

  /** The resolution formula divides by k1 and by k1 + k2 + 2. */
  predicate ResolutionDefined(ka: real, kb: real)
  {
    Min(ka, kb) != 0.0 && ka + kb + 2.0 != 0.0
  }

  /** (sqrt(N)/2) * (alpha - 1) * (k1/(k1 + k2 + 2)) * 2.5 with alpha = k2/k1. */
  function Resolution(m: Maths, ka: real, kb: real, plateNumber: int): (r: real)
    requires ResolutionDefined(ka, kb)
    ensures ka == kb ==> r == 0.0
  {
    var (k1, k2) := OrderPair(ka, kb);
    var alpha := k2 / k1;
    (m.sqrt(plateNumber as real) / 2.0) * (alpha - 1.0) * (k1 / (k1 + k2 + 2.0)) * 2.5
  }

  /** The formula simplifies to 1.25*sqrt(N)*((k2 - k1)/(k1 + k2 + 2)). */
  lemma ResolutionClosedForm(m: Maths, ka: real, kb: real, plateNumber: int)
    requires ResolutionDefined(ka, kb)
    ensures Resolution(m, ka, kb, plateNumber)
         == 1.25 * m.sqrt(plateNumber as real) * ((Max(ka, kb) - Min(ka, kb)) / (ka + kb + 2.0))
  {
    var k1, k2 := Min(ka, kb), Max(ka, kb);
    var s := m.sqrt(plateNumber as real);
    assert OrderPair(ka, kb) == (k1, k2);
    assert k1 + k2 == ka + kb;
    SelectivityTimesShare(k1, k2, k1 + k2 + 2.0);
    assert Resolution(m, ka, kb, plateNumber)
        == (s / 2.0) * (k2 / k1 - 1.0) * (k1 / (k1 + k2 + 2.0)) * 2.5;
  }

  /** (k2/k1 - 1) * (k1/d) == (k2 - k1)/d: the selectivity term times the
      retention share is the relative separation. */
  lemma SelectivityTimesShare(k1: real, k2: real, d: real)
    requires k1 != 0.0 && d != 0.0
    ensures (k2 / k1 - 1.0) * (k1 / d) == (k2 - k1) / d
  {
    var q := k2 / k1 - 1.0;
    var e := k1 / d;
    assert q * k1 == k2 - k1 by {
      assert k2 / k1 * k1 == k2;
    }
    assert e * d == k1;
    assert q * e * d == k2 - k1 by {
      assert q * e * d == q * (e * d);
    }
  }

  /** Positive factors give a non-negative resolution, zero exactly when the
      two factors coincide (given sqrt(N) > 0). */
  lemma ResolutionSign(m: Maths, ka: real, kb: real, plateNumber: int)
    requires m.Valid() && plateNumber >= 0
    requires ka > 0.0 && kb > 0.0
    ensures ResolutionDefined(ka, kb)
    ensures Resolution(m, ka, kb, plateNumber) >= 0.0
    ensures ka == kb ==> Resolution(m, ka, kb, plateNumber) == 0.0
    ensures m.sqrt(plateNumber as real) > 0.0 && ka != kb ==> Resolution(m, ka, kb, plateNumber) > 0.0
  {
    ResolutionClosedForm(m, ka, kb, plateNumber);
    var s := m.sqrt(plateNumber as real);
    assert s >= 0.0;
    var diff := Max(ka, kb) - Min(ka, kb);
    assert diff >= 0.0;
    assert 1.25 * s * diff >= 0.0;
    if s > 0.0 && ka != kb {
      assert 1.25 * s * diff > 0.0;
    }
  }

  /** Permuting the factors can change the score: [1, 2, 3] and [3, 2, 1]
      both tie at difference 1, the first pair in scan order wins, and the
      two winners (1, 2) and (2, 3) score differently. */
  lemma ResolutionDependsOnOrder(m: Maths, plateNumber: int)
    requires m.sqrt(plateNumber as real) > 0.0
    ensures IsCriticalPair([1.0, 2.0, 3.0], 0, 1) && IsCriticalPair([3.0, 2.0, 1.0], 0, 1)
    ensures Resolution(m, 1.0, 2.0, plateNumber) != Resolution(m, 3.0, 2.0, plateNumber)
  {
    var k := [1.0, 2.0, 3.0];
    assert CappedDistance(k, 0, 1) == 1.0 && CappedDistance(k, 0, 2) == 2.0 && CappedDistance(k, 1, 2) == 1.0;
    var k' := [3.0, 2.0, 1.0];
    assert CappedDistance(k', 0, 1) == 1.0 && CappedDistance(k', 0, 2) == 2.0 && CappedDistance(k', 1, 2) == 1.0;
    ResolutionClosedForm(m, 1.0, 2.0, plateNumber);
    ResolutionClosedForm(m, 3.0, 2.0, plateNumber);
    var s := m.sqrt(plateNumber as real);
    assert Resolution(m, 1.0, 2.0, plateNumber) == 1.25 * s / 5.0;
    assert Resolution(m, 3.0, 2.0, plateNumber) == 1.25 * s / 7.0;
  }

  /** State of the critical-pair search before pair (i, j): every visited pair
      is at least d away, those visited before (c1, c2) are more than d away,
      and (c1, c2) with d is either a visited pair or the initial (0, 1) with
      double.MaxValue. */
  ghost predicate SearchState(k: seq<real>, i: int, j: int, c1: int, c2: int, d: real)
  {
    && d <= DoubleMax
    && 0 <= c1 < c2
    && (forall a, b :: 0 <= a < b < |k| && Precedes(a, b, i, j) ==> d <= CappedDistance(k, a, b))
    && (forall a, b :: 0 <= a < b < |k| && Precedes(a, b, i, j) && Precedes(a, b, c1, c2) ==> d < CappedDistance(k, a, b))
    && (if c2 < |k| && Precedes(c1, c2, i, j) then d == CappedDistance(k, c1, c2)
        else c1 == 0 && c2 == 1 && d == DoubleMax)
  }

  /** Visiting pair (i, j) keeps the search state: a strictly smaller
      difference replaces the held pair, anything else leaves it. */
  lemma SearchStep(k: seq<real>, i: int, j: int, c1: int, c2: int, d: real)
    requires 0 <= i < j < |k|
    requires SearchState(k, i, j, c1, c2, d)
    ensures Abs(k[i] - k[j]) < d ==> SearchState(k, i, j + 1, i, j, Abs(k[i] - k[j]))
    ensures Abs(k[i] - k[j]) >= d ==> SearchState(k, i, j + 1, c1, c2, d)
  {
    forall a, b | 0 <= a < b < |k|
      ensures Precedes(a, b, i, j + 1) <==> Precedes(a, b, i, j) || (a == i && b == j)
    {
    }
    var e := Abs(k[i] - k[j]);
    if e < d {
      assert CappedDistance(k, i, j) == e;
    } else {
      assert CappedDistance(k, i, j) >= d;
    }
  }

  /** Finishing row i of the search is starting row i + 1. */
  lemma SearchNextRow(k: seq<real>, i: int, c1: int, c2: int, d: real)
    requires 0 <= i < |k|
    requires SearchState(k, i, |k|, c1, c2, d)
    ensures SearchState(k, i + 1, i + 2, c1, c2, d)
  {
    forall a, b | 0 <= a < b < |k|
      ensures Precedes(a, b, i, |k|) <==> Precedes(a, b, i + 1, i + 2)
    {
    }
  }

  /** After the last row, the pair held by the search is the critical pair. */
  lemma SearchComplete(k: seq<real>, c1: int, c2: int, d: real)
    requires |k| >= 2
    requires SearchState(k, |k|, |k| + 1, c1, c2, d)
    ensures IsCriticalPair(k, c1, c2)
  {
    assert Precedes(0, 1, |k|, |k| + 1);
  }

  /** The nested loops of CalculateResolution: with at least two factors the
      pair they leave behind is the critical pair; otherwise no pair is
      visited and the initial (0, 1) remains. */
  method FindCriticalPair(retentionFactors: array<real>) returns (component1: int, component2: int)
    ensures retentionFactors.Length >= 2 ==> IsCriticalPair(retentionFactors[..], component1, component2)
    ensures retentionFactors.Length < 2 ==> component1 == 0 && component2 == 1
  {
    ghost var k := retentionFactors[..];
    var n := retentionFactors.Length;
    var minDifference := DoubleMax;
    component1, component2 := 0, 1;
    var i := 0;
    while i < n
      invariant 0 <= i <= n
      invariant SearchState(k, i, i + 1, component1, component2, minDifference)
    {
      component1, component2, minDifference := ScanRow(retentionFactors, i, component1, component2, minDifference);
      SearchNextRow(k, i, component1, component2, minDifference);
      i := i + 1;
    }
    if n >= 2 {
      SearchComplete(k, component1, component2, minDifference);
    }
  }

  /** The inner loop of the search: compares factor i with every later one,
      taking over a pair only when its difference is strictly smaller. */
  method ScanRow(retentionFactors: array<real>, i: int, c1: int, c2: int, d: real)
    returns (component1: int, component2: int, minDifference: real)
    requires 0 <= i < retentionFactors.Length
    requires SearchState(retentionFactors[..], i, i + 1, c1, c2, d)
    ensures SearchState(retentionFactors[..], i, retentionFactors.Length, component1, component2, minDifference)
  {
    ghost var k := retentionFactors[..];
    component1, component2, minDifference := c1, c2, d;
    var j := i + 1;
    while j < retentionFactors.Length
      invariant i + 1 <= j <= retentionFactors.Length
      invariant SearchState(k, i, j, component1, component2, minDifference)
    {
      var difference := Abs(retentionFactors[i] - retentionFactors[j]);
      SearchStep(k, i, j, component1, component2, minDifference);
      if difference < minDifference {
        minDifference := difference;
        component1, component2 := i, j;
      }
      j := j + 1;
    }
  }

  /** The body of the ComputeRetentionFactors loop for component i at the
      transformed point t: fails when a coefficient is missing, otherwise
      caps logK, exponentiates it and derives the retention time and width. */
  method PredictComponent(m: Maths, values: ParameterValues, i: int, t: (real, real, real))
    returns (found: bool, factor: real, retentionTime: real, width: real)
    requires values.plateNumber != 0
    ensures found <==> HasCoefficients(values, i)
    ensures found ==> (factor, retentionTime, width) == Prediction(m, values, i, t)
  {
    var logK := CalculateLogRetentionFactor(values, i, t.0, t.1, t.2);
    if logK.Failure? {
      return false, 0.0, 0.0, 0.0;
    }
    PredictionFromLogK(m, values, i, t, logK.value);
    var capped := logK.value;
    if capped > m.log(RetentionCap) {
      capped := m.log(RetentionCap);
    }
    factor := m.exp(capped);
    retentionTime := values.deadTimeExperimental * factor + values.deadTimeExperimental;
    width := m.sqrt(2.0 / values.plateNumber as real) * retentionTime / 2.5;
    ghost var predicted := Prediction(m, values, i, t);
    assert factor == predicted.0 && retentionTime == predicted.1 && width == predicted.2;
    found := true;
  }

  /** The loop of ComputeRetentionFactors over a snapshot of the parameters,
      which it only reads. */
  method PredictRetention(m: Maths, values: ParameterValues, componentCount: int, xxx: real, yyy: real, zzz: real)
    returns (ok: bool, retentionFactors: array<real>, retentionTimes: array<real>, peakWidths: array<real>)
    requires m.Valid()
    requires values.plateNumber != 0
    requires TransformDefined(xxx, values.variableTypeX)
    requires TransformDefined(yyy, values.variableTypeY)
    requires TransformDefined(zzz, values.variableTypeZ)
    ensures ok <==> RetentionSucceeds(m, values, componentCount, xxx, yyy, zzz)
    ensures ok ==> fresh(retentionFactors) && fresh(retentionTimes) && fresh(peakWidths)
    ensures ok ==> retentionFactors.Length == componentCount && retentionTimes.Length == componentCount &&
                   peakWidths.Length == componentCount
    ensures ok ==>
      var t := TransformPoint(m, values, xxx, yyy, zzz).value;
      forall i :: 0 <= i < componentCount ==>
        (retentionFactors[i], retentionTimes[i], peakWidths[i]) == Prediction(m, values, i, t)
  {
    if componentCount < 0 {
      ok := false;
      retentionFactors, retentionTimes, peakWidths := new real[0], new real[0], new real[0];
      return;
    }
    retentionFactors := new real[componentCount];
    retentionTimes := new real[componentCount];
    peakWidths := new real[componentCount];

    var transformedX := TransformVariable(m, values, xxx, values.variableTypeX);
    var transformedY := TransformVariable(m, values, yyy, values.variableTypeY);
    var transformedZ := TransformVariable(m, values, zzz, values.variableTypeZ);
    if transformedX.Failure? || transformedY.Failure? || transformedZ.Failure? {
      assert TransformPoint(m, values, xxx, yyy, zzz).Failure?;
      return false, retentionFactors, retentionTimes, peakWidths;
    }
    var t := (transformedX.value, transformedY.value, transformedZ.value);
    assert TransformPoint(m, values, xxx, yyy, zzz) == Success(t);

    for i := 0 to componentCount
      invariant forall c :: 0 <= c < i ==> HasCoefficients(values, c)
      invariant forall c :: 0 <= c < i ==>
        (retentionFactors[c], retentionTimes[c], peakWidths[c]) == Prediction(m, values, c, t)
    {
      var found, factor, retentionTime, width := PredictComponent(m, values, i, t);
      if !found {
        assert !RetentionSucceeds(m, values, componentCount, xxx, yyy, zzz);
        return false, retentionFactors, retentionTimes, peakWidths;
      }
      retentionFactors[i], retentionTimes[i], peakWidths[i] := factor, retentionTime, width;
    }
    assert RetentionSucceeds(m, values, componentCount, xxx, yyy, zzz);
    ok := true;
  }

  /** The linearisation loop: the two-point fit of every component in
      transformed coordinates. The output arrays have values1.Length entries;
      a short values2 array, or a short pKa array on a pH axis, makes the
      call fail. */
  method FitComponents(m: Maths, variableType: int, range1: real, range2: real, pKa: seq<real>,
                       values1: array<real>, values2: array<real>)
    returns (ok: bool, coefficientsA: array<real>, coefficientsB: array<real>)
    requires forall i :: 0 <= i < values1.Length && i < values2.Length ==>
      FitDefined(m, variableType, range1, range2, pKa, i)
    ensures ok <==> values2.Length >= values1.Length && (variableType == 2 ==> |pKa| >= values1.Length)
    ensures ok ==> fresh(coefficientsA) && fresh(coefficientsB)
    ensures ok ==> coefficientsA.Length == values1.Length && coefficientsB.Length == values1.Length
    ensures ok ==> forall i :: 0 <= i < values1.Length ==>
      Line(coefficientsA[i], coefficientsB[i])
        == ComponentLine(m, variableType, range1, range2, pKa, i, values1[i], values2[i])
  {
    var componentCount := values1.Length;
    coefficientsA := new real[componentCount];
    coefficientsB := new real[componentCount];
    for i := 0 to componentCount
      invariant i <= values2.Length && (variableType == 2 ==> i <= |pKa|)
      invariant forall c :: 0 <= c < i ==>
        Line(coefficientsA[c], coefficientsB[c])
          == ComponentLine(m, variableType, range1, range2, pKa, c, values1[c], values2[c])
    {
      if variableType == 2 && i >= |pKa| {
        return false, coefficientsA, coefficientsB;
      }
      // Reading values2[i] throws before the division; a transform of a
      // short row has no observable effect, so this check may come first.
      if i >= values2.Length {
        return false, coefficientsA, coefficientsB;
      }
      var line := ComponentLine(m, variableType, range1, range2, pKa, i, values1[i], values2[i]);
      coefficientsA[i], coefficientsB[i] := line.slope, line.intercept;
    }
    ok := true;
  }

  class MeasurementService {
    const dataModel: DataModel

    constructor (dataModel: DataModel)
      ensures this.dataModel == dataModel
    {
      this.dataModel := dataModel;
    }

    /** Column physics from the current parameters, on a fresh results object. */
    method ComputeParameters() returns (r: Result<CalculationResults>)
      ensures var p := dataModel.parameters;
        r.Success? <==> p.columnLength > 0.0 && p.columnDiameter > 0.0 && p.flowRate > 0.0
      ensures r.Success? ==> fresh(r.value)
      ensures r.Success? ==>
        var p := dataModel.parameters;
        var phys := Physics(p.columnLength, p.columnDiameter, p.flowRate).value;
        && r.value.mobilePhaseVolume == phys.mobilePhaseVolume
        && r.value.deadTime == phys.deadTime
        && r.value.linearVelocity == phys.linearVelocity
    {
      var p := dataModel.parameters;
      if p.columnLength <= 0.0 || p.columnDiameter <= 0.0 || p.flowRate <= 0.0 {
        return Failure;
      }
      var results := new CalculationResults();
      var radius := p.columnDiameter / 2.0;
      var section := Pi * radius;
      ProductPositive(Pi, radius);
      ProductPositive(section, radius);
      var area := Pi * radius * radius;
      assert area == section * radius;
      ProductPositive(area, p.columnLength);
      results.mobilePhaseVolume := area * p.columnLength * Porosity;
      results.deadTime := results.mobilePhaseVolume / p.flowRate;
      results.linearVelocity := p.columnLength / results.deadTime;
      r := Success(results);
    }

    /** Two-point fit of every component in transformed coordinates, over
        the current pKa array (see FitComponents). */
    method ComputeLinearisation(m: Maths, variableType: int, range1: real, range2: real,
                                values1: array<real>, values2: array<real>)
      returns (ok: bool, coefficientsA: array<real>, coefficientsB: array<real>)
      requires forall i :: 0 <= i < values1.Length && i < values2.Length ==>
        FitDefined(m, variableType, range1, range2, dataModel.parameters.pKa, i)
      ensures ok <==> values2.Length >= values1.Length &&
                      (variableType == 2 ==> |dataModel.parameters.pKa| >= values1.Length)
      ensures ok ==> fresh(coefficientsA) && fresh(coefficientsB)
      ensures ok ==> coefficientsA.Length == values1.Length && coefficientsB.Length == values1.Length
      ensures ok ==> forall i :: 0 <= i < values1.Length ==>
        Line(coefficientsA[i], coefficientsB[i])
          == ComponentLine(m, variableType, range1, range2, dataModel.parameters.pKa, i, values1[i], values2[i])
    {
      ok, coefficientsA, coefficientsB :=
        FitComponents(m, variableType, range1, range2, dataModel.parameters.pKa, values1, values2);
    }

    /** Retention factor, retention time and peak width of every component
        at the operating point (xxx, yyy, zzz). */
    method ComputeRetentionFactors(m: Maths, componentCount: int, xxx: real, yyy: real, zzz: real)
      returns (ok: bool, retentionFactors: array<real>, retentionTimes: array<real>, peakWidths: array<real>)
      requires m.Valid()
      requires dataModel.parameters.plateNumber != 0
      requires TransformDefined(xxx, dataModel.parameters.variableTypeX)
      requires TransformDefined(yyy, dataModel.parameters.variableTypeY)
      requires TransformDefined(zzz, dataModel.parameters.variableTypeZ)
      ensures ok <==> RetentionSucceeds(m, dataModel.parameters.Values(), componentCount, xxx, yyy, zzz)
      ensures ok ==> fresh(retentionFactors) && fresh(retentionTimes) && fresh(peakWidths)
      ensures ok ==> retentionFactors.Length == componentCount && retentionTimes.Length == componentCount &&
                     peakWidths.Length == componentCount
      ensures ok ==>
        var p := dataModel.parameters.Values();
        var t := TransformPoint(m, p, xxx, yyy, zzz).value;
        forall i :: 0 <= i < componentCount ==>
          (retentionFactors[i], retentionTimes[i], peakWidths[i]) == Prediction(m, p, i, t)
    {
      ok, retentionFactors, retentionTimes, peakWidths :=
        PredictRetention(m, dataModel.parameters.Values(), componentCount, xxx, yyy, zzz);
    }

    /** Resolution of the critical pair: the first pair i < j (in loop order)
        with the smallest |k_i - k_j|. Fewer than two factors make the call
        fail. */
    method CalculateResolution(m: Maths, retentionFactors: array<real>, plateNumber: int) returns (r: Result<real>)
      requires forall c1, c2 :: IsCriticalPair(retentionFactors[..], c1, c2) ==>
        ResolutionDefined(retentionFactors[c1], retentionFactors[c2])
      ensures r.Success? <==> retentionFactors.Length >= 2
      ensures r.Success? ==>
        (exists c1, c2 :: IsCriticalPair(retentionFactors[..], c1, c2) &&
           r.value == Resolution(m, retentionFactors[c1], retentionFactors[c2], plateNumber))
    {
      var component1, component2 := FindCriticalPair(retentionFactors);
      if retentionFactors.Length < 2 {
        return Failure;
      }

      var k1 := retentionFactors[component1];
      var k2 := retentionFactors[component2];
      if k1 > k2 {
        var temp := k1;
        k1 := k2;
        k2 := temp;
      }
      var alpha := k2 / k1;
      var resolution := (m.sqrt(plateNumber as real) / 2.0) * (alpha - 1.0) * (k1 / (k1 + k2 + 2.0));
      r := Success(resolution * 2.5);
    }
  }
}
