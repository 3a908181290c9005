/**
 * The configuration object of the optimiser (Parameters), the result holder
 * (CalculationResults), the container tying the two together (DataModel), the
 * variable-type enumeration and the experimental data record.
 *
 * Property-change notification is not modelled. The double[] properties are
 * `seq<real>` fields: the engine never writes into them, it only reads them,
 * and callers replace them through their setters.
 */
module Model {
  import opened Numerics

  /** The nine controllable variables and their numeric codes. */
  datatype VariableType =
    | Temperature | PH | GradientTime | FlowRate | IonicStrength
    | GradientSlope | TemperatureGradientSlope | FlowRateGradientSlope | PercentB
  {
    function Code(): (c: int)
      ensures 1 <= c <= 9
    {
      match this
      case Temperature => 1
      case PH => 2
      case GradientTime => 3
      case FlowRate => 4
      case IonicStrength => 5
      case GradientSlope => 6
      case TemperatureGradientSlope => 7
      case FlowRateGradientSlope => 8
      case PercentB => 9
    }
  }

  /** The enumeration member with a given code, if there is one. */
  function VariableTypeOf(code: int): (r: Result<VariableType>)
    ensures r.Success? <==> 1 <= code <= 9
    ensures r.Success? ==> r.value.Code() == code
  {
    match code
    case 1 => Success(Temperature)
    case 2 => Success(PH)
    case 3 => Success(GradientTime)
    case 4 => Success(FlowRate)
    case 5 => Success(IonicStrength)
    case 6 => Success(GradientSlope)
    case 7 => Success(TemperatureGradientSlope)
    case 8 => Success(FlowRateGradientSlope)
    case 9 => Success(PercentB)
    case _ => Failure
  }

  /** Distinct members have distinct codes, so the code identifies the member. */
  lemma CodeRoundTrip(t: VariableType)
    ensures VariableTypeOf(t.Code()) == Success(t)
  {
  }

  /** A snapshot of every field of a Parameters object. */
  datatype ParameterValues = ParameterValues(
    columnLength: real,
    columnDiameter: real,
    flowRate: real,
    particleDiameter: real,
    plateNumber: int,
    flowRateReference: real,
    deadTimeExperimental: real,
    numberOfVariables: int,
    numberOfComponents: int,
    variableTypeX: int,
    variableTypeY: int,
    variableTypeZ: int,
    xMin: real, xMax: real,
    yMin: real, yMax: real,
    zMin: real, zMax: real,
    coefficientsA1: seq<real>,
    coefficientsB1: seq<real>,
    coefficientsAA1: seq<real>,
    coefficientsAB1: seq<real>,
    coefficientsBA1: seq<real>,
    coefficientsB2: seq<real>,
    coefficientsAAA: seq<real>,
    coefficientsAAB: seq<real>,
    coefficientsBAA: seq<real>,
    coefficientsBAB: seq<real>,
    coefficientsABA: seq<real>,
    coefficientsABB: seq<real>,
    coefficientsB3: seq<real>,
    pKa: seq<real>,
    componentIntensities: seq<real>)

  /** Every per-component array starts as a zeroed array of 13 entries. */
  const DefaultComponents: int := 13

  function Zeros(n: nat): (s: seq<real>)
    ensures |s| == n && forall k :: 0 <= k < n ==> s[k] == 0.0
  {
    seq(n, _ => 0.0)
  }

  /** The field initialisers of Parameters. */
  function Defaults(): ParameterValues
  {
    var z := Zeros(DefaultComponents);
    ParameterValues(
      25.0, 0.46, 1.0, 5.0, 32000, 1.0, 0.0, 3, 13,
      3, 1, 9,
      30.0, 90.0, 30.0, 60.0, 0.0, 100.0,
      z, z, z, z, z, z, z, z, z, z, z, z, z, z, z)
  }

  /** What the guarded setters enforce: seven fields must be positive, the
      experimental dead time must not be negative and the number of variables
      must be 1, 2 or 3. Nothing ties the array lengths to the number of
      components. */
  predicate GuardsHold(v: ParameterValues)
  {
    v.columnLength > 0.0 && v.columnDiameter > 0.0 && v.flowRate > 0.0 &&
    v.particleDiameter > 0.0 && v.plateNumber > 0 && v.flowRateReference > 0.0 &&
    v.deadTimeExperimental >= 0.0 &&
    1 <= v.numberOfVariables <= 3 &&
    v.numberOfComponents > 0
  }

  /** Every per-component array of v holds n entries. */
  predicate ArraysHaveLength(v: ParameterValues, n: int)
  {
    && |v.coefficientsA1| == n && |v.coefficientsB1| == n
    && |v.coefficientsAA1| == n && |v.coefficientsAB1| == n && |v.coefficientsBA1| == n
    && |v.coefficientsB2| == n
    && |v.coefficientsAAA| == n && |v.coefficientsAAB| == n && |v.coefficientsBAA| == n
    && |v.coefficientsBAB| == n && |v.coefficientsABA| == n && |v.coefficientsABB| == n
    && |v.coefficientsB3| == n
    && |v.pKa| == n && |v.componentIntensities| == n
  }

  /** The initial values pass every guard, and every array has as many
      entries as the initial number of components, 13. */
  lemma DefaultsSatisfyGuards()
    ensures GuardsHold(Defaults())
    ensures Defaults().numberOfComponents == DefaultComponents
    ensures ArraysHaveLength(Defaults(), Defaults().numberOfComponents)
  {
  }

  class Parameters {
    var columnLength: real
    var columnDiameter: real
    var flowRate: real
    var particleDiameter: real
    var plateNumber: int
    var flowRateReference: real
    var deadTimeExperimental: real
    var numberOfVariables: int
    var numberOfComponents: int

    // Unvalidated auto-properties: any value is accepted.
    var variableTypeX: int
    var variableTypeY: int
    var variableTypeZ: int
    var xMin: real
    var xMax: real
    var yMin: real
    var yMax: real
    var zMin: real
    var zMax: real
    var coefficientsA1: seq<real>
    var coefficientsB1: seq<real>
    var coefficientsAA1: seq<real>
    var coefficientsAB1: seq<real>
    var coefficientsBA1: seq<real>
    var coefficientsB2: seq<real>
    var coefficientsAAA: seq<real>
    var coefficientsAAB: seq<real>
    var coefficientsBAA: seq<real>
    var coefficientsBAB: seq<real>
    var coefficientsABA: seq<real>
    var coefficientsABB: seq<real>
    var coefficientsB3: seq<real>
    var pKa: seq<real>
    var componentIntensities: seq<real>

    function Values(): ParameterValues
      reads this
    {
      ParameterValues(
        columnLength, columnDiameter, flowRate, particleDiameter, plateNumber,
        flowRateReference, deadTimeExperimental, numberOfVariables, numberOfComponents,
        variableTypeX, variableTypeY, variableTypeZ,
        xMin, xMax, yMin, yMax, zMin, zMax,
        coefficientsA1, coefficientsB1,
        coefficientsAA1, coefficientsAB1, coefficientsBA1, coefficientsB2,
        coefficientsAAA, coefficientsAAB, coefficientsBAA, coefficientsBAB,
        coefficientsABA, coefficientsABB, coefficientsB3,
        pKa, componentIntensities)
    }

    /** The object invariant: the setters' guards hold of the current fields. */
    predicate Valid()
      reads this
    {
      GuardsHold(Values())
    }

    constructor ()
      ensures Values() == Defaults()
      ensures Valid()
    {
      var z := Zeros(DefaultComponents);
      columnLength, columnDiameter, flowRate, particleDiameter := 25.0, 0.46, 1.0, 5.0;
      plateNumber, flowRateReference, deadTimeExperimental := 32000, 1.0, 0.0;
      numberOfVariables, numberOfComponents := 3, 13;
      variableTypeX, variableTypeY, variableTypeZ := 3, 1, 9;
      xMin, xMax, yMin, yMax, zMin, zMax := 30.0, 90.0, 30.0, 60.0, 0.0, 100.0;
      coefficientsA1, coefficientsB1 := z, z;
      coefficientsAA1, coefficientsAB1, coefficientsBA1, coefficientsB2 := z, z, z, z;
      coefficientsAAA, coefficientsAAB, coefficientsBAA, coefficientsBAB := z, z, z, z;
      coefficientsABA, coefficientsABB, coefficientsB3 := z, z, z;
      pKa, componentIntensities := z, z;
    }

    /** Setter of ColumnLength: rejects a non-positive length and leaves every field as it was. */
    method SetColumnLength(value: real) returns (ok: bool)
      requires Valid()
      modifies this
      ensures Valid()
      ensures ok <==> value > 0.0
      ensures Values() == if ok then old(Values()).(columnLength := value) else old(Values())
    {
      ok := value > 0.0;
      if ok { columnLength := value; }
    }

    method SetColumnDiameter(value: real) returns (ok: bool)
      requires Valid()
      modifies this
      ensures Valid()
      ensures ok <==> value > 0.0
      ensures Values() == if ok then old(Values()).(columnDiameter := value) else old(Values())
    {
      ok := value > 0.0;
      if ok { columnDiameter := value; }
    }

    method SetFlowRate(value: real) returns (ok: bool)
      requires Valid()
      modifies this
      ensures Valid()
      ensures ok <==> value > 0.0
      ensures Values() == if ok then old(Values()).(flowRate := value) else old(Values())
    {
      ok := value > 0.0;
      if ok { flowRate := value; }
    }

    method SetParticleDiameter(value: real) returns (ok: bool)
      requires Valid()
      modifies this
      ensures Valid()
      ensures ok <==> value > 0.0
      ensures Values() == if ok then old(Values()).(particleDiameter := value) else old(Values())
    {
      ok := value > 0.0;
      if ok { particleDiameter := value; }
    }

    method SetPlateNumber(value: int) returns (ok: bool)
      requires Valid()
      modifies this
      ensures Valid()
      ensures ok <==> value > 0
      ensures Values() == if ok then old(Values()).(plateNumber := value) else old(Values())
    {
      ok := value > 0;
      if ok { plateNumber := value; }
    }

    method SetFlowRateReference(value: real) returns (ok: bool)
      requires Valid()
      modifies this
      ensures Valid()
      ensures ok <==> value > 0.0
      ensures Values() == if ok then old(Values()).(flowRateReference := value) else old(Values())
    {
      ok := value > 0.0;
      if ok { flowRateReference := value; }
    }

    /** Unlike the other numeric guards, zero is accepted here. */
    method SetDeadTimeExperimental(value: real) returns (ok: bool)
      requires Valid()
      modifies this
      ensures Valid()
      ensures ok <==> value >= 0.0
      ensures Values() == if ok then old(Values()).(deadTimeExperimental := value) else old(Values())
    {
      ok := value >= 0.0;
      if ok { deadTimeExperimental := value; }
    }

    method SetNumberOfVariables(value: int) returns (ok: bool)
      requires Valid()
      modifies this
      ensures Valid()
      ensures ok <==> 1 <= value <= 3
      ensures Values() == if ok then old(Values()).(numberOfVariables := value) else old(Values())
    {
      ok := !(value < 1 || value > 3);
      if ok { numberOfVariables := value; }
    }

    /** The per-component arrays keep their lengths whatever count is set. */
    method SetNumberOfComponents(value: int) returns (ok: bool)
      requires Valid()
      modifies this
      ensures Valid()
      ensures ok <==> value > 0
      ensures Values() == if ok then old(Values()).(numberOfComponents := value) else old(Values())
    {
      ok := value > 0;
      if ok { numberOfComponents := value; }
    }
  }

  /** The number of components and the length of the coefficient arrays can
      disagree: after the constructor and one accepted setter call, five
      components are configured while every array still holds 13 entries. */
  method ComponentCountIsNotEnforced() returns (p: Parameters)
    ensures p.Valid()
    ensures p.numberOfComponents == 5
    ensures ArraysHaveLength(p.Values(), DefaultComponents)
  {
    p := new Parameters();
    var ok := p.SetNumberOfComponents(5);
  }

  class CalculationResults {
    var mobilePhaseVolume: real
    var deadTime: real
    var linearVelocity: real
    var maxResolution: real
    var minResolution: real
    var currentResolution: real
    var retentionFactors: seq<real>
    var retentionTimes: seq<real>
    var peakWidths: seq<real>
    var currentX: real
    var currentY: real
    var currentZ: real
    var optimalX: real
    var optimalY: real
    var optimalZ: real

    constructor ()
      ensures mobilePhaseVolume == 0.0 && deadTime == 0.0 && linearVelocity == 0.0
      ensures maxResolution == 0.0 && minResolution == 0.0 && currentResolution == 0.0
      ensures retentionFactors == Zeros(DefaultComponents)
      ensures retentionTimes == Zeros(DefaultComponents)
      ensures peakWidths == Zeros(DefaultComponents)
      ensures currentX == 0.0 && currentY == 0.0 && currentZ == 0.0
      ensures optimalX == 0.0 && optimalY == 0.0 && optimalZ == 0.0
    {
      mobilePhaseVolume, deadTime, linearVelocity := 0.0, 0.0, 0.0;
      maxResolution, minResolution, currentResolution := 0.0, 0.0, 0.0;
      retentionFactors := Zeros(DefaultComponents);
      retentionTimes := Zeros(DefaultComponents);
      peakWidths := Zeros(DefaultComponents);
      currentX, currentY, currentZ := 0.0, 0.0, 0.0;
      optimalX, optimalY, optimalZ := 0.0, 0.0, 0.0;
    }
  }

  /** Owner of the current parameters and results. */
  class DataModel {
    var parameters: Parameters
    var results: CalculationResults

    constructor ()
      ensures fresh(parameters) && fresh(results)
      ensures parameters.Values() == Defaults() && parameters.Valid()
    {
      parameters := new Parameters();
      results := new CalculationResults();
    }
  }

  /** Retention times measured at one operating point. */
  class ExperimentalData {
    var retentionTimes: seq<real>
    var x: real
    var y: real
    var z: real

    constructor (componentCount: nat)
      ensures retentionTimes == Zeros(componentCount)
      ensures x == 0.0 && y == 0.0 && z == 0.0
    {
      retentionTimes := Zeros(componentCount);
      x, y, z := 0.0, 0.0, 0.0;
    }
  }
}
