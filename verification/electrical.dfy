/**
 * The three-phase current calculator: line current from active power,
 * line-to-line voltage and power factor, I = P·1000 / (√3·V·FP).
 *
 * Floats are exact reals here. The value of √3, which the calculator takes
 * from Python's math library, is a parameter `sqrt3`; every result below
 * holds for any positive value of it, the library's double among them.
 */
module Electrical {
  import opened Wrappers
  import opened Validation
  import opened PyArith

  datatype ThreePhaseField = PowerKw | VoltageV | PowerFactor

  /** The power factor taken when a body leaves it out. */
  const DEFAULT_POWER_FACTOR: real := 0.8

  const W_PER_KW: real := 1000.0

  /** A three-phase current body as received; None marks an omitted field. */
  datatype ThreePhaseBody = ThreePhaseBody(power_kw: Option<real>, voltage_v: Option<real>, power_factor: Option<real>)

  /** A three-phase current request after validation. */
  datatype ThreePhaseCurrentRequest = ThreePhaseCurrentRequest(power_kw: real, voltage_v: real, power_factor: real)
  {
    /** Power and voltage are declared with `gt=0`, the power factor with
        `ge=0, le=1`. */
    predicate Valid()
    {
      power_kw > 0.0 && voltage_v > 0.0 && 0.0 <= power_factor <= 1.0
    }
  }

  datatype ThreePhaseCurrentResponse = ThreePhaseCurrentResponse(current_a: real, power_kw: real, voltage_v: real, power_factor: real)

  /** Validation of a body as the request model declares it: accepted exactly
      when power and voltage are present and positive and the power factor
      is omitted or within [0, 1]. The values are taken over as sent, and an
      omitted power factor becomes 0.8. Otherwise every offending field is
      reported. */
  function ValidateThreePhase(body: ThreePhaseBody): (r: Result<ThreePhaseCurrentRequest, seq<FieldError<ThreePhaseField>>>)
    ensures r.Ok? <==> Gt(body.power_kw, 0.0) && Gt(body.voltage_v, 0.0) && GeLe(body.power_factor, 0.0, 1.0)
    ensures r.Ok? ==> r.value.Valid()
    ensures r.Ok? ==> body.power_kw == Some(r.value.power_kw) && body.voltage_v == Some(r.value.voltage_v)
    ensures r.Ok? ==> r.value.power_factor == if body.power_factor.None? then DEFAULT_POWER_FACTOR else body.power_factor.value
    ensures r.Err? ==> r.error != []
    ensures r.Err? ==> (PowerKw in Locs(r.error) <==> !Gt(body.power_kw, 0.0))
    ensures r.Err? ==> (VoltageV in Locs(r.error) <==> !Gt(body.voltage_v, 0.0))
    ensures r.Err? ==> (PowerFactor in Locs(r.error) <==> !GeLe(body.power_factor, 0.0, 1.0))
  {
    var errs := CheckGt(PowerKw, body.power_kw, 0.0)
              + CheckGt(VoltageV, body.voltage_v, 0.0)
              + CheckGeLe(PowerFactor, body.power_factor, 0.0, 1.0);
    if errs == [] then
      Ok(ThreePhaseCurrentRequest(body.power_kw.value, body.voltage_v.value, ValueOr(body.power_factor, DEFAULT_POWER_FACTOR)))
    else Err(errs)
  }

  /** The handler: the divisor √3·V·FP is zero exactly when the voltage or
      the power factor is, and then the division fails. Otherwise the
      current satisfies the three-phase power law P = √3·V·I·FP (P in W),
      and the inputs come back unchanged. */
  function CalculateThreePhaseCurrent(body: ThreePhaseCurrentRequest, sqrt3: real): (r: Result<ThreePhaseCurrentResponse, ArithError>)
    requires sqrt3 > 0.0
    ensures r.Ok? <==> body.voltage_v != 0.0 && body.power_factor != 0.0
    ensures r.Ok? ==> r.value.current_a * (sqrt3 * body.voltage_v * body.power_factor) == body.power_kw * W_PER_KW
    ensures r.Ok? ==> r.value.power_kw == body.power_kw && r.value.voltage_v == body.voltage_v
                      && r.value.power_factor == body.power_factor
  {
    var divisor := sqrt3 * body.voltage_v * body.power_factor;
    assert divisor == 0.0 <==> body.voltage_v == 0.0 || body.power_factor == 0.0;
    match Div(body.power_kw * W_PER_KW, divisor)
    case Err(e) => Err(e)
    case Ok(current_a) => Ok(ThreePhaseCurrentResponse(current_a, body.power_kw, body.voltage_v, body.power_factor))
  }

  /** On a validated request the handler fails exactly when the power factor
      is 0, which validation does not rule out; in every other case the
      current is strictly positive and equals P·1000/(√3·V·FP). */
  lemma ValidCurrent(body: ThreePhaseCurrentRequest, sqrt3: real)
    requires sqrt3 > 0.0 && body.Valid()
    ensures CalculateThreePhaseCurrent(body, sqrt3).Err? <==> body.power_factor == 0.0
    ensures CalculateThreePhaseCurrent(body, sqrt3).Ok? ==>
              CalculateThreePhaseCurrent(body, sqrt3).value.current_a > 0.0
    ensures CalculateThreePhaseCurrent(body, sqrt3).Ok? ==>
              CalculateThreePhaseCurrent(body, sqrt3).value.current_a
              == body.power_kw * W_PER_KW / (sqrt3 * body.voltage_v * body.power_factor)
  {
  }

  /** The body {power_kw: 10, voltage_v: 380, power_factor: 0} passes
      validation, and the handler then divides by zero. */
  lemma ZeroPowerFactorPassesValidationAndFails(sqrt3: real)
    requires sqrt3 > 0.0
    ensures var r := ValidateThreePhase(ThreePhaseBody(Some(10.0), Some(380.0), Some(0.0)));
            r.Ok? && CalculateThreePhaseCurrent(r.value, sqrt3) == Err(ZeroDivisionError)
  {
  }

  /** The whole endpoint as written: a body is rejected exactly when it
      breaks a declared constraint; a body that passes fails in the handler
      exactly when it sends a power factor of 0; otherwise it yields a
      positive current with power, voltage and power factor echoed. */
  function PostThreePhaseCurrent(body: ThreePhaseBody, sqrt3: real): (r: Outcome<ThreePhaseCurrentResponse, ThreePhaseField>)
    requires sqrt3 > 0.0
    ensures r.Rejected? <==> !(Gt(body.power_kw, 0.0) && Gt(body.voltage_v, 0.0) && GeLe(body.power_factor, 0.0, 1.0))
    ensures r.Crashed? <==> Gt(body.power_kw, 0.0) && Gt(body.voltage_v, 0.0) && body.power_factor == Some(0.0)
    ensures r.Computed? ==> r.response.current_a > 0.0
    ensures r.Computed? ==> r.response.current_a * (sqrt3 * r.response.voltage_v * r.response.power_factor) == r.response.power_kw * W_PER_KW
    ensures r.Computed? ==> body.power_kw == Some(r.response.power_kw) && body.voltage_v == Some(r.response.voltage_v)
    ensures r.Computed? ==> r.response.power_factor == ValueOr(body.power_factor, DEFAULT_POWER_FACTOR)
  {
    match ValidateThreePhase(body)
    case Err(errs) => Rejected(errs)
    case Ok(req) =>
      ValidCurrent(req, sqrt3);
      match CalculateThreePhaseCurrent(req, sqrt3)
      case Err(e) => Crashed(e)
      case Ok(resp) => Computed(resp)
  }

  // ---------------------------------------------------------------------
  // Corrected validation: a power factor must be above 0
  // ---------------------------------------------------------------------

  /** Validation with the power factor declared `gt=0, le=1` instead of
      `ge=0, le=1`: it accepts exactly what the declared validation accepts
      except a power factor of 0, which it reports. */
  function ValidateThreePhaseStrict(body: ThreePhaseBody): (r: Result<ThreePhaseCurrentRequest, seq<FieldError<ThreePhaseField>>>)
    ensures r.Ok? <==> ValidateThreePhase(body).Ok? && body.power_factor != Some(0.0)
    ensures r.Ok? ==> r == ValidateThreePhase(body) && r.value.power_factor > 0.0
    ensures r.Err? ==> r.error != []
    ensures r.Err? ==> (PowerKw in Locs(r.error) <==> !Gt(body.power_kw, 0.0))
    ensures r.Err? ==> (VoltageV in Locs(r.error) <==> !Gt(body.voltage_v, 0.0))
    ensures r.Err? ==> (PowerFactor in Locs(r.error) <==> !GtLe(body.power_factor, 0.0, 1.0))
  {
    var errs := CheckGt(PowerKw, body.power_kw, 0.0)
              + CheckGt(VoltageV, body.voltage_v, 0.0)
              + CheckGtLe(PowerFactor, body.power_factor, 0.0, 1.0);
    if errs == [] then
      Ok(ThreePhaseCurrentRequest(body.power_kw.value, body.voltage_v.value, ValueOr(body.power_factor, DEFAULT_POWER_FACTOR)))
    else Err(errs)
  }

  /** The endpoint with the corrected validation: a body is rejected exactly
      when it breaks a constraint, the handler never fails, and every answer
      carries a positive current satisfying the three-phase power law. */
  function PostThreePhaseCurrentStrict(body: ThreePhaseBody, sqrt3: real): (r: Outcome<ThreePhaseCurrentResponse, ThreePhaseField>)
    requires sqrt3 > 0.0
    ensures r.Rejected? <==> !(Gt(body.power_kw, 0.0) && Gt(body.voltage_v, 0.0) && GtLe(body.power_factor, 0.0, 1.0))
    ensures !r.Crashed?
    ensures r.Computed? ==> r.response.current_a > 0.0
    ensures r.Computed? ==> r.response.current_a * (sqrt3 * r.response.voltage_v * r.response.power_factor) == r.response.power_kw * W_PER_KW
    ensures r.Computed? ==> body.power_kw == Some(r.response.power_kw) && body.voltage_v == Some(r.response.voltage_v)
    ensures r.Computed? ==> r.response.power_factor == ValueOr(body.power_factor, DEFAULT_POWER_FACTOR)
  {
    match ValidateThreePhaseStrict(body)
    case Err(errs) => Rejected(errs)
    case Ok(req) =>
      ValidCurrent(req, sqrt3);
      match CalculateThreePhaseCurrent(req, sqrt3)
      case Err(e) => Crashed(e)
      case Ok(resp) => Computed(resp)
  }
}
