/**
 * The pipe-flow calculators: mean velocity in a pipe from volumetric flow and
 * inner diameter, and the Reynolds number with its flow regime.
 *
 * Floats are exact reals here. The value of pi, which the calculator takes
 * from Python's math library, is a parameter `pi`; every result below holds
 * for any positive value of it, the library's double among them.
 */
module Flow {
  import opened Wrappers
  import opened Validation
  import opened PyArith

  /** The fields of the two flow request models, for error reports. */
  datatype FlowField = FlowM3H | DiameterMm | VelocityMS | KinematicViscosity

  // ---------------------------------------------------------------------
  // Units
  // ---------------------------------------------------------------------

  const SECONDS_PER_HOUR: real := 3600.0
  const MM_PER_M: real := 1000.0

  /** Flow in m³/s from flow in m³/h. */
  function FlowM3S(flow_m3_h: real): (q: real)
    ensures q * SECONDS_PER_HOUR == flow_m3_h
    ensures q > 0.0 <==> flow_m3_h > 0.0
  {
    flow_m3_h / SECONDS_PER_HOUR
  }

  /** Diameter in m from diameter in mm. */
  function DiameterM(diameter_mm: real): (d: real)
    ensures d * MM_PER_M == diameter_mm
    ensures d > 0.0 <==> diameter_mm > 0.0
  {
    diameter_mm / MM_PER_M
  }

  /** Python's `x**2` on a float. */
  function Square(x: real): real
  {
    x * x
  }

  /** Cross-section of a pipe of diameter d: pi·d²/4. Strict positivity
      for a nonzero d is AreaPositive. */
  function Area(pi: real, d: real): (a: real)
    requires pi > 0.0
    ensures a >= 0.0
  {
    pi * Square(d) / 4.0
  }

  /** The cross-section is never negative, and it is strictly positive
      exactly when the diameter is nonzero: only a zero diameter can make
      the velocity's division fail. */
  lemma AreaPositive(pi: real, d: real)
    requires pi > 0.0
    ensures Area(pi, d) >= 0.0
    ensures Area(pi, d) > 0.0 <==> d != 0.0
  {
    if d != 0.0 {
      // d² over d gives back d, which rules out d² = 0.
      assert Square(d) / d == d;
    }
  }

  // ---------------------------------------------------------------------
  // POST /flow/velocity
  // ---------------------------------------------------------------------

  /** A velocity request body as received; None marks an omitted field. */
  datatype VelocityBody = VelocityBody(flow_m3_h: Option<real>, diameter_mm: Option<real>)

  /** A velocity request after validation. */
  datatype VelocityRequest = VelocityRequest(flow_m3_h: real, diameter_mm: real)
  {
    /** Both fields are declared with `gt=0`. */
    predicate Valid()
    {
      flow_m3_h > 0.0 && diameter_mm > 0.0
    }
  }

  datatype VelocityResponse = VelocityResponse(velocity_m_s: real, flow_m3_h: real, diameter_mm: real)

  /** Validation of a velocity body: accepted exactly when both fields are
      present and positive, with the values taken over as sent; otherwise
      every offending field is reported. */
  function ValidateVelocity(body: VelocityBody): (r: Result<VelocityRequest, seq<FieldError<FlowField>>>)
    ensures r.Ok? <==> Gt(body.flow_m3_h, 0.0) && Gt(body.diameter_mm, 0.0)
    ensures r.Ok? ==> r.value.Valid()
    ensures r.Ok? ==> body.flow_m3_h == Some(r.value.flow_m3_h) && body.diameter_mm == Some(r.value.diameter_mm)
    ensures r.Err? ==> r.error != []
    ensures r.Err? ==> Locs(r.error) <= {FlowM3H, DiameterMm}
    ensures r.Err? ==> (FlowM3H in Locs(r.error) <==> !Gt(body.flow_m3_h, 0.0))
    ensures r.Err? ==> (DiameterMm in Locs(r.error) <==> !Gt(body.diameter_mm, 0.0))
  {
    var errs := CheckGt(FlowM3H, body.flow_m3_h, 0.0) + CheckGt(DiameterMm, body.diameter_mm, 0.0);
    if errs == [] then Ok(VelocityRequest(body.flow_m3_h.value, body.diameter_mm.value))
    else Err(errs)
  }

  /** The velocity handler: converts the units, takes the cross-section and
      divides. The division fails only on a zero diameter; otherwise the
      result satisfies the continuity equation Q = v·A in SI units and the
      inputs come back unchanged. */
  function CalculateVelocity(body: VelocityRequest, pi: real): (r: Result<VelocityResponse, ArithError>)
    requires pi > 0.0
    ensures r.Ok? <==> body.diameter_mm != 0.0
    ensures r.Ok? ==> r.value.flow_m3_h == body.flow_m3_h && r.value.diameter_mm == body.diameter_mm
    ensures r.Ok? ==> r.value.velocity_m_s * Area(pi, DiameterM(body.diameter_mm)) == FlowM3S(body.flow_m3_h)
  {
    var flow_m3_s := FlowM3S(body.flow_m3_h);
    var diameter_m := DiameterM(body.diameter_mm);
    var area := Area(pi, diameter_m);
    AreaPositive(pi, diameter_m);
    match Div(flow_m3_s, area)
    case Err(e) => Err(e)
    case Ok(velocity) => Ok(VelocityResponse(velocity, body.flow_m3_h, body.diameter_mm))
  }

  /** On a validated request the division is defined and the velocity is
      strictly positive. */
  lemma ValidVelocityIsPositive(body: VelocityRequest, pi: real)
    requires pi > 0.0 && body.Valid()
    ensures CalculateVelocity(body, pi).Ok?
    ensures CalculateVelocity(body, pi).value.velocity_m_s > 0.0
  {
  }

  /** The velocity in closed form over the request's own units:
      v = (Q/3600) / (pi·(D/1000)²/4) = 10000·Q / (9·pi·D²). */
  lemma VelocityClosedForm(body: VelocityRequest, pi: real)
    requires pi > 0.0 && body.Valid()
    ensures CalculateVelocity(body, pi).Ok?
    ensures CalculateVelocity(body, pi).value.velocity_m_s
            == 10000.0 * body.flow_m3_h / (9.0 * pi * body.diameter_mm * body.diameter_mm)
  {
  }

  /** The whole endpoint: validation, then the handler. A body is rejected
      exactly when a field is missing or not positive; a body that passes
      never fails in the handler and yields a positive velocity with its
      inputs echoed as sent. */
  function PostVelocity(body: VelocityBody, pi: real): (r: Outcome<VelocityResponse, FlowField>)
    requires pi > 0.0
    ensures r.Rejected? <==> !(Gt(body.flow_m3_h, 0.0) && Gt(body.diameter_mm, 0.0))
    ensures !r.Crashed?
    ensures r.Computed? ==> r.response.velocity_m_s > 0.0
    ensures r.Computed? ==> body.flow_m3_h == Some(r.response.flow_m3_h) && body.diameter_mm == Some(r.response.diameter_mm)
    ensures r.Computed? ==>
              r.response.velocity_m_s * Area(pi, DiameterM(r.response.diameter_mm)) == FlowM3S(r.response.flow_m3_h)
  {
    match ValidateVelocity(body)
    case Err(errs) => Rejected(errs)
    case Ok(req) =>
      ValidVelocityIsPositive(req, pi);
      match CalculateVelocity(req, pi)
      case Err(e) => Crashed(e)
      case Ok(resp) => Computed(resp)
  }

  // ---------------------------------------------------------------------
  // POST /flow/reynolds
  // ---------------------------------------------------------------------

  /** The flow regime; the response carries its Portuguese name. */
  datatype Regime = Laminar | Transicao | Turbulento

  const LAMINAR_BELOW: real := 2300.0
  const TURBULENT_FROM: real := 4000.0

  /** The regime of a Reynolds number: the thresholds split the line into
      three half-open intervals, each boundary value belonging to the regime
      above it. */
  function Classify(re: real): (g: Regime)
    ensures g == Laminar <==> re < LAMINAR_BELOW
    ensures g == Transicao <==> LAMINAR_BELOW <= re < TURBULENT_FROM
    ensures g == Turbulento <==> TURBULENT_FROM <= re
  {
    if re < LAMINAR_BELOW then Laminar
    else if re < TURBULENT_FROM then Transicao
    else Turbulento
  }

  /** The name the response gives a regime. */
  function Label(g: Regime): (s: string)
    ensures s == "laminar" <==> g == Laminar
    ensures s == "transição" <==> g == Transicao
    ensures s == "turbulento" <==> g == Turbulento
  {
    match g
    case Laminar => "laminar"
    case Transicao => "transição"
    case Turbulento => "turbulento"
  }

  /** The order laminar < transição < turbulento. */
  function Rank(g: Regime): nat
  {
    match g
    case Laminar => 0
    case Transicao => 1
    case Turbulento => 2
  }

  /** Distinct regimes have distinct names, so the name in a response
      identifies the regime. */
  lemma LabelInjective(g: Regime, h: Regime)
    ensures Label(g) == Label(h) <==> g == h
  {
  }

  /** The thresholds are exact: a value on a boundary takes the upper regime. */
  lemma ClassifyBoundaries()
    ensures Classify(2299.999) == Laminar
    ensures Classify(2300.0) == Transicao
    ensures Classify(3999.999) == Transicao
    ensures Classify(4000.0) == Turbulento
  {
  }

  /** A larger Reynolds number never gives a lower regime. */
  lemma ClassifyMonotone(re1: real, re2: real)
    requires re1 <= re2
    ensures Rank(Classify(re1)) <= Rank(Classify(re2))
  {
  }

  /** A Reynolds request body as received; None marks an omitted field. */
  datatype ReynoldsBody = ReynoldsBody(velocity_m_s: Option<real>, diameter_mm: Option<real>, kinematic_viscosity_m2_s: Option<real>)

  /** A Reynolds request after validation. */
  datatype ReynoldsRequest = ReynoldsRequest(velocity_m_s: real, diameter_mm: real, kinematic_viscosity_m2_s: real)
  {
    /** All three fields are declared with `gt=0`. */
    predicate Valid()
    {
      velocity_m_s > 0.0 && diameter_mm > 0.0 && kinematic_viscosity_m2_s > 0.0
    }
  }

  datatype ReynoldsResponse = ReynoldsResponse(reynolds: real, regime: string)

  /** Validation of a Reynolds body: accepted exactly when all three fields
      are present and positive, with the values taken over as sent;
      otherwise every offending field is reported. */
  function ValidateReynolds(body: ReynoldsBody): (r: Result<ReynoldsRequest, seq<FieldError<FlowField>>>)
    ensures r.Ok? <==> Gt(body.velocity_m_s, 0.0) && Gt(body.diameter_mm, 0.0) && Gt(body.kinematic_viscosity_m2_s, 0.0)
    ensures r.Ok? ==> r.value.Valid()
    ensures r.Ok? ==> body.velocity_m_s == Some(r.value.velocity_m_s) && body.diameter_mm == Some(r.value.diameter_mm)
                      && body.kinematic_viscosity_m2_s == Some(r.value.kinematic_viscosity_m2_s)
    ensures r.Err? ==> r.error != []
    ensures r.Err? ==> Locs(r.error) <= {VelocityMS, DiameterMm, KinematicViscosity}
    ensures r.Err? ==> (VelocityMS in Locs(r.error) <==> !Gt(body.velocity_m_s, 0.0))
    ensures r.Err? ==> (DiameterMm in Locs(r.error) <==> !Gt(body.diameter_mm, 0.0))
    ensures r.Err? ==> (KinematicViscosity in Locs(r.error) <==> !Gt(body.kinematic_viscosity_m2_s, 0.0))
  {
    var errs := CheckGt(VelocityMS, body.velocity_m_s, 0.0)
              + CheckGt(DiameterMm, body.diameter_mm, 0.0)
              + CheckGt(KinematicViscosity, body.kinematic_viscosity_m2_s, 0.0);
    if errs == [] then
      Ok(ReynoldsRequest(body.velocity_m_s.value, body.diameter_mm.value, body.kinematic_viscosity_m2_s.value))
    else Err(errs)
  }

  /** The Reynolds handler: Re = v·D/ν with D in metres, then the regime of
      Re. The division fails only on a zero viscosity; otherwise Re·ν = v·D
      and the regime named in the response is the one of Re's interval. */
  function CalculateReynolds(body: ReynoldsRequest): (r: Result<ReynoldsResponse, ArithError>)
    ensures r.Ok? <==> body.kinematic_viscosity_m2_s != 0.0
    ensures r.Ok? ==> r.value.reynolds * body.kinematic_viscosity_m2_s == body.velocity_m_s * DiameterM(body.diameter_mm)
    ensures r.Ok? ==> (r.value.regime == "laminar" <==> r.value.reynolds < LAMINAR_BELOW)
    ensures r.Ok? ==> (r.value.regime == "transição" <==> LAMINAR_BELOW <= r.value.reynolds < TURBULENT_FROM)
    ensures r.Ok? ==> (r.value.regime == "turbulento" <==> TURBULENT_FROM <= r.value.reynolds)
  {
    var diameter_m := DiameterM(body.diameter_mm);
    match Div(body.velocity_m_s * diameter_m, body.kinematic_viscosity_m2_s)
    case Err(e) => Err(e)
    case Ok(re) =>
      var g := Classify(re);
      LabelInjective(g, Laminar);
      LabelInjective(g, Transicao);
      LabelInjective(g, Turbulento);
      Ok(ReynoldsResponse(re, Label(g)))
  }

  /** On a validated request the division is defined and the Reynolds number
      is strictly positive, equal to v·D/(1000·ν) over the request's units. */
  lemma ValidReynoldsIsPositive(body: ReynoldsRequest)
    requires body.Valid()
    ensures CalculateReynolds(body).Ok?
    ensures CalculateReynolds(body).value.reynolds > 0.0
    ensures CalculateReynolds(body).value.reynolds
            == body.velocity_m_s * body.diameter_mm / (MM_PER_M * body.kinematic_viscosity_m2_s)
  {
  }

  /** The two endpoints together: feeding the velocity computed for a flow Q
      (m³/h) through a pipe of diameter D (mm) into the Reynolds handler with
      the same D gives Re = 4·Q_SI/(pi·D_SI·ν), that is Re·9·pi·D·ν = 10·Q. */
  lemma ReynoldsOfComputedVelocity(flow: VelocityRequest, nu: real, pi: real)
    requires pi > 0.0 && flow.Valid() && nu > 0.0
    ensures CalculateVelocity(flow, pi).Ok?
    ensures var v := CalculateVelocity(flow, pi).value.velocity_m_s;
            var r := CalculateReynolds(ReynoldsRequest(v, flow.diameter_mm, nu));
            r.Ok? && r.value.reynolds * (9.0 * pi * flow.diameter_mm * nu) == 10.0 * flow.flow_m3_h
  {
  }

  /** The whole endpoint: a body is rejected exactly when a field is missing
      or not positive; a body that passes never fails in the handler and
      yields a positive Reynolds number. */
  function PostReynolds(body: ReynoldsBody): (r: Outcome<ReynoldsResponse, FlowField>)
    ensures r.Rejected? <==> !(Gt(body.velocity_m_s, 0.0) && Gt(body.diameter_mm, 0.0) && Gt(body.kinematic_viscosity_m2_s, 0.0))
    ensures !r.Crashed?
    ensures r.Computed? ==> r.response.reynolds > 0.0
    ensures r.Computed? ==>
              r.response.reynolds * body.kinematic_viscosity_m2_s.value
              == body.velocity_m_s.value * DiameterM(body.diameter_mm.value)
    ensures r.Computed? ==> (r.response.regime == "laminar" <==> r.response.reynolds < LAMINAR_BELOW)
    ensures r.Computed? ==> (r.response.regime == "transição" <==> LAMINAR_BELOW <= r.response.reynolds < TURBULENT_FROM)
    ensures r.Computed? ==> (r.response.regime == "turbulento" <==> TURBULENT_FROM <= r.response.reynolds)
  {
    match ValidateReynolds(body)
    case Err(errs) => Rejected(errs)
    case Ok(req) =>
      ValidReynoldsIsPositive(req);
      match CalculateReynolds(req)
      case Err(e) => Crashed(e)
      case Ok(resp) => Computed(resp)
  }
}
