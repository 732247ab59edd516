# EngLab calcs: pipe-flow and three-phase current calculators in Dafny

This project models the two calculation routers of the EngLab Calcs API, a
small web service of engineering formulas:

- **Flow** (`app/routers/flow.py`):
  - `POST /flow/velocity` gives the mean velocity in a pipe from a flow in m³/h and an inner diameter in mm.
  - `POST /flow/reynolds` gives the Reynolds number from a velocity, a diameter in mm and a kinematic viscosity.
    It also names the flow regime in Portuguese: `laminar` below 2300, `transição` from 2300 to below 4000, and `turbulento` from 4000 up.
- **Electrical** (`app/routers/electrical.py`): `POST /electrical/three_phase_current`
  gives the line current I = P·1000 / (√3·V·FP) from power in kW,
  line-to-line voltage and power factor. The power factor defaults to 0.8.

Each endpoint is modelled as three pure steps:

1. A validation function turns a received body into a validated request or into a list of field errors.
   Each field of the body is an `Option<real>`, and `None` marks an omitted field.
   The constraints are the ones declared on the request model: `gt=0`, or `ge=0, le=1` with a default.
2. A handler function computes the response from a validated request.
3. A `Post…` function chains the two and returns an `Outcome`:
   - `Rejected`: validation failed, and the outcome carries the errors;
   - `Crashed`: the handler raised;
   - `Computed`: the outcome carries the response.

Python floats are exact `real`s. Python's `/` is `PyArith.Div`. On a zero divisor it returns
`ZeroDivisionError`. Python's float `/` by 0.0 raises ZeroDivisionError; it
does not return an infinity.

π (`math.pi`) and √3 (`math.sqrt(3)`) come from Python's math library. They
are parameters `pi` and `sqrt3`, with only `pi > 0` and `sqrt3 > 0` required. Every
result holds for any positive value, including the library's doubles.

Files: `wrappers.dfy` (Option, Result), `pyarith.dfy` (Python division),
`validation.dfy` (field constraints, error reports, outcomes), `flow.dfy`,
`electrical.dfy`.

## Model

| member | source | states |
|---|---|---|
| `PyArith.Div` | app/routers/electrical.py:30 | Python float division: it succeeds exactly when the divisor is nonzero, and then quotient·divisor = dividend; a zero divisor gives ZeroDivisionError |
| `Validation.CheckGt` | app/routers/flow.py:8-9 | a required `gt=limit` field gives no error exactly when it is present and above the limit; otherwise one error for that field, `Missing` or `GreaterThan(limit)` |
| `Validation.CheckGeLe` | app/routers/electrical.py:10-12 | an optional `ge=lo, le=hi` field gives no error exactly when it is omitted or within [lo, hi]; otherwise one error naming the broken bound |
| `Validation.CheckGtLe` | app/routers/electrical.py:10-12 | the corrected power-factor constraint `gt=lo, le=hi`: no error exactly when the field is omitted or within (lo, hi]; otherwise one error naming the broken bound |
| `Flow.FlowM3S` | app/routers/flow.py:27 | the flow in m³/s times 3600 is the flow in m³/h, and the sign is kept |
| `Flow.DiameterM` | app/routers/flow.py:28 | the diameter in m times 1000 is the diameter in mm, and the sign is kept |
| `Flow.Area` | app/routers/flow.py:29 | the cross-section π·d²/4 (with `d**2` as the helper `Flow.Square`) is never negative |
| `Flow.AreaPositive` | app/routers/flow.py:29-30 | the cross-section π·d²/4 is never negative and is strictly positive exactly when d ≠ 0, so only a zero diameter can make the velocity's division fail |
| `Flow.ValidateVelocity` | app/routers/flow.py:7-9 | accepts exactly when flow_m3_h and diameter_mm are both present and > 0; the accepted request holds the values as sent; a rejection is non-empty and names exactly the offending fields |
| `Flow.CalculateVelocity` | app/routers/flow.py:18-36 | fails only for a zero diameter; otherwise Q = v·A holds with Q in m³/s and A = π·(D/1000)²/4, and flow_m3_h and diameter_mm are echoed unchanged |
| `Flow.ValidVelocityIsPositive` | app/routers/flow.py:27-30 | on a validated request the division is defined and the velocity is strictly positive |
| `Flow.VelocityClosedForm` | app/routers/flow.py:27-30 | on a validated request v = 10000·Q / (9·π·D²) with Q in m³/h and D in mm, the same as (Q/3600)/(π·(D/1000)²/4) |
| `Flow.PostVelocity` | app/routers/flow.py:7-36 | a body is rejected exactly when a field is missing or not positive; an accepted body never fails in the handler and yields a positive velocity satisfying Q = v·A in SI units, with both inputs echoed as sent |
| `Flow.Classify` | app/routers/flow.py:60-65 | laminar exactly when Re < 2300; transição exactly when 2300 ≤ Re < 4000; turbulento exactly when Re ≥ 4000 (total and exclusive) |
| `Flow.Label` | app/routers/flow.py:60-65 | the response names a regime "laminar", "transição" or "turbulento", each name exactly for its own regime |
| `Flow.LabelInjective` | app/routers/flow.py:60-65 | the three regime names are pairwise distinct, so the name in a response determines the regime |
| `Flow.ClassifyBoundaries` | app/routers/flow.py:60-64 | the boundaries are exact: 2299.999 is laminar, 2300 and 3999.999 are transição, 4000 is turbulento |
| `Flow.ClassifyMonotone` | app/routers/flow.py:60-65 | a larger Reynolds number never gives an earlier regime in laminar < transição < turbulento |
| `Flow.ValidateReynolds` | app/routers/flow.py:39-44 | accepts exactly when velocity, diameter and viscosity are all present and > 0; the accepted request holds the values as sent; a rejection is non-empty and names exactly the offending fields |
| `Flow.CalculateReynolds` | app/routers/flow.py:52-67 | fails only for a zero viscosity; otherwise Re·ν = v·D with D in m, and the regime string is "laminar", "transição" or "turbulento" exactly on the three intervals of Re |
| `Flow.ValidReynoldsIsPositive` | app/routers/flow.py:57-58 | on a validated request the division is defined and Re = v·D/(1000·ν) > 0 |
| `Flow.ReynoldsOfComputedVelocity` | app/routers/flow.py:27-58 | feeding the computed velocity of a flow Q through a pipe of diameter D into the Reynolds handler with the same D gives Re·9·π·D·ν = 10·Q, which is Re = 4·Q/(π·D·ν) in SI units |
| `Flow.PostReynolds` | app/routers/flow.py:39-67 | a body is rejected exactly when a field is missing or not positive; an accepted body never fails in the handler and yields a positive Reynolds number with Re·ν = v·D (D in m), whose regime string is "laminar", "transição" or "turbulento" exactly on Re < 2300, 2300 ≤ Re < 4000 and Re ≥ 4000 |
| `Electrical.ValidateThreePhase` | app/routers/electrical.py:7-12 | accepts exactly when power_kw and voltage_v are present and > 0 and power_factor is omitted or in [0, 1]; values are kept as sent; an omitted power factor becomes 0.8 (through the helper `Validation.ValueOr`); a rejection is non-empty and names exactly the offending fields |
| `Electrical.CalculateThreePhaseCurrent` | app/routers/electrical.py:22-37 | fails exactly when voltage or power factor is zero; otherwise P·1000 = I·√3·V·FP, and power, voltage and power factor are echoed unchanged |
| `Electrical.ValidCurrent` | app/routers/electrical.py:30 | on a validated request the handler fails exactly when the power factor is 0; otherwise I = P·1000/(√3·V·FP) > 0 |
| `Electrical.ZeroPowerFactorPassesValidationAndFails` | app/routers/electrical.py:11-30 | the body power_kw = 10, voltage_v = 380, power_factor = 0 passes validation, and the handler then raises ZeroDivisionError |
| `Electrical.PostThreePhaseCurrent` | app/routers/electrical.py:7-37 | as written: rejected exactly when a declared constraint is broken; fails in the handler exactly when the body is otherwise valid and sends power_factor 0; otherwise a positive current with P·1000 = I·√3·V·FP, power and voltage echoed, and the power factor sent (0.8 when omitted) |
| `Electrical.ValidateThreePhaseStrict` | app/routers/electrical.py:10-12 | corrected validation with `gt=0`: accepts exactly what the declared validation accepts minus a power factor of 0, gives the same request, and reports exactly the offending fields |
| `Electrical.PostThreePhaseCurrentStrict` | app/routers/electrical.py:7-37 | with the corrected validation the handler never fails; every answer has a positive current that satisfies P·1000 = I·√3·V·FP, with power and voltage echoed and the power factor sent (0.8 when omitted) |

## Findings

| source | as written | input that shows it | evidently intended | confidence | as-written member | corrected member |
|---|---|---|---|---|---|---|
| app/routers/electrical.py:11 | the power factor is declared `ge=0`, so 0 passes validation, and line 30 then divides by √3·V·0 = 0, which raises ZeroDivisionError (a server error) | power_kw = 10, voltage_v = 380, power_factor = 0 | declare the power factor `gt=0`, so that 0 is rejected as a validation error and every accepted request has a defined, positive current | not executed; follows from Python float division raising on a zero divisor | `Electrical.ZeroPowerFactorPassesValidationAndFails` | `Electrical.PostThreePhaseCurrentStrict` |

## Left out

- HTTP routing, JSON decoding, status codes and the text of validation errors are left out.
  An outcome is `Rejected`, `Crashed` or `Computed`, and an error is a field with the kind of constraint it broke.
- Validation covers missing fields and broken range constraints only. A non-numeric or `null` value, which the framework rejects as a type error, is not modelled.
- The validators report the offending fields in declaration order.
  Their contracts state which fields are reported and with which error kind (in `Validation.CheckGt`, `CheckGeLe` and `CheckGtLe`), but not their order.
- `app/main.py` is left out. It only builds the application, registers the routers and returns a fixed root message.
- The health router is not part of this model. It is a liveness stub.
- IEEE-754 behaviour is not modelled: rounding, infinite or NaN inputs, overflow and underflow.
  Exact reals cannot show any of these, so every "never fails" and every "> 0" result in the model holds over exact reals only.
  - Float `*` and `/` overflow to infinity without raising. When π·d² overflows, the velocity handler divides by infinity and returns a velocity of 0.0.
  - Float `**` does not overflow to infinity: it raises OverflowError. The velocity handler squares the diameter with `**` (app/routers/flow.py:29), so a diameter above about 1.34e157 mm passes validation and then makes the handler raise, a server error that `Flow.PostVelocity` does not show.
  - A tiny positive diameter whose square underflows to 0.0 makes the velocity handler raise ZeroDivisionError.
  - When v·D underflows to 0.0, the Reynolds handler returns a Reynolds number of 0.0 (regime "laminar").
  - A tiny positive voltage and power factor whose product √3·V·FP underflows to 0.0 (for example V = FP = 1e-170) make the three-phase handler raise ZeroDivisionError, even in the corrected `Electrical.PostThreePhaseCurrentStrict`, which over exact reals never fails.
- π and √3 are only assumed positive. The approximate numeric examples (about 19.0 A for 10 kW at 380 V with a power factor of 0.8, and about 1.273 m/s for 36 m³/h in a 100 mm pipe) depend on their double values and are not proved.
- Concurrency is left out. No request shares state with another.
