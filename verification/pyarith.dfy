/**
 * Python's float arithmetic, on exact reals. The one failure the formulas of
 * the calculators can meet is a zero divisor: Python's `/` then raises
 * ZeroDivisionError (it does not return an infinity), which the web framework
 * turns into a server error.
 */
module PyArith {
  import opened Wrappers

  datatype ArithError = ZeroDivisionError

  /** Python's true division `a / b` on floats. */
  function Div(a: real, b: real): (r: Result<real, ArithError>)
    ensures r.Ok? <==> b != 0.0
    ensures r.Ok? ==> r.value * b == a
  {
    if b == 0.0 then Err(ZeroDivisionError) else Ok(a / b)
  }
}
