/** The Newton-Raphson strategy of the common iteration protocol. */
module NewtonRaphsonMethod {
  import opened Prelude

  const DerivativeTooSmall: string := "Derivative too close to zero."

  datatype NewtonState = NewtonState(x0: real, tolerance: real)

  function Args(s: NewtonState): (r: seq<real>)
    ensures |r| == 1
  {
    [s.x0]
  }

  /** get_next_args on f(x0) = fx and f'(x0) = dfx: the new abscissa is
      where the tangent at x0 crosses zero. The source divides by dfx;
      over reals that needs dfx to be nonzero. */
  function Next(s: NewtonState, fx: real, dfx: real): (r: NewtonState)
    requires dfx != 0.0
    ensures fx + dfx * (r.x0 - s.x0) == 0.0
    ensures r.tolerance == s.tolerance
  {
    var r := s.(x0 := s.x0 - fx / dfx);
    assert dfx * (fx / dfx) == fx;
    r
  }

  /** should_stop: converged, reporting the next Newton iterate, when it
      lies within tolerance of x0; otherwise a stall error when |dfx| < EPS;
      otherwise continue. With dfx == 0 the source's candidate is infinite
      or NaN, so its convergence test fails and the error branch is taken. */
  function ShouldStop(s: NewtonState, fx: real, dfx: real): (r: Option<Result<real>>)
    // the reported root is exactly the iterate get_next_args would produce
    ensures r.Some? && r.value.Ok? ==> dfx != 0.0 && r.value.value == Next(s, fx, dfx).x0
    ensures r.Some? && r.value.Ok? <==> dfx != 0.0 && Abs(fx / dfx) < s.tolerance
    ensures r.Some? && r.value.Err? <==> !(dfx != 0.0 && Abs(fx / dfx) < s.tolerance) && Abs(dfx) < EPS
    ensures r.Some? && r.value.Err? ==> r.value.error == DerivativeTooSmall
    // continuing leaves the derivative at least EPS away from zero
    ensures r.None? ==> Abs(dfx) >= EPS && dfx != 0.0
  {
    if dfx != 0.0 && Abs(s.x0 - (s.x0 - fx / dfx)) < s.tolerance then
      Some(Ok(s.x0 - fx / dfx))
    else if Abs(dfx) < EPS then
      Some(Err(DerivativeTooSmall))
    else
      None
  }

  /** The strategy object: the library's NewtonRaphsonRootFinder. */
  class NewtonRaphsonRootFinder {
    var x0: real
    const tolerance: real

    function State(): NewtonState
      reads this
    {
      NewtonState(x0, tolerance)
    }

    constructor (x0: real, tolerance: real)
      ensures State() == NewtonState(x0, tolerance)
    {
      this.x0 := x0;
      this.tolerance := tolerance;
    }

    method GetInitArgs() returns (args: seq<real>)
      ensures args == Args(State())
    {
      args := [x0];
    }

    /** Reads index 0 of both value sequences, which the source indexes
        without a check. */
    method GetNextArgs(fx: seq<real>, dfx: seq<real>) returns (args: seq<real>)
      requires |fx| >= 1 && |dfx| >= 1 && dfx[0] != 0.0
      modifies this
      ensures State() == Next(old(State()), fx[0], dfx[0])
      ensures args == Args(State())
    {
      var fx, dfx := fx[0], dfx[0];
      x0 := x0 - fx / dfx;
      args := [x0];
    }
  }
}
