/** The secant strategy of the common iteration protocol. */
module SecantMethod {
  import opened Prelude

  const DerivativeTooSmall: string := "Derivative too close to zero."

  /** The strategy's fields as a value: the two latest abscissas and the
      latest candidate x2. */
  datatype SecantState = SecantState(x0: real, x1: real, x2: real, tolerance: real)

  function Args(s: SecantState): (r: seq<real>)
    ensures |r| == 2
  {
    [s.x0, s.x1]
  }

  /** get_next_args on the values fx0, fx1 at x0, x1. The source divides by
      fx1 - fx0; over reals that needs the two values to differ. The new
      candidate is where the line through (x0, fx0) and (x1, fx1) crosses
      zero, and the pair shifts to (x1, candidate). */
  function Next(s: SecantState, fx0: real, fx1: real): (r: SecantState)
    requires fx1 != fx0
    ensures fx1 * (s.x1 - s.x0) + (fx1 - fx0) * (r.x2 - s.x1) == 0.0
    ensures r.x0 == s.x1 && r.x1 == r.x2 && r.tolerance == s.tolerance
  {
    var x2 := s.x1 - fx1 * (s.x1 - s.x0) / (fx1 - fx0);
    SecantCrossing(s.x0, s.x1, fx0, fx1, x2);
    SecantState(s.x1, x2, x2, s.tolerance)
  }

  lemma SecantCrossing(x0: real, x1: real, fx0: real, fx1: real, x2: real)
    requires fx1 != fx0
    requires x2 == x1 - fx1 * (x1 - x0) / (fx1 - fx0)
    ensures fx1 * (x1 - x0) + (fx1 - fx0) * (x2 - x1) == 0.0
  {
    var q := fx1 * (x1 - x0) / (fx1 - fx0);
    assert q * (fx1 - fx0) == fx1 * (x1 - x0);
    assert x2 - x1 == -q;
  }

  /** should_stop: converged, reporting the latest candidate, when the two
      abscissas are within tolerance; otherwise a stall error when the two
      values are closer than EPS; otherwise continue. */
  function ShouldStop(s: SecantState, fx0: real, fx1: real): (r: Option<Result<real>>)
    ensures r == Some(Ok(s.x2)) <==> Abs(s.x0 - s.x1) < s.tolerance
    ensures r == Some(Err(DerivativeTooSmall)) <==> !(Abs(s.x0 - s.x1) < s.tolerance) && Abs(fx0 - fx1) < EPS
    ensures r.Some? ==> r == Some(Ok(s.x2)) || r == Some(Err(DerivativeTooSmall))
    // continuing leaves the values at least EPS apart, so Next is defined
    ensures r.None? ==> Abs(fx0 - fx1) >= EPS && fx1 != fx0
  {
    if Abs(s.x0 - s.x1) < s.tolerance then
      Some(Ok(s.x2))
    else if Abs(fx0 - fx1) < EPS then
      Some(Err(DerivativeTooSmall))
    else
      None
  }

  /** The strategy object: the library's SecantRootFinder. */
  class SecantRootFinder {
    var x0: real
    var x1: real
    var x2: real
    const tolerance: real

    function State(): SecantState
      reads this
    {
      SecantState(x0, x1, x2, tolerance)
    }

    constructor (x0: real, x1: real, x2: real, tolerance: real)
      ensures State() == SecantState(x0, x1, x2, tolerance)
    {
      this.x0 := x0;
      this.x1 := x1;
      this.x2 := x2;
      this.tolerance := tolerance;
    }

    /** get_init_args reads the pair and changes nothing. */
    method GetInitArgs() returns (args: seq<real>)
      ensures args == Args(State())
    {
      args := [x0, x1];
    }

    method GetNextArgs(fx: seq<real>, dfx: seq<real>) returns (args: seq<real>)
      requires |fx| == 2 && fx[1] != fx[0]
      modifies this
      ensures State() == Next(old(State()), fx[0], fx[1])
      ensures args == Args(State())
    {
      var fx0, fx1 := fx[0], fx[1];
      x2 := x1 - fx1 * (x1 - x0) / (fx1 - fx0);
      x0 := x1;
      x1 := x2;
      args := [x0, x1];
    }
  }
}
