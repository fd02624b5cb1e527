/** The builder of root finders (the library's builder module): optional
    settings collected by setters, then validated in a fixed order into a
    driver around a Newton-Raphson or secant strategy. */
module Builder {
  import opened Prelude
  import opened RootFinding
  import S = SecantMethod
  import N = NewtonRaphsonMethod

  const FunctionMissing: string := "Function must be specified"
  const ToleranceMissing: string := "Tolerance must be specified."
  const MaxIterationsMissing: string := "Max iterations must be specified."
  const DerivativeMissing: string := "Derivative must be specified"
  const InitialGuessMissing: string := "Initial guess must be specified"
  // the source's message for missing secant boundaries, kept as written
  const BoundariesMissing: string := "Derivative must be specified for Secant method."
  const Unsupported: string := "Unsupported method in this example."

  /** RootFinderBuilder: the method and the optional settings. The setters
      take the builder by value and return it with one field replaced. */
  datatype RootFinderBuilder = RootFinderBuilder(
    kind: RootFindingMethod,
    initialGuess: Option<real>,
    boundaries: Option<(real, real)>,
    tolerance: Option<real>,
    maxIterations: Option<nat>,
    logConvergence: Option<bool>,
    target: Option<real -> real>,
    derivative: Option<real -> real>)
  {
    function InitialGuess(guess: real): (r: RootFinderBuilder)
      ensures r.initialGuess == Some(guess) && r.(initialGuess := initialGuess) == this
    {
      this.(initialGuess := Some(guess))
    }

    function Boundaries(x0: real, x1: real): (r: RootFinderBuilder)
      ensures r.boundaries == Some((x0, x1)) && r.(boundaries := boundaries) == this
    {
      this.(boundaries := Some((x0, x1)))
    }

    function Tolerance(tol: real): (r: RootFinderBuilder)
      ensures r.tolerance == Some(tol) && r.(tolerance := tolerance) == this
    {
      this.(tolerance := Some(tol))
    }

    function MaxIterations(max: nat): (r: RootFinderBuilder)
      ensures r.maxIterations == Some(max) && r.(maxIterations := maxIterations) == this
    {
      this.(maxIterations := Some(max))
    }

    function LogConvergence(log: bool): (r: RootFinderBuilder)
      ensures r.logConvergence == Some(log) && r.(logConvergence := logConvergence) == this
    {
      this.(logConvergence := Some(log))
    }

    function Function(f: real -> real): (r: RootFinderBuilder)
      ensures r.target == Some(f) && r.(target := target) == this
    {
      this.(target := Some(f))
    }

    function Derivative(df: real -> real): (r: RootFinderBuilder)
      ensures r.derivative == Some(df) && r.(derivative := derivative) == this
    {
      this.(derivative := Some(df))
    }
  }

  /** RootFinderBuilder::new: the method and no settings. */
  function New(kind: RootFindingMethod): (r: RootFinderBuilder)
    ensures r.kind == kind
    ensures r.initialGuess.None? && r.boundaries.None? && r.tolerance.None? && r.maxIterations.None?
    ensures r.logConvergence.None? && r.target.None? && r.derivative.None?
  {
    RootFinderBuilder(kind, None, None, None, None, None, None, None)
  }

  /** A later call of a setter replaces the value of an earlier one. A
      corollary of each setter's own contract, kept as documentation. */
  lemma SetterOverwrites(b: RootFinderBuilder, g0: real, g1: real, x0: real, x1: real, y0: real, y1: real,
                          t0: real, t1: real, m0: nat, m1: nat, l0: bool, l1: bool,
                          f0: real -> real, f1: real -> real, d0: real -> real, d1: real -> real)
    ensures b.InitialGuess(g0).InitialGuess(g1) == b.InitialGuess(g1)
    ensures b.Boundaries(x0, y0).Boundaries(x1, y1) == b.Boundaries(x1, y1)
    ensures b.Tolerance(t0).Tolerance(t1) == b.Tolerance(t1)
    ensures b.MaxIterations(m0).MaxIterations(m1) == b.MaxIterations(m1)
    ensures b.LogConvergence(l0).LogConvergence(l1) == b.LogConvergence(l1)
    ensures b.Function(f0).Function(f1) == b.Function(f1)
    ensures b.Derivative(d0).Derivative(d1) == b.Derivative(d1)
  {
  }

  /** What build hands to RootFindingIterationDecorator::new: the target,
      the builder's optional derivative, the strategy's state, the ceiling
      and the logging flag. */
  datatype FinderConfig = FinderConfig(
    target: real -> real,
    derivative: Option<real -> real>,
    strategy: StrategyState,
    maxIterations: nat,
    logConvergence: bool)

  /** Whether every setting the method needs is present. */
  predicate Complete(b: RootFinderBuilder) {
    && b.target.Some? && b.tolerance.Some? && b.maxIterations.Some?
    && ((b.kind.NewtonRaphson? && b.derivative.Some? && b.initialGuess.Some?)
        || (b.kind.Secant? && b.boundaries.Some?))
  }

  /** The checks of build, in the source's order: the function, the
      tolerance, the ceiling, then per method the derivative and the initial
      guess (Newton-Raphson) or the boundaries (secant); every other method
      is refused. */
  function Configure(b: RootFinderBuilder): (r: Result<FinderConfig>)
    // succeeds exactly on complete settings
    ensures r.Ok? <==> Complete(b)
    // the first missing setting decides the error
    ensures b.target.None? ==> r == Err(FunctionMissing)
    ensures b.target.Some? && b.tolerance.None? ==> r == Err(ToleranceMissing)
    ensures b.target.Some? && b.tolerance.Some? && b.maxIterations.None? ==> r == Err(MaxIterationsMissing)
    ensures b.target.Some? && b.tolerance.Some? && b.maxIterations.Some? ==>
      && (b.kind.NewtonRaphson? && b.derivative.None? ==> r == Err(DerivativeMissing))
      && (b.kind.NewtonRaphson? && b.derivative.Some? && b.initialGuess.None? ==> r == Err(InitialGuessMissing))
      && (b.kind.Secant? && b.boundaries.None? ==> r == Err(BoundariesMissing))
      && (!b.kind.NewtonRaphson? && !b.kind.Secant? ==> r == Err(Unsupported))
    // a built driver carries the settings; logging is off unless set
    ensures r.Ok? ==>
      && r.value.target == b.target.value
      && r.value.derivative == b.derivative
      && r.value.maxIterations == b.maxIterations.value
      && r.value.logConvergence == (b.logConvergence == Some(true))
      && Configured(r.value.strategy, r.value.derivative)
    ensures r.Ok? && b.kind.NewtonRaphson? ==>
      r.value.strategy == NewtonState(N.NewtonState(b.initialGuess.value, b.tolerance.value))
    ensures r.Ok? && b.kind.Secant? ==>
      r.value.strategy == SecantState(S.SecantState(b.boundaries.value.0, b.boundaries.value.1,
                                                    b.boundaries.value.1, b.tolerance.value))
  {
    if b.target.None? then Err(FunctionMissing)
    else if b.tolerance.None? then Err(ToleranceMissing)
    else if b.maxIterations.None? then Err(MaxIterationsMissing)
    else
      var tolerance := b.tolerance.value;
      var log := if b.logConvergence.Some? then b.logConvergence.value else false;
      var strategy: Result<StrategyState> :=
        match b.kind
        case NewtonRaphson =>
          if b.derivative.None? then Err(DerivativeMissing)
          else if b.initialGuess.None? then Err(InitialGuessMissing)
          else Ok(NewtonState(N.NewtonState(b.initialGuess.value, tolerance)))
        case Secant =>
          if b.boundaries.None? then Err(BoundariesMissing)
          else
            var (x0, x1) := b.boundaries.value;
            Ok(SecantState(S.SecantState(x0, x1, x1, tolerance)))
        case _ => Err(Unsupported);
      if strategy.Err? then Err(strategy.error)
      else Ok(FinderConfig(b.target.value, b.derivative, strategy.value, b.maxIterations.value, log))
  }

  /** build: validates the settings and allocates the strategy object and
      the driver that owns it. */
  method Build(b: RootFinderBuilder) returns (r: Result<RootFindingIterationDecorator>)
    ensures r.Ok? <==> Configure(b).Ok?
    ensures r.Err? ==> r.error == Configure(b).error
    ensures r.Ok? ==>
      var d, c := r.value, Configure(b).value;
      && fresh(d) && fresh(d.rootFinder.Obj()) && d.Valid()
      && d.target == c.target && d.derivative == c.derivative && d.rootFinder.Value() == c.strategy
      && d.maxIterations == c.maxIterations && d.logConvergence == c.logConvergence
      && d.numIt == 1 && d.convergenceLog.iterations == []
  {
    var config := Configure(b);
    if config.Err? {
      return Err(config.error);
    }
    var c := config.value;
    var strategy: Strategy;
    if c.strategy.NewtonState? {
      var n := new N.NewtonRaphsonRootFinder(c.strategy.newton.x0, c.strategy.newton.tolerance);
      strategy := NewtonFinder(n);
    } else {
      // Configure builds only the Newton-Raphson and the secant strategies
      var s := c.strategy.secant;
      var sc := new S.SecantRootFinder(s.x0, s.x1, s.x2, s.tolerance);
      strategy := SecantFinder(sc);
    }
    var d := new RootFindingIterationDecorator(c.target, c.derivative, strategy, c.maxIterations, c.logConvergence);
    return Ok(d);
  }
}
