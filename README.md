# Root finding and interpolation, modelled in Dafny

This project models the numerical core of a small Rust library. The library
has two parts.

- **The root-finding engine** (`src/root_finding/`):
  - a convergence log of iteration entries;
  - the common iteration protocol of the bisection, secant and
    Newton-Raphson strategies;
  - the generic driver `RootFindingIterationDecorator`, which evaluates the
    target function (and its derivative, when one is given), logs each
    round, asks the strategy whether to stop, and enforces the iteration
    ceiling;
  - Brent's method with its own search loop;
  - the builder that validates settings and assembles a driver.
- **The interpolator** (`src/interp.rs`): linear, quadratic spline, cubic
  spline and constant interpolation over a table of points, with three
  extrapolation choices.

All arithmetic is over mathematical reals. `f64::EPSILON` is the exact real
2^-52. Each source file is one Dafny module:

| file | module | source |
|---|---|---|
| `prelude.dfy` | `Prelude` | `Option`, `Result` with message strings, `abs`, `EPSILON` |
| `convergence_log.dfy` | `ConvergenceLogging` | `src/root_finding/convergencelog.rs` |
| `bisection.dfy` | `BisectionMethod` | `src/root_finding/bisection.rs` |
| `secant.dfy` | `SecantMethod` | `src/root_finding/secant.rs` |
| `newton_raphson.dfy` | `NewtonRaphsonMethod` | `src/root_finding/newton_raphson.rs` |
| `root_finding.dfy` | `RootFinding` | `src/root_finding/mod.rs` |
| `brent.dfy` | `BrentMethod` | `src/root_finding/brent.rs` |
| `builder.dfy` | `Builder` | `src/root_finding/builder.rs` |
| `interp.dfy` | `Interp` | `src/interp.rs` |

The library's objects update their fields in place, so the model uses
Dafny classes for them. This covers the log, the three strategy objects,
the driver and Brent's finder. Every class method is proved against a pure
function of the old state:

- a strategy's `GetNextArgs` against its `Next`;
- the driver's `FindRoot` loop against `Rounds`;
- Brent's `FindRoot` loop against `Search`.

The properties are then proved about those functions. The builder's setters
take the builder by value and return it, so the builder is a datatype. The
interpolator is never changed after construction, so it is a datatype too.
Its coefficient loops are methods over arrays.

Where the written description of the library and its code disagree, the
model follows the code:

- the builder supports only Newton-Raphson and the secant method, and
  refuses bisection and Brent;
- Brent's search logs the two endpoints as entry 0 before anything else;
- Brent's acceptance test for an interpolated point is one-sided, as
  written;
- the builder's message for missing secant boundaries names the derivative.

Two parts of the code are evidently wrong (see "## Findings"). For each, the
model keeps the code as written in a member of its own and proves the defect
there. Everywhere else it uses the corrected definition:

- the driver's ceiling test is `num_it >= max_iterations`, not
  `num_it == max_iterations`;
- the Quadratic spline's linear coefficients are b_j = slope_j - c_j h_j, not
  the slopes. So the interpolator that `Interp.New` builds for a Quadratic
  table of four or more points is not the program's.

## Model

| member | source | states |
|---|---|---|
| ConvergenceLogging.ConvergenceLog.constructor | src/root_finding/convergencelog.rs:16-20 | a new log is empty |
| ConvergenceLogging.ConvergenceLog.Default | src/root_finding/convergencelog.rs:72-76 | the default log is empty, like a new one |
| ConvergenceLogging.ConvergenceLog.AddEntry | src/root_finding/convergencelog.rs:23-32 | given equal-length points and values, exactly one entry with these contents is appended and earlier entries are kept |
| ConvergenceLogging.ConvergenceLog.GetEntries | src/root_finding/convergencelog.rs:35-37 | returns the entries oldest first, each well formed (as many values as points) |
| ConvergenceLogging.ConvergenceLog.Reset | src/root_finding/convergencelog.rs:67-69 | the log is empty afterwards, whatever it held |
| ConvergenceLogging.LogTwice | src/root_finding/convergencelog.rs:23-32 | logging two batches of entries in turn leaves the same log as logging their concatenation, which both drivers' loops rely on |
| BisectionMethod.Init | src/root_finding/bisection.rs:12-16 | the first bracket is the left half of the configured one: same left end, half the width |
| BisectionMethod.Next | src/root_finding/bisection.rs:17-30 | on a sign change the bracket keeps its left half and records the left side; otherwise it moves right by its own width and records the right side |
| BisectionMethod.ShouldStop | src/root_finding/bisection.rs:32-40 | stops exactly when the value on the recorded side is below the tolerance or the bracket is narrower than it; reports the bracket's midpoint and never an error |
| BisectionMethod.StepsWidth | src/root_finding/bisection.rs:17-30 | after any run of updates the bracket width is the starting width halved once per sign change; moves without a sign change keep the width |
| BisectionMethod.Args | src/root_finding/bisection.rs:12-30 | the bisection strategy asks for exactly two points |
| BisectionMethod.BisectionRootFinder.constructor | src/root_finding/bisection.rs:3-8 | the object holds the given bracket, tolerance and side flag |
| BisectionMethod.BisectionRootFinder.GetInitArgs | src/root_finding/bisection.rs:12-16 | the fields become Init of the old fields; returns both bracket ends |
| BisectionMethod.BisectionRootFinder.GetNextArgs | src/root_finding/bisection.rs:17-30 | the fields become Next of the old fields on the two values; returns both bracket ends |
| SecantMethod.Next | src/root_finding/secant.rs:14-20 | the candidate is where the line through (x0, f(x0)) and (x1, f(x1)) crosses zero; the pair shifts to (x1, candidate) |
| SecantMethod.SecantCrossing | src/root_finding/secant.rs:16 | the secant formula as written puts the candidate on that line's zero |
| SecantMethod.Args | src/root_finding/secant.rs:11-19 | the secant strategy asks for exactly two points |
| SecantMethod.ShouldStop | src/root_finding/secant.rs:22-32 | converged with the latest candidate exactly when the two abscissas are closer than the tolerance; otherwise the near-zero-denominator error exactly when the two values are closer than EPSILON; continuing guarantees a nonzero denominator for the next step |
| SecantMethod.SecantRootFinder.constructor | src/root_finding/secant.rs:3-8 | the object holds the given abscissas and tolerance |
| SecantMethod.SecantRootFinder.GetInitArgs | src/root_finding/secant.rs:11-13 | returns the current pair (x0, x1) |
| SecantMethod.SecantRootFinder.GetNextArgs | src/root_finding/secant.rs:14-20 | the fields become Next of the old fields; returns the new pair |
| NewtonRaphsonMethod.Next | src/root_finding/newton_raphson.rs:15-20 | the new abscissa is the zero of the tangent at x0: f(x0) + f'(x0)(x - x0) = 0 |
| NewtonRaphsonMethod.ShouldStop | src/root_finding/newton_raphson.rs:23-36 | converged exactly when the Newton step is shorter than the tolerance, reporting the same iterate Next produces; otherwise "Derivative too close to zero." exactly when abs(f'(x0)) < EPSILON; continuing guarantees a nonzero derivative |
| NewtonRaphsonMethod.Args | src/root_finding/newton_raphson.rs:9-20 | the Newton-Raphson strategy asks for exactly one point |
| NewtonRaphsonMethod.NewtonRaphsonRootFinder.constructor | src/root_finding/newton_raphson.rs:3-6 | the object holds the given guess and tolerance |
| NewtonRaphsonMethod.NewtonRaphsonRootFinder.GetInitArgs | src/root_finding/newton_raphson.rs:9-11 | returns the current guess |
| NewtonRaphsonMethod.NewtonRaphsonRootFinder.GetNextArgs | src/root_finding/newton_raphson.rs:15-20 | the fields become Next of the old fields; returns the new guess |
| RootFinding.ArgsOf | src/root_finding/mod.rs:93-94 | a strategy asks for one point (Newton-Raphson) or two (bisection, secant) |
| RootFinding.InitState | src/root_finding/mod.rs:93 | get_init_args keeps the strategy's arity |
| RootFinding.ShouldStop | src/root_finding/mod.rs:95 | whenever a strategy answers "continue", the division in its next get_next_args is defined |
| RootFinding.NextState | src/root_finding/mod.rs:94 | get_next_args keeps the strategy's arity |
| RootFinding.Evaluate | src/root_finding/mod.rs:62-65 | one value per point, the i-th being f at the i-th point |
| RootFinding.DerivativeValues | src/root_finding/mod.rs:66-69 | no derivative values without a derivative, otherwise one per point |
| RootFinding.Rounds | src/root_finding/mod.rs:61-84 | the loop with the corrected ceiling test: the counter only grows, and it ends at or below the ceiling unless it started above it; the strategy keeps its arity and configuration |
| RootFinding.UnboundedAtCeilingZero | src/root_finding/mod.rs:79 | as written, with a ceiling of 0, f = 1 and f' = 1, every Newton-Raphson round says "continue", the cap never fires, and the next round starts one step further on, so the search never ends |
| RootFinding.RoundsBounded | src/root_finding/mod.rs:79-82 | with the corrected test a search runs one round from a counter at or above the ceiling, and otherwise at most maxIterations - numIt + 1 rounds |
| RootFinding.RoundsStop | src/root_finding/mod.rs:75-81 | a round whose should_stop answers, or that sits at the ceiling, ends the search with its own entry only (a one-step unfolding used by the loop proof) |
| RootFinding.RoundsStep | src/root_finding/mod.rs:79-83 | a round below the ceiling that continues logs itself and hands on to the rounds from the next state with the counter plus one (a one-step unfolding used by the loop proof) |
| RootFinding.RoundsContinue | src/root_finding/mod.rs:71-83 | the same step, stated for a search that has already logged earlier entries |
| RootFinding.RoundsResult | src/root_finding/mod.rs:75-81 | the result is the last should_stop answer unchanged; "Maximum iterations reached without convergence." comes only when that answer was "continue", with the counter at the ceiling (or where it started, if that was above the ceiling) |
| RootFinding.RoundsLog | src/root_finding/mod.rs:71-74 | with logging off nothing is logged; with it on there is one entry per round, numbered consecutively from the starting counter, each with the strategy's number of points and f at them |
| RootFinding.Strategy.GetInitArgs | src/root_finding/mod.rs:60 | dispatches get_init_args to the owned strategy: its value becomes InitState of the old value |
| RootFinding.Strategy.GetNextArgs | src/root_finding/mod.rs:83 | dispatches get_next_args: the strategy's value becomes NextState of the old value |
| RootFinding.RootFindingIterationDecorator.constructor | src/root_finding/mod.rs:38-54 | the driver holds its settings, counter 1 and a fresh empty log |
| RootFinding.RootFindingIterationDecorator.FindRoot | src/root_finding/mod.rs:57-85 | for any counter, the result, final strategy state, counter and log are exactly those of Rounds from the initialised strategy and the current counter |
| RootFinding.RootFindingIterationDecorator.Start | src/root_finding/mod.rs:58-60 | the log is emptied and the strategy takes its first points |
| RootFinding.RootFindingIterationDecorator.Round | src/root_finding/mod.rs:62-83 | one loop iteration: either it ends with Rounds' result, or the remaining rounds from the new state and log still give the same outcome |
| RootFinding.RootFindingIterationDecorator.Advance | src/root_finding/mod.rs:82-83 | the counter goes up by one and the strategy takes its next points |
| RootFinding.RootFindingIterationDecorator.EvaluateAndLog | src/root_finding/mod.rs:62-74 | f (and f' when given) at every point; with logging on, exactly one entry for the round is appended |
| RootFinding.RootFindingIterationDecorator.GetConvergenceLog | src/root_finding/mod.rs:87-89 | returns the driver's own log |
| BrentMethod.InverseQuadraticThroughPoints | src/root_finding/brent.rs:53-57 | the inverse quadratic through three points with distinct values takes each value back to its abscissa |
| BrentMethod.Candidate | src/root_finding/brent.rs:53-61 | no proposal exactly when f(a) = f(b); with three distinct values, the inverse quadratic at 0; otherwise the zero of the secant through a and b |
| BrentMethod.InverseQuadraticAtZero | src/root_finding/brent.rs:54-57 | the source's three-term formula is the inverse quadratic evaluated at 0 |
| BrentMethod.SecantZero | src/root_finding/brent.rs:59 | the source's secant formula lies on the zero of the secant through a and b |
| BrentMethod.Choose | src/root_finding/brent.rs:64-74 | the point of each round lies between a and b; on bisection it is the midpoint and the step sizes shift; otherwise it is the accepted proposal, strictly inside (a, b) |
| BrentMethod.Step | src/root_finding/brent.rs:76-97 | a round that goes on keeps abs(f(b)) <= abs(f(a)) |
| BrentMethod.StepFacts | src/root_finding/brent.rs:76-97 | the stop test reads s and the old b; otherwise f is evaluated once, at s; a and b become the old b and s in the better order; the contrapoint moves to the old b exactly on a sign change (an unfolding of Step used by the loop proof) |
| BrentMethod.Initial | src/root_finding/brent.rs:37-49 | the starting a and b are the two endpoints, ordered so that abs(f(b)) <= abs(f(a)); c = a and d = e = b - a |
| BrentMethod.IterateStep | src/root_finding/brent.rs:51-98 | one round below the ceiling either converges or logs s and f(s) and hands on to the next round (a one-step unfolding used by the loop proof) |
| BrentMethod.Search | src/root_finding/brent.rs:17-101 | both endpoints are logged as entry 0; same-sign endpoints give "F(a) and F(b) must be of opposite signs" with nothing else evaluated; otherwise the loop from Initial decides |
| BrentMethod.IterateFacts | src/root_finding/brent.rs:51-100 | the loop fails only with "Failed to converge", and then after every round up to the ceiling; entries are numbered from the first round and hold s and f(s) |
| BrentMethod.SearchFacts | src/root_finding/brent.rs:17-101 | a search fails only for the two reasons of the source; with logging off it logs nothing; entries after 0 are numbered 1, 2, ... with s and f(s); a search that runs out of rounds logged maxIterations entries |
| BrentMethod.BrentRootFinder.constructor | src/root_finding/brent.rs:4-13 | the finder holds its configuration and an empty log |
| BrentMethod.BrentRootFinder.FindRoot | src/root_finding/brent.rs:17-101 | the result and the log are exactly Search's |
| BrentMethod.BrentRootFinder.Rounds | src/root_finding/brent.rs:51-100 | the loop's result and the entries it adds are exactly Iterate's from round 1 |
| BrentMethod.BrentRootFinder.Round | src/root_finding/brent.rs:52-97 | one loop body on the locals computes Step: it converges with s or returns the next state, logging s and f(s) when enabled |
| BrentMethod.BrentRootFinder.GetConvergenceLog | src/root_finding/brent.rs:103-105 | returns the finder's own log |
| Builder.RootFinderBuilder.InitialGuess | src/root_finding/builder.rs:30-33 | sets the initial guess and changes nothing else |
| Builder.RootFinderBuilder.Boundaries | src/root_finding/builder.rs:36-39 | sets the bracket and changes nothing else |
| Builder.RootFinderBuilder.Tolerance | src/root_finding/builder.rs:42-45 | sets the tolerance and changes nothing else |
| Builder.RootFinderBuilder.MaxIterations | src/root_finding/builder.rs:48-51 | sets the ceiling and changes nothing else |
| Builder.RootFinderBuilder.LogConvergence | src/root_finding/builder.rs:54-57 | sets the logging flag and changes nothing else |
| Builder.RootFinderBuilder.Function | src/root_finding/builder.rs:60-63 | sets the target function and changes nothing else |
| Builder.RootFinderBuilder.Derivative | src/root_finding/builder.rs:66-69 | sets the derivative and changes nothing else |
| Builder.New | src/root_finding/builder.rs:16-27 | a builder for the given method with no setting present |
| Builder.SetterOverwrites | src/root_finding/builder.rs:30-45 | a later call of a setter replaces an earlier one (a corollary of the setters' own contracts) |
| Builder.Configure | src/root_finding/builder.rs:72-119 | succeeds exactly when every setting the method needs is present; the first missing setting, in the source's order, picks the message; methods other than Newton-Raphson and secant get "Unsupported method in this example."; a success carries the settings, with logging off unless set |
| Builder.Build | src/root_finding/builder.rs:72-119 | fails with Configure's message, or returns a fresh driver around a fresh strategy object holding Configure's settings, counter 1 and an empty log |
| Interp.Extrapolated | src/interp.rs:85-112 | fails exactly where the source panics; Constant gives the y of the end on x's side; ExtendSpline gives the first or last segment's polynomial |
| Interp.FirstBracketFrom | src/interp.rs:60-61 | a found segment is the first one from the start index whose ends bracket x; when none is found, no segment from there brackets x |
| Interp.Interpolated | src/interp.rs:59-82 | inside the table x is always bracketed, so the unreachable branch cannot be reached, and the first bracketing segment decides; only an x outside the table is extrapolated |
| Interp.BracketExists | src/interp.rs:60-81 | whatever the order of the table, an x between its first and last abscissa is bracketed by some segment |
| Interp.Interpolate | src/interp.rs:59-82 | the search loop with its early return computes Interpolated |
| Interp.BracketOfNode | src/interp.rs:60-61 | on an increasing table the node x_k is first bracketed by the segment ending at it (segment 0 for x_0) |
| Interp.InterpolateAtNodes | src/interp.rs:59-82 | a spline whose segments meet their nodes returns y_k at every x_k of an increasing table |
| Interp.SegmentAtStart | src/interp.rs:66-70 | every segment polynomial meets its left node |
| Interp.SlopeMeetsNode | src/interp.rs:128-131 | each segment's slope carries its left node to its right node |
| Interp.Diffs | src/interp.rs:129-130 | each difference carries one entry of the table to the next |
| Interp.Slopes | src/interp.rs:131 | one slope per segment |
| Interp.LinearCoefficients | src/interp.rs:134 | the Linear coefficients meet every node |
| Interp.LinearMeetsNodes | src/interp.rs:134 | every segment with the slope and zero c and d ends at its right node |
| Interp.LinearIsWeightedMean | src/interp.rs:59-74 | inside a segment, Linear interpolation is the mean of the two nodes weighted by x's position, with a weight in [0, 1] |
| Interp.WeightedMean | src/interp.rs:66-70 | a straight segment at offset u of h is the mean of its ends weighted by u / h |
| Interp.QuadraticC | src/interp.rs:135-143 | one entry per segment |
| Interp.QuadraticCoefficientsAsWritten | src/interp.rs:135-143 | the Quadratic branch as written: b is the slopes, c the slope changes inside and zero at both ends, d zero |
| Interp.SlopeChanges | src/interp.rs:136-142 | the loop leaves zero at both ends and the change of slope over twice the previous spacing in between |
| Interp.QuadraticCEntries | src/interp.rs:136-142 | a vector with those entries is the quadratic coefficient vector |
| Interp.QuadraticAsWrittenMissesNode | src/interp.rs:135-143 | on x = 0, 1, 2, 3 with y = x^2, the as-written spline gives 5 at the node x = 2, where y = 4 |
| Interp.QuadraticB | src/interp.rs:135-143 | the corrected linear coefficient is the slope minus c_j times the spacing |
| Interp.QuadraticCoefficients | src/interp.rs:135-143 | the corrected quadratic spline: the same c, zero at the first and the last segment, and every segment meets its right node |
| Interp.QuadraticMeetsNodes | src/interp.rs:135-143 | every corrected quadratic segment ends at its right node |
| Interp.QuadraticSegment | src/interp.rs:135-143 | lowering b by c h keeps a segment with a quadratic term on its right node |
| Interp.CubicCoefficients | src/interp.rs:144-168 | the natural cubic spline: zero curvature at both ends, every segment meets its right node, and slopes and curvatures agree where segments join |
| Interp.RightHandSides | src/interp.rs:145-149 | the loop computes the right-hand side of every interior row of the spline system |
| Interp.Eliminate | src/interp.rs:150-161 | the forward loop leaves every interior row eliminated: its pivot, multiplier and right-hand side |
| Interp.PivotPositive | src/interp.rs:157-161 | with positive spacings every pivot is positive and every multiplier lies in [0, 1), so no division is by zero |
| Interp.BackSubstitute | src/interp.rs:162-166 | the backward loop sets b, c and d of every segment from the eliminated rows |
| Interp.NaturalSpline | src/interp.rs:144-168 | elimination followed by back substitution gives the natural cubic spline through the table |
| Interp.CubicMeetsNodes | src/interp.rs:162-166 | every back-substituted segment meets its right node |
| Interp.CubicJoins | src/interp.rs:144-168 | neighbouring segments agree in slope and curvature at every interior node |
| Interp.CubicSegmentMeetsNode | src/interp.rs:163-165 | one back-substituted segment meets its right node |
| Interp.SegmentsJoin | src/interp.rs:157-166 | the two segments around interior node i agree in slope and curvature there |
| Interp.ThomasRow | src/interp.rs:157-165 | back substitution solves row i of the tridiagonal spline system |
| Interp.RowGivesSlope | src/interp.rs:145-165 | a solution of row i joins its two segments with equal slopes and curvatures |
| Interp.SplineCoefficients | src/interp.rs:115-174 | the constant types get no coefficients; every spline type meets every node with c_0 = 0; Linear gives the slopes, Quadratic the corrected quadratic spline (not the written one), Cubic the natural cubic spline |
| Interp.New | src/interp.rs:32-56 | the interpolator holds the table and choices as given, is well formed, and its spline meets every node; its coefficients are those of SplineCoefficients: for Linear the slopes with zero c and d, for Quadratic the corrected spline, for Cubic the natural boundary c_0 = c_n = 0 with equal slopes and curvatures at every interior node; the constant types store no coefficients |

## Left out

- `display_log` (src/root_finding/convergencelog.rs:40-64) prints the log; printing is not modelled.
- Floating point is not modelled: values are exact reals, so there is no rounding, overflow, infinity or NaN. EPSILON is the exact real 2^-52.
- The panics of the source become preconditions. These are the length check of `add_entry`, the length check of `Interpolator::new`, and the two-value unpacking of `get_next_args` in bisection and secant.
- SecantMethod.SecantRootFinder.constructor: the builder starts the candidate `x2` at NaN; the model starts it at `x1`, since reals have no NaN.
- SecantMethod.Next: requires f(x0) != f(x1). Where the source divides by zero, the driver only calls it after `should_stop` answered "continue", which rules this out.
- NewtonRaphsonMethod.Next: requires f'(x0) != 0, for the same reason. In ShouldStop an f'(x0) of 0 takes the error branch, as the IEEE infinity or NaN does in the source.
- BrentMethod.Candidate: f(a) = f(b) is modelled as no proposal. In the source, both formulas then divide by zero. The inverse quadratic does so when f(c) differs from both, and the secant does so otherwise. The infinity or NaN that results fails the acceptance test, so the source takes the same bisection step as the model.
- RootFinding.RootFindingIterationDecorator.FindRoot: uses the corrected ceiling test. When the counter starts above the ceiling (a ceiling of 0) and should_stop does not answer in the first round, the model ends with the ceiling error. The source's cap never fires there, so only should_stop can end its loop. FindRoot also requires a derivative for a Newton-Raphson strategy, because without one the source panics at `dfx[0]`.
- Interp.New: requires neighbouring abscissas to differ for Linear and Quadratic, because otherwise the source divides by zero and stores infinities or NaNs. For Cubic it requires increasing abscissas, because the model's proof that every pivot is nonzero needs positive spacings. Tables with distinct but not increasing abscissas are not covered for Cubic.
- Interp.New: for a Quadratic table it builds the corrected spline, whose linear coefficients are b_j = slope_j - c_j h_j. The source stores the slopes (src/interp.rs:142). On four or more points the model's interpolator therefore differs from the program's, as `Interp.QuadraticAsWrittenMissesNode` shows.
- Interp.SplineCoefficients: its Quadratic branch returns the corrected coefficients, not the slopes the source returns. The as-written branch is `Interp.QuadraticCoefficientsAsWritten`.
- Interp.Extrapolated: the out-of-bounds message does not include the value of x. ExtendSpline for the constant types indexes an empty coefficient vector in the source; the model returns an error.
- Interp.RightHandSides: uses the rises dy_i, which equal the source's `y[i+1] - y[i]`, instead of recomputing them from y.
- Builder: `build` in the source constructs strategy fields that its strategy structs do not declare, and calls the driver's constructor with three arguments where it takes five. The model builds what the code evidently intends: the strategy from the settings, and a driver holding the function, the optional derivative, the strategy, the ceiling and the logging flag.
- RootFinding.Strategy: the `Box<dyn RootFinder>` of the source is a closed sum of the three strategy objects.
- Convergence to a true root and numerical accuracy are not claimed. They depend on f's continuity and on floating point, which are outside the model.
- The tests under `tests/` are not modelled. Their examples rely on floating-point results.

## Findings

| source | as written | input that shows it | evidently intended | confidence | as-written member | corrected member |
|---|---|---|---|---|---|---|
| src/interp.rs:135-143 | the Quadratic branch sets b_j to the slope of segment j while c_j is nonzero on the inner segments, so those segments miss their right node | x = [0, 1, 2, 3], y = [0, 1, 4, 9]: interpolating at the node x = 2 gives 5 instead of 4 | b_j = slope_j - c_j h_j, so that every segment passes through both of its nodes | not executed | Interp.QuadraticCoefficientsAsWritten, Interp.QuadraticAsWrittenMissesNode | Interp.QuadraticCoefficients, Interp.QuadraticMeetsNodes |
| src/root_finding/mod.rs:79 | the cap tests `num_it == max_iterations`, so a counter that starts above the ceiling never meets it; the builder accepts a ceiling of 0 (src/root_finding/builder.rs:48-51) and the counter starts at 1 | Newton-Raphson with f(x) = 1, f'(x) = 1, tolerance 1e-6 and `max_iterations(0)`, over exact reals: every round steps x0 to x0 - 1, should_stop always says continue and the cap never fires, so the loop never ends. In f64 the run from guess 0 lasts until x0 - 1 rounds to x0 (about 2^53 rounds) and then returns a spurious `Ok(x0)` instead of the ceiling error | `num_it >= max_iterations`, so that every search ends within the ceiling | not executed | RootFinding.CeilingReachedAsWritten, RootFinding.UnboundedAtCeilingZero | RootFinding.CeilingReached, RootFinding.Rounds, RootFinding.RoundsBounded |
