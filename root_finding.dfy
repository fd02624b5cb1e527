/** The common iteration protocol and its driver (the library's
    root_finding module): a strategy proposes points, the driver evaluates
    the target function (and its derivative, when one was given) there,
    logs the round, asks the strategy whether to stop and otherwise asks it
    for the next points, up to an iteration ceiling. */
module RootFinding {
  import opened Prelude
  import opened ConvergenceLogging
  import B = BisectionMethod
  import S = SecantMethod
  import N = NewtonRaphsonMethod

  datatype RootFindingMethod = Bisection | Brent | Secant | InverseQuadraticInterpolation | NewtonRaphson

  const MaxIterationsReached: string := "Maximum iterations reached without convergence."

  /** The state of whichever strategy the driver owns, as a value. */
  datatype StrategyState =
    | BisectionState(bisection: B.BisectionState)
    | SecantState(secant: S.SecantState)
    | NewtonState(newton: N.NewtonState)

  /** How many points the strategy asks for in every round. */
  function Arity(st: StrategyState): nat {
    match st
    case BisectionState(_) => 2
    case SecantState(_) => 2
    case NewtonState(_) => 1
  }

  function ArgsOf(st: StrategyState): (r: seq<real>)
    ensures |r| == Arity(st)
  {
    match st
    case BisectionState(s) => B.Args(s)
    case SecantState(s) => S.Args(s)
    case NewtonState(s) => N.Args(s)
  }

  /** get_init_args of the protocol, on values. */
  function InitState(st: StrategyState): (r: StrategyState)
    ensures Arity(r) == Arity(st)
  {
    match st
    case BisectionState(s) => BisectionState(B.Init(s))
    case SecantState(_) => st
    case NewtonState(_) => st
  }

  /** What a strategy's should_stop and get_next_args index without a
      check: two values for the bracketing strategies, and for Newton-Raphson
      one value and one derivative value. */
  predicate Evaluable(st: StrategyState, fx: seq<real>, dfx: seq<real>) {
    |fx| == Arity(st) && (st.NewtonState? ==> |dfx| >= 1)
  }

  /** What get_next_args divides by must be nonzero over reals. */
  predicate NextDefined(st: StrategyState, fx: seq<real>, dfx: seq<real>)
    requires Evaluable(st, fx, dfx)
  {
    match st
    case BisectionState(_) => true
    case SecantState(_) => fx[1] != fx[0]
    case NewtonState(_) => dfx[0] != 0.0
  }

  /** should_stop of the protocol, dispatched on the strategy. */
  function ShouldStop(st: StrategyState, fx: seq<real>, dfx: seq<real>): (r: Option<Result<real>>)
    requires Evaluable(st, fx, dfx)
    // the theorem the driver relies on: when a strategy says "continue",
    // the division in its next get_next_args is defined
    ensures r.None? ==> NextDefined(st, fx, dfx)
  {
    match st
    case BisectionState(s) => B.ShouldStop(s, fx[0], fx[1])
    case SecantState(s) => S.ShouldStop(s, fx[0], fx[1])
    case NewtonState(s) => N.ShouldStop(s, fx[0], dfx[0])
  }

  /** get_next_args of the protocol, on values. */
  function NextState(st: StrategyState, fx: seq<real>, dfx: seq<real>): (r: StrategyState)
    requires Evaluable(st, fx, dfx) && NextDefined(st, fx, dfx)
    ensures Arity(r) == Arity(st)
  {
    match st
    case BisectionState(s) => BisectionState(B.Next(s, fx[0], fx[1]))
    case SecantState(s) => SecantState(S.Next(s, fx[0], fx[1]))
    case NewtonState(s) => NewtonState(N.Next(s, fx[0], dfx[0]))
  }

  /** f at every point, in order. */
  function Evaluate(f: real -> real, xs: seq<real>): (r: seq<real>)
    ensures |r| == |xs|
    ensures forall i :: 0 <= i < |xs| ==> r[i] == f(xs[i])
  {
    seq(|xs|, i requires 0 <= i < |xs| => f(xs[i]))
  }

  /** The derivative values of one round: none without a derivative,
      otherwise one per point. */
  function DerivativeValues(df: Option<real -> real>, xs: seq<real>): (r: seq<real>)
    ensures df.None? ==> r == []
    ensures df.Some? ==> |r| == |xs|
  {
    if df.Some? then Evaluate(df.value, xs) else []
  }

  /** A Newton-Raphson strategy reads a derivative value every round. */
  predicate Configured(st: StrategyState, df: Option<real -> real>) {
    st.NewtonState? ==> df.Some?
  }

  /** The decision of should_stop in the round that evaluates st's points. */
  function Decision(st: StrategyState, f: real -> real, df: Option<real -> real>): Option<Result<real>>
    requires Configured(st, df)
  {
    var args := ArgsOf(st);
    ShouldStop(st, Evaluate(f, args), DerivativeValues(df, args))
  }

  /** What a search leaves behind: its result, the strategy's last state,
      the iteration counter and the entries logged. */
  datatype RunOutcome = RunOutcome(result: Result<real>, state: StrategyState, numIt: nat, entries: seq<IterationEntry>)

  /** The ceiling test of find_root as the source writes it: the counter
      equals the ceiling. A counter that starts above the ceiling (a ceiling
      of 0, which the builder accepts) never meets it. */
  predicate CeilingReachedAsWritten(numIt: nat, maxIterations: nat) {
    numIt == maxIterations
  }

  /** The ceiling test the driver evidently intends: the counter has
      reached the ceiling or passed it. */
  predicate CeilingReached(numIt: nat, maxIterations: nat) {
    numIt >= maxIterations
  }

  /** With a ceiling of 0 the written test never stops the search over
      exact reals: f = 1 and f' = 1 make Newton-Raphson step by -1 in every
      round, and should_stop, with a tolerance of at most 1, always says
      "continue". Round k + 1 starts at guess x0 - k and hands on to round
      k + 2 at x0 - (k + 1), and the counter 1 + k never equals 0. (In f64
      the step vanishes once x0 - 1 rounds to x0, about 2^53 rounds from a
      guess of 0, and the source then returns that x0 as a root.) */
  lemma UnboundedAtCeilingZero(x0: real, tolerance: real, k: nat)
    requires tolerance <= 1.0
    ensures var st := NewtonState(N.NewtonState(x0 - k as real, tolerance));
      var one := (x: real) => 1.0;
      && Configured(st, Some(one))
      && Decision(st, one, Some(one)).None?
      && !CeilingReachedAsWritten(1 + k, 0)
      && NextState(st, [1.0], [1.0]) == NewtonState(N.NewtonState(x0 - (k + 1) as real, tolerance))
  {
    var st := NewtonState(N.NewtonState(x0 - k as real, tolerance));
    var one := (x: real) => 1.0;
    assert Evaluate(one, ArgsOf(st)) == [1.0];
    assert DerivativeValues(Some(one), ArgsOf(st)) == [1.0];
  }

  /** The driver loop of find_root as a function: the rounds from state st
      with counter numIt, stopped by the intended ceiling test. */
  function Rounds(st: StrategyState, numIt: nat, maxIterations: nat, f: real -> real,
                  df: Option<real -> real>, log: bool): (o: RunOutcome)
    requires Configured(st, df)
    decreases maxIterations - numIt
    ensures numIt <= o.numIt && (o.numIt == numIt || o.numIt <= maxIterations)
    ensures Arity(o.state) == Arity(st) && Configured(o.state, df)
  {
    var args := ArgsOf(st);
    var fx := Evaluate(f, args);
    var dfx := DerivativeValues(df, args);
    var logged := if log then [IterationEntry(numIt, args, fx)] else [];
    match ShouldStop(st, fx, dfx)
    case Some(res) => RunOutcome(res, st, numIt, logged)
    case None =>
      if CeilingReached(numIt, maxIterations) then
        RunOutcome(Err(MaxIterationsReached), st, numIt, logged)
      else
        var rest := Rounds(NextState(st, fx, dfx), numIt + 1, maxIterations, f, df, log);
        rest.(entries := logged + rest.entries)
  }

  /** The outcome of a search that had already logged `done` before
      reaching the rounds of o. */
  function Resume(done: seq<IterationEntry>, o: RunOutcome): RunOutcome {
    o.(entries := done + o.entries)
  }

  /** RoundsStep after earlier entries: the outcome with the entries so far
      equals the outcome of the next rounds with this round's entry added. */
  lemma RoundsContinue(st: StrategyState, numIt: nat, maxIterations: nat, f: real -> real,
                       df: Option<real -> real>, log: bool, before: seq<IterationEntry>)
    requires numIt < maxIterations && Configured(st, df)
    requires Decision(st, f, df).None?
    ensures var args := ArgsOf(st);
      var fx, dfx := Evaluate(f, args), DerivativeValues(df, args);
      var logged := if log then [IterationEntry(numIt, args, fx)] else [];
      NextDefined(st, fx, dfx) &&
      Resume(before, Rounds(st, numIt, maxIterations, f, df, log))
        == Resume(before + logged, Rounds(NextState(st, fx, dfx), numIt + 1, maxIterations, f, df, log))
  {
    RoundsStep(st, numIt, maxIterations, f, df, log);
    var args := ArgsOf(st);
    var fx, dfx := Evaluate(f, args), DerivativeValues(df, args);
    var logged := if log then [IterationEntry(numIt, args, fx)] else [];
    LogTwice(before, logged, Rounds(NextState(st, fx, dfx), numIt + 1, maxIterations, f, df, log).entries);
  }

  /** A round whose should_stop answers, or that reaches the ceiling, ends
      the search with what it logged. A one-step unfolding of Rounds for the
      loop proof of FindRoot, not a property of its own. */
  lemma RoundsStop(st: StrategyState, numIt: nat, maxIterations: nat, f: real -> real,
                   df: Option<real -> real>, log: bool)
    requires Configured(st, df)
    requires Decision(st, f, df).Some? || CeilingReached(numIt, maxIterations)
    ensures var args := ArgsOf(st);
      var logged := if log then [IterationEntry(numIt, args, Evaluate(f, args))] else [];
      Rounds(st, numIt, maxIterations, f, df, log)
        == RunOutcome(if Decision(st, f, df).Some? then Decision(st, f, df).value else Err(MaxIterationsReached),
                      st, numIt, logged)
  {
  }

  /** A round that continues below the ceiling logs itself and hands on to
      the rounds from the next state. A one-step unfolding of Rounds for the
      loop proof of FindRoot, not a property of its own. */
  lemma RoundsStep(st: StrategyState, numIt: nat, maxIterations: nat, f: real -> real,
                   df: Option<real -> real>, log: bool)
    requires numIt < maxIterations && Configured(st, df)
    requires Decision(st, f, df).None?
    ensures var args := ArgsOf(st);
      var fx, dfx := Evaluate(f, args), DerivativeValues(df, args);
      var logged := if log then [IterationEntry(numIt, args, fx)] else [];
      NextDefined(st, fx, dfx) &&
      Rounds(st, numIt, maxIterations, f, df, log)
        == Resume(logged, Rounds(NextState(st, fx, dfx), numIt + 1, maxIterations, f, df, log))
  {
  }

  /** The result of a search is the last should_stop answer unchanged, or,
      when that answer was "continue", the ceiling error, which is only
      reached at the ceiling. */
  lemma {:induction false} RoundsResult(st: StrategyState, numIt: nat, maxIterations: nat, f: real -> real,
                                        df: Option<real -> real>, log: bool)
    requires Configured(st, df)
    decreases maxIterations - numIt
    ensures var o := Rounds(st, numIt, maxIterations, f, df, log);
      && (Decision(o.state, f, df).Some? ==> o.result == Decision(o.state, f, df).value)
      && (Decision(o.state, f, df).None? ==>
            && o.result == Err(MaxIterationsReached)
            && o.numIt == if numIt <= maxIterations then maxIterations else numIt)
  {
    var args := ArgsOf(st);
    var fx, dfx := Evaluate(f, args), DerivativeValues(df, args);
    if ShouldStop(st, fx, dfx).None? && numIt < maxIterations {
      RoundsResult(NextState(st, fx, dfx), numIt + 1, maxIterations, f, df, log);
    }
  }

  /** With logging off a search logs nothing. With logging on it logs one
      entry per round, numbered consecutively from the counter it started
      with, each holding that round's points and the values of f there. */
  lemma {:induction false} RoundsLog(st: StrategyState, numIt: nat, maxIterations: nat, f: real -> real,
                                     df: Option<real -> real>, log: bool)
    requires Configured(st, df)
    decreases maxIterations - numIt
    ensures var o := Rounds(st, numIt, maxIterations, f, df, log);
      && (!log ==> o.entries == [])
      && (log ==> |o.entries| == o.numIt - numIt + 1)
      && (log ==> forall k :: 0 <= k < |o.entries| ==>
            o.entries[k].iteration == numIt + k &&
            |o.entries[k].x| == Arity(st) &&
            o.entries[k].fx == Evaluate(f, o.entries[k].x))
  {
    var args := ArgsOf(st);
    var fx, dfx := Evaluate(f, args), DerivativeValues(df, args);
    if ShouldStop(st, fx, dfx).None? && numIt < maxIterations {
      var next := NextState(st, fx, dfx);
      RoundsLog(next, numIt + 1, maxIterations, f, df, log);
      var rest := Rounds(next, numIt + 1, maxIterations, f, df, log);
      var o := Rounds(st, numIt, maxIterations, f, df, log);
      if log {
        assert o.entries == [IterationEntry(numIt, args, fx)] + rest.entries;
        forall k | 1 <= k < |o.entries|
          ensures o.entries[k].iteration == numIt + k && |o.entries[k].x| == Arity(st)
                  && o.entries[k].fx == Evaluate(f, o.entries[k].x)
        {
          assert o.entries[k] == rest.entries[k - 1];
        }
      }
    }
  }

  /** The ceiling bounds every search: from counter numIt it runs one
      round when the counter already is at or above the ceiling, and
      otherwise at most maxIterations - numIt + 1 rounds. */
  lemma {:induction false} RoundsBounded(st: StrategyState, numIt: nat, maxIterations: nat, f: real -> real,
                                         df: Option<real -> real>)
    requires Configured(st, df)
    ensures var o := Rounds(st, numIt, maxIterations, f, df, true);
      && (numIt >= maxIterations ==> |o.entries| == 1)
      && (numIt < maxIterations ==> 1 <= |o.entries| <= maxIterations - numIt + 1)
  {
    RoundsLog(st, numIt, maxIterations, f, df, true);
  }

  /** The strategy the driver owns: Box<dyn RootFinder> as a closed sum of
      the three strategy objects. */
  datatype Strategy =
    | BisectionFinder(bisection: B.BisectionRootFinder)
    | SecantFinder(secant: S.SecantRootFinder)
    | NewtonFinder(newton: N.NewtonRaphsonRootFinder)
  {
    function Obj(): object {
      match this
      case BisectionFinder(b) => b
      case SecantFinder(s) => s
      case NewtonFinder(n) => n
    }

    function Value(): StrategyState
      reads Obj()
    {
      match this
      case BisectionFinder(b) => BisectionState(b.State())
      case SecantFinder(s) => SecantState(s.State())
      case NewtonFinder(n) => NewtonState(n.State())
    }

    method GetInitArgs() returns (args: seq<real>)
      modifies Obj()
      ensures Value() == InitState(old(Value()))
      ensures args == ArgsOf(Value())
    {
      match this
      case BisectionFinder(b) => args := b.GetInitArgs();
      case SecantFinder(s) => args := s.GetInitArgs();
      case NewtonFinder(n) => args := n.GetInitArgs();
    }

    method GetNextArgs(fx: seq<real>, dfx: seq<real>) returns (args: seq<real>)
      requires Evaluable(Value(), fx, dfx) && NextDefined(Value(), fx, dfx)
      modifies Obj()
      ensures Value() == NextState(old(Value()), fx, dfx)
      ensures args == ArgsOf(Value())
    {
      match this
      case BisectionFinder(b) => args := b.GetNextArgs(fx, dfx);
      case SecantFinder(s) => args := s.GetNextArgs(fx, dfx);
      case NewtonFinder(n) => args := n.GetNextArgs(fx, dfx);
    }
  }

  /** The generic driver: the library's RootFindingIterationDecorator. */
  class RootFindingIterationDecorator {
    const target: real -> real
    const derivative: Option<real -> real>
    var numIt: nat
    const maxIterations: nat
    const logConvergence: bool
    const rootFinder: Strategy
    const convergenceLog: ConvergenceLog

    ghost predicate Valid()
      reads this, convergenceLog
    {
      numIt >= 1 && convergenceLog.Valid() && rootFinder.Obj() != convergenceLog
    }

    constructor (target: real -> real, derivative: Option<real -> real>, rootFinder: Strategy,
                 maxIterations: nat, logConvergence: bool)
      ensures Valid() && fresh(convergenceLog)
      ensures this.target == target && this.derivative == derivative && this.rootFinder == rootFinder
      ensures this.maxIterations == maxIterations && this.logConvergence == logConvergence
      ensures numIt == 1 && convergenceLog.iterations == []
    {
      this.target := target;
      this.derivative := derivative;
      this.numIt := 1;
      this.maxIterations := maxIterations;
      this.logConvergence := logConvergence;
      this.rootFinder := rootFinder;
      this.convergenceLog := new ConvergenceLog();
    }

    /** find_root. The counter is not reset, so a second search continues
        counting where the first stopped; the log is reset, so it holds
        only this search's rounds. The ceiling test is the intended one
        (CeilingReached). A Newton-Raphson strategy without a derivative
        makes the source panic and is excluded. */
    method FindRoot() returns (res: Result<real>)
      requires Valid()
      requires Configured(rootFinder.Value(), derivative)
      modifies this, convergenceLog, rootFinder.Obj()
      ensures Valid()
      ensures var o := Rounds(InitState(old(rootFinder.Value())), old(numIt), maxIterations,
                              target, derivative, logConvergence);
        res == o.result && rootFinder.Value() == o.state && numIt == o.numIt &&
        convergenceLog.iterations == o.entries
    {
      var args := Start();
      ghost var whole := Rounds(rootFinder.Value(), numIt, maxIterations, target, derivative, logConvergence);
      assert whole == Resume([], whole);
      while true
        invariant Valid()
        invariant Configured(rootFinder.Value(), derivative) && args == ArgsOf(rootFinder.Value())
        invariant whole == Resume(convergenceLog.iterations,
                                  Rounds(rootFinder.Value(), numIt, maxIterations, target, derivative, logConvergence))
        decreases maxIterations - numIt
      {
        var stop;
        stop, args := Round(args);
        if stop.Some? {
          return stop.value;
        }
      }
    }

    /** The set-up of find_root: the log is emptied and the strategy takes
        its first points. */
    method Start() returns (args: seq<real>)
      requires Valid()
      modifies convergenceLog, rootFinder.Obj()
      ensures Valid() && convergenceLog.iterations == []
      ensures rootFinder.Value() == InitState(old(rootFinder.Value()))
      ensures args == ArgsOf(rootFinder.Value())
    {
      convergenceLog.Reset();
      args := rootFinder.GetInitArgs();
    }

    /** One round of find_root's loop: evaluate and log, then either stop
        (should_stop answered, or the ceiling is reached) with the outcome of
        the remaining rounds, or advance the strategy and the counter. */
    method Round(args: seq<real>) returns (stop: Option<Result<real>>, nextArgs: seq<real>)
      requires Valid()
      requires Configured(rootFinder.Value(), derivative) && args == ArgsOf(rootFinder.Value())
      modifies this, convergenceLog, rootFinder.Obj()
      ensures Valid() && old(numIt) <= numIt
      ensures Configured(rootFinder.Value(), derivative) && nextArgs == ArgsOf(rootFinder.Value())
      ensures var o := Rounds(old(rootFinder.Value()), old(numIt), maxIterations, target, derivative, logConvergence);
        stop.Some? ==> Resume(old(convergenceLog.iterations), o)
                       == RunOutcome(stop.value, rootFinder.Value(), numIt, convergenceLog.iterations)
      ensures var o := Rounds(old(rootFinder.Value()), old(numIt), maxIterations, target, derivative, logConvergence);
        stop.None? ==>
          && old(numIt) < maxIterations && numIt == old(numIt) + 1
          && Resume(old(convergenceLog.iterations), o)
             == Resume(convergenceLog.iterations,
                       Rounds(rootFinder.Value(), numIt, maxIterations, target, derivative, logConvergence))
    {
      ghost var cur := rootFinder.Value();
      ghost var before := convergenceLog.iterations;
      var fx, dfx := EvaluateAndLog(args);
      ghost var logged := if logConvergence then [IterationEntry(numIt, args, fx)] else [];
      var shouldStop := ShouldStop(rootFinder.Value(), fx, dfx);
      if shouldStop.Some? || CeilingReached(numIt, maxIterations) {
        RoundsStop(cur, numIt, maxIterations, target, derivative, logConvergence);
        nextArgs := args;
        stop := Some(if shouldStop.Some? then shouldStop.value else Err(MaxIterationsReached));
        return;
      }
      RoundsContinue(cur, numIt, maxIterations, target, derivative, logConvergence, before);
      nextArgs := Advance(fx, dfx);
      stop := None;
    }

    /** The second half of a round that goes on: the counter moves on and
        the strategy takes its next points. */
    method Advance(fx: seq<real>, dfx: seq<real>) returns (nextArgs: seq<real>)
      requires Valid() && numIt < maxIterations
      requires Evaluable(rootFinder.Value(), fx, dfx) && NextDefined(rootFinder.Value(), fx, dfx)
      modifies this, rootFinder.Obj()
      ensures Valid() && numIt == old(numIt) + 1
      ensures rootFinder.Value() == NextState(old(rootFinder.Value()), fx, dfx)
      ensures nextArgs == ArgsOf(rootFinder.Value())
    {
      numIt := numIt + 1;
      nextArgs := rootFinder.GetNextArgs(fx, dfx);
    }

    /** The first half of a round of find_root: f (and f', when given) at
        every point, and, with logging on, one entry for the round. */
    method EvaluateAndLog(args: seq<real>) returns (fx: seq<real>, dfx: seq<real>)
      requires Valid()
      modifies convergenceLog
      ensures Valid()
      ensures fx == Evaluate(target, args) && dfx == DerivativeValues(derivative, args)
      ensures convergenceLog.iterations
        == old(convergenceLog.iterations) + if logConvergence then [IterationEntry(numIt, args, fx)] else []
    {
      fx := Evaluate(target, args);
      dfx := [];
      if derivative.Some? {
        dfx := Evaluate(derivative.value, args);
      }
      if logConvergence {
        convergenceLog.AddEntry(numIt, args, fx);
      }
    }

    method GetConvergenceLog() returns (log: ConvergenceLog)
      ensures log == convergenceLog
    {
      log := convergenceLog;
    }
  }
}
