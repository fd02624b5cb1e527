/** Brent's method (the library's brent module): a self-contained search
    that keeps the best estimate b, the previous estimate a and a
    contrapoint c, and in every round proposes an inverse quadratic or
    secant point, falling back to bisection when the proposal is not
    trusted. */
module BrentMethod {
  import opened Prelude
  import opened ConvergenceLogging

  const OppositeSigns: string := "F(a) and F(b) must be of opposite signs"
  const FailedToConverge: string := "Failed to converge"

  /** The locals of the search loop: a, b, c with their function values,
      and the last two step sizes d and e. */
  datatype BrentState = BrentState(a: real, b: real, c: real, fa: real, fb: real, fc: real, d: real, e: real)

  /** n / (p * q), one term of the inverse quadratic as the source writes it. */
  function Ratio(n: real, p: real, q: real): real
    requires p != 0.0 && q != 0.0
  {
    n / (p * q)
  }

  /** The quadratic in y through (fa, a), (fb, b), (fc, c), in Lagrange
      form: the inverse of f near the root. */
  function InverseQuadratic(a: real, b: real, c: real, fa: real, fb: real, fc: real, y: real): real
    requires fa != fb && fa != fc && fb != fc
  {
    Ratio(a * (y - fb) * (y - fc), fa - fb, fa - fc)
    + Ratio(b * (y - fa) * (y - fc), fb - fa, fb - fc)
    + Ratio(c * (y - fa) * (y - fb), fc - fa, fc - fb)
  }

  /** The inverse quadratic takes the three points to their abscissas. */
  lemma InverseQuadraticThroughPoints(a: real, b: real, c: real, fa: real, fb: real, fc: real)
    requires fa != fb && fa != fc && fb != fc
    ensures InverseQuadratic(a, b, c, fa, fb, fc, fa) == a
    ensures InverseQuadratic(a, b, c, fa, fb, fc, fb) == b
    ensures InverseQuadratic(a, b, c, fa, fb, fc, fc) == c
  {
    var pa, pb, pc := (fa - fb) * (fa - fc), (fb - fa) * (fb - fc), (fc - fa) * (fc - fb);
    assert pa != 0.0 && pb != 0.0 && pc != 0.0;
    assert a * (fa - fb) * (fa - fc) / pa == a;
    assert b * (fb - fa) * (fb - fc) / pb == b;
    assert c * (fc - fa) * (fc - fb) / pc == c;
  }

  /** The interpolated proposal: inverse quadratic interpolation when fc
      differs from fa and fb, the secant through a and b otherwise. The
      source divides by fa - fb in both; when that is zero the proposal is
      an infinity or NaN, which the acceptance test always rejects, so it
      is modelled as no proposal at all. */
  function Candidate(a: real, b: real, c: real, fa: real, fb: real, fc: real): (r: Option<real>)
    ensures r.None? <==> fa == fb
    ensures r.Some? && fa != fc && fb != fc ==> r.value == InverseQuadratic(a, b, c, fa, fb, fc, 0.0)
    ensures r.Some? && !(fa != fc && fb != fc) ==> fb * (b - a) + (fb - fa) * (r.value - b) == 0.0
  {
    if fa != fc && fb != fc then
      if fa != fb then
        var s := Ratio(a * fb * fc, fa - fb, fa - fc)
                 + Ratio(b * fa * fc, fb - fa, fb - fc)
                 + Ratio(c * fa * fb, fc - fa, fc - fb);
        InverseQuadraticAtZero(a, b, c, fa, fb, fc, s);
        Some(s)
      else None
    else if fb != fa then
      var s := b - fb * (b - a) / (fb - fa);
      SecantZero(a, b, fa, fb, s);
      Some(s)
    else None
  }


  lemma InverseQuadraticAtZero(a: real, b: real, c: real, fa: real, fb: real, fc: real, s: real)
    requires fa != fb && fa != fc && fb != fc
    requires s == Ratio(a * fb * fc, fa - fb, fa - fc)
                  + Ratio(b * fa * fc, fb - fa, fb - fc)
                  + Ratio(c * fa * fb, fc - fa, fc - fb)
    ensures s == InverseQuadratic(a, b, c, fa, fb, fc, 0.0)
  {
    assert a * (0.0 - fb) * (0.0 - fc) == a * fb * fc;
    assert b * (0.0 - fa) * (0.0 - fc) == b * fa * fc;
    assert c * (0.0 - fa) * (0.0 - fb) == c * fa * fb;
  }

  lemma SecantZero(a: real, b: real, fa: real, fb: real, s: real)
    requires fb != fa && s == b - fb * (b - a) / (fb - fa)
    ensures fb * (b - a) + (fb - fa) * (s - b) == 0.0
  {
    assert (fb - fa) * (s - b) == -(fb * (b - a));
  }

  /** The rule that rejects the proposal and takes a bisection step: no
      proposal, a proposal not strictly between (3a+b)/4 and b, a previous
      step e below the tolerance, or a proposal within the tolerance of b. */
  predicate Bisects(st: BrentState, cand: Option<real>, tolerance: real) {
    || cand.None?
    || !((3.0 * st.a + st.b) / 4.0 < cand.value && cand.value < st.b)
    || Abs(st.e) < tolerance
    || Abs(cand.value - st.b) < tolerance
  }

  /** The point s of a round, with the new step sizes d and e. */
  datatype Choice = Choice(s: real, d: real, e: real)

  function Choose(st: BrentState, tolerance: real): (r: Choice)
    // the point of every round lies between a and b
    ensures st.a <= r.s <= st.b || st.b <= r.s <= st.a
    // bisection: the midpoint; the step sizes shift by one
    ensures Bisects(st, Candidate(st.a, st.b, st.c, st.fa, st.fb, st.fc), tolerance) ==>
      r.s - st.a == st.b - r.s && r.d == st.b - st.a && r.e == st.d
    // interpolation: the proposal, which the one-sided test only accepts
    // when a < b, strictly inside (a, b)
    ensures !Bisects(st, Candidate(st.a, st.b, st.c, st.fa, st.fb, st.fc), tolerance) ==>
      && Candidate(st.a, st.b, st.c, st.fa, st.fb, st.fc) == Some(r.s)
      && st.a < r.s < st.b
      && r.d == st.e && r.e == st.b - st.a
  {
    var cand := Candidate(st.a, st.b, st.c, st.fa, st.fb, st.fc);
    if Bisects(st, cand, tolerance) then Choice((st.a + st.b) / 2.0, st.b - st.a, st.d)
    else Choice(cand.value, st.e, st.b - st.a)
  }

  /** What one round of the loop does: stop with s, or go on from a new
      state after one evaluation f(s). */
  datatype StepResult = Converged(root: real) | Continued(next: BrentState, s: real, fs: real)

  function Step(st: BrentState, f: real -> real, tolerance: real): (r: StepResult)
    // the loop invariant: after the swap, b is the better estimate
    ensures r.Continued? ==> Abs(r.next.fb) <= Abs(r.next.fa)
  {
    var ch := Choose(st, tolerance);
    if Abs(ch.s - st.b) < tolerance || Abs(st.fb) < tolerance then Converged(ch.s)
    else
      var fs := f(ch.s);
      var (c, fc) := if st.fb * fs < 0.0 then (st.b, st.fb) else (st.c, st.fc);
      var next := if Abs(st.fb) < Abs(fs)
                  then BrentState(ch.s, st.b, c, fs, st.fb, fc, ch.d, ch.e)
                  else BrentState(st.b, ch.s, c, st.fb, fs, fc, ch.d, ch.e);
      Continued(next, ch.s, fs)
  }

  /** What a round does. The stop test looks at s and at the old b and
      f(b), before f(s) is evaluated. Otherwise f is evaluated once, at s;
      the new a and b are the old b and s, ordered so that |f(b)| <= |f(a)|;
      the contrapoint moves to the old b exactly when f changes sign from b
      to s; the step sizes are those Choose picked. These unfold Step for
      the loop proof of FindRoot; the lasting property of a round is
      Step's own ensures. */
  lemma StepFacts(st: BrentState, f: real -> real, tolerance: real)
    ensures var r, ch := Step(st, f, tolerance), Choose(st, tolerance);
      && (r.Converged? <==> Abs(ch.s - st.b) < tolerance || Abs(st.fb) < tolerance)
      && (r.Converged? ==> r.root == ch.s)
      && (r.Continued? ==> r.s == ch.s && r.fs == f(r.s))
      && (r.Continued? ==>
            multiset{(r.next.a, r.next.fa), (r.next.b, r.next.fb)} == multiset{(st.b, st.fb), (r.s, r.fs)})
      && (r.Continued? && st.fb * r.fs < 0.0 ==> r.next.c == st.b && r.next.fc == st.fb)
      && (r.Continued? && !(st.fb * r.fs < 0.0) ==> r.next.c == st.c && r.next.fc == st.fc)
      && (r.Continued? ==> r.next.d == ch.d && r.next.e == ch.e)
  {
  }

  /** The state the loop starts from: b is the endpoint with the smaller
      |f|, the contrapoint is the other one, and both step sizes are b - a. */
  function Initial(x0: real, x1: real, f0: real, f1: real): (r: BrentState)
    ensures Abs(r.fb) <= Abs(r.fa)
    ensures multiset{(r.a, r.fa), (r.b, r.fb)} == multiset{(x0, f0), (x1, f1)}
    ensures r.c == r.a && r.fc == r.fa && r.d == r.b - r.a && r.e == r.d
  {
    if Abs(f0) < Abs(f1) then BrentState(x1, x0, x1, f1, f0, f1, x0 - x1, x0 - x1)
    else BrentState(x0, x1, x0, f0, f1, f0, x1 - x0, x1 - x0)
  }

  /** The result of a search and the entries it logged. */
  datatype BrentOutcome = BrentOutcome(result: Result<real>, entries: seq<IterationEntry>)

  /** The rounds i, i + 1, ..., maxIterations - 1 of the loop from st. */
  function Iterate(st: BrentState, i: nat, maxIterations: nat, f: real -> real, tolerance: real,
                   log: bool): BrentOutcome
    decreases maxIterations - i
  {
    if i >= maxIterations then BrentOutcome(Err(FailedToConverge), [])
    else
      match Step(st, f, tolerance)
      case Converged(s) => BrentOutcome(Ok(s), [])
      case Continued(next, s, fs) =>
        var rest := Iterate(next, i + 1, maxIterations, f, tolerance, log);
        var logged := if log then [IterationEntry(i, [s], [fs])] else [];
        rest.(entries := logged + rest.entries)
  }

  /** The outcome o of a search that had already logged `done`. */
  function Prepend(done: seq<IterationEntry>, o: BrentOutcome): BrentOutcome {
    o.(entries := done + o.entries)
  }

  /** One round of Iterate below the ceiling: a one-step unfolding of
      Iterate for the loop proof of FindRoot, not a property of its own. */
  lemma IterateStep(st: BrentState, i: nat, maxIterations: nat, f: real -> real, tolerance: real, log: bool)
    requires i < maxIterations
    ensures var r := Step(st, f, tolerance);
      var o := Iterate(st, i, maxIterations, f, tolerance, log);
      && (r.Converged? ==> o == BrentOutcome(Ok(r.root), []))
      && (r.Continued? ==>
            o == Prepend(if log then [IterationEntry(i, [r.s], [r.fs])] else [],
                         Iterate(r.next, i + 1, maxIterations, f, tolerance, log)))
  {
  }

  /** find_root as a function of the configuration. */
  function Search(x0: real, x1: real, f: real -> real, tolerance: real, maxIterations: nat,
                  log: bool): (o: BrentOutcome)
    // both endpoints are evaluated and logged as round 0 before the sign check
    ensures log ==> |o.entries| >= 1 && o.entries[0] == IterationEntry(0, [x0, x1], [f(x0), f(x1)])
    // endpoints of the same sign: the error, with nothing evaluated after
    ensures f(x0) * f(x1) > 0.0 ==>
      o == BrentOutcome(Err(OppositeSigns), if log then [IterationEntry(0, [x0, x1], [f(x0), f(x1)])] else [])
    ensures !(f(x0) * f(x1) > 0.0) ==>
      o.result == Iterate(Initial(x0, x1, f(x0), f(x1)), 1, maxIterations, f, tolerance, log).result
  {
    var fa, fb := f(x0), f(x1);
    var first := if log then [IterationEntry(0, [x0, x1], [fa, fb])] else [];
    if fa * fb > 0.0 then BrentOutcome(Err(OppositeSigns), first)
    else
      var o := Iterate(Initial(x0, x1, fa, fb), 1, maxIterations, f, tolerance, log);
      o.(entries := first + o.entries)
  }

  /** The loop ends by convergence or after its last round: a failure
      means every round from i up to maxIterations - 1 was run. With logging
      on, each round that did not converge logged one entry, numbered from
      i, holding s and f(s); with logging off nothing is logged. */
  lemma {:induction false} IterateFacts(st: BrentState, i: nat, maxIterations: nat, f: real -> real,
                                        tolerance: real, log: bool)
    decreases maxIterations - i
    ensures var o := Iterate(st, i, maxIterations, f, tolerance, log);
      && (o.result.Err? ==> o.result.error == FailedToConverge)
      && (!log ==> o.entries == [])
      && (log && o.result.Err? ==> |o.entries| == if i <= maxIterations then maxIterations - i else 0)
      && (log ==> forall k :: 0 <= k < |o.entries| ==>
            && o.entries[k].iteration == i + k
            && |o.entries[k].x| == 1
            && o.entries[k].fx == [f(o.entries[k].x[0])])
  {
    if i < maxIterations {
      var r := Step(st, f, tolerance);
      if r.Continued? {
        IterateFacts(r.next, i + 1, maxIterations, f, tolerance, log);
        var rest := Iterate(r.next, i + 1, maxIterations, f, tolerance, log);
        var o := Iterate(st, i, maxIterations, f, tolerance, log);
        if log {
          assert o.entries == [IterationEntry(i, [r.s], [r.fs])] + rest.entries;
          forall k | 1 <= k < |o.entries|
            ensures o.entries[k].iteration == i + k && |o.entries[k].x| == 1
                    && o.entries[k].fx == [f(o.entries[k].x[0])]
          {
            assert o.entries[k] == rest.entries[k - 1];
          }
        }
      }
    }
  }

  /** A whole search fails only for the two reasons of the source; with
      logging off it logs nothing; with logging on its entries after round
      0 are numbered 1, 2, ... and hold s and f(s); and a search that runs
      out of rounds has evaluated f at both endpoints and then in each of
      the rounds 1 to maxIterations - 1. */
  lemma SearchFacts(x0: real, x1: real, f: real -> real, tolerance: real, maxIterations: nat, log: bool)
    ensures var o := Search(x0, x1, f, tolerance, maxIterations, log);
      && (o.result.Err? ==> o.result.error == OppositeSigns || o.result.error == FailedToConverge)
      && (!log ==> o.entries == [])
      && (log ==> forall k :: 1 <= k < |o.entries| ==>
            && o.entries[k].iteration == k
            && |o.entries[k].x| == 1
            && o.entries[k].fx == [f(o.entries[k].x[0])])
      && (log && o.result == Err(FailedToConverge) ==>
            |o.entries| == if maxIterations >= 1 then maxIterations else 1)
  {
    var init := Initial(x0, x1, f(x0), f(x1));
    IterateFacts(init, 1, maxIterations, f, tolerance, log);
    var o := Search(x0, x1, f, tolerance, maxIterations, log);
    if log && !(f(x0) * f(x1) > 0.0) {
      var rest := Iterate(init, 1, maxIterations, f, tolerance, log);
      assert o.entries == [IterationEntry(0, [x0, x1], [f(x0), f(x1)])] + rest.entries;
      forall k | 1 <= k < |o.entries|
        ensures o.entries[k].iteration == k && |o.entries[k].x| == 1
                && o.entries[k].fx == [f(o.entries[k].x[0])]
      {
        assert o.entries[k] == rest.entries[k - 1];
      }
    }
  }

  /** The search as the library holds it: the configuration the builder
      gives it and the log it writes. */
  class BrentRootFinder {
    const x0: real
    const x1: real
    const tolerance: real
    const target: real -> real
    const maxIterations: nat
    const logConvergence: bool
    const convergenceLog: ConvergenceLog

    constructor (x0: real, x1: real, tolerance: real, target: real -> real, maxIterations: nat,
                 logConvergence: bool)
      ensures this.x0 == x0 && this.x1 == x1 && this.tolerance == tolerance
      ensures this.target == target && this.maxIterations == maxIterations
      ensures this.logConvergence == logConvergence
      ensures fresh(convergenceLog) && convergenceLog.Valid() && convergenceLog.iterations == []
    {
      this.x0 := x0;
      this.x1 := x1;
      this.tolerance := tolerance;
      this.target := target;
      this.maxIterations := maxIterations;
      this.logConvergence := logConvergence;
      this.convergenceLog := new ConvergenceLog();
    }

    /** find_root: the loop of the source, proved to compute Search and to
        leave exactly Search's entries in the log. */
    method FindRoot() returns (res: Result<real>)
      requires convergenceLog.Valid()
      modifies convergenceLog
      ensures convergenceLog.Valid()
      ensures var o := Search(x0, x1, target, tolerance, maxIterations, logConvergence);
        res == o.result && convergenceLog.iterations == o.entries
    {
      convergenceLog.Reset();
      var a, b := x0, x1;
      var fa, fb := target(a), target(b);
      if logConvergence {
        convergenceLog.AddEntry(0, [a, b], [fa, fb]);
      }
      if fa * fb > 0.0 {
        return Err(OppositeSigns);
      }
      if Abs(fa) < Abs(fb) {
        a, b := b, a;
        fa, fb := fb, fa;
      }
      var c, fc := a, fa;
      var d := b - a;
      var e := d;
      ghost var init := Initial(x0, x1, target(x0), target(x1));
      assert BrentState(a, b, c, fa, fb, fc, d, e) == init;
      assert Search(x0, x1, target, tolerance, maxIterations, logConvergence)
             == Prepend(convergenceLog.iterations, Iterate(init, 1, maxIterations, target, tolerance, logConvergence));
      res := Rounds(BrentState(a, b, c, fa, fb, fc, d, e));
    }

    /** The for loop of find_root, rounds 1 to maxIterations - 1, on the
        locals a, b, c, fa, fb, fc, d, e held together as one BrentState. */
    method Rounds(init: BrentState) returns (res: Result<real>)
      requires convergenceLog.Valid() && Abs(init.fb) <= Abs(init.fa)
      modifies convergenceLog
      ensures convergenceLog.Valid()
      ensures var o := Iterate(init, 1, maxIterations, target, tolerance, logConvergence);
        res == o.result && convergenceLog.iterations == old(convergenceLog.iterations) + o.entries
    {
      ghost var first := convergenceLog.iterations;
      ghost var whole := Iterate(init, 1, maxIterations, target, tolerance, logConvergence);
      var st := init;
      var i := 1;
      while i < maxIterations
        invariant 1 <= i
        invariant Abs(st.fb) <= Abs(st.fa)
        invariant convergenceLog.Valid()
        invariant Prepend(first, whole)
                  == Prepend(convergenceLog.iterations, Iterate(st, i, maxIterations, target, tolerance, logConvergence))
        decreases maxIterations - i
      {
        IterateStep(st, i, maxIterations, target, tolerance, logConvergence);
        ghost var before := convergenceLog.iterations;
        ghost var r := Step(st, target, tolerance);
        var root;
        root, st := Round(st, i);
        if root.Some? {
          assert Prepend(first, whole) == Prepend(before, BrentOutcome(Ok(root.value), []));
          return Ok(root.value);
        }
        LogTwice(before, if logConvergence then [IterationEntry(i, [r.s], [r.fs])] else [],
                 Iterate(st, i + 1, maxIterations, target, tolerance, logConvergence).entries);
        i := i + 1;
      }
      assert Prepend(first, whole) == Prepend(convergenceLog.iterations, BrentOutcome(Err(FailedToConverge), []));
      return Err(FailedToConverge);
    }
    /** One round of the loop of find_root on its locals a, b, c, fa, fb,
        fc, d, e (held together as a BrentState): the proposal and the
        bisection fallback, the stop test, one evaluation of f, the log entry
        and the contrapoint and order updates. */
    method Round(st: BrentState, i: nat) returns (root: Option<real>, next: BrentState)
      requires convergenceLog.Valid()
      modifies convergenceLog
      ensures convergenceLog.Valid()
      ensures var r := Step(st, target, tolerance);
        && (r.Converged? ==> root == Some(r.root) && convergenceLog.iterations == old(convergenceLog.iterations))
        && (r.Continued? ==>
              && root.None? && next == r.next
              && convergenceLog.iterations
                 == old(convergenceLog.iterations) + if logConvergence then [IterationEntry(i, [r.s], [r.fs])] else [])
    {
      var a, b, c, fa, fb, fc, d, e := st.a, st.b, st.c, st.fa, st.fb, st.fc, st.d, st.e;
      var s: real;
      var cand := Candidate(a, b, c, fa, fb, fc);
      if || cand.None?
         || !((3.0 * a + b) / 4.0 < cand.value && cand.value < b)
         || Abs(e) < tolerance || Abs(cand.value - b) < tolerance
      {
        s := (a + b) / 2.0;
        e := d;
        d := b - a;
      } else {
        s := cand.value;
        d := e;
        e := b - a;
      }
      a := b;
      fa := fb;
      if Abs(s - b) < tolerance || Abs(fb) < tolerance {
        return Some(s), st;
      }
      b := s;
      fb := target(s);
      if logConvergence {
        convergenceLog.AddEntry(i, [s], [fb]);
      }
      if fa * fb < 0.0 {
        c := a;
        fc := fa;
      }
      if Abs(fa) < Abs(fb) {
        a, b := b, a;
        fa, fb := fb, fa;
      }
      return None, BrentState(a, b, c, fa, fb, fc, d, e);
    }

    /** get_convergence_log: the log of the latest search. */
    method GetConvergenceLog() returns (log: ConvergenceLog)
      ensures log == convergenceLog
    {
      log := convergenceLog;
    }
  }
}
