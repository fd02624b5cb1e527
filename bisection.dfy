/** The bisection strategy of the common iteration protocol. Its bracket
    update halves towards the left after a sign change and otherwise steps
    one bracket width to the right, as the library does it. */
module BisectionMethod {
  import opened Prelude

  /** The strategy's fields as a value. */
  datatype BisectionState = BisectionState(x0: real, x1: real, tolerance: real, searchLeft: bool)

  /** The points the strategy asks to have evaluated: both bracket ends. */
  function Args(s: BisectionState): (r: seq<real>)
    ensures |r| == 2
  {
    [s.x0, s.x1]
  }

  /** get_init_args: the right end moves to the midpoint, so the first
      bracket is the left half of the one configured. */
  function Init(s: BisectionState): (r: BisectionState)
    ensures r.x0 == s.x0 && r.x1 - r.x0 == s.x1 - r.x1
    ensures r.x1 - r.x0 == (s.x1 - s.x0) / 2.0
    ensures r.tolerance == s.tolerance && r.searchLeft == s.searchLeft
  {
    s.(x1 := (s.x0 + s.x1) / 2.0)
  }

  /** get_next_args on the values fx0, fx1 at the two bracket ends. */
  function Next(s: BisectionState, fx0: real, fx1: real): (r: BisectionState)
    // a sign change keeps the left half of the bracket
    ensures fx0 * fx1 < 0.0 ==> r.x0 == s.x0 && r.x1 - r.x0 == s.x1 - r.x1 && r.searchLeft
    // otherwise the bracket moves right by its own width
    ensures !(fx0 * fx1 < 0.0) ==> r.x0 == s.x1 && r.x1 - r.x0 == s.x1 - s.x0 && !r.searchLeft
    ensures r.tolerance == s.tolerance
  {
    if fx0 * fx1 < 0.0 then
      s.(x1 := (s.x0 + s.x1) / 2.0, searchLeft := true)
    else
      var x1 := s.x1 * 2.0 - s.x0;
      s.(x0 := (s.x0 + x1) / 2.0, x1 := x1, searchLeft := false)
  }

  /** should_stop on the values fx0, fx1: converged, reporting the midpoint,
      when the value on the side last explored or the signed bracket width
      is below tolerance; bisection never reports an error. */
  function ShouldStop(s: BisectionState, fx0: real, fx1: real): (r: Option<Result<real>>)
    ensures r.Some? <==> Abs(if s.searchLeft then fx1 else fx0) < s.tolerance || s.x1 - s.x0 < s.tolerance
    ensures r.Some? ==> r.value.Ok? && r.value.value - s.x0 == s.x1 - r.value.value
  {
    var fxmid := if s.searchLeft then fx1 else fx0;
    var mid := (s.x0 + s.x1) / 2.0;
    if Abs(fxmid) < s.tolerance || s.x1 - s.x0 < s.tolerance then Some(Ok(mid)) else None
  }

  /** The state after get_next_args has been applied to each pair of values
      in turn. */
  function Steps(s: BisectionState, fxs: seq<(real, real)>): BisectionState
    decreases |fxs|
  {
    if fxs == [] then s else Steps(Next(s, fxs[0].0, fxs[0].1), fxs[1..])
  }

  /** How many of the value pairs have opposite signs. */
  function SignChanges(fxs: seq<(real, real)>): nat
  {
    if fxs == [] then 0 else (if fxs[0].0 * fxs[0].1 < 0.0 then 1 else 0) + SignChanges(fxs[1..])
  }

  /** 2^k as a real; its ensures (positivity, so that dividing by it is
      defined) is a helper fact for StepsWidth. */
  function Pow2(k: nat): (r: real)
    ensures r > 0.0
  {
    if k == 0 then 1.0 else 2.0 * Pow2(k - 1)
  }

  /** The width of the bracket after a run of updates is the starting width
      halved once for every update that saw a sign change: the expand step
      never changes the width. */
  lemma {:induction false} StepsWidth(s: BisectionState, fxs: seq<(real, real)>)
    decreases |fxs|
    ensures var r := Steps(s, fxs); r.x1 - r.x0 == (s.x1 - s.x0) / Pow2(SignChanges(fxs))
    ensures Steps(s, fxs).tolerance == s.tolerance
  {
    if fxs != [] {
      var n := Next(s, fxs[0].0, fxs[0].1);
      StepsWidth(n, fxs[1..]);
      var k := SignChanges(fxs[1..]);
      if fxs[0].0 * fxs[0].1 < 0.0 {
        assert n.x1 - n.x0 == (s.x1 - s.x0) / 2.0;
        assert SignChanges(fxs) == k + 1;
        calc {
          (n.x1 - n.x0) / Pow2(k);
          ((s.x1 - s.x0) / 2.0) / Pow2(k);
          (s.x1 - s.x0) / (2.0 * Pow2(k));
        }
      } else {
        assert SignChanges(fxs) == k;
      }
    }
  }

  /** The strategy object: the library's BisectionRootFinder, whose
      get_init_args and get_next_args update its fields in place. */
  class BisectionRootFinder {
    var x0: real
    var x1: real
    const tolerance: real
    var searchLeft: bool

    function State(): BisectionState
      reads this
    {
      BisectionState(x0, x1, tolerance, searchLeft)
    }

    constructor (x0: real, x1: real, tolerance: real, searchLeft: bool)
      ensures State() == BisectionState(x0, x1, tolerance, searchLeft)
    {
      this.x0 := x0;
      this.x1 := x1;
      this.tolerance := tolerance;
      this.searchLeft := searchLeft;
    }

    method GetInitArgs() returns (args: seq<real>)
      modifies this
      ensures State() == Init(old(State()))
      ensures args == Args(State())
    {
      var mid := (x0 + x1) / 2.0;
      x1 := mid;
      args := [x0, x1];
    }

    /** The source unpacks fx into exactly two values and panics otherwise. */
    method GetNextArgs(fx: seq<real>, dfx: seq<real>) returns (args: seq<real>)
      requires |fx| == 2
      modifies this
      ensures State() == Next(old(State()), fx[0], fx[1])
      ensures args == Args(State())
    {
      var fx0, fx1 := fx[0], fx[1];
      if fx0 * fx1 < 0.0 {
        var mid := (x0 + x1) / 2.0;
        x1 := mid;
        searchLeft := true;
      } else {
        x1 := x1 * 2.0 - x0;
        var mid := (x0 + x1) / 2.0;
        x0 := mid;
        searchLeft := false;
      }
      args := [x0, x1];
    }
  }
}
